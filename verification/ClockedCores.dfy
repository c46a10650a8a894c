/**
 * The three cores as clocked machines: pipeline registers around the shared parts. One tick of each is the step
 * that its refinement proof is about.
 */
module ClockedCores {
  import opened Prelude
  import opened Instructions
  import opened Sequential
  import opened PredicateUnits
  import opened InFlight
  import opened Refinement
  import opened ChannelBuffers
  import opened Runs
  import opened CoreParts
  import TDX
  import TDX1X2
  import Late = IntegerCore

  const NO_OPERANDS := Operands(0, 0, 0)

  /** The word a load reads in its scratchpad stage. */
  function Loaded(s: Slot, scratchpad: seq<Word>, x: Operands): Word {
    if s.Op() == LSW then Load(scratchpad, x.a) else 0
  }

  /** The step of the core, register by register. */
  lemma ThreeStageStep(hw: Hardware, s: TDX.State, c: Cycle)
    ensures
      var r := TDX.Result(hw.m.alu, s);
      var fetched := TDX.DecodeOperands(s.dp, s.d, s.x.Dest(), r);
      var triggered := Triggered(hw, StageView(hw, s.pu.predicates, s.dp, s.d.Icd(), [s.d.Oci(), s.x.Oci()]));
      var offered := if s.pu.Plain? && (s.d.WritesPredicate() || s.x.WritesPredicate()) then Bubble else triggered;
      var miss := Miss(s.pu, s.x.Dest(), r != 0);
      var override := Override(s.pu, s.x.Dest(), r != 0, offered);
      TDX.Step(hw, s, c) == TDX.State(
        NextStorage(hw, s.dp, s.x, r, s.d, fetched, s.d, c),
        Clock(s.pu, s.x.Dest(), r != 0, offered, c.prediction),
        if miss || override then Bubble else offered,
        if miss then Bubble else s.d,
        if miss then NO_OPERANDS else fetched,
        Loaded(s.d, s.dp.scratchpad, fetched))
  {
    hide StageView, Triggered, NextStorage, Clock, Override, Miss, Load, TDX.DecodeOperands, TDX.Result;
  }

  class ThreeStageCore {
    const parts: Parts
    var d: Slot
    var x: Slot
    var operands: Operands
    var loaded: Word

    ghost predicate Valid()
      reads this, parts, parts.Repr
    {
      this !in parts.Repr && parts.Valid()
    }

    ghost function Registers(): TDX.State
      requires Valid()
      reads this, parts, parts.Repr
    {
      TDX.State(parts.Storage(), parts.Unit(), d, x, operands, loaded)
    }

    constructor (hw: Hardware, words: seq<nat>, registers: seq<Word>, scratchpad: seq<Word>, speculative: bool)
      requires hw.m.cp.channelBufferDepth > 0 && PowerOfTwo(hw.m.cp.channelBufferDepth) && ProgramLoaded(hw, words)
      ensures Valid() && fresh(parts.Repr) && parts.hw == hw
      ensures ThreeStage(Registers())
           == Reset(T_D_X, EmptyStorage(hw.m.cp, registers, scratchpad), ResetUnit(hw.m.cp.numPredicates, speculative))
    {
      hide ProgramLoaded, PowerOfTwo, EmptyStorage, ResetUnit;
      parts := new Parts(hw, words, registers, scratchpad, speculative);
      d, x, operands, loaded := Bubble, Bubble, NO_OPERANDS, 0;
    }

    lemma Unfold()
      ensures Valid() <==> this !in parts.Repr && parts.Valid()
      ensures Valid() ==> Registers() == TDX.State(parts.Storage(), parts.Unit(), d, x, operands, loaded)
    {
    }

    method Tick(c: Cycle)
      requires Valid()
      modifies this, parts.Repr
      ensures Valid() && Registers() == TDX.Step(parts.hw, old(Registers()), c)
    {
      hide *;
      Unfold();
      ghost var now := Registers();
      var triggered, _ := parts.Trigger(d.Icd(), [d.Oci(), x.Oci()]);
      var r := Result();
      var offered := if parts.IsPlain() && (d.WritesPredicate() || x.WritesPredicate()) then Bubble else triggered;
      var fetched := parts.Fetch(d, x.Dest(), r);
      var word := Loaded(d, parts.scratchpad, fetched);
      ThreeStageStep(parts.hw, now, c);
      parts.WhatIsRead();
      var override, miss := parts.Edge(x, r, d, fetched, d, offered, c);
      Latch(if override then Bubble else offered, miss, fetched, word);
    }

    /** The pipeline registers, after everything around them. */
    method Latch(issued: Slot, miss: bool, fetched: Operands, word: Word)
      requires this !in parts.Repr && parts.Valid()
      modifies this
      ensures Valid()
      ensures Registers() == TDX.State(
        old(parts.Storage()), old(parts.Unit()),
        if miss then Bubble else issued,
        if miss then Bubble else old(d), if miss then NO_OPERANDS else fetched, word)
    {
      hide *;
      if miss {
        d, x, operands := Bubble, Bubble, NO_OPERANDS;
      } else {
        d, x, operands := issued, d, fetched;
      }
      loaded := word;
      Unfold();
    }

    /** The result multiplexer. */
    method Result() returns (r: Word)
      requires Valid()
      ensures r == TDX.Result(parts.hw.m.alu, Registers())
    {
      match x {
        case Bubble => r := 0;
        case Busy(i) =>
          if i.op == SSW || i.op == LSW {
            r := loaded;
          } else {
            r := parts.hw.m.alu(i.op, operands.a, operands.b, operands.c);
          }
      }
    }
  }

  /** The step of the core, register by register. */
  lemma FourStageStep(hw: Hardware, s: TDX1X2.State, c: Cycle)
    ensures
      var r := TDX1X2.Result(s);
      var fetched := TDX.DecodeOperands(s.dp, s.d, s.x2.Dest(), r);
      var triggered := Triggered(hw, StageView(hw, s.pu.predicates, s.dp, s.d.Icd(), [s.d.Oci(), s.x1.Oci(), s.x2.Oci()]));
      var control := s.pu.Plain? && (s.d.WritesPredicate() || s.x1.WritesPredicate() || s.x2.WritesPredicate());
      var offered := if control || TDX1X2.RawHazard(triggered, s.d) then Bubble else triggered;
      var miss := Miss(s.pu, s.x2.Dest(), r != 0);
      var override := Override(s.pu, s.x2.Dest(), r != 0, offered);
      TDX1X2.Step(hw, s, c) == TDX1X2.State(
        NextStorage(hw, s.dp, s.x2, r, s.x1, s.operands, s.d, c),
        Clock(s.pu, s.x2.Dest(), r != 0, offered, c.prediction),
        if miss || override then Bubble else offered,
        if miss then Bubble else s.d,
        if miss then NO_OPERANDS else fetched,
        if miss then Bubble else s.x1,
        hw.m.alu(s.x1.Op(), s.operands.a, s.operands.b, 0),
        Loaded(s.x1, s.dp.scratchpad, s.operands))
  {
    hide StageView, Triggered, NextStorage, Clock, Override, Miss, Load, TDX.DecodeOperands, TDX1X2.Result, TDX1X2.RawHazard;
  }

  class FourStageCore {
    const parts: Parts
    var d: Slot
    var x1: Slot
    var operands: Operands
    var x2: Slot
    var computed: Word
    var loaded: Word

    ghost predicate Valid()
      reads this, parts, parts.Repr
    {
      this !in parts.Repr && parts.Valid()
    }

    ghost function Registers(): TDX1X2.State
      requires Valid()
      reads this, parts, parts.Repr
    {
      TDX1X2.State(parts.Storage(), parts.Unit(), d, x1, operands, x2, computed, loaded)
    }

    constructor (hw: Hardware, words: seq<nat>, registers: seq<Word>, scratchpad: seq<Word>, speculative: bool)
      requires hw.m.cp.channelBufferDepth > 0 && PowerOfTwo(hw.m.cp.channelBufferDepth) && ProgramLoaded(hw, words)
      ensures Valid() && fresh(parts.Repr) && parts.hw == hw
      ensures FourStage(Registers())
           == Reset(T_D_X1_X2, EmptyStorage(hw.m.cp, registers, scratchpad), ResetUnit(hw.m.cp.numPredicates, speculative))
    {
      hide ProgramLoaded, PowerOfTwo, EmptyStorage, ResetUnit;
      parts := new Parts(hw, words, registers, scratchpad, speculative);
      d, x1, x2, operands, computed, loaded := Bubble, Bubble, Bubble, NO_OPERANDS, 0, 0;
    }

    lemma Unfold()
      ensures Valid() <==> this !in parts.Repr && parts.Valid()
      ensures Valid() ==> Registers() == TDX1X2.State(parts.Storage(), parts.Unit(), d, x1, operands, x2, computed, loaded)
    {
    }

    method Tick(c: Cycle)
      requires Valid()
      modifies this, parts.Repr
      ensures Valid() && Registers() == TDX1X2.Step(parts.hw, old(Registers()), c)
    {
      hide *;
      Unfold();
      ghost var now := Registers();
      var triggered, _ := parts.Trigger(d.Icd(), [d.Oci(), x1.Oci(), x2.Oci()]);
      var control := parts.IsPlain() && (d.WritesPredicate() || x1.WritesPredicate() || x2.WritesPredicate());
      var offered := if control || TDX1X2.RawHazard(triggered, d) then Bubble else triggered;
      var r := Result();
      var fetched := parts.Fetch(d, x2.Dest(), r);
      var sum := parts.hw.m.alu(x1.Op(), operands.a, operands.b, 0);
      var word := Loaded(x1, parts.scratchpad, operands);
      FourStageStep(parts.hw, now, c);
      parts.WhatIsRead();
      var override, miss := parts.Edge(x2, r, x1, operands, d, offered, c);
      Latch(if override then Bubble else offered, miss, fetched, sum, word);
    }

    /** The pipeline registers, after everything around them. */
    method Latch(issued: Slot, miss: bool, fetched: Operands, sum: Word, word: Word)
      requires this !in parts.Repr && parts.Valid()
      modifies this
      ensures Valid()
      ensures Registers() == TDX1X2.State(
        old(parts.Storage()), old(parts.Unit()),
        if miss then Bubble else issued,
        if miss then Bubble else old(d), if miss then NO_OPERANDS else fetched,
        if miss then Bubble else old(x1), sum, word)
    {
      hide *;
      if miss {
        d, x1, operands, x2 := Bubble, Bubble, NO_OPERANDS, Bubble;
      } else {
        d, x1, operands, x2 := issued, d, fetched, x1;
      }
      computed, loaded := sum, word;
      Unfold();
    }

    /** The result multiplexer. */
    method Result() returns (r: Word)
      requires Valid()
      ensures r == TDX1X2.Result(Registers())
    {
      match x2 {
        case Bubble => r := 0;
        case Busy(i) => r := if i.op == SSW || i.op == LSW then loaded else computed;
      }
    }
  }

  /** The step of the core, register by register. */
  lemma IntegerStep(hw: Hardware, s: Late.State, c: Cycle)
    ensures
      var r := Late.Result(hw.m.alu, s);
      var retiring := Late.Retiring(s);
      var stage := Late.RetiringStage(s.dx1.Op());
      var forward := stage == 2 && s.x2Stage == 2 && Late.Unit(s.dx1.Op()) != Late.ALU;
      var fetched := TDX.DecodeOperands(s.dp, s.dx1, if forward then s.x2.Dest() else NullDestination, r);
      var triggered := Triggered(hw, StageView(hw, s.pu.predicates, s.dp, s.dx1.Icd(), [s.dx1.Oci(), s.x2.Oci()]));
      var control := s.pu.Plain? && (s.dx1.WritesPredicate() || s.x2.WritesPredicate());
      var offered := if control || Late.Collision(triggered.Op(), stage) then Bubble else triggered;
      var miss := Miss(s.pu, retiring.Dest(), r != 0);
      var override := Override(s.pu, retiring.Dest(), r != 0, offered);
      var late := !miss && stage == 2;
      Late.Step(hw, s, c) == Late.State(
        NextStorage(hw, s.dp, retiring, r, s.dx1, fetched, s.dx1, c),
        Clock(s.pu, retiring.Dest(), r != 0, offered, c.prediction),
        if miss || override then Bubble else offered,
        if late then s.dx1 else Bubble,
        if late then 2 else 0,
        if late then Late.Unit(s.dx1.Op()) else Late.ALU,
        Loaded(s.dx1, s.dp.scratchpad, fetched),
        if Late.Unit(s.dx1.Op()) == Late.IMU then hw.m.alu(s.dx1.Op(), fetched.a, fetched.b, fetched.c) else 0)
  {
    hide StageView, Triggered, NextStorage, Clock, Override, Miss, Load, TDX.DecodeOperands, Late.Result, Late.Retiring, Late.RetiringStage,
         Late.Unit, Late.Collision;
  }

  class IntegerCore {
    const parts: Parts
    var dx1: Slot
    var x2: Slot
    var x2Stage: nat
    var x2Unit: Late.FunctionalUnit
    var loaded: Word
    var multiplied: Word

    ghost predicate Valid()
      reads this, parts, parts.Repr
    {
      this !in parts.Repr && parts.Valid()
    }

    ghost function Registers(): Late.State
      requires Valid()
      reads this, parts, parts.Repr
    {
      Late.State(parts.Storage(), parts.Unit(), dx1, x2, x2Stage, x2Unit, loaded, multiplied)
    }

    constructor (hw: Hardware, words: seq<nat>, registers: seq<Word>, scratchpad: seq<Word>, speculative: bool)
      requires hw.m.cp.channelBufferDepth > 0 && PowerOfTwo(hw.m.cp.channelBufferDepth) && ProgramLoaded(hw, words)
      ensures Valid() && fresh(parts.Repr) && parts.hw == hw
      ensures Integer(Registers())
           == Reset(T_DX1_X2, EmptyStorage(hw.m.cp, registers, scratchpad), ResetUnit(hw.m.cp.numPredicates, speculative))
    {
      hide ProgramLoaded, PowerOfTwo, EmptyStorage, ResetUnit;
      parts := new Parts(hw, words, registers, scratchpad, speculative);
      dx1, x2, x2Stage, x2Unit, loaded, multiplied := Bubble, Bubble, 0, Late.ALU, 0, 0;
    }

    lemma Unfold()
      ensures Valid() <==> this !in parts.Repr && parts.Valid()
      ensures Valid() ==>
        Registers() == Late.State(parts.Storage(), parts.Unit(), dx1, x2, x2Stage, x2Unit, loaded, multiplied)
    {
    }

    method Tick(c: Cycle)
      requires Valid()
      modifies this, parts.Repr
      ensures Valid() && Registers() == Late.Step(parts.hw, old(Registers()), c)
    {
      hide *;
      Unfold();
      ghost var now := Registers();
      var triggered, _ := parts.Trigger(dx1.Icd(), [dx1.Oci(), x2.Oci()]);
      var stage, unit := Late.RetiringStage(dx1.Op()), Late.Unit(dx1.Op());
      var control := parts.IsPlain() && (dx1.WritesPredicate() || x2.WritesPredicate());
      var offered := if control || Late.Collision(triggered.Op(), stage) then Bubble else triggered;
      var retiring, r := Retire();
      var forward := stage == 2 && x2Stage == 2 && unit != Late.ALU;
      var fetched := parts.Fetch(dx1, if forward then x2.Dest() else NullDestination, r);
      var word := Loaded(dx1, parts.scratchpad, fetched);
      var product := if unit == Late.IMU then parts.hw.m.alu(dx1.Op(), fetched.a, fetched.b, fetched.c) else 0;
      IntegerStep(parts.hw, now, c);
      parts.WhatIsRead();
      var override, miss := parts.Edge(retiring, r, dx1, fetched, dx1, offered, c);
      Latch(if miss || override then Bubble else offered, !miss && stage == 2, unit, word, product);
    }

    /** The retirement unit: X2 first, then a one-cycle instruction in DX1 on operands that were never forwarded. */
    method Retire() returns (retiring: Slot, r: Word)
      requires Valid()
      ensures retiring == Late.Retiring(Registers()) && r == Late.Result(parts.hw.m.alu, Registers())
    {
      retiring := if x2Stage == 2 then x2 else if Late.RetiringStage(dx1.Op()) == 1 then dx1 else Bubble;
      if x2Stage == 2 && x2Unit != Late.ALU {
        r := if x2Unit == Late.SM then loaded else multiplied;
      } else {
        var x := parts.Fetch(dx1, NullDestination, 0);
        Unforwarded(parts.Storage(), dx1);
        r := match dx1 {
          case Bubble => 0
          case Busy(i) => parts.hw.m.alu(i.op, x.a, x.b, x.c)
        };
      }
    }

    /** The pipeline registers, after everything around them. */
    method Latch(issued: Slot, late: bool, unit: Late.FunctionalUnit, word: Word, product: Word)
      requires this !in parts.Repr && parts.Valid()
      modifies this
      ensures Valid()
      ensures Registers() == Late.State(
        old(parts.Storage()), old(parts.Unit()), issued,
        if late then old(dx1) else Bubble, if late then 2 else 0, if late then unit else Late.ALU,
        word, product)
    {
      hide *;
      if late {
        dx1, x2, x2Stage, x2Unit := issued, dx1, 2, unit;
      } else {
        dx1, x2, x2Stage, x2Unit := issued, Bubble, 0, Late.ALU;
      }
      loaded, multiplied := word, product;
      Unfold();
    }
  }

  lemma Unforwarded(dp: Datapath, s: Slot)
    ensures s.Busy? ==> TDX.DecodeOperands(dp, s, NullDestination, 0) == ReadOperands(dp, s.i)
  {
  }
}

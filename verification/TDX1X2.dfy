/**
 * The T|D|X1|X2 core: as T|D|X with a two-stage functional unit. Results arrive two cycles after decode, so
 * forwarding from X2 is not enough and the trigger stage waits one cycle behind a register it needs.
 */
module TDX1X2 {
  import opened Prelude
  import opened Instructions
  import opened Sequential
  import opened PredicateUnits
  import opened InFlight
  import opened Refinement
  import opened ChannelBuffers
  import TDX
  import Status = ChannelStatus

  datatype State = State(
    dp: Datapath, pu: PredicateUnit,
    d: Slot,
    x1: Slot, operands: Operands,
    x2: Slot, computed: Word, loaded: Word)

  /** The X2 result multiplexer. */
  function Result(s: State): Word {
    if s.x2.Bubble? then 0
    else if s.x2.i.op == SSW || s.x2.i.op == LSW then s.loaded
    else s.computed
  }

  /** The data hazard detector: a source register of the first instruction is the second one's destination. */
  predicate RawHazard(t: Slot, d: Slot) {
    && t.Busy?
    && d.Dest().RegisterDestination?
    && (|| t.i.sourceA == RegisterSource(d.Dest().index)
        || t.i.sourceB == RegisterSource(d.Dest().index)
        || t.i.sourceC == RegisterSource(d.Dest().index))
  }

  /** This core's functional unit has two operands; programs must not use a third. */
  predicate TwoOperand(program: seq<Instruction>) {
    forall i | i in program :: i.sourceC == NullSource
  }

  function Stages(s: State): seq<seq<nat>> {
    [s.d.Oci(), s.x1.Oci(), s.x2.Oci()]
  }

  function Offered(hw: Hardware, s: State): Slot {
    var t := Triggered(hw, StageView(hw, s.pu.predicates, s.dp, s.d.Icd(), Stages(s)));
    var control := s.pu.Plain? && (s.d.WritesPredicate() || s.x1.WritesPredicate() || s.x2.WritesPredicate());
    if control || RawHazard(t, s.d) then Bubble else t
  }

  function Issued(hw: Hardware, s: State): Slot {
    var r := Result(s);
    var slot := Offered(hw, s);
    if Miss(s.pu, s.x2.Dest(), r != 0) || Override(s.pu, s.x2.Dest(), r != 0, slot) then Bubble else slot
  }

  function Step(hw: Hardware, s: State, c: Cycle): State {
    var r := Result(s);
    var miss := Miss(s.pu, s.x2.Dest(), r != 0);
    State(
      NextStorage(hw, s.dp, s.x2, r, s.x1, s.operands, s.d, c),
      Clock(s.pu, s.x2.Dest(), r != 0, Offered(hw, s), c.prediction),
      Issued(hw, s),
      if miss then Bubble else s.d,
      if miss then Operands(0, 0, 0) else TDX.DecodeOperands(s.dp, s.d, s.x2.Dest(), r),
      if miss then Bubble else s.x1,
      hw.m.alu(s.x1.Op(), s.operands.a, s.operands.b, 0),
      if s.x1.Op() == LSW then Load(s.dp.scratchpad, s.operands.a) else 0)
  }

  // --- Abstraction ---

  function Reading(d: Slot, x: Operands): Entry {
    if d.Bubble? then Done(Bubble, 0) else Fetched(d, x)
  }

  function Entries(s: State): seq<Entry> {
    [Finished(s.x2, Result(s)), Reading(s.x1, s.operands), Pending(s.d)]
  }

  function Abs(hw: Hardware, s: State): Pe {
    Resolve(hw.m.alu, s.dp, Entries(s), s.pu)
  }

  predicate Doomed(hw: Hardware, s: State) {
    WrongPath(hw.m.alu, s.dp, Entries(s), s.pu)
  }

  predicate Invariant(hw: Hardware, s: State) {
    && Sound(hw, s.dp, Entries(s), s.pu)
    && TwoOperand(hw.m.program)
    && !RawHazard(s.d, s.x1)
    && s.operands.c == 0
  }

  function ChoiceOf(hw: Hardware, s: State, c: Cycle): Choice {
    var i := Issued(hw, s);
    Choice(if i.Busy? && !Doomed(hw, s) then Some(i.i) else None, Accepted(hw.m.cp, s.dp, c))
  }

  // --- Advancing two stages at once ---

  function Executed(alu: Alu, dp: Datapath, x1: Slot, x: Operands): Entry {
    if x1.Bubble? then Done(Bubble, 0) else Done(x1, Compute(alu, dp, x1.i.op, x))
  }

  function Decoded(dp: Datapath, d: Slot): Entry {
    if d.Bubble? then Done(Bubble, 0) else Fetched(d, ReadOperands(dp, d.i))
  }

  /** X1 accesses the scratchpad while D dequeues. */
  function Advanced(dp: Datapath, x1: Slot, x: Operands, d: Slot): Datapath {
    Dequeue(Store(dp, x1.Op(), x), d.Icd())
  }

  lemma NoDequeue(dp: Datapath)
    ensures Dequeue(dp, []) == dp
  {
    assert PopChannels(dp.inputs, []) == dp.inputs;
  }

  lemma ExecuteCommutes(alu: Alu, dp: Datapath, x1: Slot, x: Operands, d: Slot)
    ensures
      var (a, r) := Complete(alu, dp, Reading(x1, x));
      Complete(alu, Advanced(dp, x1, x, d), Executed(alu, dp, x1, x)) == (Dequeue(a, d.Icd()), r)
  {
  }

  /** Reading operands before the older instruction writes back is harmless when it writes none of them. */
  lemma ReadCommutes(alu: Alu, dp: Datapath, x1: Slot, x: Operands, d: Slot)
    requires !RawHazard(d, x1) && (d.Busy? ==> d.i.sourceC == NullSource)
    ensures
      var a := Complete(alu, dp, Reading(x1, x)).0;
      Complete(alu, Dequeue(a, d.Icd()), Decoded(dp, d)) == Complete(alu, a, Pending(d))
  {
    var a := Complete(alu, dp, Reading(x1, x)).0;
    if d.Bubble? {
      NoDequeue(a);
    } else {
      UnwrittenOperand(alu, dp, x1, x, d.i, d.i.sourceA);
      UnwrittenOperand(alu, dp, x1, x, d.i, d.i.sourceB);
      UnwrittenOperand(alu, dp, x1, x, d.i, d.i.sourceC);
      var o := ReadOperands(a, d.i);
      assert Decoded(dp, d) == Fetched(d, o);
      hide Operand, Load, PushChannels, PopChannels;
    }
  }

  lemma UnwrittenOperand(alu: Alu, dp: Datapath, x1: Slot, x: Operands, i: Instruction, src: Source)
    requires x1.Dest().RegisterDestination? ==> src != RegisterSource(x1.Dest().index)
    ensures Operand(Complete(alu, dp, Reading(x1, x)).0, i, src) == Operand(dp, i, src)
  {
  }

  lemma StagesAdvance(alu: Alu, dp: Datapath, x1: Slot, x: Operands, d: Slot, pu: PredicateUnit)
    requires !RawHazard(d, x1) && (d.Busy? ==> d.i.sourceC == NullSource)
    requires pu.Speculative? && x1.WritesPredicate() ==> Harmless(d)
    ensures
      var dp2 := Advanced(dp, x1, x, d);
      var moved := [Executed(alu, dp, x1, x), Decoded(dp, d)];
      var rest := [Reading(x1, x), Pending(d)];
      && Resolve(alu, dp2, moved, pu) == Resolve(alu, dp, rest, pu)
      && WrongPath(alu, dp2, moved, pu) == WrongPath(alu, dp, rest, pu)
  {
    var (a, r) := Complete(alu, dp, Reading(x1, x));
    var dp2 := Advanced(dp, x1, x, d);
    var b := Dequeue(a, d.Icd());
    ExecuteCommutes(alu, dp, x1, x, d);
    ReadCommutes(alu, dp, x1, x, d);
    if Harmless(d) { NoDequeue(a); }
    assert [Executed(alu, dp, x1, x)] + [Decoded(dp, d)] == [Executed(alu, dp, x1, x), Decoded(dp, d)];
    assert [Reading(x1, x)] + [Pending(d)] == [Reading(x1, x), Pending(d)];
    hide Complete, Advanced, Dequeue;
    ResolveCons(alu, dp2, Executed(alu, dp, x1, x), [Decoded(dp, d)], pu);
    ResolveCons(alu, dp, Reading(x1, x), [Pending(d)], pu);
    var pu' := if pu.Plain? && x1.WritesPredicate() then Plain(SetPredicate(pu.predicates, x1.Dest().index, r != 0)) else pu;
    ResolveOne(alu, b, Decoded(dp, d), pu');
    ResolveOne(alu, a, Pending(d), pu');
    ResolveOne(alu, b, Decoded(dp, d), pu);
    ResolveOne(alu, a, Pending(d), pu);
  }

  lemma CoversAll(hw: Hardware, s: State)
    ensures Covers(s.dp, Entries(s), Stages(s))
  {
    var x2, x1, d := Finished(s.x2, Result(s)), Reading(s.x1, s.operands), Pending(s.d);
    assert Entries(s) == [x2] + ([x1] + ([d] + []));
    forall c | 0 <= c < |s.dp.outputs| ensures Status.InFlight(Stages(s), c) == OciCount(Entries(s), c) {
      Status.ThreeStages(0, 0, s.d.Oci(), s.x1.Oci(), s.x2.Oci(), c);
      OciCountCons(x2, [x1] + ([d] + []), c);
      OciCountCons(x1, [d] + [], c);
      OciCountCons(d, [], c);
    }
  }

  lemma YoungerAreHarmless(hw: Hardware, s: State)
    requires Sound(hw, s.dp, Entries(s), s.pu)
    ensures s.pu.Speculative? && s.x2.WritesPredicate() ==> Harmless(s.x1) && Harmless(s.d)
    ensures s.pu.Speculative? && s.x1.WritesPredicate() ==> Harmless(s.d)
    ensures s.d.Busy? ==> s.d.i in hw.m.program
  {
    var es, slots := Entries(s), Slots(Entries(s));
    assert slots[0] == s.x2 && slots[1] == s.x1 && slots[2] == s.d;
    assert es[2].slot == s.d && FromProgram(hw, es[2].slot);
  }

  lemma AdvanceStorage(cp: CoreParameters, alu: Alu, dp: Datapath, x2: Slot, r: Word, x1: Slot, x: Operands, d: Slot)
    requires Shaped(cp, dp)
    ensures
      var dp1 := Complete(alu, dp, Finished(x2, r)).0;
      var dp2 := Advanced(dp1, x1, x, d);
      Shaped(cp, dp2) && dp2.outputs == dp1.outputs && Dequeued(dp, dp2, d.Icd())
  {
  }

  lemma AdvanceSlots(alu: Alu, dp: Datapath, x1: Slot, x: Operands, d: Slot)
    ensures
      var moved := [Executed(alu, dp, x1, x), Decoded(dp, d)];
      (forall k | 0 <= k < |moved| :: !moved[k].Pending?) && Slots(moved) == Slots([Reading(x1, x), Pending(d)])
  {
    assert Slots([Executed(alu, dp, x1, x), Decoded(dp, d)]) == [x1, d] == Slots([Reading(x1, x), Pending(d)]);
  }

  /** A harmless instruction moving up changes nothing but itself. */
  lemma HarmlessAdvance(dp: Datapath, x1: Slot, x: Operands, d: Slot)
    requires Harmless(x1) && Harmless(d)
    ensures Advanced(dp, x1, x, d) == dp
  {
    NoDequeue(dp);
  }

  lemma PipelineAdvances(hw: Hardware, s: State)
    requires Invariant(hw, s)
    ensures
      var r := Result(s);
      var dp1 := Complete(hw.m.alu, s.dp, Finished(s.x2, r)).0;
      var dp2 := Advanced(dp1, s.x1, s.operands, s.d);
      var moved := [Executed(hw.m.alu, dp1, s.x1, s.operands), Decoded(dp1, s.d)];
      && Advances(hw, s.dp, Finished(s.x2, r), [Reading(s.x1, s.operands), Pending(s.d)], s.pu, dp2, moved)
      && Dequeued(s.dp, dp2, s.d.Icd())
  {
    var alu := hw.m.alu;
    var r := Result(s);
    var dp1 := Complete(alu, s.dp, Finished(s.x2, r)).0;
    RetiresResult(alu, s);
    YoungerAreHarmless(hw, s);
    ShapedWhenSound(hw, s);
    SettleKeepsKind(s.pu, s.x2.Dest(), r != 0);
    if Miss(s.pu, s.x2.Dest(), r != 0) { HarmlessAdvance(dp1, s.x1, s.operands, s.d); }
    hide Sound, Complete, Advanced, Executed, Decoded, Reading, Finished, Resolve, WrongPath, Slots, Shaped, Dequeued,
         Settle, Harmless, Result, RawHazard;
    AdvanceStorage(hw.m.cp, alu, s.dp, s.x2, r, s.x1, s.operands, s.d);
    AdvanceSlots(alu, dp1, s.x1, s.operands, s.d);
    StagesAdvance(alu, dp1, s.x1, s.operands, s.d, Settle(s.pu, s.x2.Dest(), r != 0));
  }

  lemma RetiresResult(alu: Alu, s: State)
    ensures Complete(alu, s.dp, Finished(s.x2, Result(s))).1 == Result(s)
    ensures Finished(s.x2, Result(s)).slot.Dest() == s.x2.Dest()
  {
  }

  lemma ShapedWhenSound(hw: Hardware, s: State)
    requires Sound(hw, s.dp, Entries(s), s.pu)
    ensures Shaped(hw.m.cp, s.dp)
  {
  }

  // --- One cycle ---

  lemma StorageAfter(hw: Hardware, s: State, c: Cycle)
    requires Invariant(hw, s)
    ensures
      var r := Result(s);
      var dp1 := Complete(hw.m.alu, s.dp, Finished(s.x2, r)).0;
      NextStorage(hw, s.dp, s.x2, r, s.x1, s.operands, s.d, c) == Env(Advanced(dp1, s.x1, s.operands, s.d), Accepted(hw.m.cp, s.dp, c))
  {
    var es := Entries(s);
    assert es[0].slot == s.x2;
    forall k | 0 <= k < |s.dp.outputs| && k in s.x2.Oci() ensures |s.dp.outputs[k]| != hw.m.cp.channelBufferDepth {
      OciCountCovers(es, 0, k);
    }
    StorageIsEdge(hw, s.dp, s.x2, Result(s), s.x1, s.operands, s.d, c);
    hide Sound, Env, Accepted, Complete;
  }

  lemma OperandsWhenInvariant(hw: Hardware, s: State)
    requires Invariant(hw, s)
    ensures s.operands.c == 0
  {
    hide Sound, TwoOperand, RawHazard;
  }

  /** What the latches hold after an edge. */
  lemma LatchesAfter(hw: Hardware, s: State, c: Cycle)
    ensures
      var r := Result(s);
      var loaded := if s.x1.Op() == LSW then Load(s.dp.scratchpad, s.operands.a) else 0;
      var computed := hw.m.alu(s.x1.Op(), s.operands.a, s.operands.b, 0);
      Entries(Step(hw, s, c)) ==
        (if Miss(s.pu, s.x2.Dest(), r != 0) then [Done(Bubble, 0), Done(Bubble, 0)]
         else [Finished(s.x1, if s.x1.Op() == SSW || s.x1.Op() == LSW then loaded else computed),
               Reading(s.d, TDX.DecodeOperands(s.dp, s.d, s.x2.Dest(), r))])
        + [Pending(Issued(hw, s))]
  {
    hide Offered, NextStorage, Override, Miss, Clock, Load, TDX.DecodeOperands;
  }

  lemma EntriesAfter(hw: Hardware, s: State, c: Cycle)
    requires Invariant(hw, s)
    ensures
      var r := Result(s);
      var dp1 := Complete(hw.m.alu, s.dp, Finished(s.x2, r)).0;
      Entries(Step(hw, s, c)) ==
        After(Miss(s.pu, s.x2.Dest(), r != 0),
              [Executed(hw.m.alu, dp1, s.x1, s.operands), Decoded(dp1, s.d)], Issued(hw, s))
  {
    hide *;
    var r := Result(s);
    var miss := Miss(s.pu, s.x2.Dest(), r != 0);
    var dp1 := Complete(hw.m.alu, s.dp, Finished(s.x2, r)).0;
    DecodeReads(hw, s);
    OperandsWhenInvariant(hw, s);
    ExecuteComputes(hw, s);
    AfterThree(miss, Executed(hw.m.alu, dp1, s.x1, s.operands), Decoded(dp1, s.d), Issued(hw, s));
    LatchesAfter(hw, s, c);
  }

  lemma DecodeReads(hw: Hardware, s: State)
    requires Invariant(hw, s)
    ensures
      var r := Result(s);
      Reading(s.d, TDX.DecodeOperands(s.dp, s.d, s.x2.Dest(), r)) == Decoded(Complete(hw.m.alu, s.dp, Finished(s.x2, r)).0, s.d)
  {
    var es := Entries(s);
    assert FromProgram(hw, es[0].slot) && FromProgram(hw, es[2].slot);
    TDX.ForwardingIsReading(hw.m.cp, hw.m.alu, s.dp, s.x2, Result(s), s.d);
  }

  lemma ExecuteComputes(hw: Hardware, s: State)
    requires s.operands.c == 0
    ensures
      var dp1 := Complete(hw.m.alu, s.dp, Finished(s.x2, Result(s))).0;
      var loaded := if s.x1.Op() == LSW then Load(s.dp.scratchpad, s.operands.a) else 0;
      var computed := hw.m.alu(s.x1.Op(), s.operands.a, s.operands.b, 0);
      Executed(hw.m.alu, dp1, s.x1, s.operands)
        == Finished(s.x1, if s.x1.Op() == SSW || s.x1.Op() == LSW then loaded else computed)
  {
  }

  lemma AfterThree(miss: bool, e: Entry, f: Entry, issued: Slot)
    ensures After(miss, [e, f], issued) == (if miss then [Done(Bubble, 0), Done(Bubble, 0)] else [e, f]) + [Pending(issued)]
  {
    assert Bubbles(2) == [Done(Bubble, 0), Done(Bubble, 0)];
  }

  /** What the data hazard bubble is for: an instruction never sits in D behind a register it needs in X1. */
  lemma HazardBubbleSuffices(hw: Hardware, s: State, c: Cycle)
    requires Invariant(hw, s)
    ensures !RawHazard(Step(hw, s, c).d, Step(hw, s, c).x1)
    ensures Step(hw, s, c).operands.c == 0
  {
    var es := Entries(s);
    assert FromProgram(hw, es[2].slot);
  }

  /** What reaches the predicate unit is the trigger stage's choice or a bubble, and never rides behind a write it cannot see. */
  lemma OfferedFrom(hw: Hardware, s: State)
    ensures Offered(hw, s) == Bubble || Offered(hw, s) == Triggered(hw, StageView(hw, s.pu.predicates, s.dp, s.d.Icd(), Stages(s)))
    ensures s.pu.Plain? && Offered(hw, s) != Bubble ==> NoWrites(Entries(s))
  {
    hide Triggered, StageView, Stages, RawHazard, Result;
    assert NoWrites(Entries(s)) <==> !s.x2.WritesPredicate() && !s.x1.WritesPredicate() && !s.d.WritesPredicate() by {
      assert Entries(s)[0].slot == s.x2 && Entries(s)[1].slot == s.x1 && Entries(s)[2].slot == s.d;
    }
  }

  lemma ReadyForCycle(hw: Hardware, s: State)
    requires Invariant(hw, s)
    ensures
      var dp1 := Complete(hw.m.alu, s.dp, Finished(s.x2, Result(s))).0;
      Cyclable(hw, s.dp, Finished(s.x2, Result(s)), [Reading(s.x1, s.operands), Pending(s.d)], s.pu, Stages(s), Offered(hw, s),
               Advanced(dp1, s.x1, s.operands, s.d), [Executed(hw.m.alu, dp1, s.x1, s.operands), Decoded(dp1, s.d)])
  {
    hide Sound, Covers, Advances, Dequeued, Triggered, StageView, Complete, Advanced, Executed, Decoded, Stages, Result,
         Finished, Reading, RawHazard;
    PipelineAdvances(hw, s);
    CoversAll(hw, s);
    OfferedFrom(hw, s);
    assert Entries(s) == [Finished(s.x2, Result(s))] + [Reading(s.x1, s.operands), Pending(s.d)];
  }

  /** The parts of an edge that need no invariant. */
  lemma StepUnfolds(hw: Hardware, s: State, c: Cycle)
    ensures
      var r := Result(s);
      var oldest := Finished(s.x2, r);
      var d := oldest.slot.Dest();
      var es := [oldest] + [Reading(s.x1, s.operands), Pending(s.d)];
      var s' := Step(hw, s, c);
      && Complete(hw.m.alu, s.dp, oldest).1 == r
      && Entries(s) == es && d == s.x2.Dest()
      && Issued(hw, s) == (if Miss(s.pu, d, r != 0) || Override(s.pu, d, r != 0, Offered(hw, s)) then Bubble else Offered(hw, s))
      && s'.dp == NextStorage(hw, s.dp, s.x2, r, s.x1, s.operands, s.d, c)
      && s'.pu == Clock(s.pu, d, r != 0, Offered(hw, s), c.prediction)
  {
    hide Offered, NextStorage, Override, Miss, Clock;
  }

  lemma StepIsAfter(hw: Hardware, s: State, c: Cycle)
    requires Invariant(hw, s)
    ensures
      var r := Result(s);
      var dp1 := Complete(hw.m.alu, s.dp, Finished(s.x2, r)).0;
      var d := Finished(s.x2, r).slot.Dest();
      var wrong := WrongPath(hw.m.alu, s.dp, [Finished(s.x2, r)] + [Reading(s.x1, s.operands), Pending(s.d)], s.pu);
      var s' := Step(hw, s, c);
      && Complete(hw.m.alu, s.dp, Finished(s.x2, r)).1 == r
      && Abs(hw, s) == Resolve(hw.m.alu, s.dp, [Finished(s.x2, r)] + [Reading(s.x1, s.operands), Pending(s.d)], s.pu)
      && Issued(hw, s) == (if Miss(s.pu, d, r != 0) || Override(s.pu, d, r != 0, Offered(hw, s)) then Bubble else Offered(hw, s))
      && ChoiceOf(hw, s, c)
           == Choice(if Issued(hw, s).Busy? && !wrong then Some(Issued(hw, s).i) else None, Accepted(hw.m.cp, s.dp, c))
      && Entries(s') == After(Miss(s.pu, d, r != 0), [Executed(hw.m.alu, dp1, s.x1, s.operands), Decoded(dp1, s.d)], Issued(hw, s))
      && s'.dp == Env(Advanced(dp1, s.x1, s.operands, s.d), Accepted(hw.m.cp, s.dp, c))
      && s'.pu == Clock(s.pu, d, r != 0, Offered(hw, s), c.prediction)
      && Abs(hw, s') == Resolve(hw.m.alu, s'.dp, Entries(s'), s'.pu)
      && Doomed(hw, s) == wrong && Doomed(hw, s') == WrongPath(hw.m.alu, s'.dp, Entries(s'), s'.pu) && d == s.x2.Dest()
      && (Sound(hw, s'.dp, Entries(s'), s'.pu) ==> Invariant(hw, s'))
  {
    hide Sound, Env, Advanced, Accepted, Clock, Resolve, WrongPath, After, Executed, Decoded, Offered, NextStorage,
         Override, Miss, RawHazard, Entries, Step, Complete, Result, Finished, Reading, Issued;
    StepUnfolds(hw, s, c);
    HazardBubbleSuffices(hw, s, c);
    StorageAfter(hw, s, c);
    EntriesAfter(hw, s, c);
  }

  /**
   * One clock cycle of the T|D|X1|X2 core preserves the invariant and is exactly one allowed step of the
   * sequential machine it stands for.
   */
  lemma StepRefines(hw: Hardware, s: State, c: Cycle)
    requires Invariant(hw, s) && !Abs(hw, s).dp.halted
    ensures Invariant(hw, Step(hw, s, c))
    ensures Abs(hw, Step(hw, s, c)) == Sequentially(hw.m, Abs(hw, s), ChoiceOf(hw, s, c))
    ensures Allowed(hw, Abs(hw, s), ChoiceOf(hw, s, c))
    ensures Follows(Miss(s.pu, s.x2.Dest(), Result(s) != 0), Issued(hw, s), Doomed(hw, s), Doomed(hw, Step(hw, s, c)))
  {
    hide *;
    var dp1 := Complete(hw.m.alu, s.dp, Finished(s.x2, Result(s))).0;
    ReadyForCycle(hw, s);
    StepIsAfter(hw, s, c);
    CoreCycle(hw, s.dp, Finished(s.x2, Result(s)), [Reading(s.x1, s.operands), Pending(s.d)], s.pu, Stages(s), Offered(hw, s),
              Advanced(dp1, s.x1, s.operands, s.d), [Executed(hw.m.alu, dp1, s.x1, s.operands), Decoded(dp1, s.d)], c, Abs(hw, s));
  }

  lemma MissFlushes(hw: Hardware, s: State, c: Cycle)
    requires Miss(s.pu, s.x2.Dest(), Result(s) != 0)
    ensures Finished(s.x2, Result(s)).slot.Dest() == s.x2.Dest()
    ensures Step(hw, s, c).d == Step(hw, s, c).x1 == Step(hw, s, c).x2 == Bubble
    ensures Step(hw, s, c).pu.predicates == s.pu.savedPredicates
  {
    hide Result, Offered, NextStorage, TDX.DecodeOperands, NextPredicates;
  }

  /** In the cycle of a miss only the mispredicted instruction itself touches storage, and everything younger is gone. */
  lemma SquashLeavesNoTrace(hw: Hardware, s: State, c: Cycle)
    requires Invariant(hw, s) && Miss(s.pu, s.x2.Dest(), Result(s) != 0)
    ensures Step(hw, s, c).dp == Env(Complete(hw.m.alu, s.dp, Finished(s.x2, Result(s))).0, Accepted(hw.m.cp, s.dp, c))
    ensures Step(hw, s, c).d == Step(hw, s, c).x1 == Step(hw, s, c).x2 == Bubble
    ensures Step(hw, s, c).pu.predicates == s.pu.savedPredicates
  {
    hide *;
    MissFlushes(hw, s, c);
    var dp1 := Complete(hw.m.alu, s.dp, Finished(s.x2, Result(s))).0;
    StepIsAfter(hw, s, c);
    ReadyForCycle(hw, s);
    MissStorage(hw, s.dp, Finished(s.x2, Result(s)), [Reading(s.x1, s.operands), Pending(s.d)], s.pu, Stages(s), Offered(hw, s),
                Advanced(dp1, s.x1, s.operands, s.d), [Executed(hw.m.alu, dp1, s.x1, s.operands), Decoded(dp1, s.d)]);
  }

  /** Decode always finds the channel heads its instruction was triggered on. */
  lemma DecodeFindsItsHeads(hw: Hardware, s: State, c: Cycle)
    ensures Matched(Step(hw, s, c).dp, Step(hw, s, c).d)
  {
    hide StageView, Triggered, Matched, NextInputs, NextOutputs, Miss, Override, Clock, Result, Store, RawHazard;
    IssuedMatches(hw, s.pu.predicates, s.dp, s.d.Icd(), Stages(s), Issued(hw, s), c, Step(hw, s, c).dp);
  }

  /** With nothing in flight no hazard, override or miss can stand in the way of the trigger stage. */
  lemma EmptyIssues(hw: Hardware, s: State)
    requires s.d == s.x1 == s.x2 == Bubble && (s.pu.Speculative? ==> !s.pu.speculating)
    ensures Issued(hw, s) == Triggered(hw, StageView(hw, s.pu.predicates, s.dp, s.d.Icd(), Stages(s)))
  {
    hide StageView, Triggered, Stages, Result;
  }
}

/**
 * The T|D|X core: trigger, decode and execute stages. Decode reads and dequeues, execute writes registers,
 * predicates and output channels, and forwards to decode.
 */
module TDX {
  import opened Prelude
  import opened Instructions
  import opened Sequential
  import opened PredicateUnits
  import opened InFlight
  import opened Refinement
  import opened ChannelBuffers
  import Status = ChannelStatus

  /** The clocked state: architectural storage, predicate unit, and the T|D and D|X pipeline registers. */
  datatype State = State(dp: Datapath, pu: PredicateUnit, d: Slot, x: Slot, operands: Operands, loaded: Word)

  /** The result multiplexer of the execute stage; a bubble is a NOP and computes zero. */
  function Result(alu: Alu, s: State): Word {
    if s.x.Bubble? then 0
    else if s.x.i.op == SSW || s.x.i.op == LSW then s.loaded
    else alu(s.x.i.op, s.operands.a, s.operands.b, s.operands.c)
  }

  /** The operand forwarding unit in front of the D|X register. */
  function Forward(dp: Datapath, i: Instruction, src: Source, d: Destination, r: Word): Word {
    if src.RegisterSource? && d == RegisterDestination(src.index) then r else Operand(dp, i, src)
  }

  function DecodeOperands(dp: Datapath, s: Slot, d: Destination, r: Word): Operands {
    if s.Bubble? then Operands(0, 0, 0)
    else Operands(Forward(dp, s.i, s.i.sourceA, d, r), Forward(dp, s.i, s.i.sourceB, d, r), Forward(dp, s.i, s.i.sourceC, d, r))
  }

  function Stages(s: State): seq<seq<nat>> {
    [s.d.Oci(), s.x.Oci()]
  }

  /** The instruction offered to the predicate unit, after the control hazard bubble. */
  function Offered(hw: Hardware, s: State): Slot {
    var hazard := s.pu.Plain? && (s.d.WritesPredicate() || s.x.WritesPredicate());
    if hazard then Bubble
    else Triggered(hw, StageView(hw, s.pu.predicates, s.dp, s.d.Icd(), Stages(s)))
  }

  function Issued(hw: Hardware, s: State): Slot {
    var r := Result(hw.m.alu, s);
    var slot := Offered(hw, s);
    if Miss(s.pu, s.x.Dest(), r != 0) || Override(s.pu, s.x.Dest(), r != 0, slot) then Bubble else slot
  }

  function Step(hw: Hardware, s: State, c: Cycle): State {
    var r := Result(hw.m.alu, s);
    var x := DecodeOperands(s.dp, s.d, s.x.Dest(), r);
    var miss := Miss(s.pu, s.x.Dest(), r != 0);
    var loaded := if s.d.Op() == LSW then Load(s.dp.scratchpad, x.a) else 0;
    State(
      NextStorage(hw, s.dp, s.x, r, s.d, x, s.d, c),
      Clock(s.pu, s.x.Dest(), r != 0, Offered(hw, s), c.prediction),
      Issued(hw, s),
      if miss then Bubble else s.d,
      if miss then Operands(0, 0, 0) else x,
      loaded)
  }

  // --- Abstraction ---

  function Entries(alu: Alu, s: State): seq<Entry> {
    [Done(s.x, Result(alu, s)), Pending(s.d)]
  }

  /** The sequential processing element this pipeline stands for. */
  function Abs(hw: Hardware, s: State): Pe {
    Resolve(hw.m.alu, s.dp, Entries(hw.m.alu, s), s.pu)
  }

  predicate Doomed(hw: Hardware, s: State) {
    WrongPath(hw.m.alu, s.dp, Entries(hw.m.alu, s), s.pu)
  }

  predicate Invariant(hw: Hardware, s: State) {
    Sound(hw, s.dp, Entries(hw.m.alu, s), s.pu)
  }

  /** The instruction this cycle adds to the sequential execution, with the cycle's link traffic. */
  function ChoiceOf(hw: Hardware, s: State, c: Cycle): Choice {
    var i := Issued(hw, s);
    Choice(if i.Busy? && !Doomed(hw, s) then Some(i.i) else None, Accepted(hw.m.cp, s.dp, c))
  }

  // --- Advancing decode to execute ---

  /** Decode on the storage left by the execute stage. */
  function Decoded(alu: Alu, dp: Datapath, d: Slot): Datapath {
    match d
    case Bubble => dp
    case Busy(i) => Store(Dequeue(dp, i.dequeues), i.op, ReadOperands(dp, i))
  }

  function Latched(alu: Alu, dp: Datapath, d: Slot): Entry {
    match d
    case Bubble => Done(Bubble, 0)
    case Busy(i) => Done(d, Compute(alu, dp, i.op, ReadOperands(dp, i)))
  }

  lemma LatchKeepsMeaning(alu: Alu, dp: Datapath, d: Slot)
    ensures Complete(alu, Decoded(alu, dp, d), Latched(alu, dp, d)) == Complete(alu, dp, Pending(d))
  {
  }

  /** Forwarding gives decode exactly the operands it would read after execute has written back. */
  lemma ForwardingIsReading(cp: CoreParameters, alu: Alu, dp: Datapath, x: Slot, r: Word, d: Slot)
    requires Shaped(cp, dp) && (x.Busy? ==> WellFormed(cp, x.i)) && (d.Busy? ==> WellFormed(cp, d.i))
    ensures d.Busy? ==> DecodeOperands(dp, d, x.Dest(), r) == ReadOperands(Complete(alu, dp, Done(x, r)).0, d.i)
  {
  }

  /** Dequeueing in decode is independent of what execute writes. */
  lemma DecodedIsEdge(alu: Alu, dp: Datapath, x: Slot, r: Word, d: Slot, o: Operands)
    requires d.Busy? ==> o == ReadOperands(Complete(alu, dp, Finished(x, r)).0, d.i)
    ensures Edge(alu, dp, x, r, d, o, d) == Decoded(alu, Complete(alu, dp, Finished(x, r)).0, d)
  {
    var dp1 := Complete(alu, dp, Finished(x, r)).0;
    hide Complete, ReadOperands;
    assert d.Bubble? ==> PopChannels(dp1.inputs, []) == dp1.inputs;
  }

  lemma RoomToRetire(hw: Hardware, s: State)
    requires Invariant(hw, s)
    ensures forall k | 0 <= k < |s.dp.outputs| && k in s.x.Oci() :: |s.dp.outputs[k]| != hw.m.cp.channelBufferDepth
  {
    var es := Entries(hw.m.alu, s);
    assert es[0].slot == s.x;
    forall k | 0 <= k < |s.dp.outputs| && k in s.x.Oci() ensures |s.dp.outputs[k]| != hw.m.cp.channelBufferDepth {
      OciCountCovers(es, 0, k);
    }
  }

  lemma OperandsAreRead(hw: Hardware, s: State)
    requires Invariant(hw, s)
    ensures
      var r := Result(hw.m.alu, s);
      s.d.Busy? ==> DecodeOperands(s.dp, s.d, s.x.Dest(), r) == ReadOperands(Complete(hw.m.alu, s.dp, Done(s.x, r)).0, s.d.i)
  {
    var r := Result(hw.m.alu, s);
    var es := Entries(hw.m.alu, s);
    assert es[0].slot == s.x && es[1].slot == s.d;
    ForwardingIsReading(hw.m.cp, hw.m.alu, s.dp, s.x, r, s.d);
  }

  lemma StepEntries(hw: Hardware, s: State, c: Cycle)
    requires Invariant(hw, s)
    ensures
      var r := Result(hw.m.alu, s);
      var dp1 := Complete(hw.m.alu, s.dp, Done(s.x, r)).0;
      var s' := Step(hw, s, c);
      var miss := Miss(s.pu, s.x.Dest(), r != 0);
      && Entries(hw.m.alu, s') == [if miss then Done(Bubble, 0) else Latched(hw.m.alu, dp1, s.d), Pending(Issued(hw, s))]
      && s'.dp == Env(Decoded(hw.m.alu, dp1, s.d), Accepted(hw.m.cp, s.dp, c))
  {
    var r := Result(hw.m.alu, s);
    var o := DecodeOperands(s.dp, s.d, s.x.Dest(), r);
    assert Finished(s.x, r) == Done(s.x, r);
    RoomToRetire(hw, s);
    OperandsAreRead(hw, s);
    StorageIsEdge(hw, s.dp, s.x, r, s.d, o, s.d, c);
    DecodedIsEdge(hw.m.alu, s.dp, s.x, r, s.d, o);
    ScratchpadUntouched(hw.m.alu, s.dp, s.x, r);
    hide Sound, Env, Decoded, Accepted, Edge, NextStorage, Offered, Override, Miss, Clock, Complete, ReadOperands, DecodeOperands;
  }

  lemma ScratchpadUntouched(alu: Alu, dp: Datapath, x: Slot, r: Word)
    ensures Complete(alu, dp, Done(x, r)).0.scratchpad == dp.scratchpad
  {
  }

  // --- One cycle ---

  lemma CoversBoth(hw: Hardware, s: State)
    ensures Covers(s.dp, Entries(hw.m.alu, s), Stages(s))
  {
    var x, d := Done(s.x, Result(hw.m.alu, s)), Pending(s.d);
    assert Entries(hw.m.alu, s) == [x] + ([d] + []);
    forall c | 0 <= c < |s.dp.outputs| ensures Status.InFlight(Stages(s), c) == OciCount(Entries(hw.m.alu, s), c) {
      Status.TwoStages(0, 0, s.d.Oci(), s.x.Oci(), c);
      OciCountCons(x, [d] + [], c);
      OciCountCons(d, [], c);
    }
  }

  /** Decode changes neither what its instruction stands for nor anything an older one has to write. */
  lemma DecodeResolves(alu: Alu, dp: Datapath, d: Slot, pu: PredicateUnit)
    ensures Resolve(alu, Decoded(alu, dp, d), [Latched(alu, dp, d)], pu) == Resolve(alu, dp, [Pending(d)], pu)
    ensures WrongPath(alu, Decoded(alu, dp, d), [Latched(alu, dp, d)], pu) == WrongPath(alu, dp, [Pending(d)], pu)
  {
    LatchKeepsMeaning(alu, dp, d);
    ResolveOne(alu, dp, Pending(d), pu);
    ResolveOne(alu, Decoded(alu, dp, d), Latched(alu, dp, d), pu);
    assert Latched(alu, dp, d).slot == d;
    hide Complete, Decoded, Latched, Resolve, WrongPath;
  }

  lemma DecodeStorage(cp: CoreParameters, alu: Alu, dp: Datapath, x: Slot, r: Word, d: Slot)
    requires Shaped(cp, dp)
    ensures
      var dp1 := Complete(alu, dp, Done(x, r)).0;
      var dp2 := Decoded(alu, dp1, d);
      Shaped(cp, dp2) && dp2.outputs == dp1.outputs && Dequeued(dp, dp2, d.Icd())
  {
  }

  lemma DecodeSlots(alu: Alu, dp: Datapath, d: Slot)
    ensures !Latched(alu, dp, d).Pending? && Slots([Latched(alu, dp, d)]) == Slots([Pending(d)])
  {
    assert Slots([Latched(alu, dp, d)])[0] == d;
  }

  lemma DecodeAdvances(hw: Hardware, s: State)
    requires Invariant(hw, s)
    ensures
      var r := Result(hw.m.alu, s);
      var dp1 := Complete(hw.m.alu, s.dp, Done(s.x, r)).0;
      var dp2 := Decoded(hw.m.alu, dp1, s.d);
      && Advances(hw, s.dp, Done(s.x, r), [Pending(s.d)], s.pu, dp2, [Latched(hw.m.alu, dp1, s.d)])
      && Dequeued(s.dp, dp2, s.d.Icd())
  {
    var alu := hw.m.alu;
    var r := Result(alu, s);
    var dp1 := Complete(alu, s.dp, Done(s.x, r)).0;
    assert Complete(alu, s.dp, Done(s.x, r)).1 == if s.x.Bubble? then 0 else r;
    if Miss(s.pu, s.x.Dest(), r != 0) {
      YoungerIsHarmless(hw, s, r);
      HarmlessDecode(alu, dp1, s.d);
    }
    ShapedWhenSound(hw, s);
    hide Sound, Complete, Decoded, Latched, Resolve, WrongPath, Slots, Shaped, Dequeued, Settle;
    DecodeStorage(hw.m.cp, alu, s.dp, s.x, r, s.d);
    DecodeSlots(alu, dp1, s.d);
    DecodeResolves(alu, dp1, s.d, Settle(s.pu, s.x.Dest(), r != 0));
  }

  lemma ShapedWhenSound(hw: Hardware, s: State)
    requires Invariant(hw, s)
    ensures Shaped(hw.m.cp, s.dp)
  {
  }

  lemma YoungerIsHarmless(hw: Hardware, s: State, r: Word)
    requires Invariant(hw, s) && Miss(s.pu, s.x.Dest(), r != 0)
    ensures Harmless(s.d)
  {
    var slots := Slots(Entries(hw.m.alu, s));
    assert slots[0] == s.x && slots[1] == s.d;
  }

  lemma HarmlessDecode(alu: Alu, dp: Datapath, d: Slot)
    requires Harmless(d)
    ensures Decoded(alu, dp, d) == dp
  {
    assert PopChannels(dp.inputs, []) == dp.inputs;
  }

  lemma AfterTwo(miss: bool, e: Entry, issued: Slot)
    ensures After(miss, [e], issued) == [if miss then Done(Bubble, 0) else e, Pending(issued)]
  {
  }

  /** What reaches the predicate unit is the trigger stage's choice or a bubble, and never rides behind a write it cannot see. */
  lemma OfferedFrom(hw: Hardware, s: State)
    ensures Offered(hw, s) == Bubble || Offered(hw, s) == Triggered(hw, StageView(hw, s.pu.predicates, s.dp, s.d.Icd(), Stages(s)))
    ensures s.pu.Plain? && Offered(hw, s) != Bubble ==> NoWrites(Entries(hw.m.alu, s))
  {
    hide Triggered, StageView, Stages, Result;
  }

  lemma ReadyForCycle(hw: Hardware, s: State)
    requires Invariant(hw, s)
    ensures
      var oldest := Done(s.x, Result(hw.m.alu, s));
      var dp1 := Complete(hw.m.alu, s.dp, oldest).0;
      Cyclable(hw, s.dp, oldest, [Pending(s.d)], s.pu, Stages(s), Offered(hw, s),
               Decoded(hw.m.alu, dp1, s.d), [Latched(hw.m.alu, dp1, s.d)])
  {
    hide Sound, Covers, Advances, Dequeued, Triggered, StageView, Complete, Decoded, Latched, Stages, Result;
    CoversBoth(hw, s);
    DecodeAdvances(hw, s);
    OfferedFrom(hw, s);
    assert Entries(hw.m.alu, s) == [Done(s.x, Result(hw.m.alu, s))] + [Pending(s.d)];
  }

  /** The parts of an edge that need no invariant. */
  lemma StepUnfolds(hw: Hardware, s: State, c: Cycle)
    ensures
      var r := Result(hw.m.alu, s);
      var d := s.x.Dest();
      var s' := Step(hw, s, c);
      && Complete(hw.m.alu, s.dp, Done(s.x, r)).1 == r
      && Entries(hw.m.alu, s) == [Done(s.x, r)] + [Pending(s.d)]
      && Issued(hw, s) == (if Miss(s.pu, d, r != 0) || Override(s.pu, d, r != 0, Offered(hw, s)) then Bubble else Offered(hw, s))
      && s'.pu == Clock(s.pu, d, r != 0, Offered(hw, s), c.prediction)
  {
    hide Offered, NextStorage, Override, Miss, Clock;
  }

  /** The core's state after an edge, as the shared cycle theorem describes it. */
  lemma StepIsAfter(hw: Hardware, s: State, c: Cycle)
    requires Invariant(hw, s)
    ensures
      var r := Result(hw.m.alu, s);
      var oldest := Done(s.x, r);
      var dp1 := Complete(hw.m.alu, s.dp, oldest).0;
      var d := oldest.slot.Dest();
      var wrong := WrongPath(hw.m.alu, s.dp, [oldest] + [Pending(s.d)], s.pu);
      var s' := Step(hw, s, c);
      && Complete(hw.m.alu, s.dp, oldest).1 == r
      && Abs(hw, s) == Resolve(hw.m.alu, s.dp, [oldest] + [Pending(s.d)], s.pu)
      && Issued(hw, s) == (if Miss(s.pu, d, r != 0) || Override(s.pu, d, r != 0, Offered(hw, s)) then Bubble else Offered(hw, s))
      && ChoiceOf(hw, s, c)
           == Choice(if Issued(hw, s).Busy? && !wrong then Some(Issued(hw, s).i) else None, Accepted(hw.m.cp, s.dp, c))
      && Entries(hw.m.alu, s') == After(Miss(s.pu, d, r != 0), [Latched(hw.m.alu, dp1, s.d)], Issued(hw, s))
      && s'.dp == Env(Decoded(hw.m.alu, dp1, s.d), Accepted(hw.m.cp, s.dp, c))
      && s'.pu == Clock(s.pu, d, r != 0, Offered(hw, s), c.prediction)
      && Abs(hw, s') == Resolve(hw.m.alu, s'.dp, Entries(hw.m.alu, s'), s'.pu)
      && Doomed(hw, s) == wrong && Doomed(hw, s') == WrongPath(hw.m.alu, s'.dp, Entries(hw.m.alu, s'), s'.pu)
      && (Sound(hw, s'.dp, Entries(hw.m.alu, s'), s'.pu) ==> Invariant(hw, s'))
  {
    var r := Result(hw.m.alu, s);
    hide Sound, Env, Decoded, Accepted, Clock, Resolve, WrongPath, After, Latched, Offered, NextStorage, Override, Miss,
         Entries, Step, Complete, Result, Issued;
    StepUnfolds(hw, s, c);
    StepEntries(hw, s, c);
    AfterTwo(Miss(s.pu, s.x.Dest(), r != 0), Latched(hw.m.alu, Complete(hw.m.alu, s.dp, Done(s.x, r)).0, s.d), Issued(hw, s));
  }

  /**
   * One clock cycle of the T|D|X core, with any prediction and any link traffic, preserves the invariant and
   * is exactly one allowed step of the sequential machine it stands for.
   */
  lemma StepRefines(hw: Hardware, s: State, c: Cycle)
    requires Invariant(hw, s) && !Abs(hw, s).dp.halted
    ensures Invariant(hw, Step(hw, s, c))
    ensures Abs(hw, Step(hw, s, c)) == Sequentially(hw.m, Abs(hw, s), ChoiceOf(hw, s, c))
    ensures Allowed(hw, Abs(hw, s), ChoiceOf(hw, s, c))
    ensures Follows(Miss(s.pu, s.x.Dest(), Result(hw.m.alu, s) != 0), Issued(hw, s), Doomed(hw, s), Doomed(hw, Step(hw, s, c)))
  {
    hide *;
    var oldest := Done(s.x, Result(hw.m.alu, s));
    var dp1 := Complete(hw.m.alu, s.dp, oldest).0;
    ReadyForCycle(hw, s);
    StepIsAfter(hw, s, c);
    CoreCycle(hw, s.dp, oldest, [Pending(s.d)], s.pu, Stages(s), Offered(hw, s),
              Decoded(hw.m.alu, dp1, s.d), [Latched(hw.m.alu, dp1, s.d)], c, Abs(hw, s));
  }

  lemma MissFlushes(hw: Hardware, s: State, c: Cycle)
    requires Miss(s.pu, s.x.Dest(), Result(hw.m.alu, s) != 0)
    ensures Step(hw, s, c).d == Step(hw, s, c).x == Bubble
    ensures Step(hw, s, c).pu.predicates == s.pu.savedPredicates
  {
    hide Result, Offered, NextStorage, DecodeOperands, NextPredicates;
  }

  /** In the cycle of a miss only the mispredicted instruction itself touches storage, and everything younger is gone. */
  lemma SquashLeavesNoTrace(hw: Hardware, s: State, c: Cycle)
    requires Invariant(hw, s) && Miss(s.pu, s.x.Dest(), Result(hw.m.alu, s) != 0)
    ensures Step(hw, s, c).dp == Env(Complete(hw.m.alu, s.dp, Done(s.x, Result(hw.m.alu, s))).0, Accepted(hw.m.cp, s.dp, c))
    ensures Step(hw, s, c).d == Step(hw, s, c).x == Bubble
    ensures Step(hw, s, c).pu.predicates == s.pu.savedPredicates
  {
    hide *;
    var oldest := Done(s.x, Result(hw.m.alu, s));
    MissFlushes(hw, s, c);
    var dp1 := Complete(hw.m.alu, s.dp, oldest).0;
    StepIsAfter(hw, s, c);
    ReadyForCycle(hw, s);
    MissStorage(hw, s.dp, oldest, [Pending(s.d)], s.pu, Stages(s), Offered(hw, s),
                Decoded(hw.m.alu, dp1, s.d), [Latched(hw.m.alu, dp1, s.d)]);
  }

  /** Decode always finds the channel heads its instruction was triggered on. */
  lemma DecodeFindsItsHeads(hw: Hardware, s: State, c: Cycle)
    ensures Matched(Step(hw, s, c).dp, Step(hw, s, c).d)
  {
    hide StageView, Triggered, Matched, NextInputs, NextOutputs, Miss, Override, Clock, Result, DecodeOperands, Store;
    IssuedMatches(hw, s.pu.predicates, s.dp, s.d.Icd(), Stages(s), Issued(hw, s), c, Step(hw, s, c).dp);
  }

  /** With nothing in flight no hazard, override or miss can stand in the way of the trigger stage. */
  lemma EmptyIssues(hw: Hardware, s: State)
    requires s.d == s.x == Bubble && (s.pu.Speculative? ==> !s.pu.speculating)
    ensures Issued(hw, s) == Triggered(hw, StageView(hw, s.pu.predicates, s.dp, s.d.Icd(), Stages(s)))
  {
    hide StageView, Triggered, Stages, Result;
  }
}

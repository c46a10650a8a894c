/**
 * The T|DX1|X2 integer core. One-cycle instructions execute and retire from DX1, scratchpad accesses and
 * multiplications retire from X2, and a collision stall keeps them from overtaking one another.
 */
module IntegerCore {
  import opened Prelude
  import opened Instructions
  import opened Sequential
  import opened PredicateUnits
  import opened InFlight
  import opened Refinement
  import opened ChannelBuffers
  import TDX
  import Status = ChannelStatus

  datatype FunctionalUnit = ALU | SM | IMU

  /** The one-cycle opcodes listed by both the collision detector and the issue unit. */
  predicate OneCycle(op: nat) { op <= 28 || 33 <= op <= 39 }
  predicate ScratchpadOp(op: nat) { op == LSW || op == SSW }
  predicate MultiplierOp(op: nat) { 45 <= op <= 48 }

  predicate Implemented(op: nat) { OneCycle(op) || ScratchpadOp(op) || MultiplierOp(op) }

  /** The issue unit. Opcodes it does not know default to a one-cycle ALU operation. */
  function RetiringStage(op: nat): nat { if ScratchpadOp(op) || MultiplierOp(op) then 2 else 1 }
  function Unit(op: nat): FunctionalUnit { if ScratchpadOp(op) then SM else if MultiplierOp(op) then IMU else ALU }

  /** The collision detector. Opcodes it does not know never collide. */
  predicate Collision(op: nat, dx1Stage: nat) { OneCycle(op) && dx1Stage == 2 }

  datatype State = State(
    dp: Datapath, pu: PredicateUnit,
    dx1: Slot,
    x2: Slot, x2Stage: nat, x2Unit: FunctionalUnit,
    loaded: Word, multiplied: Word)

  /** The ALU works on operands that were never forwarded. */
  function AluResult(alu: Alu, s: State): Word {
    if s.dx1.Bubble? then 0
    else
      var x := ReadOperands(s.dp, s.dx1.i);
      alu(s.dx1.i.op, x.a, x.b, x.c)
  }

  function LateResult(alu: Alu, s: State): Word {
    match s.x2Unit
    case SM => s.loaded
    case IMU => s.multiplied
    case ALU => AluResult(alu, s)
  }

  /** The retirement unit: X2 first, then a one-cycle instruction in DX1. */
  function Retiring(s: State): Slot {
    if s.x2Stage == 2 then s.x2
    else if RetiringStage(s.dx1.Op()) == 1 then s.dx1
    else Bubble
  }

  function Result(alu: Alu, s: State): Word {
    if s.x2Stage == 2 then LateResult(alu, s) else AluResult(alu, s)
  }

  /** Operands after the forwarding unit, which is enabled only between back-to-back two-cycle operations. */
  function LateOperands(alu: Alu, s: State): Operands {
    var enable := RetiringStage(s.dx1.Op()) == 2 && s.x2Stage == 2 && Unit(s.dx1.Op()) != ALU;
    TDX.DecodeOperands(s.dp, s.dx1, if enable then s.x2.Dest() else NullDestination, Result(alu, s))
  }

  function Stages(s: State): seq<seq<nat>> {
    [s.dx1.Oci(), s.x2.Oci()]
  }

  /** The instruction offered to the predicate unit, after the control hazard and collision bubbles. */
  function Offered(hw: Hardware, s: State): Slot {
    var t := Triggered(hw, StageView(hw, s.pu.predicates, s.dp, s.dx1.Icd(), Stages(s)));
    var control := s.pu.Plain? && (s.dx1.WritesPredicate() || s.x2.WritesPredicate());
    if control || Collision(t.Op(), RetiringStage(s.dx1.Op())) then Bubble else t
  }

  function Issued(hw: Hardware, s: State): Slot {
    var d, value, slot := Retiring(s).Dest(), Result(hw.m.alu, s) != 0, Offered(hw, s);
    if Miss(s.pu, d, value) || Override(s.pu, d, value, slot) then Bubble else slot
  }

  function Step(hw: Hardware, s: State, c: Cycle): State {
    var r := Result(hw.m.alu, s);
    var x := LateOperands(hw.m.alu, s);
    var miss := Miss(s.pu, Retiring(s).Dest(), r != 0);
    var late := !miss && RetiringStage(s.dx1.Op()) == 2;
    State(
      NextStorage(hw, s.dp, Retiring(s), r, s.dx1, x, s.dx1, c),
      Clock(s.pu, Retiring(s).Dest(), r != 0, Offered(hw, s), c.prediction),
      Issued(hw, s),
      if late then s.dx1 else Bubble,
      if late then 2 else 0,
      if late then Unit(s.dx1.Op()) else ALU,
      if s.dx1.Op() == LSW then Load(s.dp.scratchpad, x.a) else 0,
      if Unit(s.dx1.Op()) == IMU then hw.m.alu(s.dx1.Op(), x.a, x.b, x.c) else 0)
  }

  // --- Abstraction ---

  function Entries(alu: Alu, s: State): seq<Entry> {
    [Finished(s.x2, LateResult(alu, s)), Pending(s.dx1)]
  }

  function Abs(hw: Hardware, s: State): Pe {
    Resolve(hw.m.alu, s.dp, Entries(hw.m.alu, s), s.pu)
  }

  predicate Doomed(hw: Hardware, s: State) {
    WrongPath(hw.m.alu, s.dp, Entries(hw.m.alu, s), s.pu)
  }

  /** The programs the issue logic is made for: no opcode unknown to its tables, or none that retires from X2. */
  predicate LosslessProgram(program: seq<Instruction>) {
    (forall i | i in program :: Implemented(i.op)) || forall i | i in program :: RetiringStage(i.op) == 1
  }

  /** What the issue logic keeps true of DX1 and X2: only two-cycle instructions are ever behind one another. */
  predicate InOrder(s: State) {
    && (s.x2.Busy? ==> s.x2Stage == 2 && s.x2Unit == Unit(s.x2.i.op) != ALU)
    && (s.x2.Bubble? ==> s.x2Stage == 0)
    && (s.x2.Busy? && s.dx1.Busy? ==> RetiringStage(s.dx1.i.op) == 2)
  }

  predicate Invariant(hw: Hardware, s: State) {
    && Sound(hw, s.dp, Entries(hw.m.alu, s), s.pu)
    && LosslessProgram(hw.m.program)
    && InOrder(s)
  }

  function ChoiceOf(hw: Hardware, s: State, c: Cycle): Choice {
    var i := Issued(hw, s);
    Choice(if i.Busy? && !Doomed(hw, s) then Some(i.i) else None, Accepted(hw.m.cp, s.dp, c))
  }

  /** The instruction in DX1 retires this cycle. */
  predicate Early(s: State) {
    s.x2.Bubble? && RetiringStage(s.dx1.Op()) == 1
  }

  lemma SoundFacts(hw: Hardware, s: State)
    requires Sound(hw, s.dp, Entries(hw.m.alu, s), s.pu)
    ensures Shaped(hw.m.cp, s.dp)
    ensures s.pu.Speculative? && s.x2.WritesPredicate() ==> Harmless(s.dx1)
  {
    var slots := Slots(Entries(hw.m.alu, s));
    assert slots[0] == s.x2 && slots[1] == s.dx1;
  }

  lemma InFlightFromProgram(hw: Hardware, s: State)
    requires Sound(hw, s.dp, Entries(hw.m.alu, s), s.pu)
    ensures FromProgram(hw, s.x2) && FromProgram(hw, s.dx1)
  {
    var es := Entries(hw.m.alu, s);
    assert es[0].slot == s.x2 && es[1].slot == s.dx1;
  }

  lemma OfferedIsFromProgram(hw: Hardware, s: State)
    ensures Offered(hw, s).Busy? ==> Offered(hw, s).i in hw.m.program && !Collision(Offered(hw, s).i.op, RetiringStage(s.dx1.Op()))
  {
    hide StageView;
  }

  /**
   * Nothing is lost and nothing overtakes: an instruction leaves DX1 by retiring, by moving to X2, or because
   * an older predicate write missed; X2 never holds up an instruction, and never has to share the retirement port.
   */
  lemma EveryInstructionMovesOn(hw: Hardware, s: State, c: Cycle)
    requires Invariant(hw, s)
    ensures s.x2.Busy? ==> Retiring(s) == s.x2
    ensures s.dx1.Busy? ==>
      || Retiring(s) == s.dx1
      || Step(hw, s, c).x2 == s.dx1
      || (Miss(s.pu, Retiring(s).Dest(), Result(hw.m.alu, s) != 0) && Retiring(s) == s.x2 && Harmless(s.dx1))
    ensures s.x2.Busy? && s.dx1.Busy? ==> Retiring(s) != Bubble && !Early(s)
    ensures Step(hw, s, c).dp.retired == s.dp.retired + (if Retiring(s).Busy? then [Retiring(s).i] else [])
  {
    SoundFacts(hw, s);
    MissSpeculates(s.pu, Retiring(s).Dest(), Result(hw.m.alu, s) != 0);
    hide Offered, Issued, Clock, Sound, NextInputs, NextOutputs, LateOperands, Result, LosslessProgram, Miss, Harmless, Put, Store;
    assert s.dp.retired + [] == s.dp.retired;
  }

  lemma MissSpeculates(pu: PredicateUnit, d: Destination, value: bool)
    ensures Miss(pu, d, value) ==> pu.Speculative? && d.PredicateDestination?
  {
  }

  /** The collision stall keeps the two-cycle invariant. */
  lemma OrderIsKept(hw: Hardware, s: State, c: Cycle)
    requires Invariant(hw, s)
    ensures InOrder(Step(hw, s, c))
  {
    InFlightFromProgram(hw, s);
    OfferedIsFromProgram(hw, s);
    hide Offered, NextStorage, Clock, Override, Miss, Sound, LateOperands, Result;
  }

  // --- Retiring from X2, or nothing ---

  lemma LateOldest(alu: Alu, s: State)
    requires InOrder(s) && !Early(s)
    ensures
      var oldest := Finished(s.x2, LateResult(alu, s));
      && Retiring(s) == s.x2 == oldest.slot
      && Complete(alu, s.dp, oldest).0 == Complete(alu, s.dp, Finished(s.x2, Result(alu, s))).0
      && (s.x2.Busy? ==> Complete(alu, s.dp, oldest).1 == Result(alu, s))
      && Complete(alu, s.dp, oldest).0.scratchpad == s.dp.scratchpad
  {
  }

  lemma LateOperandsAreRead(hw: Hardware, s: State)
    requires Invariant(hw, s) && !Early(s)
    ensures s.dx1.Busy? ==>
      LateOperands(hw.m.alu, s) == ReadOperands(Complete(hw.m.alu, s.dp, Finished(s.x2, Result(hw.m.alu, s))).0, s.dx1.i)
  {
    var es := Entries(hw.m.alu, s);
    assert es[0].slot == s.x2 && es[1].slot == s.dx1;
    var r := Result(hw.m.alu, s);
    if s.x2.Busy? { TDX.ForwardingIsReading(hw.m.cp, hw.m.alu, s.dp, s.x2, r, s.dx1); }
  }

  /** A value matters to the predicate unit only if it is written to a predicate. */
  lemma ValueIrrelevant(pu: PredicateUnit, d: Destination, v: bool, w: bool, slot: Slot, prediction: bool)
    requires !d.PredicateDestination?
    ensures !Miss(pu, d, v)
    ensures Override(pu, d, v, slot) == Override(pu, d, w, slot)
    ensures Clock(pu, d, v, slot, prediction) == Clock(pu, d, w, slot, prediction)
  {
    assert NextPredicates(pu, d, v, slot.Updates()) == NextPredicates(pu, d, w, slot.Updates());
    hide NextPredicates;
  }

  /** Retiring finds room in its output channels and dequeueing finds its input channels non-empty. */
  lemma RetireIsSafe(hw: Hardware, s: State)
    requires Invariant(hw, s)
    ensures forall k | 0 <= k < |s.dp.outputs| && k in Retiring(s).Oci() :: |s.dp.outputs[k]| != hw.m.cp.channelBufferDepth
    ensures forall k | 0 <= k < |s.dp.inputs| && k in s.dx1.Icd() :: s.dp.inputs[k] != []
  {
    var es := Entries(hw.m.alu, s);
    assert es[0].slot == s.x2 && es[1].slot == s.dx1;
    forall k | 0 <= k < |s.dp.outputs| && k in Retiring(s).Oci() ensures |s.dp.outputs[k]| != hw.m.cp.channelBufferDepth {
      OciCountCovers(es, 0, k);
      OciCountCovers(es, 1, k);
    }
  }

  lemma Unfold(hw: Hardware, s: State, c: Cycle)
    ensures Abs(hw, s) == Resolve(hw.m.alu, s.dp, Entries(hw.m.alu, s), s.pu)
    ensures Doomed(hw, s) == WrongPath(hw.m.alu, s.dp, Entries(hw.m.alu, s), s.pu)
    ensures Invariant(hw, s) <==> Sound(hw, s.dp, Entries(hw.m.alu, s), s.pu) && LosslessProgram(hw.m.program) && InOrder(s)
    ensures
      var wrong := WrongPath(hw.m.alu, s.dp, Entries(hw.m.alu, s), s.pu);
      ChoiceOf(hw, s, c)
        == Choice(if Issued(hw, s).Busy? && !wrong then Some(Issued(hw, s).i) else None, Accepted(hw.m.cp, s.dp, c))
  {
    hide Sound, Resolve, WrongPath, Accepted, Issued, Entries, LosslessProgram, InOrder;
  }

  /** The parts of an edge that need no invariant. */
  lemma StepUnfolds(hw: Hardware, s: State, c: Cycle)
    ensures
      var r := Result(hw.m.alu, s);
      var d := Retiring(s).Dest();
      var s' := Step(hw, s, c);
      && Issued(hw, s) == (if Miss(s.pu, d, r != 0) || Override(s.pu, d, r != 0, Offered(hw, s)) then Bubble else Offered(hw, s))
      && Entries(hw.m.alu, s') == [Finished(s'.x2, LateResult(hw.m.alu, s')), Pending(Issued(hw, s))]
      && (Early(s) ==> Entries(hw.m.alu, s') == [Done(Bubble, 0)] + [Pending(Issued(hw, s))])
      && s'.dp == NextStorage(hw, s.dp, Retiring(s), r, s.dx1, LateOperands(hw.m.alu, s), s.dx1, c)
      && s'.pu == Clock(s.pu, d, r != 0, Offered(hw, s), c.prediction)
  {
    hide Offered, NextStorage, Override, Miss, Clock, LateOperands, LateResult, Result, Retiring;
  }

  lemma CoversBoth(hw: Hardware, s: State)
    ensures Covers(s.dp, Entries(hw.m.alu, s), Stages(s))
  {
    var x2, dx1 := Finished(s.x2, LateResult(hw.m.alu, s)), Pending(s.dx1);
    assert Entries(hw.m.alu, s) == [x2] + ([dx1] + []);
    forall c | 0 <= c < |s.dp.outputs| ensures Status.InFlight(Stages(s), c) == OciCount(Entries(hw.m.alu, s), c) {
      Status.TwoStages(0, 0, s.dx1.Oci(), s.x2.Oci(), c);
      OciCountCons(x2, [dx1] + [], c);
      OciCountCons(dx1, [], c);
    }
  }

  lemma OfferedFrom(hw: Hardware, s: State)
    ensures Offered(hw, s) == Bubble || Offered(hw, s) == Triggered(hw, StageView(hw, s.pu.predicates, s.dp, s.dx1.Icd(), Stages(s)))
    ensures s.pu.Plain? && Offered(hw, s) != Bubble ==> NoWrites(Entries(hw.m.alu, s))
  {
    hide Triggered, StageView, Stages, LateResult;
  }

  // --- One cycle, with something to wait for ---

  lemma LateReady(hw: Hardware, s: State)
    requires Invariant(hw, s) && !Early(s)
    ensures
      var oldest := Finished(s.x2, LateResult(hw.m.alu, s));
      var dp1 := Complete(hw.m.alu, s.dp, oldest).0;
      Cyclable(hw, s.dp, oldest, [Pending(s.dx1)], s.pu, Stages(s), Offered(hw, s),
               TDX.Decoded(hw.m.alu, dp1, s.dx1), [TDX.Latched(hw.m.alu, dp1, s.dx1)])
  {
    hide Sound, Covers, Advances, Dequeued, Triggered, StageView, Complete, TDX.Decoded, TDX.Latched, Stages, LateResult,
         Finished, InOrder, Offered;
    CoversBoth(hw, s);
    LateAdvances(hw, s);
    OfferedFrom(hw, s);
    assert Entries(hw.m.alu, s) == [Finished(s.x2, LateResult(hw.m.alu, s))] + [Pending(s.dx1)];
  }

  lemma LateAdvances(hw: Hardware, s: State)
    requires Invariant(hw, s) && !Early(s)
    ensures
      var oldest := Finished(s.x2, LateResult(hw.m.alu, s));
      var dp1 := Complete(hw.m.alu, s.dp, oldest).0;
      var dp2 := TDX.Decoded(hw.m.alu, dp1, s.dx1);
      && Advances(hw, s.dp, oldest, [Pending(s.dx1)], s.pu, dp2, [TDX.Latched(hw.m.alu, dp1, s.dx1)])
      && Dequeued(s.dp, dp2, s.dx1.Icd())
  {
    var alu := hw.m.alu;
    var oldest := Finished(s.x2, LateResult(alu, s));
    var (dp1, r) := Complete(alu, s.dp, oldest);
    SoundFacts(hw, s);
    FinishedIsDone(alu, s.dp, s.x2, LateResult(alu, s));
    if Miss(s.pu, oldest.slot.Dest(), r != 0) { TDX.HarmlessDecode(alu, dp1, s.dx1); }
    hide Sound, Complete, TDX.Decoded, TDX.Latched, Resolve, WrongPath, Slots, Shaped, Dequeued, Settle, Harmless, LateResult, InOrder;
    TDX.DecodeStorage(hw.m.cp, alu, s.dp, s.x2, LateResult(alu, s), s.dx1);
    TDX.DecodeSlots(alu, dp1, s.dx1);
    TDX.DecodeResolves(alu, dp1, s.dx1, Settle(s.pu, oldest.slot.Dest(), r != 0));
  }

  lemma FinishedIsDone(alu: Alu, dp: Datapath, x: Slot, r: Word)
    ensures Finished(x, r).slot == x
    ensures Complete(alu, dp, Finished(x, r)).0 == Complete(alu, dp, Done(x, r)).0
  {
  }

  /** What DX1 leaves in X2 is the two-cycle instruction with the result it will have. */
  lemma X2After(hw: Hardware, s: State, c: Cycle)
    requires Invariant(hw, s) && !Early(s)
    ensures
      var dp1 := Complete(hw.m.alu, s.dp, Finished(s.x2, Result(hw.m.alu, s))).0;
      var s' := Step(hw, s, c);
      Finished(s'.x2, LateResult(hw.m.alu, s'))
        == if Miss(s.pu, Retiring(s).Dest(), Result(hw.m.alu, s) != 0) then Done(Bubble, 0) else TDX.Latched(hw.m.alu, dp1, s.dx1)
  {
    LateOperandsAreRead(hw, s);
    LateOldest(hw.m.alu, s);
    hide Sound, NextStorage, Clock, Offered, Issued, Miss, LateOperands, ReadOperands, Complete, Retiring, Result, Entries;
  }

  lemma LateStep(hw: Hardware, s: State, c: Cycle)
    requires Invariant(hw, s) && !Early(s)
    ensures
      var oldest := Finished(s.x2, LateResult(hw.m.alu, s));
      var (dp1, r) := Complete(hw.m.alu, s.dp, oldest);
      var d := oldest.slot.Dest();
      var s' := Step(hw, s, c);
      && Issued(hw, s) == (if Miss(s.pu, d, r != 0) || Override(s.pu, d, r != 0, Offered(hw, s)) then Bubble else Offered(hw, s))
      && Miss(s.pu, Retiring(s).Dest(), Result(hw.m.alu, s) != 0) == Miss(s.pu, d, r != 0)
      && Entries(hw.m.alu, s') == After(Miss(s.pu, d, r != 0), [TDX.Latched(hw.m.alu, dp1, s.dx1)], Issued(hw, s))
      && s'.dp == Env(TDX.Decoded(hw.m.alu, dp1, s.dx1), Accepted(hw.m.cp, s.dp, c))
      && s'.pu == Clock(s.pu, d, r != 0, Offered(hw, s), c.prediction)
  {
    hide *;
    var alu := hw.m.alu;
    var (dp1, r) := Complete(alu, s.dp, Finished(s.x2, LateResult(alu, s)));
    var d, value := Retiring(s).Dest(), Result(alu, s) != 0;
    var x := LateOperands(alu, s);
    Unfold(hw, s, c);
    StepUnfolds(hw, s, c);
    LateOldest(alu, s);
    BubbleWritesNothing(s.x2);
    X2After(hw, s, c);
    LateOperandsAreRead(hw, s);
    RetireIsSafe(hw, s);
    if s.x2.Bubble? { ValueIrrelevant(s.pu, d, value, r != 0, Offered(hw, s), c.prediction); }
    if s.x2.Bubble? { ValueIrrelevant(s.pu, d, r != 0, value, Offered(hw, s), c.prediction); }
    TDX.DecodedIsEdge(alu, s.dp, s.x2, Result(alu, s), s.dx1, x);
    StorageIsEdge(hw, s.dp, s.x2, Result(alu, s), s.dx1, x, s.dx1, c);
    TDX.AfterTwo(Miss(s.pu, d, value), TDX.Latched(alu, dp1, s.dx1), Issued(hw, s));
  }

  lemma BubbleWritesNothing(s: Slot)
    ensures s.Bubble? ==> !s.Dest().PredicateDestination?
  {
  }

  // --- One cycle, with a one-cycle instruction retiring from DX1 ---

  lemma EarlyEdge(alu: Alu, s: State, x: Operands)
    requires InOrder(s) && Early(s)
    ensures Retiring(s) == s.dx1
    ensures Complete(alu, s.dp, Pending(s.dx1)) == (Edge(alu, s.dp, s.dx1, Result(alu, s), s.dx1, x, s.dx1), Result(alu, s))
  {
    if s.dx1.Bubble? { assert PopChannels(s.dp.inputs, []) == s.dp.inputs; }
    hide ReadOperands, PopChannels, PushChannels;
  }

  lemma EarlyReady(hw: Hardware, s: State)
    requires Invariant(hw, s) && Early(s)
    ensures
      Cyclable(hw, s.dp, Pending(s.dx1), [], s.pu, Stages(s), Offered(hw, s), Complete(hw.m.alu, s.dp, Pending(s.dx1)).0, [])
  {
    var es := [Pending(s.dx1)] + [];
    assert Entries(hw.m.alu, s) == [Done(Bubble, 0)] + es;
    BubbleInFront(hw, s.dp, es, s.pu);
    OneLeadingBubble(hw.m.alu, s.dp, 0, es, s.pu);
    CoversBoth(hw, s);
    OfferedFrom(hw, s);
    EarlyAdvances(hw, s);
    assert NoWrites(Entries(hw.m.alu, s)) ==> NoWrites(es) by {
      assert Entries(hw.m.alu, s)[1] == es[0];
    }
    hide Sound, Advances, Dequeued, Triggered, StageView, Complete, Stages, NoWrites, Offered, InOrder, Entries;
    assert es[0] == Pending(s.dx1);
  }

  lemma EarlyAdvances(hw: Hardware, s: State)
    requires Sound(hw, s.dp, Entries(hw.m.alu, s), s.pu)
    ensures
      var dp2 := Complete(hw.m.alu, s.dp, Pending(s.dx1)).0;
      Advances(hw, s.dp, Pending(s.dx1), [], s.pu, dp2, []) && Dequeued(s.dp, dp2, s.dx1.Icd())
  {
    SoundFacts(hw, s);
    hide Sound, Resolve, WrongPath, Settle, Miss, Complete, Shaped, Dequeued, Slots;
    PendingParts(hw.m.cp, hw.m.alu, s.dp, s.dx1);
  }

  lemma PendingParts(cp: CoreParameters, alu: Alu, dp: Datapath, slot: Slot)
    requires Shaped(cp, dp)
    ensures Shaped(cp, Complete(alu, dp, Pending(slot)).0) && Dequeued(dp, Complete(alu, dp, Pending(slot)).0, slot.Icd())
  {
  }

  lemma EarlyStep(hw: Hardware, s: State, c: Cycle)
    requires Invariant(hw, s) && Early(s)
    ensures
      var oldest := Pending(s.dx1);
      var (dp1, r) := Complete(hw.m.alu, s.dp, oldest);
      var d := oldest.slot.Dest();
      var s' := Step(hw, s, c);
      && Issued(hw, s) == (if Miss(s.pu, d, r != 0) || Override(s.pu, d, r != 0, Offered(hw, s)) then Bubble else Offered(hw, s))
      && Miss(s.pu, Retiring(s).Dest(), Result(hw.m.alu, s) != 0) == Miss(s.pu, d, r != 0)
      && Entries(hw.m.alu, s') == [Done(Bubble, 0)] + After(Miss(s.pu, d, r != 0), [], Issued(hw, s))
      && s'.dp == Env(dp1, Accepted(hw.m.cp, s.dp, c))
      && s'.pu == Clock(s.pu, d, r != 0, Offered(hw, s), c.prediction)
  {
    hide *;
    var x := LateOperands(hw.m.alu, s);
    Unfold(hw, s, c);
    StepUnfolds(hw, s, c);
    EarlyEdge(hw.m.alu, s, x);
    RetireIsSafe(hw, s);
    StorageIsEdge(hw, s.dp, s.dx1, Result(hw.m.alu, s), s.dx1, x, s.dx1, c);
    NothingMoved(Miss(s.pu, s.dx1.Dest(), Result(hw.m.alu, s) != 0), Issued(hw, s));
  }

  lemma NothingMoved(miss: bool, issued: Slot)
    ensures After(miss, [], issued) == [Pending(issued)]
    ensures Pending(issued).slot == issued
  {
  }

  // --- The theorem ---

  lemma EntriesSplit(alu: Alu, s: State)
    ensures Entries(alu, s) == [Finished(s.x2, LateResult(alu, s))] + [Pending(s.dx1)]
    ensures s.x2.Bubble? ==> Entries(alu, s) == [Done(Bubble, 0)] + ([Pending(s.dx1)] + [])
    ensures Early(s) ==> s.x2.Bubble?
  {
  }

  lemma EarlyRefines(hw: Hardware, s: State, c: Cycle)
    requires Invariant(hw, s) && Early(s) && !Abs(hw, s).dp.halted
    ensures Invariant(hw, Step(hw, s, c))
    ensures Abs(hw, Step(hw, s, c)) == Sequentially(hw.m, Abs(hw, s), ChoiceOf(hw, s, c))
    ensures Allowed(hw, Abs(hw, s), ChoiceOf(hw, s, c))
    ensures Follows(Miss(s.pu, Retiring(s).Dest(), Result(hw.m.alu, s) != 0), Issued(hw, s), Doomed(hw, s), Doomed(hw, Step(hw, s, c)))
  {
    hide *;
    var alu := hw.m.alu;
    var oldest := Pending(s.dx1);
    var (dp1, r) := Complete(alu, s.dp, oldest);
    var s' := Step(hw, s, c);
    var next := After(Miss(s.pu, oldest.slot.Dest(), r != 0), [], Issued(hw, s));
    NeverEmpty(Miss(s.pu, oldest.slot.Dest(), r != 0), [], Issued(hw, s));
    EntriesSplit(alu, s);
    Unfold(hw, s, c);
    Unfold(hw, s', c);
    OrderIsKept(hw, s, c);
    EarlyReady(hw, s);
    EarlyStep(hw, s, c);
    OneLeadingBubble(alu, s.dp, 0, [oldest] + [], s.pu);
    CoreCycle(hw, s.dp, oldest, [], s.pu, Stages(s), Offered(hw, s), dp1, [], c, Abs(hw, s));
    OneLeadingBubble(alu, s'.dp, 0, next, s'.pu);
    BubbleInFront(hw, s'.dp, next, s'.pu);
  }

  lemma NeverEmpty(miss: bool, moved: seq<Entry>, issued: Slot)
    ensures After(miss, moved, issued) != []
  {
  }

  lemma LateRefines(hw: Hardware, s: State, c: Cycle)
    requires Invariant(hw, s) && !Early(s) && !Abs(hw, s).dp.halted
    ensures Invariant(hw, Step(hw, s, c))
    ensures Abs(hw, Step(hw, s, c)) == Sequentially(hw.m, Abs(hw, s), ChoiceOf(hw, s, c))
    ensures Allowed(hw, Abs(hw, s), ChoiceOf(hw, s, c))
    ensures Follows(Miss(s.pu, Retiring(s).Dest(), Result(hw.m.alu, s) != 0), Issued(hw, s), Doomed(hw, s), Doomed(hw, Step(hw, s, c)))
  {
    hide *;
    var alu := hw.m.alu;
    var oldest := Finished(s.x2, LateResult(alu, s));
    var dp1 := Complete(alu, s.dp, oldest).0;
    EntriesSplit(alu, s);
    Unfold(hw, s, c);
    Unfold(hw, Step(hw, s, c), c);
    OrderIsKept(hw, s, c);
    LateReady(hw, s);
    LateStep(hw, s, c);
    CoreCycle(hw, s.dp, oldest, [Pending(s.dx1)], s.pu, Stages(s), Offered(hw, s),
              TDX.Decoded(alu, dp1, s.dx1), [TDX.Latched(alu, dp1, s.dx1)], c, Abs(hw, s));
  }

  /**
   * One clock cycle of the integer core, with any prediction and any link traffic, preserves the invariant and
   * is exactly one allowed step of the sequential machine it stands for.
   */
  lemma StepRefines(hw: Hardware, s: State, c: Cycle)
    requires Invariant(hw, s) && !Abs(hw, s).dp.halted
    ensures Invariant(hw, Step(hw, s, c))
    ensures Abs(hw, Step(hw, s, c)) == Sequentially(hw.m, Abs(hw, s), ChoiceOf(hw, s, c))
    ensures Allowed(hw, Abs(hw, s), ChoiceOf(hw, s, c))
    ensures Follows(Miss(s.pu, Retiring(s).Dest(), Result(hw.m.alu, s) != 0), Issued(hw, s), Doomed(hw, s), Doomed(hw, Step(hw, s, c)))
  {
    hide *;
    if Early(s) { EarlyRefines(hw, s, c); } else { LateRefines(hw, s, c); }
  }

  /** The entry that retires this cycle. */
  function Oldest(alu: Alu, s: State): Entry {
    if Early(s) then Pending(s.dx1) else Finished(s.x2, LateResult(alu, s))
  }

  lemma MissFlushes(hw: Hardware, s: State, c: Cycle)
    requires Miss(s.pu, Retiring(s).Dest(), Result(hw.m.alu, s) != 0)
    ensures Step(hw, s, c).dx1 == Step(hw, s, c).x2 == Bubble
    ensures Step(hw, s, c).pu.predicates == s.pu.savedPredicates
    ensures Oldest(hw.m.alu, s) == if Early(s) then Pending(s.dx1) else Finished(s.x2, LateResult(hw.m.alu, s))
  {
    hide Result, Offered, NextStorage, LateOperands, NextPredicates, Retiring, LateResult;
  }

  lemma OldestRetires(hw: Hardware, s: State)
    requires Invariant(hw, s) && Miss(s.pu, Retiring(s).Dest(), Result(hw.m.alu, s) != 0)
    ensures Oldest(hw.m.alu, s).slot == Retiring(s)
    ensures Complete(hw.m.alu, s.dp, Oldest(hw.m.alu, s)).1 == Result(hw.m.alu, s)
  {
    if Early(s) {
      EarlyEdge(hw.m.alu, s, Operands(0, 0, 0));
    } else {
      LateOldest(hw.m.alu, s);
    }
    hide Sound, Complete, Result, Edge;
  }

  /** In the cycle of a miss only the mispredicted instruction itself touches storage, and everything younger is gone. */
  lemma SquashLeavesNoTrace(hw: Hardware, s: State, c: Cycle)
    requires Invariant(hw, s) && Miss(s.pu, Retiring(s).Dest(), Result(hw.m.alu, s) != 0)
    ensures Step(hw, s, c).dp == Env(Complete(hw.m.alu, s.dp, Oldest(hw.m.alu, s)).0, Accepted(hw.m.cp, s.dp, c))
    ensures Step(hw, s, c).dx1 == Step(hw, s, c).x2 == Bubble
    ensures Step(hw, s, c).pu.predicates == s.pu.savedPredicates
  {
    hide *;
    var alu := hw.m.alu;
    OldestRetires(hw, s);
    MissFlushes(hw, s, c);
    var dp1 := Complete(alu, s.dp, Oldest(alu, s)).0;
    if Early(s) {
      EarlyReady(hw, s);
      EarlyStep(hw, s, c);
      MissStorage(hw, s.dp, Pending(s.dx1), [], s.pu, Stages(s), Offered(hw, s), dp1, []);
    } else {
      LateReady(hw, s);
      LateStep(hw, s, c);
      MissStorage(hw, s.dp, Finished(s.x2, LateResult(alu, s)), [Pending(s.dx1)], s.pu, Stages(s), Offered(hw, s),
                  TDX.Decoded(alu, dp1, s.dx1), [TDX.Latched(alu, dp1, s.dx1)]);
    }
  }

  /** DX1 always finds the channel heads its instruction was triggered on. */
  lemma DecodeFindsItsHeads(hw: Hardware, s: State, c: Cycle)
    ensures Matched(Step(hw, s, c).dp, Step(hw, s, c).dx1)
  {
    hide StageView, Triggered, Matched, NextInputs, NextOutputs, Miss, Override, Clock, Result, Store, LateOperands, Retiring, Collision;
    IssuedMatches(hw, s.pu.predicates, s.dp, s.dx1.Icd(), Stages(s), Issued(hw, s), c, Step(hw, s, c).dp);
  }

  /** With nothing in flight no hazard, stall, override or miss can stand in the way of the trigger stage. */
  lemma EmptyIssues(hw: Hardware, s: State)
    requires s.dx1 == s.x2 == Bubble && s.x2Stage == 0 && (s.pu.Speculative? ==> !s.pu.speculating)
    ensures Issued(hw, s) == Triggered(hw, StageView(hw, s.pu.predicates, s.dp, s.dx1.Icd(), Stages(s)))
  {
    hide StageView, Triggered, Stages, Result;
  }

  // --- Opcodes outside the two tables ---

  /** The stall covers exactly the opcodes that need it when both tables know the opcode. */
  lemma TablesAgreeIffImplemented(op: nat)
    ensures (RetiringStage(op) == 1 ==> Collision(op, 2)) <==> Implemented(op)
  {
  }

  /**
   * Any other opcode that triggers right behind a two-cycle operation is not stalled, and is then lost: X2 has
   * the retirement port, and the instruction neither retires nor moves on.
   */
  lemma UnknownOpcodeIsLost(hw: Hardware, s: State, c: Cycle, next: Cycle)
    requires s.dx1.Busy? && RetiringStage(s.dx1.i.op) == 2
    requires !s.dx1.WritesPredicate() && !s.x2.WritesPredicate() && (s.pu.Speculative? ==> !s.pu.speculating)
    requires
      var t := Triggered(hw, StageView(hw, s.pu.predicates, s.dp, s.dx1.Icd(), Stages(s)));
      t.Busy? && !Implemented(t.i.op) && !t.WritesPredicate()
    ensures
      var s1 := Step(hw, s, c);
      var s2 := Step(hw, s1, next);
      && s1.dx1 == Triggered(hw, StageView(hw, s.pu.predicates, s.dp, s.dx1.Icd(), Stages(s)))
      && s1.x2 == s.dx1
      && s2.x2 == Bubble
      && s2.dp.retired == s1.dp.retired + [s.dx1.i]
  {
    hide StageView, Triggered, NextInputs, NextOutputs, LateOperands, Result, Put, Store, Clock;
    IssuedUnstalled(hw, s);
    hide Offered, Issued;
    var s1 := Step(hw, s, c);
    assert s1.x2 == s.dx1 && s1.x2Stage == 2;
  }

  lemma IssuedUnstalled(hw: Hardware, s: State)
    requires s.dx1.Busy? && !s.dx1.WritesPredicate() && !s.x2.WritesPredicate() && (s.pu.Speculative? ==> !s.pu.speculating)
    requires
      var t := Triggered(hw, StageView(hw, s.pu.predicates, s.dp, s.dx1.Icd(), Stages(s)));
      t.Busy? && !Implemented(t.i.op)
    ensures Issued(hw, s) == Triggered(hw, StageView(hw, s.pu.predicates, s.dp, s.dx1.Icd(), Stages(s)))
    ensures !Miss(s.pu, Retiring(s).Dest(), Result(hw.m.alu, s) != 0)
  {
    hide StageView, Triggered, Result;
  }
}

/**
 * Whole runs. From reset, under every predictor and every pattern of link traffic, each of the pipelined cores
 * executes what the sequential processing element executes, until the first halt is issued.
 */
module Runs {
  import opened Prelude
  import opened Instructions
  import opened Sequential
  import opened PredicateUnits
  import opened InFlight
  import opened Refinement
  import TDX
  import TDX1X2
  import IntegerCore
  import Status = ChannelStatus

  datatype Core = ThreeStage(s: TDX.State) | FourStage(t: TDX1X2.State) | Integer(u: IntegerCore.State)

  function Step(hw: Hardware, k: Core, c: Cycle): Core {
    match k
    case ThreeStage(s) => ThreeStage(TDX.Step(hw, s, c))
    case FourStage(t) => FourStage(TDX1X2.Step(hw, t, c))
    case Integer(u) => Integer(IntegerCore.Step(hw, u, c))
  }

  function Storage(k: Core): Datapath {
    match k
    case ThreeStage(s) => s.dp
    case FourStage(t) => t.dp
    case Integer(u) => u.dp
  }

  function Unit(k: Core): PredicateUnit {
    match k
    case ThreeStage(s) => s.pu
    case FourStage(t) => t.pu
    case Integer(u) => u.pu
  }

  function Entries(hw: Hardware, k: Core): seq<Entry> {
    match k
    case ThreeStage(s) => TDX.Entries(hw.m.alu, s)
    case FourStage(t) => TDX1X2.Entries(t)
    case Integer(u) => IntegerCore.Entries(hw.m.alu, u)
  }

  /** The sequential processing element a core stands for. */
  function Abs(hw: Hardware, k: Core): Pe {
    match k
    case ThreeStage(s) => TDX.Abs(hw, s)
    case FourStage(t) => TDX1X2.Abs(hw, t)
    case Integer(u) => IntegerCore.Abs(hw, u)
  }

  predicate Invariant(hw: Hardware, k: Core) {
    match k
    case ThreeStage(s) => TDX.Invariant(hw, s)
    case FourStage(t) => TDX1X2.Invariant(hw, t)
    case Integer(u) => IntegerCore.Invariant(hw, u)
  }

  function ChoiceOf(hw: Hardware, k: Core, c: Cycle): Choice {
    match k
    case ThreeStage(s) => TDX.ChoiceOf(hw, s, c)
    case FourStage(t) => TDX1X2.ChoiceOf(hw, t, c)
    case Integer(u) => IntegerCore.ChoiceOf(hw, u, c)
  }

  function Issued(hw: Hardware, k: Core): Slot {
    match k
    case ThreeStage(s) => TDX.Issued(hw, s)
    case FourStage(t) => TDX1X2.Issued(hw, t)
    case Integer(u) => IntegerCore.Issued(hw, u)
  }

  /** The predicate write reaching the end of the pipeline was mispredicted. */
  predicate Missing(hw: Hardware, k: Core) {
    match k
    case ThreeStage(s) => Miss(s.pu, s.x.Dest(), TDX.Result(hw.m.alu, s) != 0)
    case FourStage(t) => Miss(t.pu, t.x2.Dest(), TDX1X2.Result(t) != 0)
    case Integer(u) => Miss(u.pu, IntegerCore.Retiring(u).Dest(), IntegerCore.Result(hw.m.alu, u) != 0)
  }

  /** What is issued now is going to be squashed. */
  predicate Doomed(hw: Hardware, k: Core) {
    WrongPath(hw.m.alu, Storage(k), Entries(hw, k), Unit(k))
  }

  /** The instruction that reads and dequeues this cycle. */
  function Youngest(k: Core): Slot {
    match k
    case ThreeStage(s) => s.d
    case FourStage(t) => t.d
    case Integer(u) => u.dx1
  }

  // --- Reset ---

  datatype Architecture = T_D_X | T_D_X1_X2 | T_DX1_X2

  function ResetUnit(numPredicates: nat, speculative: bool): PredicateUnit {
    var zeros := seq(numPredicates, _ => false);
    if speculative then Speculative(zeros, false, false, zeros) else Plain(zeros)
  }

  function Reset(a: Architecture, dp: Datapath, pu: PredicateUnit): Core {
    var zero := Operands(0, 0, 0);
    match a
    case T_D_X => ThreeStage(TDX.State(dp, pu, Bubble, Bubble, zero, 0))
    case T_D_X1_X2 => FourStage(TDX1X2.State(dp, pu, Bubble, Bubble, zero, Bubble, 0, 0))
    case T_DX1_X2 => Integer(IntegerCore.State(dp, pu, Bubble, Bubble, 0, IntegerCore.ALU, 0, 0))
  }

  /** Programs a core is built for: no opcode the integer core could lose, and two operands where only two are connected. */
  predicate Supported(a: Architecture, program: seq<Instruction>) {
    match a
    case T_D_X => true
    case T_D_X1_X2 => TDX1X2.TwoOperand(program)
    case T_DX1_X2 => IntegerCore.LosslessProgram(program)
  }

  predicate Fresh(cp: CoreParameters, dp: Datapath) {
    && Shaped(cp, dp)
    && (forall c | 0 <= c < |dp.inputs| :: dp.inputs[c] == [])
    && (forall c | 0 <= c < |dp.outputs| :: dp.outputs[c] == [])
  }

  lemma EmptyPipeline(hw: Hardware, dp: Datapath, es: seq<Entry>, pu: PredicateUnit)
    requires Sane(hw) && Fresh(hw.m.cp, dp) && Pipelined(es)
    requires forall k | 0 <= k < |es| :: es[k].slot == Bubble
    requires pu.Speculative? ==> !pu.speculating
    ensures Sound(hw, dp, es, pu)
    ensures Resolve(hw.m.alu, dp, es, pu) == Pe(pu.predicates, dp)
  {
    IdleResolves(hw.m.alu, dp, es, pu);
    forall c | 0 <= c < |dp.outputs| ensures OciCount(es, c) == 0 { IdleCounts(es, c); }
    hide Resolve;
    assert forall k | 0 <= k < |es| :: Slots(es)[k] == Bubble;
  }

  lemma {:induction false} IdleResolves(alu: Alu, dp: Datapath, es: seq<Entry>, pu: PredicateUnit)
    requires forall k | 0 <= k < |es| :: es[k].slot == Bubble
    ensures Resolve(alu, dp, es, pu) == Pe(pu.predicates, dp)
    ensures !WrongPath(alu, dp, es, pu)
    decreases es
  {
    if es != [] { IdleResolves(alu, dp, es[1..], pu); }
  }

  lemma {:induction false} IdleCounts(es: seq<Entry>, c: nat)
    requires forall k | 0 <= k < |es| :: es[k].slot == Bubble
    ensures OciCount(es, c) == 0
    decreases es
  {
    if es != [] { IdleCounts(es[1..], c); }
  }

  /** Every core starts out sound, standing for the freshly reset sequential element. */
  lemma ResetIsSound(hw: Hardware, a: Architecture, dp: Datapath, speculative: bool)
    requires Sane(hw) && Supported(a, hw.m.program) && Fresh(hw.m.cp, dp)
    ensures
      var pu := ResetUnit(hw.m.cp.numPredicates, speculative);
      Invariant(hw, Reset(a, dp, pu)) && Abs(hw, Reset(a, dp, pu)) == Pe(seq(hw.m.cp.numPredicates, _ => false), dp)
  {
    var pu := ResetUnit(hw.m.cp.numPredicates, speculative);
    var k := Reset(a, dp, pu);
    var es := Entries(hw, k);
    assert es[|es| - 1].Pending? && forall j | 0 <= j < |es| :: es[j].slot == Bubble;
    EmptyPipeline(hw, dp, es, pu);
    hide Sound, Resolve;
  }

  // --- The run theorem ---

  lemma StepRefines(hw: Hardware, k: Core, c: Cycle)
    requires Invariant(hw, k) && !Abs(hw, k).dp.halted
    ensures Invariant(hw, Step(hw, k, c))
    ensures Abs(hw, Step(hw, k, c)) == Sequentially(hw.m, Abs(hw, k), ChoiceOf(hw, k, c))
    ensures Allowed(hw, Abs(hw, k), ChoiceOf(hw, k, c))
    ensures Follows(Missing(hw, k), Issued(hw, k), Doomed(hw, k), Doomed(hw, Step(hw, k, c)))
  {
    hide TDX.Invariant, TDX.Abs, TDX.Step, TDX.ChoiceOf, TDX.Issued, TDX.Result, TDX.Entries,
         TDX1X2.Invariant, TDX1X2.Abs, TDX1X2.Step, TDX1X2.ChoiceOf, TDX1X2.Issued, TDX1X2.Result, TDX1X2.Entries,
         IntegerCore.Invariant, IntegerCore.Abs, IntegerCore.Step, IntegerCore.ChoiceOf, IntegerCore.Issued, IntegerCore.Result,
         IntegerCore.Retiring, IntegerCore.Entries, Sequentially, Allowed, Follows, Miss, WrongPath;
    match k
    case ThreeStage(s) => TDX.StepRefines(hw, s, c);
    case FourStage(t) => TDX1X2.StepRefines(hw, t, c);
    case Integer(u) => IntegerCore.StepRefines(hw, u, c);
  }

  function Run(hw: Hardware, k: Core, cs: seq<Cycle>): Core
    decreases cs
  {
    if cs == [] then k else Run(hw, Step(hw, k, cs[0]), cs[1..])
  }

  function Choices(hw: Hardware, k: Core, cs: seq<Cycle>): (r: seq<Choice>)
    ensures |r| == |cs|
    decreases cs
  {
    if cs == [] then [] else [ChoiceOf(hw, k, cs[0])] + Choices(hw, Step(hw, k, cs[0]), cs[1..])
  }

  /** No halt has been issued before any cycle of the run. */
  predicate Running(hw: Hardware, k: Core, cs: seq<Cycle>)
    decreases cs
  {
    cs != [] ==> !Abs(hw, k).dp.halted && Running(hw, Step(hw, k, cs[0]), cs[1..])
  }

  /**
   * Any run of any core, whatever its predictor says, is a run of the sequential machine in which every cycle
   * is one eligible instruction or none; the highest-priority one when status is exact.
   */
  lemma {:induction false} RunRefines(hw: Hardware, k: Core, cs: seq<Cycle>)
    requires Invariant(hw, k) && Running(hw, k, cs)
    ensures Invariant(hw, Run(hw, k, cs))
    ensures Abs(hw, Run(hw, k, cs)) == RunSequentially(hw.m, Abs(hw, k), Choices(hw, k, cs))
    ensures AllAllowed(hw, Abs(hw, k), Choices(hw, k, cs))
    decreases cs
  {
    hide Invariant, Abs, Step, ChoiceOf, Sequentially, Allowed;
    if cs != [] {
      StepRefines(hw, k, cs[0]);
      RunRefines(hw, Step(hw, k, cs[0]), cs[1..]);
      assert Choices(hw, k, cs)[1..] == Choices(hw, Step(hw, k, cs[0]), cs[1..]);
    }
  }

  // --- What has retired ---

  function Fired(cs: seq<Choice>): seq<Instruction>
    decreases cs
  {
    if cs == [] then []
    else (match cs[0].fired case None => [] case Some(i) => [i]) + Fired(cs[1..])
  }

  lemma StepLog(m: Machine, pe: Pe, c: Choice)
    ensures Sequentially(m, pe, c).dp.retired == pe.dp.retired + (match c.fired case None => [] case Some(i) => [i])
  {
    assert pe.dp.retired + [] == pe.dp.retired;
  }

  lemma {:induction false} SequentialLog(m: Machine, pe: Pe, cs: seq<Choice>)
    ensures RunSequentially(m, pe, cs).dp.retired == pe.dp.retired + Fired(cs)
    decreases cs
  {
    hide Sequentially;
    if cs != [] {
      StepLog(m, pe, cs[0]);
      SequentialLog(m, Sequentially(m, pe, cs[0]), cs[1..]);
    }
  }

  lemma {:induction false} LogGrows(alu: Alu, dp: Datapath, es: seq<Entry>, pu: PredicateUnit)
    ensures dp.retired <= Resolve(alu, dp, es, pu).dp.retired
    decreases es
  {
    if es != [] {
      var (dp', r) := Complete(alu, dp, es[0]);
      LogGrows(alu, dp', es[1..], pu);
      if pu.Plain? && es[0].slot.WritesPredicate() {
        LogGrows(alu, dp', es[1..], Plain(SetPredicate(pu.predicates, es[0].slot.Dest().index, r != 0)));
      }
    }
  }

  lemma AbsIsResolve(hw: Hardware, k: Core)
    ensures Abs(hw, k) == Resolve(hw.m.alu, Storage(k), Entries(hw, k), Unit(k))
    ensures Invariant(hw, k) ==> Sound(hw, Storage(k), Entries(hw, k), Unit(k))
  {
    hide Resolve, Sound;
  }

  lemma YoungestIsLast(hw: Hardware, k: Core)
    ensures Entries(hw, k) != [] && Entries(hw, k)[|Entries(hw, k)| - 1].slot == Youngest(k)
  {
  }

  /** The invariant spelled out over what is in flight. */
  lemma ReachableFacts(hw: Hardware, k: Core)
    requires Invariant(hw, k)
    ensures WellFormedProgram(hw.m.cp, hw.m.program)
    ensures forall c | 0 <= c < |Storage(k).inputs| :: |Storage(k).inputs[c]| <= hw.m.cp.channelBufferDepth
    ensures forall c | 0 <= c < |Storage(k).outputs| ::
      |Storage(k).outputs[c]| + OciCount(Entries(hw, k), c) <= hw.m.cp.channelBufferDepth
    ensures Youngest(k).Busy? ==>
      forall c | c in Youngest(k).i.trigger.inputChannels :: c < |Storage(k).inputs| && Storage(k).inputs[c] != []
    ensures Consistent(Unit(k), Slots(Entries(hw, k)))
  {
    AbsIsResolve(hw, k);
    YoungestIsLast(hw, k);
    hide Invariant, Entries, Consistent, Pipelined, FromProgram, WellFormedProgram, OciCount;
  }

  /**
   * What a core has retired is, in order and without loss or repetition, what the sequential machine executed
   * first. Instructions squashed by a misprediction are in neither list.
   */
  lemma RetiredInOrder(hw: Hardware, k: Core, cs: seq<Cycle>)
    requires Invariant(hw, k) && Running(hw, k, cs)
    ensures Storage(Run(hw, k, cs)).retired <= Abs(hw, k).dp.retired + Fired(Choices(hw, k, cs))
  {
    hide *;
    RunRefines(hw, k, cs);
    SequentialLog(hw.m, Abs(hw, k), Choices(hw, k, cs));
    AbsIsResolve(hw, Run(hw, k, cs));
    var end := Run(hw, k, cs);
    LogGrows(hw.m.alu, Storage(end), Entries(hw, end), Unit(end));
  }

  // --- Programs that only look at predicates ---

  function IterateTimes(m: Machine, pe: Pe, n: nat): Pe
    decreases n
  {
    if n == 0 then pe else IterateTimes(m, Iterate(m, pe), n - 1)
  }

  /** Equal in everything such a program can see or change. */
  predicate SameCore(a: Pe, b: Pe) {
    && a.predicates == b.predicates
    && a.dp.registers == b.dp.registers
    && a.dp.scratchpad == b.dp.scratchpad
    && a.dp.halted == b.dp.halted
    && a.dp.retired == b.dp.retired
  }

  lemma FireSameCore(cp: CoreParameters, alu: Alu, a: Pe, b: Pe, i: Instruction)
    requires SameCore(a, b) && WellFormed(cp, i) && i.trigger.inputChannels == []
    ensures SameCore(Fire(alu, a, i), Fire(alu, b, i))
  {
    hide ReadOperands, AssignUpdates, PopChannels, PushChannels, WellFormed, Load, Put;
    SameOperands(cp, a, b, i);
  }

  lemma SameOperands(cp: CoreParameters, a: Pe, b: Pe, i: Instruction)
    requires SameCore(a, b) && WellFormed(cp, i) && i.trigger.inputChannels == []
    ensures ReadOperands(a.dp, i) == ReadOperands(b.dp, i)
  {
  }

  lemma SameSchedule(m: Machine, a: Pe, b: Pe)
    requires PredicatesOnly(m.program) && SameCore(a, b)
    ensures Scheduled(m, a) == Scheduled(m, b)
  {
    PredicatesSelect(m.program, ViewOf(m.cp, a), ViewOf(m.cp, b));
  }

  /** One step of a predicates-only program is one iteration of the simulator, or none. */
  lemma PredicatesOnlyStep(hw: Hardware, a: Pe, b: Pe, c: Choice)
    requires WellFormedProgram(hw.m.cp, hw.m.program) && PredicatesOnly(hw.m.program)
    requires SameCore(a, b) && Allowed(hw, a, c)
    ensures SameCore(Sequentially(hw.m, a, c), if c.fired.Some? then Iterate(hw.m, b) else b)
  {
    if c.fired.Some? {
      var i := c.fired.value;
      SameSchedule(hw.m, a, b);
      ProgramMember(hw, i);
      FireSameCore(hw.m.cp, hw.m.alu, a, b, i);
      assert Iterate(hw.m, b) == Fire(hw.m.alu, b, i) by { hide Scheduled, Fire; }
      hide Fire;
    }
  }

  lemma {:induction false} PredicatesOnlyRun(hw: Hardware, a: Pe, b: Pe, cs: seq<Choice>)
    requires WellFormedProgram(hw.m.cp, hw.m.program) && PredicatesOnly(hw.m.program)
    requires SameCore(a, b) && AllAllowed(hw, a, cs)
    ensures SameCore(RunSequentially(hw.m, a, cs), IterateTimes(hw.m, b, |Fired(cs)|))
    decreases cs
  {
    hide WellFormedProgram, PredicatesOnly, Allowed, Sequentially, Iterate, SameCore;
    if cs != [] {
      var a' := Sequentially(hw.m, a, cs[0]);
      PredicatesOnlyStep(hw, a, b, cs[0]);
      PredicatesOnlyRun(hw, a', if cs[0].fired.Some? then Iterate(hw.m, b) else b, cs[1..]);
    }
  }

  lemma ProgramMember(hw: Hardware, i: Instruction)
    requires WellFormedProgram(hw.m.cp, hw.m.program) && PredicatesOnly(hw.m.program) && i in hw.m.program
    ensures WellFormed(hw.m.cp, i) && i.trigger.inputChannels == [] && i.trigger.outputChannels == []
  {
  }

  lemma SameAsItself(pe: Pe)
    ensures SameCore(pe, pe)
  {
  }

  /**
   * Speculation is transparent. When triggers test predicates only, a core is at every moment exactly where the
   * simulator would be after some number of its own iterations, no matter what was predicted on the way.
   */
  lemma SpeculationIsTransparent(hw: Hardware, k: Core, cs: seq<Cycle>)
    requires Invariant(hw, k) && Running(hw, k, cs) && PredicatesOnly(hw.m.program)
    ensures SameCore(Abs(hw, Run(hw, k, cs)), IterateTimes(hw.m, Abs(hw, k), |Fired(Choices(hw, k, cs))|))
  {
    hide *;
    RunRefines(hw, k, cs);
    ReachableFacts(hw, k);
    SameAsItself(Abs(hw, k));
    PredicatesOnlyRun(hw, Abs(hw, k), Abs(hw, k), Choices(hw, k, cs));
  }

  lemma IterateLogs(m: Machine, pe: Pe)
    ensures pe.dp.retired <= Iterate(m, pe).dp.retired
  {
    hide Scheduled;
  }

  lemma {:induction false} IterationsExtend(m: Machine, pe: Pe, n: nat, extra: nat)
    ensures IterateTimes(m, pe, n).dp.retired <= IterateTimes(m, pe, n + extra).dp.retired
    decreases n + extra
  {
    hide Iterate;
    if n > 0 {
      IterationsExtend(m, Iterate(m, pe), n - 1, extra);
    } else if extra > 0 {
      IterationsExtend(m, Iterate(m, pe), 0, extra - 1);
      IterateLogs(m, pe);
    }
  }

  lemma {:induction false} SameIterations(m: Machine, a: Pe, b: Pe, n: nat)
    requires WellFormedProgram(m.cp, m.program) && PredicatesOnly(m.program) && SameCore(a, b)
    ensures SameCore(IterateTimes(m, a, n), IterateTimes(m, b, n))
    decreases n
  {
    if n > 0 {
      SameSchedule(m, a, b);
      match Scheduled(m, a) {
        case None =>
        case Some(i) => FireSameCore(m.cp, m.alu, a, b, i);
      }
      hide Fire, Scheduled, WellFormedProgram, PredicatesOnly;
      SameIterations(m, Iterate(m, a), Iterate(m, b), n - 1);
    }
  }

  lemma SameLog(a: Pe, b: Pe)
    requires SameCore(a, b)
    ensures a.dp.retired == b.dp.retired
  {
  }

  predicate Comparable(a: seq<Instruction>, b: seq<Instruction>) {
    a <= b || b <= a
  }

  lemma PrefixesCompare(a: seq<Instruction>, b: seq<Instruction>, whole: seq<Instruction>)
    requires a <= whole && b <= whole
    ensures Comparable(a, b)
  {
  }

  /**
   * Two cores of any of the three designs, with different predictors, different status logic and different
   * traffic, never disagree about what a predicates-only program does: one retired stream extends the other.
   */
  lemma RetiredStreamsAgree(hw: Hardware, status: StatusMode, k: Core, l: Core, cs: seq<Cycle>, ds: seq<Cycle>)
    requires PredicatesOnly(hw.m.program)
    requires Invariant(hw, k) && Running(hw, k, cs)
    requires Invariant(hw.(status := status), l) && Running(hw.(status := status), l, ds)
    requires SameCore(Abs(hw, k), Abs(hw.(status := status), l))
    ensures Comparable(Storage(Run(hw, k, cs)).retired, Storage(Run(hw.(status := status), l, ds)).retired)
  {
    hide *;
    var hw' := hw.(status := status);
    var m := hw.m;
    var n, n' := |Fired(Choices(hw, k, cs))|, |Fired(Choices(hw', l, ds))|;
    var a, b := Abs(hw, k), Abs(hw', l);
    ReachableFacts(hw, k);
    RetiredIsPrefix(hw, k, cs);
    RetiredIsPrefix(hw', l, ds);
    SameIterations(m, a, b, n');
    SameLog(IterateTimes(m, a, n'), IterateTimes(m, b, n'));
    if n <= n' {
      IterationsExtend(m, a, n, n' - n);
      PrefixesCompare(Storage(Run(hw, k, cs)).retired, Storage(Run(hw', l, ds)).retired, IterateTimes(m, a, n').dp.retired);
    } else {
      IterationsExtend(m, a, n', n - n');
      PrefixesCompare(Storage(Run(hw, k, cs)).retired, Storage(Run(hw', l, ds)).retired, IterateTimes(m, a, n).dp.retired);
    }
  }

  /** The retired stream of a predicates-only program is an initial part of the simulator's. */
  lemma RetiredIsPrefix(hw: Hardware, k: Core, cs: seq<Cycle>)
    requires Invariant(hw, k) && Running(hw, k, cs) && PredicatesOnly(hw.m.program)
    ensures Storage(Run(hw, k, cs)).retired <= IterateTimes(hw.m, Abs(hw, k), |Fired(Choices(hw, k, cs))|).dp.retired
  {
    hide *;
    RunRefines(hw, k, cs);
    SpeculationIsTransparent(hw, k, cs);
    SameLog(Abs(hw, Run(hw, k, cs)), IterateTimes(hw.m, Abs(hw, k), |Fired(Choices(hw, k, cs))|));
    var end := Run(hw, k, cs);
    AbsIsResolve(hw, end);
    LogGrows(hw.m.alu, Storage(end), Entries(hw, end), Unit(end));
  }

  // --- What holds in every reachable state ---

  /**
   * Credit flow control. However deep the pipeline, buffers and enqueues in flight never exceed the depth of an
   * output channel, input channels never overflow, and whatever is about to dequeue finds its channels non-empty.
   */
  lemma FlowControlIsSafe(hw: Hardware, k: Core, cs: seq<Cycle>, c: nat)
    requires Invariant(hw, k) && Running(hw, k, cs)
    ensures
      var end := Run(hw, k, cs);
      && (c < |Storage(end).inputs| ==> |Storage(end).inputs[c]| <= hw.m.cp.channelBufferDepth)
      && (c < |Storage(end).outputs| ==>
            |Storage(end).outputs[c]| + OciCount(Entries(hw, end), c) <= hw.m.cp.channelBufferDepth)
      && (Youngest(end).Busy? && c in Youngest(end).i.trigger.inputChannels ==>
            c < |Storage(end).inputs| && Storage(end).inputs[c] != [])
  {
    hide *;
    RunRefines(hw, k, cs);
    ReachableFacts(hw, Run(hw, k, cs));
  }

  /** And the heads it finds carry the tags its trigger was resolved on, one cycle earlier. */
  lemma DequeueFindsItsHeads(hw: Hardware, k: Core, cs: seq<Cycle>, c: Cycle)
    ensures Matched(Storage(Run(hw, k, cs + [c])), Youngest(Run(hw, k, cs + [c])))
  {
    hide Matched, TDX.Step, TDX1X2.Step, IntegerCore.Step;
    RunSnoc(hw, k, cs, c);
    match Run(hw, k, cs) {
      case ThreeStage(s) => TDX.DecodeFindsItsHeads(hw, s, c);
      case FourStage(t) => TDX1X2.DecodeFindsItsHeads(hw, t, c);
      case Integer(u) => IntegerCore.DecodeFindsItsHeads(hw, u, c);
    }
  }

  lemma {:induction false} RunSnoc(hw: Hardware, k: Core, cs: seq<Cycle>, c: Cycle)
    ensures Run(hw, k, cs + [c]) == Step(hw, Run(hw, k, cs), c)
    decreases cs
  {
    hide Step;
    if cs == [] {
      assert (cs + [c])[1..] == [];
    } else {
      assert (cs + [c])[1..] == cs[1..] + [c];
      RunSnoc(hw, Step(hw, k, cs[0]), cs[1..], c);
    }
  }

  /**
   * A speculative core is speculating exactly while one predicate write is in flight, and every younger
   * instruction in flight is free of dequeues, stores and predicate writes.
   */
  lemma SpeculationIsContained(hw: Hardware, k: Core, cs: seq<Cycle>)
    requires Invariant(hw, k) && Running(hw, k, cs)
    requires Unit(Run(hw, k, cs)).Speculative?
    ensures
      var slots := Slots(Entries(hw, Run(hw, k, cs)));
      && (Unit(Run(hw, k, cs)).speculating <==>
            exists j | 0 <= j < |slots| ::
              slots[j].WritesPredicate() && forall i | 0 <= i < |slots| && i != j :: !slots[i].WritesPredicate())
      && (forall j, i | 0 <= j < i < |slots| && slots[j].WritesPredicate() :: Harmless(slots[i]))
  {
    hide *;
    RunRefines(hw, k, cs);
    var end := Run(hw, k, cs);
    ReachableFacts(hw, end);
    SpeculatingIffOneWrite(Unit(end), Slots(Entries(hw, end)));
    YoungerAreHarmless(Unit(end), Slots(Entries(hw, end)));
  }

  lemma YoungerAreHarmless(pu: PredicateUnit, slots: seq<Slot>)
    requires pu.Speculative? && Consistent(pu, slots)
    ensures forall j, i | 0 <= j < i < |slots| && slots[j].WritesPredicate() :: Harmless(slots[i])
  {
  }

  // --- Progress ---

  predicate Idle(hw: Hardware, k: Core) {
    forall j | 0 <= j < |Entries(hw, k)| :: Entries(hw, k)[j].slot == Bubble
  }

  function Latency(k: Core): nat {
    if k.FourStage? then 3 else 2
  }

  function StagesOf(k: Core): seq<seq<nat>> {
    match k
    case ThreeStage(s) => TDX.Stages(s)
    case FourStage(t) => TDX1X2.Stages(t)
    case Integer(u) => IntegerCore.Stages(u)
  }

  function FromTrigger(hw: Hardware, k: Core): Slot {
    Triggered(hw, StageView(hw, Unit(k).predicates, Storage(k), Youngest(k).Icd(), StagesOf(k)))
  }

  lemma StagesCover(hw: Hardware, k: Core)
    ensures Covers(Storage(k), Entries(hw, k), StagesOf(k))
  {
    match k {
      case ThreeStage(s) => TDX.CoversBoth(hw, s);
      case FourStage(t) => TDX1X2.CoversAll(hw, t);
      case Integer(u) => IntegerCore.CoversBoth(hw, u);
    }
  }

  lemma IdleSlots(hw: Hardware, k: Core)
    requires Invariant(hw, k) && Idle(hw, k)
    ensures forall j | 0 <= j < |Entries(hw, k)| :: Entries(hw, k)[j].slot == Bubble
    ensures NoWrites(Entries(hw, k))
    ensures Unit(k).Speculative? ==> !Unit(k).speculating
    ensures match k
            case ThreeStage(s) => s.d == s.x == Bubble
            case FourStage(t) => t.d == t.x1 == t.x2 == Bubble
            case Integer(u) => u.dx1 == u.x2 == Bubble && u.x2Stage == 0
  {
    ReachableFacts(hw, k);
    var es := Entries(hw, k);
    assert forall j | 0 <= j < |es| :: Slots(es)[j] == es[j].slot;
    assert es[0].slot == Bubble && es[1].slot == Bubble && es[|es| - 1].slot == Bubble;
    hide Sound, OciCount;
  }

  lemma IdleIssues(hw: Hardware, k: Core)
    requires Invariant(hw, k) && Idle(hw, k)
    ensures Issued(hw, k) == FromTrigger(hw, k)
  {
    IdleSlots(hw, k);
    hide Invariant, Idle, Entries, TDX.Issued, TDX1X2.Issued, IntegerCore.Issued, StageView, Triggered;
    match k {
      case ThreeStage(s) => TDX.EmptyIssues(hw, s);
      case FourStage(t) => TDX1X2.EmptyIssues(hw, t);
      case Integer(u) => IntegerCore.EmptyIssues(hw, u);
    }
  }

  lemma ChoiceUnfolds(hw: Hardware, k: Core, c: Cycle)
    ensures
      var wrong := WrongPath(hw.m.alu, Storage(k), Entries(hw, k), Unit(k));
      ChoiceOf(hw, k, c).fired == if Issued(hw, k).Busy? && !wrong then Some(Issued(hw, k).i) else None
  {
    hide WrongPath, TDX.Issued, TDX1X2.Issued, IntegerCore.Issued, TDX.Entries, TDX1X2.Entries, IntegerCore.Entries, Accepted;
  }

  /** An empty pipeline issues exactly what the sequential machine would execute. */
  lemma IdleIsExact(hw: Hardware, k: Core, c: Cycle)
    requires Invariant(hw, k) && Idle(hw, k) && !Abs(hw, k).dp.halted
    ensures ChoiceOf(hw, k, c).fired == Scheduled(hw.m, Abs(hw, k))
  {
    hide *;
    AbsIsResolve(hw, k);
    YoungestIsLast(hw, k);
    IdleSlots(hw, k);
    IdleResolves(hw.m.alu, Storage(k), Entries(hw, k), Unit(k));
    StagesCover(hw, k);
    IdleIssues(hw, k);
    ChoiceUnfolds(hw, k, c);
    NothingInFlight(hw, k);
    IdleOfferIsScheduled(hw, Storage(k), Entries(hw, k), Unit(k), StagesOf(k), Abs(hw, k));
    FromTriggerIs(hw, k);
  }

  lemma NothingInFlight(hw: Hardware, k: Core)
    requires Invariant(hw, k) && Idle(hw, k)
    ensures forall c: nat :: OciCount(Entries(hw, k), c) == 0
    ensures Entries(hw, k) != [] && Youngest(k).Icd() == [] && Entries(hw, k)[|Entries(hw, k)| - 1].slot.Icd() == []
  {
    IdleSlots(hw, k);
    hide Invariant, OciCount, TDX.Result, TDX1X2.Result, IntegerCore.LateResult;
    forall c: nat ensures OciCount(Entries(hw, k), c) == 0 { IdleCounts(Entries(hw, k), c); }
  }

  lemma FromTriggerIs(hw: Hardware, k: Core)
    ensures FromTrigger(hw, k) == Triggered(hw, StageView(hw, Unit(k).predicates, Storage(k), Youngest(k).Icd(), StagesOf(k)))
  {
  }

  /** Nothing is issued in any of these cycles. */
  predicate Quiet(hw: Hardware, k: Core, cs: seq<Cycle>)
    decreases cs
  {
    cs != [] ==> Issued(hw, k).Bubble? && Quiet(hw, Step(hw, k, cs[0]), cs[1..])
  }

  /** Every instruction moves one stage each cycle, or leaves, or is squashed. */
  lemma SlotsMove(hw: Hardware, k: Core, c: Cycle)
    ensures match k
            case ThreeStage(s) =>
              var s' := TDX.Step(hw, s, c);
              Step(hw, k, c) == ThreeStage(s') && s'.d == Issued(hw, k) && (s.d == Bubble ==> s'.x == Bubble)
            case FourStage(t) =>
              var t' := TDX1X2.Step(hw, t, c);
              && Step(hw, k, c) == FourStage(t') && t'.d == Issued(hw, k)
              && (t.d == Bubble ==> t'.x1 == Bubble) && (t.x1 == Bubble ==> t'.x2 == Bubble)
            case Integer(u) =>
              var u' := IntegerCore.Step(hw, u, c);
              Step(hw, k, c) == Integer(u') && u'.dx1 == Issued(hw, k) && (u.dx1 == Bubble ==> u'.x2 == Bubble)
  {
    hide TDX.Issued, TDX1X2.Issued, IntegerCore.Issued, TDX.Result, TDX1X2.Result, IntegerCore.Result, NextStorage, Clock,
         TDX.DecodeOperands, IntegerCore.LateOperands;
  }

  lemma TwoCycles(hw: Hardware, k: Core, cs: seq<Cycle>)
    requires |cs| >= 2
    ensures Run(hw, k, cs) == Run(hw, Step(hw, Step(hw, k, cs[0]), cs[1]), cs[2..])
    ensures Quiet(hw, k, cs) ==>
      && Issued(hw, k).Bubble? && Issued(hw, Step(hw, k, cs[0])).Bubble?
      && Quiet(hw, Step(hw, Step(hw, k, cs[0]), cs[1]), cs[2..])
  {
    hide Step, Issued;
    var k1, rest := Step(hw, k, cs[0]), cs[1..];
    assert rest[1..] == cs[2..] && rest[0] == cs[1];
    assert Run(hw, k, cs) == Run(hw, k1, rest) == Run(hw, Step(hw, k1, rest[0]), rest[1..]);
    assert Quiet(hw, k, cs) ==> Quiet(hw, k1, rest);
    assert Quiet(hw, k1, rest) ==> Quiet(hw, Step(hw, k1, rest[0]), rest[1..]);
  }

  /** A pipeline that issues nothing is empty after as many cycles as it has stages behind the trigger. */
  lemma QuietDrains(hw: Hardware, k: Core, cs: seq<Cycle>)
    requires |cs| == Latency(k) && Quiet(hw, k, cs)
    ensures Idle(hw, Run(hw, k, cs))
  {
    hide TDX.Step, TDX1X2.Step, IntegerCore.Step, Issued, TDX.Result, TDX1X2.Result, IntegerCore.LateResult, Step;
    TwoCycles(hw, k, cs);
    var k1 := Step(hw, k, cs[0]);
    var k2 := Step(hw, k1, cs[1]);
    SlotsMove(hw, k, cs[0]);
    SlotsMove(hw, k1, cs[1]);
    if k.FourStage? {
      assert cs[2..][0] == cs[2] && cs[2..][1..] == [];
      SlotsMove(hw, k2, cs[2]);
      BubblesAreIdle(hw, Step(hw, k2, cs[2]));
    } else {
      BubblesAreIdle(hw, k2);
    }
  }

  lemma BubblesAreIdle(hw: Hardware, k: Core)
    requires match k
             case ThreeStage(s) => s.d == s.x == Bubble
             case FourStage(t) => t.d == t.x1 == t.x2 == Bubble
             case Integer(u) => u.dx1 == u.x2 == Bubble
    ensures Idle(hw, k)
  {
    hide TDX.Result, TDX1X2.Result, IntegerCore.LateResult;
  }
}

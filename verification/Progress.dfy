/**
 * Progress. A pipelined core cannot go on for ever without executing something the sequential machine would
 * execute, not even by issuing along mispredicted paths, and what it executes also retires.
 */
module Progress {
  import opened Prelude
  import opened Instructions
  import opened Sequential
  import opened PredicateUnits
  import opened InFlight
  import opened Refinement
  import opened Runs
  import TDX
  import TDX1X2
  import IntegerCore

  // --- How far there is to go ---

  /** Cycles until the last instruction in flight has left. */
  function Depth(k: Core): nat {
    match k
    case ThreeStage(s) => if s.d.Busy? then 2 else if s.x.Busy? then 1 else 0
    case FourStage(t) => if t.d.Busy? then 3 else if t.x1.Busy? then 2 else if t.x2.Busy? then 1 else 0
    case Integer(u) => if u.dx1.Busy? then 2 else if u.x2.Busy? then 1 else 0
  }

  /** Cycles until the predicate write in flight is resolved. */
  function Distance(k: Core): nat {
    match k
    case ThreeStage(s) => if s.x.WritesPredicate() then 1 else 2
    case FourStage(t) => if t.x2.WritesPredicate() then 1 else if t.x1.WritesPredicate() then 2 else 3
    case Integer(u) => if u.x2.WritesPredicate() || IntegerCore.Early(u) then 1 else 2
  }

  function Ahead(hw: Hardware, k: Core): (n: nat)
    ensures n <= Latency(k)
  {
    if Doomed(hw, k) then Distance(k) else Depth(k)
  }

  // --- A wrong path is short ---

  /** A mispredicted write at the old end of the pipeline is the miss. */
  lemma MispredictedOldest(alu: Alu, dp: Datapath, e: Entry, es: seq<Entry>, pu: PredicateUnit)
    requires Consistent(pu, Slots([e] + es)) && e.slot.WritesPredicate()
    requires WrongPath(alu, dp, [e] + es, pu)
    ensures Miss(pu, e.slot.Dest(), Complete(alu, dp, e).1 != 0)
  {
    WrongPathIsSpeculative(alu, dp, [e] + es, pu, pu);
    ResolveCons(alu, dp, e, es, pu);
    hide WrongPath, Complete, Consistent, NoWrites, Slots;
    NothingYoungerWrites(e, es, pu);
    WriteIsGuarded(e, es, pu);
    ResolveIgnoresSaved(alu, Complete(alu, dp, e).0, es, pu, pu);
  }

  /** Without a write in flight nothing has been mispredicted. */
  lemma DoomedByAWrite(alu: Alu, dp: Datapath, es: seq<Entry>, pu: PredicateUnit)
    requires WrongPath(alu, dp, es, pu)
    ensures pu.Speculative? && !NoWrites(es)
  {
    if NoWrites(es) { ResolveIgnoresSaved(alu, dp, es, pu, pu); }
    WrongPathIsSpeculative(alu, dp, es, pu, pu);
  }

  /** Latches move up unless a miss empties them. */
  lemma LatchesMoveUp(hw: Hardware, k: Core, c: Cycle)
    requires !Missing(hw, k)
    ensures match k
            case ThreeStage(s) => TDX.Step(hw, s, c).x == s.d
            case FourStage(t) => TDX1X2.Step(hw, t, c).x1 == t.d && TDX1X2.Step(hw, t, c).x2 == t.x1
            case Integer(u) => true
  {
    hide TDX.Issued, TDX.Result, TDX.DecodeOperands, TDX1X2.Issued, TDX1X2.Result, NextStorage, Clock, Miss;
  }

  lemma ThreeStageDoom(hw: Hardware, s: TDX.State)
    requires TDX.Invariant(hw, s) && TDX.Doomed(hw, s)
    ensures s.x.WritesPredicate() ==> Missing(hw, ThreeStage(s))
    ensures s.x.WritesPredicate() || s.d.WritesPredicate()
  {
    var alu := hw.m.alu;
    var oldest, rest := Done(s.x, TDX.Result(alu, s)), [Pending(s.d)];
    assert TDX.Entries(alu, s) == [oldest] + rest;
    assert s.x.Busy? ==> Complete(alu, s.dp, oldest).1 == TDX.Result(alu, s);
    DoomedByAWrite(alu, s.dp, [oldest] + rest, s.pu);
    hide WrongPath, Complete, TDX.Result, Miss;
    if s.x.WritesPredicate() { MispredictedOldest(alu, s.dp, oldest, rest, s.pu); }
  }

  lemma FourStageDoom(hw: Hardware, t: TDX1X2.State)
    requires TDX1X2.Invariant(hw, t) && TDX1X2.Doomed(hw, t)
    ensures t.x2.WritesPredicate() ==> Missing(hw, FourStage(t))
    ensures t.x2.WritesPredicate() || t.x1.WritesPredicate() || t.d.WritesPredicate()
  {
    var alu := hw.m.alu;
    var oldest, rest := Finished(t.x2, TDX1X2.Result(t)), [TDX1X2.Reading(t.x1, t.operands), Pending(t.d)];
    assert TDX1X2.Entries(t) == [oldest] + rest;
    assert t.x2.Busy? ==> oldest.slot == t.x2 && Complete(alu, t.dp, oldest).1 == TDX1X2.Result(t);
    assert Consistent(t.pu, Slots([oldest] + rest)) && WrongPath(alu, t.dp, [oldest] + rest, t.pu);
    FourStageWrites(t, oldest, rest);
    hide WrongPath, Complete, TDX1X2.Result, Miss, TDX1X2.Invariant, Consistent, Slots, NoWrites;
    DoomedByAWrite(alu, t.dp, [oldest] + rest, t.pu);
    if t.x2.WritesPredicate() { MispredictedOldest(alu, t.dp, oldest, rest, t.pu); }
  }

  lemma FourStageWrites(t: TDX1X2.State, oldest: Entry, rest: seq<Entry>)
    requires oldest == Finished(t.x2, TDX1X2.Result(t)) && rest == [TDX1X2.Reading(t.x1, t.operands), Pending(t.d)]
    ensures NoWrites([oldest] + rest) || t.x2.WritesPredicate() || t.x1.WritesPredicate() || t.d.WritesPredicate()
  {
    hide TDX1X2.Result;
  }

  lemma IntegerDoom(hw: Hardware, u: IntegerCore.State)
    requires IntegerCore.Invariant(hw, u) && IntegerCore.Doomed(hw, u)
    ensures u.x2.WritesPredicate() || IntegerCore.Early(u) ==> Missing(hw, Integer(u))
    ensures u.x2.WritesPredicate() || u.dx1.WritesPredicate()
  {
    var alu := hw.m.alu;
    var late, early := Finished(u.x2, IntegerCore.LateResult(alu, u)), Pending(u.dx1);
    IntegerCore.EntriesSplit(alu, u);
    IntegerWrites(alu, u);
    hide WrongPath, Complete, Miss, Consistent, Slots, NoWrites, IntegerCore.Result, IntegerCore.LateResult, IntegerCore.Retiring;
    DoomedByAWrite(alu, u.dp, IntegerCore.Entries(alu, u), u.pu);
    if IntegerCore.Early(u) {
      IntegerCore.EarlyEdge(alu, u, Operands(0, 0, 0));
      OneLeadingBubble(alu, u.dp, 0, [early] + [], u.pu);
      hide IntegerCore.Entries;
      MispredictedOldest(alu, u.dp, early, [], u.pu);
    } else if u.x2.WritesPredicate() {
      IntegerCore.LateOldest(alu, u);
      hide IntegerCore.Entries;
      MispredictedOldest(alu, u.dp, late, [early], u.pu);
    }
  }

  lemma IntegerWrites(alu: Alu, u: IntegerCore.State)
    ensures NoWrites(IntegerCore.Entries(alu, u)) || u.x2.WritesPredicate() || u.dx1.WritesPredicate()
  {
    hide IntegerCore.LateResult;
  }

  /** A two-cycle write moves to X2 unless something older misses. */
  lemma TwoCycleWriteMoves(hw: Hardware, u: IntegerCore.State, c: Cycle)
    requires IntegerCore.Invariant(hw, u) && u.dx1.WritesPredicate() && !IntegerCore.Early(u) && !Missing(hw, Integer(u))
    ensures IntegerCore.Step(hw, u, c).x2.WritesPredicate()
  {
    hide Sound, Miss, IntegerCore.Result, NextStorage, Clock, IntegerCore.Issued, IntegerCore.LateOperands, IntegerCore.Retiring;
  }

  /** A wrong path ends within as many cycles as its write has left to go. */
  lemma DoomComesCloser(hw: Hardware, k: Core, c: Cycle)
    requires Invariant(hw, k) && Doomed(hw, k) && !Missing(hw, k)
    ensures Distance(Step(hw, k, c)) < Distance(k)
  {
    hide TDX.Step, TDX1X2.Step, IntegerCore.Step, TDX.Invariant, TDX1X2.Invariant, IntegerCore.Invariant, WrongPath,
         TDX.Entries, TDX1X2.Entries, IntegerCore.Entries, Missing;
    LatchesMoveUp(hw, k, c);
    match k
    case ThreeStage(s) => ThreeStageDoom(hw, s);
    case FourStage(t) => FourStageDoom(hw, t);
    case Integer(u) =>
      IntegerDoom(hw, u);
      TwoCycleWriteMoves(hw, u, c);
  }

  lemma MissEmpties(hw: Hardware, k: Core, c: Cycle)
    requires Missing(hw, k)
    ensures Depth(Step(hw, k, c)) == 0
  {
    hide TDX.Step, TDX1X2.Step, IntegerCore.Step, Miss, TDX.Result, TDX1X2.Result, IntegerCore.Result, IntegerCore.Retiring;
    match k
    case ThreeStage(s) => TDX.MissFlushes(hw, s, c);
    case FourStage(t) => TDX1X2.MissFlushes(hw, t, c);
    case Integer(u) => IntegerCore.MissFlushes(hw, u, c);
  }

  lemma QuietComesCloser(hw: Hardware, k: Core, c: Cycle)
    requires Issued(hw, k).Bubble?
    ensures Depth(Step(hw, k, c)) == 0 || Depth(Step(hw, k, c)) < Depth(k)
  {
    hide TDX.Step, TDX1X2.Step, IntegerCore.Step, TDX.Issued, TDX1X2.Issued, IntegerCore.Issued;
    SlotsMove(hw, k, c);
  }

  lemma NoDepthIsIdle(hw: Hardware, k: Core)
    requires Depth(k) == 0
    ensures Idle(hw, k)
  {
    hide Idle;
    BubblesAreIdle(hw, k);
  }

  lemma IdleIsNotDoomed(hw: Hardware, k: Core)
    requires Idle(hw, k)
    ensures !Doomed(hw, k)
    ensures Abs(hw, k) == Pe(Unit(k).predicates, Storage(k))
  {
    AbsIsResolve(hw, k);
    hide Entries, Storage, Unit, Abs, WrongPath, Resolve;
    IdleResolves(hw.m.alu, Storage(k), Entries(hw, k), Unit(k));
  }

  /** A cycle in which nothing is executed brings the pipeline closer to being empty, on the right path or a wrong one. */
  lemma IdlingComesCloser(hw: Hardware, k: Core, c: Cycle)
    requires Invariant(hw, k) && !Abs(hw, k).dp.halted && ChoiceOf(hw, k, c).fired.None?
    ensures Ahead(hw, Step(hw, k, c)) == 0 || Ahead(hw, Step(hw, k, c)) < Ahead(hw, k)
  {
    hide Invariant, Abs, Step, ChoiceOf, Issued, Missing, Doomed, Depth, Distance, Idle;
    var k' := Step(hw, k, c);
    StepRefines(hw, k, c);
    Executes(hw, k, c);
    if Missing(hw, k) {
      MissEmpties(hw, k, c);
      NoDepthIsIdle(hw, k');
      IdleIsNotDoomed(hw, k');
    } else if Doomed(hw, k) {
      DoomComesCloser(hw, k, c);
    } else {
      QuietComesCloser(hw, k, c);
    }
  }

  lemma Executes(hw: Hardware, k: Core, c: Cycle)
    ensures ChoiceOf(hw, k, c).fired == if Issued(hw, k).Busy? && !Doomed(hw, k) then Some(Issued(hw, k).i) else None
  {
    ChoiceUnfolds(hw, k, c);
    hide ChoiceOf, Issued, WrongPath, Storage, Entries, Unit;
  }

  lemma NothingAheadIsIdle(hw: Hardware, k: Core)
    requires Ahead(hw, k) == 0
    ensures Idle(hw, k)
  {
    hide Idle, Doomed;
    assert Distance(k) > 0;
    NoDepthIsIdle(hw, k);
  }

  /** The pipeline empties while nothing is executed. */
  lemma {:induction false} IdlingDrains(hw: Hardware, k: Core, cs: seq<Cycle>)
    requires Invariant(hw, k) && Running(hw, k, cs) && Fired(Choices(hw, k, cs)) == [] && |cs| >= Ahead(hw, k)
    ensures Idle(hw, Run(hw, k, cs))
    decreases cs
  {
    hide Invariant, Abs, Step, ChoiceOf, Ahead, Idle;
    if cs == [] {
      NothingAheadIsIdle(hw, k);
    } else {
      FiredFirst(hw, k, cs);
      StepRefines(hw, k, cs[0]);
      IdlingComesCloser(hw, k, cs[0]);
      IdlingDrains(hw, Step(hw, k, cs[0]), cs[1..]);
    }
  }

  lemma FiredFirst(hw: Hardware, k: Core, cs: seq<Cycle>)
    requires cs != []
    ensures
      Fired(Choices(hw, k, cs))
        == (match ChoiceOf(hw, k, cs[0]).fired case None => [] case Some(i) => [i]) + Fired(Choices(hw, Step(hw, k, cs[0]), cs[1..]))
  {
    hide ChoiceOf, Step;
    assert Choices(hw, k, cs)[1..] == Choices(hw, Step(hw, k, cs[0]), cs[1..]);
  }

  /**
   * Stuttering is bounded. A core that has executed nothing for as many cycles as it has stages behind the trigger,
   * whatever it may have issued on mispredicted paths, executes next what the sequential machine would execute.
   */
  lemma StutteringIsBounded(hw: Hardware, k: Core, cs: seq<Cycle>, c: Cycle)
    requires Invariant(hw, k) && Running(hw, k, cs)
    requires |cs| >= Latency(k) && Fired(Choices(hw, k, cs)) == [] && !Abs(hw, Run(hw, k, cs)).dp.halted
    ensures ChoiceOf(hw, Run(hw, k, cs), c).fired == Scheduled(hw.m, Abs(hw, Run(hw, k, cs)))
  {
    hide *;
    RunRefines(hw, k, cs);
    assert Ahead(hw, k) <= Latency(k);
    IdlingDrains(hw, k, cs);
    IdleIsExact(hw, Run(hw, k, cs), c);
  }

  // --- Runs in pieces ---

  lemma RunOfNothing(hw: Hardware, k: Core)
    ensures Run(hw, k, []) == k && Running(hw, k, []) && Fired(Choices(hw, k, [])) == []
  {
  }

  lemma RunUnfolds(hw: Hardware, k: Core, cs: seq<Cycle>)
    requires cs != []
    ensures Run(hw, k, cs) == Run(hw, Step(hw, k, cs[0]), cs[1..])
    ensures Running(hw, k, cs) <==> !Abs(hw, k).dp.halted && Running(hw, Step(hw, k, cs[0]), cs[1..])
  {
    hide Step, Abs;
  }

  lemma {:induction false} RunInPieces(hw: Hardware, k: Core, a: seq<Cycle>, b: seq<Cycle>)
    ensures Run(hw, k, a + b) == Run(hw, Run(hw, k, a), b)
    ensures Running(hw, k, a + b) <==> Running(hw, k, a) && Running(hw, Run(hw, k, a), b)
    ensures Fired(Choices(hw, k, a + b)) == Fired(Choices(hw, k, a)) + Fired(Choices(hw, Run(hw, k, a), b))
    decreases a
  {
    hide *;
    RunOfNothing(hw, k);
    if a == [] {
      assert a + b == b;
    } else {
      assert (a + b)[1..] == a[1..] + b && (a + b)[0] == a[0];
      RunInPieces(hw, Step(hw, k, a[0]), a[1..], b);
      RunUnfolds(hw, k, a + b);
      RunUnfolds(hw, k, a);
      FiredFirst(hw, k, a + b);
      FiredFirst(hw, k, a);
    }
  }

  lemma {:induction false} SameDesign(hw: Hardware, k: Core, cs: seq<Cycle>)
    ensures Latency(Run(hw, k, cs)) == Latency(k)
    decreases cs
  {
    hide TDX.Step, TDX1X2.Step, IntegerCore.Step;
    if cs != [] { SameDesign(hw, Step(hw, k, cs[0]), cs[1..]); }
  }

  /** At some moment of the run the sequential machine would have nothing to execute. */
  ghost predicate Starves(hw: Hardware, k: Core, cs: seq<Cycle>) {
    exists j | 0 <= j < |cs| :: Scheduled(hw.m, Abs(hw, Run(hw, k, cs[..j]))).None?
  }

  lemma StarvesSomewhere(hw: Hardware, k: Core, cs: seq<Cycle>) returns (j: nat)
    requires Starves(hw, k, cs)
    ensures j < |cs| && Scheduled(hw.m, Abs(hw, Run(hw, k, cs[..j]))).None?
  {
    hide Scheduled, Abs, Run;
    j :| 0 <= j < |cs| && Scheduled(hw.m, Abs(hw, Run(hw, k, cs[..j]))).None?;
  }

  lemma PrefixOfSum(a: seq<Cycle>, b: seq<Cycle>, j: nat)
    ensures j <= |a| ==> (a + b)[..j] == a[..j]
    ensures j <= |b| ==> (a + b)[..|a| + j] == a + b[..j]
  {
  }

  lemma StarvesLater(hw: Hardware, k: Core, a: seq<Cycle>, b: seq<Cycle>)
    requires Starves(hw, k, a) || Starves(hw, Run(hw, k, a), b)
    ensures Starves(hw, k, a + b)
  {
    hide *;
    if Starves(hw, k, a) {
      var j := StarvesSomewhere(hw, k, a);
      PrefixOfSum(a, b, j);
      StarvesAt(hw, k, a + b, j);
    } else {
      var j := StarvesSomewhere(hw, Run(hw, k, a), b);
      PrefixOfSum(a, b, j);
      RunInPieces(hw, k, a, b[..j]);
      StarvesAt(hw, k, a + b, |a| + j);
    }
  }

  /** One instruction per `Latency + 1` cycles at least, as long as there is one to execute. */
  lemma OneBlockFires(hw: Hardware, k: Core, cs: seq<Cycle>)
    requires Invariant(hw, k) && Running(hw, k, cs) && |cs| == Latency(k) + 1
    ensures Fired(Choices(hw, k, cs)) != [] || Starves(hw, k, cs)
  {
    hide *;
    var n := Latency(k);
    var a, b := cs[..n], cs[n..];
    assert cs == a + b && b[0] == cs[n];
    RunInPieces(hw, k, a, b);
    RunUnfolds(hw, Run(hw, k, a), b);
    FiredFirst(hw, Run(hw, k, a), b);
    if Scheduled(hw.m, Abs(hw, Run(hw, k, a))).None? {
      StarvesAt(hw, k, cs, n);
    } else if Fired(Choices(hw, k, a)) == [] {
      StutteringIsBounded(hw, k, a, cs[n]);
    }
  }

  lemma StarvesAt(hw: Hardware, k: Core, cs: seq<Cycle>, j: nat)
    requires j < |cs| && Scheduled(hw.m, Abs(hw, Run(hw, k, cs[..j]))).None?
    ensures Starves(hw, k, cs)
  {
    hide Scheduled, Abs, Run;
  }

  lemma {:induction false} KeepsExecuting(hw: Hardware, k: Core, cs: seq<Cycle>, n: nat)
    requires Invariant(hw, k) && Running(hw, k, cs) && |cs| >= n * (Latency(k) + 1)
    ensures |Fired(Choices(hw, k, cs))| >= n || Starves(hw, k, cs)
    decreases n
  {
    hide *;
    if n > 0 {
      var size := Latency(k) + 1;
      assert n * size == size + (n - 1) * size;
      assert (n - 1) * size >= 0;
      var a, b := cs[..size], cs[size..];
      assert cs == a + b;
      RunInPieces(hw, k, a, b);
      RunRefines(hw, k, a);
      SameDesign(hw, k, a);
      OneBlockFires(hw, k, a);
      KeepsExecuting(hw, Run(hw, k, a), b, n - 1);
      if Starves(hw, k, a) || Starves(hw, Run(hw, k, a), b) { StarvesLater(hw, k, a, b); }
    }
  }

  // --- Executed instructions retire ---

  lemma {:induction false} LogGap(alu: Alu, dp: Datapath, es: seq<Entry>, pu: PredicateUnit)
    ensures |Resolve(alu, dp, es, pu).dp.retired| <= |dp.retired| + |es|
    decreases es
  {
    if es != [] {
      var (dp', r) := Complete(alu, dp, es[0]);
      LogGap(alu, dp', es[1..], pu);
      if pu.Plain? && es[0].slot.WritesPredicate() {
        LogGap(alu, dp', es[1..], Plain(SetPredicate(pu.predicates, es[0].slot.Dest().index, r != 0)));
      }
    }
  }

  /** A core has retired all it stands for, except at most one instruction per stage behind the trigger. */
  lemma RetirementLags(hw: Hardware, k: Core)
    ensures Storage(k).retired <= Abs(hw, k).dp.retired
    ensures |Abs(hw, k).dp.retired| <= |Storage(k).retired| + Latency(k)
    ensures Idle(hw, k) ==> Abs(hw, k).dp.retired == Storage(k).retired
  {
    AbsIsResolve(hw, k);
    assert |Entries(hw, k)| == Latency(k);
    hide Entries, Storage, Unit, Abs, Resolve, Idle;
    LogGrows(hw.m.alu, Storage(k), Entries(hw, k), Unit(k));
    LogGap(hw.m.alu, Storage(k), Entries(hw, k), Unit(k));
    if Idle(hw, k) { IdleIsNotDoomed(hw, k); }
  }

  // --- Programs that only look at predicates ---

  lemma EnvSameCore(pe: Pe, e: Events)
    ensures SameCore(EnvPe(pe, e), pe)
  {
  }

  /** Once such a program has nothing to execute it never has anything to execute again. */
  lemma {:induction false} StarvedForEver(hw: Hardware, k: Core, cs: seq<Cycle>)
    requires Invariant(hw, k) && Running(hw, k, cs) && PredicatesOnly(hw.m.program)
    requires Scheduled(hw.m, Abs(hw, k)).None?
    ensures Fired(Choices(hw, k, cs)) == []
    ensures Scheduled(hw.m, Abs(hw, Run(hw, k, cs))).None?
    decreases cs
  {
    hide *;
    RunOfNothing(hw, k);
    if cs != [] {
      var k' := Step(hw, k, cs[0]);
      RunUnfolds(hw, k, cs);
      FiredFirst(hw, k, cs);
      StepRefines(hw, k, cs[0]);
      NothingAllowed(hw, Abs(hw, k), ChoiceOf(hw, k, cs[0]));
      StarvedForEver(hw, k', cs[1..]);
    }
  }

  lemma NothingAllowed(hw: Hardware, pe: Pe, c: Choice)
    requires Allowed(hw, pe, c) && PredicatesOnly(hw.m.program) && Scheduled(hw.m, pe).None?
    ensures c.fired.None? && Scheduled(hw.m, Sequentially(hw.m, pe, c)).None?
  {
    hide Scheduled, Eligible, Legal, PredicatesOnly;
    EnvSameCore(pe, c.events);
    SameSchedule(hw.m, Sequentially(hw.m, pe, c), pe);
  }

  lemma {:induction false} IterationsStop(m: Machine, pe: Pe, n: nat)
    requires Scheduled(m, pe).None?
    ensures IterateTimes(m, pe, n) == pe
    decreases n
  {
    hide Scheduled;
    if n > 0 { IterationsStop(m, pe, n - 1); }
  }

  lemma {:induction false} IterationsAdd(m: Machine, pe: Pe, n: nat, extra: nat)
    ensures IterateTimes(m, pe, n + extra) == IterateTimes(m, IterateTimes(m, pe, n), extra)
    decreases n
  {
    hide Iterate;
    if n > 0 { IterationsAdd(m, Iterate(m, pe), n - 1, extra); }
  }

  lemma {:induction false} IterationsLog(m: Machine, pe: Pe, n: nat)
    ensures |IterateTimes(m, pe, n).dp.retired| <= |pe.dp.retired| + n
    decreases n
  {
    if n > 0 {
      OneIterationLogs(m, pe);
      hide Iterate;
      IterationsLog(m, Iterate(m, pe), n - 1);
    }
  }

  lemma OneIterationLogs(m: Machine, pe: Pe)
    ensures |Iterate(m, pe).dp.retired| <= |pe.dp.retired| + 1
  {
    hide Scheduled;
  }

  lemma ShorterPrefix(a: seq<Instruction>, b: seq<Instruction>, whole: seq<Instruction>)
    requires a <= whole && b <= whole && |a| <= |b|
    ensures a <= b
  {
  }

  /** After enough executed instructions the first ones have retired. */
  lemma ExecutedRetires(hw: Hardware, k: Core, cs: seq<Cycle>, n: nat)
    requires Invariant(hw, k) && Running(hw, k, cs) && PredicatesOnly(hw.m.program)
    requires |Fired(Choices(hw, k, cs))| >= n + Latency(k)
    ensures IterateTimes(hw.m, Abs(hw, k), n).dp.retired <= Storage(Run(hw, k, cs)).retired
  {
    hide *;
    var end, pe, f := Run(hw, k, cs), Abs(hw, k), |Fired(Choices(hw, k, cs))|;
    RunRefines(hw, k, cs);
    SequentialLog(hw.m, pe, Choices(hw, k, cs));
    SpeculationIsTransparent(hw, k, cs);
    SameLog(Abs(hw, end), IterateTimes(hw.m, pe, f));
    IterationsExtend(hw.m, pe, n, f - n);
    IterationsLog(hw.m, pe, n);
    SameDesign(hw, k, cs);
    RetirementLags(hw, end);
    ShorterPrefix(IterateTimes(hw.m, pe, n).dp.retired, Storage(end).retired, Abs(hw, end).dp.retired);
  }

  /** When the program is over, everything it did has retired by the time the pipeline has drained. */
  lemma StarvedRetires(hw: Hardware, k: Core, a: seq<Cycle>, b: seq<Cycle>, n: nat)
    requires Invariant(hw, k) && Running(hw, k, a + b) && PredicatesOnly(hw.m.program)
    requires Scheduled(hw.m, Abs(hw, Run(hw, k, a))).None? && |b| >= Latency(k)
    ensures IterateTimes(hw.m, Abs(hw, k), n).dp.retired <= Storage(Run(hw, k, a + b)).retired
  {
    hide *;
    var mid, end, pe, f := Run(hw, k, a), Run(hw, k, a + b), Abs(hw, k), |Fired(Choices(hw, k, a + b))|;
    RunInPieces(hw, k, a, b);
    RunRefines(hw, k, a);
    StarvedForEver(hw, mid, b);
    SameDesign(hw, k, a);
    assert Ahead(hw, mid) <= Latency(mid);
    IdlingDrains(hw, mid, b);
    RetirementLags(hw, end);
    SpeculationIsTransparent(hw, k, a + b);
    SameLog(Abs(hw, end), IterateTimes(hw.m, pe, f));
    SameSchedule(hw.m, Abs(hw, end), IterateTimes(hw.m, pe, f));
    if n <= f {
      IterationsExtend(hw.m, pe, n, f - n);
    } else {
      IterationsAdd(hw.m, pe, f, n - f);
      IterationsStop(hw.m, IterateTimes(hw.m, pe, f), n - f);
    }
  }

  lemma RetiresInPieces(hw: Hardware, k: Core, a: seq<Cycle>, b: seq<Cycle>, n: nat, blocks: nat)
    requires Invariant(hw, k) && Running(hw, k, a + b) && PredicatesOnly(hw.m.program)
    requires blocks == n + Latency(k) && |a| >= blocks * (Latency(k) + 1) && |b| >= Latency(k)
    ensures IterateTimes(hw.m, Abs(hw, k), n).dp.retired <= Storage(Run(hw, k, a + b)).retired
  {
    hide *;
    RunInPieces(hw, k, a, b);
    KeepsExecuting(hw, k, a, blocks);
    if |Fired(Choices(hw, k, a))| >= blocks {
      ExecutedRetires(hw, k, a + b, n);
    } else {
      var j := StarvesSomewhere(hw, k, a);
      assert a[..j] + (a[j..] + b) == a + b;
      StarvedRetires(hw, k, a[..j], a[j..] + b, n);
    }
  }

  /** The core never retires anything else. */
  lemma NothingElseRetires(hw: Hardware, k: Core, cs: seq<Cycle>)
    requires Invariant(hw, k) && Running(hw, k, cs) && PredicatesOnly(hw.m.program)
    ensures Storage(Run(hw, k, cs)).retired <= IterateTimes(hw.m, Abs(hw, k), |cs|).dp.retired
  {
    hide *;
    RetiredIsPrefix(hw, k, cs);
    FiredAtMost(hw, k, cs);
    IterationsExtend(hw.m, Abs(hw, k), |Fired(Choices(hw, k, cs))|, |cs| - |Fired(Choices(hw, k, cs))|);
  }

  /**
   * The retired stream is the sequential stream. For a program whose triggers test predicates only, the first `n`
   * iterations of the simulator have all retired after a number of cycles that depends on `n` and on the depth of
   * the pipeline alone, whatever was predicted on the way, and nothing else ever retires.
   */
  lemma EverythingRetires(hw: Hardware, k: Core, cs: seq<Cycle>, n: nat)
    requires Invariant(hw, k) && Running(hw, k, cs) && PredicatesOnly(hw.m.program)
    requires |cs| >= (n + Latency(k) + 1) * (Latency(k) + 1)
    ensures IterateTimes(hw.m, Abs(hw, k), n).dp.retired <= Storage(Run(hw, k, cs)).retired
    ensures Storage(Run(hw, k, cs)).retired <= IterateTimes(hw.m, Abs(hw, k), |cs|).dp.retired
  {
    hide *;
    var size, blocks := Latency(k) + 1, n + Latency(k);
    OneMoreBlock(blocks, size);
    var a, b := cs[..blocks * size], cs[blocks * size..];
    assert cs == a + b;
    NothingElseRetires(hw, k, cs);
    RetiresInPieces(hw, k, a, b, n, blocks);
  }

  lemma OneMoreBlock(blocks: nat, size: nat)
    ensures (blocks + 1) * size == blocks * size + size && 0 <= blocks * size
  {
  }

  // --- Halting ---

  /** An element that has halted stays as it is. */
  lemma HaltedIterationsStop(m: Machine, pe: Pe, n: nat, extra: nat)
    requires IterateTimes(m, pe, n).dp.halted
    ensures IterateTimes(m, pe, n + extra) == IterateTimes(m, pe, n)
  {
    IterationsAdd(m, pe, n, extra);
    hide IterateTimes, FirstMatch;
    IterationsStop(m, IterateTimes(m, pe, n), extra);
  }

  lemma SameHalt(a: Pe, b: Pe)
    requires SameCore(a, b)
    ensures a.dp.halted == b.dp.halted
  {
  }

  /** Before every cycle of a run the element has not halted. */
  lemma RunningUpTo(hw: Hardware, k: Core, cs: seq<Cycle>, j: nat)
    requires Running(hw, k, cs) && j < |cs|
    ensures Running(hw, k, cs[..j]) && !Abs(hw, Run(hw, k, cs[..j])).dp.halted
  {
    hide *;
    assert cs == cs[..j] + cs[j..];
    RunInPieces(hw, k, cs[..j], cs[j..]);
    RunUnfolds(hw, Run(hw, k, cs[..j]), cs[j..]);
  }

  /** A run that is long enough for a program that halts has issued the halt. */
  lemma LongRunHalts(hw: Hardware, k: Core, cs: seq<Cycle>, n: nat)
    requires Invariant(hw, k) && PredicatesOnly(hw.m.program) && Running(hw, k, cs)
    requires IterateTimes(hw.m, Abs(hw, k), n).dp.halted && |cs| >= n * (Latency(k) + 1)
    ensures Abs(hw, Run(hw, k, cs)).dp.halted
  {
    hide *;
    var pe, f := Abs(hw, k), |Fired(Choices(hw, k, cs))|;
    KeepsExecuting(hw, k, cs, n);
    if f >= n {
      HaltedIterationsStop(hw.m, pe, n, f - n);
      SpeculationIsTransparent(hw, k, cs);
      SameHalt(Abs(hw, Run(hw, k, cs)), IterateTimes(hw.m, pe, f));
    } else {
      var j := StarvesSomewhere(hw, k, cs);
      var mid, g := Run(hw, k, cs[..j]), |Fired(Choices(hw, k, cs[..j]))|;
      RunningUpTo(hw, k, cs, j);
      SpeculationIsTransparent(hw, k, cs[..j]);
      SameHalt(Abs(hw, mid), IterateTimes(hw.m, pe, g));
      SameSchedule(hw.m, Abs(hw, mid), IterateTimes(hw.m, pe, g));
      if n <= g {
        HaltedIterationsStop(hw.m, pe, n, g - n);
      } else {
        IterationsAdd(hw.m, pe, g, n - g);
        IterationsStop(hw.m, IterateTimes(hw.m, pe, g), n - g);
      }
    }
  }

  /** The cycle after which the element has halted, in a run that goes on too long. */
  lemma {:induction false} FirstHalt(hw: Hardware, k: Core, cs: seq<Cycle>) returns (j: nat)
    requires Running(hw, k, cs) ==> Abs(hw, Run(hw, k, cs)).dp.halted
    ensures j <= |cs| && Running(hw, k, cs[..j]) && Abs(hw, Run(hw, k, cs[..j])).dp.halted
    decreases cs
  {
    hide *;
    RunOfNothing(hw, k);
    if Abs(hw, k).dp.halted {
      j := 0;
    } else {
      RunUnfolds(hw, k, cs);
      j := FirstHalt(hw, Step(hw, k, cs[0]), cs[1..]);
      j := j + 1;
      assert cs[..j][0] == cs[0] && cs[..j][1..] == cs[1..][..j - 1];
      RunUnfolds(hw, k, cs[..j]);
    }
  }

  /**
   * A halt comes in time. If the simulator halts within `n` iterations of a program whose triggers test predicates only,
   * the core issues that halt within `n` times one more than the depth of the pipeline, whatever was predicted, and has
   * then executed exactly what the simulator executed.
   */
  lemma HaltIsIssued(hw: Hardware, k: Core, cs: seq<Cycle>, n: nat) returns (j: nat)
    requires Invariant(hw, k) && PredicatesOnly(hw.m.program)
    requires IterateTimes(hw.m, Abs(hw, k), n).dp.halted && |cs| >= n * (Latency(k) + 1)
    ensures j <= |cs| && Running(hw, k, cs[..j]) && Abs(hw, Run(hw, k, cs[..j])).dp.halted
    ensures Abs(hw, Run(hw, k, cs[..j])).dp.retired == IterateTimes(hw.m, Abs(hw, k), n).dp.retired
  {
    hide *;
    if Running(hw, k, cs) { LongRunHalts(hw, k, cs, n); }
    j := FirstHalt(hw, k, cs);
    var pe, f := Abs(hw, k), |Fired(Choices(hw, k, cs[..j]))|;
    SpeculationIsTransparent(hw, k, cs[..j]);
    SameHalt(Abs(hw, Run(hw, k, cs[..j])), IterateTimes(hw.m, pe, f));
    SameLog(Abs(hw, Run(hw, k, cs[..j])), IterateTimes(hw.m, pe, f));
    if n <= f {
      HaltedIterationsStop(hw.m, pe, n, f - n);
    } else {
      HaltedIterationsStop(hw.m, pe, f, n - f);
    }
  }

  // --- Counting ---

  lemma {:induction false} FiredAtMost(hw: Hardware, k: Core, cs: seq<Cycle>)
    ensures |Fired(Choices(hw, k, cs))| <= |cs|
    decreases cs
  {
    hide *;
    RunOfNothing(hw, k);
    if cs != [] {
      FiredFirst(hw, k, cs);
      FiredAtMost(hw, Step(hw, k, cs[0]), cs[1..]);
    }
  }
}

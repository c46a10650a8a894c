/**
 * What the two opcode tables of the integer core do to an opcode neither of them lists. Right behind a two-cycle
 * operation it is lost, so the core runs every program over a set of opcodes correctly exactly when the set has no
 * such opcode or no two-cycle operation.
 */
module UnknownOpcodes {
  import opened Prelude
  import opened Instructions
  import opened Sequential
  import opened PredicateUnits
  import opened InFlight
  import opened ChannelBuffers
  import opened Refinement
  import opened Runs
  import opened Progress
  import IntegerCore

  /** Runs first, and lets the other instruction run. */
  function Late(op: nat): Instruction {
    Instruction(Trigger([], [0], [], [], [], []), op, NullSource, NullSource, NullSource, 0, NullDestination, 0, [], [PredicateUpdate(0, true)])
  }

  /** Runs once, right after it. */
  function Odd(op: nat): Instruction {
    Instruction(Trigger([0], [1], [], [], [], []), op, NullSource, NullSource, NullSource, 0, NullDestination, 0, [], [PredicateUpdate(1, true)])
  }

  function Program(late: nat, odd: nat): seq<Instruction> {
    [Late(late), Odd(odd)]
  }

  /** What triggers at each of the three moments of the program. */
  lemma Schedule(hw: Hardware, late: nat, odd: nat, v: View)
    requires hw.m.program == Program(late, odd) && |v.predicates| >= 2
    ensures !v.predicates[0] ==> Triggered(hw, v) == Busy(Late(late))
    ensures v.predicates[0] && !v.predicates[1] ==> Triggered(hw, v) == Busy(Odd(odd))
    ensures v.predicates[0] && v.predicates[1] ==> Triggered(hw, v) == Bubble
  {
    WhenEligible(late, odd, v);
    hide Eligible, Late, Odd;
    var k := FirstMatch(hw.m.program, v);
    assert hw.m.program[0] == Late(late) && hw.m.program[1] == Odd(odd) && |hw.m.program| == 2;
  }

  lemma WhenEligible(late: nat, odd: nat, v: View)
    requires |v.predicates| >= 2
    ensures Eligible(Late(late).trigger, v) <==> !v.predicates[0]
    ensures Eligible(Odd(odd).trigger, v) <==> v.predicates[0] && !v.predicates[1]
  {
    assert 0 in Late(late).trigger.falsePredicates;
    assert 0 in Odd(odd).trigger.truePredicates && 1 in Odd(odd).trigger.falsePredicates;
  }

  predicate Idling(pu: PredicateUnit, p: seq<bool>) {
    pu.predicates == p && (pu.Speculative? ==> !pu.speculating)
  }

  /** The predicate unit when no predicate is written through the datapath: updates only. */
  lemma UpdatesOnly(pu: PredicateUnit, value: bool, slot: Slot, prediction: bool, p: seq<bool>)
    requires Idling(pu, p) && !slot.WritesPredicate()
    ensures Idling(Clock(pu, NullDestination, value, slot, prediction), Masked(p, slot.Updates(), NullDestination, value))
  {
  }

  /** One cycle in which neither stage writes a predicate. */
  lemma PlainCycle(hw: Hardware, u: IntegerCore.State, c: Cycle, t: Slot, p: seq<bool>)
    requires Idling(u.pu, p) && u.dx1.Dest() == NullDestination && u.x2.Dest() == NullDestination && !t.WritesPredicate()
    requires t == Triggered(hw, StageView(hw, u.pu.predicates, u.dp, u.dx1.Icd(), IntegerCore.Stages(u)))
    requires !IntegerCore.Collision(t.Op(), IntegerCore.RetiringStage(u.dx1.Op()))
    ensures
      var u' := IntegerCore.Step(hw, u, c);
      && u'.dx1 == t
      && (IntegerCore.RetiringStage(u.dx1.Op()) == 2 ==> u'.x2 == u.dx1 && u'.x2Stage == 2)
      && (IntegerCore.RetiringStage(u.dx1.Op()) != 2 ==> u'.x2 == Bubble && u'.x2Stage == 0)
      && u'.dp.retired == u.dp.retired + (if IntegerCore.Retiring(u).Busy? then [IntegerCore.Retiring(u).i] else [])
      && (u'.dp.halted <==> u.dp.halted || IntegerCore.Retiring(u).Op() == HALT)
      && Idling(u'.pu, Masked(p, t.Updates(), NullDestination, IntegerCore.Result(hw.m.alu, u) != 0))
  {
    hide StageView, Triggered, IntegerCore.Result, IntegerCore.LateOperands, NextInputs, NextOutputs, Masked, Clock;
    UpdatesOnly(u.pu, IntegerCore.Result(hw.m.alu, u) != 0, t, c.prediction, p);
    assert IntegerCore.Retiring(u).Dest() == NullDestination;
    assert IntegerCore.Offered(hw, u) == t;
    assert u.dp.retired + [] == u.dp.retired;
  }

  lemma StageViewPredicates(hw: Hardware, p: seq<bool>, dp: Datapath, icd: seq<nat>, stages: seq<seq<nat>>)
    ensures StageView(hw, p, dp, icd, stages).predicates == p
  {
  }

  /** The predicates before and after each instruction. */
  function Moment(n: nat, late: bool, odd: bool): (p: seq<bool>)
    requires n >= 2
    ensures |p| == n && p[0] == late && p[1] == odd
  {
    [late, odd] + seq(n - 2, _ => false)
  }

  /** An empty pipeline, with these predicates. */
  predicate Empty(n: nat, late: bool, odd: bool, u: IntegerCore.State)
    requires n >= 2
  {
    Idling(u.pu, Moment(n, late, odd)) && u.dx1 == u.x2 == Bubble && u.x2Stage == 0 && !u.dp.halted
  }

  /** The first instruction in DX1. */
  predicate FirstInFlight(n: nat, late: nat, u: IntegerCore.State)
    requires n >= 2
  {
    Idling(u.pu, Moment(n, true, false)) && u.dx1 == Busy(Late(late)) && u.x2 == Bubble && u.x2Stage == 0 && !u.dp.halted
  }

  /** Both instructions in flight: the second in DX1, the first in X2. */
  predicate InFlightTogether(n: nat, late: nat, odd: nat, u: IntegerCore.State)
    requires n >= 2
  {
    Idling(u.pu, Moment(n, true, true)) && u.dx1 == Busy(Odd(odd)) && u.x2 == Busy(Late(late)) && u.x2Stage == 2 && !u.dp.halted
  }

  lemma Moments(n: nat, value: bool, late: nat, odd: nat)
    requires n >= 2
    ensures seq(n, _ => false) == Moment(n, false, false)
    ensures Masked(Moment(n, false, false), Late(late).updates, NullDestination, value) == Moment(n, true, false)
    ensures Masked(Moment(n, true, false), Odd(odd).updates, NullDestination, value) == Moment(n, true, true)
    ensures Masked(Moment(n, true, true), [], NullDestination, value) == Moment(n, true, true)
    ensures AssignUpdates(Moment(n, false, false), Late(late).updates) == Moment(n, true, false)
    ensures AssignUpdates(Moment(n, true, false), Odd(odd).updates) == Moment(n, true, true)
  {
    var a, b, us, vs := Moment(n, false, false), Moment(n, true, false), Late(late).updates, Odd(odd).updates;
    assert AssignUpdates(a, us) == AssignUpdates(SetPredicate(a, 0, true), us[1..]) == SetPredicate(a, 0, true);
    assert AssignUpdates(b, vs) == AssignUpdates(SetPredicate(b, 1, true), vs[1..]) == SetPredicate(b, 1, true);
  }

  lemma FirstIteration(hw: Hardware, late: nat, odd: nat, dp: Datapath)
    requires hw.m.program == Program(late, odd) && IntegerCore.RetiringStage(late) == 2 && hw.m.cp.numPredicates >= 2 && !dp.halted
    ensures
      var n := hw.m.cp.numPredicates;
      var pe := Iterate(hw.m, Pe(Moment(n, false, false), dp));
      pe.predicates == Moment(n, true, false) && !pe.dp.halted && pe.dp.retired == dp.retired + [Late(late)]
  {
    var n := hw.m.cp.numPredicates;
    var pe := Pe(Moment(n, false, false), dp);
    Moments(n, false, late, odd);
    Schedule(hw, late, odd, ViewOf(hw.m.cp, pe));
    hide AssignUpdates, Moment, Eligible, Program;
    assert Scheduled(hw.m, pe) == Some(Late(late));
  }

  lemma SecondIteration(hw: Hardware, late: nat, odd: nat, pe: Pe)
    requires hw.m.program == Program(late, odd) && hw.m.cp.numPredicates >= 2 && !pe.dp.halted
    requires pe.predicates == Moment(hw.m.cp.numPredicates, true, false)
    ensures Iterate(hw.m, pe).dp.retired == pe.dp.retired + [Odd(odd)]
  {
    Schedule(hw, late, odd, ViewOf(hw.m.cp, pe));
    hide AssignUpdates, Moment, Eligible, Program;
    assert Scheduled(hw.m, pe) == Some(Odd(odd));
  }

  /** The sequential element executes both instructions. */
  lemma SequentiallyBoth(hw: Hardware, late: nat, odd: nat, dp: Datapath)
    requires hw.m.program == Program(late, odd) && IntegerCore.RetiringStage(late) == 2 && hw.m.cp.numPredicates >= 2 && !dp.halted
    ensures
      IterateTimes(hw.m, Pe(seq(hw.m.cp.numPredicates, _ => false), dp), 2).dp.retired == dp.retired + [Late(late), Odd(odd)]
  {
    hide *;
    var n := hw.m.cp.numPredicates;
    var pe := Pe(Moment(n, false, false), dp);
    Moments(n, false, late, odd);
    FirstIteration(hw, late, odd, dp);
    SecondIteration(hw, late, odd, Iterate(hw.m, pe));
    TwoIterations(hw.m, pe);
    assert dp.retired + [Late(late)] + [Odd(odd)] == dp.retired + [Late(late), Odd(odd)];
  }

  lemma TwoIterations(m: Machine, pe: Pe)
    ensures IterateTimes(m, pe, 2) == Iterate(m, Iterate(m, pe))
  {
    hide Iterate;
    assert IterateTimes(m, Iterate(m, pe), 1) == IterateTimes(m, Iterate(m, Iterate(m, pe)), 0);
  }

  /** One more cycle once both instructions have been issued: nothing triggers. */
  lemma NothingMore(hw: Hardware, late: nat, odd: nat, u: IntegerCore.State, c: Cycle)
    requires hw.m.program == Program(late, odd) && hw.m.cp.numPredicates >= 2
    requires Empty(hw.m.cp.numPredicates, true, true, u)
    ensures
      var u' := IntegerCore.Step(hw, u, c);
      && Empty(hw.m.cp.numPredicates, true, true, u')
      && u'.dp.retired == u.dp.retired
  {
    var n := hw.m.cp.numPredicates;
    var v := StageView(hw, u.pu.predicates, u.dp, u.dx1.Icd(), IntegerCore.Stages(u));
    StageViewPredicates(hw, u.pu.predicates, u.dp, u.dx1.Icd(), IntegerCore.Stages(u));
    Schedule(hw, late, odd, v);
    Moments(n, IntegerCore.Result(hw.m.alu, u) != 0, late, odd);
    PlainCycle(hw, u, c, Bubble, Moment(n, true, true));
    hide StageView, Triggered, IntegerCore.Result, IntegerCore.Step, Masked, Moment, Program;
    assert u.dp.retired + [] == u.dp.retired;
  }

  lemma {:induction false} NothingEver(hw: Hardware, late: nat, odd: nat, u: IntegerCore.State, cs: seq<Cycle>)
    requires hw.m.program == Program(late, odd) && hw.m.cp.numPredicates >= 2
    requires Empty(hw.m.cp.numPredicates, true, true, u)
    ensures Storage(Run(hw, Integer(u), cs)).retired == u.dp.retired
    ensures Running(hw, Integer(u), cs)
    ensures Abs(hw, Run(hw, Integer(u), cs)).dp.retired == u.dp.retired
    decreases cs
  {
    hide Empty, Program, IntegerCore.Step, IntegerCore.Abs;
    EmptyStandsFor(hw, true, true, u);
    if cs != [] {
      NothingMore(hw, late, odd, u, cs[0]);
      NothingEver(hw, late, odd, IntegerCore.Step(hw, u, cs[0]), cs[1..]);
    }
  }

  // --- What the core stands for meanwhile ---

  lemma CompletionLogs(alu: Alu, dp: Datapath, e: Entry)
    ensures
      var dp' := Complete(alu, dp, e).0;
      && dp'.retired == dp.retired + (if e.slot.Busy? then [e.slot.i] else [])
      && (dp'.halted <==> dp.halted || e.slot.Op() == HALT)
  {
    assert dp.retired + [] == dp.retired;
    hide PushChannels, PopChannels, ReadOperands, Compute;
  }

  /** Without a predicate write in flight, everything in flight counts as executed. */
  lemma StandsFor(hw: Hardware, u: IntegerCore.State)
    requires !u.dx1.WritesPredicate() && !u.x2.WritesPredicate()
    ensures
      var pe := IntegerCore.Abs(hw, u);
      && pe.dp.retired == u.dp.retired + (if u.x2.Busy? then [u.x2.i] else []) + (if u.dx1.Busy? then [u.dx1.i] else [])
      && (pe.dp.halted <==> u.dp.halted || u.x2.Op() == HALT || u.dx1.Op() == HALT)
  {
    var alu := hw.m.alu;
    var oldest, youngest := Finished(u.x2, IntegerCore.LateResult(alu, u)), Pending(u.dx1);
    var dp' := Complete(alu, u.dp, oldest).0;
    assert IntegerCore.Entries(alu, u) == [oldest] + [youngest];
    assert oldest.slot == u.x2;
    hide Complete, Resolve, IntegerCore.LateResult;
    ResolveCons(alu, u.dp, oldest, [youngest], u.pu);
    ResolveOne(alu, dp', youngest, u.pu);
    CompletionLogs(alu, u.dp, oldest);
    CompletionLogs(alu, dp', youngest);
  }

  lemma EmptyStandsFor(hw: Hardware, late: bool, odd: bool, u: IntegerCore.State)
    requires hw.m.cp.numPredicates >= 2 && Empty(hw.m.cp.numPredicates, late, odd, u)
    ensures IntegerCore.Abs(hw, u).dp.retired == u.dp.retired && !IntegerCore.Abs(hw, u).dp.halted
  {
    hide IntegerCore.Abs, Moment, Idling;
    StandsFor(hw, u);
  }

  // --- The run, cycle by cycle ---

  /** The first cycle issues the first instruction. */
  lemma FirstIssued(hw: Hardware, late: nat, odd: nat, u: IntegerCore.State, c: Cycle)
    requires hw.m.program == Program(late, odd) && hw.m.cp.numPredicates >= 2
    requires Empty(hw.m.cp.numPredicates, false, false, u)
    ensures FirstInFlight(hw.m.cp.numPredicates, late, IntegerCore.Step(hw, u, c))
    ensures IntegerCore.Step(hw, u, c).dp.retired == u.dp.retired
  {
    var n := hw.m.cp.numPredicates;
    StageViewPredicates(hw, u.pu.predicates, u.dp, u.dx1.Icd(), IntegerCore.Stages(u));
    Schedule(hw, late, odd, StageView(hw, u.pu.predicates, u.dp, u.dx1.Icd(), IntegerCore.Stages(u)));
    Moments(n, IntegerCore.Result(hw.m.alu, u) != 0, late, odd);
    PlainCycle(hw, u, c, Busy(Late(late)), Moment(n, false, false));
    hide StageView, Triggered, IntegerCore.Result, IntegerCore.Step, IntegerCore.Stages, Masked, Moment, Program, FirstMatch;
    assert u.dp.retired + [] == u.dp.retired;
  }

  /** The second issues the other right behind it, unstalled. */
  lemma SecondIssued(hw: Hardware, late: nat, odd: nat, u: IntegerCore.State, c: Cycle)
    requires hw.m.program == Program(late, odd) && hw.m.cp.numPredicates >= 2
    requires IntegerCore.RetiringStage(late) == 2 && !IntegerCore.Implemented(odd)
    requires FirstInFlight(hw.m.cp.numPredicates, late, u)
    ensures InFlightTogether(hw.m.cp.numPredicates, late, odd, IntegerCore.Step(hw, u, c))
    ensures IntegerCore.Step(hw, u, c).dp.retired == u.dp.retired
  {
    var n := hw.m.cp.numPredicates;
    StageViewPredicates(hw, u.pu.predicates, u.dp, u.dx1.Icd(), IntegerCore.Stages(u));
    Schedule(hw, late, odd, StageView(hw, u.pu.predicates, u.dp, u.dx1.Icd(), IntegerCore.Stages(u)));
    Moments(n, IntegerCore.Result(hw.m.alu, u) != 0, late, odd);
    PlainCycle(hw, u, c, Busy(Odd(odd)), Moment(n, true, false));
    hide StageView, Triggered, IntegerCore.Result, IntegerCore.Step, IntegerCore.Stages, Masked, Moment, Program, FirstMatch;
    assert u.dp.retired + [] == u.dp.retired;
  }

  /** In the third the first retires from X2, and the second goes nowhere. */
  lemma SecondDropped(hw: Hardware, late: nat, odd: nat, u: IntegerCore.State, c: Cycle)
    requires hw.m.program == Program(late, odd) && hw.m.cp.numPredicates >= 2
    requires IntegerCore.RetiringStage(late) == 2 && !IntegerCore.Implemented(odd)
    requires InFlightTogether(hw.m.cp.numPredicates, late, odd, u)
    ensures
      var u' := IntegerCore.Step(hw, u, c);
      && Empty(hw.m.cp.numPredicates, true, true, u')
      && u'.dp.retired == u.dp.retired + [Late(late)]
  {
    var n := hw.m.cp.numPredicates;
    StageViewPredicates(hw, u.pu.predicates, u.dp, u.dx1.Icd(), IntegerCore.Stages(u));
    Schedule(hw, late, odd, StageView(hw, u.pu.predicates, u.dp, u.dx1.Icd(), IntegerCore.Stages(u)));
    Moments(n, IntegerCore.Result(hw.m.alu, u) != 0, late, odd);
    PlainCycle(hw, u, c, Bubble, Moment(n, true, true));
    hide StageView, Triggered, IntegerCore.Result, IntegerCore.Step, IntegerCore.Stages, Masked, Moment, Program;
  }

  /** No state on the way has halted, and after two cycles both instructions have been executed. */
  lemma Meanwhile(hw: Hardware, late: nat, odd: nat, u0: IntegerCore.State, u1: IntegerCore.State, u2: IntegerCore.State)
    requires hw.m.cp.numPredicates >= 2 && IntegerCore.RetiringStage(late) == 2 && !IntegerCore.Implemented(odd)
    requires Empty(hw.m.cp.numPredicates, false, false, u0) && FirstInFlight(hw.m.cp.numPredicates, late, u1)
    requires InFlightTogether(hw.m.cp.numPredicates, late, odd, u2)
    ensures !IntegerCore.Abs(hw, u0).dp.halted && !IntegerCore.Abs(hw, u1).dp.halted && !IntegerCore.Abs(hw, u2).dp.halted
    ensures IntegerCore.Abs(hw, u2).dp.retired == u2.dp.retired + [Late(late)] + [Odd(odd)]
  {
    hide IntegerCore.Abs, Moment, Idling;
    StandsFor(hw, u0);
    StandsFor(hw, u1);
    StandsFor(hw, u2);
  }

  /** A core just out of reset. */
  function Start(hw: Hardware, dp: Datapath, speculative: bool): Core {
    Reset(T_DX1_X2, dp, ResetUnit(hw.m.cp.numPredicates, speculative))
  }

  lemma StartIsEmpty(hw: Hardware, dp: Datapath, speculative: bool)
    requires hw.m.cp.numPredicates >= 2 && !dp.halted
    ensures
      var k := Start(hw, dp, speculative);
      k.Integer? && Empty(hw.m.cp.numPredicates, false, false, k.u) && k.u.dp == dp
  {
    Moments(hw.m.cp.numPredicates, false, 0, 0);
  }

  lemma RunUnfoldsThrice(hw: Hardware, u: IntegerCore.State, cs: seq<Cycle>)
    requires |cs| >= 3
    ensures
      var u1 := IntegerCore.Step(hw, u, cs[0]);
      var u2 := IntegerCore.Step(hw, u1, cs[1]);
      var u3 := IntegerCore.Step(hw, u2, cs[2]);
      && Run(hw, Integer(u), cs[..2]) == Integer(u2)
      && Run(hw, Integer(u), cs) == Run(hw, Integer(u3), cs[3..])
      && (Running(hw, Integer(u), cs) <==>
            && !IntegerCore.Abs(hw, u).dp.halted && !IntegerCore.Abs(hw, u1).dp.halted && !IntegerCore.Abs(hw, u2).dp.halted
            && Running(hw, Integer(u3), cs[3..]))
  {
    hide *;
    var k := Integer(u);
    AsCore(hw, u, cs[0]);
    var k1 := Step(hw, k, cs[0]);
    AsCore(hw, k1.u, cs[1]);
    var k2 := Step(hw, k1, cs[1]);
    AsCore(hw, k2.u, cs[2]);
    assert cs[1..][1..] == cs[2..] && cs[2..][1..] == cs[3..] && cs[1..][0] == cs[1] && cs[2..][0] == cs[2];
    RunUnfolds(hw, k, cs);
    RunUnfolds(hw, k1, cs[1..]);
    RunUnfolds(hw, k2, cs[2..]);
    assert cs[..2][0] == cs[0] && cs[..2][1..] == [cs[1]] && [cs[1]][0] == cs[1] && [cs[1]][1..] == [];
    RunUnfolds(hw, k, cs[..2]);
    RunUnfolds(hw, k1, [cs[1]]);
    RunOfNothing(hw, k2);
  }

  lemma AsCore(hw: Hardware, u: IntegerCore.State, c: Cycle)
    ensures Step(hw, Integer(u), c) == Integer(IntegerCore.Step(hw, u, c))
    ensures Abs(hw, Integer(u)) == IntegerCore.Abs(hw, u)
    ensures Storage(Integer(u)) == u.dp
  {
    hide IntegerCore.Step, IntegerCore.Abs;
  }

  /** The whole run of the program on the core: both instructions are executed, and one of them is forgotten. */
  lemma SecondIsForgotten(hw: Hardware, late: nat, odd: nat, dp: Datapath, speculative: bool, cs: seq<Cycle>)
    requires hw.m.program == Program(late, odd) && hw.m.cp.numPredicates >= 2 && !dp.halted
    requires IntegerCore.RetiringStage(late) == 2 && !IntegerCore.Implemented(odd)
    requires |cs| >= 3
    ensures
      var k := Start(hw, dp, speculative);
      && Running(hw, k, cs)
      && Storage(Run(hw, k, cs)).retired == dp.retired + [Late(late)]
      && Abs(hw, Run(hw, k, cs)).dp.retired == dp.retired + [Late(late)]
      && Abs(hw, Run(hw, k, cs[..2])).dp.retired == dp.retired + [Late(late)] + [Odd(odd)]
  {
    hide *;
    var k := Start(hw, dp, speculative);
    StartIsEmpty(hw, dp, speculative);
    var u1 := IntegerCore.Step(hw, k.u, cs[0]);
    var u2 := IntegerCore.Step(hw, u1, cs[1]);
    var u3 := IntegerCore.Step(hw, u2, cs[2]);
    FirstIssued(hw, late, odd, k.u, cs[0]);
    SecondIssued(hw, late, odd, u1, cs[1]);
    SecondDropped(hw, late, odd, u2, cs[2]);
    Meanwhile(hw, late, odd, k.u, u1, u2);
    NothingEver(hw, late, odd, u3, cs[3..]);
    RunUnfoldsThrice(hw, k.u, cs);
    AsCore(hw, u2, cs[2]);
  }

  /**
   * From reset, with either predicate unit, either status and any inputs: the core never retires the second
   * instruction of this program, however long it runs, while the sequential element executes both.
   */
  lemma SecondInstructionIsLost(hw: Hardware, late: nat, odd: nat, dp: Datapath, speculative: bool, cs: seq<Cycle>)
    requires hw.m.program == Program(late, odd) && hw.m.cp.numPredicates >= 2 && !dp.halted
    requires IntegerCore.RetiringStage(late) == 2 && !IntegerCore.Implemented(odd)
    requires |cs| >= 3
    ensures Running(hw, Start(hw, dp, speculative), cs)
    ensures Storage(Run(hw, Start(hw, dp, speculative), cs)).retired == dp.retired + [Late(late)]
    ensures
      IterateTimes(hw.m, Pe(seq(hw.m.cp.numPredicates, _ => false), dp), 2).dp.retired == dp.retired + [Late(late), Odd(odd)]
  {
    hide *;
    SequentiallyBoth(hw, late, odd, dp);
    SecondIsForgotten(hw, late, odd, dp, speculative, cs);
  }

  // --- Exactly which opcodes the core can be given ---

  predicate Over(program: seq<Instruction>, ops: set<nat>) {
    forall i | i in program :: i.op in ops
  }

  /** No opcode the tables do not know, or none that retires from X2. */
  predicate Lossless(ops: set<nat>) {
    (forall op | op in ops :: IntegerCore.Implemented(op)) || forall op | op in ops :: IntegerCore.RetiringStage(op) == 1
  }

  /** Every run of the core from reset is a run of the sequential element. */
  ghost predicate RunsRefine(hw: Hardware) {
    forall dp, speculative, cs | Fresh(hw.m.cp, dp) && Running(hw, Start(hw, dp, speculative), cs) ::
      RunRefinedBy(hw, Start(hw, dp, speculative), cs)
  }

  predicate RunRefinedBy(hw: Hardware, k: Core, cs: seq<Cycle>) {
    && Abs(hw, Run(hw, k, cs)) == RunSequentially(hw.m, Abs(hw, k), Choices(hw, k, cs))
    && AllAllowed(hw, Abs(hw, k), Choices(hw, k, cs))
  }

  /** Every run of the core from reset retires what the sequential element executes. */
  ghost predicate EverythingIsRetired(hw: Hardware) {
    forall dp, speculative, cs, n: nat |
      Fresh(hw.m.cp, dp) && Running(hw, Start(hw, dp, speculative), cs) && |cs| >= (n + 3) * 3 ::
      IterateTimes(hw.m, Abs(hw, Start(hw, dp, speculative)), n).dp.retired <= Storage(Run(hw, Start(hw, dp, speculative), cs)).retired
  }

  lemma OverLossless(program: seq<Instruction>, ops: set<nat>)
    requires Over(program, ops) && Lossless(ops)
    ensures IntegerCore.LosslessProgram(program)
  {
    hide IntegerCore.Implemented, IntegerCore.RetiringStage;
  }

  lemma LosslessRuns(hw: Hardware, ops: set<nat>)
    requires Sane(hw) && Over(hw.m.program, ops) && Lossless(ops)
    ensures RunsRefine(hw)
    ensures PredicatesOnly(hw.m.program) ==> EverythingIsRetired(hw)
  {
    hide Sane, Fresh, Reset, ResetUnit, Running, RunSequentially, Choices, Run, Abs, Invariant, AllAllowed, IterateTimes, Storage,
         Lossless, Over, PredicatesOnly, IntegerCore.LosslessProgram;
    OverLossless(hw.m.program, ops);
    forall dp, speculative, cs | Fresh(hw.m.cp, dp) && Running(hw, Start(hw, dp, speculative), cs)
      ensures RunRefinedBy(hw, Start(hw, dp, speculative), cs)
    {
      ResetIsSound(hw, T_DX1_X2, dp, speculative);
      RunRefines(hw, Start(hw, dp, speculative), cs);
    }
    if PredicatesOnly(hw.m.program) {
      forall dp, speculative, cs, n: nat |
        Fresh(hw.m.cp, dp) && Running(hw, Start(hw, dp, speculative), cs) && |cs| >= (n + 3) * 3
        ensures IterateTimes(hw.m, Abs(hw, Start(hw, dp, speculative)), n).dp.retired
             <= Storage(Run(hw, Start(hw, dp, speculative), cs)).retired
      {
        ResetIsSound(hw, T_DX1_X2, dp, speculative);
        TwoStagesBehind(hw, dp, speculative);
        EverythingRetires(hw, Start(hw, dp, speculative), cs, n);
      }
    }
  }

  lemma TwoStagesBehind(hw: Hardware, dp: Datapath, speculative: bool)
    ensures Latency(Start(hw, dp, speculative)) == 2
  {
  }

  /** A core with the two instructions as its program. */
  function Witness(late: nat, odd: nat): Hardware {
    Hardware(Machine(CoreParameters(2, 2, 0, 0, 0, 2, 0, 0, 0, 0), Program(late, odd), (op: nat, a: Word, b: Word, c: Word) => 0),
             FullInformation)
  }

  lemma WitnessIsSane(late: nat, odd: nat, ops: set<nat>)
    requires late in ops && odd in ops
    ensures
      var hw := Witness(late, odd);
      Sane(hw) && Over(hw.m.program, ops) && PredicatesOnly(hw.m.program) && hw.m.program == Program(late, odd) && hw.m.cp.numPredicates == 2
    ensures Fresh(Witness(late, odd).m.cp, Datapath([], [], [], [], false, []))
  {
  }

  lemma SequentialLater(m: Machine, pe: Pe, a: seq<Choice>, b: seq<Choice>)
    ensures RunSequentially(m, pe, a).dp.retired <= RunSequentially(m, pe, a + b).dp.retired
  {
    SequentialLog(m, pe, a);
    SequentialLog(m, pe, a + b);
    FiredAppends(a, b);
    hide RunSequentially, Fired;
    assert pe.dp.retired + (Fired(a) + Fired(b)) == (pe.dp.retired + Fired(a)) + Fired(b);
  }

  lemma {:induction false} FiredAppends(a: seq<Choice>, b: seq<Choice>)
    ensures Fired(a + b) == Fired(a) + Fired(b)
    decreases a
  {
    if a == [] {
      assert a + b == b;
    } else {
      assert (a + b)[1..] == a[1..] + b;
      FiredAppends(a[1..], b);
    }
  }

  lemma {:induction false} ChoicesAppend(hw: Hardware, k: Core, a: seq<Cycle>, b: seq<Cycle>)
    ensures Choices(hw, k, a + b) == Choices(hw, k, a) + Choices(hw, Run(hw, k, a), b)
    decreases a
  {
    hide ChoiceOf, Step;
    if a == [] {
      assert a + b == b;
    } else {
      assert (a + b)[1..] == a[1..] + b;
      ChoicesAppend(hw, Step(hw, k, a[0]), a[1..], b);
    }
  }

  /** Forgetting an executed instruction is no step of the sequential element. */
  lemma ForgettingIsNoStep(hw: Hardware, k: Core, a: seq<Cycle>, b: seq<Cycle>)
    requires RunRefinedBy(hw, k, a) && RunRefinedBy(hw, k, a + b)
    ensures Abs(hw, Run(hw, k, a)).dp.retired <= Abs(hw, Run(hw, k, a + b)).dp.retired
  {
    hide Abs, Run, Choices, RunSequentially, AllAllowed;
    ChoicesAppend(hw, k, a, b);
    SequentialLater(hw.m, Abs(hw, k), Choices(hw, k, a), Choices(hw, Run(hw, k, a), b));
  }

  lemma RefinedAt(hw: Hardware, dp: Datapath, speculative: bool, cs: seq<Cycle>)
    requires RunsRefine(hw) && Fresh(hw.m.cp, dp) && Running(hw, Start(hw, dp, speculative), cs)
    ensures RunRefinedBy(hw, Start(hw, dp, speculative), cs)
  {
    hide Fresh, Running, Start, RunRefinedBy;
  }

  lemma RetiredAt(hw: Hardware, dp: Datapath, speculative: bool, cs: seq<Cycle>, n: nat)
    requires EverythingIsRetired(hw) && Fresh(hw.m.cp, dp) && Running(hw, Start(hw, dp, speculative), cs) && |cs| >= (n + 3) * 3
    ensures IterateTimes(hw.m, Abs(hw, Start(hw, dp, speculative)), n).dp.retired <= Storage(Run(hw, Start(hw, dp, speculative), cs)).retired
  {
    hide Fresh, Running, Start, IterateTimes, Abs, Storage, Run;
  }

  lemma LossyRuns(late: nat, odd: nat)
    requires IntegerCore.RetiringStage(late) == 2 && !IntegerCore.Implemented(odd)
    ensures !RunsRefine(Witness(late, odd)) && !EverythingIsRetired(Witness(late, odd))
  {
    hide *;
    var hw, dp := Witness(late, odd), Datapath([], [], [], [], false, []);
    var k := Start(hw, dp, false);
    var cs := seq(15, _ => Cycle([], [], false));
    WitnessIsSane(late, odd, {late, odd});
    SecondIsForgotten(hw, late, odd, dp, false, cs);
    assert cs == cs[..2] + cs[2..];
    if RunsRefine(hw) {
      RunInPieces(hw, k, cs[..2], cs[2..]);
      RefinedAt(hw, dp, false, cs[..2]);
      RefinedAt(hw, dp, false, cs);
      ForgettingIsNoStep(hw, k, cs[..2], cs[2..]);
    }
    if EverythingIsRetired(hw) {
      SequentiallyBoth(hw, late, odd, dp);
      StartStandsFor(hw, dp, false);
      RetiredAt(hw, dp, false, cs, 2);
    }
  }

  lemma StartStandsFor(hw: Hardware, dp: Datapath, speculative: bool)
    ensures Abs(hw, Start(hw, dp, speculative)) == Pe(seq(hw.m.cp.numPredicates, _ => false), dp)
  {
    var k := Start(hw, dp, speculative);
    IdleResolves(hw.m.alu, dp, IntegerCore.Entries(hw.m.alu, k.u), k.u.pu);
  }

  /**
   * The integer core runs every well-formed program over a set of opcodes as the sequential element does, and retires
   * everything those that test predicates only execute, exactly when the set has no opcode unknown to the tables or no
   * opcode that retires from X2.
   */
  lemma RunTheoremIffLossless(ops: set<nat>)
    ensures (forall hw | Sane(hw) && Over(hw.m.program, ops) :: RunsRefine(hw)) <==> Lossless(ops)
    ensures (forall hw | Sane(hw) && Over(hw.m.program, ops) && PredicatesOnly(hw.m.program) :: EverythingIsRetired(hw)) <==> Lossless(ops)
  {
    hide Sane, Over, PredicatesOnly, RunsRefine, EverythingIsRetired, IntegerCore.Implemented, IntegerCore.RetiringStage, Witness;
    if Lossless(ops) {
      forall hw | Sane(hw) && Over(hw.m.program, ops)
        ensures RunsRefine(hw)
        ensures PredicatesOnly(hw.m.program) ==> EverythingIsRetired(hw)
      {
        LosslessRuns(hw, ops);
      }
    } else {
      var odd :| odd in ops && !IntegerCore.Implemented(odd);
      var late :| late in ops && IntegerCore.RetiringStage(late) != 1;
      OneOrTwo(late);
      WitnessIsSane(late, odd, ops);
      LossyRuns(late, odd);
    }
  }

  lemma OneOrTwo(op: nat)
    ensures IntegerCore.RetiringStage(op) == 1 || IntegerCore.RetiringStage(op) == 2
  {
  }
}

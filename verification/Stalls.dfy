/**
 * No core waits without a reason. The trigger stage's choice is issued in every cycle in which nothing forbids it, and
 * each thing that forbids it is stated by what would go wrong if it were issued.
 */
module Stalls {
  import opened Prelude
  import opened Instructions
  import opened Sequential
  import opened PredicateUnits
  import opened InFlight
  import opened Refinement
  import opened Runs
  import TDX
  import TDX1X2
  import IntegerCore

  // --- Control hazards of the plain unit ---

  /** The predicates once every write in flight has landed, with these values. */
  function Landed(p: seq<bool>, slots: seq<Slot>, values: seq<bool>): (r: seq<bool>)
    requires |values| == |slots|
    ensures |r| == |p|
    decreases slots
  {
    if slots == [] then p
    else
      var next := if slots[0].WritesPredicate() then SetPredicate(p, slots[0].Dest().index, values[0]) else p;
      Landed(next, slots[1..], values[1..])
  }

  /** What the trigger stage sees may not be what the predicates will be. */
  ghost predicate Stale(p: seq<bool>, slots: seq<Slot>) {
    exists values | |values| == |slots| :: Landed(p, slots, values) != p
  }

  predicate WriteInFlight(slots: seq<Slot>) {
    exists j | 0 <= j < |slots| :: slots[j].WritesPredicate()
  }

  predicate PredicatesExist(n: nat, slots: seq<Slot>) {
    forall j | 0 <= j < |slots| && slots[j].WritesPredicate() :: slots[j].Dest().index < n
  }

  lemma {:induction false} NothingLands(p: seq<bool>, slots: seq<Slot>, values: seq<bool>)
    requires |values| == |slots| && !WriteInFlight(slots)
    ensures Landed(p, slots, values) == p
    decreases slots
  {
    if slots != [] {
      assert !slots[0].WritesPredicate();
      NothingLands(p, slots[1..], values[1..]);
    }
  }

  lemma {:induction false} SomethingLands(p: seq<bool>, slots: seq<Slot>, seen: seq<bool>) returns (values: seq<bool>)
    requires WriteInFlight(slots) && PredicatesExist(|p|, slots) && |seen| == |p|
    ensures |values| == |slots| && Landed(p, slots, values) != seen
    decreases slots
  {
    var rest := slots[1..];
    if WriteInFlight(rest) {
      var next := if slots[0].WritesPredicate() then SetPredicate(p, slots[0].Dest().index, false) else p;
      var later := SomethingLands(next, rest, seen);
      values := [false] + later;
      assert values[1..] == later;
    } else {
      assert slots[0].WritesPredicate();
      var k := slots[0].Dest().index;
      var later := seq(|rest|, _ => false);
      values := [!seen[k]] + later;
      assert values[1..] == later;
      NothingLands(SetPredicate(p, k, !seen[k]), rest, later);
    }
  }

  /** The plain unit's bubble is needed: predicates can be stale exactly while a write is in flight. */
  lemma StaleIffWriteInFlight(p: seq<bool>, slots: seq<Slot>)
    requires PredicatesExist(|p|, slots)
    ensures Stale(p, slots) <==> WriteInFlight(slots)
  {
    if WriteInFlight(slots) {
      var values := SomethingLands(p, slots, p);
    } else {
      forall values | |values| == |slots| ensures Landed(p, slots, values) == p { NothingLands(p, slots, values); }
    }
  }

  // --- Speculation ---

  /**
   * Letting `t` in would put an instruction that cannot be squashed behind a predicate write still in flight once the
   * oldest instruction has left. A store is kept out even when the last such write is leaving.
   */
  predicate Unsquashable(oldest: Slot, rest: seq<Slot>, t: Slot) {
    || (t.Op() == SSW && WriteInFlight([oldest] + rest))
    || (WriteInFlight(rest) && !Harmless(t))
  }

  /** The speculative unit overrides only when it must: exactly to keep out what squashing could not undo. */
  lemma OverrideIffUnsquashable(pu: PredicateUnit, oldest: Slot, rest: seq<Slot>, value: bool, t: Slot)
    requires pu.Speculative? && Consistent(pu, [oldest] + rest)
    requires !(oldest.WritesPredicate() && pu.savedPrediction != value)
    ensures Override(pu, oldest.Dest(), value, t) <==> Unsquashable(oldest, rest, t)
    ensures WriteInFlight(rest) && !Harmless(t) <==> !Guarded(WriteInFlight(rest + [t]), rest + [t])
  {
    NobodyWritesBehind(pu.speculating, oldest, rest);
    assert WriteInFlight([oldest] + rest) <==> pu.speculating;
    PredicateUnits.YoungerAreHarmless(pu.speculating, oldest, rest);
    var after := rest + [t];
    if WriteInFlight(rest) && !Harmless(t) {
      var j :| 0 <= j < |rest| && rest[j].WritesPredicate();
      assert after[j].WritesPredicate() && after[|rest|] == t;
    } else {
      forall j, k | 0 <= j < k < |after| && after[j].WritesPredicate() ensures Harmless(after[k]) {
        assert after[j] == rest[j] && after[k] == if k < |rest| then rest[k] else t;
      }
    }
  }

  /**
   * One speculative section runs straight into the next: in the cycle of a hit, a predicate write is let in and opens a
   * section with its own prediction, and a dequeue is let in and takes effect.
   */
  lemma HitOpensNextSection(pu: PredicateUnit, oldest: Slot, rest: seq<Slot>, t: Slot, prediction: bool)
    requires pu.Speculative? && Consistent(pu, [oldest] + rest) && oldest.WritesPredicate() && t.Op() != SSW
    ensures
      var after := Clock(pu, oldest.Dest(), pu.savedPrediction, t, prediction);
      var updated := MaskUpdates(pu.predicates, t.Updates());
      && Consistent(after, rest + [t])
      && (after.speculating <==> t.WritesPredicate())
      && (!t.WritesPredicate() ==> after.predicates == updated)
      && (t.WritesPredicate() && t.Dest().index < |pu.predicates| ==>
            && after.savedPrediction == prediction
            && after.predicates == updated[t.Dest().index := prediction]
            && after.savedPredicates == updated[t.Dest().index := !prediction])
  {
    var d, value := oldest.Dest(), pu.savedPrediction;
    assert ([oldest] + rest)[0].WritesPredicate();
    OverrideIffUnsquashable(pu, oldest, rest, value, t);
    NobodyWritesBehind(pu.speculating, oldest, rest);
    ClockKeepsConsistency(pu, oldest, rest, value, t, prediction);
    ClockDecomposes(pu, d, value, t, prediction);
    MaskNothing(pu.predicates);
  }

  lemma MaskNothing(p: seq<bool>)
    ensures MaskUpdates(p, []) == p
  {
  }

  // --- Any core ---

  /** What forbids issuing: a predicate that may be stale, a miss, or an instruction that could not be squashed. */
  ghost predicate MustWait(pu: PredicateUnit, oldest: Slot, rest: seq<Slot>, value: bool, t: Slot) {
    match pu
    case Plain(p) => Stale(p, [oldest] + rest)
    case Speculative(_, _, saved, _) => (oldest.WritesPredicate() && saved != value) || Unsquashable(oldest, rest, t)
  }

  /** The bubble of the plain unit, the miss and the override together are what has to wait. */
  lemma WaitsIff(pu: PredicateUnit, oldest: Slot, rest: seq<Slot>, value: bool, t: Slot)
    requires Consistent(pu, [oldest] + rest) && PredicatesExist(|pu.predicates|, [oldest] + rest)
    ensures MustWait(pu, oldest, rest, value, t) <==>
      || (pu.Plain? && WriteInFlight([oldest] + rest))
      || Miss(pu, oldest.Dest(), value) || Override(pu, oldest.Dest(), value, t)
  {
    StaleIffWriteInFlight(pu.predicates, [oldest] + rest);
    if pu.Speculative? {
      assert ([oldest] + rest)[0] == oldest;
      if !Miss(pu, oldest.Dest(), value) { OverrideIffUnsquashable(pu, oldest, rest, value, t); }
    }
  }

  // --- Data hazards of the four-stage core ---

  /** With some storage and some result, what `t` reads is not the same before and after `d` writes back. */
  ghost predicate DependsOn(cp: CoreParameters, t: Instruction, d: Instruction) {
    exists dp, r | Shaped(cp, dp) :: ReadOperands(WriteBack(dp, d, r), t) != ReadOperands(dp, t)
  }

  function ClearedStorage(cp: CoreParameters): (dp: Datapath)
    ensures Shaped(cp, dp)
  {
    Datapath(seq(cp.numRegisters, _ => 0), [], seq(cp.numInputChannels, _ => []), seq(cp.numOutputChannels, _ => []), false, [])
  }

  /** The bubble is both needed and enough: the detector fires exactly if the second instruction depends on the first. */
  lemma RawHazardIffDependsOn(cp: CoreParameters, t: Instruction, d: Instruction)
    requires WellFormed(cp, t) && WellFormed(cp, d)
    ensures TDX1X2.RawHazard(Busy(t), Busy(d)) <==> DependsOn(cp, t, d)
  {
    if TDX1X2.RawHazard(Busy(t), Busy(d)) {
      var dp := ClearedStorage(cp);
      assert ReadOperands(WriteBack(dp, d, 1), t) != ReadOperands(dp, t);
    } else {
      forall dp, r | Shaped(cp, dp) ensures ReadOperands(WriteBack(dp, d, r), t) == ReadOperands(dp, t) {
        StillReads(dp, d, r, t, t.sourceA);
        StillReads(dp, d, r, t, t.sourceB);
        StillReads(dp, d, r, t, t.sourceC);
      }
    }
  }

  lemma StillReads(dp: Datapath, d: Instruction, r: Word, t: Instruction, src: Source)
    requires d.destination.RegisterDestination? ==> src != RegisterSource(d.destination.index)
    ensures Operand(WriteBack(dp, d, r), t, src) == Operand(dp, t, src)
  {
  }

  // --- Collisions of the integer core ---

  /** An instruction entering DX1 retires as many cycles later as its retiring stage is beyond the first. */
  function RetiresAt(entered: nat, op: nat): nat
    requires IntegerCore.RetiringStage(op) >= 1
  {
    entered + IntegerCore.RetiringStage(op) - 1
  }

  /** The collision stall is needed: it keeps out exactly what would retire in the same cycle as the instruction before. */
  lemma CollisionIffSameCycle(op: nat, before: nat, n: nat)
    requires IntegerCore.Implemented(op) || IntegerCore.RetiringStage(before) == 1
    ensures IntegerCore.Collision(op, IntegerCore.RetiringStage(before)) <==> RetiresAt(n, before) == RetiresAt(n + 1, op)
  {
  }

  // --- The three cores ---

  /** What the trigger stage chooses, before anything can hold it back. */
  function Wanted(hw: Hardware, k: Core): Slot {
    match k
    case ThreeStage(s) => Triggered(hw, StageView(hw, s.pu.predicates, s.dp, s.d.Icd(), TDX.Stages(s)))
    case FourStage(t) => Triggered(hw, StageView(hw, t.pu.predicates, t.dp, t.d.Icd(), TDX1X2.Stages(t)))
    case Integer(u) => Triggered(hw, StageView(hw, u.pu.predicates, u.dp, u.dx1.Icd(), IntegerCore.Stages(u)))
  }

  /** The integer core's pipeline from the instruction that retires now; with X2 empty that can be the one in DX1. */
  function FromRetiring(u: IntegerCore.State): (r: seq<Slot>)
    ensures r != []
  {
    if IntegerCore.Early(u) then [u.dx1] else [u.x2, u.dx1]
  }

  ghost predicate Waits(hw: Hardware, k: Core) {
    var w := Wanted(hw, k);
    match k
    case ThreeStage(s) => MustWait(s.pu, s.x, [s.d], TDX.Result(hw.m.alu, s) != 0, w)
    case FourStage(t) =>
      || MustWait(t.pu, t.x2, [t.x1, t.d], TDX1X2.Result(t) != 0, w)
      || (w.Busy? && t.d.Busy? && DependsOn(hw.m.cp, w.i, t.d.i))
    case Integer(u) =>
      var slots := FromRetiring(u);
      || MustWait(u.pu, slots[0], slots[1..], IntegerCore.Result(hw.m.alu, u) != 0, w)
      || (w.Busy? && RetiresAt(0, u.dx1.Op()) == RetiresAt(1, w.i.op))
  }

  /** Every core issues what its trigger stage chooses unless that has to wait. */
  lemma IssuesUnlessItWaits(hw: Hardware, k: Core)
    requires Invariant(hw, k) && Wide(Unit(k), hw.m.cp.numPredicates)
    ensures Issued(hw, k) == if Waits(hw, k) then Bubble else Wanted(hw, k)
  {
    match k {
      case ThreeStage(s) => ThreeStageIssues(hw, s);
      case FourStage(t) => FourStageIssues(hw, t);
      case Integer(u) => IntegerIssues(hw, u);
    }
  }

  lemma SlotsFromProgram(hw: Hardware, dp: Datapath, es: seq<Entry>, pu: PredicateUnit)
    requires Sound(hw, dp, es, pu) && Wide(pu, hw.m.cp.numPredicates)
    ensures Consistent(pu, Slots(es)) && PredicatesExist(|pu.predicates|, Slots(es))
  {
    forall j | 0 <= j < |es| && es[j].slot.WritesPredicate() ensures es[j].slot.Dest().index < |pu.predicates| {
      assert FromProgram(hw, es[j].slot);
      assert WellFormed(hw.m.cp, es[j].slot.i);
    }
  }

  lemma ChosenIsWellFormed(hw: Hardware, t: Slot)
    requires Sane(hw) && FromProgram(hw, t)
    ensures t.Busy? ==> WellFormed(hw.m.cp, t.i)
  {
    hide WellFormed;
  }

  lemma BubblesAreLetThrough(pu: PredicateUnit, d: Destination, value: bool)
    ensures !Override(pu, d, value, Bubble)
  {
  }

  lemma ThreeStageIssues(hw: Hardware, s: TDX.State)
    requires TDX.Invariant(hw, s) && Wide(s.pu, hw.m.cp.numPredicates)
    ensures TDX.Issued(hw, s) == if Waits(hw, ThreeStage(s)) then Bubble else Wanted(hw, ThreeStage(s))
  {
    var es := TDX.Entries(hw.m.alu, s);
    SlotsFromProgram(hw, s.dp, es, s.pu);
    assert Slots(es) == [s.x] + [s.d];
    BubblesAreLetThrough(s.pu, s.x.Dest(), TDX.Result(hw.m.alu, s) != 0);
    WriteOfTwo(s.x, s.d);
    hide Sound, Triggered, StageView, TDX.Stages, TDX.Result, MustWait, Override, Miss, Consistent, PredicatesExist, WriteInFlight, TDX.Entries;
    WaitsIff(s.pu, s.x, [s.d], TDX.Result(hw.m.alu, s) != 0, Wanted(hw, ThreeStage(s)));
  }

  lemma WriteOfTwo(a: Slot, b: Slot)
    ensures WriteInFlight([a] + [b]) <==> a.WritesPredicate() || b.WritesPredicate()
  {
    var all := [a] + [b];
    assert all[0] == a && all[1] == b;
  }

  lemma WriteOfThree(a: Slot, b: Slot, c: Slot)
    ensures WriteInFlight([a] + [b, c]) <==> a.WritesPredicate() || b.WritesPredicate() || c.WritesPredicate()
  {
    var all := [a] + [b, c];
    assert all[0] == a && all[1] == b && all[2] == c;
  }

  /** The pipeline register contents behind the result, and the hazard in terms of what is read. */
  lemma FourStageSlots(hw: Hardware, t: TDX1X2.State)
    requires TDX1X2.Invariant(hw, t) && Wide(t.pu, hw.m.cp.numPredicates)
    ensures
      var w, slots := Wanted(hw, FourStage(t)), [t.x2] + [t.x1, t.d];
      && Consistent(t.pu, slots) && PredicatesExist(|t.pu.predicates|, slots)
      && (WriteInFlight(slots) <==> t.x2.WritesPredicate() || t.x1.WritesPredicate() || t.d.WritesPredicate())
      && (TDX1X2.RawHazard(w, t.d) <==> w.Busy? && t.d.Busy? && DependsOn(hw.m.cp, w.i, t.d.i))
  {
    var es, w := TDX1X2.Entries(t), Wanted(hw, FourStage(t));
    SlotsFromProgram(hw, t.dp, es, t.pu);
    assert Slots(es) == [t.x2] + [t.x1, t.d];
    assert es[2].slot == t.d && FromProgram(hw, es[2].slot);
    WriteOfThree(t.x2, t.x1, t.d);
    ChosenIsWellFormed(hw, t.d);
    ChosenIsWellFormed(hw, w);
    hide Sound, Triggered, StageView, TDX1X2.Stages, TDX1X2.Result, Consistent, PredicatesExist, WriteInFlight, TDX1X2.Entries,
         WellFormed, DependsOn;
    if w.Busy? && t.d.Busy? { RawHazardIffDependsOn(hw.m.cp, w.i, t.d.i); }
  }

  lemma FourStageUnfolds(hw: Hardware, t: TDX1X2.State)
    ensures
      var w, d, value := Wanted(hw, FourStage(t)), t.x2.Dest(), TDX1X2.Result(t) != 0;
      var control := t.pu.Plain? && (t.d.WritesPredicate() || t.x1.WritesPredicate() || t.x2.WritesPredicate());
      var offered := if control || TDX1X2.RawHazard(w, t.d) then Bubble else w;
      && TDX1X2.Issued(hw, t) == (if Miss(t.pu, d, value) || Override(t.pu, d, value, offered) then Bubble else offered)
      && (Waits(hw, FourStage(t)) <==>
            MustWait(t.pu, t.x2, [t.x1, t.d], value, w) || (w.Busy? && t.d.Busy? && DependsOn(hw.m.cp, w.i, t.d.i)))
  {
    hide Triggered, StageView, TDX1X2.Stages, TDX1X2.Result, MustWait, Override, Miss, TDX1X2.RawHazard, DependsOn;
  }

  lemma FourStageIssues(hw: Hardware, t: TDX1X2.State)
    requires TDX1X2.Invariant(hw, t) && Wide(t.pu, hw.m.cp.numPredicates)
    ensures TDX1X2.Issued(hw, t) == if Waits(hw, FourStage(t)) then Bubble else Wanted(hw, FourStage(t))
  {
    hide *;
    var w, value := Wanted(hw, FourStage(t)), TDX1X2.Result(t) != 0;
    FourStageSlots(hw, t);
    FourStageUnfolds(hw, t);
    BubblesAreLetThrough(t.pu, t.x2.Dest(), value);
    WaitsIff(t.pu, t.x2, [t.x1, t.d], value, w);
  }

  lemma IntegerSlots(hw: Hardware, u: IntegerCore.State)
    requires IntegerCore.Invariant(hw, u) && Wide(u.pu, hw.m.cp.numPredicates)
    ensures
      var slots := FromRetiring(u);
      && slots[0] == IntegerCore.Retiring(u)
      && Consistent(u.pu, slots) && PredicatesExist(|u.pu.predicates|, slots)
      && (WriteInFlight(slots) <==> u.dx1.WritesPredicate() || u.x2.WritesPredicate())
  {
    var es := IntegerCore.Entries(hw.m.alu, u);
    SlotsFromProgram(hw, u.dp, es, u.pu);
    assert Slots(es) == [u.x2] + [u.dx1];
    WriteOfTwo(u.x2, u.dx1);
    if IntegerCore.Early(u) {
      assert ([u.x2] + [u.dx1])[1] == u.dx1;
      assert WriteInFlight([u.dx1]) ==> [u.dx1][0].WritesPredicate();
      assert u.dx1.WritesPredicate() ==> [u.dx1][0].WritesPredicate();
    } else {
      assert [u.x2, u.dx1] == [u.x2] + [u.dx1];
    }
  }

  lemma SameCycle(hw: Hardware, u: IntegerCore.State, w: Slot)
    requires IntegerCore.Invariant(hw, u) && FromProgram(hw, w)
    ensures w.Busy? ==>
      (IntegerCore.Collision(w.Op(), IntegerCore.RetiringStage(u.dx1.Op())) <==> RetiresAt(0, u.dx1.Op()) == RetiresAt(1, w.i.op))
  {
    var es := IntegerCore.Entries(hw.m.alu, u);
    assert es[1].slot == u.dx1 && FromProgram(hw, es[1].slot);
    if w.Busy? {
      CollisionIffSameCycle(w.i.op, u.dx1.Op(), 0);
    }
  }

  lemma IntegerUnfolds(hw: Hardware, u: IntegerCore.State)
    ensures
      var w, d, value := Wanted(hw, Integer(u)), IntegerCore.Retiring(u).Dest(), IntegerCore.Result(hw.m.alu, u) != 0;
      var slots := FromRetiring(u);
      var control := u.pu.Plain? && (u.dx1.WritesPredicate() || u.x2.WritesPredicate());
      var offered := if control || IntegerCore.Collision(w.Op(), IntegerCore.RetiringStage(u.dx1.Op())) then Bubble else w;
      && IntegerCore.Issued(hw, u) == (if Miss(u.pu, d, value) || Override(u.pu, d, value, offered) then Bubble else offered)
      && (Waits(hw, Integer(u)) <==>
            || MustWait(u.pu, slots[0], slots[1..], value, w)
            || (w.Busy? && RetiresAt(0, u.dx1.Op()) == RetiresAt(1, w.i.op)))
  {
    hide Triggered, StageView, IntegerCore.Stages, IntegerCore.Result, MustWait, Override, Miss, IntegerCore.Retiring, FromRetiring,
         IntegerCore.Collision;
  }

  lemma IntegerIssues(hw: Hardware, u: IntegerCore.State)
    requires IntegerCore.Invariant(hw, u) && Wide(u.pu, hw.m.cp.numPredicates)
    ensures IntegerCore.Issued(hw, u) == if Waits(hw, Integer(u)) then Bubble else Wanted(hw, Integer(u))
  {
    var w, slots, value := Wanted(hw, Integer(u)), FromRetiring(u), IntegerCore.Result(hw.m.alu, u) != 0;
    WantedIsFromProgram(hw, u);
    hide *;
    IntegerSlots(hw, u);
    IntegerUnfolds(hw, u);
    BubblesAreLetThrough(u.pu, slots[0].Dest(), value);
    SameCycle(hw, u, w);
    assert [slots[0]] + slots[1..] == slots;
    WaitsIff(u.pu, slots[0], slots[1..], value, w);
  }

  lemma WantedIsFromProgram(hw: Hardware, u: IntegerCore.State)
    ensures FromProgram(hw, Wanted(hw, Integer(u)))
  {
    hide StageView, IntegerCore.Stages;
  }

  lemma {:induction false} StaysWide(hw: Hardware, k: Core, cs: seq<Cycle>)
    requires Wide(Unit(k), hw.m.cp.numPredicates)
    ensures Wide(Unit(Run(hw, k, cs)), hw.m.cp.numPredicates)
    decreases cs
  {
    hide Wide;
    if cs != [] {
      StepIsWide(hw, k, cs[0]);
      hide Step;
      StaysWide(hw, Step(hw, k, cs[0]), cs[1..]);
    }
  }

  lemma StepIsWide(hw: Hardware, k: Core, c: Cycle)
    requires Wide(Unit(k), hw.m.cp.numPredicates)
    ensures Wide(Unit(Step(hw, k, c)), hw.m.cp.numPredicates)
  {
    hide Wide, Clock, TDX.Offered, TDX1X2.Offered, IntegerCore.Offered, NextStorage, TDX.Issued, TDX1X2.Issued, IntegerCore.Issued,
         TDX.Result, TDX1X2.Result, IntegerCore.Result, Miss;
    var n := hw.m.cp.numPredicates;
    match k {
      case ThreeStage(s) =>
        WidthIsKept(s.pu, s.x.Dest(), TDX.Result(hw.m.alu, s) != 0, TDX.Offered(hw, s), c.prediction, n);
      case FourStage(t) =>
        WidthIsKept(t.pu, t.x2.Dest(), TDX1X2.Result(t) != 0, TDX1X2.Offered(hw, t), c.prediction, n);
      case Integer(u) =>
        WidthIsKept(u.pu, IntegerCore.Retiring(u).Dest(), IntegerCore.Result(hw.m.alu, u) != 0, IntegerCore.Offered(hw, u), c.prediction, n);
    }
  }

  /** In every run from reset, a core issues what its trigger stage chooses unless that has to wait. */
  lemma NoCoreWaitsInVain(hw: Hardware, a: Architecture, dp: Datapath, speculative: bool, cs: seq<Cycle>)
    requires Sane(hw) && Supported(a, hw.m.program) && Fresh(hw.m.cp, dp)
    requires Running(hw, Reset(a, dp, ResetUnit(hw.m.cp.numPredicates, speculative)), cs)
    ensures
      var k := Run(hw, Reset(a, dp, ResetUnit(hw.m.cp.numPredicates, speculative)), cs);
      Issued(hw, k) == if Waits(hw, k) then Bubble else Wanted(hw, k)
  {
    var start := Reset(a, dp, ResetUnit(hw.m.cp.numPredicates, speculative));
    assert Wide(Unit(start), hw.m.cp.numPredicates);
    ResetIsSound(hw, a, dp, speculative);
    hide *;
    RunRefines(hw, start, cs);
    StaysWide(hw, start, cs);
    IssuesUnlessItWaits(hw, Run(hw, start, cs));
  }
}

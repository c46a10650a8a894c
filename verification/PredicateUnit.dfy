/**
 * Predicate state of a pipelined core: the plain unit, and the speculative unit that predicts the value of
 * an in-flight predicate write and keeps the other outcome to fall back on.
 */
module PredicateUnits {
  import opened Prelude
  import opened Instructions
  import opened Sequential

  /** A pipeline register: an instruction in flight, or the all-zero word of a bubble. */
  datatype Slot = Bubble | Busy(i: Instruction) {
    function Op(): nat { if Busy? then i.op else 0 }
    function Dest(): Destination { if Busy? then i.destination else NullDestination }
    function Icd(): seq<nat> { if Busy? then i.dequeues else [] }
    function Oci(): seq<nat> { if Busy? then i.trigger.outputChannels else [] }
    function Updates(): seq<PredicateUpdate> { if Busy? then i.updates else [] }
    predicate WritesPredicate() { Dest().PredicateDestination? }
  }

  datatype PredicateUnit =
    | Plain(predicates: seq<bool>)
    | Speculative(predicates: seq<bool>, speculating: bool, savedPrediction: bool, savedPredicates: seq<bool>)

  /** The next-predicate logic: instruction and datapath masks combined. */
  function Masked(p: seq<bool>, us: seq<PredicateUpdate>, d: Destination, value: bool): (r: seq<bool>)
    ensures |r| == |p|
    ensures forall k | 0 <= k < |p| ::
      r[k] == ((p[k] || Sets(us, k) || (d == PredicateDestination(k) && value))
               && !(Clears(us, k) || (d == PredicateDestination(k) && !value)))
  {
    seq(|p|, k requires 0 <= k < |p| =>
      (p[k] || Sets(us, k) || (d == PredicateDestination(k) && value))
      && !(Clears(us, k) || (d == PredicateDestination(k) && !value)))
  }

  // --- Control signals of the speculative unit ---

  predicate EndSpeculation(pu: PredicateUnit, d: Destination) {
    pu.Speculative? && pu.speculating && d.PredicateDestination?
  }

  predicate Hit(pu: PredicateUnit, d: Destination, value: bool) {
    EndSpeculation(pu, d) && pu.savedPrediction == value
  }

  predicate Miss(pu: PredicateUnit, d: Destination, value: bool) {
    EndSpeculation(pu, d) && pu.savedPrediction != value
  }

  /** Instructions that must not be issued under speculation. */
  predicate Override(pu: PredicateUnit, d: Destination, value: bool, slot: Slot) {
    && pu.Speculative?
    && pu.speculating
    && (|| (slot.WritesPredicate() && !Hit(pu, d, value))
        || slot.Op() == SSW
        || (slot.Icd() != [] && !Hit(pu, d, value)))
  }

  predicate BeginSpeculation(pu: PredicateUnit, d: Destination, value: bool, slot: Slot) {
    && pu.Speculative?
    && (!pu.speculating || (EndSpeculation(pu, d) && !Miss(pu, d, value)))
    && slot.WritesPredicate()
    && !Override(pu, d, value, slot)
  }

  function NextPredicates(pu: PredicateUnit, d: Destination, value: bool, us: seq<PredicateUpdate>): seq<bool> {
    Masked(pu.predicates, us, if EndSpeculation(pu, d) then NullDestination else d, value)
  }

  /**
   * One clock edge. `d` and `value` come from the instruction at the end of the pipeline, `slot` from the
   * trigger stage; `prediction` is whatever the predictor bank says.
   */
  function Clock(pu: PredicateUnit, d: Destination, value: bool, slot: Slot, prediction: bool): PredicateUnit {
    var next := NextPredicates(pu, d, value, slot.Updates());
    match pu
    case Plain(_) => Plain(next)
    case Speculative(p, speculating, saved, backup) =>
      if BeginSpeculation(pu, d, value, slot) then
        var k := slot.Dest().index;
        Speculative(SetPredicate(next, k, prediction), true, prediction, SetPredicate(next, k, !prediction))
      else
        var p' := if Miss(pu, d, value) then backup
                  else if Override(pu, d, value, slot) then p
                  else next;
        Speculative(p', speculating && !EndSpeculation(pu, d), saved, backup)
  }

  // --- The edge as two independent events ---

  /** The predicate write at the end of the pipeline resolves. */
  function Settle(pu: PredicateUnit, d: Destination, value: bool): PredicateUnit {
    if !d.PredicateDestination? then pu
    else
      match pu
      case Plain(p) => Plain(SetPredicate(p, d.index, value))
      case Speculative(p, _, saved, backup) =>
        if saved == value then pu.(speculating := false)
        else pu.(speculating := false, predicates := backup)
  }

  lemma SettleKeepsKind(pu: PredicateUnit, d: Destination, value: bool)
    ensures Settle(pu, d, value).Speculative? == pu.Speculative?
  {
  }

  /** An instruction leaves the trigger stage. */
  function Admit(pu: PredicateUnit, slot: Slot, prediction: bool): PredicateUnit {
    match slot
    case Bubble => pu
    case Busy(i) =>
      var next := MaskUpdates(pu.predicates, i.updates);
      if pu.Speculative? && slot.WritesPredicate() then
        var k := i.destination.index;
        Speculative(SetPredicate(next, k, prediction), true, prediction, SetPredicate(next, k, !prediction))
      else pu.(predicates := next)
  }

  /**
   * The unit's single edge is the resolution of the old write followed by the admission of the new
   * instruction, even in the cycle where one speculative section runs straight into the next.
   */
  lemma ClockDecomposes(pu: PredicateUnit, d: Destination, value: bool, slot: Slot, prediction: bool)
    requires d.PredicateDestination? ==> if pu.Speculative? then pu.speculating else slot == Bubble
    ensures
      var issued := if Override(pu, d, value, slot) || Miss(pu, d, value) then Bubble else slot;
      Clock(pu, d, value, slot, prediction) == Admit(Settle(pu, d, value), issued, prediction)
  {
    var next := NextPredicates(pu, d, value, slot.Updates());
    assert forall k :: !Sets([], k) && !Clears([], k);
    if pu.Plain? {
      if d.PredicateDestination? {
        assert next == SetPredicate(pu.predicates, d.index, value);
      } else {
        assert next == MaskUpdates(pu.predicates, slot.Updates());
        assert slot.Bubble? ==> next == pu.predicates;
      }
    } else {
      assert next == MaskUpdates(pu.predicates, slot.Updates());
      assert slot.Bubble? ==> next == pu.predicates;
    }
  }

  // --- What may be in flight together ---

  /** An instruction that leaves no trace if it is squashed before it reaches the end of the pipeline. */
  predicate Harmless(slot: Slot) {
    slot.Icd() == [] && slot.Op() != SSW && !slot.WritesPredicate()
  }

  /**
   * The relation between the unit and the instructions in flight, oldest first: speculation lasts exactly as
   * long as a predicate write is in flight, and nothing younger than that write can do lasting harm.
   */
  predicate Consistent(pu: PredicateUnit, slots: seq<Slot>) {
    match pu
    case Plain(_) =>
      forall j, k | 0 <= j < k < |slots| && slots[j].WritesPredicate() :: slots[k] == Bubble
    case Speculative(_, speculating, _, _) => Guarded(speculating, slots)
  }

  predicate Guarded(speculating: bool, slots: seq<Slot>) {
    && (speculating <==> exists j | 0 <= j < |slots| :: slots[j].WritesPredicate())
    && forall j, k | 0 <= j < k < |slots| && slots[j].WritesPredicate() :: Harmless(slots[k])
  }

  /** A miss is only ever signalled by the one predicate write in flight, so everything it flushes is younger. */
  lemma MissFlushesYounger(pu: PredicateUnit, slots: seq<Slot>, j: nat, value: bool)
    requires Consistent(pu, slots) && j < |slots|
    requires Miss(pu, slots[j].Dest(), value)
    ensures forall k | 0 <= k < |slots| && k != j :: !slots[k].WritesPredicate()
    ensures forall k | j < k < |slots| :: Harmless(slots[k])
  {
    forall k | 0 <= k < j ensures !slots[k].WritesPredicate() {
      assert slots[k].WritesPredicate() ==> Harmless(slots[j]);
    }
  }

  /** While the unit speculates there is exactly one predicate write in flight, and never one otherwise. */
  lemma SpeculatingIffOneWrite(pu: PredicateUnit, slots: seq<Slot>)
    requires pu.Speculative? && Consistent(pu, slots)
    ensures pu.speculating <==>
      exists j | 0 <= j < |slots| ::
        slots[j].WritesPredicate() && forall k | 0 <= k < |slots| && k != j :: !slots[k].WritesPredicate()
  {
    if pu.speculating {
      var j :| 0 <= j < |slots| && slots[j].WritesPredicate();
      forall k | 0 <= k < |slots| && k != j ensures !slots[k].WritesPredicate() {
        assert k < j && slots[k].WritesPredicate() ==> Harmless(slots[j]);
        assert j < k ==> Harmless(slots[k]);
      }
    }
  }

  /** The speculation window moves with the pipeline. */
  lemma WindowMoves(speculating: bool, oldest: Slot, rest: seq<Slot>, issued: Slot)
    requires Guarded(speculating, [oldest] + rest)
    requires speculating && !oldest.WritesPredicate() ==> Harmless(issued)
    ensures Guarded(issued.WritesPredicate() || (speculating && !oldest.WritesPredicate()), rest + [issued])
  {
    hide Harmless;
    NobodyWritesBehind(speculating, oldest, rest);
    YoungerAreHarmless(speculating, oldest, rest);
    var after := rest + [issued];
    forall j, k | 0 <= j < k < |after| && after[j].WritesPredicate() ensures Harmless(after[k]) {
      assert after[j] == rest[j] && after[k] == if k < |rest| then rest[k] else issued;
    }
    if issued.WritesPredicate() {
      assert after[|rest|].WritesPredicate();
    } else if j :| 0 <= j < |rest| && rest[j].WritesPredicate() {
      assert after[j].WritesPredicate();
    }
  }

  lemma NobodyWritesBehind(speculating: bool, oldest: Slot, rest: seq<Slot>)
    requires Guarded(speculating, [oldest] + rest)
    ensures (exists j | 0 <= j < |rest| :: rest[j].WritesPredicate()) <==> speculating && !oldest.WritesPredicate()
  {
    var all := [oldest] + rest;
    assert all[0] == oldest && forall k | 0 <= k < |rest| :: all[k + 1] == rest[k];
    if speculating && !oldest.WritesPredicate() {
      var j :| 0 <= j < |all| && all[j].WritesPredicate();
      assert rest[j - 1].WritesPredicate();
    }
    forall k | 0 <= k < |rest| ensures rest[k].WritesPredicate() ==> speculating && !oldest.WritesPredicate() {
      assert all[k + 1].WritesPredicate() ==> speculating;
      assert oldest.WritesPredicate() ==> Harmless(all[k + 1]);
    }
  }

  lemma YoungerAreHarmless(speculating: bool, oldest: Slot, rest: seq<Slot>)
    requires Guarded(speculating, [oldest] + rest)
    ensures forall j, k | 0 <= j < k < |rest| && rest[j].WritesPredicate() :: Harmless(rest[k])
  {
    var all := [oldest] + rest;
    forall j, k | 0 <= j < k < |rest| && rest[j].WritesPredicate() ensures Harmless(rest[k]) {
      assert all[j + 1] == rest[j] && all[k + 1] == rest[k];
    }
  }

  lemma SpeculatingAfterClock(pu: PredicateUnit, d: Destination, value: bool, slot: Slot, prediction: bool)
    requires pu.Speculative? && !Miss(pu, d, value)
    ensures
      var issued := if Override(pu, d, value, slot) then Bubble else slot;
      && Clock(pu, d, value, slot, prediction).Speculative?
      && (Clock(pu, d, value, slot, prediction).speculating
          <==> issued.WritesPredicate() || (pu.speculating && !d.PredicateDestination?))
      && (pu.speculating && !d.PredicateDestination? ==> Harmless(issued))
  {
  }

  /**
   * One edge keeps the unit consistent with the pipeline: the oldest slot resolves, the rest move up unless
   * the unit flushes them, and whatever was not overridden enters behind them.
   */
  lemma ClockKeepsConsistency(pu: PredicateUnit, oldest: Slot, rest: seq<Slot>, value: bool, slot: Slot, prediction: bool)
    requires Consistent(pu, [oldest] + rest)
    requires pu.Plain? ==> slot == Bubble || forall k | 0 <= k < |rest| :: !rest[k].WritesPredicate()
    ensures
      var d := oldest.Dest();
      var issued := if Override(pu, d, value, slot) then Bubble else slot;
      Consistent(Clock(pu, d, value, slot, prediction), if Miss(pu, d, value) then [] else rest + [issued])
  {
    var d := oldest.Dest();
    var issued := if Override(pu, d, value, slot) then Bubble else slot;
    if pu.Plain? {
      var all, after := [oldest] + rest, rest + [issued];
      forall j, k | 0 <= j < k < |after| && after[j].WritesPredicate() ensures after[k] == Bubble {
        assert all[j + 1] == rest[j];
        assert k < |rest| ==> all[k + 1] == rest[k];
      }
    } else if !Miss(pu, d, value) {
      WindowMoves(pu.speculating, oldest, rest, issued);
      SpeculatingAfterClock(pu, d, value, slot, prediction);
    }
  }

  /**
   * What is saved when speculation begins is the outcome not predicted: the current predicates with the predicted
   * bit flipped. It stays saved, and speculation goes on, until the predicate write reaches the end of the pipeline.
   */
  lemma SavedIsTheOtherOutcome(pu: PredicateUnit, d: Destination, value: bool, slot: Slot, prediction: bool)
    ensures
      var pu' := Clock(pu, d, value, slot, prediction);
      BeginSpeculation(pu, d, value, slot) && slot.Dest().index < |pu.predicates| ==>
        && pu'.predicates[slot.Dest().index] == prediction
        && pu'.savedPredicates == pu'.predicates[slot.Dest().index := !prediction]
    ensures
      var pu' := Clock(pu, d, value, slot, prediction);
      pu.Speculative? && pu.speculating && !d.PredicateDestination? ==>
        && pu'.speculating
        && pu'.savedPredicates == pu.savedPredicates && pu'.savedPrediction == pu.savedPrediction
  {
  }

  /** Both registers of the unit keep the width they were built with. */
  predicate Wide(pu: PredicateUnit, n: nat) {
    |pu.predicates| == n && (pu.Speculative? ==> |pu.savedPredicates| == n)
  }

  lemma WidthIsKept(pu: PredicateUnit, d: Destination, value: bool, slot: Slot, prediction: bool, n: nat)
    requires Wide(pu, n)
    ensures Wide(Clock(pu, d, value, slot, prediction), n)
  {
  }

  // --- The clocked units ---

  /** The datapath's update masks: at most the destination predicate, set or cleared by the result. */
  method DatapathMasks(n: nat, d: Destination, value: bool) returns (on: seq<bool>, off: seq<bool>)
    ensures |on| == |off| == n
    ensures forall k | 0 <= k < n :: on[k] == (d == PredicateDestination(k) && value)
    ensures forall k | 0 <= k < n :: off[k] == (d == PredicateDestination(k) && !value)
  {
    on, off := [], [];
    for i := 0 to n
      invariant |on| == |off| == i
      invariant forall k | 0 <= k < i :: on[k] == (d == PredicateDestination(k) && value)
      invariant forall k | 0 <= k < i :: off[k] == (d == PredicateDestination(k) && !value)
    {
      if d.PredicateDestination? && i == d.index {
        on, off := on + [value], off + [!value];
      } else {
        on, off := on + [false], off + [false];
      }
    }
  }

  /** The plain predicate unit with its register. */
  class PlainPredicateUnit {
    var predicates: seq<bool>

    constructor (numPredicates: nat)
      ensures predicates == seq(numPredicates, _ => false)
    {
      predicates := seq(numPredicates, _ => false);
    }

    method Tick(d: Destination, value: bool, slot: Slot)
      modifies this
      ensures Plain(predicates) == Clock(old(Plain(predicates)), d, value, slot, false)
    {
      var on, off := DatapathMasks(|predicates|, d, value);
      var us, now := slot.Updates(), predicates;
      var next := seq(|now|, k requires 0 <= k < |now| => (now[k] || Sets(us, k) || on[k]) && !(Clears(us, k) || off[k]));
      assert next == Masked(now, us, d, value);
      predicates := next;
    }
  }

  /** The speculative predicate unit with its registers. */
  class SpeculativePredicateUnit {
    var predicates: seq<bool>
    var speculating: bool
    var savedPrediction: bool
    var savedPredicates: seq<bool>

    ghost function State(): PredicateUnit
      reads this
    {
      Speculative(predicates, speculating, savedPrediction, savedPredicates)
    }

    constructor (numPredicates: nat)
      ensures State() == Speculative(seq(numPredicates, _ => false), false, false, seq(numPredicates, _ => false))
    {
      predicates := seq(numPredicates, _ => false);
      speculating := false;
      savedPrediction := false;
      savedPredicates := seq(numPredicates, _ => false);
    }

    method Tick(d: Destination, value: bool, slot: Slot, prediction: bool) returns (override: bool, miss: bool)
      modifies this
      ensures State() == Clock(old(State()), d, value, slot, prediction)
      ensures override == Override(old(State()), d, value, slot)
      ensures miss == Miss(old(State()), d, value)
    {
      var end := speculating && d.PredicateDestination?;
      var hit := end && savedPrediction == value;
      miss := end && savedPrediction != value;
      override := speculating && ((slot.WritesPredicate() && !hit) || slot.Op() == SSW || (slot.Icd() != [] && !hit));
      var begin := (!speculating || (end && !miss)) && slot.WritesPredicate() && !override;
      var next := Masked(predicates, slot.Updates(), if end then NullDestination else d, value);
      if begin {
        predicates := SetPredicate(next, slot.Dest().index, prediction);
        savedPredicates := SetPredicate(next, slot.Dest().index, !prediction);
        speculating, savedPrediction := true, prediction;
      } else {
        if miss {
          predicates := savedPredicates;
        } else if !override {
          predicates := next;
        }
        if end {
          speculating := false;
        }
      }
    }
  }
}

/**
 * What a pipeline full of half-executed instructions stands for. Resolving a pipeline completes its
 * instructions oldest first, exactly as sequential execution would, and stops at a mispredicted predicate
 * write, where the saved predicates take over and everything younger is forgotten.
 */
module InFlight {
  import opened Prelude
  import opened Instructions
  import opened Sequential
  import opened PredicateUnits

  /** An in-flight instruction: sources not yet read, sources latched, or result at hand. */
  datatype Entry =
    | Pending(slot: Slot)
    | Fetched(slot: Slot, x: Operands)
    | Done(slot: Slot, r: Word)

  /** A pipeline register at the end of the pipeline; an empty one holds no result. */
  function Finished(x: Slot, r: Word): Entry {
    if x.Bubble? then Done(Bubble, 0) else Done(x, r)
  }

  function Slots(es: seq<Entry>): (r: seq<Slot>)
    ensures |r| == |es|
    ensures forall k | 0 <= k < |es| :: r[k] == es[k].slot
  {
    seq(|es|, k requires 0 <= k < |es| => es[k].slot)
  }

  /** The effect, short of predicates, of letting one in-flight instruction finish; and its result. */
  function Complete(alu: Alu, dp: Datapath, e: Entry): (Datapath, Word) {
    match e.slot
    case Bubble => (dp, 0)
    case Busy(i) =>
      match e
      case Pending(_) =>
        var x := ReadOperands(dp, i);
        var r := Compute(alu, dp, i.op, x);
        (WriteBack(Store(Dequeue(dp, i.dequeues), i.op, x), i, r), r)
      case Fetched(_, x) =>
        var r := Compute(alu, dp, i.op, x);
        (WriteBack(Store(dp, i.op, x), i, r), r)
      case Done(_, r) => (WriteBack(dp, i, r), r)
  }

  function Resolve(alu: Alu, dp: Datapath, es: seq<Entry>, pu: PredicateUnit): Pe
    decreases es
  {
    if es == [] then Pe(pu.predicates, dp)
    else
      var (dp', r) := Complete(alu, dp, es[0]);
      if !es[0].slot.WritesPredicate() then Resolve(alu, dp', es[1..], pu)
      else if pu.Plain? then Resolve(alu, dp', es[1..], Plain(SetPredicate(pu.predicates, es[0].slot.Dest().index, r != 0)))
      else if pu.savedPrediction == (r != 0) then Resolve(alu, dp', es[1..], pu)
      else Pe(pu.savedPredicates, dp')
  }

  /** Some predicate write in flight is going to miss. */
  predicate WrongPath(alu: Alu, dp: Datapath, es: seq<Entry>, pu: PredicateUnit)
    decreases es
  {
    if es == [] then false
    else
      var (dp', r) := Complete(alu, dp, es[0]);
      || (es[0].slot.WritesPredicate() && pu.Speculative? && pu.savedPrediction != (r != 0))
      || WrongPath(alu, dp', es[1..], pu)
  }

  predicate NoWrites(es: seq<Entry>) {
    forall k | 0 <= k < |es| :: !es[k].slot.WritesPredicate()
  }

  // --- Unfolding ---

  lemma ResolveOne(alu: Alu, dp: Datapath, e: Entry, pu: PredicateUnit)
    ensures Resolve(alu, dp, [], pu) == Pe(pu.predicates, dp)
    ensures !WrongPath(alu, dp, [], pu)
    ensures WrongPath(alu, dp, [e], pu)
         == (e.slot.WritesPredicate() && pu.Speculative? && pu.savedPrediction != (Complete(alu, dp, e).1 != 0))
    ensures
      var (dp', r) := Complete(alu, dp, e);
      Resolve(alu, dp, [e], pu) ==
        Pe(if !e.slot.WritesPredicate() then pu.predicates
           else if pu.Plain? then SetPredicate(pu.predicates, e.slot.Dest().index, r != 0)
           else if pu.savedPrediction == (r != 0) then pu.predicates
           else pu.savedPredicates, dp')
  {
    assert [e][1..] == [];
  }

  lemma ResolveCons(alu: Alu, dp: Datapath, e: Entry, es: seq<Entry>, pu: PredicateUnit)
    ensures
      var (dp', r) := Complete(alu, dp, e);
      && Resolve(alu, dp, [e] + es, pu) ==
           (if !e.slot.WritesPredicate() then Resolve(alu, dp', es, pu)
            else if pu.Plain? then Resolve(alu, dp', es, Plain(SetPredicate(pu.predicates, e.slot.Dest().index, r != 0)))
            else if pu.savedPrediction == (r != 0) then Resolve(alu, dp', es, pu)
            else Pe(pu.savedPredicates, dp'))
      && WrongPath(alu, dp, [e] + es, pu) ==
           ((e.slot.WritesPredicate() && pu.Speculative? && pu.savedPrediction != (r != 0))
            || WrongPath(alu, dp', es, pu))
  {
    assert ([e] + es)[1..] == es;
  }

  /** Resolving a longer pipeline is resolving its old part and then its young part. */
  lemma {:induction false} ResolveSnoc(alu: Alu, dp: Datapath, es: seq<Entry>, e: Entry, pu: PredicateUnit)
    ensures
      var mid := Resolve(alu, dp, es, pu);
      if WrongPath(alu, dp, es, pu) then
        && Resolve(alu, dp, es + [e], pu) == mid
        && WrongPath(alu, dp, es + [e], pu)
      else
        && Resolve(alu, dp, es + [e], pu) == Resolve(alu, mid.dp, [e], pu.(predicates := mid.predicates))
        && WrongPath(alu, dp, es + [e], pu) == WrongPath(alu, mid.dp, [e], pu.(predicates := mid.predicates))
    decreases es
  {
    if es == [] {
      assert es + [e] == [e];
    } else {
      var (dp', r) := Complete(alu, dp, es[0]);
      assert (es + [e])[1..] == es[1..] + [e];
      var w := es[0].slot.WritesPredicate();
      if pu.Plain? && w {
        var pu' := Plain(SetPredicate(pu.predicates, es[0].slot.Dest().index, r != 0));
        WrongPathIsSpeculative(alu, dp', es[1..], pu, pu');
        WrongPathIsSpeculative(alu, dp', es[1..] + [e], pu, pu');
        ResolveSnoc(alu, dp', es[1..], e, pu');
      } else {
        ResolveSnoc(alu, dp', es[1..], e, pu);
      }
    }
  }

  lemma {:induction false} WrongPathIsSpeculative(alu: Alu, dp: Datapath, es: seq<Entry>, pu: PredicateUnit, pu': PredicateUnit)
    requires pu.Plain? == pu'.Plain?
    requires pu.Speculative? ==> pu.savedPrediction == pu'.savedPrediction
    ensures WrongPath(alu, dp, es, pu) == WrongPath(alu, dp, es, pu')
    ensures pu.Plain? ==> !WrongPath(alu, dp, es, pu)
    decreases es
  {
    if es != [] {
      WrongPathIsSpeculative(alu, Complete(alu, dp, es[0]).0, es[1..], pu, pu');
    }
  }

  /** The datapath a pipeline resolves to does not depend on the current predicates, and on the right path they pass through. */
  lemma {:induction false} ResolvePredicates(alu: Alu, dp: Datapath, es: seq<Entry>, pu: PredicateUnit, p: seq<bool>)
    requires pu.Speculative? || NoWrites(es)
    ensures
      var q := Resolve(alu, dp, es, pu);
      var q' := Resolve(alu, dp, es, pu.(predicates := p));
      && WrongPath(alu, dp, es, pu.(predicates := p)) == WrongPath(alu, dp, es, pu)
      && (if WrongPath(alu, dp, es, pu) then q' == q else q.predicates == pu.predicates && q' == Pe(p, q.dp))
    decreases es
  {
    if es != [] {
      var (dp', r) := Complete(alu, dp, es[0]);
      ResolvePredicates(alu, dp', es[1..], pu, p);
    }
  }

  /** Without a predicate write in flight nothing depends on the saved outcome. */
  lemma {:induction false} ResolveIgnoresSaved(alu: Alu, dp: Datapath, es: seq<Entry>, pu: PredicateUnit, pu': PredicateUnit)
    requires NoWrites(es)
    ensures !WrongPath(alu, dp, es, pu)
    ensures Resolve(alu, dp, es, pu) == Pe(pu.predicates, Resolve(alu, dp, es, pu').dp)
    decreases es
  {
    if es != [] {
      ResolveIgnoresSaved(alu, Complete(alu, dp, es[0]).0, es[1..], pu, pu');
    }
  }

  // --- Issue ---

  /** Completing an instruction that has just left the trigger stage is executing it. */
  lemma FireIsComplete(alu: Alu, pe: Pe, i: Instruction)
    ensures Fire(alu, pe, i).dp == Complete(alu, pe.dp, Pending(Busy(i))).0
  {
  }

  /**
   * Issuing an instruction behind a correctly predicted pipeline is executing it on the state the pipeline
   * stands for, whatever the predictor says. Behind a doomed pipeline it is nothing at all.
   */
  lemma IssueIsFire(cp: CoreParameters, alu: Alu, dp: Datapath, es: seq<Entry>, pu: PredicateUnit, i: Instruction, prediction: bool)
    requires WellFormed(cp, i)
    requires pu.Plain? ==> NoWrites(es)
    requires pu.Speculative? && i.destination.PredicateDestination? ==> NoWrites(es)
    ensures
      var pe := Resolve(alu, dp, es, pu);
      var pe' := Resolve(alu, dp, es + [Pending(Busy(i))], Admit(pu, Busy(i), prediction));
      pe' == if WrongPath(alu, dp, es, pu) then pe else Fire(alu, pe, i)
  {
    var pe := Resolve(alu, dp, es, pu);
    var pu' := Admit(pu, Busy(i), prediction);
    var e := Pending(Busy(i));
    var next := MaskUpdates(pu.predicates, i.updates);
    ResolveSnoc(alu, dp, es, e, pu');
    if pu.Speculative? && i.destination.PredicateDestination? {
      ResolveIgnoresSaved(alu, dp, es, pu, pu');
      ResolveIgnoresSaved(alu, dp, es, pu', pu);
      ResolveOne(alu, pe.dp, e, pu');
    } else {
      ResolvePredicates(alu, dp, es, pu, next);
      ResolveOne(alu, pe.dp, e, pu.(predicates := next));
    }
    if !WrongPath(alu, dp, es, pu) {
      if NoWrites(es) { ResolveIgnoresSaved(alu, dp, es, pu, pu); } else { ResolvePredicates(alu, dp, es, pu, next); }
      assert pe.predicates == pu.predicates;
      FireIsComplete(alu, pe, i);
      var r := Complete(alu, pe.dp, e).1;
      UpdatesAndWrite(cp, pu.predicates, i, r);
    }
  }

  /** An instruction's own predicate write and its update mask touch different predicates, so they commute. */
  lemma UpdatesAndWrite(cp: CoreParameters, p: seq<bool>, i: Instruction, r: Word)
    requires WellFormed(cp, i)
    ensures AssignUpdates(p, i.updates) == MaskUpdates(p, i.updates)
    ensures i.destination.PredicateDestination? ==>
      AssignUpdates(SetPredicate(p, i.destination.index, r != 0), i.updates)
        == SetPredicate(MaskUpdates(p, i.updates), i.destination.index, r != 0)
  {
    DistinctIsUnambiguous(i.updates);
    MaskIsAssignment(p, i.updates);
    if i.destination.PredicateDestination? {
      var k := i.destination.index;
      MaskIsAssignment(SetPredicate(p, k, r != 0), i.updates);
      assert !Sets(i.updates, k) && !Clears(i.updates, k);
    }
  }

  lemma IssueBubble(alu: Alu, dp: Datapath, es: seq<Entry>, pu: PredicateUnit)
    ensures Resolve(alu, dp, es + [Pending(Bubble)], pu) == Resolve(alu, dp, es, pu)
    ensures WrongPath(alu, dp, es + [Pending(Bubble)], pu) == WrongPath(alu, dp, es, pu)
  {
    ResolveSnoc(alu, dp, es, Pending(Bubble), pu);
    var pe := Resolve(alu, dp, es, pu);
    ResolveOne(alu, pe.dp, Pending(Bubble), pu.(predicates := pe.predicates));
  }

  // --- Retirement ---

  /**
   * Retiring the oldest instruction does not change what the pipeline stands for: a hit lets the rest go on,
   * a miss leaves only the saved predicates.
   */
  lemma RetireKeepsMeaning(alu: Alu, dp: Datapath, e: Entry, es: seq<Entry>, pu: PredicateUnit)
    requires Consistent(pu, Slots([e] + es))
    ensures
      var (dp', r) := Complete(alu, dp, e);
      var d := e.slot.Dest();
      var pu' := Settle(pu, d, r != 0);
      if Miss(pu, d, r != 0) then
        Resolve(alu, dp, [e] + es, pu) == Resolve(alu, dp', [], pu') && WrongPath(alu, dp, [e] + es, pu)
      else
        && Resolve(alu, dp, [e] + es, pu) == Resolve(alu, dp', es, pu')
        && WrongPath(alu, dp, [e] + es, pu) == WrongPath(alu, dp', es, pu')
  {
    var (dp', r) := Complete(alu, dp, e);
    var pu' := Settle(pu, e.slot.Dest(), r != 0);
    hide Complete, Resolve, WrongPath, Consistent, Slots, NoWrites;
    ResolveCons(alu, dp, e, es, pu);
    ResolveOne(alu, dp', e, pu');
    if e.slot.WritesPredicate() {
      NothingYoungerWrites(e, es, pu);
      WriteIsGuarded(e, es, pu);
      ResolveIgnoresSaved(alu, dp', es, pu, pu');
      ResolveIgnoresSaved(alu, dp', es, pu', pu);
      if pu.Plain? { WrongPathIsSpeculative(alu, dp', es, pu, pu'); }
    }
  }

  lemma NothingYoungerWrites(e: Entry, es: seq<Entry>, pu: PredicateUnit)
    requires Consistent(pu, Slots([e] + es)) && e.slot.WritesPredicate()
    ensures NoWrites(es)
  {
    hide Consistent;
    var slots := Slots([e] + es);
    forall k | 0 <= k < |es| ensures !es[k].slot.WritesPredicate() {
      assert slots[0] == e.slot && slots[k + 1] == es[k].slot;
      NothingBehindAWrite(pu, slots, k + 1);
    }
  }

  lemma NothingBehindAWrite(pu: PredicateUnit, slots: seq<Slot>, k: nat)
    requires Consistent(pu, slots) && 0 < k < |slots| && slots[0].WritesPredicate()
    ensures !slots[k].WritesPredicate()
  {
    if pu.Speculative? { assert Harmless(slots[k]); } else { assert slots[k] == Bubble; }
  }

  /** A predicate write in flight is one the speculative unit is speculating about. */
  lemma WriteIsGuarded(e: Entry, es: seq<Entry>, pu: PredicateUnit)
    requires Consistent(pu, Slots([e] + es)) && e.slot.WritesPredicate()
    ensures pu.Speculative? ==> pu.speculating
  {
    assert Slots([e] + es)[0] == e.slot;
  }

  // --- The environment ---

  /** Every instruction that still has to read its channels finds them non-empty. */
  predicate Fed(alu: Alu, dp: Datapath, es: seq<Entry>)
    decreases es
  {
    es != [] ==>
      && (es[0].Pending? && es[0].slot.Busy? ==> Ready(dp, es[0].slot.i))
      && Fed(alu, Complete(alu, dp, es[0]).0, es[1..])
  }

  predicate Ready(dp: Datapath, i: Instruction) {
    forall c | c in i.trigger.inputChannels :: c < |dp.inputs| && dp.inputs[c] != []
  }

  predicate Possible(dp: Datapath, ev: Events) {
    && |ev.arrivals| == |dp.inputs|
    && |ev.drained| == |dp.outputs|
    && forall c | 0 <= c < |dp.outputs| :: ev.drained[c] ==> dp.outputs[c] != []
  }

  lemma EnvOperand(cp: CoreParameters, dp: Datapath, ev: Events, i: Instruction, s: Source)
    requires SourceInRange(cp, i.trigger, s) && Ready(dp, i) && Possible(dp, ev)
    ensures Operand(Env(dp, ev), i, s) == Operand(dp, i, s)
  {
  }

  lemma EnvReads(cp: CoreParameters, dp: Datapath, ev: Events, i: Instruction)
    requires WellFormed(cp, i) && Ready(dp, i) && Possible(dp, ev)
    ensures ReadOperands(Env(dp, ev), i) == ReadOperands(dp, i)
    ensures Dequeue(Env(dp, ev), i.dequeues) == Env(Dequeue(dp, i.dequeues), ev)
    ensures Possible(Dequeue(dp, i.dequeues), ev)
  {
    EnvOperand(cp, dp, ev, i, i.sourceA);
    EnvOperand(cp, dp, ev, i, i.sourceB);
    EnvOperand(cp, dp, ev, i, i.sourceC);
    EnvPop(dp, ev, i.dequeues);
    hide Operand;
  }

  /** From latched operands on, an instruction does not look at the inputs, and its enqueue goes behind a drain. */
  lemma EnvRetires(alu: Alu, dp: Datapath, ev: Events, e: Entry)
    requires e.slot.Busy? && !e.Pending? && Possible(dp, ev)
    ensures Complete(alu, Env(dp, ev), e) == (Env(Complete(alu, dp, e).0, ev), Complete(alu, dp, e).1)
    ensures Possible(Complete(alu, dp, e).0, ev)
  {
    var i := e.slot.i;
    var r := Complete(alu, dp, e).1;
    EnvPush(dp, ev, i.trigger.outputChannels, Packet(i.outputTag, r));
    assert Complete(alu, Env(dp, ev), e).0 == Env(Complete(alu, dp, e).0, ev);
  }

  lemma PendingIsFetched(alu: Alu, dp: Datapath, i: Instruction)
    ensures Complete(alu, dp, Pending(Busy(i))) == Complete(alu, Dequeue(dp, i.dequeues), Fetched(Busy(i), ReadOperands(dp, i)))
  {
    hide ReadOperands;
  }

  lemma EnvComplete(cp: CoreParameters, alu: Alu, dp: Datapath, ev: Events, e: Entry)
    requires e.slot.Busy? ==> WellFormed(cp, e.slot.i)
    requires e.Pending? && e.slot.Busy? ==> Ready(dp, e.slot.i)
    requires Possible(dp, ev)
    ensures Complete(alu, Env(dp, ev), e) == (Env(Complete(alu, dp, e).0, ev), Complete(alu, dp, e).1)
    ensures Possible(Complete(alu, dp, e).0, ev)
  {
    if e.slot.Busy? {
      var i := e.slot.i;
      hide Complete, Env, Possible, ReadOperands, Dequeue, Ready, WellFormed;
      if e.Pending? {
        PendingIsFetched(alu, dp, i);
        PendingIsFetched(alu, Env(dp, ev), i);
        EnvReads(cp, dp, ev, i);
        EnvRetires(alu, Dequeue(dp, i.dequeues), ev, Fetched(e.slot, ReadOperands(dp, i)));
      } else {
        EnvRetires(alu, dp, ev, e);
      }
    }
  }

  lemma EnvPop(dp: Datapath, ev: Events, chans: seq<nat>)
    requires Possible(dp, ev)
    requires forall c | c in chans :: c < |dp.inputs| && dp.inputs[c] != []
    ensures PopChannels(Env(dp, ev).inputs, chans) == Env(dp.(inputs := PopChannels(dp.inputs, chans)), ev).inputs
  {
    var l, r := PopChannels(Env(dp, ev).inputs, chans), Env(dp.(inputs := PopChannels(dp.inputs, chans)), ev).inputs;
    forall c | 0 <= c < |dp.inputs| ensures l[c] == r[c] {
      var q := dp.inputs[c];
      if c in chans && ev.arrivals[c].Some? {
        assert (q + [ev.arrivals[c].value])[1..] == q[1..] + [ev.arrivals[c].value];
      }
    }
    assert l == r;
  }

  lemma EnvPush(dp: Datapath, ev: Events, chans: seq<nat>, p: Packet)
    requires Possible(dp, ev)
    ensures PushChannels(Env(dp, ev).outputs, chans, p) == Env(dp.(outputs := PushChannels(dp.outputs, chans, p)), ev).outputs
  {
    var l, r := PushChannels(Env(dp, ev).outputs, chans, p), Env(dp.(outputs := PushChannels(dp.outputs, chans, p)), ev).outputs;
    forall c | 0 <= c < |dp.outputs| ensures l[c] == r[c] {
      var q := dp.outputs[c];
      if c in chans && ev.drained[c] {
        assert (q + [p])[1..] == q[1..] + [p];
      }
    }
    assert l == r;
  }

  /** Link traffic and in-flight execution commute. */
  lemma {:induction false} EnvCommutes(cp: CoreParameters, alu: Alu, dp: Datapath, ev: Events, es: seq<Entry>, pu: PredicateUnit)
    requires forall k | 0 <= k < |es| :: es[k].slot.Busy? ==> WellFormed(cp, es[k].slot.i)
    requires Possible(dp, ev) && Fed(alu, dp, es)
    ensures Resolve(alu, Env(dp, ev), es, pu) == EnvPe(Resolve(alu, dp, es, pu), ev)
    ensures WrongPath(alu, Env(dp, ev), es, pu) == WrongPath(alu, dp, es, pu)
    decreases es
  {
    if es != [] {
      EnvComplete(cp, alu, dp, ev, es[0]);
      var (dp', r) := Complete(alu, dp, es[0]);
      EnvCommutes(cp, alu, dp', ev, es[1..], pu);
      if pu.Plain? && es[0].slot.WritesPredicate() {
        EnvCommutes(cp, alu, dp', ev, es[1..], Plain(SetPredicate(pu.predicates, es[0].slot.Dest().index, r != 0)));
      }
    }
  }
}

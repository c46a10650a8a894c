/**
 * The part of the argument all pipelined cores share: the trigger stage, the invariant that ties buffer
 * credit, readiness and speculation to what is in flight, and the theorem that one clock cycle is one
 * sequential instruction or none.
 */
module Refinement {
  import opened Prelude
  import opened Instructions
  import opened Sequential
  import opened PredicateUnits
  import opened InFlight
  import opened ChannelBuffers
  import Status = ChannelStatus

  datatype StatusMode = FullInformation | Pessimistic

  datatype Hardware = Hardware(m: Machine, status: StatusMode)

  /** The inputs of one cycle: requests on the input links, acknowledgements on the output links, a prediction. */
  datatype Cycle = Cycle(requests: seq<Option<Packet>>, acks: seq<bool>, prediction: bool)

  /** The trigger stage is not misled by pessimism: status is exact, or no trigger looks at it. */
  predicate Exact(hw: Hardware) {
    hw.status.FullInformation? || PredicatesOnly(hw.m.program)
  }

  // --- Trigger stage ---

  function Counts(queues: seq<seq<Packet>>): (r: seq<nat>)
    ensures |r| == |queues|
    ensures forall c | 0 <= c < |r| :: r[c] == |queues[c]|
  {
    seq(|queues|, c requires 0 <= c < |queues| => |queues[c]|)
  }

  /** The tag lookahead unit: behind a pending dequeue the next tag is the one that counts. */
  function ResolvedTags(inputs: seq<seq<Packet>>, icd: seq<nat>): (r: seq<nat>)
    ensures |r| == |inputs|
    ensures forall c | 0 <= c < |r| ::
      r[c] == (if c in icd then (if |inputs[c]| > 1 then inputs[c][1].tag else 0)
               else if inputs[c] == [] then 0 else inputs[c][0].tag)
  {
    seq(|inputs|, c requires 0 <= c < |inputs| =>
      if c in icd then (if |inputs[c]| > 1 then inputs[c][1].tag else 0)
      else if inputs[c] == [] then 0 else inputs[c][0].tag)
  }

  /** What the trigger resolution unit is given, corrected for a dequeue and for enqueues still in flight. */
  function StageView(hw: Hardware, p: seq<bool>, dp: Datapath, icd: seq<nat>, stages: seq<seq<nat>>): View {
    var depth := hw.m.cp.channelBufferDepth;
    var tags := ResolvedTags(dp.inputs, icd);
    match hw.status
    case FullInformation =>
      View(p, Status.EmptyStatus(Counts(dp.inputs), icd), tags, Status.FullStatus(depth, Counts(dp.outputs), stages))
    case Pessimistic =>
      View(p, Status.PessimisticEmpty(Empties(dp.inputs), icd), tags,
           Status.PessimisticFull(Fulls(depth, dp.outputs), stages))
  }

  function Triggered(hw: Hardware, v: View): (r: Slot)
    ensures r.Busy? ==> r.i in hw.m.program && Eligible(r.i.trigger, v)
  {
    match FirstMatch(hw.m.program, v)
    case None => Bubble
    case Some(k) => Busy(hw.m.program[k])
  }

  // --- Channel buffers ---

  /** What the buffers let the links do this cycle, decided on the counts before the edge. */
  function Accepted(cp: CoreParameters, dp: Datapath, c: Cycle): Events {
    Events(
      seq(|dp.inputs|, k requires 0 <= k < |dp.inputs| =>
        if k < |c.requests| && |dp.inputs[k]| != cp.channelBufferDepth then c.requests[k] else None),
      seq(|dp.outputs|, k requires 0 <= k < |dp.outputs| =>
        dp.outputs[k] != [] && k < |c.acks| && c.acks[k]))
  }

  predicate Dequeued(dp: Datapath, dp2: Datapath, icd: seq<nat>) {
    && |dp2.inputs| == |dp.inputs|
    && forall c | 0 <= c < |dp.inputs| :: dp2.inputs[c] == PopIf(dp.inputs[c], c in icd)
  }

  /** The input buffers together are a dequeue followed by the packets the links were able to deliver. */
  lemma InputBuffersAreEnv(cp: CoreParameters, dp: Datapath, dp2: Datapath, icd: seq<nat>, c: Cycle)
    requires Dequeued(dp, dp2, icd)
    requires forall k | 0 <= k < |dp.inputs| && k in icd :: dp.inputs[k] != []
    ensures NextInputs(cp.channelBufferDepth, dp.inputs, icd, c.requests) == Env(dp2, Accepted(cp, dp, c)).inputs
  {
    var l, r := NextInputs(cp.channelBufferDepth, dp.inputs, icd, c.requests), Env(dp2, Accepted(cp, dp, c)).inputs;
    forall k | 0 <= k < |dp.inputs| ensures l[k] == r[k] {
      assert dp2.inputs[k] == PopIf(dp.inputs[k], k in icd);
    }
  }

  /** The output buffers together are an enqueue and a transfer, provided the enqueue finds room. */
  lemma OutputBuffersAreEnv(cp: CoreParameters, dp: Datapath, dp2: Datapath, oci: seq<nat>, p: Packet, c: Cycle)
    requires dp2.outputs == PushChannels(dp.outputs, oci, p)
    requires forall k | 0 <= k < |dp.outputs| && k in oci :: |dp.outputs[k]| != cp.channelBufferDepth
    ensures NextOutputs(cp.channelBufferDepth, dp.outputs, oci, p, c.acks) == Env(dp2, Accepted(cp, dp, c)).outputs
  {
    var l, r := NextOutputs(cp.channelBufferDepth, dp.outputs, oci, p, c.acks), Env(dp2, Accepted(cp, dp, c)).outputs;
    forall k | 0 <= k < |dp.outputs| ensures l[k] == r[k] {
      var q := dp.outputs[k];
      assert dp2.outputs[k] == PushIf(q, k in oci, p);
      if q != [] { assert (q + [p])[1..] == q[1..] + [p]; }
    }
  }

  /**
   * Architectural storage after a clock edge: `retiring` writes back its result, `storing` accesses the
   * scratchpad with operands `x`, `reading` dequeues, and the links do what the buffers let them.
   */
  function NextStorage(hw: Hardware, dp: Datapath, retiring: Slot, r: Word, storing: Slot, x: Operands, reading: Slot, c: Cycle): Datapath {
    var depth := hw.m.cp.channelBufferDepth;
    var tag := if retiring.Busy? then retiring.i.outputTag else 0;
    Datapath(
      if retiring.Dest().RegisterDestination? then Put(dp.registers, retiring.Dest().index, r) else dp.registers,
      Store(dp, storing.Op(), x).scratchpad,
      NextInputs(depth, dp.inputs, reading.Icd(), c.requests),
      NextOutputs(depth, dp.outputs, retiring.Oci(), Packet(tag, r), c.acks),
      dp.halted || retiring.Op() == HALT,
      if retiring.Busy? then dp.retired + [retiring.i] else dp.retired)
  }

  /** The same edge without the links. */
  function Edge(alu: Alu, dp: Datapath, retiring: Slot, r: Word, storing: Slot, x: Operands, reading: Slot): Datapath {
    Dequeue(Store(Complete(alu, dp, Finished(retiring, r)).0, storing.Op(), x), reading.Icd())
  }

  /** What each part of the storage holds after the edge. */
  lemma EdgeParts(alu: Alu, dp: Datapath, retiring: Slot, r: Word, storing: Slot, x: Operands, reading: Slot)
    ensures
      var tag := if retiring.Busy? then retiring.i.outputTag else 0;
      Edge(alu, dp, retiring, r, storing, x, reading) == Datapath(
        if retiring.Dest().RegisterDestination? then Put(dp.registers, retiring.Dest().index, r) else dp.registers,
        Store(dp, storing.Op(), x).scratchpad,
        PopChannels(dp.inputs, reading.Icd()),
        PushChannels(dp.outputs, retiring.Oci(), Packet(tag, r)),
        dp.halted || retiring.Op() == HALT,
        if retiring.Busy? then dp.retired + [retiring.i] else dp.retired)
  {
    var tag := if retiring.Busy? then retiring.i.outputTag else 0;
    assert retiring.Bubble? ==> dp.outputs == PushChannels(dp.outputs, [], Packet(tag, r));
    hide PushChannels, PopChannels, Put;
  }

  lemma StorageIsEdge(hw: Hardware, dp: Datapath, retiring: Slot, r: Word, storing: Slot, x: Operands, reading: Slot, c: Cycle)
    requires forall k | 0 <= k < |dp.outputs| && k in retiring.Oci() :: |dp.outputs[k]| != hw.m.cp.channelBufferDepth
    requires forall k | 0 <= k < |dp.inputs| && k in reading.Icd() :: dp.inputs[k] != []
    ensures NextStorage(hw, dp, retiring, r, storing, x, reading, c)
         == Env(Edge(hw.m.alu, dp, retiring, r, storing, x, reading), Accepted(hw.m.cp, dp, c))
  {
    var tag := if retiring.Busy? then retiring.i.outputTag else 0;
    var dp2 := Edge(hw.m.alu, dp, retiring, r, storing, x, reading);
    EdgeParts(hw.m.alu, dp, retiring, r, storing, x, reading);
    hide Edge, NextInputs, NextOutputs, Accepted, PushChannels, PopChannels, Store, Put;
    InputBuffersAreEnv(hw.m.cp, dp, dp2, reading.Icd(), c);
    OutputBuffersAreEnv(hw.m.cp, dp, dp2, retiring.Oci(), Packet(tag, r), c);
  }

  // --- Invariant ---

  function OciCount(es: seq<Entry>, c: nat): nat {
    if es == [] then 0 else Status.Bit(c in es[0].slot.Oci()) + OciCount(es[1..], c)
  }

  predicate FromProgram(hw: Hardware, s: Slot) {
    s.Busy? ==> s.i in hw.m.program
  }

  /** Everything but the youngest entry has read its sources. */
  predicate Pipelined(es: seq<Entry>) {
    && es != []
    && es[|es| - 1].Pending?
    && forall k | 0 <= k < |es| - 1 :: !es[k].Pending?
  }

  predicate Sane(hw: Hardware) {
    hw.m.cp.channelBufferDepth >= 2 && WellFormedProgram(hw.m.cp, hw.m.program)
  }

  /**
   * The invariant of a running core: every buffer has room for all the enqueues in flight, the instruction
   * about to dequeue finds its channels non-empty, and the predicate unit matches the pipeline.
   */
  predicate Sound(hw: Hardware, dp: Datapath, es: seq<Entry>, pu: PredicateUnit) {
    && Sane(hw)
    && Shaped(hw.m.cp, dp)
    && Pipelined(es)
    && (forall k | 0 <= k < |es| :: FromProgram(hw, es[k].slot))
    && (forall c | 0 <= c < |dp.inputs| :: |dp.inputs[c]| <= hw.m.cp.channelBufferDepth)
    && (forall c | 0 <= c < |dp.outputs| :: |dp.outputs[c]| + OciCount(es, c) <= hw.m.cp.channelBufferDepth)
    && (es[|es| - 1].slot.Busy? ==> Ready(dp, es[|es| - 1].slot.i))
    && Consistent(pu, Slots(es))
  }

  // --- Lists of entries ---

  lemma {:induction false} OciCountSnoc(es: seq<Entry>, e: Entry, c: nat)
    ensures OciCount(es + [e], c) == OciCount(es, c) + Status.Bit(c in e.slot.Oci())
    decreases es
  {
    if es == [] {
      assert es + [e] == [e] && [e][1..] == [];
    } else {
      assert (es + [e])[1..] == es[1..] + [e];
      OciCountSnoc(es[1..], e, c);
    }
  }

  lemma {:induction false} OciCountCovers(es: seq<Entry>, j: nat, c: nat)
    requires j < |es|
    ensures OciCount(es, c) >= Status.Bit(c in es[j].slot.Oci())
    decreases es
  {
    if j > 0 { OciCountCovers(es[1..], j - 1, c); }
  }

  lemma OciCountCons(e: Entry, es: seq<Entry>, c: nat)
    ensures OciCount([e] + es, c) == Status.Bit(c in e.slot.Oci()) + OciCount(es, c)
  {
    assert ([e] + es)[1..] == es;
  }

  lemma {:induction false} OciCountOfSlots(es: seq<Entry>, fs: seq<Entry>, c: nat)
    requires Slots(es) == Slots(fs)
    ensures OciCount(es, c) == OciCount(fs, c)
    decreases es
  {
    assert |es| == |Slots(es)| == |fs|;
    if es != [] {
      assert es[0].slot == Slots(es)[0] == fs[0].slot;
      forall k | 0 <= k < |es| - 1 ensures Slots(es[1..])[k] == Slots(fs[1..])[k] {
        assert Slots(es)[k + 1] == Slots(fs)[k + 1];
      }
      OciCountOfSlots(es[1..], fs[1..], c);
    }
  }

  lemma CompleteChannels(alu: Alu, dp: Datapath, e: Entry)
    ensures
      var dp' := Complete(alu, dp, e).0;
      && dp'.inputs == (if e.Pending? && e.slot.Busy? then PopChannels(dp.inputs, e.slot.Icd()) else dp.inputs)
      && |dp'.outputs| == |dp.outputs|
      && forall c | 0 <= c < |dp.outputs| ::
           dp.outputs[c] <= dp'.outputs[c] && |dp'.outputs[c]| == |dp.outputs[c]| + Status.Bit(c in e.slot.Oci())
  {
  }

  /** Where the pipeline's channels end up: only the youngest instruction still dequeues, and enqueues only append. */
  predicate ChannelsResolved(dp: Datapath, es: seq<Entry>, result: Datapath, wrong: bool)
    requires es != []
  {
    var icd := es[|es| - 1].slot.Icd();
    && |result.inputs| == |dp.inputs| && |result.outputs| == |dp.outputs|
    && (forall c | 0 <= c < |dp.inputs| ::
          if wrong then result.inputs[c] == dp.inputs[c] || result.inputs[c] == PopIf(dp.inputs[c], c in icd)
          else result.inputs[c] == PopIf(dp.inputs[c], c in icd))
    && (forall c | 0 <= c < |dp.outputs| ::
          dp.outputs[c] <= result.outputs[c] && (!wrong ==> |result.outputs[c]| == |dp.outputs[c]| + OciCount(es, c)))
  }

  lemma {:induction false} ResolveChannels(alu: Alu, dp: Datapath, es: seq<Entry>, pu: PredicateUnit)
    requires Pipelined(es)
    ensures ChannelsResolved(dp, es, Resolve(alu, dp, es, pu).dp, WrongPath(alu, dp, es, pu))
    decreases es
  {
    hide *;
    PipelinedParts(es);
    var e, rest := es[0], es[1..];
    if |es| == 1 {
      ChannelsOne(alu, dp, e, pu);
    } else {
      var (dp', r) := Complete(alu, dp, e);
      CompletePushes(alu, dp, e);
      ResolveCons(alu, dp, e, rest, pu);
      var pu' := Updated(pu, e, r);
      UpdatedKeeps(pu, e, r);
      WrongPathIsSpeculative(alu, dp', rest, pu, pu');
      ResolveChannels(alu, dp', rest, pu');
      if e.slot.WritesPredicate() && pu.Speculative? && pu.savedPrediction != (r != 0) {
        ChannelsCut(dp, dp', e, rest);
      } else {
        ChannelsStep(dp, dp', e, rest, Resolve(alu, dp', rest, pu').dp, WrongPath(alu, dp', rest, pu'));
      }
    }
  }

  /** The plain unit after a predicate write; the speculative one waits for the write to settle. */
  function Updated(pu: PredicateUnit, e: Entry, r: Word): PredicateUnit {
    if pu.Plain? && e.slot.WritesPredicate() then Plain(SetPredicate(pu.predicates, e.slot.Dest().index, r != 0)) else pu
  }

  lemma UpdatedKeeps(pu: PredicateUnit, e: Entry, r: Word)
    ensures Updated(pu, e, r).Plain? == pu.Plain?
    ensures pu.Speculative? || !e.slot.WritesPredicate() ==> Updated(pu, e, r) == pu
    ensures pu.Plain? && e.slot.WritesPredicate() ==>
      Updated(pu, e, r) == Plain(SetPredicate(pu.predicates, e.slot.Dest().index, r != 0))
  {
  }

  lemma PipelinedParts(es: seq<Entry>)
    requires Pipelined(es)
    ensures es != [] && es == [es[0]] + es[1..]
    ensures if |es| == 1 then es[1..] == [] && es[0].Pending? else !es[0].Pending? && Pipelined(es[1..])
  {
  }

  lemma ChannelsOne(alu: Alu, dp: Datapath, e: Entry, pu: PredicateUnit)
    requires e.Pending?
    ensures ChannelsResolved(dp, [e] + [], Resolve(alu, dp, [e] + [], pu).dp, WrongPath(alu, dp, [e] + [], pu))
  {
    assert [e] + [] == [e];
    CompleteChannels(alu, dp, e);
    ResolveOne(alu, dp, e, pu);
    hide Complete, Resolve, WrongPath, OciCount;
    forall c ensures OciCount([e] + [], c) == Status.Bit(c in e.slot.Oci()) {
      OciCountCons(e, [], c);
      NothingCounts(c);
    }
  }

  lemma NothingCounts(c: nat)
    ensures OciCount([], c) == 0
  {
  }

  lemma CompletePushes(alu: Alu, dp: Datapath, e: Entry)
    requires !e.Pending?
    ensures Pushed(dp, Complete(alu, dp, e).0, e)
  {
    CompleteChannels(alu, dp, e);
    hide Complete;
  }

  predicate Pushed(dp: Datapath, dp': Datapath, e: Entry) {
    && dp'.inputs == dp.inputs
    && |dp'.outputs| == |dp.outputs|
    && forall c | 0 <= c < |dp.outputs| ::
         dp.outputs[c] <= dp'.outputs[c] && |dp'.outputs[c]| == |dp.outputs[c]| + Status.Bit(c in e.slot.Oci())
  }

  lemma ChannelsStep(dp: Datapath, dp': Datapath, e: Entry, rest: seq<Entry>, result: Datapath, wrong: bool)
    requires rest != [] && Pushed(dp, dp', e)
    requires ChannelsResolved(dp', rest, result, wrong)
    ensures ChannelsResolved(dp, [e] + rest, result, wrong)
  {
    var es := [e] + rest;
    assert es[|es| - 1] == rest[|rest| - 1];
    assert es[1..] == rest && es[0] == e;
    forall c | 0 <= c < |dp.outputs| ensures dp.outputs[c] <= result.outputs[c] {
      assert dp.outputs[c] <= dp'.outputs[c] <= result.outputs[c];
    }
  }

  lemma ChannelsCut(dp: Datapath, dp': Datapath, e: Entry, rest: seq<Entry>)
    requires Pushed(dp, dp', e)
    ensures ChannelsResolved(dp, [e] + rest, dp', true)
  {
  }

  /** Output status: exact with full information, conservative otherwise. */
  lemma OutputStatus(hw: Hardware, p: seq<bool>, dp: Datapath, es: seq<Entry>, icd: seq<nat>, stages: seq<seq<nat>>, c: nat)
    requires hw.m.cp.channelBufferDepth >= 2 && |stages| <= 3 && c < |dp.outputs|
    requires Status.InFlight(stages, c) == OciCount(es, c)
    requires |dp.outputs[c]| <= hw.m.cp.channelBufferDepth
    ensures
      var full := |dp.outputs[c]| + OciCount(es, c) >= hw.m.cp.channelBufferDepth;
      var v := StageView(hw, p, dp, icd, stages);
      && |v.full| == |dp.outputs|
      && (full ==> v.full[c])
      && (hw.status.FullInformation? ==> v.full[c] == full)
  {
    var depth := hw.m.cp.channelBufferDepth;
    if hw.status.FullInformation? {
      Status.FullStatusIsExact(depth, Counts(dp.outputs), stages, c);
    }
  }

  /** The trigger stage's view never claims more than the state the pipeline stands for. */
  lemma StageViewIsConservative(hw: Hardware, dp: Datapath, es: seq<Entry>, pu: PredicateUnit, stages: seq<seq<nat>>)
    requires Sound(hw, dp, es, pu) && Covers(dp, es, stages)
    requires !WrongPath(hw.m.alu, dp, es, pu)
    requires pu.predicates == Resolve(hw.m.alu, dp, es, pu).predicates
    ensures
      var v := StageView(hw, pu.predicates, dp, es[|es| - 1].slot.Icd(), stages);
      var exact := ViewOf(hw.m.cp, Resolve(hw.m.alu, dp, es, pu));
      Conservative(v, exact) && (hw.status.FullInformation? ==> Conservative(exact, v))
  {
    var result := Resolve(hw.m.alu, dp, es, pu).dp;
    ResolveChannels(hw.m.alu, dp, es, pu);
    assert ChannelsResolved(dp, es, result, false);
    ViewsCompare(hw, pu.predicates, dp, es, stages, result);
  }

  lemma ViewsCompare(hw: Hardware, p: seq<bool>, dp: Datapath, es: seq<Entry>, stages: seq<seq<nat>>, result: Datapath)
    requires es != [] && hw.m.cp.channelBufferDepth >= 2 && Covers(dp, es, stages)
    requires forall c | 0 <= c < |dp.outputs| :: |dp.outputs[c]| <= hw.m.cp.channelBufferDepth
    requires ChannelsResolved(dp, es, result, false)
    ensures
      var v := StageView(hw, p, dp, es[|es| - 1].slot.Icd(), stages);
      var exact := ViewOf(hw.m.cp, Pe(p, result));
      Conservative(v, exact) && (hw.status.FullInformation? ==> Conservative(exact, v))
  {
    var v := StageView(hw, p, dp, es[|es| - 1].slot.Icd(), stages);
    var exact := ViewOf(hw.m.cp, Pe(p, result));
    forall c | 0 <= c < |dp.outputs| ensures ChannelFull(hw, v, exact, c) {
      OutputCompare(hw, p, dp, es, stages, result, c);
    }
    forall c | 0 <= c < |dp.inputs| ensures ChannelHead(hw, v, exact, c) {
      InputCompare(hw, p, dp, es, stages, result, c);
    }
    ChannelsCompare(hw, v, exact, |dp.inputs|, |dp.outputs|);
  }

  predicate ChannelFull(hw: Hardware, v: View, exact: View, c: nat) {
    && c < |v.full| && c < |exact.full|
    && (exact.full[c] ==> v.full[c])
    && (hw.status.FullInformation? ==> v.full[c] == exact.full[c])
  }

  predicate ChannelHead(hw: Hardware, v: View, exact: View, c: nat) {
    && c < |v.empty| && c < |exact.empty| && c < |v.tags| && c < |exact.tags|
    && (exact.empty[c] ==> v.empty[c])
    && (hw.status.FullInformation? ==> v.empty[c] == exact.empty[c])
    && (!v.empty[c] ==> v.tags[c] == exact.tags[c])
  }

  lemma ChannelsCompare(hw: Hardware, v: View, exact: View, n: nat, m: nat)
    requires v.predicates == exact.predicates
    requires |v.empty| == |v.tags| == |exact.empty| == |exact.tags| == n
    requires |v.full| == |exact.full| == m
    requires forall c | 0 <= c < n :: ChannelHead(hw, v, exact, c)
    requires forall c | 0 <= c < m :: ChannelFull(hw, v, exact, c)
    ensures Conservative(v, exact) && (hw.status.FullInformation? ==> Conservative(exact, v))
  {
    forall c | 0 <= c < n
      ensures exact.empty[c] ==> v.empty[c]
      ensures hw.status.FullInformation? ==> v.empty[c] == exact.empty[c]
      ensures !v.empty[c] ==> v.tags[c] == exact.tags[c]
    {
      assert ChannelHead(hw, v, exact, c);
    }
    forall c | 0 <= c < m
      ensures exact.full[c] ==> v.full[c]
      ensures hw.status.FullInformation? ==> v.full[c] == exact.full[c]
    {
      assert ChannelFull(hw, v, exact, c);
    }
  }

  lemma OutputCompare(hw: Hardware, p: seq<bool>, dp: Datapath, es: seq<Entry>, stages: seq<seq<nat>>, result: Datapath, c: nat)
    requires es != [] && hw.m.cp.channelBufferDepth >= 2 && |stages| <= 3
    requires c < |dp.outputs| && Status.InFlight(stages, c) == OciCount(es, c)
    requires |dp.outputs[c]| <= hw.m.cp.channelBufferDepth
    requires ChannelsResolved(dp, es, result, false)
    ensures ChannelFull(hw, StageView(hw, p, dp, es[|es| - 1].slot.Icd(), stages), ViewOf(hw.m.cp, Pe(p, result)), c)
  {
    OutputStatus(hw, p, dp, es, es[|es| - 1].slot.Icd(), stages, c);
  }

  lemma InputCompare(hw: Hardware, p: seq<bool>, dp: Datapath, es: seq<Entry>, stages: seq<seq<nat>>, result: Datapath, c: nat)
    requires es != [] && c < |dp.inputs|
    requires ChannelsResolved(dp, es, result, false)
    ensures ChannelHead(hw, StageView(hw, p, dp, es[|es| - 1].slot.Icd(), stages), ViewOf(hw.m.cp, Pe(p, result)), c)
  {
    InputStatus(hw, p, dp, es[|es| - 1].slot.Icd(), stages, c);
  }

  /** Input status: exact with full information, conservative otherwise; the lookahead tag is the right one. */
  lemma InputStatus(hw: Hardware, p: seq<bool>, dp: Datapath, icd: seq<nat>, stages: seq<seq<nat>>, c: nat)
    requires c < |dp.inputs|
    ensures
      var q := PopIf(dp.inputs[c], c in icd);
      var v := StageView(hw, p, dp, icd, stages);
      && |v.empty| == |v.tags| == |dp.inputs|
      && (q == [] ==> v.empty[c])
      && (hw.status.FullInformation? ==> v.empty[c] == (q == []))
      && (!v.empty[c] ==> q != [] && v.tags[c] == q[0].tag)
  {
  }

  // --- The shared theorem ---

  /** How a core's datapath changes apart from link traffic, and how its older stages move up. */
  predicate Advances(hw: Hardware, dp: Datapath, oldest: Entry, rest: seq<Entry>, pu: PredicateUnit, dp2: Datapath, moved: seq<Entry>) {
    var (dp1, r) := Complete(hw.m.alu, dp, oldest);
    var pu1 := Settle(pu, oldest.slot.Dest(), r != 0);
    && Shaped(hw.m.cp, dp2)
    && (forall k | 0 <= k < |moved| :: !moved[k].Pending?)
    && Slots(moved) == Slots(rest)
    && dp2.outputs == dp1.outputs
    && (if Miss(pu, oldest.slot.Dest(), r != 0) then dp2 == dp1
        else
          && Resolve(hw.m.alu, dp2, moved, pu1) == Resolve(hw.m.alu, dp1, rest, pu1)
          && WrongPath(hw.m.alu, dp2, moved, pu1) == WrongPath(hw.m.alu, dp1, rest, pu1))
  }

  /** A wrong path ends in a miss and not before; without an issue no new one begins. */
  predicate Follows(miss: bool, issued: Slot, wrong: bool, wrong': bool) {
    && (miss ==> wrong && !wrong')
    && (wrong && !miss ==> wrong')
    && (issued.Bubble? && !wrong ==> !wrong')
  }

  /**
   * One cycle at the level of what is in flight. `oldest` retires, the others advance from `rest` to `moved`
   * on `dp2`, and the trigger stage offers `slot`. If advancing does not change what the pipeline stands for,
   * the whole cycle is one sequential instruction, or none, followed by the link traffic.
   */
  lemma CycleRefines(hw: Hardware, dp: Datapath, oldest: Entry, rest: seq<Entry>, pu: PredicateUnit,
                     dp2: Datapath, moved: seq<Entry>, slot: Slot, ev: Events, prediction: bool)
    requires Sound(hw, dp, [oldest] + rest, pu)
    requires Advances(hw, dp, oldest, rest, pu, dp2, moved)
    requires FromProgram(hw, slot) && (slot.Busy? ==> Ready(dp2, slot.i))
    requires pu.Plain? && slot != Bubble ==> NoWrites([oldest] + rest)
    requires Possible(dp2, ev)
    ensures
      var r := Complete(hw.m.alu, dp, oldest).1;
      var d := oldest.slot.Dest();
      var miss := Miss(pu, d, r != 0);
      var issued := if Override(pu, d, r != 0, slot) || miss then Bubble else slot;
      var pe := Resolve(hw.m.alu, dp, [oldest] + rest, pu);
      var wrong := WrongPath(hw.m.alu, dp, [oldest] + rest, pu);
      Resolve(hw.m.alu, Env(dp2, ev), (if miss then [] else moved) + [Pending(issued)], Clock(pu, d, r != 0, slot, prediction))
        == EnvPe(if issued.Busy? && !wrong then Fire(hw.m.alu, pe, issued.i) else pe, ev)
    ensures
      var r := Complete(hw.m.alu, dp, oldest).1;
      var d := oldest.slot.Dest();
      var miss := Miss(pu, d, r != 0);
      var issued := if Override(pu, d, r != 0, slot) || miss then Bubble else slot;
      Follows(miss, issued, WrongPath(hw.m.alu, dp, [oldest] + rest, pu),
              WrongPath(hw.m.alu, Env(dp2, ev), (if miss then [] else moved) + [Pending(issued)], Clock(pu, d, r != 0, slot, prediction)))
  {
    hide Sound, Advances, Consistent, Resolve, WrongPath, Complete, Settle, Clock, Env, NoWrites, Ready, Possible, Fire, Admit, Miss,
         Override, FromProgram, WellFormedProgram, Slots;
    var alu := hw.m.alu;
    var (dp1, r) := Complete(alu, dp, oldest);
    var d := oldest.slot.Dest();
    var miss := Miss(pu, d, r != 0);
    var issued := if Override(pu, d, r != 0, slot) || miss then Bubble else slot;
    var pu1 := Settle(pu, d, r != 0);
    var es := if miss then [] else moved;
    CycleParts(hw, dp, oldest, rest, pu, dp2, moved);
    SlotsMoved(hw, oldest, rest, moved);
    BubbleIsFromProgram(hw);
    MissOnlyWhenSpeculating(hw, dp, oldest, rest, pu, slot);
    ClockDecomposes(pu, d, r != 0, slot, prediction);
    SoundIsConsistent(hw, dp, [oldest] + rest, pu);
    RetireKeepsMeaning(alu, dp, oldest, rest, pu);
    if issued.Busy? && (pu.Plain? || issued.WritesPredicate()) {
      NoWritesWhenIssuing(pu, oldest, rest, r != 0, slot);
    }
    NoWritesInNothing();
    SettleKeepsKind(pu, d, r != 0);
    IssueThenLinks(hw, dp2, es, pu1, issued, ev, prediction);
    ResolveOne(alu, dp1, Pending(Bubble), pu1);
  }

  /** What advancing on a sound pipeline gives, part by part. */
  lemma CycleParts(hw: Hardware, dp: Datapath, oldest: Entry, rest: seq<Entry>, pu: PredicateUnit, dp2: Datapath, moved: seq<Entry>)
    requires Sound(hw, dp, [oldest] + rest, pu) && Advances(hw, dp, oldest, rest, pu, dp2, moved)
    ensures
      var (dp1, r) := Complete(hw.m.alu, dp, oldest);
      var pu1 := Settle(pu, oldest.slot.Dest(), r != 0);
      if Miss(pu, oldest.slot.Dest(), r != 0) then dp2 == dp1
      else
        && Resolve(hw.m.alu, dp2, moved, pu1) == Resolve(hw.m.alu, dp1, rest, pu1)
        && WrongPath(hw.m.alu, dp2, moved, pu1) == WrongPath(hw.m.alu, dp1, rest, pu1)
    ensures Slots(moved) == Slots(rest) && forall k | 0 <= k < |moved| :: !moved[k].Pending?
    ensures WellFormedProgram(hw.m.cp, hw.m.program)
    ensures forall k | 0 <= k < |rest| + 1 :: FromProgram(hw, ([oldest] + rest)[k].slot)
  {
    hide Complete, Settle, Miss, Resolve, WrongPath, Slots, FromProgram, WellFormedProgram, Consistent;
  }

  lemma BubbleIsFromProgram(hw: Hardware)
    ensures FromProgram(hw, Bubble)
  {
  }

  lemma SlotsMoved(hw: Hardware, oldest: Entry, rest: seq<Entry>, moved: seq<Entry>)
    requires Slots(moved) == Slots(rest)
    requires forall k | 0 <= k < |rest| + 1 :: FromProgram(hw, ([oldest] + rest)[k].slot)
    ensures |moved| == |rest| && forall k | 0 <= k < |moved| :: moved[k].slot == rest[k].slot && FromProgram(hw, moved[k].slot)
    ensures NoWrites(moved) == NoWrites(rest)
  {
    assert |Slots(moved)| == |moved| && |Slots(rest)| == |rest|;
    forall k | 0 <= k < |moved| ensures moved[k].slot == rest[k].slot && FromProgram(hw, moved[k].slot) {
      assert Slots(moved)[k] == moved[k].slot && Slots(rest)[k] == rest[k].slot;
      assert ([oldest] + rest)[k + 1] == rest[k];
    }
  }

  lemma NoWritesInNothing()
    ensures NoWrites([])
  {
  }

  lemma SoundIsConsistent(hw: Hardware, dp: Datapath, es: seq<Entry>, pu: PredicateUnit)
    requires Sound(hw, dp, es, pu)
    ensures Consistent(pu, Slots(es)) && WellFormedProgram(hw.m.cp, hw.m.program) && es != []
    ensures forall k | 0 <= k < |es| :: FromProgram(hw, es[k].slot)
  {
  }

  lemma MissOnlyWhenSpeculating(hw: Hardware, dp: Datapath, oldest: Entry, rest: seq<Entry>, pu: PredicateUnit, slot: Slot)
    requires Sound(hw, dp, [oldest] + rest, pu)
    requires pu.Plain? && slot != Bubble ==> NoWrites([oldest] + rest)
    ensures oldest.slot.WritesPredicate() ==> if pu.Speculative? then pu.speculating else slot == Bubble
  {
    assert Slots([oldest] + rest)[0] == oldest.slot;
    assert ([oldest] + rest)[0] == oldest;
  }

  /** What is issued on a wrong path does not lead back to the right one, and a bubble does not lead off it. */
  lemma IssueKeepsWrongPath(alu: Alu, dp: Datapath, es: seq<Entry>, pu: PredicateUnit, issued: Slot, prediction: bool)
    requires issued.WritesPredicate() ==> NoWrites(es)
    ensures
      var wrong := WrongPath(alu, dp, es, pu);
      var wrong' := WrongPath(alu, dp, es + [Pending(issued)], Admit(pu, issued, prediction));
      (wrong ==> wrong') && (issued.Bubble? && !wrong ==> !wrong')
  {
    if issued.WritesPredicate() {
      ResolveIgnoresSaved(alu, dp, es, pu, pu);
    } else {
      var all := es + [Pending(issued)];
      ResolveSnoc(alu, dp, es, Pending(issued), pu);
      if issued.Bubble? { IssueBubble(alu, dp, es, pu); }
      hide WrongPath, Resolve, Complete, NoWrites;
      WrongPathIsSpeculative(alu, dp, all, pu, Admit(pu, issued, prediction));
    }
  }

  /** Issue and link traffic, on the datapath left by the end of the pipeline. */
  lemma IssueThenLinks(hw: Hardware, dp: Datapath, es: seq<Entry>, pu: PredicateUnit, issued: Slot, ev: Events, prediction: bool)
    requires WellFormedProgram(hw.m.cp, hw.m.program) && FromProgram(hw, issued)
    requires forall k | 0 <= k < |es| :: !es[k].Pending? && FromProgram(hw, es[k].slot)
    requires issued.Busy? && (pu.Plain? || issued.WritesPredicate()) ==> NoWrites(es)
    requires issued.Busy? ==> Ready(dp, issued.i)
    requires Possible(dp, ev)
    ensures
      var pe := Resolve(hw.m.alu, dp, es, pu);
      Resolve(hw.m.alu, Env(dp, ev), es + [Pending(issued)], Admit(pu, issued, prediction))
        == EnvPe(if issued.Busy? && !WrongPath(hw.m.alu, dp, es, pu) then Fire(hw.m.alu, pe, issued.i) else pe, ev)
    ensures
      var wrong := WrongPath(hw.m.alu, dp, es, pu);
      var wrong' := WrongPath(hw.m.alu, Env(dp, ev), es + [Pending(issued)], Admit(pu, issued, prediction));
      (wrong ==> wrong') && (issued.Bubble? && !wrong ==> !wrong')
  {
    var all := es + [Pending(issued)];
    IssueKeepsWrongPath(hw.m.alu, dp, es, pu, issued, prediction);
    assert all[|es|] == Pending(issued) && forall k | 0 <= k < |es| :: all[k] == es[k];
    FedSnoc(hw.m.alu, dp, es, issued);
    EnvCommutes(hw.m.cp, hw.m.alu, dp, ev, all, Admit(pu, issued, prediction));
    match issued
    case Bubble => IssueBubble(hw.m.alu, dp, es, pu);
    case Busy(i) => IssueIsFire(hw.m.cp, hw.m.alu, dp, es, pu, i, prediction);
  }

  lemma NoWritesWhenIssuing(pu: PredicateUnit, oldest: Entry, rest: seq<Entry>, value: bool, slot: Slot)
    requires Consistent(pu, Slots([oldest] + rest))
    requires pu.Plain? && slot != Bubble ==> NoWrites([oldest] + rest)
    requires slot.Busy? && !Override(pu, oldest.slot.Dest(), value, slot)
    requires pu.Plain? || slot.WritesPredicate()
    ensures NoWrites(rest)
  {
    hide Consistent, Override, Slots, Harmless;
    SlotsOfCons(oldest, rest);
    if pu.Speculative? { NoWritesBehind(pu, Slots([oldest] + rest), value, slot); }
    forall k | 0 <= k < |rest| ensures !rest[k].slot.WritesPredicate() {
      assert ([oldest] + rest)[k + 1] == rest[k];
    }
  }

  lemma SlotsOfCons(oldest: Entry, rest: seq<Entry>)
    ensures
      var slots := Slots([oldest] + rest);
      |slots| == |rest| + 1 && slots[0] == oldest.slot && forall k | 0 <= k < |rest| :: slots[k + 1] == rest[k].slot
  {
    hide *;
    var es := [oldest] + rest;
    forall k | 0 <= k < |rest| ensures Slots(es)[k + 1] == rest[k].slot { assert es[k + 1] == rest[k]; }
  }

  /** A predicate write gets past the unit only when the one in flight, if any, is hitting right now. */
  lemma NoWritesBehind(pu: PredicateUnit, slots: seq<Slot>, value: bool, slot: Slot)
    requires pu.Speculative? && Consistent(pu, slots) && slots != []
    requires slot.WritesPredicate() && !Override(pu, slots[0].Dest(), value, slot)
    ensures forall k | 0 < k < |slots| :: !slots[k].WritesPredicate()
  {
    if pu.speculating {
      assert slots[0].WritesPredicate();
      forall k | 0 < k < |slots| ensures !slots[k].WritesPredicate() { assert Harmless(slots[k]); }
    }
  }

  lemma {:induction false} FedSnoc(alu: Alu, dp: Datapath, es: seq<Entry>, s: Slot)
    requires forall k | 0 <= k < |es| :: !es[k].Pending?
    requires s.Busy? ==> Ready(dp, s.i)
    ensures Fed(alu, dp, es + [Pending(s)])
    decreases es
  {
    if es == [] {
      assert es + [Pending(s)] == [Pending(s)];
    } else {
      assert (es + [Pending(s)])[1..] == es[1..] + [Pending(s)];
      FedSnoc(alu, Complete(alu, dp, es[0]).0, es[1..], s);
    }
  }

  // --- One cycle of any core ---

  /** An instruction the trigger stage offers was chosen on a view of what the pipeline stands for. */
  lemma OfferedIsScheduled(hw: Hardware, dp: Datapath, es: seq<Entry>, pu: PredicateUnit, stages: seq<seq<nat>>, pe: Pe)
    requires Sound(hw, dp, es, pu) && Covers(dp, es, stages)
    requires !WrongPath(hw.m.alu, dp, es, pu)
    requires pu.Speculative? || NoWrites(es)
    requires pe == Resolve(hw.m.alu, dp, es, pu) && !pe.dp.halted
    ensures
      var slot := Triggered(hw, StageView(hw, pu.predicates, dp, es[|es| - 1].slot.Icd(), stages));
      && (slot.Busy? ==> Eligible(slot.i.trigger, ViewOf(hw.m.cp, pe)))
      && (Exact(hw) ==> Scheduled(hw.m, pe) == if slot.Busy? then Some(slot.i) else None)
  {
    ResolvePredicates(hw.m.alu, dp, es, pu, pu.predicates);
    StageViewIsConservative(hw, dp, es, pu, stages);
    TriggeredIsScheduled(hw, StageView(hw, pu.predicates, dp, es[|es| - 1].slot.Icd(), stages), pe);
  }

  /** With no dequeue pending and no enqueue in flight the pessimistic status is the exact one. */
  lemma EmptyStatusIsExact(hw: Hardware, p: seq<bool>, dp: Datapath, stages: seq<seq<nat>>)
    requires hw.m.cp.channelBufferDepth >= 2 && |stages| <= 3
    requires forall c | 0 <= c < |dp.outputs| :: |dp.outputs[c]| <= hw.m.cp.channelBufferDepth && Status.InFlight(stages, c) == 0
    ensures StageView(hw, p, dp, [], stages) == StageView(Hardware(hw.m, FullInformation), p, dp, [], stages)
  {
    var depth := hw.m.cp.channelBufferDepth;
    hide Status.InFlight, Status.Bumped;
    assert Status.PessimisticEmpty(Empties(dp.inputs), []) == Status.EmptyStatus(Counts(dp.inputs), []);
    forall c | 0 <= c < |dp.outputs|
      ensures Status.PessimisticFull(Fulls(depth, dp.outputs), stages)[c] == Status.FullStatus(depth, Counts(dp.outputs), stages)[c]
    {
      Status.FullStatusIsExact(depth, Counts(dp.outputs), stages, c);
    }
    assert Status.PessimisticFull(Fulls(depth, dp.outputs), stages) == Status.FullStatus(depth, Counts(dp.outputs), stages);
  }

  /** An invariant that holds with one status logic holds with the other. */
  lemma SoundWithEither(hw: Hardware, status: StatusMode, dp: Datapath, es: seq<Entry>, pu: PredicateUnit)
    requires Sound(hw, dp, es, pu)
    ensures Sound(Hardware(hw.m, status), dp, es, pu)
    ensures forall v :: Triggered(Hardware(hw.m, status), v) == Triggered(hw, v)
    ensures hw.m.cp.channelBufferDepth >= 2
    ensures forall c | 0 <= c < |dp.outputs| :: |dp.outputs[c]| <= hw.m.cp.channelBufferDepth
  {
    hide Shaped, Pipelined, Ready, Consistent, OciCount, WellFormedProgram, FirstMatch;
    assert forall k | 0 <= k < |es| :: FromProgram(Hardware(hw.m, status), es[k].slot) == FromProgram(hw, es[k].slot);
  }

  /** So an empty pipeline sees what is scheduled, whichever status logic it has. */
  lemma IdleOfferIsScheduled(hw: Hardware, dp: Datapath, es: seq<Entry>, pu: PredicateUnit, stages: seq<seq<nat>>, pe: Pe)
    requires Sound(hw, dp, es, pu) && Covers(dp, es, stages)
    requires !WrongPath(hw.m.alu, dp, es, pu)
    requires pu.Speculative? || NoWrites(es)
    requires forall c | 0 <= c < |dp.outputs| :: OciCount(es, c) == 0
    requires pe == Resolve(hw.m.alu, dp, es, pu) && !pe.dp.halted
    ensures
      var slot := Triggered(hw, StageView(hw, pu.predicates, dp, [], stages));
      es != [] && es[|es| - 1].slot.Icd() == [] ==> Scheduled(hw.m, pe) == if slot.Busy? then Some(slot.i) else None
  {
    if es != [] && es[|es| - 1].slot.Icd() == [] {
      hide Sound, WrongPath, Resolve, NoWrites, OciCount, StageView, Triggered, Scheduled;
      var full := Hardware(hw.m, FullInformation);
      SoundWithEither(hw, FullInformation, dp, es, pu);
      EmptyStatusIsExact(hw, pu.predicates, dp, stages);
      OfferedIsScheduled(full, dp, es, pu, stages, pe);
    }
  }

  lemma TriggeredIsScheduled(hw: Hardware, v: View, pe: Pe)
    requires Conservative(v, ViewOf(hw.m.cp, pe)) && !pe.dp.halted
    requires hw.status.FullInformation? ==> Conservative(ViewOf(hw.m.cp, pe), v)
    ensures
      var slot := Triggered(hw, v);
      && (slot.Busy? ==> Eligible(slot.i.trigger, ViewOf(hw.m.cp, pe)))
      && (Exact(hw) ==> Scheduled(hw.m, pe) == if slot.Busy? then Some(slot.i) else None)
  {
    var exact := ViewOf(hw.m.cp, pe);
    var slot := Triggered(hw, v);
    assert v.predicates == exact.predicates;
    hide Conservative, ViewOf, Eligible, PredicatesOnly;
    if slot.Busy? { ConservativeIsSound(slot.i.trigger, v, exact); }
    if hw.status.FullInformation? {
      ExactViewsAgree(hw.m.program, v, exact);
    } else if Exact(hw) {
      PredicatesSelect(hw.m.program, v, exact);
    }
  }

  lemma OfferedReady(hw: Hardware, p: seq<bool>, dp: Datapath, icd: seq<nat>, stages: seq<seq<nat>>, t: Trigger, c: nat)
    requires Eligible(t, StageView(hw, p, dp, icd, stages)) && c in t.inputChannels
    ensures c < |dp.inputs| && PopIf(dp.inputs[c], c in icd) != []
  {
    var v := StageView(hw, p, dp, icd, stages);
    assert c < |v.empty| && !v.empty[c];
    assert |v.empty| == |dp.inputs|;
    InputStatus(hw, p, dp, icd, stages, c);
  }

  lemma OfferedRoom(hw: Hardware, p: seq<bool>, dp: Datapath, es: seq<Entry>, icd: seq<nat>, stages: seq<seq<nat>>, t: Trigger, c: nat)
    requires hw.m.cp.channelBufferDepth >= 2 && |stages| <= 3 && c < |dp.outputs|
    requires Status.InFlight(stages, c) == OciCount(es, c)
    requires |dp.outputs[c]| <= hw.m.cp.channelBufferDepth
    requires Eligible(t, StageView(hw, p, dp, icd, stages)) && c in t.outputChannels
    ensures |dp.outputs[c]| + OciCount(es, c) < hw.m.cp.channelBufferDepth
  {
    var v := StageView(hw, p, dp, icd, stages);
    assert !v.full[c];
    OutputStatus(hw, p, dp, es, icd, stages, c);
  }

  predicate HasRoom(hw: Hardware, dp: Datapath, es: seq<Entry>, s: Slot) {
    forall c | 0 <= c < |dp.outputs| && c in s.Oci() :: |dp.outputs[c]| + OciCount(es, c) < hw.m.cp.channelBufferDepth
  }

  /** The updaters are given the enqueues of exactly the instructions in flight. */
  predicate Covers(dp: Datapath, es: seq<Entry>, stages: seq<seq<nat>>) {
    |stages| <= 3 && forall c | 0 <= c < |dp.outputs| :: Status.InFlight(stages, c) == OciCount(es, c)
  }

  /** Whatever the trigger stage offers will find its channels when it dequeues, and room when it enqueues. */
  lemma OfferedIsSafe(hw: Hardware, dp: Datapath, es: seq<Entry>, pu: PredicateUnit, icd: seq<nat>, stages: seq<seq<nat>>, dp2: Datapath)
    requires Sound(hw, dp, es, pu) && Covers(dp, es, stages) && Dequeued(dp, dp2, icd)
    ensures
      var slot := Triggered(hw, StageView(hw, pu.predicates, dp, icd, stages));
      (slot.Busy? ==> Ready(dp2, slot.i)) && HasRoom(hw, dp, es, slot)
  {
    var slot := Triggered(hw, StageView(hw, pu.predicates, dp, icd, stages));
    hide StageView, Eligible;
    if slot.Busy? {
      var t := slot.i.trigger;
      forall c | c in t.inputChannels ensures c < |dp2.inputs| && dp2.inputs[c] != [] {
        OfferedReady(hw, pu.predicates, dp, icd, stages, t, c);
      }
      forall c | 0 <= c < |dp.outputs| && c in t.outputChannels
        ensures |dp.outputs[c]| + OciCount(es, c) < hw.m.cp.channelBufferDepth
      {
        OfferedRoom(hw, pu.predicates, dp, es, icd, stages, t, c);
      }
    }
  }

  /** The invariant survives a cycle in which the pipeline moved up and `issued` entered behind it. */
  lemma SoundNext(hw: Hardware, dp: Datapath, es: seq<Entry>, pu: PredicateUnit, c: Cycle,
                  dp2: Datapath, moved: seq<Entry>, issued: Slot, pu2: PredicateUnit)
    requires Sound(hw, dp, es, pu)
    requires Shaped(hw.m.cp, dp2)
    requires Dequeued(dp, dp2, es[|es| - 1].slot.Icd())
    requires forall k | 0 <= k < |dp.outputs| ::
      |dp2.outputs[k]| + OciCount(moved, k) <= |dp.outputs[k]| + OciCount(es, k)
    requires forall k | 0 <= k < |moved| :: !moved[k].Pending? && FromProgram(hw, moved[k].slot)
    requires FromProgram(hw, issued)
    requires issued.Busy? ==> Ready(dp2, issued.i)
    requires HasRoom(hw, dp, es, issued)
    requires Consistent(pu2, Slots(moved + [Pending(issued)]))
    ensures Sound(hw, Env(dp2, Accepted(hw.m.cp, dp, c)), moved + [Pending(issued)], pu2)
  {
    var ev := Accepted(hw.m.cp, dp, c);
    var dp3 := Env(dp2, ev);
    var next := moved + [Pending(issued)];
    assert next[|moved|] == Pending(issued) && forall k | 0 <= k < |moved| :: next[k] == moved[k];
    forall k | 0 <= k < |dp3.outputs|
      ensures |dp3.outputs[k]| + OciCount(next, k) <= hw.m.cp.channelBufferDepth
    {
      OciCountSnoc(moved, Pending(issued), k);
    }
  }

  /** What the core may do next as a sequential machine: nothing, or one instruction of the program. */
  datatype Choice = Choice(fired: Option<Instruction>, events: Events)

  function Sequentially(m: Machine, pe: Pe, c: Choice): Pe {
    EnvPe(match c.fired case None => pe case Some(i) => Fire(m.alu, pe, i), c.events)
  }

  /**
   * A choice the sequential machine could have made: an eligible instruction, and the highest-priority one
   * when the core sees all its triggers depend on exactly; link traffic only where buffers allow it.
   */
  predicate Allowed(hw: Hardware, pe: Pe, c: Choice) {
    && (c.fired.Some? ==>
          && !pe.dp.halted
          && c.fired.value in hw.m.program
          && Eligible(c.fired.value.trigger, ViewOf(hw.m.cp, pe))
          && (Exact(hw) ==> c.fired == Scheduled(hw.m, pe)))
    && Legal(hw.m.cp, pe.dp, c.events)
  }

  function RunSequentially(m: Machine, pe: Pe, cs: seq<Choice>): Pe
    decreases cs
  {
    if cs == [] then pe else RunSequentially(m, Sequentially(m, pe, cs[0]), cs[1..])
  }

  predicate AllAllowed(hw: Hardware, pe: Pe, cs: seq<Choice>)
    decreases cs
  {
    cs != [] ==> Allowed(hw, pe, cs[0]) && AllAllowed(hw, Sequentially(hw.m, pe, cs[0]), cs[1..])
  }

  lemma AcceptedIsLegal(hw: Hardware, dp: Datapath, es: seq<Entry>, pu: PredicateUnit, c: Cycle)
    requires Sound(hw, dp, es, pu)
    ensures Legal(hw.m.cp, Resolve(hw.m.alu, dp, es, pu).dp, Accepted(hw.m.cp, dp, c))
  {
    ResolveChannels(hw.m.alu, dp, es, pu);
    var result := Resolve(hw.m.alu, dp, es, pu).dp;
    forall k | 0 <= k < |dp.outputs| && Accepted(hw.m.cp, dp, c).drained[k] ensures result.outputs[k] != [] {
      assert dp.outputs[k] <= result.outputs[k];
    }
  }

  // --- The cycle theorem ---

  function Bubbles(n: nat): (r: seq<Entry>)
    ensures |r| == n
  {
    seq(n, _ => Done(Bubble, 0))
  }

  /** Bubbles at the old end of the pipeline stand for nothing. */
  lemma {:induction false} LeadingBubbles(alu: Alu, dp: Datapath, n: nat, es: seq<Entry>, pu: PredicateUnit)
    ensures Resolve(alu, dp, Bubbles(n) + es, pu) == Resolve(alu, dp, es, pu)
    ensures WrongPath(alu, dp, Bubbles(n) + es, pu) == WrongPath(alu, dp, es, pu)
    ensures forall c :: OciCount(Bubbles(n) + es, c) == OciCount(es, c)
    ensures Consistent(pu, Slots(es)) ==> Consistent(pu, Slots(Bubbles(n) + es))
  {
    if n == 0 {
      assert Bubbles(0) + es == es;
    } else {
      hide *;
      LeadingBubbles(alu, dp, n - 1, es, pu);
      OneLeadingBubble(alu, dp, 0, Bubbles(n - 1) + es, pu);
      PeelBubble(n, es);
    }
  }

  lemma PeelBubble(n: nat, es: seq<Entry>)
    requires n > 0
    ensures Bubbles(n) + es == [Done(Bubble, 0)] + (Bubbles(n - 1) + es)
  {
    assert Bubbles(n) == [Done(Bubble, 0)] + Bubbles(n - 1);
  }

  lemma OneLeadingBubble(alu: Alu, dp: Datapath, w: Word, es: seq<Entry>, pu: PredicateUnit)
    ensures
      var fs := [Done(Bubble, w)] + es;
      && Resolve(alu, dp, fs, pu) == Resolve(alu, dp, es, pu)
      && WrongPath(alu, dp, fs, pu) == WrongPath(alu, dp, es, pu)
      && (forall c :: OciCount(fs, c) == OciCount(es, c))
      && (Consistent(pu, Slots(fs)) <==> Consistent(pu, Slots(es)))
  {
    var fs := [Done(Bubble, w)] + es;
    ResolveCons(alu, dp, Done(Bubble, w), es, pu);
    assert fs[1..] == es && fs[0] == Done(Bubble, w);
    assert Slots(fs) == [Bubble] + Slots(es);
    BubbleKeepsConsistency(pu, Slots(es));
  }

  lemma BubbleInFrontOfList(hw: Hardware, es: seq<Entry>)
    requires es != []
    ensures
      var fs := [Done(Bubble, 0)] + es;
      && fs[|fs| - 1] == es[|es| - 1]
      && (Pipelined(fs) <==> Pipelined(es))
      && ((forall k | 0 <= k < |fs| :: FromProgram(hw, fs[k].slot)) <==> (forall k | 0 <= k < |es| :: FromProgram(hw, es[k].slot)))
  {
    hide FromProgram;
    var fs := [Done(Bubble, 0)] + es;
    BubbleIsFromProgram(hw);
    assert forall k | 0 <= k < |es| :: fs[k + 1] == es[k];
    if Pipelined(fs) {
      forall k | 0 <= k < |es| - 1 ensures !es[k].Pending? { assert fs[k + 1] == es[k]; }
    }
    if forall k | 0 <= k < |fs| :: FromProgram(hw, fs[k].slot) {
      forall k | 0 <= k < |es| ensures FromProgram(hw, es[k].slot) { assert fs[k + 1] == es[k]; }
    }
  }

  /** The invariant does not mind whether a bubble in front of the pipeline is counted. */
  lemma BubbleInFront(hw: Hardware, dp: Datapath, es: seq<Entry>, pu: PredicateUnit)
    requires es != []
    ensures Sound(hw, dp, [Done(Bubble, 0)] + es, pu) <==> Sound(hw, dp, es, pu)
  {
    hide Consistent, Resolve, WrongPath, Ready, OciCount, FromProgram, Shaped, Sane, Pipelined, Slots;
    OneLeadingBubble(hw.m.alu, dp, 0, es, pu);
    BubbleInFrontOfList(hw, es);
  }

  lemma BubbleKeepsConsistency(pu: PredicateUnit, slots: seq<Slot>)
    ensures Consistent(pu, [Bubble] + slots) <==> Consistent(pu, slots)
  {
    var all := [Bubble] + slots;
    assert forall k | 0 <= k < |slots| :: all[k + 1] == slots[k];
    if Consistent(pu, all) {
      forall j, k | 0 <= j < k < |slots| && slots[j].WritesPredicate()
        ensures if pu.Plain? then slots[k] == Bubble else Harmless(slots[k])
      {
        assert all[j + 1].WritesPredicate() && all[k + 1] == slots[k];
      }
      if pu.Speculative? && pu.speculating {
        var j :| 0 <= j < |all| && all[j].WritesPredicate();
        assert slots[j - 1].WritesPredicate();
      }
    }
    if Consistent(pu, slots) && pu.Speculative? && pu.speculating {
      var j :| 0 <= j < |slots| && slots[j].WritesPredicate();
      assert all[j + 1].WritesPredicate();
    }
  }

  /** The state of a core after a cycle: the older stages moved up or flushed, and `issued` behind them. */
  function After(miss: bool, moved: seq<Entry>, issued: Slot): seq<Entry> {
    (if miss then Bubbles(|moved|) else moved) + [Pending(issued)]
  }

  /** Everything the cycle theorem needs to know about a core at the start of a cycle. */
  predicate Cyclable(hw: Hardware, dp: Datapath, oldest: Entry, rest: seq<Entry>, pu: PredicateUnit, stages: seq<seq<nat>>,
                     slot: Slot, dp2: Datapath, moved: seq<Entry>) {
    var es := [oldest] + rest;
    && Sound(hw, dp, es, pu) && Covers(dp, es, stages)
    && Advances(hw, dp, oldest, rest, pu, dp2, moved)
    && Dequeued(dp, dp2, es[|rest|].slot.Icd())
    && (slot == Bubble || slot == Triggered(hw, StageView(hw, pu.predicates, dp, es[|rest|].slot.Icd(), stages)))
    && (pu.Plain? && slot != Bubble ==> NoWrites(es))
  }

  /**
   * The theorem all cores instantiate. From any state satisfying the invariant, with any prediction and any
   * link traffic, one cycle preserves the invariant and is exactly one allowed step of the sequential machine.
   */
  lemma CoreCycle(hw: Hardware, dp: Datapath, oldest: Entry, rest: seq<Entry>, pu: PredicateUnit, stages: seq<seq<nat>>,
                  slot: Slot, dp2: Datapath, moved: seq<Entry>, c: Cycle, pe: Pe)
    requires Cyclable(hw, dp, oldest, rest, pu, stages, slot, dp2, moved)
    requires pe == Resolve(hw.m.alu, dp, [oldest] + rest, pu) && !pe.dp.halted
    ensures
      var r := Complete(hw.m.alu, dp, oldest).1;
      var d := oldest.slot.Dest();
      var miss := Miss(pu, d, r != 0);
      var issued := if miss || Override(pu, d, r != 0, slot) then Bubble else slot;
      var wrong := WrongPath(hw.m.alu, dp, [oldest] + rest, pu);
      var choice := Choice(if issued.Busy? && !wrong then Some(issued.i) else None, Accepted(hw.m.cp, dp, c));
      var dp' := Env(dp2, choice.events);
      var pu' := Clock(pu, d, r != 0, slot, c.prediction);
      && Sound(hw, dp', After(miss, moved, issued), pu')
      && Resolve(hw.m.alu, dp', After(miss, moved, issued), pu') == Sequentially(hw.m, pe, choice)
      && Allowed(hw, pe, choice)
      && Follows(miss, issued, wrong, WrongPath(hw.m.alu, dp', After(miss, moved, issued), pu'))
  {
    var alu := hw.m.alu;
    var es := [oldest] + rest;
    var r := Complete(alu, dp, oldest).1;
    var d := oldest.slot.Dest();
    var issued := if Override(pu, d, r != 0, slot) || Miss(pu, d, r != 0) then Bubble else slot;
    assert |es| - 1 == |rest|;
    OfferedIsSafe(hw, dp, es, pu, es[|rest|].slot.Icd(), stages, dp2);
    BubbleIsSafe(hw, dp, es);
    assert |dp2.inputs| == |dp.inputs|;
    hide Sound, Consistent, Resolve, WrongPath, Complete, Settle, Clock, Env, NoWrites, Ready, Possible, Fire,
         Admit, Accepted, Legal, Eligible, ViewOf, StageView, Covers, Dequeued, Advances, Shaped, HasRoom, Scheduled, Allowed, Follows;
    CoreCycleRefines(hw, dp, oldest, rest, pu, slot, dp2, moved, c, pe);
    CoreCycleAllowed(hw, dp, es, pu, stages, slot, issued, c, pe);
    CoreCycleSound(hw, dp, oldest, rest, pu, slot, dp2, moved, c);
  }

  lemma CoreCycleAllowed(hw: Hardware, dp: Datapath, es: seq<Entry>, pu: PredicateUnit, stages: seq<seq<nat>>,
                         slot: Slot, issued: Slot, c: Cycle, pe: Pe)
    requires Sound(hw, dp, es, pu) && Covers(dp, es, stages)
    requires pe == Resolve(hw.m.alu, dp, es, pu) && !pe.dp.halted
    requires slot == Bubble || slot == Triggered(hw, StageView(hw, pu.predicates, dp, es[|es| - 1].slot.Icd(), stages))
    requires pu.Plain? && slot != Bubble ==> NoWrites(es)
    requires issued == Bubble || issued == slot
    ensures
      var wrong := WrongPath(hw.m.alu, dp, es, pu);
      Allowed(hw, pe, Choice(if issued.Busy? && !wrong then Some(issued.i) else None, Accepted(hw.m.cp, dp, c)))
  {
    AcceptedIsLegal(hw, dp, es, pu, c);
    if issued.Busy? && !WrongPath(hw.m.alu, dp, es, pu) {
      OfferedIsScheduled(hw, dp, es, pu, stages, pe);
    }
  }

  lemma CoreCycleRefines(hw: Hardware, dp: Datapath, oldest: Entry, rest: seq<Entry>, pu: PredicateUnit,
                         slot: Slot, dp2: Datapath, moved: seq<Entry>, c: Cycle, pe: Pe)
    requires Sound(hw, dp, [oldest] + rest, pu)
    requires pe == Resolve(hw.m.alu, dp, [oldest] + rest, pu)
    requires Advances(hw, dp, oldest, rest, pu, dp2, moved) && |dp2.inputs| == |dp.inputs|
    requires FromProgram(hw, slot) && (slot.Busy? ==> Ready(dp2, slot.i))
    requires pu.Plain? && slot != Bubble ==> NoWrites([oldest] + rest)
    ensures
      var r := Complete(hw.m.alu, dp, oldest).1;
      var d := oldest.slot.Dest();
      var miss := Miss(pu, d, r != 0);
      var issued := if Override(pu, d, r != 0, slot) || miss then Bubble else slot;
      var wrong := WrongPath(hw.m.alu, dp, [oldest] + rest, pu);
      var choice := Choice(if issued.Busy? && !wrong then Some(issued.i) else None, Accepted(hw.m.cp, dp, c));
      var dp' := Env(dp2, choice.events);
      var pu' := Clock(pu, d, r != 0, slot, c.prediction);
      && Resolve(hw.m.alu, dp', After(miss, moved, issued), pu') == Sequentially(hw.m, pe, choice)
      && Follows(miss, issued, wrong, WrongPath(hw.m.alu, dp', After(miss, moved, issued), pu'))
  {
    var r := Complete(hw.m.alu, dp, oldest).1;
    var d := oldest.slot.Dest();
    var miss := Miss(pu, d, r != 0);
    var issued := if Override(pu, d, r != 0, slot) || miss then Bubble else slot;
    var ev := Accepted(hw.m.cp, dp, c);
    hide Sound, Consistent, Resolve, WrongPath, Complete, Settle, Clock, Env, NoWrites, Ready, Possible, Fire, Accepted, Advances,
         Override, Miss, FromProgram, Follows;
    AcceptedIsPossible(hw, dp, oldest, rest, pu, dp2, moved, c);
    CycleRefines(hw, dp, oldest, rest, pu, dp2, moved, slot, ev, c.prediction);
    LeadingBubbles(hw.m.alu, Env(dp2, ev), |moved|, [Pending(issued)], Clock(pu, d, r != 0, slot, c.prediction));
    assert miss ==> [] + [Pending(issued)] == [Pending(issued)];
  }

  lemma BubbleIsSafe(hw: Hardware, dp: Datapath, es: seq<Entry>)
    ensures HasRoom(hw, dp, es, Bubble)
  {
  }

  lemma AcceptedIsPossible(hw: Hardware, dp: Datapath, oldest: Entry, rest: seq<Entry>, pu: PredicateUnit,
                           dp2: Datapath, moved: seq<Entry>, c: Cycle)
    requires Advances(hw, dp, oldest, rest, pu, dp2, moved) && |dp2.inputs| == |dp.inputs|
    ensures Possible(dp2, Accepted(hw.m.cp, dp, c))
  {
    var dp1 := Complete(hw.m.alu, dp, oldest).0;
    CompleteChannels(hw.m.alu, dp, oldest);
    hide Complete, Resolve, WrongPath, Settle, Miss;
    forall k | 0 <= k < |dp.outputs| && Accepted(hw.m.cp, dp, c).drained[k] ensures dp2.outputs[k] != [] {
      assert dp.outputs[k] <= dp1.outputs[k];
    }
  }

  /** The invariant half of the cycle theorem. */
  lemma CoreCycleSound(hw: Hardware, dp: Datapath, oldest: Entry, rest: seq<Entry>, pu: PredicateUnit,
                       slot: Slot, dp2: Datapath, moved: seq<Entry>, c: Cycle)
    requires Sound(hw, dp, [oldest] + rest, pu)
    requires Advances(hw, dp, oldest, rest, pu, dp2, moved)
    requires Dequeued(dp, dp2, ([oldest] + rest)[|rest|].slot.Icd())
    requires FromProgram(hw, slot) && (slot.Busy? ==> Ready(dp2, slot.i)) && HasRoom(hw, dp, [oldest] + rest, slot)
    requires pu.Plain? && slot != Bubble ==> NoWrites([oldest] + rest)
    ensures
      var r := Complete(hw.m.alu, dp, oldest).1;
      var d := oldest.slot.Dest();
      var miss := Miss(pu, d, r != 0);
      var issued := if Override(pu, d, r != 0, slot) || miss then Bubble else slot;
      Sound(hw, Env(dp2, Accepted(hw.m.cp, dp, c)), After(miss, moved, issued), Clock(pu, d, r != 0, slot, c.prediction))
  {
    var alu := hw.m.alu;
    var es := [oldest] + rest;
    var (dp1, r) := Complete(alu, dp, oldest);
    var d := oldest.slot.Dest();
    var miss := Miss(pu, d, r != 0);
    var issued := if Override(pu, d, r != 0, slot) || miss then Bubble else slot;
    var pu' := Clock(pu, d, r != 0, slot, c.prediction);
    var kept := if miss then Bubbles(|moved|) else moved;
    hide Sound, Consistent, Complete, Settle, Clock, Env, NoWrites, Ready, Accepted, Shaped, Dequeued, HasRoom, Resolve, WrongPath,
         Override, Miss, FromProgram, OciCount, Slots;
    SoundIsConsistent(hw, dp, es, pu);
    SlotsMoved(hw, oldest, rest, moved);
    CreditAfter(hw, dp, oldest, rest, dp2, moved);
    NoCredit(|moved|);
    assert |es| - 1 == |rest|;
    ConsistentAfter(pu, oldest, rest, r != 0, slot, c.prediction, moved);
    BubblesFromProgram(hw, |moved|);
    BubbleIsSafe(hw, dp, es);
    SoundNext(hw, dp, es, pu, c, dp2, kept, issued, pu');
  }

  lemma BubblesFromProgram(hw: Hardware, n: nat)
    ensures forall k | 0 <= k < n :: !Bubbles(n)[k].Pending? && FromProgram(hw, Bubbles(n)[k].slot)
    ensures FromProgram(hw, Bubble)
  {
  }

  lemma {:induction false} NoCredit(n: nat)
    ensures forall c :: OciCount(Bubbles(n), c) == 0
  {
    if n > 0 {
      NoCredit(n - 1);
      assert Bubbles(n)[1..] == Bubbles(n - 1);
    }
  }

  lemma CreditAfter(hw: Hardware, dp: Datapath, oldest: Entry, rest: seq<Entry>, dp2: Datapath, moved: seq<Entry>)
    requires dp2.outputs == Complete(hw.m.alu, dp, oldest).0.outputs && Slots(moved) == Slots(rest)
    ensures |dp2.outputs| == |dp.outputs|
    ensures forall k | 0 <= k < |dp.outputs| :: |dp2.outputs[k]| + OciCount(moved, k) == |dp.outputs[k]| + OciCount([oldest] + rest, k)
  {
    CompleteChannels(hw.m.alu, dp, oldest);
    assert ([oldest] + rest)[1..] == rest;
    forall k | 0 <= k < |dp.outputs| ensures OciCount(moved, k) == OciCount(rest, k) {
      OciCountOfSlots(moved, rest, k);
    }
  }

  lemma ConsistentAfter(pu: PredicateUnit, oldest: Entry, rest: seq<Entry>, value: bool, slot: Slot, prediction: bool, moved: seq<Entry>)
    requires Consistent(pu, Slots([oldest] + rest)) && Slots(moved) == Slots(rest)
    requires pu.Plain? && slot != Bubble ==> NoWrites([oldest] + rest)
    ensures
      var d := oldest.slot.Dest();
      var miss := Miss(pu, d, value);
      var issued := if Override(pu, d, value, slot) || miss then Bubble else slot;
      Consistent(Clock(pu, d, value, slot, prediction), Slots(After(miss, moved, issued)))
  {
    var d := oldest.slot.Dest();
    var miss := Miss(pu, d, value);
    var issued := if Override(pu, d, value, slot) || miss then Bubble else slot;
    var pu' := Clock(pu, d, value, slot, prediction);
    assert Slots([oldest] + rest) == [oldest.slot] + Slots(rest);
    if pu.Plain? && slot != Bubble {
      forall k | 0 <= k < |rest| ensures !Slots(rest)[k].WritesPredicate() { assert ([oldest] + rest)[k + 1] == rest[k]; }
    }
    ClockKeepsConsistency(pu, oldest.slot, Slots(rest), value, slot, prediction);
    if miss {
      forall k | 0 <= k < |moved| + 1 ensures Slots(After(miss, moved, issued))[k] == Bubble { }
    } else {
      assert Slots(After(miss, moved, issued)) == Slots(rest) + [issued];
    }
  }

  // --- Consequences shared by all cores ---

  /** A miss takes back nothing that was done and lets nothing younger leave a mark on storage. */
  lemma MissStorage(hw: Hardware, dp: Datapath, oldest: Entry, rest: seq<Entry>, pu: PredicateUnit, stages: seq<seq<nat>>,
                    slot: Slot, dp2: Datapath, moved: seq<Entry>)
    requires Cyclable(hw, dp, oldest, rest, pu, stages, slot, dp2, moved)
    requires Miss(pu, oldest.slot.Dest(), Complete(hw.m.alu, dp, oldest).1 != 0)
    ensures dp2 == Complete(hw.m.alu, dp, oldest).0
  {
    hide Sound, Covers, Complete, Resolve, WrongPath, Miss, Dequeued, Settle, Shaped, NoWrites, StageView, Triggered;
  }

  /** The channel heads an instruction is about to read are those whose tags its trigger asked for. */
  predicate Matched(dp: Datapath, s: Slot) {
    s.Busy? ==> forall j | 0 <= j < |s.i.trigger.inputChannels| :: HeadMatches(dp, s.i.trigger, j)
  }

  predicate HeadMatches(dp: Datapath, t: Trigger, j: nat)
    requires j < |t.inputChannels|
  {
    var c := t.inputChannels[j];
    && c < |dp.inputs| && dp.inputs[c] != []
    && (j < |t.inputChannelTags| && j < |t.inputChannelTagBooleans| ==>
          (dp.inputs[c][0].tag == t.inputChannelTags[j]) == t.inputChannelTagBooleans[j])
  }

  /** Tag lookahead and the empty status together see the heads as they will be one cycle later. */
  lemma IssuedMatches(hw: Hardware, p: seq<bool>, dp: Datapath, icd: seq<nat>, stages: seq<seq<nat>>, slot: Slot, c: Cycle, dp2: Datapath)
    requires slot == Bubble || slot == Triggered(hw, StageView(hw, p, dp, icd, stages))
    requires dp2.inputs == NextInputs(hw.m.cp.channelBufferDepth, dp.inputs, icd, c.requests)
    ensures Matched(dp2, slot)
  {
    var v := StageView(hw, p, dp, icd, stages);
    hide StageView;
    if slot.Busy? {
      var t := slot.i.trigger;
      forall j | 0 <= j < |t.inputChannels| ensures HeadMatches(dp2, t, j) {
        OneHeadMatches(hw, p, dp, icd, stages, t, c, dp2, j);
      }
    }
  }

  lemma OneHeadMatches(hw: Hardware, p: seq<bool>, dp: Datapath, icd: seq<nat>, stages: seq<seq<nat>>, t: Trigger, c: Cycle, dp2: Datapath, j: nat)
    requires Eligible(t, StageView(hw, p, dp, icd, stages)) && j < |t.inputChannels|
    requires dp2.inputs == NextInputs(hw.m.cp.channelBufferDepth, dp.inputs, icd, c.requests)
    ensures HeadMatches(dp2, t, j)
  {
    var v := StageView(hw, p, dp, icd, stages);
    var k := t.inputChannels[j];
    assert k in t.inputChannels && TagMatches(t, v, j);
    assert k < |v.empty| && !v.empty[k];
    StatusWidth(hw, p, dp, icd, stages);
    InputStatus(hw, p, dp, icd, stages, k);
    var q := PopIf(dp.inputs[k], k in icd);
    assert q <= dp2.inputs[k];
  }

  lemma StatusWidth(hw: Hardware, p: seq<bool>, dp: Datapath, icd: seq<nat>, stages: seq<seq<nat>>)
    ensures |StageView(hw, p, dp, icd, stages).empty| == |dp.inputs|
  {
  }
}

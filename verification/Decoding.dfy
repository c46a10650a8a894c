/**
 * What the hardware reads in an instruction word. Decoding the word the assembler made gives the instruction back, up to
 * the order of lists whose order has no effect, so the selected word makes the datapath do what its instruction says.
 */
module Decoding {
  import opened Bits
  import opened Prelude
  import opened Instructions
  import opened Sequential
  import opened MachineCode
  import opened ProgramBinary
  import opened TriggerResolver

  // --- Fields ---

  /** The set bits of a field, lowest first. */
  function BitsOf(x: nat, n: nat): (r: seq<nat>)
    ensures forall k: nat :: k in r <==> k < n && TestBit(x, k)
  {
    if n == 0 then [] else BitsOf(x, n - 1) + (if TestBit(x, n - 1) then [n - 1] else [])
  }

  function UpdatesTo(b: bool, ks: seq<nat>): (us: seq<PredicateUpdate>)
    ensures forall u :: u in us <==> u.value == b && u.index in ks
  {
    if ks == [] then [] else [PredicateUpdate(ks[0], b)] + UpdatesTo(b, ks[1..])
  }

  function SourceOf(kind: nat, index: nat): Source {
    if kind == 0 then NullSource
    else if kind == 1 then ImmediateSource
    else if kind == 2 then ChannelSource(index)
    else RegisterSource(index)
  }

  function DestinationOf(kind: nat, index: nat): Destination {
    if kind == 0 then NullDestination
    else if kind == 1 then ChannelDestination
    else if kind == 2 then RegisterDestination(index)
    else PredicateDestination(index)
  }

  /** The number of null slots in front of the first one that names a channel. */
  function NullSlots(cp: CoreParameters, t: PackedTrigger, from: nat): (n: nat)
    requires from <= cp.maxNumInputChannelsToCheck
    ensures from <= n <= cp.maxNumInputChannelsToCheck
    decreases cp.maxNumInputChannelsToCheck - from
  {
    if from < cp.maxNumInputChannelsToCheck && Channel(cp, t, from) == 0 then NullSlots(cp, t, from + 1) else from
  }

  function Named(channel: nat): nat {
    if channel == 0 then 0 else channel - 1
  }

  function ChannelsFrom(cp: CoreParameters, t: PackedTrigger, from: nat, count: nat): (cs: seq<nat>)
    ensures |cs| == count && forall j | 0 <= j < count :: cs[j] == Named(Channel(cp, t, from + j))
  {
    if count == 0 then [] else ChannelsFrom(cp, t, from, count - 1) + [Named(Channel(cp, t, from + count - 1))]
  }

  function TagsFrom(cp: CoreParameters, t: PackedTrigger, from: nat, count: nat): (tags: seq<nat>)
    ensures |tags| == count && forall j | 0 <= j < count :: tags[j] == Tag(cp, t, from + j)
  {
    if count == 0 then [] else TagsFrom(cp, t, from, count - 1) + [Tag(cp, t, from + count - 1)]
  }

  function PolaritiesFrom(t: PackedTrigger, from: nat, count: nat): (bs: seq<bool>)
    ensures |bs| == count && forall j | 0 <= j < count :: bs[j] == (Slice(t.ictb, from + j, 1) == 1)
  {
    if count == 0 then [] else PolaritiesFrom(t, from, count - 1) + [Slice(t.ictb, from + count - 1, 1) == 1]
  }

  function UnpackedTrigger(cp: CoreParameters, t: PackedTrigger): Trigger {
    var n, max := cp.numPredicates, cp.maxNumInputChannelsToCheck;
    var nulls := NullSlots(cp, t, 0);
    Trigger(
      BitsOf(Slice(t.ptm, n, n), n), BitsOf(Slice(t.ptm, 0, n), n),
      ChannelsFrom(cp, t, nulls, max - nulls), TagsFrom(cp, t, nulls, max - nulls), PolaritiesFrom(t, nulls, max - nulls),
      BitsOf(t.oci, cp.numOutputChannels))
  }

  /** The entry in place `j` of a field of equally wide entries. */
  function Place(field: nat, width: nat, j: nat): nat {
    Slice(field, width * j, width)
  }

  function SourceAt(cp: CoreParameters, word: nat, j: nat): Source
    requires Padding(cp) >= 0
  {
    SourceOf(Place(Extract(cp, word, 6), SingleStWidth(), j), Place(Extract(cp, word, 7), SingleSiWidth(cp), j))
  }

  function UpdatesIn(cp: CoreParameters, pum: nat): seq<PredicateUpdate> {
    var n := cp.numPredicates;
    UpdatesTo(true, BitsOf(Slice(pum, n, n), n)) + UpdatesTo(false, BitsOf(Slice(pum, 0, n), n))
  }

  /** The instruction in a word of instruction memory. */
  function Decode(cp: CoreParameters, word: nat): Instruction
    requires Padding(cp) >= 0
  {
    Instruction(
      UnpackedTrigger(cp, TriggerOf(cp, word)), Extract(cp, word, 5),
      SourceAt(cp, word, 0), SourceAt(cp, word, 1), SourceAt(cp, word, 2),
      Extract(cp, word, 14), DestinationOf(Extract(cp, word, 8), Extract(cp, word, 9)), Extract(cp, word, 11),
      BitsOf(Extract(cp, word, 12), cp.numInputChannels), UpdatesIn(cp, Extract(cp, word, 13)))
  }

  // --- The same instruction ---

  predicate SameMembers<T(==)>(a: seq<T>, b: seq<T>) {
    (forall x | x in a :: x in b) && forall x | x in b :: x in a
  }

  predicate SameTrigger(t: Trigger, u: Trigger) {
    && SameMembers(t.truePredicates, u.truePredicates) && SameMembers(t.falsePredicates, u.falsePredicates)
    && t.inputChannels == u.inputChannels && t.inputChannelTags == u.inputChannelTags
    && t.inputChannelTagBooleans == u.inputChannelTagBooleans
    && SameMembers(t.outputChannels, u.outputChannels)
  }

  /** Equal up to the order, and repetition, of lists that are used as sets. */
  predicate SameInstruction(i: Instruction, k: Instruction) {
    && SameTrigger(i.trigger, k.trigger)
    && i.op == k.op && i.sourceA == k.sourceA && i.sourceB == k.sourceB && i.sourceC == k.sourceC
    && i.immediate == k.immediate && i.destination == k.destination && i.outputTag == k.outputTag
    && SameMembers(i.dequeues, k.dequeues) && SameMembers(i.updates, k.updates)
  }

  /** A word that makes the hardware execute this instruction; the immediate is what its field can hold. */
  predicate Carries(cp: CoreParameters, word: nat, i: Instruction)
    requires Padding(cp) >= 0
  {
    SameInstruction(Decode(cp, word), i.(immediate := Immediate(cp, i.immediate)))
  }

  // --- Decoding undoes assembling ---

  lemma SourceDecodes(s: Source)
    ensures SourceOf(SourceType(s), SourceIndex(s)) == s
  {
  }

  lemma DestinationDecodes(i: Instruction)
    ensures DestinationOf(DestinationType(i.destination), DestinationIndex(i)) == i.destination
  {
  }

  lemma MaskDecodes(n: nat, s: seq<nat>)
    requires forall k | k in s :: k < n
    ensures SameMembers(BitsOf(Mask(n, s), n), s)
  {
    forall k: nat ensures TestBit(Mask(n, s), k) <==> k < n && k in s { MaskBits(n, s, k); }
    hide Mask, TestBit;
  }

  lemma {:induction false} CountNulls(cp: CoreParameters, t: Trigger, from: nat)
    requires WellFormedTrigger(cp, t) && from <= cp.maxNumInputChannelsToCheck - |t.inputChannels|
    ensures NullSlots(cp, Encoded(cp, t), from) == cp.maxNumInputChannelsToCheck - |t.inputChannels|
    decreases cp.maxNumInputChannelsToCheck - from
  {
    hide Encoded, Channel, Tag, Slice, WellFormedTrigger;
    FewChannels(cp, t);
    if from < cp.maxNumInputChannelsToCheck { SlotsMean(cp, t, from); }
    if from < cp.maxNumInputChannelsToCheck - |t.inputChannels| { CountNulls(cp, t, from + 1); }
  }

  lemma FewChannels(cp: CoreParameters, t: Trigger)
    requires WellFormedTrigger(cp, t)
    ensures |t.inputChannels| == |t.inputChannelTags| == |t.inputChannelTagBooleans| <= cp.maxNumInputChannelsToCheck
  {
  }

  lemma ChannelsDecode(cp: CoreParameters, t: Trigger)
    requires WellFormedTrigger(cp, t)
    ensures
      var u := UnpackedTrigger(cp, Encoded(cp, t));
      && u.inputChannels == t.inputChannels && u.inputChannelTags == t.inputChannelTags
      && u.inputChannelTagBooleans == t.inputChannelTagBooleans
  {
    hide Encoded, Channel, Tag, Slice, BitsOf, WellFormedTrigger, NullSlots, ChannelsFrom, TagsFrom, PolaritiesFrom;
    FewChannels(cp, t);
    CountNulls(cp, t, 0);
    var p, count := Encoded(cp, t), |t.inputChannels|;
    var nulls := cp.maxNumInputChannelsToCheck - count;
    forall j | 0 <= j < count
      ensures ChannelsFrom(cp, p, nulls, count)[j] == t.inputChannels[j] && TagsFrom(cp, p, nulls, count)[j] == t.inputChannelTags[j]
      ensures PolaritiesFrom(p, nulls, count)[j] == t.inputChannelTagBooleans[j]
    {
      SlotsMean(cp, t, nulls + j);
    }
    assert ChannelsFrom(cp, p, nulls, count) == t.inputChannels;
    assert TagsFrom(cp, p, nulls, count) == t.inputChannelTags;
    assert PolaritiesFrom(p, nulls, count) == t.inputChannelTagBooleans;
  }

  lemma PtmHalves(cp: CoreParameters, t: Trigger)
    ensures
      var n := cp.numPredicates;
      Slice(Ptm(cp, t), n, n) == Mask(n, t.truePredicates) && Slice(Ptm(cp, t), 0, n) == Mask(n, t.falsePredicates)
  {
    var n := cp.numPredicates;
    var on, off := Mask(n, t.truePredicates), Mask(n, t.falsePredicates);
    Split(on, n, off);
    SmallMod(on, Pow2(n));
    assert Shr(Shl(on, n) + off, 0) == Shl(on, n) + off;
  }

  lemma EncodedFields(cp: CoreParameters, t: Trigger)
    ensures Encoded(cp, t).ptm == Ptm(cp, t) && Encoded(cp, t).oci == Mask(cp.numOutputChannels, t.outputChannels)
  {
    hide Ptm, Packed, Mask, Slots;
  }

  lemma TriggerInRange(cp: CoreParameters, t: Trigger)
    requires WellFormedTrigger(cp, t)
    ensures forall k | k in t.truePredicates :: k < cp.numPredicates
    ensures forall k | k in t.falsePredicates :: k < cp.numPredicates
    ensures forall k | k in t.outputChannels :: k < cp.numOutputChannels
  {
  }

  lemma TriggerDecodes(cp: CoreParameters, t: Trigger)
    requires WellFormedTrigger(cp, t)
    ensures SameTrigger(UnpackedTrigger(cp, Encoded(cp, t)), t)
  {
    hide Encoded, Channel, Tag, Slice, BitsOf, Mask, Ptm, WellFormedTrigger, SameMembers, NullSlots;
    ChannelsDecode(cp, t);
    PtmHalves(cp, t);
    EncodedFields(cp, t);
    TriggerInRange(cp, t);
    MaskDecodes(cp.numPredicates, t.truePredicates);
    MaskDecodes(cp.numPredicates, t.falsePredicates);
    MaskDecodes(cp.numOutputChannels, t.outputChannels);
  }

  lemma UpdatesDecode(cp: CoreParameters, i: Instruction)
    requires Encodable(cp, i) && Padding(cp) >= 0
    ensures SameMembers(UpdatesIn(cp, Extract(cp, Encode(cp, i), 13)), i.updates)
  {
    hide Encode, Extract, Padding, TestBit, WellFormed, Slice;
    UpdatesInRange(cp, i);
    forall k: nat | k < cp.numPredicates
      ensures
        var pum, n := Extract(cp, Encode(cp, i), 13), cp.numPredicates;
        && (TestBit(Slice(pum, n, n), k) <==> PredicateUpdate(k, true) in i.updates)
        && (TestBit(Slice(pum, 0, n), k) <==> PredicateUpdate(k, false) in i.updates)
    {
      UpdatesRoundTrip(cp, i, k);
    }
    hide Encodable;
    forall u | u in i.updates ensures u == PredicateUpdate(u.index, u.value) && u.index < cp.numPredicates { }
  }

  lemma UpdatesInRange(cp: CoreParameters, i: Instruction)
    requires Encodable(cp, i)
    ensures forall u | u in i.updates :: u.index < cp.numPredicates
    ensures forall c | c in i.dequeues :: c < cp.numInputChannels
    ensures WellFormedTrigger(cp, i.trigger)
  {
  }

  lemma DequeuesDecode(cp: CoreParameters, i: Instruction)
    requires Encodable(cp, i) && Padding(cp) >= 0
    ensures SameMembers(BitsOf(Extract(cp, Encode(cp, i), 12), cp.numInputChannels), i.dequeues)
  {
    UpdatesInRange(cp, i);
    hide Encode, Extract, Padding, TestBit, WellFormed;
    forall c: nat | c < cp.numInputChannels ensures TestBit(Extract(cp, Encode(cp, i), 12), c) <==> c in i.dequeues {
      DequeuesRoundTrip(cp, i, c);
    }
  }

  lemma ScalarFields(cp: CoreParameters, i: Instruction)
    requires Encodable(cp, i) && Padding(cp) >= 0
    ensures
      var word := Encode(cp, i);
      && Extract(cp, word, 5) == i.op && Extract(cp, word, 8) == DestinationType(i.destination)
      && Extract(cp, word, 9) == DestinationIndex(i) && Extract(cp, word, 11) == i.outputTag
      && Extract(cp, word, 14) == Immediate(cp, i.immediate)
  {
    hide Encode, Extract, Padding, Encodable, Ptm, Packed, Mask, Pum, Slots, DestinationIndex, SourceTypes, SourceIndices, Immediate;
    EncodeRoundTrip(cp, i, 5);
    EncodeRoundTrip(cp, i, 8);
    EncodeRoundTrip(cp, i, 9);
    EncodeRoundTrip(cp, i, 11);
    EncodeRoundTrip(cp, i, 14);
  }

  lemma SourcesDecode(cp: CoreParameters, i: Instruction)
    requires Encodable(cp, i) && Padding(cp) >= 0
    ensures SourceAt(cp, Encode(cp, i), 0) == i.sourceA
    ensures SourceAt(cp, Encode(cp, i), 1) == i.sourceB
    ensures SourceAt(cp, Encode(cp, i), 2) == i.sourceC
  {
    hide Encode, Extract, Padding, Encodable, Slice, SourceOf, SourceType, SourceIndex;
    SourcesRoundTrip(cp, i, 0);
    SourcesRoundTrip(cp, i, 1);
    SourcesRoundTrip(cp, i, 2);
    SourceDecodes(i.sourceA);
    SourceDecodes(i.sourceB);
    SourceDecodes(i.sourceC);
  }

  /** The hardware finds the instruction in its word: all of it, for every encodable instruction. */
  lemma DecodeGivesInstruction(cp: CoreParameters, i: Instruction)
    requires Encodable(cp, i) && Padding(cp) >= 0
    ensures Carries(cp, Encode(cp, i), i)
  {
    hide Encode, Extract, Padding, Encodable, UnpackedTrigger, SourceAt, UpdatesIn, BitsOf, SameMembers, SameTrigger, DestinationOf,
         DestinationIndex, DestinationType, Immediate, TriggerOf, Encoded;
    UpdatesInRange(cp, i);
    ScalarFields(cp, i);
    SourcesDecode(cp, i);
    DestinationDecodes(i);
    TriggerOfEncoded(cp, i);
    TriggerDecodes(cp, i.trigger);
    UpdatesDecode(cp, i);
    DequeuesDecode(cp, i);
  }

  /**
   * The immediate field holds the two's complement: the value itself, or for a negative value the value wrapped around
   * the field's range.
   */
  lemma ImmediateIsTwosComplement(cp: CoreParameters, x: int)
    requires cp.immediateWidth <= 32 && Magnitude(x) < Pow2(cp.immediateWidth)
    ensures Immediate(cp, x) == if x >= 0 then x else x + Pow2(cp.immediateWidth)
  {
    var m := Pow2(cp.immediateWidth);
    var q: int := if x >= 0 then 0 else -1;
    ThirtyTwoBits(cp.immediateWidth);
    hide Pow2;
    ModOfMod(x, Pow2(32 - cp.immediateWidth), m);
    ModIs(x, m, q, x - q * m);
  }

  lemma ThirtyTwoBits(w: nat)
    requires w <= 32
    ensures TWO_TO_THE_32 == Pow2(32 - w) * Pow2(w)
  {
    hide Pow2;
    Pow2Sum(32 - w, w);
    Pow2Sum(16, 16);
    Pow2Sum(8, 8);
    EightBits();
  }

  lemma EightBits()
    ensures Pow2(8) == 256
  {
  }

  /** Euclidean division is unique. */
  lemma ModIs(x: int, m: nat, q: int, r: int)
    requires 0 <= r < m && x == q * m + r
    ensures x % m == r
  {
    MultiplesApart(q, x / m, m);
    MultiplesApart(x / m, q, m);
  }

  lemma MultiplesApart(a: int, b: int, m: nat)
    ensures a < b ==> a * m + m <= b * m
  {
    if a < b {
      Multiple(a + 1, b, m);
      assert (a + 1) * m == a * m + m;
    }
  }

  lemma Multiple(a: int, b: int, m: nat)
    requires a <= b
    ensures a * m <= b * m
  {
  }

  lemma ModOfMod(x: int, k: nat, m: nat)
    requires k > 0 && m > 0
    ensures k * m > 0 && (x % (k * m)) % m == x % m
  {
    Multiple(1, k, m);
    var q, s := x / (k * m), x % (k * m);
    var p, r := s / m, s % m;
    assert q * (k * m) == (q * k) * m;
    ModIs(x, m, q * k + p, r);
  }

  // --- What it does ---

  /** Equal but for what the log says was executed. */
  predicate SameButLog(a: Pe, b: Pe) {
    a.(dp := a.dp.(retired := [])) == b.(dp := b.dp.(retired := []))
  }

  lemma SameUpdates(p: seq<bool>, us: seq<PredicateUpdate>, vs: seq<PredicateUpdate>)
    requires SameMembers(us, vs) && Unambiguous(vs)
    ensures AssignUpdates(p, us) == AssignUpdates(p, vs)
  {
    assert forall k: nat :: Sets(us, k) == Sets(vs, k) && Clears(us, k) == Clears(vs, k);
    MaskIsAssignment(p, us);
    MaskIsAssignment(p, vs);
  }

  /** Two words for one instruction trigger alike and do the same. */
  lemma SameInstructionSameEffect(cp: CoreParameters, alu: Alu, i: Instruction, k: Instruction)
    requires SameInstruction(i, k) && WellFormed(cp, k)
    ensures forall v :: Eligible(i.trigger, v) <==> Eligible(k.trigger, v)
    ensures forall pe :: SameButLog(Fire(alu, pe, i), Fire(alu, pe, k))
  {
    DistinctIsUnambiguous(k.updates);
    forall v ensures Eligible(i.trigger, v) <==> Eligible(k.trigger, v) { SameTriggerSameVerdict(i.trigger, k.trigger, v); }
    forall pe ensures SameButLog(Fire(alu, pe, i), Fire(alu, pe, k)) { SameEffect(alu, pe, i, k); }
  }

  lemma SameTriggerSameVerdict(t: Trigger, u: Trigger, v: View)
    requires SameTrigger(t, u)
    ensures Eligible(t, v) <==> Eligible(u, v)
  {
    assert forall j: nat | j < |t.inputChannels| :: TagMatches(t, v, j) == TagMatches(u, v, j);
  }

  lemma SameChannels(queues: seq<seq<Packet>>, a: seq<nat>, b: seq<nat>, p: Packet)
    requires SameMembers(a, b)
    ensures PopChannels(queues, a) == PopChannels(queues, b) && PushChannels(queues, a, p) == PushChannels(queues, b, p)
  {
  }

  lemma SameEffect(alu: Alu, pe: Pe, i: Instruction, k: Instruction)
    requires SameInstruction(i, k) && Unambiguous(k.updates)
    ensures SameButLog(Fire(alu, pe, i), Fire(alu, pe, k))
  {
    var x := ReadOperands(pe.dp, i);
    assert x == ReadOperands(pe.dp, k);
    var r := Compute(alu, pe.dp, i.op, x);
    var p := if i.destination.PredicateDestination? then SetPredicate(pe.predicates, i.destination.index, r != 0) else pe.predicates;
    SameUpdates(p, i.updates, k.updates);
    SameChannels(pe.dp.outputs, i.trigger.outputChannels, k.trigger.outputChannels, Packet(i.outputTag, r));
    SameChannels(pe.dp.inputs, i.dequeues, k.dequeues, Packet(0, 0));
    hide ReadOperands, Compute, AssignUpdates, PopChannels, PushChannels, SameMembers, Put;
  }
}

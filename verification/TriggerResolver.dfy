/**
 * The hardware's trigger resolution: a bank of resolvers on packed trigger fields and a priority encoder. On
 * words the assembler produced it selects exactly the instruction the simulator's ordered search would find.
 */
module TriggerResolver {
  import opened Bits
  import opened Prelude
  import opened Instructions
  import opened MachineCode
  import opened ProgramBinary

  /** The fields of an instruction word that matter to triggering. */
  datatype PackedTrigger = PackedTrigger(vi: bool, ptm: nat, ici: nat, ictb: nat, ictv: nat, oci: nat)

  // --- One resolver ---

  predicate PredicateHolds(cp: CoreParameters, t: PackedTrigger, v: View, k: nat) {
    && (TestBit(Slice(t.ptm, cp.numPredicates, cp.numPredicates), k) ==> k < |v.predicates| && v.predicates[k])
    && (TestBit(Slice(t.ptm, 0, cp.numPredicates), k) ==> k < |v.predicates| && !v.predicates[k])
  }

  function Channel(cp: CoreParameters, t: PackedTrigger, j: nat): nat {
    Slice(t.ici, SingleIciWidth(cp) * j, SingleIciWidth(cp))
  }

  function Tag(cp: CoreParameters, t: PackedTrigger, j: nat): nat {
    Slice(t.ictv, TagWidth(cp) * j, TagWidth(cp))
  }

  /** A slot that names no channel holds by itself. */
  predicate NotEmpty(cp: CoreParameters, t: PackedTrigger, v: View, j: nat) {
    Channel(cp, t, j) != 0 ==>
      var c := Channel(cp, t, j) - 1;
      c < |v.empty| && !v.empty[c]
  }

  predicate TagHolds(cp: CoreParameters, t: PackedTrigger, v: View, j: nat) {
    Channel(cp, t, j) != 0 ==>
      var c := Channel(cp, t, j) - 1;
      c < |v.tags| && (v.tags[c] == Tag(cp, t, j)) == (Slice(t.ictb, j, 1) == 1)
  }

  predicate OutputHolds(t: PackedTrigger, v: View, c: nat) {
    TestBit(t.oci, c) ==> c < |v.full| && !v.full[c]
  }

  predicate Resolves(cp: CoreParameters, t: PackedTrigger, v: View) {
    && t.vi
    && (forall k: nat | k < cp.numPredicates :: PredicateHolds(cp, t, v, k))
    && (forall j: nat | j < cp.maxNumInputChannelsToCheck :: NotEmpty(cp, t, v, j) && TagHolds(cp, t, v, j))
    && (forall c: nat | c < cp.numOutputChannels :: OutputHolds(t, v, c))
  }

  /** The view has the widths of the ports it is read from. */
  predicate Observes(cp: CoreParameters, v: View) {
    && |v.predicates| == cp.numPredicates
    && |v.empty| == |v.tags| == cp.numInputChannels
    && |v.full| == cp.numOutputChannels
  }

  /** The resolver as it is written: one pass over the slots for emptiness, one for tags, and a conjunction. */
  method Resolve(cp: CoreParameters, t: PackedTrigger, v: View) returns (valid: bool)
    requires Observes(cp, v)
    ensures valid == Resolves(cp, t, v)
  {
    hide Slice, TestBit, Clog2, Tag, Channel;
    var max := cp.maxNumInputChannelsToCheck;
    var statusArray, tagsArray := new bool[max], new bool[max];
    for i := 0 to max
      modifies statusArray
      invariant forall j: nat | j < i :: statusArray[j] == NotEmpty(cp, t, v, j)
    {
      var channel := Channel(cp, t, i);
      if channel != 0 {
        statusArray[i] := channel - 1 < |v.empty| && !v.empty[channel - 1];
      } else {
        statusArray[i] := true;
      }
    }
    for i := 0 to max
      modifies tagsArray
      invariant forall j: nat | j < i :: tagsArray[j] == TagHolds(cp, t, v, j)
    {
      var channel := Channel(cp, t, i);
      if channel != 0 {
        var wanted := Slice(t.ictb, i, 1) == 1;
        if channel - 1 < |v.tags| && v.tags[channel - 1] == Tag(cp, t, i) {
          tagsArray[i] := wanted;
        } else {
          tagsArray[i] := channel - 1 < |v.tags| && !wanted;
        }
      } else {
        tagsArray[i] := true;
      }
    }
    assert (forall j: nat | j < max :: statusArray[j]) && (forall j: nat | j < max :: tagsArray[j])
      <==> forall j: nat | j < max :: NotEmpty(cp, t, v, j) && TagHolds(cp, t, v, j) by {
      assert forall j: nat | j < max :: statusArray[j] == NotEmpty(cp, t, v, j);
      assert forall j: nat | j < max :: tagsArray[j] == TagHolds(cp, t, v, j);
      hide NotEmpty, TagHolds;
    }
    valid := t.vi
      && (forall k: nat | k < cp.numPredicates :: PredicateHolds(cp, t, v, k))
      && (forall j: nat | j < max :: statusArray[j])
      && (forall j: nat | j < max :: tagsArray[j])
      && (forall c: nat | c < cp.numOutputChannels :: OutputHolds(t, v, c));
  }

  // --- Encoded triggers ---

  function Encoded(cp: CoreParameters, t: Trigger): PackedTrigger {
    var max := cp.maxNumInputChannelsToCheck;
    PackedTrigger(true, Ptm(cp, t),
      Packed(SingleIciWidth(cp), Slots(max, Incremented(t.inputChannels))),
      Packed(1, Slots(max, AsBits(t.inputChannelTagBooleans))),
      Packed(TagWidth(cp), Slots(max, t.inputChannelTags)),
      Mask(cp.numOutputChannels, t.outputChannels))
  }

  lemma PredicatesMean(cp: CoreParameters, t: Trigger, v: View, k: nat)
    requires k < cp.numPredicates == |v.predicates|
    ensures PredicateHolds(cp, Encoded(cp, t), v, k)
       <==> (k in t.truePredicates ==> v.predicates[k]) && (k in t.falsePredicates ==> !v.predicates[k])
  {
    var n := cp.numPredicates;
    var upper, lower := Mask(n, t.truePredicates), Mask(n, t.falsePredicates);
    Split(upper, n, lower);
    SmallMod(upper, Pow2(n));
    MaskBits(n, t.truePredicates, k);
    MaskBits(n, t.falsePredicates, k);
    assert Slice(Ptm(cp, t), n, n) == upper;
    assert Slice(Ptm(cp, t), 0, n) == lower by { assert Shr(Ptm(cp, t), 0) == Ptm(cp, t); }
    hide Slice, Mask, TestBit, Packed, Slots;
  }

  /** Null slots come first; slot `max - n + i` belongs to the trigger's channel number `i`, in all three fields. */
  lemma SlotsMean(cp: CoreParameters, t: Trigger, j: nat)
    requires WellFormedTrigger(cp, t) && j < cp.maxNumInputChannelsToCheck
    ensures
      var p := Encoded(cp, t);
      var nulls := cp.maxNumInputChannelsToCheck - |t.inputChannels|;
      if j < nulls then Channel(cp, p, j) == 0
      else
        && Channel(cp, p, j) == t.inputChannels[j - nulls] + 1
        && Tag(cp, p, j) == t.inputChannelTags[j - nulls]
        && (Slice(p.ictb, j, 1) == 1) == t.inputChannelTagBooleans[j - nulls]
  {
    var max := cp.maxNumInputChannelsToCheck;
    ChannelFieldsFit(cp, t);
    SlotsFit(SingleIciWidth(cp), max, Incremented(t.inputChannels));
    SlotsFit(1, max, AsBits(t.inputChannelTagBooleans));
    SlotsFit(TagWidth(cp), max, t.inputChannelTags);
    hide Slice, Packed, Mask, Ptm, Fits, WellFormedTrigger;
    SlotOfPacked(SingleIciWidth(cp), Slots(max, Incremented(t.inputChannels)), j);
    SlotOfPacked(1, Slots(max, AsBits(t.inputChannelTagBooleans)), j);
    SlotOfPacked(TagWidth(cp), Slots(max, t.inputChannelTags), j);
    assert 1 * j == j;
  }

  predicate ChannelEligible(t: Trigger, v: View, i: nat)
    requires i < |t.inputChannels|
  {
    && t.inputChannels[i] < |v.empty| && !v.empty[t.inputChannels[i]]
    && TagMatches(t, v, i)
  }

  lemma ChannelsMean(cp: CoreParameters, t: Trigger, v: View)
    requires WellFormedTrigger(cp, t) && Observes(cp, v)
    ensures (forall j: nat | j < cp.maxNumInputChannelsToCheck :: NotEmpty(cp, Encoded(cp, t), v, j) && TagHolds(cp, Encoded(cp, t), v, j))
       <==> forall i: nat | i < |t.inputChannels| :: ChannelEligible(t, v, i)
  {
    hide Encoded, Channel, Slice, Tag;
    var p := Encoded(cp, t);
    var nulls := cp.maxNumInputChannelsToCheck - |t.inputChannels|;
    forall i: nat | i < |t.inputChannels|
      ensures ChannelEligible(t, v, i) <==> NotEmpty(cp, p, v, nulls + i) && TagHolds(cp, p, v, nulls + i)
    {
      SlotsMean(cp, t, nulls + i);
      assert t.inputChannels[i] in t.inputChannels;
    }
    forall j: nat | j < nulls ensures NotEmpty(cp, p, v, j) && TagHolds(cp, p, v, j) {
      SlotsMean(cp, t, j);
    }
    if forall i: nat | i < |t.inputChannels| :: ChannelEligible(t, v, i) {
      forall j: nat | j < cp.maxNumInputChannelsToCheck ensures NotEmpty(cp, p, v, j) && TagHolds(cp, p, v, j) {
        if j >= nulls { assert ChannelEligible(t, v, j - nulls); }
      }
    }
  }

  lemma OutputsMean(cp: CoreParameters, t: Trigger, v: View, c: nat)
    requires c < cp.numOutputChannels == |v.full|
    ensures OutputHolds(Encoded(cp, t), v, c) <==> (c in t.outputChannels ==> !v.full[c])
  {
    MaskBits(cp.numOutputChannels, t.outputChannels, c);
    hide Mask, TestBit, Packed, Ptm, Slots;
  }

  lemma EligibleUnfolds(t: Trigger, v: View)
    ensures Eligible(t, v) <==>
      && (forall k | k in t.truePredicates :: k < |v.predicates| && v.predicates[k])
      && (forall k | k in t.falsePredicates :: k < |v.predicates| && !v.predicates[k])
      && (forall i: nat | i < |t.inputChannels| :: ChannelEligible(t, v, i))
      && (forall c | c in t.outputChannels :: c < |v.full| && !v.full[c])
  {
    if forall i: nat | i < |t.inputChannels| :: ChannelEligible(t, v, i) {
      forall c | c in t.inputChannels ensures c < |v.empty| && !v.empty[c] {
        var i :| 0 <= i < |t.inputChannels| && t.inputChannels[i] == c;
        assert ChannelEligible(t, v, i);
      }
      forall i | 0 <= i < |t.inputChannels| ensures TagMatches(t, v, i) { assert ChannelEligible(t, v, i); }
    }
    if Eligible(t, v) {
      forall i: nat | i < |t.inputChannels| ensures ChannelEligible(t, v, i) {
        assert t.inputChannels[i] in t.inputChannels && TagMatches(t, v, i);
      }
    }
  }

  /** Packing preserves what a trigger means: the resolver on the packed fields and the search agree on every state. */
  lemma EncodedTriggerMeansTrigger(cp: CoreParameters, t: Trigger, v: View)
    requires WellFormedTrigger(cp, t) && Observes(cp, v)
    ensures Resolves(cp, Encoded(cp, t), v) <==> Eligible(t, v)
  {
    EligibleUnfolds(t, v);
    ChannelsMean(cp, t, v);
    assert Encoded(cp, t).vi;
    hide Encoded, NotEmpty, TagHolds, PredicateHolds, OutputHolds, ChannelEligible, Eligible;
    forall k: nat | k < cp.numPredicates
      ensures PredicateHolds(cp, Encoded(cp, t), v, k)
         <==> (k in t.truePredicates ==> v.predicates[k]) && (k in t.falsePredicates ==> !v.predicates[k])
    {
      PredicatesMean(cp, t, v, k);
    }
    forall c: nat | c < cp.numOutputChannels
      ensures OutputHolds(Encoded(cp, t), v, c) <==> (c in t.outputChannels ==> !v.full[c])
    {
      OutputsMean(cp, t, v, c);
    }
  }

  // --- From instruction words ---

  /** The trigger the instruction memory exposes for one of its words. */
  function TriggerOf(cp: CoreParameters, word: nat): PackedTrigger
    requires Padding(cp) >= 0
  {
    PackedTrigger(Extract(cp, word, 0) == 1, Extract(cp, word, 1), Extract(cp, word, 2), Extract(cp, word, 3),
                  Extract(cp, word, 4), Extract(cp, word, 10))
  }

  lemma TriggerOfEncoded(cp: CoreParameters, i: Instruction)
    requires Encodable(cp, i) && Padding(cp) >= 0
    ensures TriggerOf(cp, Encode(cp, i)) == Encoded(cp, i.trigger)
  {
    hide Encode, Extract, Padding, Encodable;
    EncodeRoundTrip(cp, i, 0);
    EncodeRoundTrip(cp, i, 1);
    EncodeRoundTrip(cp, i, 2);
    EncodeRoundTrip(cp, i, 3);
    EncodeRoundTrip(cp, i, 4);
    EncodeRoundTrip(cp, i, 10);
    FieldsOf(cp, i);
  }

  lemma FieldsOf(cp: CoreParameters, i: Instruction)
    ensures
      var vs, p := FieldValues(cp, i), Encoded(cp, i.trigger);
      && vs[0] == 1 && vs[1] == p.ptm && vs[2] == p.ici && vs[3] == p.ictb && vs[4] == p.ictv && vs[10] == p.oci && p.vi
  {
    hide Ptm, Packed, Mask, Pum, Slots, DestinationIndex, SourceTypes, SourceIndices, Immediate;
  }

  lemma ExtractOfZero(cp: CoreParameters)
    requires Padding(cp) >= 0
    ensures Extract(cp, 0, 0) == 0
  {
    hide Slice, Padding, Offset, Widths;
    SliceOfZero(Padding(cp) + Offset(Widths(cp), 0), Widths(cp)[0]);
  }

  /** An empty memory entry is never valid. */
  lemma BlankNeverResolves(cp: CoreParameters, v: View)
    requires Padding(cp) >= 0
    ensures !Resolves(cp, TriggerOf(cp, 0), v)
  {
    hide Extract, Padding, NotEmpty, TagHolds, PredicateHolds, OutputHolds;
    ExtractOfZero(cp);
  }

  // --- Priority encoding ---

  function FirstSet(states: seq<bool>, from: nat): (r: Option<nat>)
    requires from <= |states|
    ensures match r
            case None => forall k | from <= k < |states| :: !states[k]
            case Some(i) => from <= i < |states| && states[i] && forall k | from <= k < i :: !states[k]
    decreases |states| - from
  {
    if from == |states| then None else if states[from] then Some(from) else FirstSet(states, from + 1)
  }

  /** The encoder's loop: a canary index, and the first valid trigger if there is one. */
  method PriorityEncode(states: seq<bool>) returns (valid: bool, index: nat)
    ensures FirstSet(states, 0) == if valid then Some(index) else None
    ensures !valid ==> index == 0
  {
    var putative := |states|;
    for i := 0 to |states|
      invariant putative == |states|
      invariant forall k | 0 <= k < i :: !states[k]
    {
      if states[i] {
        putative := i;
        break;
      }
    }
    if putative == |states| {
      valid, index := false, 0;
    } else {
      valid, index := true, putative;
    }
  }

  // --- A whole program ---

  /** The resolver bank on a loaded instruction memory. */
  function Bank(cp: CoreParameters, words: seq<nat>, v: View): (r: seq<bool>)
    requires Padding(cp) >= 0
    ensures |r| == cp.numInstructions
    ensures forall k | 0 <= k < |r| :: r[k] == Resolves(cp, TriggerOf(cp, Entry(WordsPerInstruction(cp), words, k)), v)
  {
    seq(cp.numInstructions, k requires 0 <= k < cp.numInstructions =>
      Resolves(cp, TriggerOf(cp, Entry(WordsPerInstruction(cp), words, k)), v))
  }

  /** The bank, one resolver after the other. */
  method ResolveAll(cp: CoreParameters, words: seq<nat>, v: View) returns (states: seq<bool>)
    requires Padding(cp) >= 0 && Observes(cp, v)
    ensures states == Bank(cp, words, v)
  {
    hide Resolves, TriggerOf, Entry, Padding, WordsPerInstruction;
    states := [];
    for i := 0 to cp.numInstructions
      invariant |states| == i
      invariant forall k | 0 <= k < i :: states[k] == Bank(cp, words, v)[k]
    {
      var state := Resolve(cp, TriggerOf(cp, Entry(WordsPerInstruction(cp), words, i)), v);
      states := states + [state];
    }
  }

  /**
   * Scheduling agrees. For every program that fits the instruction memory and every architectural state, the
   * hardware selects the instruction the simulator's ordered search finds, and never the padding behind it.
   */
  lemma SchedulingAgrees(cp: CoreParameters, program: seq<Instruction>, v: View)
    requires EncodableProgram(cp, program) && |program| <= cp.numInstructions && Observes(cp, v)
    ensures FirstSet(Bank(cp, Flat(Blocks(cp, program)), v), 0) == FirstMatch(program, v)
  {
    hide Eligible, Flat, Blocks, Encodable, Observes, Resolves, TriggerOf, Entry, Padding;
    var bank := Bank(cp, Flat(Blocks(cp, program)), v);
    forall k | 0 <= k < cp.numInstructions
      ensures bank[k] == (k < |program| && Eligible(program[k].trigger, v))
    {
      EntryResolves(cp, program, v, k);
    }
    SameFirst(program, v, bank);
  }

  lemma EntryResolves(cp: CoreParameters, program: seq<Instruction>, v: View, k: nat)
    requires EncodableProgram(cp, program) && |program| <= cp.numInstructions && Observes(cp, v)
    requires k < cp.numInstructions
    ensures
      Resolves(cp, TriggerOf(cp, Entry(WordsPerInstruction(cp), Flat(Blocks(cp, program)), k)), v)
        == (k < |program| && Eligible(program[k].trigger, v))
  {
    hide Flat, Blocks, Entry, Resolves, TriggerOf, Encode, Eligible, Observes, Padding, WellFormed;
    MemoryHoldsProgram(cp, program, k);
    if k < |program| {
      WellFormedWhenEncodable(cp, program[k]);
      TriggerOfEncoded(cp, program[k]);
      EncodedTriggerMeansTrigger(cp, program[k].trigger, v);
    } else {
      BlankNeverResolves(cp, v);
    }
  }

  lemma WellFormedWhenEncodable(cp: CoreParameters, i: Instruction)
    requires Encodable(cp, i)
    ensures WellFormedTrigger(cp, i.trigger)
  {
  }

  lemma SameFirst(program: seq<Instruction>, v: View, bank: seq<bool>)
    requires |program| <= |bank|
    requires forall k | 0 <= k < |bank| :: bank[k] == (k < |program| && Eligible(program[k].trigger, v))
    ensures FirstSet(bank, 0) == FirstMatch(program, v)
  {
    hide Eligible;
    match FirstMatch(program, v)
    case None =>
    case Some(i) => assert bank[i];
  }
}

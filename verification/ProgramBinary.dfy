/**
 * Whole instruction words and program binaries: fifteen fields and padding in one integer, sliced into 32-bit
 * words and zero-filled to the size of the instruction memory, and how the hardware takes them apart again.
 */
module ProgramBinary {
  import opened Bits
  import opened Prelude
  import opened Instructions
  import opened MachineCode

  // --- Words made of fields ---

  /** Fields of the given widths side by side, the first in the highest bits. */
  function Concat(ws: seq<nat>, vs: seq<nat>): nat
    requires |ws| == |vs|
  {
    if ws == [] then 0
    else
      var n := |ws| - 1;
      Shl(Concat(ws[..n], vs[..n]), ws[n]) + vs[n]
  }

  function Total(ws: seq<nat>): nat {
    if ws == [] then 0 else Total(ws[..|ws| - 1]) + ws[|ws| - 1]
  }

  /** The number of bits below field `j`. */
  function Offset(ws: seq<nat>, j: nat): nat
    requires j < |ws|
  {
    var n := |ws| - 1;
    if j == n then 0 else Offset(ws[..n], j) + ws[n]
  }

  predicate FieldsFit(ws: seq<nat>, vs: seq<nat>) {
    |ws| == |vs| && forall k | 0 <= k < |ws| :: vs[k] < Pow2(ws[k])
  }

  lemma {:induction false} ConcatFits(ws: seq<nat>, vs: seq<nat>)
    requires FieldsFit(ws, vs)
    ensures Concat(ws, vs) < Pow2(Total(ws))
    decreases ws
  {
    if ws != [] {
      var n := |ws| - 1;
      ConcatFits(ws[..n], vs[..n]);
      Joined(Concat(ws[..n], vs[..n]), Total(ws[..n]), vs[n], ws[n]);
    }
  }

  /** Every field is found again at its offset. */
  lemma {:induction false} FieldRoundTrip(ws: seq<nat>, vs: seq<nat>, j: nat)
    requires FieldsFit(ws, vs) && j < |ws|
    ensures Slice(Concat(ws, vs), Offset(ws, j), ws[j]) == vs[j]
    decreases ws
  {
    var n := |ws| - 1;
    var high := Concat(ws[..n], vs[..n]);
    Split(high, ws[n], vs[n]);
    if j == n {
      assert Shr(Concat(ws, vs), 0) == Concat(ws, vs);
    } else {
      FieldRoundTrip(ws[..n], vs[..n], j);
      ShiftDownTwice(Concat(ws, vs), ws[n], Offset(ws[..n], j));
    }
  }

  // --- Instructions ---

  /** Widths of vi, ptm, ici, ictb and ictv. */
  function TriggerWidths(cp: CoreParameters): seq<nat> {
    [1, PtmWidth(cp), IciWidth(cp), cp.maxNumInputChannelsToCheck, IctvWidth(cp)]
  }

  /** Widths of op, st, si, dt and di. */
  function OperationWidths(cp: CoreParameters): seq<nat> {
    [OpWidth(), StWidth(), SiWidth(cp), DtWidth(), DiWidth(cp)]
  }

  /** Widths of oci, oct, icd, pum and immediate. */
  function EffectWidths(cp: CoreParameters): seq<nat> {
    [cp.numOutputChannels, TagWidth(cp), cp.numInputChannels, PtmWidth(cp), cp.immediateWidth]
  }

  function Widths(cp: CoreParameters): (ws: seq<nat>)
    ensures |ws| == 15
  {
    TriggerWidths(cp) + OperationWidths(cp) + EffectWidths(cp)
  }

  function Padding(cp: CoreParameters): int {
    cp.mmInstructionWidth - Total(Widths(cp))
  }

  /** Everything an instruction needs to be assembled without loss. */
  predicate Encodable(cp: CoreParameters, i: Instruction) {
    && WellFormed(cp, i)
    && i.op < NUM_OPS
    && i.outputTag < Max(cp.numTags, 1)
    && Magnitude(i.immediate) < Pow2(cp.immediateWidth)
    && DestinationType(i.destination) < Pow2(DiWidth(cp))
  }

  function TriggerValues(cp: CoreParameters, t: Trigger): seq<nat> {
    var max := cp.maxNumInputChannelsToCheck;
    [1, Ptm(cp, t),
     Packed(SingleIciWidth(cp), Slots(max, Incremented(t.inputChannels))),
     Packed(1, Slots(max, AsBits(t.inputChannelTagBooleans))),
     Packed(TagWidth(cp), Slots(max, t.inputChannelTags))]
  }

  function OperationValues(cp: CoreParameters, i: Instruction): seq<nat> {
    [i.op, Packed(SingleStWidth(), SourceTypes(i)), Packed(SingleSiWidth(cp), SourceIndices(i)),
     DestinationType(i.destination), DestinationIndex(i)]
  }

  function EffectValues(cp: CoreParameters, i: Instruction): seq<nat> {
    [Mask(cp.numOutputChannels, i.trigger.outputChannels), i.outputTag, Mask(cp.numInputChannels, i.dequeues),
     Pum(cp, i.updates), Immediate(cp, i.immediate)]
  }

  function FieldValues(cp: CoreParameters, i: Instruction): (vs: seq<nat>)
    ensures |vs| == 15
  {
    TriggerValues(cp, i.trigger) + OperationValues(cp, i) + EffectValues(cp, i)
  }

  function Encode(cp: CoreParameters, i: Instruction): nat
    requires Padding(cp) >= 0
  {
    Shl(Concat(Widths(cp), FieldValues(cp, i)), Padding(cp))
  }

  // --- Every field fits ---

  lemma ChannelFieldsFit(cp: CoreParameters, t: Trigger)
    requires WellFormedTrigger(cp, t)
    ensures Fits(SingleIciWidth(cp), Incremented(t.inputChannels))
    ensures Fits(1, AsBits(t.inputChannelTagBooleans))
    ensures Fits(TagWidth(cp), t.inputChannelTags)
    ensures |t.inputChannels| == |t.inputChannelTags| == |t.inputChannelTagBooleans| <= cp.maxNumInputChannelsToCheck
  {
    assert Pow2(1) == 2;
    forall k | 0 <= k < |t.inputChannels| ensures Incremented(t.inputChannels)[k] < Pow2(SingleIciWidth(cp)) {
      assert t.inputChannels[k] in t.inputChannels;
    }
    forall k | 0 <= k < |t.inputChannelTags| ensures t.inputChannelTags[k] < Pow2(TagWidth(cp)) {
      assert t.inputChannelTags[k] in t.inputChannelTags;
    }
  }

  lemma SourceFits(cp: CoreParameters, t: Trigger, s: Source)
    requires WellFormedTrigger(cp, t) && SourceInRange(cp, t, s)
    ensures SourceType(s) < Pow2(SingleStWidth())
    ensures SourceIndex(s) < Pow2(SingleSiWidth(cp))
  {
  }

  lemma SourceFieldsFit(cp: CoreParameters, i: Instruction)
    requires WellFormed(cp, i)
    ensures Fits(SingleStWidth(), SourceTypes(i)) && Fits(SingleSiWidth(cp), SourceIndices(i))
  {
    SourceFits(cp, i.trigger, i.sourceA);
    SourceFits(cp, i.trigger, i.sourceB);
    SourceFits(cp, i.trigger, i.sourceC);
  }

  lemma DestinationFits(cp: CoreParameters, i: Instruction)
    requires WellFormed(cp, i)
    ensures DestinationType(i.destination) < Pow2(DtWidth())
    ensures DestinationIndex(i) < Pow2(DiWidth(cp))
  {
    if i.destination.ChannelDestination? && |i.trigger.outputChannels| == 1 {
      assert i.trigger.outputChannels[0] in i.trigger.outputChannels;
    }
  }

  lemma HalvesFit(n: nat, high: nat, low: nat)
    requires high < Pow2(n) && low < Pow2(n)
    ensures Shl(high, n) + low < Pow2(n + n)
  {
    Joined(high, n, low, n);
  }

  lemma TriggerFits(cp: CoreParameters, t: Trigger)
    requires WellFormedTrigger(cp, t)
    ensures FieldsFit(TriggerWidths(cp), TriggerValues(cp, t))
  {
    var max, n := cp.maxNumInputChannelsToCheck, cp.numPredicates;
    assert Pow2(1) == 2;
    ChannelFieldsFit(cp, t);
    hide Packed, Mask, Slots, Pow2, Clog2, WellFormedTrigger, Fits;
    HalvesFit(n, Mask(n, t.truePredicates), Mask(n, t.falsePredicates));
    SlotsFit(SingleIciWidth(cp), max, Incremented(t.inputChannels));
    SlotsFit(1, max, AsBits(t.inputChannelTagBooleans));
    SlotsFit(TagWidth(cp), max, t.inputChannelTags);
  }

  lemma OperationFits(cp: CoreParameters, i: Instruction)
    requires Encodable(cp, i)
    ensures FieldsFit(OperationWidths(cp), OperationValues(cp, i))
  {
    hide Packed, Pow2, Clog2, WellFormed, Fits, SourceTypes, SourceIndices, DestinationIndex, DestinationType;
    SourceFieldsFit(cp, i);
    DestinationFits(cp, i);
    OpFits(i.op);
    ThreeFit(SingleStWidth(), SourceTypes(i));
    ThreeFit(SingleSiWidth(cp), SourceIndices(i));
  }

  lemma OpFits(op: nat)
    requires op < NUM_OPS
    ensures op < Pow2(OpWidth())
  {
  }

  lemma ThreeFit(width: nat, vs: seq<nat>)
    requires |vs| == 3 && Fits(width, vs)
    ensures Packed(width, vs) < Pow2(3 * width)
  {
    PackedFits(width, vs);
    Commutes(3, width);
  }

  lemma EffectFits(cp: CoreParameters, i: Instruction)
    requires Encodable(cp, i)
    ensures FieldsFit(EffectWidths(cp), EffectValues(cp, i))
  {
    var n := cp.numPredicates;
    TagFits(cp, i.outputTag);
    hide Pow2, Clog2, WellFormed, Updated, Magnitude, DestinationType, Shl;
    HalvesFit(n, Mask(n, Updated(i.updates, true)), Mask(n, Updated(i.updates, false)));
  }

  lemma TagFits(cp: CoreParameters, tag: nat)
    requires tag < Max(cp.numTags, 1)
    ensures tag < Pow2(TagWidth(cp))
  {
  }

  lemma FieldsFitAppend(ws: seq<nat>, vs: seq<nat>, xs: seq<nat>, ys: seq<nat>)
    requires FieldsFit(ws, vs) && FieldsFit(xs, ys)
    ensures FieldsFit(ws + xs, vs + ys)
  {
  }

  lemma AllFieldsFit(cp: CoreParameters, i: Instruction)
    requires Encodable(cp, i)
    ensures FieldsFit(Widths(cp), FieldValues(cp, i))
  {
    TriggerFits(cp, i.trigger);
    OperationFits(cp, i);
    EffectFits(cp, i);
    FieldsFitAppend(TriggerWidths(cp), TriggerValues(cp, i.trigger), OperationWidths(cp), OperationValues(cp, i));
    FieldsFitAppend(TriggerWidths(cp) + OperationWidths(cp), TriggerValues(cp, i.trigger) + OperationValues(cp, i),
                    EffectWidths(cp), EffectValues(cp, i));
  }

  // --- Building a word ---

  /** Shift the accumulator and OR the next field in. */
  method Append(word: nat, ghost ws: seq<nat>, ghost vs: seq<nat>, width: nat, value: nat) returns (next: nat)
    requires |ws| == |vs| && word == Concat(ws, vs) && value < Pow2(width)
    ensures next == Concat(ws + [width], vs + [value])
  {
    OrFills(word, width, value);
    next := Or(Shl(word, width), value);
    assert (ws + [width])[..|ws|] == ws && (vs + [value])[..|vs|] == vs;
  }

  method AppendFive(start: nat, ghost ws: seq<nat>, ghost vs: seq<nat>, w: seq<nat>, v: seq<nat>) returns (word: nat)
    requires |ws| == |vs| && start == Concat(ws, vs)
    requires |w| == |v| == 5 && FieldsFit(w, v)
    ensures word == Concat(ws + w, vs + v)
  {
    hide Pow2, Concat;
    word := Append(start, ws, vs, w[0], v[0]);
    word := Append(word, ws + [w[0]], vs + [v[0]], w[1], v[1]);
    word := Append(word, ws + [w[0]] + [w[1]], vs + [v[0]] + [v[1]], w[2], v[2]);
    word := Append(word, ws + [w[0]] + [w[1]] + [w[2]], vs + [v[0]] + [v[1]] + [v[2]], w[3], v[3]);
    word := Append(word, ws + [w[0]] + [w[1]] + [w[2]] + [w[3]], vs + [v[0]] + [v[1]] + [v[2]] + [v[3]], w[4], v[4]);
    assert ws + [w[0]] + [w[1]] + [w[2]] + [w[3]] + [w[4]] == ws + w;
    assert vs + [v[0]] + [v[1]] + [v[2]] + [v[3]] + [v[4]] == vs + v;
  }

  /** The trigger's fields pass the assembler's checks. */
  predicate TriggerAssembles(cp: CoreParameters, t: Trigger) {
    var max := cp.maxNumInputChannelsToCheck;
    && (forall p | p in t.truePredicates + t.falsePredicates :: p < cp.numPredicates)
    && |t.inputChannels| <= max && SlotWord(SingleIciWidth(cp), max, Incremented(t.inputChannels)) < Pow2(IciWidth(cp))
    && BooleanField(cp, t.inputChannels, t.inputChannelTagBooleans).Ok?
    && |t.inputChannelTags| <= max && SlotWord(TagWidth(cp), max, t.inputChannelTags) < Pow2(IctvWidth(cp))
  }

  /** The field values of a trigger that passes them, well formed or not. */
  function TriggerWords(cp: CoreParameters, t: Trigger): seq<nat>
    requires TriggerAssembles(cp, t)
  {
    var max := cp.maxNumInputChannelsToCheck;
    [1, Ptm(cp, t), SlotWord(SingleIciWidth(cp), max, Incremented(t.inputChannels)),
     BooleanField(cp, t.inputChannels, t.inputChannelTagBooleans).value, SlotWord(TagWidth(cp), max, t.inputChannelTags)]
  }

  predicate OperationAssembles(cp: CoreParameters, i: Instruction) {
    && i.op < Pow2(OpWidth())
    && TripleWord(SingleStWidth(), SourceTypes(i)) < Pow2(StWidth())
    && TripleWord(SingleSiWidth(cp), SourceIndices(i)) < Pow2(SiWidth(cp))
    && DestinationType(i.destination) < Pow2(DiWidth(cp))
    && DestinationIndex(i) < Pow2(DiWidth(cp))
  }

  function OperationWords(cp: CoreParameters, i: Instruction): seq<nat> {
    [i.op, TripleWord(SingleStWidth(), SourceTypes(i)), TripleWord(SingleSiWidth(cp), SourceIndices(i)),
     DestinationType(i.destination), DestinationIndex(i)]
  }

  predicate EffectsAssemble(cp: CoreParameters, i: Instruction) {
    && i.outputTag < Pow2(TagWidth(cp))
    && (forall u | u in i.updates :: u.index < cp.numPredicates)
    && Magnitude(i.immediate) < Pow2(cp.immediateWidth)
  }

  /** Every check of the assembler passes, and the fields leave room in the memory-mapped word. */
  predicate Assembles(cp: CoreParameters, i: Instruction) {
    TriggerAssembles(cp, i.trigger) && OperationAssembles(cp, i) && EffectsAssemble(cp, i) && Padding(cp) >= 0
  }

  /** The word of an instruction that passes them. */
  function AssembledWord(cp: CoreParameters, i: Instruction): nat
    requires Assembles(cp, i)
  {
    ThreeGroups(cp, i);
    Shl(Concat(Widths(cp), TriggerWords(cp, i.trigger) + OperationWords(cp, i) + EffectValues(cp, i)), Padding(cp))
  }

  lemma ThreeGroups(cp: CoreParameters, i: Instruction)
    requires TriggerAssembles(cp, i.trigger)
    ensures |Widths(cp)| == |TriggerWords(cp, i.trigger) + OperationWords(cp, i) + EffectValues(cp, i)|
  {
  }

  /** vi and the fields the trigger resolver reads, except oci. */
  lemma OneBit()
    ensures 1 < Pow2(1)
  {
  }

  method BuildTrigger(cp: CoreParameters, t: Trigger) returns (r: Assembled<seq<nat>>)
    ensures r.Ok? <==> TriggerAssembles(cp, t)
    ensures r.Ok? ==> r.value == TriggerWords(cp, t) && FieldsFit(TriggerWidths(cp), r.value)
  {
    hide Mask, Packed, Pow2, Clog2, Accumulated, SlotWord, SlotBits, Fits, Slots, Shl, BooleanField, SingleIciWidth, TagWidth;
    OneBit();
    assert forall p :: p in t.truePredicates + t.falsePredicates <==> p in t.truePredicates || p in t.falsePredicates;
    var ptm := BuildPtm(cp, t);
    if ptm.Err? { return Err(ptm.error); }
    HalvesFit(cp.numPredicates, Mask(cp.numPredicates, t.truePredicates), Mask(cp.numPredicates, t.falsePredicates));
    var ici := BuildIci(cp, t.inputChannels);
    if ici.Err? { return Err(ici.error); }
    var ictb := BuildIctb(cp, t.inputChannels, t.inputChannelTagBooleans);
    if ictb.Err? { return Err(ictb.error); }
    var ictv := BuildIctv(cp, t.inputChannelTags);
    if ictv.Err? { return Err(ictv.error); }
    r := Ok([1, ptm.value, ici.value, ictb.value, ictv.value]);
  }

  /** The fields that describe the operation and its operands. */
  method BuildOperation(cp: CoreParameters, i: Instruction) returns (r: Assembled<seq<nat>>)
    ensures r.Ok? <==> OperationAssembles(cp, i)
    ensures r.Ok? ==> r.value == OperationWords(cp, i) && FieldsFit(OperationWidths(cp), r.value)
  {
    DestinationTypeFits(i);
    hide Packed, Pow2, Clog2, Fits, SourceTypes, SourceIndices, DestinationType, DestinationIndex, TripleWord;
    var op := Check(i.op, OpWidth());
    if op.Err? { return Err(op.error); }
    var st := BuildTriple(SingleStWidth(), SourceTypes(i));
    if st.Err? { return Err(st.error); }
    var si := BuildTriple(SingleSiWidth(cp), SourceIndices(i));
    if si.Err? { return Err(si.error); }
    var dt := BuildDt(cp, i.destination);
    if dt.Err? { return Err(dt.error); }
    var di := Check(DestinationIndex(i), DiWidth(cp));
    if di.Err? { return Err(di.error); }
    r := Ok([op.value, st.value, si.value, dt.value, di.value]);
  }

  lemma DestinationTypeFits(i: Instruction)
    ensures DestinationType(i.destination) < Pow2(DtWidth())
  {
  }

  /** The fields that describe what the instruction changes. */
  method BuildEffects(cp: CoreParameters, i: Instruction) returns (r: Assembled<seq<nat>>)
    ensures r.Ok? <==> EffectsAssemble(cp, i)
    ensures r.Ok? ==> r.value == EffectValues(cp, i) && FieldsFit(EffectWidths(cp), r.value)
  {
    hide Pow2, Clog2, Updated, Narrow, Shl;
    var n := cp.numPredicates;
    var oci := BuildChannelSet(cp.numOutputChannels, i.trigger.outputChannels);
    var tag := Check(i.outputTag, TagWidth(cp));
    if tag.Err? { return Err(tag.error); }
    var icd := BuildChannelSet(cp.numInputChannels, i.dequeues);
    var pum := BuildPum(cp, i.updates);
    if pum.Err? { return Err(pum.error); }
    HalvesFit(n, Mask(n, Updated(i.updates, true)), Mask(n, Updated(i.updates, false)));
    var immediate := BuildImmediate(cp, i.immediate);
    if immediate.Err? { return Err(immediate.error); }
    r := Ok([oci.value, tag.value, icd.value, pum.value, immediate.value]);
  }

  /** Encodable instructions pass every check, and their fields are then what they should be. */
  lemma EncodableAssembles(cp: CoreParameters, i: Instruction)
    requires Encodable(cp, i) && Padding(cp) >= 0
    ensures Assembles(cp, i) && AssembledWord(cp, i) == Encode(cp, i)
  {
    TriggerAssemblesWell(cp, i.trigger);
    OperationAssemblesWell(cp, i);
    TagFits(cp, i.outputTag);
    hide TriggerWords, OperationWords, TriggerValues, OperationValues, EffectValues, TriggerAssembles, OperationAssembles, Shl, Concat, Widths;
  }

  lemma TriggerAssemblesWell(cp: CoreParameters, t: Trigger)
    requires WellFormedTrigger(cp, t)
    ensures TriggerAssembles(cp, t) && TriggerWords(cp, t) == TriggerValues(cp, t)
  {
    var max := cp.maxNumInputChannelsToCheck;
    ChannelFieldsFit(cp, t);
    assert Pow2(1) == 2;
    hide Mask, Packed, Pow2, Clog2, Accumulated, Fits, Slots, Shl;
    SlotWordIsPacked(SingleIciWidth(cp), max, Incremented(t.inputChannels));
    SlotWordIsPacked(1, max, AsBits(t.inputChannelTagBooleans));
    SlotWordIsPacked(TagWidth(cp), max, t.inputChannelTags);
    assert SlotWord(1, max, AsBits(t.inputChannelTagBooleans))
        == Shl(Accumulated(1, AsBits(t.inputChannelTagBooleans), |t.inputChannels|, |t.inputChannels|), max - |t.inputChannels|);
  }

  lemma OperationAssemblesWell(cp: CoreParameters, i: Instruction)
    requires Encodable(cp, i)
    ensures OperationAssembles(cp, i) && OperationWords(cp, i) == OperationValues(cp, i)
  {
    SourceFieldsFit(cp, i);
    DestinationFits(cp, i);
    OpFits(i.op);
    hide Packed, Pow2, Clog2, Fits, SourceTypes, SourceIndices, DestinationType, DestinationIndex, TripleWord, WellFormed;
    TripleIsPacked(SingleStWidth(), SourceTypes(i));
    TripleIsPacked(SingleSiWidth(cp), SourceIndices(i));
  }

  /** The whole instruction word, left-aligned in its memory-mapped slot; rejected exactly if a check fails. */
  method BuildInstruction(cp: CoreParameters, i: Instruction) returns (r: Assembled<nat>)
    ensures r.Ok? <==> Assembles(cp, i)
    ensures r.Ok? ==> r.value == AssembledWord(cp, i)
    ensures Encodable(cp, i) && Padding(cp) >= 0 ==> r == Ok(Encode(cp, i))
  {
    if Encodable(cp, i) && Padding(cp) >= 0 { EncodableAssembles(cp, i); }
    hide Encodable, Encode;
    var trigger := BuildTrigger(cp, i.trigger);
    if trigger.Err? { return Err(trigger.error); }
    var operation := BuildOperation(cp, i);
    if operation.Err? { return Err(operation.error); }
    var effects := BuildEffects(cp, i);
    if effects.Err? { return Err(effects.error); }
    if Padding(cp) < 0 { return Err(NegativeShift); }
    hide FieldsFit, TriggerWords, OperationWords, EffectValues, TriggerWidths, OperationWidths, EffectWidths, Shl, Concat,
         TriggerAssembles, OperationAssembles, EffectsAssemble;
    FiveEach(cp, trigger.value, operation.value, effects.value);
    EmptyWord();
    assert [] + TriggerWidths(cp) == TriggerWidths(cp) && [] + trigger.value == trigger.value;
    var word := AppendFive(0, [], [], TriggerWidths(cp), trigger.value);
    word := AppendFive(word, TriggerWidths(cp), trigger.value, OperationWidths(cp), operation.value);
    word := AppendFive(word, TriggerWidths(cp) + OperationWidths(cp), trigger.value + operation.value, EffectWidths(cp), effects.value);
    return Ok(Shl(word, Padding(cp)));
  }

  lemma EmptyWord()
    ensures Concat([], []) == 0
  {
  }

  lemma FiveEach(cp: CoreParameters, a: seq<nat>, b: seq<nat>, c: seq<nat>)
    requires FieldsFit(TriggerWidths(cp), a) && FieldsFit(OperationWidths(cp), b) && FieldsFit(EffectWidths(cp), c)
    ensures |TriggerWidths(cp)| == |OperationWidths(cp)| == |EffectWidths(cp)| == |a| == |b| == |c| == 5
  {
  }

  // --- Taking a word apart ---

  /** Field `j` of a memory-mapped instruction word. */
  function Extract(cp: CoreParameters, word: nat, j: nat): nat
    requires j < 15 && Padding(cp) >= 0
  {
    Slice(word, Padding(cp) + Offset(Widths(cp), j), Widths(cp)[j])
  }

  /** The hardware finds in every field what the assembler put there. */
  lemma EncodeRoundTrip(cp: CoreParameters, i: Instruction, j: nat)
    requires Encodable(cp, i) && Padding(cp) >= 0 && j < 15
    ensures Extract(cp, Encode(cp, i), j) == FieldValues(cp, i)[j]
  {
    hide FieldsFit, FieldValues, Widths, Concat, Offset, Shr, Total, WellFormed;
    AllFieldsFit(cp, i);
    FieldRoundTrip(Widths(cp), FieldValues(cp, i), j);
    PaddingIsBelow(Concat(Widths(cp), FieldValues(cp, i)), Padding(cp), Offset(Widths(cp), j));
  }

  lemma PaddingIsBelow(x: nat, padding: nat, lo: nat)
    ensures Shr(Shl(x, padding), padding + lo) == Shr(x, lo)
  {
    ShiftDownTwice(Shl(x, padding), padding, lo);
    Split(x, padding, 0);
  }

  /** Instructions with different fields get different words, and every word fits its slot. */
  lemma EncodeInjective(cp: CoreParameters, i: Instruction, k: Instruction)
    requires Encodable(cp, i) && Encodable(cp, k) && Padding(cp) >= 0
    ensures Encode(cp, i) < Pow2(cp.mmInstructionWidth)
    ensures Encode(cp, i) == Encode(cp, k) ==> FieldValues(cp, i) == FieldValues(cp, k)
  {
    hide FieldsFit, FieldValues, Widths, Concat, Shl, Total, WellFormed, Extract;
    AllFieldsFit(cp, i);
    AllFieldsFit(cp, k);
    ConcatFits(Widths(cp), FieldValues(cp, i));
    Joined(Concat(Widths(cp), FieldValues(cp, i)), Total(Widths(cp)), 0, Padding(cp));
    if Encode(cp, i) == Encode(cp, k) {
      forall j | 0 <= j < 15 ensures FieldValues(cp, i)[j] == FieldValues(cp, k)[j] {
        EncodeRoundTrip(cp, i, j);
        EncodeRoundTrip(cp, k, j);
      }
    }
  }

  /** Sources are recovered slot by slot, the first operand in the lowest slot. */
  lemma SourcesRoundTrip(cp: CoreParameters, i: Instruction, j: nat)
    requires Encodable(cp, i) && Padding(cp) >= 0 && j < 3
    ensures Slice(Extract(cp, Encode(cp, i), 6), SingleStWidth() * j, SingleStWidth()) == SourceTypes(i)[j]
    ensures Slice(Extract(cp, Encode(cp, i), 7), SingleSiWidth(cp) * j, SingleSiWidth(cp)) == SourceIndices(i)[j]
  {
    SourceFieldsFit(cp, i);
    hide Encode, Extract, Padding, WellFormed, SourceTypes, SourceIndices, Slice, Packed, Clog2, Pow2, Fits;
    EncodeRoundTrip(cp, i, 6);
    EncodeRoundTrip(cp, i, 7);
    MiddleFields(cp, i);
    SlotOfPacked(SingleStWidth(), SourceTypes(i), j);
    SlotOfPacked(SingleSiWidth(cp), SourceIndices(i), j);
  }

  lemma MiddleFields(cp: CoreParameters, i: Instruction)
    ensures FieldValues(cp, i)[6] == Packed(SingleStWidth(), SourceTypes(i))
    ensures FieldValues(cp, i)[7] == Packed(SingleSiWidth(cp), SourceIndices(i))
    ensures FieldValues(cp, i)[12] == Mask(cp.numInputChannels, i.dequeues)
    ensures FieldValues(cp, i)[13] == Pum(cp, i.updates)
  {
    hide Packed, Mask, Ptm, Pum, Immediate, SourceTypes, SourceIndices;
  }

  /** The dequeue field has a bit per dequeued channel. */
  lemma DequeuesRoundTrip(cp: CoreParameters, i: Instruction, c: nat)
    requires Encodable(cp, i) && Padding(cp) >= 0 && c < cp.numInputChannels
    ensures TestBit(Extract(cp, Encode(cp, i), 12), c) <==> c in i.dequeues
  {
    hide Encode, Extract, Padding, Mask, TestBit, WellFormed;
    EncodeRoundTrip(cp, i, 12);
    MiddleFields(cp, i);
    MaskBits(cp.numInputChannels, i.dequeues, c);
  }

  lemma PumHalves(cp: CoreParameters, us: seq<PredicateUpdate>)
    ensures
      var n := cp.numPredicates;
      Slice(Pum(cp, us), n, n) == Mask(n, Updated(us, true)) && Slice(Pum(cp, us), 0, n) == Mask(n, Updated(us, false))
  {
    var n := cp.numPredicates;
    var on, off := Mask(n, Updated(us, true)), Mask(n, Updated(us, false));
    Split(on, n, off);
    SmallMod(on, Pow2(n));
    assert Shr(Shl(on, n) + off, 0) == Shl(on, n) + off;
  }

  /** The update field has a bit per predicate set above a bit per predicate cleared. */
  lemma UpdatesRoundTrip(cp: CoreParameters, i: Instruction, k: nat)
    requires Encodable(cp, i) && Padding(cp) >= 0 && k < cp.numPredicates
    ensures
      var pum, n := Extract(cp, Encode(cp, i), 13), cp.numPredicates;
      && (TestBit(Slice(pum, n, n), k) <==> PredicateUpdate(k, true) in i.updates)
      && (TestBit(Slice(pum, 0, n), k) <==> PredicateUpdate(k, false) in i.updates)
  {
    hide Encode, Extract, Padding, Mask, TestBit, WellFormed, Slice, Updated, Pum, FieldValues;
    EncodeRoundTrip(cp, i, 13);
    MiddleFields(cp, i);
    PumHalves(cp, i.updates);
    MaskBits(cp.numPredicates, Updated(i.updates, true), k);
    MaskBits(cp.numPredicates, Updated(i.updates, false), k);
    UpdatedContains(i.updates, true, k);
    UpdatedContains(i.updates, false, k);
  }

  // --- Program binaries ---

  function WordsPerInstruction(cp: CoreParameters): nat {
    cp.mmInstructionWidth / 32
  }

  /** An instruction as 32-bit words, lowest first. */
  function Words(n: nat, word: nat): (r: seq<nat>)
    ensures |r| == n && forall k | 0 <= k < n :: r[k] == Slice(word, 32 * k, 32)
  {
    seq(n, k requires 0 <= k < n => Slice(word, 32 * k, 32))
  }

  lemma {:induction false} ShrRemainder(x: nat, n: nat) returns (r: nat)
    ensures r < Pow2(n) && x == Shl(Shr(x, n), n) + r
    decreases n
  {
    if n == 0 {
      r := 0;
    } else {
      var half := ShrRemainder(x / 2, n - 1);
      r := 2 * half + x % 2;
      assert Shl(Shr(x, n), n) == 2 * Shl(Shr(x / 2, n - 1), n - 1);
    }
  }

  lemma LowPart(x: nat, n: nat)
    ensures x == Slice(x, 0, n) + Shl(Shr(x, n), n)
  {
    var r := ShrRemainder(x, n);
    Split(Shr(x, n), n, r);
  }

  lemma HighPartFits(x: nat, n: nat, m: nat)
    requires x < Pow2(m + n)
    ensures Shr(x, n) < Pow2(m)
  {
    var r := ShrRemainder(x, n);
    Pow2Sum(m, n);
    if Shr(x, n) >= Pow2(m) { Scaled(Pow2(m), Shr(x, n), Pow2(n)); }
  }

  lemma WordsTail(n: nat, word: nat)
    requires n > 0
    ensures Words(n, word)[1..] == Words(n - 1, Shr(word, 32))
  {
    forall k | 0 <= k < n - 1 ensures Words(n, word)[1..][k] == Words(n - 1, Shr(word, 32))[k] {
      ShiftDownTwice(word, 32, 32 * k);
    }
  }

  /** Recombining the 32-bit words gives the integer back. */
  lemma {:induction false} WordsRecombine(n: nat, word: nat)
    requires word < Pow2(32 * n)
    ensures Packed(32, Words(n, word)) == word
    decreases n
  {
    hide Pow2, Slice, Shr, Shl;
    if n == 0 {
      NoBits(word);
    } else {
      LowPart(word, 32);
      assert 32 * n == 32 * (n - 1) + 32;
      HighPartFits(word, 32, 32 * (n - 1));
      WordsTail(n, word);
      WordsRecombine(n - 1, Shr(word, 32));
    }
  }

  lemma NoBits(word: nat)
    requires word < Pow2(0)
    ensures word == 0
  {
  }

  /** A memory-mapped slot holds whole words and every field of the format. */
  predicate ValidFormat(cp: CoreParameters) {
    Padding(cp) >= 0 && cp.mmInstructionWidth % 32 == 0
  }

  predicate EncodableProgram(cp: CoreParameters, program: seq<Instruction>) {
    ValidFormat(cp) && forall k | 0 <= k < |program| :: Encodable(cp, program[k])
  }

  /** The contents of instruction memory, one block of words per entry: the program, then zeros. */
  function Blocks(cp: CoreParameters, program: seq<Instruction>): (r: seq<seq<nat>>)
    requires ValidFormat(cp)
    ensures |r| == Max(|program|, cp.numInstructions)
    ensures forall k | 0 <= k < |r| :: |r[k]| == WordsPerInstruction(cp)
  {
    BlocksOf(WordsPerInstruction(cp), seq(|program|, k requires 0 <= k < |program| => Encode(cp, program[k])),
             Max(|program|, cp.numInstructions))
  }

  function BlocksOf(n: nat, assembled: seq<nat>, count: nat): (r: seq<seq<nat>>)
    ensures |r| == count
    ensures forall k | 0 <= k < count :: r[k] == if k < |assembled| then Words(n, assembled[k]) else Zeros(n)
  {
    seq(count, k requires 0 <= k < count => if k < |assembled| then Words(n, assembled[k]) else Zeros(n))
  }

  function Flat(blocks: seq<seq<nat>>): seq<nat> {
    if blocks == [] then [] else Flat(blocks[..|blocks| - 1]) + blocks[|blocks| - 1]
  }

  lemma FlatSnoc(blocks: seq<seq<nat>>, i: nat)
    requires i < |blocks|
    ensures Flat(blocks[..i + 1]) == Flat(blocks[..i]) + blocks[i]
  {
    assert blocks[..i + 1][..i] == blocks[..i];
  }

  /** The assembler's second pass: slice every instruction into 32-bit words. */
  method SliceWords(n: nat, assembled: seq<nat>, ghost blocks: seq<seq<nat>>) returns (words: seq<nat>)
    requires |assembled| <= |blocks| && forall k | 0 <= k < |assembled| :: blocks[k] == Words(n, assembled[k])
    ensures words == Flat(blocks[..|assembled|])
  {
    hide Flat, Slice;
    words := [];
    FlatOfNothing(blocks);
    for i := 0 to |assembled|
      invariant words == Flat(blocks[..i])
    {
      var sliced: seq<nat> := [];
      for k := 0 to n
        invariant |sliced| == k
        invariant forall j | 0 <= j < k :: sliced[j] == Slice(assembled[i], 32 * j, 32)
      {
        sliced := sliced + [Slice(assembled[i], 32 * k, 32)];
      }
      assert sliced == Words(n, assembled[i]);
      FlatSnoc(blocks, i);
      words := words + sliced;
    }
  }

  lemma FlatOfNothing(blocks: seq<seq<nat>>)
    ensures Flat(blocks[..0]) == []
  {
  }

  /** The assembler's first pass. */
  predicate AllAssemble(cp: CoreParameters, program: seq<Instruction>) {
    forall k | 0 <= k < |program| :: Assembles(cp, program[k])
  }

  function AssembledWords(cp: CoreParameters, program: seq<Instruction>): (r: seq<nat>)
    requires AllAssemble(cp, program)
    ensures |r| == |program| && forall k | 0 <= k < |r| :: r[k] == AssembledWord(cp, program[k])
  {
    seq(|program|, k requires 0 <= k < |program| => AssembledWord(cp, program[k]))
  }

  method AssembleAll(cp: CoreParameters, program: seq<Instruction>) returns (r: Assembled<seq<nat>>)
    ensures r.Ok? <==> AllAssemble(cp, program)
    ensures r.Ok? ==> r.value == AssembledWords(cp, program)
  {
    hide Assembles, AssembledWord, Encodable, Encode;
    var assembled: seq<nat> := [];
    for i := 0 to |program|
      invariant |assembled| == i
      invariant forall k | 0 <= k < i :: Assembles(cp, program[k]) && assembled[k] == AssembledWord(cp, program[k])
    {
      var word := BuildInstruction(cp, program[i]);
      if word.Err? { return Err(word.error); }
      assembled := assembled + [word.value];
    }
    return Ok(assembled);
  }

  /** Fill the rest of the instruction memory with empty instructions. */
  method AppendBlanks(words: seq<nat>, n: nat, from: nat, count: nat, ghost blocks: seq<seq<nat>>) returns (all: seq<nat>)
    requires from <= |blocks| == count && words == Flat(blocks[..from])
    requires forall k | from <= k < |blocks| :: blocks[k] == Zeros(n)
    ensures all == Flat(blocks)
  {
    hide Flat;
    all := words;
    for e := from to count
      invariant all == Flat(blocks[..e])
    {
      FlatSnoc(blocks, e);
      all := all + Zeros(n);
    }
    assert blocks[..|blocks|] == blocks;
  }

  /** Initial register values and instructions, as words. */
  datatype Binary = Binary(registers: seq<nat>, instructions: seq<nat>)

  lemma EncodableBlocks(cp: CoreParameters, program: seq<Instruction>)
    requires EncodableProgram(cp, program)
    ensures AllAssemble(cp, program)
    ensures BlocksOf(WordsPerInstruction(cp), AssembledWords(cp, program), Max(|program|, cp.numInstructions)) == Blocks(cp, program)
  {
    hide Assembles, AssembledWord, Encodable, Encode, Words;
    forall k | 0 <= k < |program| ensures Assembles(cp, program[k]) && AssembledWord(cp, program[k]) == Encode(cp, program[k]) {
      EncodableAssembles(cp, program[k]);
    }
    assert AssembledWords(cp, program) == seq(|program|, k requires 0 <= k < |program| => Encode(cp, program[k]));
  }

  /** The program binary: register words, then every instruction's words in order, then empty instructions. */
  method BuildProgramBinary(cp: CoreParameters, wordWidth: nat, registerValues: seq<int>, program: seq<Instruction>)
    returns (r: Assembled<Binary>)
    ensures cp.mmInstructionWidth % 32 != 0 ==> r == Err(MisalignedInstructionWidth)
    ensures r.Ok? <==> cp.mmInstructionWidth % 32 == 0 && AllAssemble(cp, program)
    ensures r.Ok? ==>
      && |r.value.registers| == |registerValues|
      && (forall k | 0 <= k < |registerValues| :: r.value.registers[k] == (registerValues[k] % 0x1_0000_0000) % Pow2(wordWidth))
      && r.value.instructions
           == Flat(BlocksOf(WordsPerInstruction(cp), AssembledWords(cp, program), Max(|program|, cp.numInstructions)))
    ensures EncodableProgram(cp, program) ==> r.Ok? && r.value.instructions == Flat(Blocks(cp, program))
  {
    var registers := BuildRegisterWords(wordWidth, registerValues);
    if EncodableProgram(cp, program) { EncodableBlocks(cp, program); }
    if cp.mmInstructionWidth % 32 != 0 { return Err(MisalignedInstructionWidth); }
    var n := WordsPerInstruction(cp);
    hide EncodableProgram, AllAssemble, Words, Flat, Blocks, Pow2, WordsPerInstruction;
    var assembled := AssembleAll(cp, program);
    if assembled.Err? { return Err(assembled.error); }
    var count := Max(|program|, cp.numInstructions);
    ghost var blocks := BlocksOf(n, assembled.value, count);
    var words := SliceWords(n, assembled.value, blocks);
    words := AppendBlanks(words, n, |program|, count, blocks);
    return Ok(Binary(registers, words));
  }

  // --- Instruction memory ---

  /** Instruction `k` of a memory loaded with a program binary. */
  function Entry(n: nat, words: seq<nat>, k: nat): nat {
    if k * n + n <= |words| then Packed(32, words[k * n..k * n + n]) else 0
  }

  lemma {:induction false} FlatAt(blocks: seq<seq<nat>>, n: nat, k: nat)
    requires k < |blocks| && forall j | 0 <= j < |blocks| :: |blocks[j]| == n
    ensures |Flat(blocks)| == |blocks| * n
    ensures k * n + n <= |Flat(blocks)| && Flat(blocks)[k * n..k * n + n] == blocks[k]
    decreases blocks
  {
    var last := |blocks| - 1;
    Successor(|blocks|, n);
    FlatLast(blocks);
    hide Flat;
    if last == 0 {
    } else if k == last {
      FlatAt(blocks[..last], n, last - 1);
      SliceOfSum(Flat(blocks[..last]), blocks[last], k * n, n);
    } else {
      FlatAt(blocks[..last], n, k);
      SliceOfSum(Flat(blocks[..last]), blocks[last], k * n, n);
    }
  }

  lemma FlatLast(blocks: seq<seq<nat>>)
    requires blocks != []
    ensures Flat(blocks) == Flat(blocks[..|blocks| - 1]) + blocks[|blocks| - 1]
    ensures |blocks| == 1 ==> Flat(blocks) == blocks[0]
  {
    assert |blocks| == 1 ==> Flat(blocks[..0]) == [];
  }

  lemma SliceOfSum(a: seq<nat>, b: seq<nat>, lo: nat, n: nat)
    ensures lo + n <= |a| ==> (a + b)[lo..lo + n] == a[lo..lo + n]
    ensures lo == |a| && n == |b| ==> (a + b)[lo..lo + n] == b
  {
  }

  /** A loaded memory holds the program's instruction words, then zeros. */
  lemma MemoryHoldsProgram(cp: CoreParameters, program: seq<Instruction>, k: nat)
    requires EncodableProgram(cp, program)
    requires k < Max(|program|, cp.numInstructions)
    ensures Entry(WordsPerInstruction(cp), Flat(Blocks(cp, program)), k)
         == if k < |program| then Encode(cp, program[k]) else 0
  {
    var n := WordsPerInstruction(cp);
    hide Encodable, Encode, Padding, Flat, Pow2, Packed;
    FlatAt(Blocks(cp, program), n, k);
    if k < |program| {
      WordIsWide(cp, program[k]);
      WordsRecombine(n, Encode(cp, program[k]));
    } else {
      PackedZeros(n);
    }
  }

  lemma WordIsWide(cp: CoreParameters, i: Instruction)
    requires Encodable(cp, i) && ValidFormat(cp)
    ensures Encode(cp, i) < Pow2(32 * WordsPerInstruction(cp))
  {
    EncodeInjective(cp, i, i);
    assert 32 * WordsPerInstruction(cp) == cp.mmInstructionWidth;
  }

  lemma PackedZeros(n: nat)
    ensures Packed(32, Zeros(n)) == 0
  {
    PackedAbove(32, n, []);
    assert Zeros(n) + [] == Zeros(n);
  }
}

/**
 * The instruction word as the hardware declares it: a packed struct whose members have their own positions and widths,
 * computed here from the hardware's parameters. The assembler puts every field exactly where the hardware looks for it.
 */
module Layout {
  import opened Bits
  import opened Prelude
  import opened Instructions
  import opened MachineCode
  import opened ProgramBinary
  import opened TriggerResolver
  import Decoding

  // --- The hardware's parameters ---

  const TIA_NUM_OPS: nat := 63
  const TIA_NUM_SOURCE_TYPES: nat := 4
  const TIA_SOURCE_TYPE_NULL: nat := 0
  const TIA_SOURCE_TYPE_IMMEDIATE: nat := 1
  const TIA_SOURCE_TYPE_CHANNEL: nat := 2
  const TIA_SOURCE_TYPE_REGISTER: nat := 3
  const TIA_NUM_DESTINATION_TYPES: nat := 4
  const TIA_DESTINATION_TYPE_NULL: nat := 0
  const TIA_DESTINATION_TYPE_CHANNEL: nat := 1
  const TIA_DESTINATION_TYPE_REGISTER: nat := 2
  const TIA_DESTINATION_TYPE_PREDICATE: nat := 3

  function SourceCode(s: Source): nat {
    match s
    case NullSource => TIA_SOURCE_TYPE_NULL
    case ImmediateSource => TIA_SOURCE_TYPE_IMMEDIATE
    case ChannelSource(_) => TIA_SOURCE_TYPE_CHANNEL
    case RegisterSource(_) => TIA_SOURCE_TYPE_REGISTER
  }

  function DestinationCode(d: Destination): nat {
    match d
    case NullDestination => TIA_DESTINATION_TYPE_NULL
    case ChannelDestination => TIA_DESTINATION_TYPE_CHANNEL
    case RegisterDestination(_) => TIA_DESTINATION_TYPE_REGISTER
    case PredicateDestination(_) => TIA_DESTINATION_TYPE_PREDICATE
  }

  // --- The packed struct ---

  /** A member of a packed struct, by its lowest bit and its width. */
  datatype Member = Member(lsb: nat, width: nat) {
    predicate Holds(word: nat, value: nat) {
      Slice(word, lsb, width) == value
    }

    /** Entry `j` of a member that is an array of equally wide entries, the first in the lowest bits. */
    predicate HoldsAt(word: nat, entry: nat, j: nat, value: nat) {
      Slice(word, lsb + entry * j, entry) == value
    }
  }

  datatype InstructionStruct = InstructionStruct(
    vi: Member, ptm: Member, ici: Member, ictb: Member, ictv: Member,
    op: Member, st: Member, si: Member, dt: Member, di: Member,
    oci: Member, oct: Member, icd: Member, pum: Member, immediate: Member)
  {
    function Members(): (r: seq<Member>)
      ensures |r| == 15
    {
      [vi, ptm, ici, ictb, ictv, op, st, si, dt, di, oci, oct, icd, pum, immediate]
    }
  }

  function Larger(a: nat, b: nat): (r: nat)
    ensures r >= a && r >= b && (r == a || r == b)
  {
    if a > b then a else b
  }

  function IciEntry(cp: CoreParameters): nat { Clog2(cp.numInputChannels + 1) }
  function TagBits(cp: CoreParameters): nat { Clog2(cp.numTags) }
  function StEntry(): nat { Clog2(TIA_NUM_SOURCE_TYPES) }
  function SiEntry(cp: CoreParameters): nat { Clog2(Larger(cp.numRegisters, cp.numInputChannels)) }
  function OpBits(): nat { Clog2(TIA_NUM_OPS) }
  function DtBits(): nat { Clog2(TIA_NUM_DESTINATION_TYPES) }
  function DiBits(cp: CoreParameters): nat {
    Clog2(Larger(Larger(cp.numRegisters, cp.numOutputChannels), cp.numPredicates))
  }
  function ArrayBits(entries: nat, entry: nat): nat { entries * entry }
  function IciBits(cp: CoreParameters): nat { ArrayBits(cp.maxNumInputChannelsToCheck, IciEntry(cp)) }
  function IctvBits(cp: CoreParameters): nat { ArrayBits(cp.maxNumInputChannelsToCheck, TagBits(cp)) }
  function MaskPairBits(cp: CoreParameters): nat { cp.numPredicates + cp.numPredicates }
  function StBits(): nat { ArrayBits(3, StEntry()) }
  function SiBits(cp: CoreParameters): nat { ArrayBits(3, SiEntry(cp)) }

  /** The physical width of an instruction. */
  function InstructionBits(cp: CoreParameters): nat {
    1 + MaskPairBits(cp) + IciBits(cp) + cp.maxNumInputChannelsToCheck + IctvBits(cp) + OpBits() + StBits() + SiBits(cp)
    + DtBits() + DiBits(cp) + cp.numOutputChannels + TagBits(cp) + cp.numInputChannels + MaskPairBits(cp) + cp.immediateWidth
  }

  /** The memory-mapped instruction, from its last declared member up; padding fills the word from below. */
  function Struct(cp: CoreParameters): InstructionStruct
    requires InstructionBits(cp) <= cp.mmInstructionWidth
  {
    Stacked(cp, cp.mmInstructionWidth - InstructionBits(cp))
  }

  /** Every member begins where the one declared after it ends. */
  function Stacked(cp: CoreParameters, paddingBits: nat): InstructionStruct {
    var immediate := paddingBits;
    var pum := immediate + cp.immediateWidth;
    var icd := pum + MaskPairBits(cp);
    var oct := icd + cp.numInputChannels;
    var oci := oct + TagBits(cp);
    var di := oci + cp.numOutputChannels;
    var dt := di + DiBits(cp);
    var si := dt + DtBits();
    var st := si + SiBits(cp);
    var op := st + StBits();
    var ictv := op + OpBits();
    var ictb := ictv + IctvBits(cp);
    var ici := ictb + cp.maxNumInputChannelsToCheck;
    var ptm := ici + IciBits(cp);
    var vi := ptm + MaskPairBits(cp);
    InstructionStruct(
      Member(vi, 1), Member(ptm, MaskPairBits(cp)), Member(ici, IciBits(cp)), Member(ictb, cp.maxNumInputChannelsToCheck),
      Member(ictv, IctvBits(cp)), Member(op, OpBits()), Member(st, StBits()), Member(si, SiBits(cp)), Member(dt, DtBits()),
      Member(di, DiBits(cp)), Member(oci, cp.numOutputChannels), Member(oct, TagBits(cp)), Member(icd, cp.numInputChannels),
      Member(pum, MaskPairBits(cp)), Member(immediate, cp.immediateWidth))
  }

  // --- Widths ---

  /** Wide enough for that many codes, and not wider. */
  predicate LeastWidth(width: nat, codes: nat) {
    codes <= Pow2(width) && (width > 0 ==> Pow2(width - 1) < codes)
  }

  /** Every code of the assembler's format has the least width that holds its codes. */
  lemma CodeWidthsAreLeast(cp: CoreParameters)
    ensures LeastWidth(OpWidth(), TIA_NUM_OPS)
    ensures LeastWidth(SingleStWidth(), TIA_NUM_SOURCE_TYPES) && LeastWidth(DtWidth(), TIA_NUM_DESTINATION_TYPES)
    ensures LeastWidth(SingleIciWidth(cp), cp.numInputChannels + 1) && LeastWidth(TagWidth(cp), cp.numTags)
    ensures LeastWidth(SingleSiWidth(cp), Larger(cp.numRegisters, cp.numInputChannels))
    ensures LeastWidth(DiWidth(cp), Larger(Larger(cp.numRegisters, cp.numOutputChannels), cp.numPredicates))
  {
    hide *;
    FixedWidths();
    WidthsAreLogarithms(cp);
    Clog2IsLeast(TIA_NUM_OPS);
    Clog2IsLeast(TIA_NUM_SOURCE_TYPES);
    Clog2IsLeast(TIA_NUM_DESTINATION_TYPES);
    Clog2IsLeast(cp.numInputChannels + 1);
    Clog2IsLeast(cp.numTags);
    Clog2IsLeast(Larger(cp.numRegisters, cp.numInputChannels));
    Clog2IsLeast(Larger(Larger(cp.numRegisters, cp.numOutputChannels), cp.numPredicates));
  }

  lemma FixedWidths()
    ensures OpWidth() == Clog2(TIA_NUM_OPS)
    ensures SingleStWidth() == Clog2(TIA_NUM_SOURCE_TYPES) && DtWidth() == Clog2(TIA_NUM_DESTINATION_TYPES)
  {
    hide Clog2;
  }

  lemma WidthsAreLogarithms(cp: CoreParameters)
    ensures SingleIciWidth(cp) == Clog2(cp.numInputChannels + 1) && TagWidth(cp) == Clog2(cp.numTags)
    ensures SingleSiWidth(cp) == Clog2(Larger(cp.numRegisters, cp.numInputChannels))
    ensures DiWidth(cp) == Clog2(Larger(Larger(cp.numRegisters, cp.numOutputChannels), cp.numPredicates))
  {
    hide Clog2;
  }

  lemma Clog2IsLeast(codes: nat)
    ensures LeastWidth(Clog2(codes), codes)
  {
  }

  // --- Positions ---

  lemma {:induction false} OffsetStep(ws: seq<nat>, j: nat)
    requires j + 1 < |ws|
    ensures Offset(ws, j) == Offset(ws, j + 1) + ws[j + 1]
    decreases ws
  {
    var n := |ws| - 1;
    if j + 1 < n { OffsetStep(ws[..n], j); }
  }

  lemma {:induction false} TotalIsAbove(ws: seq<nat>)
    requires ws != []
    ensures Total(ws) == Offset(ws, 0) + ws[0]
    decreases ws
  {
    var n := |ws| - 1;
    if n > 0 { TotalIsAbove(ws[..n]); }
  }

  function FieldBits(cp: CoreParameters): (r: seq<nat>)
    ensures |r| == 15
  {
    [1, MaskPairBits(cp), IciBits(cp), cp.maxNumInputChannelsToCheck, IctvBits(cp), OpBits(), StBits(), SiBits(cp),
     DtBits(), DiBits(cp), cp.numOutputChannels, TagBits(cp), cp.numInputChannels, MaskPairBits(cp), cp.immediateWidth]
  }

  lemma SameWidths(cp: CoreParameters)
    ensures Widths(cp) == FieldBits(cp)
  {
    hide TriggerWidths, OperationWidths, EffectWidths, MaskPairBits, IciBits, IctvBits, OpBits, StBits, SiBits, DtBits, DiBits, TagBits;
    SameTriggerWidths(cp);
    SameOperationWidths(cp);
    SameEffectWidths(cp);
  }

  lemma SameEffectWidths(cp: CoreParameters)
    ensures EffectWidths(cp) == [cp.numOutputChannels, TagBits(cp), cp.numInputChannels, MaskPairBits(cp), cp.immediateWidth]
  {
    hide Clog2;
  }

  lemma SameTriggerWidths(cp: CoreParameters)
    ensures TriggerWidths(cp) == [1, MaskPairBits(cp), IciBits(cp), cp.maxNumInputChannelsToCheck, IctvBits(cp)]
  {
    hide Clog2;
  }

  lemma SameOperationWidths(cp: CoreParameters)
    ensures OperationWidths(cp) == [OpBits(), StBits(), SiBits(cp), DtBits(), DiBits(cp)]
  {
    hide Clog2;
  }

  lemma StackUp(ws: seq<nat>)
    requires |ws| == 15
    ensures Offset(ws, 14) == 0 && forall j | 0 <= j < 14 :: Offset(ws, j) == Offset(ws, j + 1) + ws[j + 1]
    ensures Total(ws) == Offset(ws, 0) + ws[0]
  {
    forall j | 0 <= j < 14 ensures Offset(ws, j) == Offset(ws, j + 1) + ws[j + 1] { OffsetStep(ws, j); }
    TotalIsAbove(ws);
  }

  /** Every field of the assembler lies where the struct has the member of its name. */
  lemma FieldsAreMembers(cp: CoreParameters)
    ensures Padding(cp) == cp.mmInstructionWidth - InstructionBits(cp)
    ensures Padding(cp) >= 0 ==>
      forall j | 0 <= j < 15 :: Struct(cp).Members()[j] == Member(Padding(cp) + Offset(Widths(cp), j), Widths(cp)[j])
  {
    var ws := Widths(cp);
    SameWidths(cp);
    StackUp(ws);
    Sums(cp, ws, seq(15, j requires 0 <= j < 15 => Offset(ws, j)));
  }

  lemma Sums(cp: CoreParameters, ws: seq<nat>, o: seq<nat>)
    requires |ws| == |o| == 15 && o[14] == 0 && forall j | 0 <= j < 14 :: o[j] == o[j + 1] + ws[j + 1]
    requires ws == FieldBits(cp)
    ensures o[0] + ws[0] == InstructionBits(cp)
    ensures forall padding: nat, j | 0 <= j < 15 :: Stacked(cp, padding).Members()[j] == Member(padding + o[j], ws[j])
  {
    hide MaskPairBits, IciBits, IctvBits, OpBits, StBits, SiBits, DtBits, DiBits, TagBits, Stacked, InstructionBits;
    Steps(o, ws);
    StackedSums(cp, o, ws);
  }

  lemma Steps(o: seq<nat>, ws: seq<nat>)
    requires |ws| == |o| == 15 && o[14] == 0 && forall j | 0 <= j < 14 :: o[j] == o[j + 1] + ws[j + 1]
    ensures StepsUp(o, ws)
  {
  }

  predicate StepsUp(o: seq<nat>, ws: seq<nat>) {
    && |ws| == |o| == 15 && o[14] == 0
    && o[13] == o[14] + ws[14] && o[12] == o[13] + ws[13] && o[11] == o[12] + ws[12] && o[10] == o[11] + ws[11]
    && o[9] == o[10] + ws[10] && o[8] == o[9] + ws[9] && o[7] == o[8] + ws[8] && o[6] == o[7] + ws[7]
    && o[5] == o[6] + ws[6] && o[4] == o[5] + ws[5] && o[3] == o[4] + ws[4] && o[2] == o[3] + ws[3]
    && o[1] == o[2] + ws[2] && o[0] == o[1] + ws[1]
  }

  lemma StackedSums(cp: CoreParameters, o: seq<nat>, ws: seq<nat>)
    requires StepsUp(o, ws) && ws == FieldBits(cp)
    ensures o[0] + ws[0] == InstructionBits(cp)
    ensures forall padding: nat, j | 0 <= j < 15 :: Stacked(cp, padding).Members()[j] == Member(padding + o[j], ws[j])
  {
    hide MaskPairBits, IciBits, IctvBits, OpBits, StBits, SiBits, DtBits, DiBits, TagBits;
  }

  /** Reading a field reads exactly the member's bits. */
  lemma ExtractReadsMember(cp: CoreParameters, word: nat, j: nat, k: nat)
    requires Padding(cp) >= 0 && j < 15
    ensures InstructionBits(cp) <= cp.mmInstructionWidth
    ensures
      var member := Struct(cp).Members()[j];
      member.Holds(word, Extract(cp, word, j))
      && (TestBit(Extract(cp, word, j), k) <==> k < member.width && TestBit(word, member.lsb + k))
  {
    FieldsAreMembers(cp);
    hide Stacked, Widths, Offset, InstructionBits, Slice, TestBit;
    var member := Struct(cp).Members()[j];
    TestBitSlice(word, member.lsb, member.width, k);
  }

  // --- What the assembler puts where ---

  /** Where the hardware looks for a trigger it finds the trigger of the instruction. */
  ghost predicate TriggerFound(cp: CoreParameters, s: InstructionStruct, word: nat, t: Trigger) {
    var n, nulls := cp.numPredicates, cp.maxNumInputChannelsToCheck - |t.inputChannels|;
    && |t.inputChannels| == |t.inputChannelTags| == |t.inputChannelTagBooleans|
    && TestBit(word, s.vi.lsb)
    && (forall k: nat | k < n :: TestBit(word, s.ptm.lsb + n + k) <==> k in t.truePredicates)
    && (forall k: nat | k < n :: TestBit(word, s.ptm.lsb + k) <==> k in t.falsePredicates)
    && (forall j: nat | j < nulls :: s.ici.HoldsAt(word, IciEntry(cp), j, 0))
    && (forall slot: nat | nulls <= slot < cp.maxNumInputChannelsToCheck :: SlotFound(cp, s, word, t, slot))
    && (forall c: nat | c < cp.numOutputChannels :: TestBit(word, s.oci.lsb + c) <==> c in t.outputChannels)
  }

  /** A slot behind the null slots holds channel, tag and polarity of one of the trigger's channels. */
  predicate SlotFound(cp: CoreParameters, s: InstructionStruct, word: nat, t: Trigger, slot: nat)
    requires |t.inputChannels| == |t.inputChannelTags| == |t.inputChannelTagBooleans|
  {
    var j := slot - (cp.maxNumInputChannelsToCheck - |t.inputChannels|);
    0 <= j < |t.inputChannels| ==>
      && s.ici.HoldsAt(word, IciEntry(cp), slot, t.inputChannels[j] + 1)
      && s.ictv.HoldsAt(word, TagBits(cp), slot, t.inputChannelTags[j])
      && (TestBit(word, s.ictb.lsb + slot) <==> t.inputChannelTagBooleans[j])
  }

  /** And where it looks for the operation, its sources and its destination it finds those. */
  predicate OperationFound(cp: CoreParameters, s: InstructionStruct, word: nat, i: Instruction) {
    && s.op.Holds(word, i.op)
    && SourceFound(cp, s, word, i.sourceA, 0) && SourceFound(cp, s, word, i.sourceB, 1) && SourceFound(cp, s, word, i.sourceC, 2)
    && s.dt.Holds(word, DestinationCode(i.destination))
    && (match i.destination
        case NullDestination => s.di.Holds(word, 0)
        case ChannelDestination => |i.trigger.outputChannels| == 1 ==> s.di.Holds(word, i.trigger.outputChannels[0])
        case RegisterDestination(k) => s.di.Holds(word, k)
        case PredicateDestination(k) => s.di.Holds(word, k))
  }

  predicate SourceFound(cp: CoreParameters, s: InstructionStruct, word: nat, source: Source, operand: nat) {
    && s.st.HoldsAt(word, StEntry(), operand, SourceCode(source))
    && match source
       case ChannelSource(k) => s.si.HoldsAt(word, SiEntry(cp), operand, k)
       case RegisterSource(k) => s.si.HoldsAt(word, SiEntry(cp), operand, k)
       case _ => true
  }

  /** And its effects. */
  ghost predicate EffectsFound(cp: CoreParameters, s: InstructionStruct, word: nat, i: Instruction) {
    var n := cp.numPredicates;
    && s.oct.Holds(word, i.outputTag)
    && (forall c: nat | c < cp.numInputChannels :: TestBit(word, s.icd.lsb + c) <==> c in i.dequeues)
    && (forall k: nat | k < n :: TestBit(word, s.pum.lsb + n + k) <==> PredicateUpdate(k, true) in i.updates)
    && (forall k: nat | k < n :: TestBit(word, s.pum.lsb + k) <==> PredicateUpdate(k, false) in i.updates)
    && s.immediate.Holds(word, Immediate(cp, i.immediate))
  }

  /** The assembler and the hardware agree on every bit of an instruction. */
  lemma AssemblerFillsStruct(cp: CoreParameters, i: Instruction)
    requires Encodable(cp, i) && Padding(cp) >= 0
    ensures InstructionBits(cp) <= cp.mmInstructionWidth
    ensures TriggerFound(cp, Struct(cp), Encode(cp, i), i.trigger)
    ensures OperationFound(cp, Struct(cp), Encode(cp, i), i)
    ensures EffectsFound(cp, Struct(cp), Encode(cp, i), i)
  {
    hide *;
    FieldsAreMembers(cp);
    TriggerIsFound(cp, i);
    OperationIsFound(cp, i);
    EffectsAreFound(cp, i);
  }

  /** Entries of a field are entries of the member. */
  lemma MemberEntry(m: Member, word: nat, field: nat, entries: nat, entry: nat, at: nat, x: nat)
    requires m.Holds(word, field) && m.width == ArrayBits(entries, entry) && at < entries
    requires Decoding.Place(field, entry, at) == x
    ensures m.HoldsAt(word, entry, at, x)
  {
    EntryFits(entries, entry, at);
    hide Slice, ArrayBits;
    SliceOfSlice(word, m.lsb, m.width, entry * at, entry);
  }

  lemma EntryFits(entries: nat, entry: nat, at: nat)
    requires at < entries
    ensures entry * at + entry <= ArrayBits(entries, entry)
  {
    Scale(entry, at, entries);
    assert ArrayBits(entries, entry) == entry * entries;
  }

  lemma MemberBit(m: Member, word: nat, field: nat, k: nat)
    requires m.Holds(word, field) && k < m.width
    ensures TestBit(field, k) <==> TestBit(word, m.lsb + k)
  {
    hide Slice, TestBit;
    TestBitSlice(word, m.lsb, m.width, k);
  }

  /** The two halves of a mask field. */
  lemma MemberHalves(m: Member, word: nat, field: nat, n: nat, k: nat)
    requires m.Holds(word, field) && m.width == n + n && k < n
    ensures TestBit(Slice(field, n, n), k) <==> TestBit(word, m.lsb + n + k)
    ensures TestBit(Slice(field, 0, n), k) <==> TestBit(word, m.lsb + k)
  {
    hide Slice, TestBit;
    MemberBit(m, word, field, k);
    MemberBit(m, word, field, n + k);
    TestBitSlice(field, n, n, k);
    TestBitSlice(field, 0, n, k);
    assert m.lsb + n + k == m.lsb + (n + k);
  }

  lemma FieldHeld(cp: CoreParameters, word: nat, j: nat)
    requires Padding(cp) >= 0 && j < 15
    ensures InstructionBits(cp) <= cp.mmInstructionWidth
    ensures Struct(cp).Members()[j].Holds(word, Extract(cp, word, j)) && Struct(cp).Members()[j].width == FieldBits(cp)[j]
  {
    hide *;
    FieldsAreMembers(cp);
    SameWidths(cp);
    ExtractReadsMember(cp, word, j, 0);
    assert Struct(cp).Members()[j] == Member(Padding(cp) + Offset(Widths(cp), j), Widths(cp)[j]);
  }

  lemma Names(s: InstructionStruct)
    ensures
      var m := s.Members();
      && m[0] == s.vi && m[1] == s.ptm && m[2] == s.ici && m[3] == s.ictb && m[4] == s.ictv
      && m[5] == s.op && m[6] == s.st && m[7] == s.si && m[8] == s.dt && m[9] == s.di
      && m[10] == s.oci && m[11] == s.oct && m[12] == s.icd && m[13] == s.pum && m[14] == s.immediate
  {
  }

  lemma BitsByName(cp: CoreParameters)
    ensures
      var w := FieldBits(cp);
      && w[0] == 1 && w[1] == w[13] == cp.numPredicates + cp.numPredicates
      && w[2] == ArrayBits(cp.maxNumInputChannelsToCheck, IciEntry(cp)) && w[3] == cp.maxNumInputChannelsToCheck
      && w[4] == ArrayBits(cp.maxNumInputChannelsToCheck, TagBits(cp))
      && w[6] == ArrayBits(3, StEntry()) && w[7] == ArrayBits(3, SiEntry(cp))
      && w[10] == cp.numOutputChannels && w[12] == cp.numInputChannels
  {
    hide ArrayBits, IciEntry, TagBits, StEntry, SiEntry, OpBits, DtBits, DiBits;
  }

  /** What the fields of the trigger hold. */
  lemma TriggerFields(cp: CoreParameters, i: Instruction)
    requires Encodable(cp, i) && Padding(cp) >= 0
    ensures
      var word, t, n := Encode(cp, i), i.trigger, cp.numPredicates;
      && Extract(cp, word, 0) == 1
      && Slice(Extract(cp, word, 1), n, n) == Mask(n, t.truePredicates) && Slice(Extract(cp, word, 1), 0, n) == Mask(n, t.falsePredicates)
      && Extract(cp, word, 10) == Mask(cp.numOutputChannels, t.outputChannels)
      && TriggerOf(cp, word) == Encoded(cp, t)
  {
    TriggerOfEncoded(cp, i);
    Decoding.EncodedFields(cp, i.trigger);
    assert Encoded(cp, i.trigger).vi;
    hide Extract, Padding, Slice, Encode, Mask, Ptm, Encodable, Encoded;
    Decoding.PtmHalves(cp, i.trigger);
  }

  lemma MasksFound(cp: CoreParameters, i: Instruction, k: nat)
    requires Encodable(cp, i) && Padding(cp) >= 0 && k < cp.numPredicates
    ensures InstructionBits(cp) <= cp.mmInstructionWidth
    ensures
      var s, word, n := Struct(cp), Encode(cp, i), cp.numPredicates;
      && (TestBit(word, s.ptm.lsb + n + k) <==> k in i.trigger.truePredicates)
      && (TestBit(word, s.ptm.lsb + k) <==> k in i.trigger.falsePredicates)
      && (TestBit(word, s.pum.lsb + n + k) <==> PredicateUpdate(k, true) in i.updates)
      && (TestBit(word, s.pum.lsb + k) <==> PredicateUpdate(k, false) in i.updates)
  {
    hide *;
    var word, n, t := Encode(cp, i), cp.numPredicates, i.trigger;
    TriggerFields(cp, i);
    BitsByName(cp);
    FieldHeld(cp, word, 1);
    FieldHeld(cp, word, 13);
    Names(Struct(cp));
    MemberHalves(Struct(cp).ptm, word, Extract(cp, word, 1), n, k);
    MemberHalves(Struct(cp).pum, word, Extract(cp, word, 13), n, k);
    MaskBits(n, t.truePredicates, k);
    MaskBits(n, t.falsePredicates, k);
    UpdatesRoundTrip(cp, i, k);
  }

  lemma OutputBitFound(cp: CoreParameters, i: Instruction, c: nat)
    requires Encodable(cp, i) && Padding(cp) >= 0 && c < cp.numOutputChannels
    ensures InstructionBits(cp) <= cp.mmInstructionWidth
    ensures TestBit(Encode(cp, i), Struct(cp).oci.lsb + c) <==> c in i.trigger.outputChannels
  {
    hide *;
    var word := Encode(cp, i);
    TriggerFields(cp, i);
    BitsByName(cp);
    FieldHeld(cp, word, 10);
    Names(Struct(cp));
    MemberBit(Struct(cp).oci, word, Extract(cp, word, 10), c);
    MaskBits(cp.numOutputChannels, i.trigger.outputChannels, c);
  }

  lemma DequeueBitFound(cp: CoreParameters, i: Instruction, c: nat)
    requires Encodable(cp, i) && Padding(cp) >= 0 && c < cp.numInputChannels
    ensures InstructionBits(cp) <= cp.mmInstructionWidth
    ensures TestBit(Encode(cp, i), Struct(cp).icd.lsb + c) <==> c in i.dequeues
  {
    hide *;
    var word := Encode(cp, i);
    DequeuesRoundTrip(cp, i, c);
    BitsByName(cp);
    FieldHeld(cp, word, 12);
    Names(Struct(cp));
    MemberBit(Struct(cp).icd, word, Extract(cp, word, 12), c);
  }

  lemma OneIsOdd()
    ensures TestBit(1, 0)
  {
  }

  lemma ValidBitFound(cp: CoreParameters, i: Instruction)
    requires Encodable(cp, i) && Padding(cp) >= 0
    ensures InstructionBits(cp) <= cp.mmInstructionWidth
    ensures TestBit(Encode(cp, i), Struct(cp).vi.lsb)
  {
    hide *;
    var word := Encode(cp, i);
    OneIsOdd();
    TriggerFields(cp, i);
    BitsByName(cp);
    FieldHeld(cp, word, 0);
    Names(Struct(cp));
    MemberBit(Struct(cp).vi, word, Extract(cp, word, 0), 0);
  }

  lemma WellFormedSlots(cp: CoreParameters, i: Instruction)
    requires Encodable(cp, i)
    ensures WellFormedTrigger(cp, i.trigger)
    ensures |i.trigger.inputChannels| == |i.trigger.inputChannelTags| == |i.trigger.inputChannelTagBooleans|
    ensures |i.trigger.inputChannels| <= cp.maxNumInputChannelsToCheck
  {
  }

  lemma SlotFields(cp: CoreParameters, word: nat, slot: nat)
    requires Padding(cp) >= 0
    ensures Channel(cp, TriggerOf(cp, word), slot) == Decoding.Place(Extract(cp, word, 2), IciEntry(cp), slot)
    ensures Tag(cp, TriggerOf(cp, word), slot) == Decoding.Place(Extract(cp, word, 4), TagBits(cp), slot)
    ensures TriggerOf(cp, word).ictb == Extract(cp, word, 3)
  {
    hide Extract, Slice, Clog2, Padding;
  }

  lemma OneBit(x: nat, k: nat)
    ensures Slice(x, k, 1) == 1 <==> TestBit(x, k)
  {
    TestBitSlice(x, k, 1, 0);
    assert Pow2(1) == 2;
    assert TestBit(Slice(x, k, 1), 0) <==> Slice(x, k, 1) % 2 == 1;
  }

  lemma SlotIsFound(cp: CoreParameters, i: Instruction, slot: nat)
    requires Encodable(cp, i) && Padding(cp) >= 0 && slot < cp.maxNumInputChannelsToCheck
    ensures InstructionBits(cp) <= cp.mmInstructionWidth
    ensures
      var s, word, t := Struct(cp), Encode(cp, i), i.trigger;
      var nulls := cp.maxNumInputChannelsToCheck - |t.inputChannels|;
      && |t.inputChannels| == |t.inputChannelTags| == |t.inputChannelTagBooleans| && nulls >= 0
      && if slot < nulls then s.ici.HoldsAt(word, IciEntry(cp), slot, 0) else SlotFound(cp, s, word, t, slot)
  {
    hide Struct, Encode, Extract, Padding, Encodable, InstructionBits, IciEntry, TagBits, Slice, Decoding.Place, TestBit, FieldBits, ArrayBits, Encoded,
         Channel, Tag, TriggerOf, WellFormedTrigger, Member.HoldsAt, Member.Holds, InstructionStruct.Members;
    var word, max := Encode(cp, i), cp.maxNumInputChannelsToCheck;
    var p := TriggerOf(cp, word);
    TriggerFields(cp, i);
    WellFormedSlots(cp, i);
    SlotsMean(cp, i.trigger, slot);
    SlotFields(cp, word, slot);
    BitsByName(cp);
    FieldHeld(cp, word, 2);
    FieldHeld(cp, word, 3);
    FieldHeld(cp, word, 4);
    Names(Struct(cp));
    MemberEntry(Struct(cp).ici, word, Extract(cp, word, 2), max, IciEntry(cp), slot, Channel(cp, p, slot));
    MemberEntry(Struct(cp).ictv, word, Extract(cp, word, 4), max, TagBits(cp), slot, Tag(cp, p, slot));
    MemberBit(Struct(cp).ictb, word, Extract(cp, word, 3), slot);
    OneBit(Extract(cp, word, 3), slot);
  }

  lemma TriggerIsFound(cp: CoreParameters, i: Instruction)
    requires Encodable(cp, i) && Padding(cp) >= 0
    ensures InstructionBits(cp) <= cp.mmInstructionWidth
    ensures TriggerFound(cp, Struct(cp), Encode(cp, i), i.trigger)
  {
    hide Struct, InstructionBits, TestBit, Padding, Encode, Encodable, SlotFound, Member.HoldsAt, IciEntry;
    WellFormedSlots(cp, i);
    ValidBitFound(cp, i);
    var s, word, t := Struct(cp), Encode(cp, i), i.trigger;
    forall c: nat | c < cp.numOutputChannels ensures TestBit(word, s.oci.lsb + c) <==> c in t.outputChannels { OutputBitFound(cp, i, c); }
    forall k: nat | k < cp.numPredicates
      ensures TestBit(word, s.ptm.lsb + cp.numPredicates + k) <==> k in t.truePredicates
      ensures TestBit(word, s.ptm.lsb + k) <==> k in t.falsePredicates
    {
      MasksFound(cp, i, k);
    }
    var nulls := cp.maxNumInputChannelsToCheck - |t.inputChannels|;
    forall j: nat | j < nulls ensures s.ici.HoldsAt(word, IciEntry(cp), j, 0) { SlotIsFound(cp, i, j); }
    forall slot: nat | nulls <= slot < cp.maxNumInputChannelsToCheck ensures SlotFound(cp, s, word, t, slot) {
      SlotIsFound(cp, i, slot);
    }
  }

  lemma WholeFields(cp: CoreParameters, i: Instruction)
    requires Encodable(cp, i) && Padding(cp) >= 0
    ensures InstructionBits(cp) <= cp.mmInstructionWidth
    ensures
      var s, word := Struct(cp), Encode(cp, i);
      && s.op.Holds(word, i.op) && s.dt.Holds(word, DestinationType(i.destination)) && s.di.Holds(word, DestinationIndex(i))
      && s.oct.Holds(word, i.outputTag) && s.immediate.Holds(word, Immediate(cp, i.immediate))
  {
    hide *;
    var word := Encode(cp, i);
    Decoding.ScalarFields(cp, i);
    FieldHeld(cp, word, 5);
    FieldHeld(cp, word, 8);
    FieldHeld(cp, word, 9);
    FieldHeld(cp, word, 11);
    FieldHeld(cp, word, 14);
    Names(Struct(cp));
  }

  lemma EffectsAreFound(cp: CoreParameters, i: Instruction)
    requires Encodable(cp, i) && Padding(cp) >= 0
    ensures InstructionBits(cp) <= cp.mmInstructionWidth
    ensures EffectsFound(cp, Struct(cp), Encode(cp, i), i)
  {
    hide Struct, InstructionBits, TestBit, Padding, Encode, Encodable, Member.Holds, Immediate;
    WholeFields(cp, i);
    var s, word := Struct(cp), Encode(cp, i);
    forall c: nat | c < cp.numInputChannels ensures TestBit(word, s.icd.lsb + c) <==> c in i.dequeues { DequeueBitFound(cp, i, c); }
    forall k: nat | k < cp.numPredicates
      ensures TestBit(word, s.pum.lsb + cp.numPredicates + k) <==> PredicateUpdate(k, true) in i.updates
      ensures TestBit(word, s.pum.lsb + k) <==> PredicateUpdate(k, false) in i.updates
    {
      MasksFound(cp, i, k);
    }
  }

  lemma CodesAgree(cp: CoreParameters, i: Instruction, source: Source, operand: nat)
    requires operand < 3 && source == [i.sourceA, i.sourceB, i.sourceC][operand]
    ensures SourceTypes(i)[operand] == SourceCode(source) && SingleStWidth() == StEntry() && SingleSiWidth(cp) == SiEntry(cp)
    ensures source.ChannelSource? || source.RegisterSource? ==> SourceIndices(i)[operand] == source.index
  {
    hide Clog2;
  }

  lemma SourceSlots(cp: CoreParameters, i: Instruction, operand: nat)
    requires Encodable(cp, i) && Padding(cp) >= 0 && operand < 3
    ensures Decoding.Place(Extract(cp, Encode(cp, i), 6), SingleStWidth(), operand) == SourceTypes(i)[operand]
    ensures Decoding.Place(Extract(cp, Encode(cp, i), 7), SingleSiWidth(cp), operand) == SourceIndices(i)[operand]
  {
    SourcesRoundTrip(cp, i, operand);
    hide Encodable, Padding, Extract, Encode, Slice, SingleStWidth, SingleSiWidth, SourceTypes, SourceIndices;
  }

  lemma SourceIsFound(cp: CoreParameters, i: Instruction, source: Source, operand: nat)
    requires Encodable(cp, i) && Padding(cp) >= 0 && operand < 3 && source == [i.sourceA, i.sourceB, i.sourceC][operand]
    ensures InstructionBits(cp) <= cp.mmInstructionWidth
    ensures SourceFound(cp, Struct(cp), Encode(cp, i), source, operand)
  {
    hide Struct, Encode, Extract, Padding, Encodable, InstructionBits, StEntry, SiEntry, Slice, Decoding.Place, FieldBits, ArrayBits, SourceTypes,
         SourceIndices, SourceCode, SingleStWidth, SingleSiWidth, Member.HoldsAt, Member.Holds, InstructionStruct.Members;
    var word := Encode(cp, i);
    SourceSlots(cp, i, operand);
    CodesAgree(cp, i, source, operand);
    BitsByName(cp);
    FieldHeld(cp, word, 6);
    FieldHeld(cp, word, 7);
    Names(Struct(cp));
    MemberEntry(Struct(cp).st, word, Extract(cp, word, 6), 3, StEntry(), operand, SourceTypes(i)[operand]);
    MemberEntry(Struct(cp).si, word, Extract(cp, word, 7), 3, SiEntry(cp), operand, SourceIndices(i)[operand]);
  }

  lemma DestinationCodes(i: Instruction)
    ensures DestinationType(i.destination) == DestinationCode(i.destination)
    ensures
      match i.destination
      case NullDestination => DestinationIndex(i) == 0
      case ChannelDestination => |i.trigger.outputChannels| == 1 ==> DestinationIndex(i) == i.trigger.outputChannels[0]
      case RegisterDestination(k) => DestinationIndex(i) == k
      case PredicateDestination(k) => DestinationIndex(i) == k
  {
  }

  lemma OperationIsFound(cp: CoreParameters, i: Instruction)
    requires Encodable(cp, i) && Padding(cp) >= 0
    ensures InstructionBits(cp) <= cp.mmInstructionWidth
    ensures OperationFound(cp, Struct(cp), Encode(cp, i), i)
  {
    hide Struct, InstructionBits, Padding, Encode, Encodable, SourceFound, DestinationCode, DestinationType, DestinationIndex, Member.Holds;
    WholeFields(cp, i);
    DestinationCodes(i);
    SourceIsFound(cp, i, i.sourceA, 0);
    SourceIsFound(cp, i, i.sourceB, 1);
    SourceIsFound(cp, i, i.sourceC, 2);
  }

  // --- The parameters that come with the repository ---

  /** For these the struct is this: the valid bit at the top, the immediate above fifteen bits of padding. */
  lemma DefaultStruct(cp: CoreParameters)
    requires cp == CoreParameters(16, 8, 8, 4, 4, 2, 2, 3, 32, 128)
    ensures InstructionBits(cp) == 113
    ensures Stacked(cp, 15) == InstructionStruct(
      Member(127, 1), Member(111, 16), Member(105, 6), Member(103, 2), Member(99, 4),
      Member(93, 6), Member(87, 6), Member(78, 9), Member(76, 2), Member(73, 3),
      Member(69, 4), Member(67, 2), Member(63, 4), Member(47, 16), Member(15, 32))
  {
    hide IciBits, IctvBits, MaskPairBits, StBits, SiBits, OpBits, DtBits, DiBits, TagBits, Stacked;
    DefaultWidths(cp);
    DefaultStack(cp);
  }

  lemma DefaultStack(cp: CoreParameters)
    requires cp == CoreParameters(16, 8, 8, 4, 4, 2, 2, 3, 32, 128)
    requires IciBits(cp) == 6 && IctvBits(cp) == 4 && MaskPairBits(cp) == 16 && StBits() == 6 && SiBits(cp) == 9
    requires OpBits() == 6 && DtBits() == 2 && DiBits(cp) == 3 && TagBits(cp) == 2
    ensures Stacked(cp, 15) == InstructionStruct(
      Member(127, 1), Member(111, 16), Member(105, 6), Member(103, 2), Member(99, 4),
      Member(93, 6), Member(87, 6), Member(78, 9), Member(76, 2), Member(73, 3),
      Member(69, 4), Member(67, 2), Member(63, 4), Member(47, 16), Member(15, 32))
  {
    hide IciBits, IctvBits, MaskPairBits, StBits, SiBits, OpBits, DtBits, DiBits, TagBits;
  }

  lemma DefaultWidths(cp: CoreParameters)
    requires cp == CoreParameters(16, 8, 8, 4, 4, 2, 2, 3, 32, 128)
    ensures IciBits(cp) == 6 && IctvBits(cp) == 4 && MaskPairBits(cp) == 16 && StBits() == 6 && SiBits(cp) == 9
    ensures OpBits() == 6 && DtBits() == 2 && DiBits(cp) == 3 && TagBits(cp) == 2
  {
    hide Clog2;
    Width(5, 3);
    Width(3, 2);
    Width(63, 6);
    Width(4, 2);
    Width(8, 3);
  }

  lemma Width(codes: nat, bits: nat)
    requires bits > 0 && Pow2(bits - 1) < codes <= Pow2(bits)
    ensures Clog2(codes) == bits
  {
    var k := Clog2(codes);
    if k < bits { Pow2Monotone(k, bits - 1); }
    if k > bits { Pow2Monotone(bits, k - 1); }
  }
}

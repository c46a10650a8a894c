/**
 * The assembler's field packers and program binary. Fields are accumulated by shifting and OR-ing, with the
 * range and width checks the assembler makes along the way.
 */
module MachineCode {
  import opened Bits
  import opened Prelude
  import opened Instructions

  datatype AssemblyError =
    | PredicateOutOfRange
    | TooManyInputChannels
    | FieldTooWide
    | NegativeShift
    | MisalignedInstructionWidth

  type Assembled<+T> = Outcome<T, AssemblyError>

  // --- Field widths ---

  function Max(a: nat, b: nat): nat { if a > b then a else b }

  function SingleIciWidth(cp: CoreParameters): nat { Clog2(cp.numInputChannels + 1) }
  function TagWidth(cp: CoreParameters): nat { Clog2(cp.numTags) }
  function OpWidth(): nat { Clog2(NUM_OPS) }
  function SingleStWidth(): nat { Clog2(4) }
  function SingleSiWidth(cp: CoreParameters): nat { Clog2(Max(cp.numRegisters, cp.numInputChannels)) }
  function DtWidth(): nat { Clog2(4) }
  function DiWidth(cp: CoreParameters): nat { Clog2(Max(Max(cp.numRegisters, cp.numOutputChannels), cp.numPredicates)) }

  function IciWidth(cp: CoreParameters): nat { SlotBits(SingleIciWidth(cp), cp.maxNumInputChannelsToCheck) }
  function IctvWidth(cp: CoreParameters): nat { SlotBits(TagWidth(cp), cp.maxNumInputChannelsToCheck) }
  function StWidth(): nat { 3 * SingleStWidth() }
  function SiWidth(cp: CoreParameters): nat { 3 * SingleSiWidth(cp) }
  function PtmWidth(cp: CoreParameters): nat { cp.numPredicates + cp.numPredicates }

  // --- Masks ---

  /** A word whose bits are the listed ones fits exactly when all of them are in range. */
  lemma MaskOfBits(n: nat, s: seq<nat>, x: nat)
    requires forall k: nat :: TestBit(x, k) <==> k in s
    ensures x < Pow2(n) <==> forall p | p in s :: p < n
    ensures x < Pow2(n) ==> x == Mask(n, s)
  {
    if x < Pow2(n) {
      forall p | p in s ensures p < n {
        HighBit(x, p);
        if p >= n { Pow2Monotone(n, p); }
      }
      forall k: nat ensures TestBit(x, k) <==> TestBit(Mask(n, s), k) { MaskBits(n, s, k); }
      SameBits(x, Mask(n, s));
    } else if forall p | p in s :: p < n {
      var k := SomeBit(x);
      Pow2Monotone(k + 1, n);
    }
  }

  /**
   * One half of a predicate trigger mask. The range check lets the first index past the end through; the width
   * check stops it, so a mask is built exactly when every predicate exists.
   */
  method BuildPredicateMask(cp: CoreParameters, predicates: seq<nat>) returns (r: Assembled<nat>)
    ensures r.Ok? <==> forall p | p in predicates :: p < cp.numPredicates
    ensures r.Ok? ==> r.value == Mask(cp.numPredicates, predicates)
  {
    var mask := 0;
    var i := |predicates|;
    forall k ensures !TestBit(0, k) { ZeroBits(k); }
    while i > 0
      invariant 0 <= i <= |predicates|
      invariant forall k: nat :: TestBit(mask, k) <==> k in predicates[i..]
    {
      i := i - 1;
      assert predicates[i] in predicates;
      if predicates[i] > cp.numPredicates { return Err(PredicateOutOfRange); }
      ghost var before := mask;
      mask := Or(mask, Pow2(predicates[i]));
      forall k: nat ensures TestBit(mask, k) <==> k in predicates[i..] {
        TestBitOr(before, Pow2(predicates[i]), k);
        TestBitPow2(predicates[i], k);
      }
    }
    assert predicates[0..] == predicates;
    MaskOfBits(cp.numPredicates, predicates, mask);
    BitLengthFits(mask, cp.numPredicates);
    if BitLength(mask) > cp.numPredicates { return Err(FieldTooWide); }
    return Ok(mask);
  }

  method BuildPtm(cp: CoreParameters, t: Trigger) returns (r: Assembled<nat>)
    ensures r.Ok? <==> forall p | p in t.truePredicates || p in t.falsePredicates :: p < cp.numPredicates
    ensures r.Ok? ==> r.value == Ptm(cp, t)
  {
    var upper :- BuildPredicateMask(cp, t.truePredicates);
    var ptm := Shl(upper, cp.numPredicates);
    var lower :- BuildPredicateMask(cp, t.falsePredicates);
    OrFills(upper, cp.numPredicates, lower);
    Joined(upper, cp.numPredicates, lower, cp.numPredicates);
    BitLengthFits(Shl(upper, cp.numPredicates) + lower, PtmWidth(cp));
    ptm := Or(ptm, lower);
    if BitLength(ptm) > PtmWidth(cp) { return Err(FieldTooWide); }
    return Ok(ptm);
  }

  function Ptm(cp: CoreParameters, t: Trigger): nat {
    Shl(Mask(cp.numPredicates, t.truePredicates), cp.numPredicates) + Mask(cp.numPredicates, t.falsePredicates)
  }

  /** The indices an instruction sets to the given value. */
  function Updated(us: seq<PredicateUpdate>, b: bool): seq<nat> {
    if us == [] then [] else (if us[0].value == b then [us[0].index] else []) + Updated(us[1..], b)
  }

  lemma {:induction false} UpdatedContains(us: seq<PredicateUpdate>, b: bool, k: nat)
    ensures k in Updated(us, b) <==> PredicateUpdate(k, b) in us
    decreases us
  {
    if us != [] {
      UpdatedContains(us[1..], b, k);
      assert us == [us[0]] + us[1..];
    }
  }

  lemma {:induction false} UpdatedSnoc(us: seq<PredicateUpdate>, u: PredicateUpdate, b: bool)
    ensures Updated(us + [u], b) == Updated(us, b) + (if u.value == b then [u.index] else [])
    decreases us
  {
    if us == [] {
      assert us + [u] == [u];
    } else {
      var first := if us[0].value == b then [us[0].index] else [];
      var last := if u.value == b then [u.index] else [];
      assert (us + [u])[1..] == us[1..] + [u];
      UpdatedSnoc(us[1..], u, b);
      assert Updated(us + [u], b) == first + (Updated(us[1..], b) + last);
      assert Updated(us, b) == first + Updated(us[1..], b);
      assert first + (Updated(us[1..], b) + last) == first + Updated(us[1..], b) + last;
    }
  }

  /** One half of a predicate update mask. */
  method BuildUpdateMask(cp: CoreParameters, us: seq<PredicateUpdate>, b: bool) returns (r: Assembled<nat>)
    ensures (forall u | u in us :: u.index < cp.numPredicates) ==> r.Ok?
    ensures r.Ok? ==> forall u | u in us && u.value == b :: u.index < cp.numPredicates
    ensures r.Ok? ==> r.value == Mask(cp.numPredicates, Updated(us, b))
  {
    var mask := 0;
    forall k ensures !TestBit(0, k) { ZeroBits(k); }
    for i := 0 to |us|
      invariant forall k: nat :: TestBit(mask, k) <==> k in Updated(us[..i], b)
    {
      if us[i].index > cp.numPredicates { return Err(PredicateOutOfRange); }
      assert us[..i + 1] == us[..i] + [us[i]];
      UpdatedSnoc(us[..i], us[i], b);
      if us[i].value == b {
        ghost var before := mask;
        mask := Or(mask, Pow2(us[i].index));
        forall k: nat ensures TestBit(mask, k) <==> k in Updated(us[..i + 1], b) {
          TestBitOr(before, Pow2(us[i].index), k);
          TestBitPow2(us[i].index, k);
        }
      }
    }
    assert us[..|us|] == us;
    MaskOfBits(cp.numPredicates, Updated(us, b), mask);
    BitLengthFits(mask, cp.numPredicates);
    forall k ensures k in Updated(us, b) <==> PredicateUpdate(k, b) in us { UpdatedContains(us, b, k); }
    if BitLength(mask) > cp.numPredicates { return Err(FieldTooWide); }
    forall u | u in us && u.value == b ensures u.index < cp.numPredicates {
      assert u == PredicateUpdate(u.index, b);
    }
    return Ok(mask);
  }

  function Pum(cp: CoreParameters, us: seq<PredicateUpdate>): nat {
    Shl(Mask(cp.numPredicates, Updated(us, true)), cp.numPredicates) + Mask(cp.numPredicates, Updated(us, false))
  }

  method BuildPum(cp: CoreParameters, us: seq<PredicateUpdate>) returns (r: Assembled<nat>)
    ensures r.Ok? <==> forall u | u in us :: u.index < cp.numPredicates
    ensures r.Ok? ==> r.value == Pum(cp, us)
  {
    var upper :- BuildUpdateMask(cp, us, true);
    var pum := Shl(upper, cp.numPredicates);
    var lower :- BuildUpdateMask(cp, us, false);
    OrFills(upper, cp.numPredicates, lower);
    Joined(upper, cp.numPredicates, lower, cp.numPredicates);
    BitLengthFits(Shl(upper, cp.numPredicates) + lower, PtmWidth(cp));
    pum := Or(pum, lower);
    if BitLength(pum) > PtmWidth(cp) { return Err(FieldTooWide); }
    return Ok(pum);
  }

  // --- Per-channel fields ---

  /** The accumulator after `i` values of the reversed list; the shift is skipped after value number `count`. */
  function Accumulated(width: nat, vs: seq<nat>, count: nat, i: nat): nat
    requires i <= |vs|
  {
    if i == 0 then 0
    else
      var acc := Or(Accumulated(width, vs, count, i - 1), vs[|vs| - i]);
      if i != count then Shl(acc, width) else acc
  }

  /** Concatenation of a reversed list of values by OR and shift. */
  method Concatenate(width: nat, vs: seq<nat>, count: nat) returns (acc: nat)
    ensures acc == Accumulated(width, vs, count, |vs|)
  {
    acc := 0;
    for i := 0 to |vs|
      invariant acc == Accumulated(width, vs, count, i)
    {
      acc := Or(acc, vs[|vs| - 1 - i]);
      if i + 1 != count { acc := Shl(acc, width); }
    }
  }

  lemma {:induction false} AccumulatedSuffix(width: nat, vs: seq<nat>, i: nat)
    requires 0 < i <= |vs| && Fits(width, vs)
    ensures Accumulated(width, vs, |vs|, i)
         == (if i == |vs| then Packed(width, vs) else Shl(Packed(width, vs[|vs| - i..]), width))
    decreases i
  {
    var suffix := vs[|vs| - i..];
    assert suffix[0] == vs[|vs| - i];
    if i == 1 {
      assert suffix[1..] == [];
    } else {
      AccumulatedSuffix(width, vs, i - 1);
      assert suffix[1..] == vs[|vs| - (i - 1)..];
      OrFills(Packed(width, suffix[1..]), width, suffix[0]);
    }
    if i == |vs| { assert suffix == vs; }
  }

  lemma AccumulatedIsPacked(width: nat, vs: seq<nat>)
    requires Fits(width, vs)
    ensures Accumulated(width, vs, |vs|, |vs|) == Packed(width, vs)
  {
    if vs != [] { AccumulatedSuffix(width, vs, |vs|); }
  }

  /** The channels of a trigger land in the highest slots, in order; the slots below them are null. */
  function Slots(max: nat, vs: seq<nat>): seq<nat> {
    if |vs| <= max then Zeros(max - |vs|) + vs else vs
  }

  function Incremented(vs: seq<nat>): (r: seq<nat>)
    ensures |r| == |vs| && forall k | 0 <= k < |vs| :: r[k] == vs[k] + 1
  {
    seq(|vs|, k requires 0 <= k < |vs| => vs[k] + 1)
  }

  function AsBits(bs: seq<bool>): (r: seq<nat>)
    ensures |r| == |bs| && forall k | 0 <= k < |bs| :: r[k] == if bs[k] then 1 else 0
  {
    seq(|bs|, k requires 0 <= k < |bs| => if bs[k] then 1 else 0)
  }

  /** What the accumulator holds for any list, whether its entries fit their slots or not. */
  function SlotWord(width: nat, max: nat, vs: seq<nat>): nat
    requires |vs| <= max
  {
    Shl(Accumulated(width, vs, |vs|, |vs|), SlotBits(width, max - |vs|))
  }

  /** The width of a number of slots. */
  function SlotBits(width: nat, slots: nat): nat {
    slots * width
  }

  lemma SlotsFit(width: nat, max: nat, vs: seq<nat>)
    requires |vs| <= max && Fits(width, vs)
    ensures Fits(width, Slots(max, vs))
    ensures Shl(Packed(width, vs), SlotBits(width, max - |vs|)) == Packed(width, Slots(max, vs))
    ensures Packed(width, Slots(max, vs)) < Pow2(SlotBits(width, max))
  {
    PackedAbove(width, max - |vs|, vs);
    PackedFits(width, Slots(max, vs));
    Commutes(max, width);
  }

  lemma SlotWordIsPacked(width: nat, max: nat, vs: seq<nat>)
    requires |vs| <= max && Fits(width, vs)
    ensures SlotWord(width, max, vs) == Packed(width, Slots(max, vs)) < Pow2(SlotBits(width, max))
  {
    AccumulatedIsPacked(width, vs);
    SlotsFit(width, max, vs);
  }

  /** Only the total width is checked, so a list can be read back from its slots exactly when each entry fits its own. */
  lemma ReadBackIffEntriesFit(width: nat, max: nat, vs: seq<nat>)
    requires |vs| <= max
    ensures (forall j | 0 <= j < |vs| :: Slice(SlotWord(width, max, vs), width * (max - |vs| + j), width) == vs[j])
              <==> Fits(width, vs)
  {
    hide SlotWord, Slice;
    if Fits(width, vs) {
      forall j | 0 <= j < |vs|
        ensures Slice(SlotWord(width, max, vs), width * (max - |vs| + j), width) == vs[j]
      {
        ReadBack(width, max, vs, j);
      }
    }
  }

  lemma ReadBack(width: nat, max: nat, vs: seq<nat>, j: nat)
    requires j < |vs| <= max && Fits(width, vs)
    ensures Slice(SlotWord(width, max, vs), width * (max - |vs| + j), width) == vs[j]
  {
    hide SlotWord, Slice, Packed;
    SlotWordIsPacked(width, max, vs);
    SlotsFit(width, max, vs);
    SlotOfPacked(width, Slots(max, vs), max - |vs| + j);
  }

  /** An oversized entry can pass the total width check and come out as another channel. */
  lemma SpillIsAccepted()
    ensures SlotWord(2, 2, [5, 1]) < Pow2(2 * 2)
    ensures SlotWord(2, 2, [5, 1]) == SlotWord(2, 2, [1, 1])
  {
    assert Accumulated(2, [5, 1], 2, 1) == Shl(Or(0, 1), 2) == 4;
    assert Accumulated(2, [1, 1], 2, 1) == Shl(Or(0, 1), 2) == 4;
    assert Or(4, 5) == 2 * Or(2, 2) + 1 && Or(2, 2) == 2 * Or(1, 1) && Or(1, 1) == 2 * Or(0, 0) + 1;
    assert Or(4, 1) == 2 * Or(2, 0) + 1;
    assert Accumulated(2, [5, 1], 2, 2) == Or(4, 5) && Accumulated(2, [1, 1], 2, 2) == Or(4, 1);
    assert Pow2(0) == 1 && Pow2(4) == 16;
  }

  lemma Commutes(a: nat, b: nat)
    ensures a * b == b * a
  {
  }

  /** The common tail of the per-channel packers: append null slots and check the total width. */
  method Place(width: nat, max: nat, acc: nat, used: nat) returns (r: Assembled<nat>)
    requires used <= max
    ensures
      var word := Shl(acc, SlotBits(width, max - used));
      r == if word < Pow2(SlotBits(width, max)) then Ok(word) else Err(FieldTooWide)
  {
    hide SlotBits, Shl, Pow2;
    var field := Shl(acc, SlotBits(width, max - used));
    BitLengthFits(field, SlotBits(width, max));
    if BitLength(field) > SlotBits(width, max) { return Err(FieldTooWide); }
    return Ok(field);
  }

  method BuildIci(cp: CoreParameters, channels: seq<nat>) returns (r: Assembled<nat>)
    ensures |channels| > cp.maxNumInputChannelsToCheck ==> r == Err(TooManyInputChannels)
    ensures r.Ok? ==> r.value < Pow2(IciWidth(cp))
    ensures |channels| <= cp.maxNumInputChannelsToCheck ==>
      var word := SlotWord(SingleIciWidth(cp), cp.maxNumInputChannelsToCheck, Incremented(channels));
      if word < Pow2(IciWidth(cp)) then r == Ok(word) else r == Err(FieldTooWide)
    ensures |channels| <= cp.maxNumInputChannelsToCheck && Fits(SingleIciWidth(cp), Incremented(channels)) ==>
      r == Ok(Packed(SingleIciWidth(cp), Slots(cp.maxNumInputChannelsToCheck, Incremented(channels))))
  {
    hide SlotBits, Shl, Pow2, Packed, Slots, Fits, Accumulated, SingleIciWidth;
    var max, width := cp.maxNumInputChannelsToCheck, SingleIciWidth(cp);
    if |channels| > max { return Err(TooManyInputChannels); }
    var ici := Concatenate(width, Incremented(channels), |channels|);
    if Fits(width, Incremented(channels)) { SlotWordIsPacked(width, max, Incremented(channels)); }
    r := Place(width, max, ici, |channels|);
  }

  /** The tag Booleans are shifted once per channel rather than once per Boolean, and so are their null slots. */
  function BooleanField(cp: CoreParameters, channels: seq<nat>, booleans: seq<bool>): Assembled<nat> {
    var max := cp.maxNumInputChannelsToCheck;
    if |booleans| > max then Err(TooManyInputChannels)
    else if |channels| > max then Err(NegativeShift)
    else
      var word := Shl(Accumulated(1, AsBits(booleans), |channels|, |booleans|), max - |channels|);
      if word < Pow2(max) then Ok(word) else Err(FieldTooWide)
  }

  /** Both the shifts and the null slots of the tag Booleans count the trigger's channels. */
  method BuildIctb(cp: CoreParameters, channels: seq<nat>, booleans: seq<bool>) returns (r: Assembled<nat>)
    ensures r == BooleanField(cp, channels, booleans)
    ensures r.Ok? ==> r.value < Pow2(cp.maxNumInputChannelsToCheck)
    ensures |booleans| == |channels| <= cp.maxNumInputChannelsToCheck ==>
      r == Ok(Packed(1, Slots(cp.maxNumInputChannelsToCheck, AsBits(booleans))))
  {
    var max := cp.maxNumInputChannelsToCheck;
    if |booleans| > max { return Err(TooManyInputChannels); }
    var ictb := Concatenate(1, AsBits(booleans), |channels|);
    if |channels| > max { return Err(NegativeShift); }
    if |booleans| == |channels| {
      assert Pow2(1) == 2;
      SlotWordIsPacked(1, max, AsBits(booleans));
    }
    r := Place(1, max, ictb, |channels|);
  }

  method BuildIctv(cp: CoreParameters, tags: seq<nat>) returns (r: Assembled<nat>)
    ensures |tags| > cp.maxNumInputChannelsToCheck ==> r == Err(TooManyInputChannels)
    ensures r.Ok? ==> r.value < Pow2(IctvWidth(cp))
    ensures |tags| <= cp.maxNumInputChannelsToCheck ==>
      var word := SlotWord(TagWidth(cp), cp.maxNumInputChannelsToCheck, tags);
      if word < Pow2(IctvWidth(cp)) then r == Ok(word) else r == Err(FieldTooWide)
    ensures |tags| <= cp.maxNumInputChannelsToCheck && Fits(TagWidth(cp), tags) ==>
      r == Ok(Packed(TagWidth(cp), Slots(cp.maxNumInputChannelsToCheck, tags)))
  {
    hide SlotBits, Shl, Pow2, Packed, Slots, Fits, Accumulated, TagWidth;
    var max, width := cp.maxNumInputChannelsToCheck, TagWidth(cp);
    if |tags| > max { return Err(TooManyInputChannels); }
    var ictv := Concatenate(width, tags, |tags|);
    if Fits(width, tags) { SlotWordIsPacked(width, max, tags); }
    r := Place(width, max, ictv, |tags|);
  }

  // --- Channel sets ---

  lemma {:induction false} ShrTail(x: nat, j: nat)
    ensures Shr(x, j) == 2 * Shr(x, j + 1) + (if TestBit(x, j) then 1 else 0)
    decreases j
  {
    if j > 0 {
      ShrTail(x / 2, j - 1);
    } else {
      assert Shr(x, 1) == Shr(x / 2, 0);
    }
  }

  lemma {:induction false} ShrOfSmall(x: nat, n: nat)
    requires x < Pow2(n)
    ensures Shr(x, n) == 0
    decreases n
  {
    if n > 0 { ShrOfSmall(x / 2, n - 1); }
  }

  /** A bit per channel, highest first: the packing of output channels and of channels to dequeue. */
  method BuildChannelSet(n: nat, channels: seq<nat>) returns (r: Assembled<nat>)
    ensures r == Ok(Mask(n, channels))
  {
    var field := 0;
    ghost var mask := Mask(n, channels);
    ShrOfSmall(mask, n);
    var c := n;
    while c > 0
      invariant 0 <= c <= n
      invariant field == if c == 0 then mask else if c == n then 0 else Shl(Shr(mask, c), 1)
    {
      assert Shl(Shr(mask, c), 1) == 2 * Shr(mask, c);
      c := c - 1;
      ShrTail(mask, c);
      MaskBits(n, channels, c);
      OrFills(Shr(mask, c + 1), 1, 1);
      if c in channels { field := Or(field, 1); }
      assert field == Shr(mask, c);
      if c != 0 { field := Shl(field, 1); }
    }
    BitLengthFits(field, n);
    if BitLength(field) > n { return Err(FieldTooWide); }
    return Ok(field);
  }

  // --- Scalars ---

  method Check(value: nat, width: nat) returns (r: Assembled<nat>)
    ensures r == if value < Pow2(width) then Ok(value) else Err(FieldTooWide)
  {
    BitLengthFits(value, width);
    if BitLength(value) > width { return Err(FieldTooWide); }
    return Ok(value);
  }

  function SourceType(s: Source): nat {
    match s
    case NullSource => 0
    case ImmediateSource => 1
    case ChannelSource(_) => 2
    case RegisterSource(_) => 3
  }

  function SourceIndex(s: Source): nat {
    match s
    case ChannelSource(k) => k
    case RegisterSource(k) => k
    case _ => 0
  }

  function DestinationType(d: Destination): nat {
    match d
    case NullDestination => 0
    case ChannelDestination => 1
    case RegisterDestination(_) => 2
    case PredicateDestination(_) => 3
  }

  /** A single output channel is also recorded as the destination index. */
  function DestinationIndex(i: Instruction): nat {
    match i.destination
    case NullDestination => 0
    case ChannelDestination => if |i.trigger.outputChannels| == 1 then i.trigger.outputChannels[0] else 0
    case RegisterDestination(k) => k
    case PredicateDestination(k) => k
  }

  function SourceTypes(i: Instruction): (r: seq<nat>)
    ensures |r| == 3
  {
    [SourceType(i.sourceA), SourceType(i.sourceB), SourceType(i.sourceC)]
  }

  function SourceIndices(i: Instruction): (r: seq<nat>)
    ensures |r| == 3
  {
    [SourceIndex(i.sourceA), SourceIndex(i.sourceB), SourceIndex(i.sourceC)]
  }

  /** Three values one above the other; a value too large for its slot changes the one above it. */
  function TripleWord(width: nat, vs: seq<nat>): nat
    requires |vs| == 3
  {
    Or(Shl(Or(Shl(vs[2], width), vs[1]), width), vs[0])
  }

  /** Source types and source indices: three values, the first in the lowest slot. */
  method BuildTriple(width: nat, vs: seq<nat>) returns (r: Assembled<nat>)
    requires |vs| == 3
    ensures r == if TripleWord(width, vs) < Pow2(3 * width) then Ok(TripleWord(width, vs)) else Err(FieldTooWide)
    ensures Fits(width, vs) ==> r == Ok(Packed(width, vs))
    ensures r.Ok? ==> r.value < Pow2(3 * width)
  {
    var field := vs[2];
    field := Or(Shl(field, width), vs[1]);
    field := Or(Shl(field, width), vs[0]);
    if Fits(width, vs) { TripleIsPacked(width, vs); }
    r := Check(field, 3 * width);
  }

  lemma TripleIsPacked(width: nat, vs: seq<nat>)
    requires |vs| == 3 && Fits(width, vs)
    ensures TripleWord(width, vs) == Packed(width, vs) < Pow2(3 * width)
  {
    hide Or, Shl, Packed;
    PackedThree(width, vs);
    OrFills(vs[2], width, vs[1]);
    OrFills(Shl(vs[2], width) + vs[1], width, vs[0]);
    PackedFits(width, vs);
    Commutes(3, width);
  }

  lemma PackedThree(width: nat, vs: seq<nat>)
    requires |vs| == 3
    ensures Packed(width, vs) == vs[0] + Shl(vs[1] + Shl(vs[2], width), width)
  {
    assert vs[1..][1..] == [vs[2]] && vs[1..][0] == vs[1] && [vs[2]][1..] == [];
    assert Packed(width, [vs[2]]) == vs[2] + Shl(Packed(width, []), width) == vs[2];
  }

  /** The destination type is checked against the width of the destination index. */
  method BuildDt(cp: CoreParameters, d: Destination) returns (r: Assembled<nat>)
    ensures r == if DestinationType(d) < Pow2(DiWidth(cp)) then Ok(DestinationType(d)) else Err(FieldTooWide)
  {
    r := Check(DestinationType(d), DiWidth(cp));
  }

  /** So every destination type can be assembled exactly on cores with at least three destinations of some kind. */
  lemma DestinationTypesAssembleIff(cp: CoreParameters)
    ensures (forall d: Destination :: DestinationType(d) < Pow2(DiWidth(cp)))
       <==> Max(Max(cp.numRegisters, cp.numOutputChannels), cp.numPredicates) >= 3
  {
    var most := Max(Max(cp.numRegisters, cp.numOutputChannels), cp.numPredicates);
    assert Pow2(0) == 1 && Pow2(1) == 2 && Pow2(2) == 4;
    TwoBits(most);
    if most >= 3 {
      Pow2Monotone(2, DiWidth(cp));
    } else {
      assert DestinationType(PredicateDestination(0)) == 3;
    }
  }

  lemma TwoBits(n: nat)
    ensures Clog2(n) >= 2 <==> n >= 3
  {
    assert Pow2(0) == 1 && Pow2(1) == 2;
    assert Clog2(1) == 0 && Clog2(2) == 1;
  }

  // --- The immediate ---

  function And(a: nat, b: nat): nat {
    if a == 0 || b == 0 then 0 else 2 * And(a / 2, b / 2) + (if a % 2 == 1 && b % 2 == 1 then 1 else 0)
  }

  lemma {:induction false} AndOnes(x: nat, n: nat)
    ensures And(x, Pow2(n) - 1) == x % Pow2(n)
    decreases n
  {
    if n > 0 {
      AndOnes(x / 2, n - 1);
      assert (Pow2(n) - 1) / 2 == Pow2(n - 1) - 1;
      HalfMod(x, Pow2(n - 1));
    }
  }

  lemma HalfMod(x: nat, m: nat)
    requires m > 0
    ensures x % (2 * m) == 2 * ((x / 2) % m) + x % 2
  {
    var q, r := x / 2 / m, (x / 2) % m;
    Doubled(m, q);
    assert x == q * (2 * m) + (2 * r + x % 2);
    Remainder(2 * m, q, 2 * r + x % 2);
  }

  lemma Doubled(m: nat, q: nat)
    ensures 2 * (m * q) == q * (2 * m)
  {
  }

  function Magnitude(x: int): nat { if x < 0 then -x else x }

  const TWO_TO_THE_32: nat := 0x1_0000_0000

  /** The low bits of the two's complement of an immediate of at most 32 bits. */
  function Immediate(cp: CoreParameters, x: int): (r: nat)
    ensures r < Pow2(cp.immediateWidth)
  {
    Narrow(x % TWO_TO_THE_32, cp.immediateWidth)
  }

  method BuildImmediate(cp: CoreParameters, x: int) returns (r: Assembled<nat>)
    ensures r == if Magnitude(x) < Pow2(cp.immediateWidth) then Ok(Immediate(cp, x)) else Err(FieldTooWide)
  {
    BitLengthFits(Magnitude(x), cp.immediateWidth);
    if BitLength(Magnitude(x)) > cp.immediateWidth { return Err(FieldTooWide); }
    var unsigned := x % TWO_TO_THE_32;
    var mask := 0;
    for i := 0 to cp.immediateWidth
      invariant mask == if i == 0 then 0 else if i == cp.immediateWidth then Pow2(i) - 1 else 2 * (Pow2(i) - 1)
    {
      OrFills(Pow2(i) - 1, 1, 1);
      assert Shl(Pow2(i) - 1, 1) == 2 * (Pow2(i) - 1);
      mask := Or(mask, 1);
      if i != cp.immediateWidth - 1 { mask := Shl(mask, 1); }
    }
    assert Pow2(0) == 1;
    AndOnes(unsigned, cp.immediateWidth);
    return Ok(And(unsigned, mask));
  }

  // --- Initial register values ---

  /** The mask of a word's bits, built bit by bit. */
  method BuildWordMask(width: nat) returns (mask: nat)
    ensures mask == Pow2(width) - 1
  {
    mask := 0;
    for i := 0 to width
      invariant mask == if i < width then Shl(Pow2(i) - 1, 1) else Pow2(i) - 1
    {
      SetLowBit(i);
      mask := Or(mask, 1);
      if i != width - 1 { mask := Shl(mask, 1); }
    }
  }

  lemma SetLowBit(i: nat)
    ensures Shl(Pow2(i) - 1, 1) == 2 * (Pow2(i) - 1)
    ensures Or(2 * (Pow2(i) - 1), 1) == Pow2(i + 1) - 1
  {
    assert Or(Pow2(i) - 1, 0) == Pow2(i) - 1;
  }

  /** Register values are taken modulo the 32 bits of a memory-mapped word and then modulo the device word. */
  method BuildRegisterWords(width: nat, values: seq<int>) returns (words: seq<nat>)
    ensures |words| == |values|
    ensures forall k | 0 <= k < |values| :: words[k] == (values[k] % 0x1_0000_0000) % Pow2(width)
  {
    words := [];
    for k := 0 to |values|
      invariant |words| == k && forall j | 0 <= j < k :: words[j] == (values[j] % 0x1_0000_0000) % Pow2(width)
    {
      var unsigned := values[k] % 0x1_0000_0000;
      var mask := BuildWordMask(width);
      AndOnes(unsigned, width);
      words := words + [And(unsigned, mask)];
    }
  }
}

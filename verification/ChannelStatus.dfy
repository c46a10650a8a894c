/**
 * Channel status as the trigger stage sees it: what is in the channel buffers corrected by what is still
 * in flight, in the bounded-width arithmetic of the hardware.
 */
module ChannelStatus {
  import opened Bits
  import opened Prelude

  /** The width of an exposed buffer count. */
  function CountWidth(depth: nat): nat {
    Clog2(depth) + 1
  }

  function Bit(b: bool): nat {
    if b then 1 else 0
  }

  // --- Output channels, full information ---

  /** One channel's count after adding the enqueues of each downstream stage in turn. */
  function Bumped(width: nat, count: nat, stages: seq<seq<nat>>, c: nat): nat
    decreases stages
  {
    if stages == [] then count
    else Bumped(width, Narrow(count + Bit(c in stages[0]), width), stages[1..], c)
  }

  function FullStatus(depth: nat, counts: seq<nat>, stages: seq<seq<nat>>): (r: seq<bool>)
    ensures |r| == |counts|
    ensures forall c | 0 <= c < |counts| :: r[c] == (Bumped(CountWidth(depth) + 1, counts[c], stages, c) >= depth)
  {
    seq(|counts|, c requires 0 <= c < |counts| => Bumped(CountWidth(depth) + 1, counts[c], stages, c) >= depth)
  }

  lemma BumpedUnfolds(width: nat, count: nat, first: seq<nat>, rest: seq<seq<nat>>, c: nat)
    ensures Bumped(width, count, [first] + rest, c) == Bumped(width, Narrow(count + Bit(c in first), width), rest, c)
    ensures InFlight([first] + rest, c) == Bit(c in first) + InFlight(rest, c)
  {
    assert ([first] + rest)[1..] == rest;
  }

  lemma TwoStages(width: nat, count: nat, a: seq<nat>, b: seq<nat>, c: nat)
    ensures Bumped(width, count, [a, b], c) == Narrow(Narrow(count + Bit(c in a), width) + Bit(c in b), width)
    ensures InFlight([a, b], c) == Bit(c in a) + Bit(c in b)
  {
    var one := Narrow(count + Bit(c in a), width);
    BumpedUnfolds(width, count, a, [b], c);
    BumpedUnfolds(width, one, b, [], c);
    assert [a, b] == [a] + [b] && [b] == [b] + [];
  }

  lemma ThreeStages(width: nat, count: nat, a: seq<nat>, b: seq<nat>, d: seq<nat>, c: nat)
    ensures Bumped(width, count, [a, b, d], c)
         == Narrow(Narrow(Narrow(count + Bit(c in a), width) + Bit(c in b), width) + Bit(c in d), width)
    ensures InFlight([a, b, d], c) == Bit(c in a) + Bit(c in b) + Bit(c in d)
  {
    BumpedUnfolds(width, count, a, [b, d], c);
    TwoStages(width, Narrow(count + Bit(c in a), width), b, d, c);
    assert [a, b, d] == [a] + [b, d];
  }

  /** How many of the downstream stages are about to enqueue on a channel. */
  function InFlight(stages: seq<seq<nat>>, c: nat): (n: nat)
    ensures n <= |stages|
  {
    if stages == [] then 0 else Bit(c in stages[0]) + InFlight(stages[1..], c)
  }

  lemma {:induction false} BumpedIsSum(width: nat, count: nat, stages: seq<seq<nat>>, c: nat)
    requires count + |stages| < Pow2(width)
    ensures Bumped(width, count, stages, c) == count + InFlight(stages, c)
    decreases stages
  {
    if stages != [] {
      BumpedIsSum(width, count + Bit(c in stages[0]), stages[1..], c);
    }
  }

  lemma ThreeStagesFit(depth: nat)
    requires depth >= 2
    ensures depth + 3 < Pow2(CountWidth(depth) + 1)
  {
    var k := Clog2(depth);
    assert Pow2(k + 2) == 2 * Pow2(k + 1) == 4 * Pow2(k);
  }

  /**
   * With up to three stages in flight the truncated status is the true one: a channel is marked full
   * exactly when its occupancy and everything already on its way to it leave no room.
   */
  lemma FullStatusIsExact(depth: nat, counts: seq<nat>, stages: seq<seq<nat>>, c: nat)
    requires depth >= 2 && |stages| <= 3
    requires c < |counts| && counts[c] <= depth
    ensures FullStatus(depth, counts, stages)[c] == (counts[c] + InFlight(stages, c) >= depth)
  {
    ThreeStagesFit(depth);
    BumpedIsSum(CountWidth(depth) + 1, counts[c], stages, c);
  }

  predicate TrueToCounts(depth: nat, count: nat, stages: seq<seq<nat>>)
  {
    FullStatus(depth, [count], stages)[0] == (count + InFlight(stages, 0) >= depth)
  }

  /**
   * The three-stage updater is right on every reachable count exactly when buffers hold at least two
   * packets: at depth one the extra bit of width is not enough and a saturated channel reads as free.
   */
  lemma ThreeStageExactIffDeepEnough(depth: nat)
    requires depth >= 1
    ensures (forall count: nat, a: seq<nat>, b: seq<nat>, c: seq<nat> | count <= depth ::
               TrueToCounts(depth, count, [a, b, c])) <==> depth >= 2
  {
    if depth >= 2 {
      forall count: nat, a: seq<nat>, b: seq<nat>, c: seq<nat> | count <= depth
        ensures TrueToCounts(depth, count, [a, b, c])
      {
        FullStatusIsExact(depth, [count], [a, b, c], 0);
      }
    } else {
      ThreeStages(2, 1, [0], [0], [0], 0);
      assert Pow2(2) == 4;
      assert !TrueToCounts(1, 1, [[0], [0], [0]]);
    }
  }

  /** One pass of an updater: add one downstream stage's enqueues to every count. */
  method AddStage(width: nat, counts: seq<nat>, oci: seq<nat>) returns (sums: seq<nat>)
    ensures |sums| == |counts|
    ensures forall c | 0 <= c < |counts| :: sums[c] == Narrow(counts[c] + Bit(c in oci), width)
  {
    sums := [];
    for i := 0 to |counts|
      invariant |sums| == i
      invariant forall c | 0 <= c < i :: sums[c] == Narrow(counts[c] + Bit(c in oci), width)
    {
      if i in oci {
        sums := sums + [Narrow(counts[i] + 1, width)];
      } else {
        sums := sums + [Narrow(counts[i], width)];
      }
    }
  }

  /** The final comparison of an updater. */
  method Saturated(depth: nat, counts: seq<nat>) returns (full: seq<bool>)
    ensures |full| == |counts|
    ensures forall c | 0 <= c < |counts| :: full[c] == (counts[c] >= depth)
  {
    full := [];
    for k := 0 to |counts|
      invariant |full| == k
      invariant forall c | 0 <= c < k :: full[c] == (counts[c] >= depth)
    {
      full := full + [counts[k] >= depth];
    }
  }

  /** The two-stage updater: one pass per stage, then the comparison. */
  method TwoStageFull(depth: nat, counts: seq<nat>, first: seq<nat>, second: seq<nat>) returns (full: seq<bool>)
    ensures full == FullStatus(depth, counts, [first, second])
  {
    var width := CountWidth(depth) + 1;
    hide Bumped, Narrow, InFlight;
    var one := AddStage(width, counts, first);
    var two := AddStage(width, one, second);
    full := Saturated(depth, two);
    forall c | 0 <= c < |counts| ensures full[c] == FullStatus(depth, counts, [first, second])[c] {
      TwoStages(width, counts[c], first, second, c);
    }
  }

  /** The three-stage updater. */
  method ThreeStageFull(depth: nat, counts: seq<nat>, first: seq<nat>, second: seq<nat>, third: seq<nat>)
    returns (full: seq<bool>)
    ensures full == FullStatus(depth, counts, [first, second, third])
  {
    var width := CountWidth(depth) + 1;
    hide Bumped, Narrow, InFlight;
    var one := AddStage(width, counts, first);
    var two := AddStage(width, one, second);
    var three := AddStage(width, two, third);
    full := Saturated(depth, three);
    forall c | 0 <= c < |counts| ensures full[c] == FullStatus(depth, counts, [first, second, third])[c] {
      ThreeStages(width, counts[c], first, second, third, c);
    }
  }

  // --- Output channels, pessimistic ---

  function PessimisticFull(full: seq<bool>, stages: seq<seq<nat>>): (r: seq<bool>)
    ensures |r| == |full|
    ensures forall c | 0 <= c < |full| :: r[c] == (full[c] || InFlight(stages, c) > 0)
  {
    seq(|full|, c requires 0 <= c < |full| => full[c] || InFlight(stages, c) > 0)
  }

  /** One mask of a pessimistic updater: everything already full, and everything this stage will enqueue on. */
  method StageMask(full: seq<bool>, oci: seq<nat>) returns (mask: seq<bool>)
    ensures |mask| == |full|
    ensures forall c | 0 <= c < |full| :: mask[c] == (c in oci || full[c])
  {
    mask := [];
    for i := 0 to |full|
      invariant |mask| == i
      invariant forall c | 0 <= c < i :: mask[c] == (c in oci || full[c])
    {
      if i in oci {
        mask := mask + [true];
      } else {
        mask := mask + [full[i]];
      }
    }
  }

  /** The pessimistic three-stage updater: a mask per stage, then their disjunction. */
  method PessimisticThreeStageFull(full: seq<bool>, first: seq<nat>, second: seq<nat>, third: seq<nat>)
    returns (r: seq<bool>)
    ensures r == PessimisticFull(full, [first, second, third])
  {
    var one := StageMask(full, first);
    var two := StageMask(full, second);
    var three := StageMask(full, third);
    r := seq(|full|, c requires 0 <= c < |full| => one[c] || two[c] || three[c]);
    forall c | 0 <= c < |full| ensures r[c] == PessimisticFull(full, [first, second, third])[c] {
      ThreeStages(0, 0, first, second, third, c);
    }
  }

  /** The pessimistic two-stage updater. */
  method PessimisticTwoStageFull(full: seq<bool>, first: seq<nat>, second: seq<nat>) returns (r: seq<bool>)
    ensures r == PessimisticFull(full, [first, second])
  {
    var one := StageMask(full, first);
    var two := StageMask(full, second);
    r := seq(|full|, c requires 0 <= c < |full| => one[c] || two[c]);
    forall c | 0 <= c < |full| ensures r[c] == PessimisticFull(full, [first, second])[c] {
      TwoStages(0, 0, first, second, c);
    }
  }

  /** Whatever the exact status marks full, the pessimistic one marks full too. */
  lemma PessimisticCovers(depth: nat, counts: seq<nat>, full: seq<bool>, stages: seq<seq<nat>>, c: nat)
    requires depth >= 2 && |stages| <= 3
    requires c < |counts| == |full| && counts[c] <= depth && full[c] == (counts[c] == depth)
    ensures FullStatus(depth, counts, stages)[c] ==> PessimisticFull(full, stages)[c]
  {
    FullStatusIsExact(depth, counts, stages, c);
  }

  // --- Input channels ---

  function EmptyStatus(counts: seq<nat>, icd: seq<nat>): (r: seq<bool>)
    ensures |r| == |counts|
    ensures forall c | 0 <= c < |counts| :: r[c] == (counts[c] <= Bit(c in icd))
  {
    seq(|counts|, c requires 0 <= c < |counts| => counts[c] <= Bit(c in icd))
  }

  /** The empty-status updater: saturating decrement of every channel about to be dequeued, then a zero test. */
  method OneStageEmpty(counts: seq<nat>, icd: seq<nat>) returns (empty: seq<bool>)
    ensures empty == EmptyStatus(counts, icd)
  {
    var updated := new nat[|counts|];
    for i := 0 to |counts|
      modifies updated
      invariant forall c | 0 <= c < i :: updated[c] == if c in icd && counts[c] > 0 then counts[c] - 1 else counts[c]
    {
      if i in icd {
        if counts[i] == 0 { updated[i] := 0; } else { updated[i] := counts[i] - 1; }
      } else {
        updated[i] := counts[i];
      }
    }
    empty := [];
    for j := 0 to |counts|
      invariant |empty| == j
      invariant forall c | 0 <= c < j :: empty[c] == EmptyStatus(counts, icd)[c]
    {
      empty := empty + [updated[j] == 0];
    }
  }

  function PessimisticEmpty(empty: seq<bool>, icd: seq<nat>): (r: seq<bool>)
    ensures |r| == |empty|
    ensures forall c | 0 <= c < |empty| :: r[c] == (empty[c] || c in icd)
  {
    seq(|empty|, c requires 0 <= c < |empty| => empty[c] || c in icd)
  }

  // --- How pessimistic ---

  /** A count that fits the full signal, and leaves no room once `moving` packets have arrived. */
  predicate LeavesNoRoom(depth: nat, full: bool, moving: nat, count: nat) {
    count <= depth && (count == depth <==> full) && count + moving >= depth
  }

  /** A count that fits the empty signal, and leaves no packet once the pending dequeue is done. */
  predicate LeavesNothing(empty: bool, dequeue: bool, count: nat) {
    (count == 0 <==> empty) && count <= if dequeue then 1 else 0
  }

  ghost predicate MayHaveNoRoom(depth: nat, full: bool, moving: nat) {
    exists count: nat :: LeavesNoRoom(depth, full, moving, count)
  }

  ghost predicate MayHaveNothing(empty: bool, dequeue: bool) {
    exists count: nat :: LeavesNothing(empty, dequeue, count)
  }

  lemma NoRoomIff(depth: nat, full: bool, moving: nat)
    requires depth > 0
    ensures full || moving > 0 <==> MayHaveNoRoom(depth, full, moving)
  {
    if full {
      assert LeavesNoRoom(depth, full, moving, depth);
    } else if moving > 0 {
      var most: nat := depth - 1;
      assert LeavesNoRoom(depth, full, moving, most);
    }
  }

  lemma NothingIff(empty: bool, dequeue: bool)
    ensures empty || dequeue <==> MayHaveNothing(empty, dequeue)
  {
    if empty {
      assert LeavesNothing(empty, dequeue, 0);
    } else if dequeue {
      assert LeavesNothing(empty, dequeue, 1);
    }
  }

  /**
   * The pessimistic status blocks no more than it must: a channel is marked exactly if, for all that its full or empty
   * signal tells, it could have no room or no packet once everything in flight is done.
   */
  lemma PessimismIsLeast(depth: nat, full: seq<bool>, stages: seq<seq<nat>>, empty: seq<bool>, icd: seq<nat>, c: nat)
    requires depth > 0
    ensures c < |full| ==>
      (PessimisticFull(full, stages)[c] <==> MayHaveNoRoom(depth, full[c], InFlight(stages, c)))
    ensures c < |empty| ==>
      (PessimisticEmpty(empty, icd)[c] <==> MayHaveNothing(empty[c], c in icd))
  {
    hide MayHaveNoRoom, MayHaveNothing, InFlight;
    if c < |full| { NoRoomIff(depth, full[c], InFlight(stages, c)); }
    if c < |empty| { NothingIff(empty[c], c in icd); }
  }
}

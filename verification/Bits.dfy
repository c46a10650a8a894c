/**
 * Unsigned integers as bit strings: widths, shifts, disjunction and slices, on unbounded naturals as the
 * assembler has them.
 */
module Bits {

  function Pow2(n: nat): (r: nat)
    ensures r >= 1
  {
    if n == 0 then 1 else 2 * Pow2(n - 1)
  }

  /** Ceiling of the base-two logarithm, with Clog2(0) == Clog2(1) == 0. */
  function Clog2(n: nat): (k: nat)
    ensures n <= Pow2(k)
    ensures k > 0 ==> Pow2(k - 1) < n
  {
    if n <= 1 then 0 else Clog2((n + 1) / 2) + 1
  }

  /** Assignment to a register of the given width. */
  function Narrow(x: nat, width: nat): (r: nat)
    ensures r < Pow2(width)
    ensures x < Pow2(width) ==> r == x
  {
    SmallMod(x, Pow2(width));
    x % Pow2(width)
  }

  lemma SmallMod(x: nat, m: nat)
    requires m > 0
    ensures 0 <= x % m < m
    ensures x < m ==> x % m == x && x / m == 0
  {
  }

  lemma Doubled(x: nat, y: nat)
    ensures x * (2 * y) == 2 * (x * y)
  {
  }

  lemma {:induction false} Pow2Sum(a: nat, b: nat)
    ensures Pow2(a + b) == Pow2(a) * Pow2(b)
    decreases b
  {
    if b > 0 {
      Pow2Sum(a, b - 1);
      assert a + b - 1 == a + (b - 1);
      Doubled(Pow2(a), Pow2(b - 1));
    }
  }

  lemma {:induction false} Pow2Monotone(a: nat, b: nat)
    requires a <= b
    ensures Pow2(a) <= Pow2(b)
    decreases b
  {
    if a < b { Pow2Monotone(a, b - 1); }
  }

  // --- Operators ---

  predicate TestBit(x: nat, k: nat) {
    if k == 0 then x % 2 == 1 else TestBit(x / 2, k - 1)
  }

  function Or(a: nat, b: nat): nat {
    if a == 0 then b
    else if b == 0 then a
    else 2 * Or(a / 2, b / 2) + (if a % 2 == 1 || b % 2 == 1 then 1 else 0)
  }

  function Shl(x: nat, n: nat): nat {
    x * Pow2(n)
  }

  function Shr(x: nat, n: nat): nat {
    if n == 0 then x else Shr(x / 2, n - 1)
  }

  function BitLength(x: nat): nat {
    if x == 0 then 0 else BitLength(x / 2) + 1
  }

  /** `width` bits of a word starting at bit `lo`. */
  function Slice(x: nat, lo: nat, width: nat): (r: nat)
    ensures r < Pow2(width)
  {
    Narrow(Shr(x, lo), width)
  }

  lemma {:induction false} BitLengthFits(x: nat, width: nat)
    ensures BitLength(x) <= width <==> x < Pow2(width)
    decreases x
  {
    if x > 0 && width > 0 { BitLengthFits(x / 2, width - 1); }
  }

  lemma ZeroBits(k: nat)
    ensures !TestBit(0, k)
  {
    if k > 0 { ZeroBits(k - 1); }
  }

  lemma {:induction false} TestBitOr(a: nat, b: nat, k: nat)
    ensures TestBit(Or(a, b), k) <==> TestBit(a, k) || TestBit(b, k)
    decreases k, a
  {
    if a == 0 || b == 0 {
      ZeroBits(k);
    } else if k > 0 {
      assert Or(a, b) / 2 == Or(a / 2, b / 2);
      TestBitOr(a / 2, b / 2, k - 1);
    }
  }

  lemma {:induction false} TestBitPow2(p: nat, k: nat)
    ensures TestBit(Pow2(p), k) <==> p == k
    decreases p
  {
    if p == 0 {
      if k > 0 { ZeroBits(k - 1); }
    } else if k > 0 {
      assert Pow2(p) / 2 == Pow2(p - 1);
      TestBitPow2(p - 1, k - 1);
    }
  }

  /** A word is as long as its highest bit. */
  lemma {:induction false} HighBit(x: nat, k: nat)
    requires TestBit(x, k)
    ensures x >= Pow2(k)
    decreases k
  {
    if k > 0 { HighBit(x / 2, k - 1); }
  }

  lemma {:induction false} SomeBit(x: nat) returns (k: nat)
    requires x > 0
    ensures TestBit(x, k) && x < Pow2(k + 1)
    decreases x
  {
    if x == 1 {
      k := 0;
    } else {
      var j := SomeBit(x / 2);
      k := j + 1;
    }
  }

  /** Two words with the same bits are the same word. */
  lemma {:induction false} SameBits(x: nat, y: nat)
    requires forall k: nat :: TestBit(x, k) <==> TestBit(y, k)
    ensures x == y
    decreases x + y
  {
    if x == 0 || y == 0 {
      if x + y > 0 {
        var k := SomeBit(x + y);
        ZeroBits(k);
      }
    } else {
      assert TestBit(x, 0) <==> TestBit(y, 0);
      forall k: nat ensures TestBit(x / 2, k) <==> TestBit(y / 2, k) {
        assert TestBit(x, k + 1) <==> TestBit(y, k + 1);
      }
      SameBits(x / 2, y / 2);
    }
  }

  /** Filling freshly shifted-in zeros by disjunction is addition. */
  lemma {:induction false} OrFills(a: nat, n: nat, b: nat)
    requires b < Pow2(n)
    ensures Or(Shl(a, n), b) == Shl(a, n) + b
    decreases n
  {
    if n > 0 && a > 0 && b > 0 {
      assert Shl(a, n) == 2 * Shl(a, n - 1);
      OrFills(a, n - 1, b / 2);
    }
  }

  lemma {:induction false} ShrOfZero(n: nat)
    ensures Shr(0, n) == 0
    decreases n
  {
    if n > 0 { ShrOfZero(n - 1); }
  }

  lemma SliceOfZero(lo: nat, width: nat)
    ensures Slice(0, lo, width) == 0
  {
    ShrOfZero(lo);
  }

  lemma {:induction false} TestBitShr(x: nat, lo: nat, k: nat)
    ensures TestBit(Shr(x, lo), k) <==> TestBit(x, lo + k)
    decreases lo
  {
    if lo > 0 { TestBitShr(x / 2, lo - 1, k); }
  }

  lemma {:induction false} TestBitNarrow(x: nat, width: nat, k: nat)
    ensures TestBit(Narrow(x, width), k) <==> k < width && TestBit(x, k)
    decreases width
  {
    if width == 0 {
      ZeroBits(k);
    } else {
      NarrowHalves(x, width);
      if k > 0 { TestBitNarrow(x / 2, width - 1, k - 1); }
    }
  }

  lemma NarrowHalves(x: nat, width: nat)
    requires width > 0
    ensures Narrow(x, width) == 2 * Narrow(x / 2, width - 1) + x % 2
  {
    var m := Pow2(width - 1);
    var q, r := x / 2 / m, x / 2 % m;
    assert x == 2 * (x / 2) + x % 2 && x / 2 == m * q + r;
    Doubled(q, m);
    Distribute(2, m * q, r);
    Remainder(2 * m, q, 2 * r + x % 2);
    assert q * (2 * m) == 2 * (m * q);
  }

  /** The bits of a slice are the bits of the word at those positions. */
  lemma TestBitSlice(x: nat, lo: nat, width: nat, k: nat)
    ensures TestBit(Slice(x, lo, width), k) <==> k < width && TestBit(x, lo + k)
  {
    TestBitNarrow(Shr(x, lo), width, k);
    TestBitShr(x, lo, k);
  }

  lemma SliceOfSlice(x: nat, lo: nat, width: nat, at: nat, inner: nat)
    requires at + inner <= width
    ensures Slice(Slice(x, lo, width), at, inner) == Slice(x, lo + at, inner)
  {
    var a, b := Slice(Slice(x, lo, width), at, inner), Slice(x, lo + at, inner);
    hide TestBit, Slice;
    forall k: nat ensures TestBit(a, k) <==> TestBit(b, k) {
      TestBitSlice(Slice(x, lo, width), at, inner, k);
      TestBitSlice(x, lo, width, at + k);
      TestBitSlice(x, lo + at, inner, k);
      assert lo + (at + k) == lo + at + k;
    }
    SameBits(a, b);
  }

  // --- Masks ---

  /** The word whose bits below `n` are those listed. */
  function Mask(n: nat, s: seq<nat>): (r: nat)
    ensures r < Pow2(n)
  {
    if n == 0 then 0 else Mask(n - 1, s) + (if n - 1 in s then Pow2(n - 1) else 0)
  }

  lemma {:induction false} TestBitAdd(x: nat, n: nat, k: nat)
    requires x < Pow2(n)
    ensures TestBit(x + Pow2(n), k) <==> TestBit(x, k) || k == n
    decreases n
  {
    if n == 0 {
      TestBitPow2(0, k);
      ZeroBits(k);
    } else if k > 0 {
      assert (x + Pow2(n)) / 2 == x / 2 + Pow2(n - 1);
      TestBitAdd(x / 2, n - 1, k - 1);
    } else {
      assert Pow2(n) == 2 * Pow2(n - 1);
    }
  }

  lemma {:induction false} MaskBits(n: nat, s: seq<nat>, k: nat)
    ensures TestBit(Mask(n, s), k) <==> k < n && k in s
    decreases n
  {
    if n == 0 {
      ZeroBits(k);
    } else {
      MaskBits(n - 1, s, k);
      if n - 1 in s { TestBitAdd(Mask(n - 1, s), n - 1, k); }
    }
  }

  // --- Arrays of equal fields ---

  /** Fields of one width side by side, the first in the lowest bits. */
  function Packed(width: nat, vs: seq<nat>): nat {
    if vs == [] then 0 else vs[0] + Shl(Packed(width, vs[1..]), width)
  }

  predicate Fits(width: nat, vs: seq<nat>) {
    forall k | 0 <= k < |vs| :: vs[k] < Pow2(width)
  }

  lemma Successor(n: nat, width: nat)
    requires n > 0
    ensures n * width == (n - 1) * width + width && width * n == width * (n - 1) + width
  {
  }

  lemma {:induction false} PackedFits(width: nat, vs: seq<nat>)
    requires Fits(width, vs)
    ensures Packed(width, vs) < Pow2(width * |vs|)
    decreases vs
  {
    if vs != [] {
      PackedFits(width, vs[1..]);
      Joined(Packed(width, vs[1..]), width * (|vs| - 1), vs[0], width);
      Successor(|vs|, width);
    }
  }

  /** Two fields side by side are as wide as both. */
  lemma Joined(high: nat, n: nat, low: nat, width: nat)
    requires high < Pow2(n) && low < Pow2(width)
    ensures low + Shl(high, width) < Pow2(n + width)
  {
    Pow2Sum(n, width);
    Scaled(high + 1, Pow2(n), Pow2(width));
    assert Shl(high + 1, width) == Shl(high, width) + Pow2(width);
  }

  lemma Scaled(a: nat, b: nat, m: nat)
    requires a <= b
    ensures a * m <= b * m
  {
  }

  lemma {:induction false} ShiftDownTwice(x: nat, a: nat, b: nat)
    ensures Shr(Shr(x, a), b) == Shr(x, a + b)
    decreases a
  {
    if a > 0 { ShiftDownTwice(x / 2, a - 1, b); }
  }

  /** A word splits at any bit into the part above and the part below. */
  lemma {:induction false} Split(q: nat, n: nat, r: nat)
    requires r < Pow2(n)
    ensures Shr(Shl(q, n) + r, n) == q
    ensures Narrow(Shl(q, n) + r, n) == r
    decreases n
  {
    if n > 0 {
      assert Shl(q, n) == 2 * Shl(q, n - 1);
      Split(q, n - 1, r / 2);
      assert (Shl(q, n) + r) / 2 == Shl(q, n - 1) + r / 2;
    }
    Remainder(Pow2(n), q, r);
  }

  lemma Distribute(m: nat, a: nat, b: nat)
    ensures m * (a + b) == m * a + m * b
  {
  }

  /** Whatever is strictly smaller stays smaller by a whole multiple. */
  lemma Scale(m: nat, a: nat, b: nat)
    ensures a < b ==> m * a + m <= m * b
  {
    if a < b {
      Distribute(m, a + 1, b - a - 1);
      Distribute(m, a, 1);
    }
  }

  lemma Remainder(m: nat, q: nat, r: nat)
    requires r < m
    ensures (q * m + r) % m == r
  {
    var x := q * m + r;
    assert x == m * (x / m) + x % m;
    Scale(m, x / m, q);
    Scale(m, q, x / m);
  }

  /** Every field of a packed array is found in its slot. */
  lemma {:induction false} SlotOfPacked(width: nat, vs: seq<nat>, j: nat)
    requires j < |vs| && Fits(width, vs)
    ensures Slice(Packed(width, vs), width * j, width) == vs[j]
    decreases j
  {
    var rest := Packed(width, vs[1..]);
    var x := Packed(width, vs);
    Split(rest, width, vs[0]);
    if j == 0 {
      assert Shr(x, 0) == x;
    } else {
      SlotOfPacked(width, vs[1..], j - 1);
      assert width * j == width + width * (j - 1);
      ShiftDownTwice(x, width, width * (j - 1));
    }
  }

  function Zeros(n: nat): (r: seq<nat>)
    ensures |r| == n && forall k | 0 <= k < n :: r[k] == 0
  {
    seq(n, _ => 0)
  }

  /** Shifting a packed array makes room for empty fields below it. */
  lemma {:induction false} PackedAbove(width: nat, n: nat, vs: seq<nat>)
    ensures Packed(width, Zeros(n) + vs) == Shl(Packed(width, vs), n * width)
    decreases n
  {
    if n == 0 {
      assert Zeros(0) + vs == vs;
    } else {
      PackedAbove(width, n - 1, vs);
      assert (Zeros(n) + vs)[1..] == Zeros(n - 1) + vs;
      assert Packed(width, Zeros(n) + vs) == Shl(Packed(width, Zeros(n - 1) + vs), width);
      ShiftTwice(Packed(width, vs), (n - 1) * width, width);
      Successor(n, width);
    }
  }

  lemma ShiftTwice(x: nat, a: nat, b: nat)
    ensures Shl(Shl(x, a), b) == Shl(x, a + b)
  {
    Pow2Sum(a, b);
    MulAssociates(x, Pow2(a), Pow2(b));
  }

  lemma MulAssociates(a: nat, b: nat, c: nat)
    ensures a * b * c == a * (b * c)
  {
  }
}

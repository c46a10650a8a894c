/**
 * Predicate patterns in assembly text, and the assembler's choice of which predicates an instruction still has
 * to update given the pattern it was triggered on.
 */
module PredicateUpdates {
  import opened Prelude
  import opened Instructions
  import opened Sequential

  predicate DontCare(c: char) { c == 'X' || c == 'x' || c == 'Z' || c == 'z' }

  predicate ValidPattern(s: string) {
    forall k | 0 <= k < |s| :: s[k] == '0' || s[k] == '1' || DontCare(s[k])
  }

  /** The character for predicate `i`: patterns are written with predicate 0 last. */
  function At(s: string, i: nat): char
    requires i < |s|
  {
    s[|s| - 1 - i]
  }

  /** The predicates below `n` marked with the given character, in ascending order. */
  function Marked(s: string, c: char, n: nat): seq<nat>
    requires n <= |s|
  {
    if n == 0 then [] else Marked(s, c, n - 1) + (if At(s, n - 1) == c then [n - 1] else [])
  }

  lemma {:induction false} MarkedMeans(s: string, c: char, n: nat)
    requires n <= |s|
    ensures forall i: nat :: i in Marked(s, c, n) <==> i < n && At(s, i) == c
    ensures Ascending(Marked(s, c, n)) && forall k | 0 <= k < |Marked(s, c, n)| :: Marked(s, c, n)[k] < n
  {
    if n > 0 { MarkedMeans(s, c, n - 1); }
  }

  predicate Ascending(s: seq<nat>) {
    forall j, k | 0 <= j < k < |s| :: s[j] < s[k]
  }

  datatype ParseError = IllegalCharacter(c: char)

  datatype Pattern = Pattern(trues: seq<nat>, falses: seq<nat>)

  /** A pass over the reversed pattern. It fails exactly on patterns with a character other than 0, 1, X and Z. */
  method ParsePattern(s: string) returns (r: Outcome<Pattern, ParseError>)
    ensures r.Ok? <==> ValidPattern(s)
    ensures r.Ok? ==> r.value == Pattern(Marked(s, '1', |s|), Marked(s, '0', |s|))
  {
    var trues: seq<nat>, falses: seq<nat> := [], [];
    for i := 0 to |s|
      invariant trues == Marked(s, '1', i) && falses == Marked(s, '0', i)
      invariant forall k | |s| - i <= k < |s| :: s[k] == '0' || s[k] == '1' || DontCare(s[k])
    {
      var c := s[|s| - 1 - i];
      if c == '0' {
        falses := falses + [i];
      } else if c == '1' {
        trues := trues + [i];
      } else if !DontCare(c) {
        return Err(IllegalCharacter(c));
      }
    }
    return Ok(Pattern(trues, falses));
  }

  /** Patterns of triggers have a parser of their own, which does not know Z. */
  predicate ValidTriggerPattern(s: string) {
    forall k | 0 <= k < |s| :: s[k] == '0' || s[k] == '1' || s[k] == 'X' || s[k] == 'x'
  }

  method ParseTriggerPattern(s: string) returns (r: Outcome<Pattern, ParseError>)
    ensures r.Ok? <==> ValidTriggerPattern(s)
    ensures r.Ok? ==> r.value == Parsed(s)
  {
    var trues: seq<nat>, falses: seq<nat> := [], [];
    for i := 0 to |s|
      invariant trues == Marked(s, '1', i) && falses == Marked(s, '0', i)
      invariant forall k | |s| - i <= k < |s| :: s[k] == '0' || s[k] == '1' || s[k] == 'X' || s[k] == 'x'
    {
      var c := s[|s| - 1 - i];
      if c == '0' {
        falses := falses + [i];
      } else if c == '1' {
        trues := trues + [i];
      } else if c != 'X' && c != 'x' {
        return Err(IllegalCharacter(c));
      }
    }
    return Ok(Pattern(trues, falses));
  }

  /** Triggers accept exactly the patterns that `set` accepts and that contain no Z. */
  lemma TriggerPatternsHaveNoZ(s: string)
    ensures ValidTriggerPattern(s) <==> ValidPattern(s) && 'Z' !in s && 'z' !in s
  {
    if ValidPattern(s) && 'Z' !in s && 'z' !in s {
      forall k | 0 <= k < |s| ensures s[k] == '0' || s[k] == '1' || s[k] == 'X' || s[k] == 'x' { assert s[k] in s; }
    }
  }

  function Parsed(s: string): Pattern {
    Pattern(Marked(s, '1', |s|), Marked(s, '0', |s|))
  }

  function Printed(n: nat, p: Pattern): (s: string)
    ensures |s| == n
    ensures forall i: nat | i < n :: At(s, i) == if i in p.trues then '1' else if i in p.falses then '0' else 'X'
  {
    seq(n, k requires 0 <= k < n =>
      var i := n - 1 - k;
      if i in p.trues then '1' else if i in p.falses then '0' else 'X')
  }

  /** Printing the two lists and parsing the text gives the lists back. */
  lemma PrintThenParse(n: nat, p: Pattern)
    requires Ascending(p.trues) && Ascending(p.falses)
    requires forall i | i in p.trues :: i < n && i !in p.falses
    requires forall i | i in p.falses :: i < n
    ensures ValidPattern(Printed(n, p)) && Parsed(Printed(n, p)) == p
  {
    var s := Printed(n, p);
    forall k | 0 <= k < n ensures s[k] == '0' || s[k] == '1' || DontCare(s[k]) {
      assert s[k] == At(s, n - 1 - k);
    }
    MarkedMeans(s, '1', n);
    MarkedMeans(s, '0', n);
    SameAscending(Marked(s, '1', n), p.trues);
    SameAscending(Marked(s, '0', n), p.falses);
  }

  /** Parsing a pattern and printing the lists gives it back, up to the way don't-cares are written. */
  lemma ParseThenPrint(s: string, i: nat)
    requires ValidPattern(s) && i < |s|
    ensures At(Printed(|s|, Parsed(s)), i) == if DontCare(At(s, i)) then 'X' else At(s, i)
  {
    assert At(s, i) == s[|s| - 1 - i];
    MarkedMeans(s, '1', |s|);
    MarkedMeans(s, '0', |s|);
  }

  lemma HeadIsIn(s: seq<nat>)
    requires s != []
    ensures s[0] in s
  {
  }

  lemma {:induction false} SameAscending(a: seq<nat>, b: seq<nat>)
    requires Ascending(a) && Ascending(b)
    requires forall i: nat :: i in a <==> i in b
    ensures a == b
    decreases |a|
  {
    if a == [] {
      if b != [] {
        HeadIsIn(b);
        assert false;
      }
    } else {
      assert a[0] in a && a[0] in b;
      assert b[0] in b && b[0] in a;
      assert a[0] == b[0];
      forall i: nat ensures i in a[1..] <==> i in b[1..] {
        assert i in a <==> i == a[0] || i in a[1..];
        assert i in b <==> i == b[0] || i in b[1..];
      }
      SameAscending(a[1..], b[1..]);
    }
  }

  // --- Which predicates to update ---

  /** What the assembler keeps of a desired pattern: bits the trigger pattern does not already guarantee. */
  predicate Kept(original: string, desired: string, i: nat, b: bool) {
    && i < |desired|
    && At(desired, i) == (if b then '1' else '0')
    && !(i < |original| && At(original, i) == At(desired, i))
  }

  predicate ByIndex(us: seq<PredicateUpdate>) {
    forall j, k | 0 <= j < k < |us| :: us[j].index < us[k].index
  }

  /** Stable insertion by index: the library sort on a list without repeated indices. */
  function Insert(u: PredicateUpdate, us: seq<PredicateUpdate>): (r: seq<PredicateUpdate>)
    ensures forall x :: x in r <==> x == u || x in us
    ensures ByIndex(us) && (forall x | x in us :: x.index != u.index) ==> ByIndex(r)
    decreases us
  {
    if us == [] || u.index < us[0].index then
      assert forall x :: x in [u] + us <==> x == u || x in us;
      [u] + us
    else
      var rest := Insert(u, us[1..]);
      assert forall x :: x in us <==> x == us[0] || x in us[1..];
      assert forall x :: x in [us[0]] + rest <==> x == us[0] || x in rest;
      assert ByIndex(us) && (forall x | x in us :: x.index != u.index) ==> forall k | 0 <= k < |rest| :: us[0].index < rest[k].index by {
        assert forall k | 0 <= k < |rest| :: rest[k] in rest;
      }
      [us[0]] + rest
  }

  /** One pass: keep what is wanted and not already there. */
  method KeepMissing(start: seq<PredicateUpdate>, wanted: seq<nat>, have: seq<nat>, b: bool) returns (us: seq<PredicateUpdate>)
    requires ByIndex(start) && Ascending(wanted)
    requires forall u | u in start :: u.index !in wanted
    ensures ByIndex(us)
    ensures forall u :: u in us <==> u in start || (u.value == b && u.index in wanted && u.index !in have)
  {
    hide ByIndex, Insert;
    us := start;
    for j := 0 to |wanted|
      invariant ByIndex(us)
      invariant forall u :: u in us <==> u in start || (u.value == b && u.index in wanted[..j] && u.index !in have)
    {
      var p := wanted[j];
      assert wanted[..j + 1] == wanted[..j] + [p];
      assert p !in wanted[..j] && p in wanted;
      if p !in have { us := Insert(PredicateUpdate(p, b), us); }
    }
    assert wanted[..|wanted|] == wanted;
  }

  /** The assembler's update list: two passes over the desired pattern, then a sort by index. */
  method DetermineUpdates(original: string, desired: string) returns (r: Outcome<seq<PredicateUpdate>, ParseError>)
    ensures r.Ok? <==> ValidPattern(original) && ValidPattern(desired)
    ensures r.Ok? ==> ByIndex(r.value) && forall i: nat, b :: PredicateUpdate(i, b) in r.value <==> Kept(original, desired, i, b)
  {
    hide Ascending, ValidPattern, Marked;
    var before :- ParsePattern(original);
    var after :- ParsePattern(desired);
    MarkedMeans(original, '1', |original|);
    MarkedMeans(original, '0', |original|);
    MarkedMeans(desired, '1', |desired|);
    MarkedMeans(desired, '0', |desired|);
    var us := KeepMissing([], after.trues, before.trues, true);
    us := KeepMissing(us, after.falses, before.falses, false);
    return Ok(us);
  }

  // --- Elision ---

  /** Predicates that satisfy a trigger pattern. */
  predicate Satisfies(p: seq<bool>, pattern: string) {
    |pattern| <= |p| && forall i: nat | i < |pattern| :: (At(pattern, i) == '1' ==> p[i]) && (At(pattern, i) == '0' ==> !p[i])
  }

  /** Satisfying a pattern is satisfying the two predicate lists a trigger is given for it. */
  lemma PatternIsTrigger(p: seq<bool>, s: string)
    requires |s| <= |p|
    ensures Satisfies(p, s)
       <==> (forall k | k in Parsed(s).trues :: k < |p| && p[k]) && (forall k | k in Parsed(s).falses :: k < |p| && !p[k])
  {
    MarkedMeans(s, '1', |s|);
    MarkedMeans(s, '0', |s|);
  }

  /** What `set %p = desired` says: every predicate the pattern mentions takes its value. */
  function Assigned(p: seq<bool>, desired: string): (r: seq<bool>)
    ensures |r| == |p|
    ensures forall i: nat | i < |p| ::
      r[i] == if i < |desired| && At(desired, i) == '1' then true else if i < |desired| && At(desired, i) == '0' then false else p[i]
  {
    seq(|p|, i requires 0 <= i < |p| =>
      if i < |desired| && At(desired, i) == '1' then true else if i < |desired| && At(desired, i) == '0' then false else p[i])
  }

  /** A bit left out of the update list because the trigger pattern already has it. */
  predicate Elided(original: string, desired: string, i: nat) {
    && i < |original| && i < |desired|
    && At(original, i) == At(desired, i)
    && (At(desired, i) == '0' || At(desired, i) == '1')
  }

  /** The datapath overwrites an elided bit with the other value. */
  predicate Clobbers(original: string, desired: string, d: Destination, value: bool) {
    && d.PredicateDestination?
    && Elided(original, desired, d.index)
    && value != (At(desired, d.index) == '1')
  }

  lemma {:induction false} AssignUpdatesAt(p: seq<bool>, us: seq<PredicateUpdate>, i: nat)
    requires ByIndex(us) && i < |p|
    ensures forall b :: PredicateUpdate(i, b) in us ==> AssignUpdates(p, us)[i] == b
    ensures (forall b :: PredicateUpdate(i, b) !in us) ==> AssignUpdates(p, us)[i] == p[i]
  {
    DistinctIsUnambiguous(us);
    MaskIsAssignment(p, us);
    forall b | PredicateUpdate(i, b) in us ensures PredicateUpdate(i, !b) !in us { }
  }

  /**
   * Applying only the kept updates after the datapath write is assigning the whole desired pattern, exactly when
   * the datapath does not overwrite a bit that was elided. Without a predicate destination it always is.
   */
  lemma ElisionPreservesMeaningIff(original: string, desired: string, us: seq<PredicateUpdate>, p: seq<bool>, d: Destination, value: bool)
    requires ByIndex(us) && forall i: nat, b :: PredicateUpdate(i, b) in us <==> Kept(original, desired, i, b)
    requires Satisfies(p, original)
    requires d.PredicateDestination? ==> d.index < |p|
    ensures
      var q := if d.PredicateDestination? then SetPredicate(p, d.index, value) else p;
      AssignUpdates(q, us) == Assigned(q, desired) <==> !Clobbers(original, desired, d, value)
  {
    var q := if d.PredicateDestination? then SetPredicate(p, d.index, value) else p;
    forall i: nat | i < |q|
      ensures AssignUpdates(q, us)[i] == Assigned(q, desired)[i]
         <==> !(d == PredicateDestination(i) && Elided(original, desired, i) && value != (At(desired, i) == '1'))
    {
      AssignUpdatesAt(q, us, i);
      assert PredicateUpdate(i, true) in us <==> Kept(original, desired, i, true);
      assert PredicateUpdate(i, false) in us <==> Kept(original, desired, i, false);
    }
  }
}

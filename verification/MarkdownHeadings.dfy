/** Heading anchors: duplicate suffixes, and exactly when two headings share an anchor. */
module MarkdownHeadings {

  // ---------------------------------------------------------------- decimal suffixes

  const DIGITS := "0123456789"

  function Decimal(n: nat): (text: string)
    ensures text != [] && '-' !in text && (|text| == 1 <==> n < 10)
  {
    if n < 10 then [DIGITS[n]] else Decimal(n / 10) + [DIGITS[n % 10]]
  }

  lemma {:induction false} DecimalIsInjective(m: nat, n: nat)
    requires Decimal(m) == Decimal(n)
    ensures m == n
  {
    assert forall i, j | 0 <= i < 10 && 0 <= j < 10 && DIGITS[i] == DIGITS[j] :: i == j;
    if m < 10 {
      assert Decimal(m)[0] == DIGITS[m] && Decimal(n)[0] == DIGITS[n];
    } else {
      var last := |Decimal(m)| - 1;
      assert Decimal(m)[last] == DIGITS[m % 10] && Decimal(n)[last] == DIGITS[n % 10];
      assert Decimal(m)[..last] == Decimal(m / 10) && Decimal(n)[..last] == Decimal(n / 10);
      DecimalIsInjective(m / 10, n / 10);
    }
  }

  predicate IsDigit(c: char) { '0' <= c <= '9' }

  /** The number a string of digits stands for. */
  function Read(text: string): nat
    requires forall c | c in text :: IsDigit(c)
  {
    if text == "" then 0
    else
      var last := text[|text| - 1];
      assert last in text && IsDigit(last) && last as int >= '0' as int;
      Read(text[..|text| - 1]) * 10 + (last as int - '0' as int)
  }

  /** The suffix is the number in decimal digits, without a leading zero. */
  lemma {:induction false} DecimalMeans(n: nat)
    ensures (forall c | c in Decimal(n) :: IsDigit(c)) && Read(Decimal(n)) == n
    ensures Decimal(n)[0] == '0' ==> n == 0
  {
    if n < 10 {
      assert Decimal(n)[..0] == "";
      assert DIGITS[n] as int == '0' as int + n;
    } else {
      DecimalMeans(n / 10);
      assert DIGITS[n % 10] as int == '0' as int + n % 10;
      assert Decimal(n)[..|Decimal(n)| - 1] == Decimal(n / 10);
    }
  }

  function Suffixed(base: string, count: nat): string { base + "-" + Decimal(count) }

  /** The anchor of a heading that `count` earlier headings share their base with. */
  function Anchor(base: string, count: nat): string {
    if count == 0 then base else Suffixed(base, count)
  }

  lemma NoLaterDash(base: string, count: nat, k: nat)
    requires |base| < k < |Suffixed(base, count)|
    ensures Suffixed(base, count)[k] != '-'
  {
    assert Suffixed(base, count)[k] == Decimal(count)[k - |base| - 1];
  }

  lemma LastDash(base: string, count: nat, other: string, number: nat)
    requires Suffixed(base, count) == Suffixed(other, number)
    ensures |other| <= |base|
  {
    if |base| < |other| { NoLaterDash(base, count, |other|); }
  }

  /** The suffix is the part after the last dash. */
  lemma SuffixedIsInjective(base: string, count: nat, other: string, number: nat)
    requires Suffixed(base, count) == Suffixed(other, number)
    ensures base == other && count == number
  {
    var text := Suffixed(base, count);
    LastDash(base, count, other, number);
    LastDash(other, number, base, count);
    assert text[|base| + 1..] == Decimal(count) && text[|other| + 1..] == Decimal(number);
    assert text[..|base|] == base && text[..|other|] == other;
    DecimalIsInjective(count, number);
  }

  // ---------------------------------------------------------------- anchors

  /** How many of the first `i` bases are `base`. */
  function Occurrences(bases: seq<string>, base: string, i: nat): (count: nat)
    requires i <= |bases|
    ensures count <= i
  {
    if i == 0 then 0 else Occurrences(bases, base, i - 1) + if bases[i - 1] == base then 1 else 0
  }

  function AnchorAt(bases: seq<string>, i: nat): string
    requires i < |bases|
  {
    Anchor(bases[i], Occurrences(bases, bases[i], i))
  }

  function Bases(headings: seq<string>, normalize: string -> string): (bases: seq<string>)
    ensures |bases| == |headings| && forall i | 0 <= i < |bases| :: bases[i] == normalize(headings[i])
  {
    seq(|headings|, i requires 0 <= i < |headings| => normalize(headings[i]))
  }

  /** `counts` holds how often each base occurred so far. */
  ghost predicate Counted(counts: map<string, nat>, bases: seq<string>, i: nat)
    requires i <= |bases|
  {
    forall base :: (if base in counts then counts[base] else 0) == Occurrences(bases, base, i)
  }

  method AssignHeadingAnchors(headings: seq<string>, normalize: string -> string) returns (anchors: seq<string>)
    ensures |anchors| == |headings|
    ensures forall i | 0 <= i < |anchors| :: anchors[i] == AnchorAt(Bases(headings, normalize), i)
  {
    ghost var bases := Bases(headings, normalize);
    var counts: map<string, nat> := map[];
    anchors := [];
    for i := 0 to |headings|
      invariant |anchors| == i && Counted(counts, bases, i)
      invariant forall k | 0 <= k < i :: anchors[k] == AnchorAt(bases, k)
    {
      var base := normalize(headings[i]);
      var count := if base in counts then counts[base] else 0;
      assert count == Occurrences(bases, base, i);
      anchors := anchors + [if count == 0 then base else base + "-" + Decimal(count)];
      counts := counts[base := count + 1];
    }
  }

  lemma {:induction false} OccurrencesMean(bases: seq<string>, base: string, i: nat)
    requires i <= |bases|
    ensures Occurrences(bases, base, i) == |set k: nat | k < i && bases[k] == base|
  {
    var places := set k: nat | k < i && bases[k] == base;
    if i == 0 {
      assert places == {};
    } else {
      OccurrencesMean(bases, base, i - 1);
      var before := set k: nat | k < i - 1 && bases[k] == base;
      assert places == if bases[i - 1] == base then before + {i - 1} else before;
    }
  }

  /** A heading without an earlier one of its base keeps the base; any other is followed by a dash and
      the number of the earlier ones. */
  lemma AnchorsMean(bases: seq<string>, i: nat)
    requires i < |bases|
    ensures var earlier := |set k: nat | k < i && bases[k] == bases[i]|;
            AnchorAt(bases, i) == if earlier == 0 then bases[i] else bases[i] + "-" + Decimal(earlier)
  {
    OccurrencesMean(bases, bases[i], i);
  }

  lemma {:induction false} OccurrencesGrow(bases: seq<string>, base: string, i: nat, j: nat)
    requires i <= j <= |bases|
    ensures Occurrences(bases, base, i) <= Occurrences(bases, base, j)
    decreases j
  {
    if i < j { OccurrencesGrow(bases, base, i, j - 1); }
  }

  /** Headings with one base get different anchors. */
  lemma UniqueWithinBase(bases: seq<string>, i: nat, j: nat)
    requires i < j < |bases| && bases[i] == bases[j]
    ensures AnchorAt(bases, i) != AnchorAt(bases, j)
  {
    var base := bases[i];
    OccurrencesGrow(bases, base, i + 1, j);
    if Occurrences(bases, base, i) > 0 && AnchorAt(bases, i) == AnchorAt(bases, j) {
      SuffixedIsInjective(base, Occurrences(bases, base, i), base, Occurrences(bases, base, j));
    }
  }

  /** The headings after a heading have no influence on its anchor. */
  lemma {:induction false} OccurrencesArePrefix(bases: seq<string>, more: seq<string>, base: string, i: nat)
    requires i <= |bases|
    ensures Occurrences(bases + more, base, i) == Occurrences(bases, base, i)
    decreases i
  {
    if i > 0 { OccurrencesArePrefix(bases, more, base, i - 1); }
  }

  lemma AnchorsAreStable(bases: seq<string>, more: seq<string>, i: nat)
    requires i < |bases|
    ensures AnchorAt(bases + more, i) == AnchorAt(bases, i)
  {
    OccurrencesArePrefix(bases, more, bases[i], i);
  }

  // ---------------------------------------------------------------- collisions between bases

  ghost predicate Distinct(bases: seq<string>) {
    forall i, j | 0 <= i < j < |bases| :: AnchorAt(bases, i) != AnchorAt(bases, j)
  }

  /** A heading's own base is the base of other headings with a suffix that one of them gets. */
  ghost predicate TakesSuffix(bases: seq<string>, i: nat, j: nat, count: nat)
    requires i < |bases| && j < |bases|
  {
    count > 0 && bases[i] == Suffixed(bases[j], count) && Occurrences(bases, bases[j], |bases|) > count
  }

  ghost predicate Collides(bases: seq<string>) {
    exists i: nat, j: nat, count: nat | i < |bases| && j < |bases| :: TakesSuffix(bases, i, j, count)
  }

  /** The heading at which a base occurs for the time after `count` others. */
  lemma {:induction false} NthOccurrence(bases: seq<string>, base: string, count: nat, i: nat) returns (k: nat)
    requires i <= |bases| && Occurrences(bases, base, i) > count
    ensures k < i && bases[k] == base && Occurrences(bases, base, k) == count
    decreases i
  {
    if Occurrences(bases, base, i - 1) > count {
      k := NthOccurrence(bases, base, count, i - 1);
    } else {
      k := i - 1;
    }
  }

  /** Two headings with one anchor: the bases differ, and one of them is the other with its suffix. */
  lemma EqualAnchorsCollide(bases: seq<string>, i: nat, j: nat)
    requires i < |bases| && j < |bases| && i != j && AnchorAt(bases, i) == AnchorAt(bases, j)
    ensures Collides(bases)
  {
    var m, n := Occurrences(bases, bases[i], i), Occurrences(bases, bases[j], j);
    if bases[i] == bases[j] {
      if i < j { UniqueWithinBase(bases, i, j); } else { UniqueWithinBase(bases, j, i); }
    } else if m > 0 && n > 0 {
      SuffixedIsInjective(bases[i], m, bases[j], n);
    } else if m == 0 {
      OccurrencesGrow(bases, bases[j], j + 1, |bases|);
      assert TakesSuffix(bases, i, j, n);
    } else {
      OccurrencesGrow(bases, bases[i], i + 1, |bases|);
      assert TakesSuffix(bases, j, i, m);
    }
  }

  lemma CollisionIsShared(bases: seq<string>, i: nat, j: nat, count: nat)
    requires i < |bases| && j < |bases| && TakesSuffix(bases, i, j, count)
    ensures !Distinct(bases)
  {
    var k := NthOccurrence(bases, bases[j], count, |bases|);
    OccurrencesGrow(bases, bases[i], i + 1, |bases|);
    var first := NthOccurrence(bases, bases[i], 0, |bases|);
    assert |bases[i]| > |bases[j]|;
    assert AnchorAt(bases, k) == AnchorAt(bases, first);
    if k < first { assert AnchorAt(bases, k) == AnchorAt(bases, first); } else { assert AnchorAt(bases, first) == AnchorAt(bases, k); }
  }

  /** All anchors of a document differ exactly when no base is another base followed by "-n" that occurs more
      than n times. */
  lemma DistinctIff(bases: seq<string>)
    ensures Distinct(bases) <==> !Collides(bases)
  {
    hide TakesSuffix, AnchorAt;
    if !Distinct(bases) {
      var i: nat, j: nat :| i < j < |bases| && AnchorAt(bases, i) == AnchorAt(bases, j);
      EqualAnchorsCollide(bases, i, j);
    }
    if Collides(bases) {
      var i: nat, j: nat, count: nat :| i < |bases| && j < |bases| && TakesSuffix(bases, i, j, count);
      CollisionIsShared(bases, i, j, count);
    }
  }

  /** Three headings, two anchors. */
  lemma SharedAnchor(normalize: string -> string)
    requires normalize("Scope") == "scope" && normalize("Scope 1") == "scope-1"
    ensures var bases := Bases(["Scope", "Scope", "Scope 1"], normalize);
            AnchorAt(bases, 1) == AnchorAt(bases, 2) == "scope-1" && !Distinct(bases)
  {
    var bases := Bases(["Scope", "Scope", "Scope 1"], normalize);
    assert Occurrences(bases, "scope", 1) == 1 by { assert Occurrences(bases, "scope", 0) == 0; }
    assert Occurrences(bases, "scope-1", 2) == 0 by { assert Occurrences(bases, "scope-1", 1) == 0; }
    assert Decimal(1) == "1";
  }
}

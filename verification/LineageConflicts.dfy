/** Exactly when a clause is reported as a reviewed-value conflict, and against which clause. */
module LineageConflicts {
  import opened LineageStore
  import opened LineageMatching
  import opened LineageGraph

  /** Row `n` is the only one with the title and text of the clause. */
  ghost predicate OnlyBase(rows: seq<Row>, clause: Row, n: nat) {
    && n < |rows| && SameBase(rows[n], clause)
    && forall j | 0 <= j < |rows| && j != n :: !SameBase(rows[j], clause)
  }

  /** The reviewed value of the two clauses differs: the normalized text or the review status. */
  predicate ReviewDiffers(a: Row, b: Row) {
    a.payload.ClauseData? && b.payload.ClauseData? && (a.payload.normalized != b.payload.normalized || a.payload.review != b.payload.review)
  }

  lemma {:induction false} NoCarrier(rows: seq<Row>, clause: Row)
    requires forall j | 0 <= j < |rows| :: !SameBase(rows[j], clause)
    ensures BaseCarriers(rows, clause) == []
  {
    hide SameBase;
    if rows != [] { NoCarrier(rows[1..], clause); }
  }

  lemma {:induction false} OneCarrier(rows: seq<Row>, clause: Row, n: nat)
    requires OnlyBase(rows, clause, n)
    ensures BaseCarriers(rows, clause) == [rows[n]]
  {
    hide SameBase;
    if n == 0 {
      forall j | 0 <= j < |rows[1..]| ensures !SameBase(rows[1..][j], clause) { assert rows[1..][j] == rows[j + 1]; }
      NoCarrier(rows[1..], clause);
    } else {
      forall j | 0 <= j < |rows[1..]| && j != n - 1 ensures !SameBase(rows[1..][j], clause) { assert rows[1..][j] == rows[j + 1]; }
      assert !SameBase(rows[0], clause);
      OneCarrier(rows[1..], clause, n - 1);
    }
  }

  lemma {:induction false} CarrierIsOnly(rows: seq<Row>, clause: Row) returns (n: nat)
    requires |BaseCarriers(rows, clause)| == 1
    ensures OnlyBase(rows, clause, n) && BaseCarriers(rows, clause)[0] == rows[n]
  {
    hide SameBase;
    if SameBase(rows[0], clause) {
      n := 0;
      forall j | 0 < j < |rows| ensures !SameBase(rows[j], clause) {
        if SameBase(rows[j], clause) { CarrierCounts(rows[1..], clause, j - 1); }
      }
    } else {
      n := CarrierIsOnly(rows[1..], clause);
      n := n + 1;
      forall j | 0 <= j < |rows| && j != n ensures !SameBase(rows[j], clause) {
        if j > 0 { assert rows[j] == rows[1..][j - 1]; }
      }
    }
  }

  lemma {:induction false} CarrierCounts(rows: seq<Row>, clause: Row, j: nat)
    requires j < |rows| && SameBase(rows[j], clause)
    ensures |BaseCarriers(rows, clause)| > 0
  {
    hide SameBase;
    if j > 0 { CarrierCounts(rows[1..], clause, j - 1); }
  }

  // ---------------------------------------------------------------- who is mapped, who is not

  lemma {:induction false} MappedFrom(table: Table, legacy: seq<Row>, canonical: seq<Row>, n: nat, m: EntityMapping) returns (i: nat)
    requires n <= |legacy| && m in MappedUpTo(table, legacy, canonical, n)
    ensures i < n && Decide(legacy, canonical, i).Mapped? && m.legacy == legacy[i].id
  {
    hide Decide;
    if m in MappedUpTo(table, legacy, canonical, n - 1) {
      i := MappedFrom(table, legacy, canonical, n - 1, m);
    } else {
      i := n - 1;
    }
  }

  lemma {:induction false} UnmappedListed(legacy: seq<Row>, canonical: seq<Row>, n: nat, i: nat)
    requires i < n <= |legacy| && Decide(legacy, canonical, i).Missing?
    ensures Unresolved(CounterpartMissing, legacy[i].id, "") in UnresolvedUpTo(legacy, canonical, n)
  {
    hide Decide;
    if i < n - 1 {
      UnmappedListed(legacy, canonical, n - 1, i);
    } else {
      var all := UnresolvedUpTo(legacy, canonical, n);
      assert all[|all| - 1] == Unresolved(CounterpartMissing, legacy[i].id, "");
    }
  }

  /** A clause in conflict has no canonical carrier of its whole payload. */
  lemma ConflictIsMissing(legacy: seq<Row>, canonical: seq<Row>, k: nat, n: nat)
    requires k < |legacy| && OnlyBase(canonical, legacy[k], n) && ReviewDiffers(legacy[k], canonical[n])
    ensures Decide(legacy, canonical, k).Missing?
  {
    var carriers := Carrying(canonical, legacy[k].payload);
    if carriers != [] {
      assert carriers[0] in carriers;
      var j :| 0 <= j < |canonical| && canonical[j] == carriers[0];
      assert SameBase(canonical[j], legacy[k]);
    }
  }

  // ---------------------------------------------------------------- conflicts

  ghost predicate InConflict(legacy: seq<Row>, canonical: seq<Row>, mapped: set<Id>, unmapped: set<Id>, i: nat, u: Unresolved)
    requires i < |legacy|
  {
    && legacy[i].id !in mapped && legacy[i].id in unmapped && ReviewConflict(legacy[i], canonical)
    && u == Unresolved(ReviewedValueConflict, legacy[i].id, BaseCarriers(canonical, legacy[i])[0].id)
  }

  lemma {:induction false} ConflictMembers(legacy: seq<Row>, canonical: seq<Row>, mapped: set<Id>, unmapped: set<Id>, n: nat, u: Unresolved)
    requires n <= |legacy|
    ensures u in ConflictsUpTo(legacy, canonical, mapped, unmapped, n) <==>
            exists i | 0 <= i < n :: InConflict(legacy, canonical, mapped, unmapped, i, u)
  {
    hide ReviewConflict, BaseCarriers;
    if n > 0 {
      ConflictMembers(legacy, canonical, mapped, unmapped, n - 1, u);
      assert InConflict(legacy, canonical, mapped, unmapped, n - 1, u) ==>
        exists i | 0 <= i < n :: InConflict(legacy, canonical, mapped, unmapped, i, u);
    }
  }

  /** The reported conflicts: each legacy clause with exactly one canonical clause of its title and text, whose
      normalized text or review status differs, against that clause, and no others. */
  ghost predicate Conflict(legacy: seq<Row>, canonical: seq<Row>, u: Unresolved) {
    exists k: nat, n: nat | k < |legacy| && n < |canonical| ::
      && OnlyBase(canonical, legacy[k], n) && ReviewDiffers(legacy[k], canonical[n])
      && u == Unresolved(ReviewedValueConflict, legacy[k].id, canonical[n].id)
  }

  lemma ConflictIff(legacy: seq<Row>, canonical: seq<Row>, u: Unresolved)
    requires UniqueIds(legacy)
    ensures u.code.ReviewedValueConflict? ==> (u in ClausesUnresolved(legacy, canonical) <==> Conflict(legacy, canonical, u))
  {
    if u.code.ReviewedValueConflict? {
      var mappings, plain := MappedUpTo(Clauses, legacy, canonical, |legacy|), UnresolvedUpTo(legacy, canonical, |legacy|);
      var mapped, unmapped := set m | m in mappings :: m.legacy, set w | w in plain :: w.legacy;
      var conflicts := ConflictsUpTo(legacy, canonical, mapped, unmapped, |legacy|);
      PlainCodes(legacy, canonical, |legacy|, u);
      ConflictMembers(legacy, canonical, mapped, unmapped, |legacy|, u);
      hide Carrying, CarriedBefore, BaseCarriers, MappedUpTo, UnresolvedUpTo, ConflictsUpTo, UniqueIds;
      if u in conflicts { ConflictFound(legacy, canonical, mapped, unmapped, u); }
      if Conflict(legacy, canonical, u) { ConflictReported(legacy, canonical, mapped, unmapped, u); }
    }
  }

  lemma {:induction false} PlainCodes(legacy: seq<Row>, canonical: seq<Row>, n: nat, u: Unresolved)
    requires n <= |legacy| && u.code.ReviewedValueConflict?
    ensures u !in UnresolvedUpTo(legacy, canonical, n)
  {
    hide Decide;
    if n > 0 { PlainCodes(legacy, canonical, n - 1, u); }
  }

  lemma ConflictFound(legacy: seq<Row>, canonical: seq<Row>, mapped: set<Id>, unmapped: set<Id>, u: Unresolved)
    requires exists i | 0 <= i < |legacy| :: InConflict(legacy, canonical, mapped, unmapped, i, u)
    ensures Conflict(legacy, canonical, u)
  {
    hide BaseCarriers;
    var i :| 0 <= i < |legacy| && InConflict(legacy, canonical, mapped, unmapped, i, u);
    var n := CarrierIsOnly(canonical, legacy[i]);
    assert ReviewDiffers(legacy[i], canonical[n]);
  }

  lemma {:induction false} ConflictReported(legacy: seq<Row>, canonical: seq<Row>, mapped: set<Id>, unmapped: set<Id>, u: Unresolved)
    requires UniqueIds(legacy) && Conflict(legacy, canonical, u)
    requires forall id :: id in mapped <==> exists m | m in MappedUpTo(Clauses, legacy, canonical, |legacy|) :: m.legacy == id
    requires forall id :: id in unmapped <==> exists w | w in UnresolvedUpTo(legacy, canonical, |legacy|) :: w.legacy == id
    ensures exists i | 0 <= i < |legacy| :: InConflict(legacy, canonical, mapped, unmapped, i, u)
  {
    hide MappedUpTo, UnresolvedUpTo, BaseCarriers, Decide, SameBase;
    var k: nat, n: nat :| k < |legacy| && n < |canonical| && OnlyBase(canonical, legacy[k], n) && ReviewDiffers(legacy[k], canonical[n])
      && u == Unresolved(ReviewedValueConflict, legacy[k].id, canonical[n].id);
    OneCarrier(canonical, legacy[k], n);
    ConflictIsMissing(legacy, canonical, k, n);
    UnmappedListed(legacy, canonical, |legacy|, k);
    assert legacy[k].id in unmapped;
    if legacy[k].id in mapped {
      var m :| m in MappedUpTo(Clauses, legacy, canonical, |legacy|) && m.legacy == legacy[k].id;
      var i := MappedFrom(Clauses, legacy, canonical, |legacy|, m);
      if i != k { Different(legacy, i, k); }
    }
    assert InConflict(legacy, canonical, mapped, unmapped, k, u);
  }

  lemma Different(rows: seq<Row>, i: nat, k: nat)
    requires UniqueIds(rows) && i < |rows| && k < |rows| && i != k
    ensures rows[i].id != rows[k].id
  {
    if i < k { assert rows[i].id != rows[k].id; } else { assert rows[k].id != rows[i].id; }
  }
}

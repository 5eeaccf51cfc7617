/** Greedy counterpart matching, and the closed form it computes. */
module LineageMatching {
  import opened LineageStore

  datatype EntityMapping = EntityMapping(table: Table, legacy: Id, canonical: Id)

  datatype Code =
    | LegacyDocumentNotFound | CanonicalDocumentNotFound | DocumentMetadataMismatch
    | RevisionNotFound | RevisionOwnershipMismatch | RevisionSourceHashMismatch | RevisionMetadataMismatch
    | PageSetMismatch | PageGeometryMismatch
    | CounterpartMissing | CounterpartAmbiguous | ReviewedValueConflict
    | RelationCounterpartMissing(table: Table)

  datatype Unresolved = Unresolved(code: Code, legacy: Id, canonical: Id)

  // ---------------------------------------------------------------- counting payloads

  /** The rows carrying `payload`, in order. */
  function Carrying(rows: seq<Row>, payload: Payload): (carrying: seq<Row>)
    ensures forall row :: row in carrying <==> row in rows && row.payload == payload
    ensures UniqueIds(rows) ==> UniqueIds(carrying)
  {
    if rows == [] then []
    else
      var rest := Carrying(rows[1..], payload);
      assert forall row :: row in rows <==> row == rows[0] || row in rows[1..];
      if rows[0].payload == payload then [rows[0]] + rest else rest
  }

  /** One of the first `n` rows carries `payload`. */
  predicate CarriedBefore(rows: seq<Row>, n: nat, payload: Payload)
    requires n <= |rows|
  {
    exists i | 0 <= i < n :: rows[i].payload == payload
  }

  /** The rows whose identifier has not been used yet. */
  function Unused(rows: seq<Row>, used: set<Id>): (unused: seq<Row>)
    ensures |unused| <= |rows|
    ensures (forall row | row in rows :: row.id !in used) ==> unused == rows
    ensures (forall row | row in rows :: row.id in used) ==> unused == []
  {
    if rows == [] then []
    else
      var rest := Unused(rows[1..], used);
      assert forall row :: row in rows <==> row == rows[0] || row in rows[1..];
      if rows[0].id in used then rest else [rows[0]] + rest
  }

  // ---------------------------------------------------------------- the closed form

  datatype Verdict = Mapped(canonical: Id) | Missing | Ambiguous(candidates: nat)

  /** What becomes of legacy row `i`: it is mapped exactly when its payload has one canonical
      carrier and no earlier legacy row took it. */
  function Decide(legacy: seq<Row>, canonical: seq<Row>, i: nat): Verdict
    requires i < |legacy|
  {
    var carriers := Carrying(canonical, legacy[i].payload);
    if |carriers| == 0 then Missing
    else if |carriers| > 1 then Ambiguous(|carriers|)
    else if CarriedBefore(legacy, i, legacy[i].payload) then Missing
    else Mapped(carriers[0].id)
  }

  function MappedUpTo(table: Table, legacy: seq<Row>, canonical: seq<Row>, n: nat): seq<EntityMapping>
    requires n <= |legacy|
  {
    if n == 0 then []
    else
      var verdict := Decide(legacy, canonical, n - 1);
      MappedUpTo(table, legacy, canonical, n - 1)
      + if verdict.Mapped? then [EntityMapping(table, legacy[n - 1].id, verdict.canonical)] else []
  }

  function UnresolvedUpTo(legacy: seq<Row>, canonical: seq<Row>, n: nat): seq<Unresolved>
    requires n <= |legacy|
  {
    if n == 0 then []
    else
      var verdict := Decide(legacy, canonical, n - 1);
      UnresolvedUpTo(legacy, canonical, n - 1)
      + match verdict
        case Mapped(_) => []
        case Missing => [Unresolved(CounterpartMissing, legacy[n - 1].id, "")]
        case Ambiguous(_) => [Unresolved(CounterpartAmbiguous, legacy[n - 1].id, "")]
  }

  ghost predicate UsedSoFar(legacy: seq<Row>, canonical: seq<Row>, n: nat, used: set<Id>)
    requires n <= |legacy|
  {
    forall id :: id in used <==>
      exists i | 0 <= i < n :: Decide(legacy, canonical, i) == Mapped(id)
  }

  /** A used identifier belongs to a row whose payload has one carrier, taken before. */
  lemma {:induction false} UsedRow(legacy: seq<Row>, canonical: seq<Row>, n: nat, used: set<Id>, row: Row)
    requires n <= |legacy| && UniqueIds(canonical) && UsedSoFar(legacy, canonical, n, used)
    requires row in canonical && row.id in used
    ensures |Carrying(canonical, row.payload)| == 1 && CarriedBefore(legacy, n, row.payload)
  {
    var i :| 0 <= i < n && Decide(legacy, canonical, i) == Mapped(row.id);
    var carriers := Carrying(canonical, legacy[i].payload);
    assert carriers[0] in carriers;
    SameRow(canonical, carriers[0], row);
  }

  /** A payload with one carrier that was met before has its carrier used. */
  lemma {:induction false} MetMeansUsed(legacy: seq<Row>, canonical: seq<Row>, n: nat, used: set<Id>, m: nat, payload: Payload)
    requires m <= n <= |legacy| && UsedSoFar(legacy, canonical, n, used)
    requires |Carrying(canonical, payload)| == 1 && CarriedBefore(legacy, m, payload)
    ensures Carrying(canonical, payload)[0].id in used
  {
    if CarriedBefore(legacy, m - 1, payload) {
      MetMeansUsed(legacy, canonical, n, used, m - 1, payload);
    } else {
      assert legacy[m - 1].payload == payload;
      assert Decide(legacy, canonical, m - 1) == Mapped(Carrying(canonical, payload)[0].id);
    }
  }

  /** The carriers of a payload are all used or all unused, and used only if there is one and
      an earlier legacy row carries the same payload. */
  lemma {:induction false} UsedCarriers(legacy: seq<Row>, canonical: seq<Row>, n: nat, used: set<Id>)
    requires n < |legacy| && UniqueIds(canonical) && UsedSoFar(legacy, canonical, n, used)
    ensures var unused := Unused(Carrying(canonical, legacy[n].payload), used);
            match Decide(legacy, canonical, n)
            case Mapped(id) => |unused| == 1 && unused[0].id == id
            case Missing => unused == []
            case Ambiguous(k) => |unused| == k && k > 1
  {
    var carriers := Carrying(canonical, legacy[n].payload);
    if |carriers| == 1 && CarriedBefore(legacy, n, legacy[n].payload) {
      MetMeansUsed(legacy, canonical, n, used, n, legacy[n].payload);
      assert forall row | row in carriers :: row == carriers[0];
    } else {
      forall row | row in carriers
        ensures row.id !in used
      {
        if row.id in used { UsedRow(legacy, canonical, n, used, row); }
      }
    }
  }

  lemma UsedGrows(legacy: seq<Row>, canonical: seq<Row>, n: nat, used: set<Id>)
    requires n < |legacy| && UsedSoFar(legacy, canonical, n, used)
    ensures UsedSoFar(legacy, canonical, n + 1,
              used + match Decide(legacy, canonical, n) case Mapped(id) => {id} case _ => {})
  {
  }

  method MatchPayloadRows(table: Table, legacyRows: seq<Row>, canonicalRows: seq<Row>)
      returns (mappings: seq<EntityMapping>, unresolved: seq<Unresolved>)
    requires UniqueIds(canonicalRows)
    ensures mappings == MappedUpTo(table, legacyRows, canonicalRows, |legacyRows|)
    ensures unresolved == UnresolvedUpTo(legacyRows, canonicalRows, |legacyRows|)
  {
    mappings, unresolved := [], [];
    var used: set<Id> := {};
    for n := 0 to |legacyRows|
      invariant mappings == MappedUpTo(table, legacyRows, canonicalRows, n)
      invariant unresolved == UnresolvedUpTo(legacyRows, canonicalRows, n)
      invariant UsedSoFar(legacyRows, canonicalRows, n, used)
    {
      var legacy := legacyRows[n];
      UsedCarriers(legacyRows, canonicalRows, n, used);
      UsedGrows(legacyRows, canonicalRows, n, used);
      hide Carrying, Decide, Unused, UsedSoFar, UniqueIds;
      var candidates := Unused(Carrying(canonicalRows, legacy.payload), used);
      if |candidates| == 0 {
        unresolved := unresolved + [Unresolved(CounterpartMissing, legacy.id, "")];
      } else if |candidates| != 1 {
        unresolved := unresolved + [Unresolved(CounterpartAmbiguous, legacy.id, "")];
      } else {
        assert Decide(legacyRows, canonicalRows, n) == Mapped(candidates[0].id);
        used := used + {candidates[0].id};
        mappings := mappings + [EntityMapping(table, legacy.id, candidates[0].id)];
      }
    }
  }

  // ---------------------------------------------------------------- what the closed form means

  /** Every legacy payload occurs exactly once on each side. */
  ghost predicate ExactlyOnce(legacy: seq<Row>, canonical: seq<Row>) {
    forall i | 0 <= i < |legacy| ::
      |Carrying(legacy, legacy[i].payload)| == 1 && |Carrying(canonical, legacy[i].payload)| == 1
  }

  lemma {:induction false} CarriedNever(rows: seq<Row>, payload: Payload)
    requires forall j | 0 <= j < |rows| :: rows[j].payload != payload
    ensures Carrying(rows, payload) == []
  {
    if rows != [] { CarriedNever(rows[1..], payload); }
  }

  lemma {:induction false} CarriedOnce(rows: seq<Row>, i: nat)
    requires i < |rows| && forall j | 0 <= j < |rows| && j != i :: rows[j].payload != rows[i].payload
    ensures |Carrying(rows, rows[i].payload)| == 1
  {
    if i > 0 {
      CarriedOnce(rows[1..], i - 1);
    } else {
      CarriedNever(rows[1..], rows[0].payload);
    }
  }

  lemma {:induction false} CarriedTwice(rows: seq<Row>, i: nat, j: nat)
    requires i < j < |rows| && rows[i].payload == rows[j].payload
    ensures |Carrying(rows, rows[i].payload)| >= 2
  {
    if i > 0 {
      CarriedTwice(rows[1..], i - 1, j - 1);
    } else {
      assert rows[j] in rows[1..];
      assert rows[j] in Carrying(rows[1..], rows[0].payload);
    }
  }

  lemma {:induction false} UnresolvedEmpty(legacy: seq<Row>, canonical: seq<Row>, n: nat)
    requires n <= |legacy|
    ensures UnresolvedUpTo(legacy, canonical, n) == [] <==>
            forall i | 0 <= i < n :: Decide(legacy, canonical, i).Mapped?
  {
    hide Decide;
    if n > 0 {
      UnresolvedEmpty(legacy, canonical, n - 1);
    }
  }

  /** Greedy matching is exact: nothing is left unresolved if and only if every legacy payload
      occurs exactly once among the legacy rows and exactly once among the canonical rows. */
  lemma {:induction false} GreedyIsExact(legacy: seq<Row>, canonical: seq<Row>)
    ensures UnresolvedUpTo(legacy, canonical, |legacy|) == [] <==> ExactlyOnce(legacy, canonical)
  {
    UnresolvedEmpty(legacy, canonical, |legacy|);
    if forall i | 0 <= i < |legacy| :: Decide(legacy, canonical, i).Mapped? {
      forall i | 0 <= i < |legacy|
        ensures |Carrying(legacy, legacy[i].payload)| == 1 && |Carrying(canonical, legacy[i].payload)| == 1
      {
        assert Decide(legacy, canonical, i).Mapped?;
        forall j | 0 <= j < |legacy| && j != i
          ensures legacy[j].payload != legacy[i].payload
        {
          assert Decide(legacy, canonical, j).Mapped?;
        }
        CarriedOnce(legacy, i);
      }
    } else {
      var i :| 0 <= i < |legacy| && !Decide(legacy, canonical, i).Mapped?;
      if CarriedBefore(legacy, i, legacy[i].payload) {
        var j :| 0 <= j < i && legacy[j].payload == legacy[i].payload;
        CarriedTwice(legacy, j, i);
      }
    }
  }

  /** Mapped and unresolved legacy rows partition the legacy rows, in order. */
  lemma {:induction false} MappedAndUnresolvedPartition(table: Table, legacy: seq<Row>, canonical: seq<Row>, n: nat)
    requires n <= |legacy|
    ensures var mappings, unresolved := MappedUpTo(table, legacy, canonical, n), UnresolvedUpTo(legacy, canonical, n);
            && |mappings| + |unresolved| == n
            && multiset(LegacyIds(mappings)) + multiset(UnresolvedIds(unresolved)) == multiset(RowIds(legacy[..n]))
  {
    hide Decide;
    if n > 0 {
      MappedAndUnresolvedPartition(table, legacy, canonical, n - 1);
      var mappings, unresolved := MappedUpTo(table, legacy, canonical, n - 1), UnresolvedUpTo(legacy, canonical, n - 1);
      assert RowIds(legacy[..n]) == RowIds(legacy[..n - 1]) + [legacy[n - 1].id];
      var last := Decide(legacy, canonical, n - 1);
      if last.Mapped? {
        var m := EntityMapping(table, legacy[n - 1].id, last.canonical);
        assert LegacyIds(mappings + [m]) == LegacyIds(mappings) + [m.legacy];
        assert unresolved + [] == unresolved;
      } else {
        var u := Unresolved(if last.Missing? then CounterpartMissing else CounterpartAmbiguous, legacy[n - 1].id, "");
        assert UnresolvedIds(unresolved + [u]) == UnresolvedIds(unresolved) + [u.legacy];
        assert mappings + [] == mappings;
      }
    }
  }

  function LegacyIds(mappings: seq<EntityMapping>): seq<Id> { seq(|mappings|, i requires 0 <= i < |mappings| => mappings[i].legacy) }
  function UnresolvedIds(items: seq<Unresolved>): seq<Id> { seq(|items|, i requires 0 <= i < |items| => items[i].legacy) }
  function RowIds(rows: seq<Row>): seq<Id> { seq(|rows|, i requires 0 <= i < |rows| => rows[i].id) }

  /** A mapping joins a legacy row and a canonical row with the same payload. */
  ghost predicate Pairs(m: EntityMapping, table: Table, legacy: seq<Row>, canonical: seq<Row>) {
    && m.table == table
    && exists a, b :: a in legacy && b in canonical && a.id == m.legacy && b.id == m.canonical && a.payload == b.payload
  }

  lemma MappedCarrier(legacy: seq<Row>, canonical: seq<Row>, i: nat) returns (carrier: Row)
    requires i < |legacy| && Decide(legacy, canonical, i).Mapped?
    ensures carrier in canonical && carrier.payload == legacy[i].payload && carrier.id == Decide(legacy, canonical, i).canonical
  {
    var carriers := Carrying(canonical, legacy[i].payload);
    carrier := carriers[0];
    assert carrier in carriers;
  }

  lemma {:induction false} MappingsPair(table: Table, legacy: seq<Row>, canonical: seq<Row>, n: nat, m: EntityMapping)
    requires n <= |legacy| && m in MappedUpTo(table, legacy, canonical, n)
    ensures Pairs(m, table, legacy, canonical)
  {
    hide Decide;
    if m in MappedUpTo(table, legacy, canonical, n - 1) {
      MappingsPair(table, legacy, canonical, n - 1, m);
    } else {
      assert Decide(legacy, canonical, n - 1).Mapped?;
      var b := MappedCarrier(legacy, canonical, n - 1);
      assert m == EntityMapping(table, legacy[n - 1].id, b.id);
      assert legacy[n - 1] in legacy;
    }
  }

  lemma {:induction false} MappedIsListed(table: Table, legacy: seq<Row>, canonical: seq<Row>, n: nat, i: nat)
    requires i < n <= |legacy| && Decide(legacy, canonical, i).Mapped?
    ensures EntityMapping(table, legacy[i].id, Decide(legacy, canonical, i).canonical)
            in MappedUpTo(table, legacy, canonical, n)
  {
    hide Decide;
    if i < n - 1 {
      MappedIsListed(table, legacy, canonical, n - 1, i);
    } else {
      var all := MappedUpTo(table, legacy, canonical, n);
      assert all[|all| - 1] == EntityMapping(table, legacy[i].id, Decide(legacy, canonical, i).canonical);
    }
  }

  /** When matching is exact, every legacy row is mapped, to its only counterpart. */
  lemma {:induction false} ExactMatchingIsTotal(table: Table, legacy: seq<Row>, canonical: seq<Row>, row: Row)
    requires ExactlyOnce(legacy, canonical) && row in legacy
    ensures exists other :: other in canonical && other.payload == row.payload
              && EntityMapping(table, row.id, other.id) in MappedUpTo(table, legacy, canonical, |legacy|)
  {
    GreedyIsExact(legacy, canonical);
    UnresolvedEmpty(legacy, canonical, |legacy|);
    var i :| 0 <= i < |legacy| && legacy[i] == row;
    MappedIsListed(table, legacy, canonical, |legacy|, i);
    var carriers := Carrying(canonical, row.payload);
    assert carriers[0] in carriers;
  }

  /** Two legacy rows never share a counterpart. */
  lemma MatchingIsInjective(legacy: seq<Row>, canonical: seq<Row>, i: nat, j: nat)
    requires i < j < |legacy| && UniqueIds(canonical)
    requires Decide(legacy, canonical, i).Mapped? && Decide(legacy, canonical, j).Mapped?
    ensures Decide(legacy, canonical, i).canonical != Decide(legacy, canonical, j).canonical
  {
    var a, b := Carrying(canonical, legacy[i].payload), Carrying(canonical, legacy[j].payload);
    assert a[0] in a && b[0] in b;
    if a[0].id == b[0].id {
      SameRow(canonical, a[0], b[0]);
    }
  }

  lemma {:induction false} OnlyCarrier(rows: seq<Row>, a: Row, b: Row)
    requires a in rows && b in rows && a.payload == b.payload && |Carrying(rows, a.payload)| == 1
    ensures a == b
  {
    var carriers := Carrying(rows, a.payload);
    assert a in carriers && b in carriers;
  }

  /** An exact matching does not depend on the order of the rows. */
  lemma {:induction false} ExactMatchingIgnoresOrder(table: Table, legacy: seq<Row>, canonical: seq<Row>,
                                  legacy': seq<Row>, canonical': seq<Row>, m: EntityMapping)
    requires UniqueIds(legacy)
    requires forall row :: row in legacy ==> row in legacy'
    requires forall row :: row in canonical ==> row in canonical'
    requires ExactlyOnce(legacy', canonical')
    requires m in MappedUpTo(table, legacy, canonical, |legacy|)
    ensures m in MappedUpTo(table, legacy', canonical', |legacy'|)
  {
    MappingsPair(table, legacy, canonical, |legacy|, m);
    var a, b :| a in legacy && b in canonical && a.id == m.legacy && b.id == m.canonical && a.payload == b.payload;
    ExactMatchingIsTotal(table, legacy', canonical', a);
    var other :| other in canonical' && other.payload == a.payload
      && EntityMapping(table, a.id, other.id) in MappedUpTo(table, legacy', canonical', |legacy'|);
    var i :| 0 <= i < |legacy'| && legacy'[i] == a;
    OnlyCarrier(canonical', b, other);
  }
}

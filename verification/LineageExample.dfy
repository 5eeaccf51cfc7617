/** Small databases: one that migrates, and READY plans that cannot be applied or leave a record behind. */
module LineageExample {
  import opened Options
  import opened LineageStore
  import opened LineageMatching
  import opened LineageGraph
  import opened LineageRelations
  import opened LineageLayers
  import opened LineagePlanner
  import opened LineageMigration
  import opened LineageOwnership
  import opened LineageSoundness
  import opened LineageTheorems

  /** The manifest maps document `legacy` to document `canonical`. */
  datatype Pair = Pair(legacy: nat, canonical: nat)

  /** Documents of one title with a revision of one source each, further revisions, and retrieval records. */
  datatype Example = Example(documents: seq<Id>, revisions: seq<Id>, pairs: seq<Pair>, extra: seq<Row>, records: seq<Row>) {
    function Documented(): (rows: seq<Row>)
      ensures |rows| == |documents| && forall i | 0 <= i < |rows| :: rows[i] == Row(documents[i], [], Title("plan"))
    {
      seq(|documents|, i requires 0 <= i < |documents| => Row(documents[i], [], Title("plan")))
    }

    function Declared(): (rows: seq<Row>)
      requires |documents| == |revisions|
      ensures |rows| == |revisions|
      ensures forall i | 0 <= i < |rows| :: rows[i] == Row(revisions[i], [documents[i]], RevisionData("hash", 1, 1))
    {
      seq(|revisions|, i requires 0 <= i < |revisions| => Row(revisions[i], [documents[i]], RevisionData("hash", 1, 1)))
    }

    function Revised(): seq<Row>
      requires |documents| == |revisions|
    {
      Declared() + extra
    }

    function Stored(): Store
      requires |documents| == |revisions|
    {
      map[Documents := Documented(), Revisions := Revised(), RetrievalRecords := records]
    }

    ghost predicate InRange() {
      |documents| == |revisions| && forall p | p in pairs :: p.legacy < |documents| && p.canonical < |documents|
    }

    function MappingOf(p: Pair): DocumentMapping
      requires InRange() && p in pairs
    {
      DocumentMapping(documents[p.legacy], documents[p.canonical], "hash", [RevisionMapping(revisions[p.legacy], revisions[p.canonical])])
    }

    function Mapped(): (manifest: Manifest)
      requires InRange()
      ensures |manifest| == |pairs| && forall k | 0 <= k < |pairs| :: manifest[k] == MappingOf(pairs[k])
    {
      seq(|pairs|, k requires 0 <= k < |pairs| => MappingOf(pairs[k]))
    }

    function First(p: Pair): EntityMapping
      requires InRange() && p in pairs
    {
      EntityMapping(Documents, documents[p.legacy], documents[p.canonical])
    }

    function Second(p: Pair): EntityMapping
      requires InRange() && p in pairs
    {
      EntityMapping(Revisions, revisions[p.legacy], revisions[p.canonical])
    }

    function Graph(): (graph: seq<EntityMapping>)
      requires InRange()
      ensures forall m :: m in graph <==> exists k | 0 <= k < |pairs| :: m == First(pairs[k]) || m == Second(pairs[k])
    {
      var firsts := seq(|pairs|, k requires 0 <= k < |pairs| => First(pairs[k]));
      var seconds := seq(|pairs|, k requires 0 <= k < |pairs| => Second(pairs[k]));
      assert forall k | 0 <= k < |pairs| :: firsts[k] == First(pairs[k]) && seconds[k] == Second(pairs[k]);
      assert forall k | 0 <= k < |pairs| :: firsts[k] in firsts + seconds && seconds[k] in firsts + seconds;
      firsts + seconds
    }

    function Plan(): Approval
      requires InRange()
    {
      Approval(Stored(), Mapped(), Graph(), [], MapIds(Graph()))
    }

    /** Different identifiers, every further revision of a document of the example, and records of
        documents that are not legacy. */
    ghost predicate Spread()
      requires InRange()
    {
      && UniqueIds(Documented()) && UniqueIds(Revised()) && UniqueIds(records)
      && (forall a, b | a in Documented() && b in Revised() :: a.id != b.id)
      && (forall row | row in extra :: |row.refs| == 1 && row.refs[0] in documents)
      && (forall p, q | p in pairs && q in pairs && (p.legacy == q.legacy || p.canonical == q.canonical) :: p == q)
      && (forall p | p in pairs :: p.legacy != p.canonical)
      && (forall record, p | record in records && p in pairs :: |record.refs| > 0 && record.refs[0] != documents[p.legacy])
    }

    ghost predicate Valid() { InRange() && Spread() }
  }

  // ---------------------------------------------------------------- the database

  lemma Tabled(e: Example)
    requires e.InRange()
    ensures Get(e.Stored(), Documents) == e.Documented() && Get(e.Stored(), Revisions) == e.Revised()
    ensures Get(e.Stored(), RetrievalRecords) == e.records
    ensures forall table | table != Documents && table != Revisions && table != RetrievalRecords :: Get(e.Stored(), table) == []
  {
  }

  lemma DocumentRow(e: Example, i: nat)
    requires e.Valid() && i < |e.documents|
    ensures Find(Get(e.Stored(), Documents), e.documents[i]) == Some(e.Documented()[i])
    ensures Present(Get(e.Stored(), Documents), e.documents[i])
  {
    hide Find, UniqueIds, Example.Stored, Get;
    Tabled(e);
    assert e.Documented()[i] in e.Documented();
    FindKeyed(e.Documented(), e.Documented()[i]);
  }

  lemma RevisionRow(e: Example, i: nat)
    requires e.Valid() && i < |e.revisions|
    ensures Find(Get(e.Stored(), Revisions), e.revisions[i]) == Some(e.Declared()[i])
    ensures e.Declared()[i] in Get(e.Stored(), Revisions)
  {
    hide Find, UniqueIds, Example.Stored, Get;
    Tabled(e);
    assert e.Revised()[i] == e.Declared()[i] && e.Revised()[i] in e.Revised();
    FindKeyed(e.Revised(), e.Declared()[i]);
  }

  lemma ExampleKeys(e: Example)
    requires e.Valid()
    ensures Keyed(e.Stored())
  {
    hide Example.Stored, Get, UniqueIds, Example.Revised;
    Tabled(e);
    forall table
      ensures UniqueIds(Get(e.Stored(), table))
    {
      if table != Documents && table != Revisions && table != RetrievalRecords { NoRows(); }
    }
  }

  lemma NoRows()
    ensures UniqueIds([])
  {
  }

  lemma ExampleIds(e: Example)
    requires e.Valid()
    ensures GlobalIds(e.Stored())
  {
    hide Example.Stored, Get, Example.Revised, UniqueIds;
    Tabled(e);
    forall t, u, a, b | t in GRAPH_TABLES && u in GRAPH_TABLES && a in Get(e.Stored(), t) && b in Get(e.Stored(), u) && a.id == b.id
      ensures t == u
    {
      assert (t == Documents || t == Revisions) && (u == Documents || u == Revisions);
    }
  }

  lemma RevisionReference(e: Example, row: Row)
    requires e.Valid() && row in e.Revised()
    ensures |row.refs| == 1 && row.refs[0] in e.documents
  {
    hide UniqueIds, Example.Documented;
  }

  lemma ExampleReferences(e: Example)
    requires e.Valid()
    ensures ForeignKeys(e.Stored())
  {
    hide Example.Stored, Get, Find, UniqueIds, Present, Example.Spread, Example.Revised, Example.Documented;
    Tabled(e);
    forall table, child, row | table in GRAPH_TABLES && child in ChildTables(table) && row in Get(e.Stored(), child)
      ensures |row.refs| == 1 && Present(Get(e.Stored(), table), row.refs[0])
    {
      assert child == Revisions && table == Documents;
      RevisionReference(e, row);
      var i :| 0 <= i < |e.documents| && e.documents[i] == row.refs[0];
      DocumentRow(e, i);
    }
  }

  lemma ExampleRows(e: Example)
    requires e.Valid()
    ensures PageNumbers(e.Stored())
    ensures forall flag | flag in Get(e.Stored(), ReviewFlags) :: |flag.refs| == 1
    ensures forall document | document in Get(e.Stored(), Documents) :: document.refs == []
  {
    hide Example.Stored, Get, Example.Revised, UniqueIds;
    Tabled(e);
  }

  lemma ExampleIsWellFormed(e: Example)
    requires e.Valid()
    ensures WellFormed(e.Stored())
  {
    hide Keyed, GlobalIds, PageNumbers, ForeignKeys, Example.Stored, Get, UniqueIds, Example.Revised;
    ExampleKeys(e);
    ExampleIds(e);
    ExampleReferences(e);
    ExampleRows(e);
  }

  lemma SameDocumentAt(e: Example, i: nat, j: nat)
    requires e.Valid() && i < |e.documents| && j < |e.documents|
    ensures e.documents[i] == e.documents[j] ==> i == j
    ensures e.revisions[i] == e.revisions[j] ==> i == j
  {
    assert e.Documented()[i].id == e.documents[i] && e.Documented()[j].id == e.documents[j];
    assert e.Revised()[i].id == e.revisions[i] && e.Revised()[j].id == e.revisions[j];
  }

  lemma ExampleIsDecoded(e: Example)
    requires e.Valid()
    ensures Decoded(e.Mapped())
  {
    hide UniqueIds, Example.Revised, Example.Documented;
    forall i: nat, j: nat | i < |e.documents| && j < |e.documents|
      ensures e.documents[i] == e.documents[j] ==> i == j
      ensures e.revisions[i] == e.revisions[j] ==> i == j
    {
      SameDocumentAt(e, i, j);
    }
  }

  // ---------------------------------------------------------------- the plan is READY

  lemma {:induction false} NoPages(e: Example, id: Id)
    requires e.InRange()
    ensures PagesOf(e.Stored(), id) == map[] && Children(Get(e.Stored(), Clauses), id) == []
  {
    Tabled(e);
  }

  lemma PairIsEquivalent(e: Example, p: Pair)
    requires e.Valid() && p in e.pairs
    ensures DocumentEquivalent(e.Stored(), e.MappingOf(p))
  {
    hide Example.Stored, Get, Find, PagesOf, Children, Example.Spread, Example.Revised, UniqueIds;
    DocumentRow(e, p.legacy);
    DocumentRow(e, p.canonical);
    RevisionRow(e, p.legacy);
    RevisionRow(e, p.canonical);
    NoPages(e, e.revisions[p.legacy]);
    NoPages(e, e.revisions[p.canonical]);
    var d := e.MappingOf(p);
    var r := d.revisions[0];
    assert RevisionHeaderMatches(e.Stored(), d, r) && DocumentHeaderMatches(e.Stored(), d);
    hide RevisionHeaderMatches, DocumentHeaderMatches;
    assert ItemsExact(e.Stored(), Clauses, r.legacy, r.canonical);
    assert ContentsEquivalent(e.Stored(), r);
    assert RevisionEquivalent(e.Stored(), d, r);
  }

  lemma ExampleIsEquivalent(e: Example)
    requires e.Valid()
    ensures GraphEquivalent(e.Stored(), e.Mapped(), |e.Mapped()|)
  {
    hide Example.Stored, DocumentEquivalent, Example.Spread;
    forall k | 0 <= k < |e.Mapped()|
      ensures DocumentEquivalent(e.Stored(), e.Mapped()[k])
    {
      PairIsEquivalent(e, e.pairs[k]);
    }
  }

  lemma PairIsMapped(e: Example, k: nat)
    requires e.Valid() && k < |e.pairs|
    ensures DocumentMapped(e.Stored(), e.MappingOf(e.pairs[k]), e.Graph())
    ensures GraphPaired(e.Stored(), e.Mapped(), e.First(e.pairs[k])) && GraphPaired(e.Stored(), e.Mapped(), e.Second(e.pairs[k]))
  {
    hide Example.Stored, PagesOf, Children, Get, Example.Spread;
    var p := e.pairs[k];
    var s, d, graph := e.Stored(), e.MappingOf(p), e.Graph();
    var r := d.revisions[0];
    NoPages(e, r.legacy);
    assert e.First(p) in graph && e.Second(p) in graph;
    assert ContentsMapped(s, r, graph);
    assert RevisionMapped(s, d.revisions[0], graph);
    assert d == e.Mapped()[k] && d in e.Mapped();
    assert Paired(s, d, e.First(p));
    assert r in d.revisions && PairedIn(s, r, e.Second(p));
    assert Paired(s, d, e.Second(p));
  }

  lemma ExampleIsMapped(e: Example)
    requires e.Valid()
    ensures GraphMapped(e.Stored(), e.Mapped(), |e.Mapped()|, e.Graph()) && GraphGrew(e.Stored(), e.Mapped(), [], e.Graph())
  {
    hide Example.Stored, DocumentMapped, GraphPaired, Example.Spread;
    forall k | 0 <= k < |e.pairs|
      ensures DocumentMapped(e.Stored(), e.Mapped()[k], e.Graph())
      ensures GraphPaired(e.Stored(), e.Mapped(), e.First(e.pairs[k])) && GraphPaired(e.Stored(), e.Mapped(), e.Second(e.pairs[k]))
    {
      PairIsMapped(e, k);
    }
  }

  lemma NothingSelected(e: Example, table: Table, row: Row)
    requires e.Valid() && table in RELATION_TABLES && row in Get(e.Stored(), table)
    ensures !Selected(table, row, e.Plan().idMap, LegacyDocuments(e.Mapped()))
  {
    hide Example.Stored, Get, MapIds, Example.Graph, UniqueIds;
    Tabled(e);
  }

  lemma ExampleHasNoRelations(e: Example)
    requires e.Valid()
    ensures RelationsMapped(e.Stored(), e.Plan().idMap, LegacyDocuments(e.Mapped()), [])
    ensures AllJoin(e.Stored(), e.Plan().idMap, LegacyDocuments(e.Mapped()), [])
    ensures RelationsExact(e.Stored(), e.Plan().idMap, LegacyDocuments(e.Mapped()))
  {
    hide Example.Stored, Get, Selected, Example.Spread, LegacyDocuments, OneCounterpart, Example.Plan;
    forall table, row | table in RELATION_TABLES && row in Get(e.Stored(), table)
      ensures !Selected(table, row, e.Plan().idMap, LegacyDocuments(e.Mapped()))
    {
      NothingSelected(e, table, row);
    }
  }

  /** What the planner checks: the plan is READY. */
  ghost predicate IsReady(e: Example)
    requires e.InRange()
  {
    && GraphEquivalent(e.Stored(), e.Mapped(), |e.Mapped()|)
    && RelationsExact(e.Stored(), e.Plan().idMap, LegacyDocuments(e.Mapped()))
    && e.Plan().Valid()
  }

  lemma ExampleIsReady(e: Example)
    requires e.Valid()
    ensures IsReady(e)
  {
    hide WellFormed, Decoded, GraphEquivalent, GraphMapped, GraphGrew, RelationsMapped, AllJoin, Tracks, Example.Stored,
      LegacyDocuments, Example.Spread, RelationsExact, MapIds, Example.Graph, Example.Mapped;
    ExampleIsWellFormed(e);
    ExampleIsDecoded(e);
    ExampleIsEquivalent(e);
    ExampleIsMapped(e);
    ExampleHasNoRelations(e);
    MapIdsTracks(e.Graph());
  }

  // ---------------------------------------------------------------- four databases

  /** A legacy and a canonical document with one revision each. */
  const PLAIN := Example(["a", "b"], ["ra", "rb"], [Pair(0, 1)], [], [])

  /** The legacy document has a second revision, of another source. */
  const UNDECLARED := PLAIN.(extra := [Row("rx", ["a"], RevisionData("other", 1, 1))])

  /** Document `b` is canonical for `a` and legacy for `c`. */
  const CHAINED := Example(["a", "b", "c"], ["ra", "rb", "rc"], [Pair(0, 1), Pair(1, 2)], [], [])

  /** A retrieval record of the canonical document that names the legacy revision. */
  const STRAY := PLAIN.(records := [Row("e", ["b", "ra", "p"], Content("text"))])

  lemma PlainValid(a: Id, b: Id, ra: Id, rb: Id)
    requires a != b && ra != rb && {a, b} !! {ra, rb}
    ensures Example([a, b], [ra, rb], [Pair(0, 1)], [], []).Valid()
  {
  }

  lemma PlainIsValid()
    ensures PLAIN.Valid()
  {
    hide Example.Valid;
    assert "a"[0] != "b"[0] && |"ra"| == |"rb"| == 2 && "ra"[1] != "rb"[1];
    PlainValid("a", "b", "ra", "rb");
  }

  lemma UndeclaredValid(a: Id, b: Id, ra: Id, rb: Id, rx: Id, payload: Payload)
    requires a != b && ra != rb && ra != rx && rb != rx && {a, b} !! {ra, rb, rx}
    ensures Example([a, b], [ra, rb], [Pair(0, 1)], [Row(rx, [a], payload)], []).Valid()
  {
    var e := Example([a, b], [ra, rb], [Pair(0, 1)], [Row(rx, [a], payload)], []);
    assert e.documents[0] == a;
  }

  lemma UndeclaredIsValid()
    ensures UNDECLARED.Valid()
  {
    hide Example.Valid;
    assert "a"[0] != "b"[0] && |"ra"| == |"rb"| == |"rx"| == 2 && "ra"[1] != "rb"[1] && "rx"[1] != "ra"[1] && "rx"[1] != "rb"[1];
    UndeclaredValid("a", "b", "ra", "rb", "rx", RevisionData("other", 1, 1));
  }

  lemma StrayValid(a: Id, b: Id, ra: Id, rb: Id, record: Row)
    requires a != b && ra != rb && {a, b} !! {ra, rb} && |record.refs| > 0 && record.refs[0] == b
    ensures Example([a, b], [ra, rb], [Pair(0, 1)], [], [record]).Valid()
  {
  }

  lemma StrayIsValid()
    ensures STRAY.Valid()
  {
    hide Example.Valid;
    assert "a"[0] != "b"[0] && |"ra"| == |"rb"| == 2 && "ra"[1] != "rb"[1];
    StrayValid("a", "b", "ra", "rb", Row("e", ["b", "ra", "p"], Content("text")));
  }

  lemma ChainValid(a: Id, b: Id, c: Id, ra: Id, rb: Id, rc: Id)
    requires a != b && a != c && b != c && ra != rb && ra != rc && rb != rc && {a, b, c} !! {ra, rb, rc}
    ensures Example([a, b, c], [ra, rb, rc], [Pair(0, 1), Pair(1, 2)], [], []).Valid()
  {
  }

  lemma ChainIsValid()
    ensures CHAINED.Valid()
  {
    hide Example.Valid;
    assert "a"[0] != "b"[0] && "a"[0] != "c"[0] && "b"[0] != "c"[0];
    assert |"ra"| == |"rb"| == |"rc"| == 2 && "ra"[1] != "rb"[1] && "ra"[1] != "rc"[1] && "rb"[1] != "rc"[1];
    ChainValid("a", "b", "c", "ra", "rb", "rc");
  }

  lemma DeclaredIn(e: Example)
    requires e.Valid() && e.extra == []
    ensures e.Plan().AllRevisionsDeclared()
  {
    hide UniqueIds, Example.Stored, Get, MapIds, Example.Graph, Example.Spread, Example.Documented;
    Tabled(e);
    forall d, row | d in e.Mapped() && row in e.Revised() && RefersTo(row, d.legacy)
      ensures exists r | r in d.revisions :: r.legacy == row.id
    {
      var k :| 0 <= k < |e.pairs| && e.Mapped()[k] == d;
      var i :| 0 <= i < |e.Revised()| && e.Revised()[i] == row;
      SameDocumentAt(e, i, e.pairs[k].legacy);
      assert d.revisions[0].legacy == row.id;
    }
  }

  /** With its one revision declared, the legacy document is migrated away. */
  lemma SmallMigrationPasses()
    ensures PLAIN.InRange() && IsReady(PLAIN)
    ensures var c := PLAIN.Plan(); Deletable(c.store, c.Mappings()) && VerifiedState(Survivors(c.store, c.Mappings()), c.Mappings())
  {
    PlainIsValid();
    hide Deletable, VerifiedState, Approval.Valid, Approval.AllRevisionsDeclared, Example.Stored, Approval.Mappings, Example.Graph,
      RelationsExact, GraphEquivalent, MapIds, UniqueIds;
    ExampleIsReady(PLAIN);
    DeclaredIn(PLAIN);
    assert PLAIN.Plan().NoChains() by {
      assert PLAIN.Mapped()[0].legacy == "a" && PLAIN.Mapped()[0].canonical == "b" && "a"[0] != "b"[0];
    }
    MigrationPasses(PLAIN.Plan());
  }

  /** With a second revision the plan is READY all the same, and the deletion must fail. */
  lemma ReadyButUndeclared()
    ensures UNDECLARED.InRange() && IsReady(UNDECLARED)
    ensures var c := UNDECLARED.Plan(); DistinctSources(c.store) && !Deletable(c.store, c.Mappings())
  {
    UndeclaredIsValid();
    hide Deletable, Approval.Valid, DistinctSources, Example.Stored, Approval.Mappings, Example.Graph, RelationsExact, GraphEquivalent,
      MapIds, UniqueIds, Get;
    var e := UNDECLARED;
    ExampleIsReady(e);
    SourcesDiffer();
    Tabled(e);
    RevisionRow(e, 0);
    assert e.Revised()[2] == e.extra[0] && e.extra[0] in e.Revised();
    assert e.Mapped()[0] in e.Mapped();
    assert e.Declared()[0].payload != e.extra[0].payload by { assert "hash"[0] != "other"[0]; }
    TwoRevisionsNeverMigrate(e.Plan(), e.Mapped()[0], e.Declared()[0], e.extra[0]);
  }

  lemma SourcesDiffer()
    requires UNDECLARED.Valid()
    ensures DistinctSources(UNDECLARED.Stored())
  {
    hide Example.Stored, Get, Example.Spread, Example.Documented;
    Tabled(UNDECLARED);
    var revised := UNDECLARED.Revised();
    assert "a"[0] != "b"[0] && "hash"[0] != "other"[0];
    assert revised[0].refs[0] == "a" && revised[1].refs[0] == "b";
    assert revised[0].payload.sourceHash == "hash" && revised[2].payload.sourceHash == "other";
    assert forall row | row in revised :: row == revised[0] || row == revised[1] || row == revised[2];
  }

  /** A document that is legacy here and canonical there: the plan is READY, the deletion passes, and
      the verification must fail. */
  lemma ReadyButChained()
    ensures CHAINED.InRange() && IsReady(CHAINED)
    ensures var c := CHAINED.Plan();
            Deletable(c.store, c.Mappings()) && !VerifiedState(Survivors(c.store, c.Mappings()), c.Mappings())
  {
    ChainIsValid();
    hide Deletable, VerifiedState, Approval.Valid, Approval.AllRevisionsDeclared, Example.Stored, Approval.Mappings, Example.Graph,
      RelationsExact, GraphEquivalent, MapIds, UniqueIds;
    var e := CHAINED;
    ExampleIsReady(e);
    DeclaredIn(e);
    DeletionPasses(e.Plan());
    assert e.Mapped()[0] in e.Mapped() && e.Mapped()[1] in e.Mapped();
    ChainBlocks(e.Plan(), e.Mapped()[1], e.Mapped()[0]);
  }

  /** An inconsistent retrieval record survives the migration and refers to a removed revision. */
  lemma StrayRecordDangles()
    ensures STRAY.InRange() && IsReady(STRAY) && STRAY.Plan().AllRevisionsDeclared() && !STRAY.Plan().RecordsFollow()
    ensures var c := STRAY.Plan();
            && STRAY.records[0] in Get(Survivors(c.store, c.Mappings()), RetrievalRecords)
            && "ra" in STRAY.records[0].refs && "ra" in RemovedFromGraph(c)
  {
    hide IsReady, Approval.AllRevisionsDeclared, Approval.RecordsFollow, Example.Stored, Approval.Mappings, MapIds, Survivors, Get,
      RemovedFromGraph, Example.Spread, Approval.Valid, Example.Graph;
    StrayIsValid();
    ExampleIsReady(STRAY);
    ReadyIsValid(STRAY);
    DeclaredIn(STRAY);
    assert STRAY.records[0] in STRAY.records && STRAY.records[0].refs[1] == "ra";
    RecordSurvives(STRAY, STRAY.records[0]);
    LegacyRevisionRemoved(STRAY, 0);
    assert !RecordsIntact(STRAY.Plan());
    RecordsIntactIff(STRAY.Plan());
  }

  lemma ReadyIsValid(e: Example)
    requires e.InRange() && IsReady(e)
    ensures e.Plan().Valid()
  {
    hide GraphEquivalent, RelationsExact, Approval.Valid;
  }

  lemma RecordSurvives(e: Example, record: Row)
    requires e.Valid() && IsReady(e) && record in e.records
    ensures record in Get(Survivors(e.Stored(), e.Plan().Mappings()), RetrievalRecords)
  {
    hide IsReady, Example.Stored, Approval.Mappings, MapIds, Survivors, Get, Example.Spread, Approval.Valid, Selected, Removed, Example.Graph;
    ReadyIsValid(e);
    Tabled(e);
    NothingSelected(e, RetrievalRecords, record);
    RelationRemoval(e.Plan(), RetrievalRecords, record);
    SurvivingRow(e.Stored(), e.Plan().Mappings(), RetrievalRecords, record);
  }

  lemma LegacyRevisionRemoved(e: Example, k: nat)
    requires e.Valid() && k < |e.pairs|
    ensures e.revisions[e.pairs[k].legacy] in RemovedFromGraph(e.Plan())
  {
    hide Example.Stored, MapIds, Example.Spread, Example.Graph;
    assert e.Second(e.pairs[k]) in e.Graph();
  }
}

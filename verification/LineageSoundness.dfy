/** What a READY plan over a well-formed database is worth: exactly when the deletion passes, and
    what the migrated copy then looks like. */
module LineageSoundness {
  import opened Options
  import opened LineageStore
  import opened LineageMatching
  import opened LineageGraph
  import opened LineageRelations
  import opened LineageLayers
  import opened LineagePlanner
  import opened LineageMigration
  import opened LineageOwnership

  /** A READY plan and where it came from. */
  datatype Approval = Approval(store: Store, manifest: Manifest, graph: seq<EntityMapping>, relations: seq<EntityMapping>,
                               idMap: map<Id, Id>)
  {
    function Mappings(): set<EntityMapping> { set m | m in graph + relations }

    ghost predicate Valid() {
      WellFormed(store) && Decoded(manifest) && Certified(store, manifest, graph, relations, idMap)
    }

    /** Every revision of a legacy document is declared in the manifest. */
    ghost predicate AllRevisionsDeclared() {
      forall d, row | d in manifest && row in Get(store, Revisions) && RefersTo(row, d.legacy) ::
        exists r | r in d.revisions :: r.legacy == row.id
    }

    /** No document is both legacy and canonical. */
    ghost predicate NoChains() {
      forall d, e | d in manifest && e in manifest :: d.legacy != e.canonical
    }

    ghost predicate LegacyOwned(table: Table, row: Row) {
      exists d | d in manifest :: Owner(store, table, row) == Some(d.legacy)
    }

    /** A retrieval record that names, or is keyed by, a row of a legacy document names a legacy document. */
    ghost predicate RecordsFollow() {
      forall record, table, row | record in Get(store, RetrievalRecords) && table in GRAPH_TABLES && row in Get(store, table)
        && (row.id in record.refs || row.id == record.id) && LegacyOwned(table, row) ::
        |record.refs| > 0 && record.refs[0] in LegacyDocuments(manifest)
    }
  }

  lemma EquivalentDocument(c: Approval, d: DocumentMapping)
    requires c.Valid() && d in c.manifest
    ensures DocumentEquivalent(c.store, d) && DocumentMapped(c.store, d, c.graph)
  {
    hide WellFormed, Decoded, DocumentEquivalent, DocumentMapped, AllJoin, RelationsMapped, Tracks, GraphGrew;
    var i :| 0 <= i < |c.manifest| && c.manifest[i] == d;
  }

  lemma EquivalentRevision(c: Approval, d: DocumentMapping, r: RevisionMapping)
    requires c.Valid() && d in c.manifest && r in d.revisions
    ensures RevisionEquivalent(c.store, d, r) && RevisionMapped(c.store, r, c.graph)
  {
    EquivalentDocument(c, d);
    hide WellFormed, Decoded, Certified, RevisionEquivalent, RevisionMapped;
    var i :| 0 <= i < |d.revisions| && d.revisions[i] == r;
  }

  lemma GraphRows(c: Approval, m: EntityMapping) returns (d: DocumentMapping, a: Row, b: Row)
    requires c.Valid() && m in c.graph
    ensures d in c.manifest && Paired(c.store, d, m) && JoinsRows(c.store, d, m, a, b)
  {
    hide Decoded, Paired, GraphEquivalent, GraphMapped, AllJoin, RelationsMapped, Tracks, JoinsRows;
    d :| d in c.manifest && Paired(c.store, d, m);
    EquivalentDocument(c, d);
    a, b := GraphPair(c.store, d, m);
  }

  lemma RelationRows(c: Approval, m: EntityMapping) returns (a: Row, b: Row)
    requires c.Valid() && m in c.relations
    ensures m.table in RELATION_TABLES && a in Get(c.store, m.table) && b in Get(c.store, m.table)
    ensures a.id == m.legacy && b.id == m.canonical && Selected(m.table, a, c.idMap, LegacyDocuments(c.manifest))
    ensures OneCounterpart(Get(c.store, m.table), a, c.idMap)
    ensures b.refs == Translate(a.refs, c.idMap) && b.payload == a.payload
  {
    hide WellFormed, Decoded, GraphEquivalent, GraphMapped, GraphGrew, RelationsMapped, Tracks, Selected, OneCounterpart, Translate;
    assert RelationJoins(m.table, Get(c.store, m.table), c.idMap, LegacyDocuments(c.manifest), m);
    a, b :| a in Get(c.store, m.table) && b in Get(c.store, m.table) && a.id == m.legacy && b.id == m.canonical
         && Selected(m.table, a, c.idMap, LegacyDocuments(c.manifest)) && OneCounterpart(Get(c.store, m.table), a, c.idMap)
         && b.refs == Translate(a.refs, c.idMap) && b.payload == a.payload;
  }

  // ---------------------------------------------------------------- one mapping for each legacy row

  lemma SameItemPair(store: Store, x: Id, y: Id, m: EntityMapping, w: EntityMapping)
    requires Keyed(store) && m.table == w.table && ItemsExact(store, m.table, x, y)
    requires PairedItems(store, x, y, m) && PairedItems(store, x, y, w) && m.legacy == w.legacy
    ensures m == w
  {
    var rows, others := Children(Get(store, m.table), x), Children(Get(store, m.table), y);
    assert UniqueIds(rows) by { assert UniqueIds(Get(store, m.table)); }
    hide UniqueIds, Children, Carrying, Keyed;
    var a, b :| a in rows && b in others && a.id == m.legacy && b.id == m.canonical && a.payload == b.payload;
    var a', b' :| a' in rows && b' in others && a'.id == w.legacy && b'.id == w.canonical && a'.payload == b'.payload;
    SameRow(rows, a, a');
    var i :| 0 <= i < |rows| && rows[i] == a;
    OnlyCarrier(others, b, b');
  }

  lemma SamePagePair(store: Store, d: DocumentMapping, r: RevisionMapping, q: RevisionMapping, a: Row, b: Row, b': Row)
    requires Keyed(store) && RevisionHeaderMatches(store, d, r) && RevisionHeaderMatches(store, d, q)
    requires r.legacy == q.legacy ==> r == q
    requires PairedPages(store, r, a, b) && PairedPages(store, q, a, b')
    ensures r == q && b == b'
  {
    PagePair(store, d, r, a, b);
    PagePair(store, d, q, a, b');
    hide RevisionHeaderMatches, UniqueIds, Children, Owner;
  }

  lemma SamePageItems(store: Store, d: DocumentMapping, r: RevisionMapping, q: RevisionMapping, m: EntityMapping, w: EntityMapping)
    requires Keyed(store) && RevisionEquivalent(store, d, r) && RevisionHeaderMatches(store, d, q)
    requires r.legacy == q.legacy ==> r == q
    requires m.table == w.table && m.legacy == w.legacy && m.table in ChildTables(Pages)
    requires PairedOnPage(store, r, m) && PairedOnPage(store, q, w)
    ensures m == w
  {
    hide RevisionHeaderMatches, PairedItems, Keyed, Owner, RevisionEquivalent, ItemsExact, PairedPages, JoinsRows, ChildTables,
      PairedOnPage;
    RevisionEquivalentHeader(store, d, r);
    var x, y := PagesOfPair(store, r, m);
    var x', y' := PagesOfPair(store, q, w);
    SamePage(store, d, r, q, m, w, x, y, x', y');
    PagesExact(store, d, r, x, y, m.table);
    SameItemPair(store, x.id, y.id, m, w);
  }

  lemma PagesOfPair(store: Store, r: RevisionMapping, m: EntityMapping) returns (x: Row, y: Row)
    requires PairedOnPage(store, r, m)
    ensures PairedPages(store, r, x, y) && PairedItems(store, x.id, y.id, m)
  {
    hide PairedPages, PairedItems;
    x, y :| PairedPages(store, r, x, y) && PairedItems(store, x.id, y.id, m);
  }

  lemma RevisionEquivalentHeader(store: Store, d: DocumentMapping, r: RevisionMapping)
    requires RevisionEquivalent(store, d, r)
    ensures RevisionHeaderMatches(store, d, r)
  {
  }

  lemma SamePage(store: Store, d: DocumentMapping, r: RevisionMapping, q: RevisionMapping, m: EntityMapping, w: EntityMapping,
                 x: Row, y: Row, x': Row, y': Row)
    requires Keyed(store) && RevisionHeaderMatches(store, d, r) && RevisionHeaderMatches(store, d, q)
    requires r.legacy == q.legacy ==> r == q
    requires m.table == w.table && m.legacy == w.legacy && m.table in ChildTables(Pages)
    requires PairedPages(store, r, x, y) && PairedItems(store, x.id, y.id, m)
    requires PairedPages(store, q, x', y') && PairedItems(store, x'.id, y'.id, w)
    ensures r == q && x == x' && y == y'
  {
    hide RevisionHeaderMatches, PairedItems, UniqueIds, Owner, PairedPages;
    PagePair(store, d, r, x, y);
    PagePair(store, d, q, x', y');
    var a, b := ItemPair(store, d, Pages, x, y, m);
    var a', b' := ItemPair(store, d, Pages, x', y', w);
    SameRow(Get(store, m.table), a, a');
    SameRow(Get(store, Pages), x, x');
    SamePagePair(store, d, r, q, x, y, y');
  }

  lemma PagesExact(store: Store, d: DocumentMapping, r: RevisionMapping, x: Row, y: Row, table: Table)
    requires RevisionEquivalent(store, d, r) && PairedPages(store, r, x, y) && table in ChildTables(Pages)
    ensures ItemsExact(store, table, x.id, y.id)
  {
    hide RevisionHeaderMatches, PagesOf, ItemsExact;
    var n :| n in PagesOf(store, r.legacy) && n in PagesOf(store, r.canonical)
      && x == PagesOf(store, r.legacy)[n] && y == PagesOf(store, r.canonical)[n];
    assert PageEquivalent(store, PagesOf(store, r.legacy)[n], PagesOf(store, r.canonical)[n]);
  }

  lemma SameRevisionClauses(store: Store, d: DocumentMapping, r: RevisionMapping, q: RevisionMapping, m: EntityMapping, w: EntityMapping)
    requires Keyed(store) && RevisionEquivalent(store, d, r) && RevisionEquivalent(store, d, q)
    requires r.legacy == q.legacy ==> r == q
    requires m.table == w.table == Clauses && m.legacy == w.legacy
    requires PairedItems(store, r.legacy, r.canonical, m) && PairedItems(store, q.legacy, q.canonical, w)
    ensures m == w
  {
    hide PairedItems, UniqueIds, Owner, PagesEquivalent, ItemsExact;
    var x, y := RevisionPair(store, d, r);
    var x', y' := RevisionPair(store, d, q);
    hide RevisionHeaderMatches;
    var a, b := ItemPair(store, d, Revisions, x, y, m);
    var a', b' := ItemPair(store, d, Revisions, x', y', w);
    SameRow(Get(store, m.table), a, a');
    SameItemPair(store, r.legacy, r.canonical, m, w);
  }

  lemma SameInRevisions(store: Store, d: DocumentMapping, r: RevisionMapping, q: RevisionMapping, m: EntityMapping, w: EntityMapping)
    requires Keyed(store) && RevisionEquivalent(store, d, r) && RevisionEquivalent(store, d, q)
    requires r.legacy == q.legacy ==> r == q
    requires m.table == w.table && m.legacy == w.legacy && PairedIn(store, r, m) && PairedIn(store, q, w)
    ensures m == w
  {
    hide PairedItems, UniqueIds, Owner, ContentsEquivalent, RevisionHeaderMatches, PairedPages, PagesOf;
    if m.table == Pages {
      var a, b :| PairedPages(store, r, a, b) && m == EntityMapping(Pages, a.id, b.id);
      var a', b' :| PairedPages(store, q, a', b') && w == EntityMapping(Pages, a'.id, b'.id);
      PagePair(store, d, r, a, b);
      PagePair(store, d, q, a', b');
      SameRow(Get(store, Pages), a, a');
      SamePagePair(store, d, r, q, a, b, b');
    } else if m.table == Clauses {
      SameRevisionClauses(store, d, r, q, m, w);
    } else if m.table != Revisions {
      SamePageItems(store, d, r, q, m, w);
    }
  }

  lemma PairedTable(store: Store, d: DocumentMapping, m: EntityMapping)
    requires Paired(store, d, m) && m.table == Documents
    ensures m == EntityMapping(Documents, d.legacy, d.canonical)
  {
    hide PairedItems, PairedOnPage, PairedPage;
  }

  lemma ValidKeyed(c: Approval)
    requires c.Valid()
    ensures Keyed(c.store)
  {
    hide Decoded, Certified;
  }

  lemma SameDocument(c: Approval, d: DocumentMapping, e: DocumentMapping)
    requires c.Valid() && d in c.manifest && e in c.manifest && d.legacy == e.legacy
    ensures d == e
  {
    hide WellFormed, Certified;
  }

  lemma SameRevision(c: Approval, d: DocumentMapping, r: RevisionMapping, q: RevisionMapping)
    requires c.Valid() && d in c.manifest && r in d.revisions && q in d.revisions
    ensures r.legacy == q.legacy ==> r == q
    ensures r.canonical == q.canonical ==> r == q
  {
    hide WellFormed, Certified;
  }

  lemma GraphMappedOnce(c: Approval, m: EntityMapping, w: EntityMapping)
    requires c.Valid() && m in c.graph && w in c.graph && m.table == w.table && m.legacy == w.legacy
    ensures m == w
  {
    hide WellFormed, Decoded, Certified, UniqueIds, Owner, PairedIn, RevisionEquivalent;
    ValidKeyed(c);
    var d, a, b := GraphRows(c, m);
    var e, a', b' := GraphRows(c, w);
    SameRow(Get(c.store, m.table), a, a');
    SameDocument(c, d, e);
    if m.table == Documents {
      PairedTable(c.store, d, m);
      PairedTable(c.store, d, w);
    } else {
      var r :| r in d.revisions && PairedIn(c.store, r, m);
      var q :| q in d.revisions && PairedIn(c.store, q, w);
      EquivalentRevision(c, d, r);
      EquivalentRevision(c, d, q);
      SameRevision(c, d, r, q);
      SameInRevisions(c.store, d, r, q, m, w);
    }
  }

  lemma RelationMappedOnce(c: Approval, m: EntityMapping, w: EntityMapping)
    requires c.Valid() && m in c.relations && w in c.relations && m.table == w.table && m.legacy == w.legacy
    ensures m == w
  {
    hide WellFormed, Decoded, Certified, UniqueIds, Selected;
    ValidKeyed(c);
    var a, b := RelationRows(c, m);
    var a', b' := RelationRows(c, w);
    SameRow(Get(c.store, m.table), a, a');
    var found := Counterparts(Get(c.store, m.table), Translate(a.refs, c.idMap), a.payload);
    assert b in found && b' in found;
  }

  lemma MappedOnce(c: Approval)
    requires c.Valid()
    ensures OneMappingEach(c.Mappings())
  {
    hide WellFormed, Decoded, Certified, JoinsRows, Selected, OneCounterpart;
    forall m, w | m in c.Mappings() && w in c.Mappings() && m.table == w.table && m.legacy == w.legacy
      ensures m == w
    {
      if m in c.graph { GraphTable(c, m); } else { var a, b := RelationRows(c, m); }
      if w in c.graph { GraphTable(c, w); } else { var a, b := RelationRows(c, w); }
      if m in c.graph { GraphMappedOnce(c, m, w); } else { RelationMappedOnce(c, m, w); }
    }
  }

  lemma GraphTable(c: Approval, m: EntityMapping)
    requires c.Valid() && m in c.graph
    ensures m.table in GRAPH_TABLES && Present(Get(c.store, m.table), m.legacy) && Present(Get(c.store, m.table), m.canonical)
  {
    hide WellFormed, Decoded, Certified, Paired;
    var d, a, b := GraphRows(c, m);
  }
}

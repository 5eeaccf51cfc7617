/** Exactly when a READY plan can be applied, and what the migrated copy is like. */
module LineageTheorems {
  import opened Options
  import opened LineageStore
  import opened LineageMatching
  import opened LineageGraph
  import opened LineageRelations
  import opened LineageLayers
  import opened LineagePlanner
  import opened LineageMigration
  import opened LineageOwnership
  import opened LineageSoundness

  // ---------------------------------------------------------------- the legacy graph is mapped whole

  ghost predicate GraphMaps(c: Approval, table: Table, id: Id) {
    exists m | m in c.graph :: m.table == table && m.legacy == id
  }

  lemma DeclaredRevision(c: Approval, d: DocumentMapping, revision: Row) returns (r: RevisionMapping)
    requires c.Valid() && c.AllRevisionsDeclared() && d in c.manifest
    requires revision in Get(c.store, Revisions) && Parent(revision) == Some(d.legacy)
    ensures r in d.revisions && r.legacy == revision.id && RevisionMapped(c.store, r, c.graph)
  {
    hide WellFormed, Decoded, Certified;
    assert RefersTo(revision, d.legacy);
    r :| r in d.revisions && r.legacy == revision.id;
    EquivalentRevision(c, d, r);
  }

  lemma RevisionOf(store: Store, revision: Option<Id>, document: Id) returns (row: Row)
    requires RevisionOwner(store, revision) == Some(document)
    ensures row in Get(store, Revisions) && revision == Some(row.id) && Parent(row) == Some(document)
  {
    row := Find(Get(store, Revisions), revision.value).value;
  }

  lemma PageOf(store: Store, page: Option<Id>, document: Id) returns (row: Row)
    requires PageOwner(store, page) == Some(document)
    ensures row in Get(store, Pages) && page == Some(row.id) && RevisionOwner(store, Parent(row)) == Some(document)
  {
    row := Find(Get(store, Pages), page.value).value;
  }

  /** Page numbers are unique, so the map by number holds every page of the revision. */
  lemma PageListed(store: Store, revision: Id, page: Row)
    requires PageNumbers(store) && page in Get(store, Pages) && RefersTo(page, revision)
    ensures Number(page) in PagesOf(store, revision) && PagesOf(store, revision)[Number(page)] == page
  {
    var pages := Children(Get(store, Pages), revision);
    assert page in pages;
    var other := PagesOf(store, revision)[Number(page)];
    assert other in pages;
  }

  lemma LegacyPageMapped(c: Approval, d: DocumentMapping, page: Row)
    requires c.Valid() && c.AllRevisionsDeclared() && d in c.manifest
    requires page in Get(c.store, Pages) && RevisionOwner(c.store, Parent(page)) == Some(d.legacy)
    ensures PageMapped(c.store, page, c.graph)
  {
    hide Decoded, Certified, Keyed, GlobalIds, ForeignKeys, PageMapped, ItemsMapped, RevisionOwner, PagesOf;
    var revision := RevisionOf(c.store, Parent(page), d.legacy);
    var r := DeclaredRevision(c, d, revision);
    PageListed(c.store, r.legacy, page);
  }

  lemma LegacyItemMapped(c: Approval, d: DocumentMapping, table: Table, row: Row)
    requires c.Valid() && c.AllRevisionsDeclared() && d in c.manifest
    requires table in ChildTables(Pages) && row in Get(c.store, table) && PageOwner(c.store, Parent(row)) == Some(d.legacy)
    ensures GraphMaps(c, table, row.id)
  {
    hide WellFormed, Decoded, Certified, PageOwner, RevisionOwner;
    var page := PageOf(c.store, Parent(row), d.legacy);
    LegacyPageMapped(c, d, page);
    ItemListed(c, table, page, row);
  }

  lemma ItemListed(c: Approval, table: Table, page: Row, row: Row)
    requires PageMapped(c.store, page, c.graph) && table in ChildTables(Pages)
    requires row in Get(c.store, table) && Parent(row) == Some(page.id)
    ensures GraphMaps(c, table, row.id)
  {
    assert row in Children(Get(c.store, table), page.id);
    assert ItemsMapped(c.store, table, page.id, c.graph);
  }

  lemma LegacyClauseMapped(c: Approval, d: DocumentMapping, row: Row)
    requires c.Valid() && c.AllRevisionsDeclared() && d in c.manifest
    requires row in Get(c.store, Clauses) && RevisionOwner(c.store, Parent(row)) == Some(d.legacy)
    ensures GraphMaps(c, Clauses, row.id)
  {
    hide WellFormed, Decoded, Certified, RevisionOwner, PagesMapped;
    var revision := RevisionOf(c.store, Parent(row), d.legacy);
    var r := DeclaredRevision(c, d, revision);
    assert row in Children(Get(c.store, Clauses), r.legacy);
  }

  /** Every row of a legacy document is mapped, once all its revisions are declared. */
  lemma LegacyRowMapped(c: Approval, d: DocumentMapping, table: Table, row: Row)
    requires c.Valid() && c.AllRevisionsDeclared() && d in c.manifest
    requires table in GRAPH_TABLES && row in Get(c.store, table) && Owner(c.store, table, row) == Some(d.legacy)
    ensures GraphMaps(c, table, row.id)
  {
    hide WellFormed, Decoded, Certified, RevisionOwner, PageOwner, RevisionsMapped, ContentsMapped, ItemsMapped;
    match table
    case Documents =>
      EquivalentDocument(c, d);
      assert EntityMapping(Documents, d.legacy, d.canonical) in c.graph;
    case Revisions =>
      var r := DeclaredRevision(c, d, row);
      assert EntityMapping(Revisions, r.legacy, r.canonical) in c.graph;
    case Pages =>
      LegacyPageMapped(c, d, row);
    case Clauses =>
      LegacyClauseMapped(c, d, row);
    case Elements => LegacyItemMapped(c, d, table, row);
    case Tables => LegacyItemMapped(c, d, table, row);
    case Visuals => LegacyItemMapped(c, d, table, row);
  }

  // ---------------------------------------------------------------- removed means legacy

  lemma GraphRemoval(c: Approval, table: Table, id: Id)
    requires c.Valid() && table in GRAPH_TABLES
    ensures id in Removed(c.Mappings(), table) <==> GraphMaps(c, table, id)
  {
    hide WellFormed, Decoded, Certified;
    if id in Removed(c.Mappings(), table) {
      var m :| m in c.Mappings() && m.table == table && m.legacy == id;
      if m in c.relations { var a, b := RelationRows(c, m); }
    }
    if GraphMaps(c, table, id) {
      var m :| m in c.graph && m.table == table && m.legacy == id;
      assert m in c.Mappings();
    }
  }

  /** A mapped row of the graph belongs to a legacy document. */
  lemma MappedIsLegacy(c: Approval, table: Table, row: Row)
    requires c.Valid() && row in Get(c.store, table) && GraphMaps(c, table, row.id)
    ensures c.LegacyOwned(table, row)
  {
    hide WellFormed, Decoded, Certified, UniqueIds, Owner, Paired;
    ValidKeyed(c);
    var m :| m in c.graph && m.table == table && m.legacy == row.id;
    var d, a, b := GraphRows(c, m);
    SameRow(Get(c.store, table), a, row);
  }

  lemma LegacyIsRemoved(c: Approval, table: Table, row: Row)
    requires c.Valid() && c.AllRevisionsDeclared() && table in GRAPH_TABLES && row in Get(c.store, table)
    ensures row.id in Removed(c.Mappings(), table) <==> c.LegacyOwned(table, row)
  {
    hide WellFormed, Decoded, Certified, Owner, GraphMaps, Removed;
    GraphRemoval(c, table, row.id);
    if GraphMaps(c, table, row.id) { MappedIsLegacy(c, table, row); }
    if c.LegacyOwned(table, row) {
      var d :| d in c.manifest && Owner(c.store, table, row) == Some(d.legacy);
      LegacyRowMapped(c, d, table, row);
    }
  }

  // ---------------------------------------------------------------- deletion

  lemma ChildGoesToo(c: Approval, m: EntityMapping, child: Table, row: Row)
    requires c.Valid() && c.AllRevisionsDeclared() && m in c.graph
    requires child in ChildTables(m.table) && row in Get(c.store, child) && RefersTo(row, m.legacy)
    ensures row.id in Removed(c.Mappings(), child)
  {
    hide WellFormed, Decoded, Certified, Owner, Paired, Removed, UniqueIds;
    ValidKeyed(c);
    var d, a, b := GraphRows(c, m);
    ChildOwner(c.store, m.table, a, child, row);
    assert c.LegacyOwned(child, row);
    LegacyIsRemoved(c, child, row);
  }

  lemma NothingLeftReferring(c: Approval, m: EntityMapping)
    requires c.Valid() && c.AllRevisionsDeclared() && m in c.Mappings()
    ensures !Referenced(Survivors(c.store, c.Mappings()), m.table, m.legacy)
  {
    hide WellFormed, Decoded, Certified, Survivors, Removed;
    if m in c.relations {
      var a, b := RelationRows(c, m);
    } else if Referenced(Survivors(c.store, c.Mappings()), m.table, m.legacy) {
      var child :| child in ChildTables(m.table)
        && exists row | row in Get(Survivors(c.store, c.Mappings()), child) :: |row.refs| > 0 && row.refs[0] == m.legacy;
      var row :| row in Get(Survivors(c.store, c.Mappings()), child) && |row.refs| > 0 && row.refs[0] == m.legacy;
      SurvivingRow(c.store, c.Mappings(), child, row);
      ChildGoesToo(c, m, child, row);
    }
  }

  lemma MappedIsPresent(c: Approval, m: EntityMapping)
    requires c.Valid() && m in c.Mappings()
    ensures Present(Get(c.store, m.table), m.legacy) && Present(Get(c.store, m.table), m.canonical)
  {
    hide WellFormed, Decoded, Certified, Selected, OneCounterpart;
    if m in c.graph {
      GraphTable(c, m);
    } else {
      var a, b := RelationRows(c, m);
    }
  }

  lemma DeletionPasses(c: Approval)
    requires c.Valid() && c.AllRevisionsDeclared()
    ensures Deletable(c.store, c.Mappings())
  {
    hide WellFormed, Decoded, Certified, Survivors, Referenced, Present, OneMappingEach;
    MappedOnce(c);
    forall m | m in c.Mappings()
      ensures Present(Get(c.store, m.table), m.legacy) && !Referenced(Survivors(c.store, c.Mappings()), m.table, m.legacy)
    {
      MappedIsPresent(c, m);
      NothingLeftReferring(c, m);
    }
  }

  /** An undeclared revision keeps its document from being deleted. */
  lemma UndeclaredBlocks(c: Approval, d: DocumentMapping, revision: Row)
    requires c.Valid() && d in c.manifest && revision in Get(c.store, Revisions) && RefersTo(revision, d.legacy)
    requires forall r | r in d.revisions :: r.legacy != revision.id
    ensures !Deletable(c.store, c.Mappings())
  {
    hide WellFormed, Decoded, Certified, UniqueIds, Survivors, Removed, Present, RevisionsMapped;
    ValidKeyed(c);
    if GraphMaps(c, Revisions, revision.id) {
      var m :| m in c.graph && m.table == Revisions && m.legacy == revision.id;
      var e, a, b := GraphRows(c, m);
      SameRow(Get(c.store, Revisions), a, revision);
      SameDocument(c, d, e);
      DeclaredUnder(c.store, e, m);
    } else {
      GraphRemoval(c, Revisions, revision.id);
      SurvivingRow(c.store, c.Mappings(), Revisions, revision);
      EquivalentDocument(c, d);
      var document := EntityMapping(Documents, d.legacy, d.canonical);
      assert document in c.Mappings();
      assert Revisions in ChildTables(Documents);
      assert Referenced(Survivors(c.store, c.Mappings()), Documents, d.legacy);
    }
  }

  lemma DeclaredUnder(store: Store, d: DocumentMapping, m: EntityMapping)
    requires Paired(store, d, m) && m.table == Revisions
    ensures exists r | r in d.revisions :: r.legacy == m.legacy
  {
    hide PairedItems, PairedOnPage, PairedPage;
  }

  // ---------------------------------------------------------------- verification

  lemma SameGraphRow(c: Approval, t: Table, u: Table, a: Row, b: Row)
    requires c.Valid() && t in GRAPH_TABLES && u in GRAPH_TABLES
    requires a in Get(c.store, t) && b in Get(c.store, u) && a.id == b.id
    ensures t == u && a == b
  {
    hide Decoded, Certified, PageNumbers, ForeignKeys, RecordConsistent, UniqueIds;
    SameRow(Get(c.store, t), a, b);
  }

  /** A canonical row of the graph is not itself removed. */
  lemma CanonicalNotMapped(c: Approval, m: EntityMapping, table: Table)
    requires c.Valid() && c.NoChains() && m in c.graph
    ensures !GraphMaps(c, table, m.canonical)
  {
    hide WellFormed, Decoded, Certified, Owner, Paired;
    if GraphMaps(c, table, m.canonical) {
      var w :| w in c.graph && w.table == table && w.legacy == m.canonical;
      var d, a, b := GraphRows(c, m);
      var e, a', b' := GraphRows(c, w);
      SameGraphRow(c, m.table, w.table, b, a');
    }
  }

  lemma TranslatedIsNotMapped(c: Approval, id: Id)
    requires c.Valid() && c.NoChains()
    ensures MapId(c.idMap, id) !in c.idMap
  {
    hide WellFormed, Decoded, GraphEquivalent, GraphGrew, GraphMapped, RelationsMapped, AllJoin;
    if id in c.idMap && c.idMap[id] in c.idMap {
      var m :| m in c.graph && m.legacy == id && m.canonical == c.idMap[id];
      var w :| w in c.graph && w.legacy == c.idMap[id] && w.canonical == c.idMap[c.idMap[id]];
      CanonicalNotMapped(c, m, w.table);
    }
  }

  lemma LegacyDocumentsMapped(c: Approval)
    requires c.Valid()
    ensures forall id | id in LegacyDocuments(c.manifest) :: id in c.idMap
  {
    hide WellFormed, Decoded, GraphEquivalent, GraphGrew, RelationsMapped, AllJoin, RevisionsMapped;
    forall id | id in LegacyDocuments(c.manifest)
      ensures id in c.idMap
    {
      var d :| d in c.manifest && d.legacy == id;
      EquivalentDocument(c, d);
      assert EntityMapping(Documents, d.legacy, d.canonical) in c.graph;
    }
  }

  /** The counterpart of a relation row refers to nothing that is removed. */
  lemma CounterpartNotSelected(c: Approval, table: Table, refs: seq<Id>, b: Row)
    requires c.Valid() && c.NoChains() && b.refs == Translate(refs, c.idMap)
    ensures !Selected(table, b, c.idMap, LegacyDocuments(c.manifest))
  {
    hide WellFormed, Decoded, Certified, MapId;
    LegacyDocumentsMapped(c);
    forall i | 0 <= i < |b.refs|
      ensures b.refs[i] !in c.idMap
    {
      TranslatedIsNotMapped(c, refs[i]);
    }
  }

  lemma RelationRemoval(c: Approval, table: Table, row: Row)
    requires c.Valid() && table in RELATION_TABLES && row in Get(c.store, table)
    ensures row.id in Removed(c.Mappings(), table) <==> Selected(table, row, c.idMap, LegacyDocuments(c.manifest))
  {
    hide WellFormed, Decoded, GraphEquivalent, GraphGrew, GraphMapped, Tracks, AllJoin, Selected, UniqueIds;
    ValidKeyed(c);
    if row.id in Removed(c.Mappings(), table) {
      var m :| m in c.Mappings() && m.table == table && m.legacy == row.id;
      if m in c.graph { GraphTable(c, m); }
      var a, b := RelationRows(c, m);
      SameRow(Get(c.store, table), a, row);
    }
    if Selected(table, row, c.idMap, LegacyDocuments(c.manifest)) {
      assert RelationMapped(table, Get(c.store, table), c.idMap, LegacyDocuments(c.manifest), c.relations);
      var m :| m in c.relations && m.table == table && m.legacy == row.id;
      assert m in c.Mappings();
    }
  }

  lemma CanonicalSurvives(c: Approval, m: EntityMapping)
    requires c.Valid() && c.NoChains() && m in c.Mappings()
    ensures m.canonical !in Removed(c.Mappings(), m.table)
  {
    hide WellFormed, Decoded, Certified, Removed, Selected, GraphMaps, Translate;
    if m in c.graph {
      GraphTable(c, m);
      CanonicalNotMapped(c, m, m.table);
      GraphRemoval(c, m.table, m.canonical);
    } else {
      var a, b := RelationRows(c, m);
      CounterpartNotSelected(c, m.table, a.refs, b);
      RelationRemoval(c, m.table, b);
    }
  }

  lemma VerificationPasses(c: Approval)
    requires c.Valid() && c.NoChains()
    ensures VerifiedState(Survivors(c.store, c.Mappings()), c.Mappings())
  {
    hide WellFormed, Decoded, Certified, Survivors, Present;
    forall m | m in c.Mappings()
      ensures !Present(Get(Survivors(c.store, c.Mappings()), m.table), m.legacy)
      ensures Present(Get(Survivors(c.store, c.Mappings()), m.table), m.canonical)
    {
      assert m.legacy in Removed(c.Mappings(), m.table);
      MappedIsPresent(c, m);
      CanonicalSurvives(c, m);
      PresentAmongSurvivors(c.store, c.Mappings(), m.table, m.legacy);
      PresentAmongSurvivors(c.store, c.Mappings(), m.table, m.canonical);
    }
  }

  /** A canonical document that is legacy elsewhere is missing from the copy. */
  lemma ChainBlocks(c: Approval, d: DocumentMapping, e: DocumentMapping)
    requires c.Valid() && d in c.manifest && e in c.manifest && d.legacy == e.canonical
    ensures !VerifiedState(Survivors(c.store, c.Mappings()), c.Mappings())
  {
    hide WellFormed, Decoded, Certified, Survivors, Present, RevisionsMapped;
    EquivalentDocument(c, d);
    EquivalentDocument(c, e);
    var first, second := EntityMapping(Documents, d.legacy, d.canonical), EntityMapping(Documents, e.legacy, e.canonical);
    assert first in c.Mappings() && second in c.Mappings();
    assert d.legacy in Removed(c.Mappings(), Documents);
    PresentAmongSurvivors(c.store, c.Mappings(), Documents, e.canonical);
  }

  /** A READY plan over a well-formed database can be applied exactly when every revision of the
      legacy documents is declared and no document is both legacy and canonical. */
  lemma MigrationPasses(c: Approval)
    requires c.Valid()
    ensures Deletable(c.store, c.Mappings()) && VerifiedState(Survivors(c.store, c.Mappings()), c.Mappings())
            <==> c.AllRevisionsDeclared() && c.NoChains()
  {
    hide WellFormed, Decoded, Certified, Deletable, VerifiedState, Survivors;
    if c.AllRevisionsDeclared() && c.NoChains() {
      DeletionPasses(c);
      VerificationPasses(c);
    } else if !c.AllRevisionsDeclared() {
      var d, revision :| d in c.manifest && revision in Get(c.store, Revisions) && RefersTo(revision, d.legacy)
        && forall r | r in d.revisions :: r.legacy != revision.id;
      UndeclaredBlocks(c, d, revision);
    } else {
      var d, e :| d in c.manifest && e in c.manifest && d.legacy == e.canonical;
      ChainBlocks(c, d, e);
    }
  }

  // ---------------------------------------------------------------- the migrated copy

  /** The identifiers of the rows removed from the graph. */
  function RemovedFromGraph(c: Approval): set<Id> { set m | m in c.graph :: m.legacy }

  lemma RemovedReference(c: Approval, table: Table, row: Row)
    requires c.Valid() && table in GRAPH_TABLES && row in Get(c.store, table) && row.id in RemovedFromGraph(c)
    ensures c.LegacyOwned(table, row)
  {
    hide WellFormed, Decoded, Certified, Owner, Paired;
    var m :| m in c.graph && m.legacy == row.id;
    var d, a, b := GraphRows(c, m);
    SameGraphRow(c, m.table, table, a, row);
  }

  /** Whatever refers to a removed row of the graph is removed as well; a retrieval record, if it follows
      the documents it names rows of. */
  lemma ReferringRowRemoved(c: Approval, table: Table, row: Row, id: Id)
    requires c.Valid() && c.AllRevisionsDeclared() && (table == RetrievalRecords ==> c.RecordsFollow())
    requires row in Get(c.store, table) && id in row.refs && id in RemovedFromGraph(c)
    ensures row.id in Removed(c.Mappings(), table)
  {
    hide Decoded, Keyed, GlobalIds, PageNumbers, ForeignKeys, GraphEquivalent, GraphGrew, GraphMapped, RelationsMapped,
      AllJoin, Removed, Approval.RecordsFollow;
    if table == RetrievalRecords {
      RecordRemoved(c, row, id);
    } else if table == Documents {
      assert false;
    } else if table in RELATION_TABLES {
      assert Selected(table, row, c.idMap, LegacyDocuments(c.manifest)) by {
        var m :| m in c.graph && m.legacy == id;
        assert id in c.idMap;
      }
      RelationRemoval(c, table, row);
    } else {
      GraphReferenceRemoved(c, table, row, id);
    }
  }

  /** The parent of a row of the graph is a row of the graph. */
  lemma ParentRow(c: Approval, parents: Table, child: Table, row: Row) returns (parent: Row)
    requires c.Valid() && parents in GRAPH_TABLES && child in ChildTables(parents) && row in Get(c.store, child)
    ensures |row.refs| == 1 && parent in Get(c.store, parents) && parent.id == row.refs[0]
  {
    hide Decoded, Certified, Keyed, GlobalIds, PageNumbers, RecordConsistent;
    PresentMeans(Get(c.store, parents), row.refs[0]);
    parent :| parent in Get(c.store, parents) && parent.id == row.refs[0];
  }

  lemma GraphReferenceRemoved(c: Approval, table: Table, row: Row, id: Id)
    requires c.Valid() && c.AllRevisionsDeclared() && table in GRAPH_TABLES
    requires row in Get(c.store, table) && id in row.refs && id in RemovedFromGraph(c) && table != Documents
    ensures row.id in Removed(c.Mappings(), table)
  {
    hide WellFormed, Decoded, Certified, Owner, Removed, RemovedFromGraph;
    var parents := match table case Revisions => Documents case Pages => Revisions case Clauses => Revisions case _ => Pages;
    var parent := ParentRow(c, parents, table, row);
    RemovedReference(c, parents, parent);
    ValidKeyed(c);
    ChildOwner(c.store, parents, parent, table, row);
    LegacyIsRemoved(c, table, row);
  }

  lemma RecordRemoved(c: Approval, record: Row, id: Id)
    requires c.Valid() && c.RecordsFollow() && record in Get(c.store, RetrievalRecords)
    requires (id in record.refs || id == record.id) && id in RemovedFromGraph(c)
    ensures record.id in Removed(c.Mappings(), RetrievalRecords)
  {
    hide WellFormed, Decoded, Certified, Owner, Removed, Paired, UniqueIds;
    var m :| m in c.graph && m.legacy == id;
    var d, a, b := GraphRows(c, m);
    assert c.LegacyOwned(m.table, a);
    RelationRemoval(c, RetrievalRecords, record);
  }

  /** Whatever a retrieval record names belongs to the document it names. */
  lemma RecordOwner(c: Approval, record: Row, table: Table, named: Row)
    requires c.Valid() && |record.refs| == 3 && RecordConsistent(c.store, record) && table in GRAPH_TABLES && named in Get(c.store, table)
    requires named.id in record.refs || named.id == record.id
    ensures Owner(c.store, table, named) == Some(record.refs[0])
  {
    hide WellFormed, Decoded, Certified, Find;
    ValidKeyed(c);
    if named.id == record.id { return; }
    var revision :| revision in Get(c.store, Revisions) && revision.id == record.refs[1] && RefersTo(revision, record.refs[0]);
    var page :| page in Get(c.store, Pages) && page.id == record.refs[2] && RefersTo(page, record.refs[1]);
    ChildOwner(c.store, Revisions, revision, Pages, page);
    PresentMeans(Get(c.store, Documents), record.refs[0]);
    if named.id == record.refs[0] {
      var document :| document in Get(c.store, Documents) && document.id == record.refs[0];
      SameGraphRow(c, table, Documents, named, document);
    } else if named.id == record.refs[1] {
      SameGraphRow(c, table, Revisions, named, revision);
    } else {
      SameGraphRow(c, table, Pages, named, page);
    }
  }

  /** No surviving row refers to a removed row of the graph, and no surviving row of the graph is keyed
      by one; nor is a retrieval record, if it follows the documents it names rows of. */
  lemma NoDanglingReference(c: Approval, table: Table, row: Row)
    requires c.Valid() && c.AllRevisionsDeclared() && row in Get(Survivors(c.store, c.Mappings()), table)
    requires table == RetrievalRecords ==> c.RecordsFollow()
    ensures forall id | id in row.refs :: id !in RemovedFromGraph(c)
    ensures table in GRAPH_TABLES || table == RetrievalRecords ==> row.id !in RemovedFromGraph(c)
  {
    hide WellFormed, Decoded, Certified, Removed, RemovedFromGraph, Survivors, Owner, Approval.RecordsFollow;
    SurvivingRow(c.store, c.Mappings(), table, row);
    forall id | id in row.refs
      ensures id !in RemovedFromGraph(c)
    {
      if id in RemovedFromGraph(c) {
        ReferringRowRemoved(c, table, row, id);
      }
    }
    if row.id in RemovedFromGraph(c) {
      if table == RetrievalRecords {
        RecordRemoved(c, row, row.id);
      } else if table in GRAPH_TABLES {
        RemovedReference(c, table, row);
        LegacyIsRemoved(c, table, row);
      }
    }
  }

  /** Nothing a surviving retrieval record names, or is keyed by, was removed from the graph. */
  ghost predicate RecordsIntact(c: Approval) {
    forall record, id | record in Get(Survivors(c.store, c.Mappings()), RetrievalRecords) && (id in record.refs || id == record.id) ::
      id !in RemovedFromGraph(c)
  }

  /** Retrieval records carry no foreign keys: the surviving ones are intact exactly when every record
      that names a row of a legacy document names a legacy document. */
  lemma RecordsIntactIff(c: Approval)
    requires c.Valid() && c.AllRevisionsDeclared()
    ensures RecordsIntact(c) <==> c.RecordsFollow()
  {
    hide WellFormed, Decoded, Certified, Removed, RemovedFromGraph, Survivors, Owner;
    if c.RecordsFollow() {
      forall record, id | record in Get(Survivors(c.store, c.Mappings()), RetrievalRecords) && (id in record.refs || id == record.id)
        ensures id !in RemovedFromGraph(c)
      {
        NoDanglingReference(c, RetrievalRecords, record);
      }
    }
    if RecordsIntact(c) {
      forall record, table, row | record in Get(c.store, RetrievalRecords) && table in GRAPH_TABLES && row in Get(c.store, table)
        && (row.id in record.refs || row.id == record.id) && c.LegacyOwned(table, row)
        ensures |record.refs| > 0 && record.refs[0] in LegacyDocuments(c.manifest)
      {
        NamedRowRemoved(c, table, row);
        SurvivingRow(c.store, c.Mappings(), RetrievalRecords, record);
        RelationRemoval(c, RetrievalRecords, record);
      }
    }
  }

  /** A row of a legacy document is removed from the graph. */
  lemma NamedRowRemoved(c: Approval, table: Table, row: Row)
    requires c.Valid() && c.AllRevisionsDeclared() && table in GRAPH_TABLES && row in Get(c.store, table) && c.LegacyOwned(table, row)
    ensures row.id in RemovedFromGraph(c)
  {
    hide WellFormed, Decoded, Certified, Owner;
    var d :| d in c.manifest && Owner(c.store, table, row) == Some(d.legacy);
    LegacyRowMapped(c, d, table, row);
  }

  /** Records that name one document, one of its revisions and one of its pages do follow. */
  lemma ConsistentRecordsFollow(c: Approval)
    requires c.Valid() && RecordsConsistent(c.store)
    ensures c.RecordsFollow()
  {
    hide WellFormed, Decoded, Certified, Owner, RecordConsistent;
    forall record, table, row | record in Get(c.store, RetrievalRecords) && table in GRAPH_TABLES && row in Get(c.store, table)
      && (row.id in record.refs || row.id == record.id) && c.LegacyOwned(table, row)
      ensures |record.refs| > 0 && record.refs[0] in LegacyDocuments(c.manifest)
    {
      RecordShape(c.store, record);
      RecordOwner(c, record, table, row);
    }
  }

  lemma RecordShape(store: Store, record: Row)
    requires RecordConsistent(store, record)
    ensures |record.refs| == 3
  {
  }

  /** The copy still satisfies its foreign keys. */
  lemma ForeignKeysKept(c: Approval)
    requires c.Valid() && c.AllRevisionsDeclared()
    ensures ForeignKeys(Survivors(c.store, c.Mappings()))
  {
    hide WellFormed, Decoded, Certified, Removed, Survivors, RemovedFromGraph;
    forall table, child, row | table in GRAPH_TABLES && child in ChildTables(table) && row in Get(Survivors(c.store, c.Mappings()), child)
      ensures |row.refs| == 1 && Present(Get(Survivors(c.store, c.Mappings()), table), row.refs[0])
    {
      SurvivingRow(c.store, c.Mappings(), child, row);
      var parent := ParentRow(c, table, child, row);
      NoDanglingReference(c, child, row);
      assert row.refs[0] in row.refs;
      PresentAmongSurvivors(c.store, c.Mappings(), table, row.refs[0]);
      PresentMeans(Get(c.store, table), row.refs[0]);
      StillThere(c, table, row.refs[0]);
    }
  }

  lemma StillThere(c: Approval, table: Table, id: Id)
    requires c.Valid() && table in GRAPH_TABLES && id !in RemovedFromGraph(c)
    ensures id !in Removed(c.Mappings(), table)
  {
    hide WellFormed, Decoded, Certified, Removed;
    GraphRemoval(c, table, id);
  }

  /** Deleting present identifiers from a keyed table removes one row for each. */
  lemma {:induction false} DeletedCount(rows: seq<Row>, ids: set<Id>)
    requires UniqueIds(rows) && forall id | id in ids :: Present(rows, id)
    ensures |rows| == |Without(rows, ids)| + |ids|
  {
    hide UniqueIds;
    if ids == {} {
      WithoutNothing(rows);
    } else {
      var id :| id in ids;
      var rest := ids - {id};
      DeletedCount(rows, rest);
      WithoutTwice(rows, rest, {id});
      assert rest + {id} == ids;
      var kept := Without(rows, rest);
      WithoutOne(kept, id);
      PresentMeans(rows, id);
      PresentMeans(kept, id);
    }
  }

  lemma {:induction false} OneIdEach(mappings: set<EntityMapping>, table: Table)
    requires OneMappingEach(mappings) && forall m | m in mappings :: m.table == table
    ensures |set m | m in mappings :: m.legacy| == |mappings|
  {
    if mappings != {} {
      var m :| m in mappings;
      var rest := mappings - {m};
      OneIdEach(rest, table);
      var restIds, ids := set w | w in rest :: w.legacy, set w | w in mappings :: w.legacy;
      assert ids == restIds + {m.legacy};
      assert m.legacy !in restIds;
    } else {
      assert (set m | m in mappings :: m.legacy) == {};
    }
  }

  /** Table by table, the rows before are the rows after and the rows counted as removed. */
  lemma CountsAddUp(c: Approval, table: Table)
    requires c.Valid()
    ensures |Get(c.store, table)| == |Get(Survivors(c.store, c.Mappings()), table)| + |Restrict(c.Mappings(), table)|
  {
    hide WellFormed, Decoded, Certified, Present, UniqueIds;
    ValidKeyed(c);
    MappedOnce(c);
    OneIdEach(Restrict(c.Mappings(), table), table);
    assert Removed(c.Mappings(), table) == set m | m in Restrict(c.Mappings(), table) :: m.legacy;
    forall id | id in Removed(c.Mappings(), table)
      ensures Present(Get(c.store, table), id)
    {
      var m :| m in c.Mappings() && m.table == table && m.legacy == id;
      MappedIsPresent(c, m);
    }
    DeletedCount(Get(c.store, table), Removed(c.Mappings(), table));
    SurvivingRows(c.store, c.Mappings(), table);
  }

  /** Revisions of one document have different sources, as the database schema demands. */
  ghost predicate DistinctSources(store: Store) {
    forall a, b | a in Get(store, Revisions) && b in Get(store, Revisions) && Parent(a) == Parent(b)
      && a.payload.RevisionData? && b.payload.RevisionData? && a.payload.sourceHash == b.payload.sourceHash :: a == b
  }

  /** A legacy document with two revisions never migrates: a plan may be READY for it, but a
      mapping names one source hash, so only one of the revisions can be declared. */
  lemma TwoRevisionsNeverMigrate(c: Approval, d: DocumentMapping, a: Row, b: Row)
    requires c.Valid() && DistinctSources(c.store) && d in c.manifest
    requires a in Get(c.store, Revisions) && b in Get(c.store, Revisions) && a != b
    requires RefersTo(a, d.legacy) && RefersTo(b, d.legacy)
    ensures !Deletable(c.store, c.Mappings())
  {
    hide WellFormed, Decoded, Certified, Deletable;
    if (exists r | r in d.revisions :: r.legacy == a.id) && (exists r | r in d.revisions :: r.legacy == b.id) {
      var r :| r in d.revisions && r.legacy == a.id;
      var q :| q in d.revisions && q.legacy == b.id;
      DeclaredSource(c, d, r, a);
      DeclaredSource(c, d, q, b);
    } else if exists r | r in d.revisions :: r.legacy == a.id {
      UndeclaredBlocks(c, d, b);
    } else {
      UndeclaredBlocks(c, d, a);
    }
  }

  lemma DeclaredSource(c: Approval, d: DocumentMapping, r: RevisionMapping, row: Row)
    requires c.Valid() && d in c.manifest && r in d.revisions && row in Get(c.store, Revisions) && row.id == r.legacy
    ensures HasSource(row, d.sourceHash)
  {
    hide WellFormed, Decoded, Certified, UniqueIds, ContentsEquivalent, PagesOf, RevisionMapped;
    ValidKeyed(c);
    EquivalentRevision(c, d, r);
    FindKeyed(Get(c.store, Revisions), row);
  }
}

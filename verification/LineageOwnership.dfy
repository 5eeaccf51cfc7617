/** Which document a row belongs to, and what a well-formed source database looks like. */
module LineageOwnership {
  import opened Options
  import opened LineageStore
  import opened LineageMatching
  import opened LineageGraph
  import opened LineageMigration

  function Parent(row: Row): Option<Id> {
    if |row.refs| > 0 then Some(row.refs[0]) else None
  }

  function RevisionOwner(store: Store, revision: Option<Id>): Option<Id> {
    if revision.None? then None
    else
      var row := Find(Get(store, Revisions), revision.value);
      if row.None? then None else Parent(row.value)
  }

  function PageOwner(store: Store, page: Option<Id>): Option<Id> {
    if page.None? then None
    else
      var row := Find(Get(store, Pages), page.value);
      if row.None? then None else RevisionOwner(store, Parent(row.value))
  }

  /** The document a row of the graph belongs to. */
  function Owner(store: Store, table: Table, row: Row): Option<Id> {
    match table
    case Documents => Some(row.id)
    case Revisions => Parent(row)
    case Pages => RevisionOwner(store, Parent(row))
    case Clauses => RevisionOwner(store, Parent(row))
    case Elements => PageOwner(store, Parent(row))
    case Tables => PageOwner(store, Parent(row))
    case Visuals => PageOwner(store, Parent(row))
    case _ => None
  }

  lemma {:induction false} FindKeyed(rows: seq<Row>, row: Row)
    requires UniqueIds(rows) && row in rows
    ensures Find(rows, row.id) == Some(row)
  {
    var found := Find(rows, row.id);
    SameRow(rows, found.value, row);
  }

  /** A child belongs to the document of its parent. */
  lemma ChildOwner(store: Store, table: Table, parent: Row, childTable: Table, child: Row)
    requires Keyed(store) && parent in Get(store, table) && childTable in ChildTables(table) && RefersTo(child, parent.id)
    ensures Owner(store, childTable, child) == Owner(store, table, parent)
  {
    FindKeyed(Get(store, table), parent);
  }

  // ---------------------------------------------------------------- well-formed databases

  /** One identifier names one row of the graph. */
  ghost predicate GlobalIds(store: Store) {
    forall t, u, a, b | t in GRAPH_TABLES && u in GRAPH_TABLES && a in Get(store, t) && b in Get(store, u) && a.id == b.id :: t == u
  }

  ghost predicate PageNumbers(store: Store) {
    forall a, b | a in Get(store, Pages) && b in Get(store, Pages) && Parent(a) == Parent(b) && Number(a) == Number(b) :: a == b
  }

  ghost predicate ForeignKeys(store: Store) {
    forall table, child, row | table in GRAPH_TABLES && child in ChildTables(table) && row in Get(store, child) ::
      |row.refs| == 1 && Present(Get(store, table), row.refs[0])
  }

  /** A retrieval record names a document, one of its revisions, one page of that revision, and
      is keyed by a piece of evidence of the same document. */
  ghost predicate RecordConsistent(store: Store, record: Row) {
    && |record.refs| == 3
    && (exists revision | revision in Get(store, Revisions) :: revision.id == record.refs[1] && RefersTo(revision, record.refs[0]))
    && (exists page | page in Get(store, Pages) :: page.id == record.refs[2] && RefersTo(page, record.refs[1]))
    && Present(Get(store, Documents), record.refs[0])
    && (forall table, row | table in GRAPH_TABLES && row in Get(store, table) && row.id == record.id ::
          Owner(store, table, row) == Some(record.refs[0]))
  }

  ghost predicate RecordsConsistent(store: Store) {
    forall record | record in Get(store, RetrievalRecords) :: RecordConsistent(store, record)
  }

  /** Keys, foreign keys and the shapes of the rows; nothing about what retrieval records name. */
  ghost predicate WellFormed(store: Store) {
    && Keyed(store) && GlobalIds(store) && PageNumbers(store) && ForeignKeys(store)
    && (forall flag | flag in Get(store, ReviewFlags) :: |flag.refs| == 1)
    && (forall document | document in Get(store, Documents) :: document.refs == [])
  }

  /** What decoding a manifest guarantees. */
  ghost predicate Decoded(manifest: Manifest) {
    && (forall d, e | d in manifest && e in manifest && (d.legacy == e.legacy || d.canonical == e.canonical) :: d == e)
    && (forall d, e, r, q | d in manifest && e in manifest && r in d.revisions && q in e.revisions
          && (r.legacy == q.legacy || r.canonical == q.canonical) :: d == e && r == q)
    && (forall d | d in manifest :: d.legacy != d.canonical && d.revisions != [])
  }

  // ---------------------------------------------------------------- what a mapping joins

  /** The two rows a graph mapping joins, and the documents they belong to. */
  ghost predicate JoinsRows(store: Store, d: DocumentMapping, m: EntityMapping, a: Row, b: Row) {
    && m.table in GRAPH_TABLES
    && a in Get(store, m.table) && b in Get(store, m.table)
    && a.id == m.legacy && b.id == m.canonical
    && Owner(store, m.table, a) == Some(d.legacy) && Owner(store, m.table, b) == Some(d.canonical)
  }

  lemma DocumentPair(store: Store, d: DocumentMapping) returns (a: Row, b: Row)
    requires Keyed(store) && DocumentHeaderMatches(store, d)
    ensures JoinsRows(store, d, EntityMapping(Documents, d.legacy, d.canonical), a, b)
  {
    a, b := Find(Get(store, Documents), d.legacy).value, Find(Get(store, Documents), d.canonical).value;
  }

  lemma RevisionPair(store: Store, d: DocumentMapping, r: RevisionMapping) returns (a: Row, b: Row)
    requires Keyed(store) && RevisionHeaderMatches(store, d, r)
    ensures JoinsRows(store, d, EntityMapping(Revisions, r.legacy, r.canonical), a, b)
  {
    a, b := Find(Get(store, Revisions), r.legacy).value, Find(Get(store, Revisions), r.canonical).value;
  }

  lemma PagePair(store: Store, d: DocumentMapping, r: RevisionMapping, a: Row, b: Row)
    requires Keyed(store) && RevisionHeaderMatches(store, d, r) && PairedPages(store, r, a, b)
    ensures RefersTo(a, r.legacy) && RefersTo(b, r.canonical)
    ensures JoinsRows(store, d, EntityMapping(Pages, a.id, b.id), a, b)
  {
    var x, y := RevisionPair(store, d, r);
    hide Owner, Find, PagesByNumber;
    PageRow(store, r.legacy, a);
    PageRow(store, r.canonical, b);
    ChildOwner(store, Revisions, x, Pages, a);
    ChildOwner(store, Revisions, y, Pages, b);
  }

  lemma PageRow(store: Store, revision: Id, page: Row)
    requires exists n | n in PagesOf(store, revision) :: page == PagesOf(store, revision)[n]
    ensures page in Get(store, Pages) && RefersTo(page, revision)
  {
    hide PagesByNumber, Children;
  }

  lemma ItemPair(store: Store, d: DocumentMapping, table: Table, x: Row, y: Row, m: EntityMapping) returns (a: Row, b: Row)
    requires Keyed(store) && m.table in ChildTables(table) && table in GRAPH_TABLES
    requires x in Get(store, table) && y in Get(store, table)
    requires Owner(store, table, x) == Some(d.legacy) && Owner(store, table, y) == Some(d.canonical)
    requires PairedItems(store, x.id, y.id, m)
    ensures JoinsRows(store, d, m, a, b) && RefersTo(a, x.id) && RefersTo(b, y.id) && a.payload == b.payload
  {
    a, b :| a in Children(Get(store, m.table), x.id) && b in Children(Get(store, m.table), y.id)
      && a.id == m.legacy && b.id == m.canonical && a.payload == b.payload;
    hide Owner, Children;
    ChildOwner(store, table, x, m.table, a);
    ChildOwner(store, table, y, m.table, b);
  }

  lemma RevisionContentsPair(store: Store, d: DocumentMapping, r: RevisionMapping, m: EntityMapping) returns (a: Row, b: Row)
    requires Keyed(store) && RevisionHeaderMatches(store, d, r) && PairedIn(store, r, m)
    ensures JoinsRows(store, d, m, a, b)
  {
    hide Owner, PairedItems, PairedPages, RevisionHeaderMatches, UniqueIds;
    if m.table == Pages {
      a, b :| PairedPages(store, r, a, b) && m == EntityMapping(Pages, a.id, b.id);
      PagePair(store, d, r, a, b);
    } else if m.table == Revisions {
      a, b := RevisionPair(store, d, r);
    } else if m.table == Clauses {
      var x, y := RevisionPair(store, d, r);
      a, b := ItemPair(store, d, Revisions, x, y, m);
    } else {
      var x, y :| PairedPages(store, r, x, y) && PairedItems(store, x.id, y.id, m);
      PagePair(store, d, r, x, y);
      a, b := ItemPair(store, d, Pages, x, y, m);
    }
  }

  /** Every graph mapping of an equivalent document joins a legacy row and a canonical row. */
  lemma GraphPair(store: Store, d: DocumentMapping, m: EntityMapping) returns (a: Row, b: Row)
    requires Keyed(store) && DocumentEquivalent(store, d) && Paired(store, d, m)
    ensures JoinsRows(store, d, m, a, b)
  {
    hide Owner, PairedIn, RevisionHeaderMatches, ContentsEquivalent, UniqueIds, PagesOf;
    if m == EntityMapping(Documents, d.legacy, d.canonical) {
      a, b := DocumentPair(store, d);
    } else {
      var r :| r in d.revisions && PairedIn(store, r, m);
      var i :| 0 <= i < |d.revisions| && d.revisions[i] == r;
      assert RevisionEquivalent(store, d, d.revisions[i]);
      a, b := RevisionContentsPair(store, d, r, m);
    }
  }
}

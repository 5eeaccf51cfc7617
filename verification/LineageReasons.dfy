/** Why a plan is BLOCKED: each reason it reports is true of the database. */
module LineageReasons {
  import opened Options
  import opened LineageStore
  import opened LineageMatching
  import opened LineageGraph
  import opened LineageLayers
  import opened LineageRelations

  /** Whatever was added to the unresolved items is one of the true reasons. */
  ghost predicate Explained(open: seq<Unresolved>, open': seq<Unresolved>, reasons: iset<Unresolved>) {
    forall u | u in open' :: u in open || u in reasons
  }

  lemma ExplainedOn(a: seq<Unresolved>, b: seq<Unresolved>, c: seq<Unresolved>, reasons: iset<Unresolved>)
    requires Explained(a, b, reasons) && Explained(b, c, reasons)
    ensures Explained(a, c, reasons)
  {
  }

  lemma ExplainedWider(open: seq<Unresolved>, open': seq<Unresolved>, some: iset<Unresolved>, more: iset<Unresolved>)
    requires Explained(open, open', some) && some <= more
    ensures Explained(open, open', more)
  {
  }

  lemma NothingToExplain(open: seq<Unresolved>, reasons: iset<Unresolved>)
    ensures Explained(open, open, reasons)
  {
  }

  lemma OneExplained(open: seq<Unresolved>, u: Unresolved, reasons: iset<Unresolved>)
    requires u in reasons
    ensures Explained(open, open + [u], reasons)
  {
  }

  // ---------------------------------------------------------------- true reasons

  /** A row of a layer has no counterpart, or several, or one with another reviewed value. */
  ghost predicate LayerReason(rows: seq<Row>, others: seq<Row>, u: Unresolved) {
    exists row | row in rows && row.id == u.legacy ::
      match u.code
      case CounterpartMissing =>
        |Carrying(others, row.payload)| == 0 || (|Carrying(others, row.payload)| == 1 && |Carrying(rows, row.payload)| > 1)
      case CounterpartAmbiguous => |Carrying(others, row.payload)| > 1
      case ReviewedValueConflict =>
        exists other | other in others :: other.id == u.canonical && SameBase(other, row) && other.payload != row.payload
      case _ => false
  }

  ghost predicate LayerReasonIn(store: Store, table: Table, legacy: Id, canonical: Id, u: Unresolved) {
    LayerReason(Children(Get(store, table), legacy), Children(Get(store, table), canonical), u)
  }

  ghost predicate PageReason(store: Store, a: Row, b: Row, u: Unresolved) {
    || (u == Unresolved(PageGeometryMismatch, a.id, b.id) && !SameGeometry(a, b))
    || (exists table | table in ITEM_TABLES :: LayerReasonIn(store, table, a.id, b.id, u))
  }

  ghost predicate ContentsReason(store: Store, r: RevisionMapping, u: Unresolved) {
    || (exists a, b :: PairedPages(store, r, a, b) && PageReason(store, a, b, u))
    || LayerReasonIn(store, Clauses, r.legacy, r.canonical, u)
  }

  predicate HeaderReason(store: Store, d: DocumentMapping, r: RevisionMapping, code: Code) {
    var legacy, canonical := Find(Get(store, Revisions), r.legacy), Find(Get(store, Revisions), r.canonical);
    if legacy.None? || canonical.None? then code == RevisionNotFound
    else match code
      case RevisionOwnershipMismatch => !RefersTo(legacy.value, d.legacy) || !RefersTo(canonical.value, d.canonical)
      case RevisionSourceHashMismatch => !HasSource(legacy.value, d.sourceHash) || !HasSource(canonical.value, d.sourceHash)
      case RevisionMetadataMismatch => legacy.value.payload != canonical.value.payload
      case PageSetMismatch => PagesOf(store, r.legacy).Keys != PagesOf(store, r.canonical).Keys
      case _ => false
  }

  ghost predicate RevisionReason(store: Store, d: DocumentMapping, r: RevisionMapping, u: Unresolved) {
    || (u.legacy == r.legacy && u.canonical == r.canonical && HeaderReason(store, d, r, u.code))
    || ContentsReason(store, r, u)
  }

  predicate DocumentHeaderReason(store: Store, d: DocumentMapping, code: Code) {
    var legacy, canonical := Find(Get(store, Documents), d.legacy), Find(Get(store, Documents), d.canonical);
    match code
    case LegacyDocumentNotFound => legacy.None?
    case CanonicalDocumentNotFound => canonical.None?
    case DocumentMetadataMismatch => legacy.Some? && canonical.Some? && legacy.value.payload != canonical.value.payload
    case _ => false
  }

  ghost predicate DocumentReason(store: Store, d: DocumentMapping, u: Unresolved) {
    || (u.legacy == d.legacy && u.canonical == d.canonical && DocumentHeaderReason(store, d, u.code))
    || (exists r | r in d.revisions :: RevisionReason(store, d, r, u))
  }

  ghost predicate GraphReason(store: Store, manifest: Manifest, u: Unresolved) {
    exists d | d in manifest :: DocumentReason(store, d, u)
  }

  /** A selected row of a relation table has no counterpart, or several. */
  ghost predicate RelationReason(store: Store, idMap: map<Id, Id>, legacyDocuments: set<Id>, u: Unresolved) {
    && u.code.RelationCounterpartMissing? && u.code.table in RELATION_TABLES
    && exists row | row in Get(store, u.code.table) ::
         row.id == u.legacy && Selected(u.code.table, row, idMap, legacyDocuments) && !OneCounterpart(Get(store, u.code.table), row, idMap)
  }

  ghost function PageReasons(store: Store, a: Row, b: Row): iset<Unresolved> { iset u: Unresolved | PageReason(store, a, b, u) }

  ghost function ContentsReasons(store: Store, r: RevisionMapping): iset<Unresolved> { iset u: Unresolved | ContentsReason(store, r, u) }

  ghost function RevisionReasons(store: Store, d: DocumentMapping, r: RevisionMapping): iset<Unresolved> {
    iset u: Unresolved | RevisionReason(store, d, r, u)
  }

  ghost function DocumentReasons(store: Store, d: DocumentMapping): iset<Unresolved> {
    iset u: Unresolved | DocumentReason(store, d, u)
  }

  ghost function GraphReasons(store: Store, manifest: Manifest): iset<Unresolved> {
    iset u: Unresolved | GraphReason(store, manifest, u)
  }

  // ---------------------------------------------------------------- reasons of one layer

  lemma {:induction false} UnresolvedIsTrue(legacy: seq<Row>, canonical: seq<Row>, n: nat, u: Unresolved)
    requires n <= |legacy| && u in UnresolvedUpTo(legacy, canonical, n)
    ensures LayerReason(legacy, canonical, u)
  {
    hide Carrying;
    if u in UnresolvedUpTo(legacy, canonical, n - 1) {
      UnresolvedIsTrue(legacy, canonical, n - 1, u);
    } else {
      var row := legacy[n - 1];
      assert row in legacy && row.id == u.legacy;
      if CarriedBefore(legacy, n - 1, row.payload) {
        var i :| 0 <= i < n - 1 && legacy[i].payload == row.payload;
        CarriedTwice(legacy, i, n - 1);
      }
    }
  }

  lemma {:induction false} BaseCarrier(rows: seq<Row>, clause: Row)
    ensures forall row | row in BaseCarriers(rows, clause) :: row in rows && SameBase(row, clause)
  {
    if rows != [] { BaseCarrier(rows[1..], clause); }
  }

  lemma {:induction false} ConflictIsTrue(legacy: seq<Row>, canonical: seq<Row>, mapped: set<Id>, unmapped: set<Id>, n: nat, u: Unresolved)
    requires n <= |legacy| && u in ConflictsUpTo(legacy, canonical, mapped, unmapped, n)
    ensures LayerReason(legacy, canonical, u)
  {
    hide BaseCarriers, SameBase;
    if u in ConflictsUpTo(legacy, canonical, mapped, unmapped, n - 1) {
      ConflictIsTrue(legacy, canonical, mapped, unmapped, n - 1, u);
    } else {
      var row := legacy[n - 1];
      var carriers := BaseCarriers(canonical, row);
      BaseCarrier(canonical, row);
      assert carriers[0] in carriers && row in legacy;
    }
  }

  /** Whatever a layer leaves unresolved, it leaves for a true reason. */
  lemma LayerExplained(store: Store, table: Table, legacy: Id, canonical: Id, u: Unresolved)
    requires u in LayerUnresolved(store, table, legacy, canonical)
    ensures LayerReasonIn(store, table, legacy, canonical, u)
  {
    hide LayerReason, UnresolvedUpTo, ConflictsUpTo, MappedUpTo, Children;
    var rows, others := Children(Get(store, table), legacy), Children(Get(store, table), canonical);
    var plain := UnresolvedUpTo(rows, others, |rows|);
    if u in plain {
      UnresolvedIsTrue(rows, others, |rows|, u);
    } else {
      var mapped, unmapped := set m | m in MappedUpTo(Clauses, rows, others, |rows|) :: m.legacy, set w | w in plain :: w.legacy;
      ConflictIsTrue(rows, others, mapped, unmapped, |rows|, u);
    }
  }

  lemma PageExplained(store: Store, a: Row, b: Row, open: seq<Unresolved>, open': seq<Unresolved>)
    requires open' == open + LayerUnresolved(store, Elements, a.id, b.id)
                      + LayerUnresolved(store, Tables, a.id, b.id)
                      + LayerUnresolved(store, Visuals, a.id, b.id)
    ensures Explained(open, open', PageReasons(store, a, b))
  {
    hide LayerUnresolved, LayerReasonIn;
    forall u | u in open' && u !in open
      ensures u in PageReasons(store, a, b)
    {
      var table := if u in LayerUnresolved(store, Elements, a.id, b.id) then ITEM_TABLES[0]
                   else if u in LayerUnresolved(store, Tables, a.id, b.id) then ITEM_TABLES[1] else ITEM_TABLES[2];
      LayerExplained(store, table, a.id, b.id, u);
      assert PageReason(store, a, b, u);
    }
  }

  lemma PageInContents(store: Store, r: RevisionMapping, a: Row, b: Row)
    requires PairedPages(store, r, a, b)
    ensures PageReasons(store, a, b) <= ContentsReasons(store, r)
  {
    hide PairedPages, PageReason, LayerReasonIn;
  }

  lemma ClausesExplained(store: Store, r: RevisionMapping, open: seq<Unresolved>)
    ensures Explained(open, open + LayerUnresolved(store, Clauses, r.legacy, r.canonical), ContentsReasons(store, r))
  {
    hide PairedPages, PageReason, LayerReasonIn, LayerUnresolved;
    forall u | u in LayerUnresolved(store, Clauses, r.legacy, r.canonical)
      ensures u in ContentsReasons(store, r)
    {
      LayerExplained(store, Clauses, r.legacy, r.canonical, u);
    }
  }

  lemma ContentsInRevision(store: Store, d: DocumentMapping, r: RevisionMapping)
    ensures ContentsReasons(store, r) <= RevisionReasons(store, d, r)
  {
    hide ContentsReason, HeaderReason;
  }

  lemma RevisionInDocument(store: Store, d: DocumentMapping, r: RevisionMapping)
    requires r in d.revisions
    ensures RevisionReasons(store, d, r) <= DocumentReasons(store, d)
  {
    hide RevisionReason, DocumentHeaderReason;
  }

  lemma DocumentInGraph(store: Store, manifest: Manifest, d: DocumentMapping)
    requires d in manifest
    ensures DocumentReasons(store, d) <= GraphReasons(store, manifest)
  {
    hide DocumentReason;
  }

  // ---------------------------------------------------------------- reasons of the relations

  lemma {:induction false} RelationIsTrue(table: Table, rows: seq<Row>, idMap: map<Id, Id>, legacyDocuments: set<Id>, n: nat, u: Unresolved)
    requires n <= |rows| && u in RelationUnresolvedUpTo(table, rows, idMap, legacyDocuments, n)
    ensures u.code == RelationCounterpartMissing(table)
    ensures exists row | row in rows ::
              row.id == u.legacy && Selected(table, row, idMap, legacyDocuments) && !OneCounterpart(rows, row, idMap)
  {
    hide Selected, OneCounterpart;
    if u in RelationUnresolvedUpTo(table, rows, idMap, legacyDocuments, n - 1) {
      RelationIsTrue(table, rows, idMap, legacyDocuments, n - 1, u);
    } else {
      assert rows[n - 1] in rows;
    }
  }

  lemma TableExplained(store: Store, table: Table, idMap: map<Id, Id>, legacyDocuments: set<Id>, u: Unresolved)
    requires table in RELATION_TABLES && u in TableUnresolved(store, table, idMap, legacyDocuments)
    ensures RelationReason(store, idMap, legacyDocuments, u)
  {
    hide Selected, OneCounterpart, RelationUnresolvedUpTo;
    RelationIsTrue(table, Get(store, table), idMap, legacyDocuments, |Get(store, table)|, u);
  }

  lemma RelationsExplained(store: Store, idMap: map<Id, Id>, legacyDocuments: set<Id>)
    ensures forall u | u in AllUnresolved(store, idMap, legacyDocuments) :: RelationReason(store, idMap, legacyDocuments, u)
  {
    hide RelationReason, TableUnresolved;
    forall u | u in AllUnresolved(store, idMap, legacyDocuments)
      ensures RelationReason(store, idMap, legacyDocuments, u)
    {
      var table := if u in TableUnresolved(store, Links, idMap, legacyDocuments) then Links
                   else if u in TableUnresolved(store, ReviewFlags, idMap, legacyDocuments) then ReviewFlags else RetrievalRecords;
      TableExplained(store, table, idMap, legacyDocuments, u);
    }
  }
}

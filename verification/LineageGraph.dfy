/** The planner: it compares the legacy graph with the canonical graph, layer by layer. */
module LineageGraph {
  import opened Options
  import opened LineageStore
  import opened LineageMatching

  datatype RevisionMapping = RevisionMapping(legacy: Id, canonical: Id)

  datatype DocumentMapping = DocumentMapping(
    legacy: Id, canonical: Id, sourceHash: string, revisions: seq<RevisionMapping>)

  type Manifest = seq<DocumentMapping>

  datatype Plan = Plan(ready: bool, mappings: set<EntityMapping>, unresolved: set<Unresolved>)

  /** Primary keys. */
  ghost predicate Keyed(store: Store) {
    forall table :: UniqueIds(Get(store, table))
  }

  predicate RefersTo(row: Row, parent: Id) { |row.refs| > 0 && row.refs[0] == parent }

  // ---------------------------------------------------------------- what equivalence means

  function Number(page: Row): nat {
    if page.payload.PageData? then page.payload.number else 0
  }

  /** Page number to page; a later row wins. */
  function PagesByNumber(pages: seq<Row>): (byNumber: map<nat, Row>)
    ensures forall n | n in byNumber :: byNumber[n] in pages && Number(byNumber[n]) == n
    ensures forall page | page in pages :: Number(page) in byNumber
  {
    if pages == [] then map[]
    else
      var last := pages[|pages| - 1];
      assert forall page :: page in pages <==> page == last || page in pages[..|pages| - 1];
      PagesByNumber(pages[..|pages| - 1])[Number(last) := last]
  }

  function PagesOf(store: Store, revision: Id): map<nat, Row> {
    PagesByNumber(Children(Get(store, Pages), revision))
  }

  predicate SameGeometry(a: Row, b: Row) {
    a.payload.PageData? && b.payload.PageData?
    && a.payload.width == b.payload.width && a.payload.height == b.payload.height
  }

  ghost predicate ItemsExact(store: Store, table: Table, legacy: Id, canonical: Id) {
    ExactlyOnce(Children(Get(store, table), legacy), Children(Get(store, table), canonical))
  }

  ghost predicate PageEquivalent(store: Store, legacy: Row, canonical: Row) {
    && SameGeometry(legacy, canonical)
    && ItemsExact(store, Elements, legacy.id, canonical.id)
    && ItemsExact(store, Tables, legacy.id, canonical.id)
    && ItemsExact(store, Visuals, legacy.id, canonical.id)
  }

  predicate HasSource(revision: Row, sourceHash: string) {
    revision.payload.RevisionData? && revision.payload.sourceHash == sourceHash
  }

  predicate RevisionHeaderMatches(store: Store, d: DocumentMapping, r: RevisionMapping) {
    var legacy, canonical := Find(Get(store, Revisions), r.legacy), Find(Get(store, Revisions), r.canonical);
    && legacy.Some? && canonical.Some?
    && RefersTo(legacy.value, d.legacy) && RefersTo(canonical.value, d.canonical)
    && HasSource(legacy.value, d.sourceHash) && legacy.value.payload == canonical.value.payload
  }

  /** The pages with these numbers are equivalent. */
  ghost predicate PagesEquivalent(store: Store, r: RevisionMapping, numbers: set<nat>)
    requires numbers <= PagesOf(store, r.legacy).Keys * PagesOf(store, r.canonical).Keys
  {
    forall n | n in numbers :: PageEquivalent(store, PagesOf(store, r.legacy)[n], PagesOf(store, r.canonical)[n])
  }

  ghost predicate ContentsEquivalent(store: Store, r: RevisionMapping)
    requires PagesOf(store, r.legacy).Keys == PagesOf(store, r.canonical).Keys
  {
    PagesEquivalent(store, r, PagesOf(store, r.legacy).Keys) && ItemsExact(store, Clauses, r.legacy, r.canonical)
  }

  ghost predicate RevisionEquivalent(store: Store, d: DocumentMapping, r: RevisionMapping) {
    && RevisionHeaderMatches(store, d, r)
    && PagesOf(store, r.legacy).Keys == PagesOf(store, r.canonical).Keys
    && ContentsEquivalent(store, r)
  }

  predicate DocumentHeaderMatches(store: Store, d: DocumentMapping) {
    var legacy, canonical := Find(Get(store, Documents), d.legacy), Find(Get(store, Documents), d.canonical);
    legacy.Some? && canonical.Some? && legacy.value.payload == canonical.value.payload
  }

  ghost predicate RevisionsEquivalent(store: Store, d: DocumentMapping, n: nat)
    requires n <= |d.revisions|
  {
    forall i | 0 <= i < n :: RevisionEquivalent(store, d, d.revisions[i])
  }

  ghost predicate DocumentEquivalent(store: Store, d: DocumentMapping) {
    DocumentHeaderMatches(store, d) && RevisionsEquivalent(store, d, |d.revisions|)
  }

  /** The first `n` documents of the manifest are equivalent to their canonical documents. */
  ghost predicate GraphEquivalent(store: Store, manifest: Manifest, n: nat)
    requires n <= |manifest|
  {
    forall i | 0 <= i < n :: DocumentEquivalent(store, manifest[i])
  }

  // ---------------------------------------------------------------- what a mapping claims

  ghost predicate PairedPages(store: Store, r: RevisionMapping, a: Row, b: Row) {
    exists n | n in PagesOf(store, r.legacy) && n in PagesOf(store, r.canonical) ::
      a == PagesOf(store, r.legacy)[n] && b == PagesOf(store, r.canonical)[n]
  }

  /** The mapping joins rows of equal payload under a pair of parents. */
  ghost predicate PairedItems(store: Store, legacy: Id, canonical: Id, m: EntityMapping) {
    exists a, b :: a in Children(Get(store, m.table), legacy) && b in Children(Get(store, m.table), canonical)
      && a.id == m.legacy && b.id == m.canonical && a.payload == b.payload
  }

  ghost predicate PairedPage(store: Store, r: RevisionMapping, m: EntityMapping) {
    exists a, b :: PairedPages(store, r, a, b) && m == EntityMapping(Pages, a.id, b.id)
  }

  ghost predicate PairedOnPage(store: Store, r: RevisionMapping, m: EntityMapping) {
    exists a, b :: PairedPages(store, r, a, b) && PairedItems(store, a.id, b.id, m)
  }

  /** A mapping found while a pair of revisions is compared. */
  ghost predicate PairedIn(store: Store, r: RevisionMapping, m: EntityMapping) {
    match m.table
    case Revisions => m.legacy == r.legacy && m.canonical == r.canonical
    case Pages => PairedPage(store, r, m)
    case Clauses => PairedItems(store, r.legacy, r.canonical, m)
    case Elements => PairedOnPage(store, r, m)
    case Tables => PairedOnPage(store, r, m)
    case Visuals => PairedOnPage(store, r, m)
    case _ => false
  }

  ghost predicate Paired(store: Store, d: DocumentMapping, m: EntityMapping) {
    m == EntityMapping(Documents, d.legacy, d.canonical)
    || exists r | r in d.revisions :: PairedIn(store, r, m)
  }

  ghost predicate GraphPaired(store: Store, manifest: Manifest, m: EntityMapping) {
    exists d | d in manifest :: Paired(store, d, m)
  }

  ghost predicate ItemsMapped(store: Store, table: Table, legacy: Id, mappings: seq<EntityMapping>) {
    forall row | row in Children(Get(store, table), legacy) ::
      exists m | m in mappings :: m.table == table && m.legacy == row.id
  }

  ghost predicate PageMapped(store: Store, legacy: Row, mappings: seq<EntityMapping>) {
    && (exists m | m in mappings :: m.table == Pages && m.legacy == legacy.id)
    && ItemsMapped(store, Elements, legacy.id, mappings)
    && ItemsMapped(store, Tables, legacy.id, mappings)
    && ItemsMapped(store, Visuals, legacy.id, mappings)
  }

  ghost predicate PagesMapped(store: Store, r: RevisionMapping, numbers: set<nat>, mappings: seq<EntityMapping>)
    requires numbers <= PagesOf(store, r.legacy).Keys
  {
    forall n | n in numbers :: PageMapped(store, PagesOf(store, r.legacy)[n], mappings)
  }

  ghost predicate ContentsMapped(store: Store, r: RevisionMapping, mappings: seq<EntityMapping>) {
    && PagesMapped(store, r, PagesOf(store, r.legacy).Keys, mappings)
    && ItemsMapped(store, Clauses, r.legacy, mappings)
  }

  /** The legacy revision and everything under it is mapped. */
  ghost predicate RevisionMapped(store: Store, r: RevisionMapping, mappings: seq<EntityMapping>) {
    EntityMapping(Revisions, r.legacy, r.canonical) in mappings && ContentsMapped(store, r, mappings)
  }

  ghost predicate RevisionsMapped(store: Store, d: DocumentMapping, n: nat, mappings: seq<EntityMapping>)
    requires n <= |d.revisions|
  {
    forall i | 0 <= i < n :: RevisionMapped(store, d.revisions[i], mappings)
  }

  ghost predicate DocumentMapped(store: Store, d: DocumentMapping, mappings: seq<EntityMapping>) {
    EntityMapping(Documents, d.legacy, d.canonical) in mappings && RevisionsMapped(store, d, |d.revisions|, mappings)
  }

  ghost predicate GraphMapped(store: Store, manifest: Manifest, n: nat, mappings: seq<EntityMapping>)
    requires n <= |manifest|
  {
    forall i | 0 <= i < n :: DocumentMapped(store, manifest[i], mappings)
  }

  /** The identifier map holds the mappings. */
  ghost predicate Tracks(idMap: map<Id, Id>, mappings: seq<EntityMapping>) {
    && (forall m | m in mappings :: m.legacy in idMap)
    && (forall id | id in idMap :: exists m | m in mappings :: m.legacy == id && m.canonical == idMap[id])
  }

  function MapIds(mappings: seq<EntityMapping>): map<Id, Id> {
    if mappings == [] then map[]
    else MapIds(mappings[..|mappings| - 1])[mappings[|mappings| - 1].legacy := mappings[|mappings| - 1].canonical]
  }

  lemma {:induction false} MapIdsTracks(mappings: seq<EntityMapping>)
    ensures Tracks(MapIds(mappings), mappings)
  {
    if mappings != [] {
      var most, last := mappings[..|mappings| - 1], mappings[|mappings| - 1];
      MapIdsTracks(most);
      assert forall m :: m in mappings <==> m in most || m == last;
    }
  }

  lemma TracksTogether(a: map<Id, Id>, ms: seq<EntityMapping>, b: map<Id, Id>, ns: seq<EntityMapping>)
    requires Tracks(a, ms) && Tracks(b, ns)
    ensures Tracks(a + b, ms + ns)
  {
    forall id | id in a + b
      ensures exists m | m in ms + ns :: m.legacy == id && m.canonical == (a + b)[id]
    {
      if id in b {
        var m :| m in ns && m.legacy == id && m.canonical == b[id];
        assert m in ms + ns;
      } else {
        var m :| m in ms && m.legacy == id && m.canonical == a[id];
        assert m in ms + ns;
      }
    }
  }

  // ---------------------------------------------------------------- clauses

  predicate SameBase(a: Row, b: Row) {
    a.payload.ClauseData? && b.payload.ClauseData? && a.payload.base == b.payload.base
  }

  function BaseCarriers(rows: seq<Row>, clause: Row): seq<Row> {
    if rows == [] then []
    else (if SameBase(rows[0], clause) then [rows[0]] else []) + BaseCarriers(rows[1..], clause)
  }

  /** The clause has one canonical counterpart by title and text, with another reviewed value. */
  predicate ReviewConflict(clause: Row, canonical: seq<Row>) {
    var carriers := BaseCarriers(canonical, clause);
    |carriers| == 1 && clause.payload != carriers[0].payload
  }

  predicate Reported(unresolved: seq<Unresolved>, legacy: Id) {
    exists u | u in unresolved :: u.legacy == legacy
  }

  /** The reviewed-value conflicts among the first `n` legacy clauses left unresolved. */
  function ConflictsUpTo(legacy: seq<Row>, canonical: seq<Row>, mapped: set<Id>, unmapped: set<Id>, n: nat): seq<Unresolved>
    requires n <= |legacy|
  {
    if n == 0 then []
    else
      var row := legacy[n - 1];
      ConflictsUpTo(legacy, canonical, mapped, unmapped, n - 1)
      + if row.id !in mapped && row.id in unmapped && ReviewConflict(row, canonical)
        then [Unresolved(ReviewedValueConflict, row.id, BaseCarriers(canonical, row)[0].id)] else []
  }

  /** Clause matching: payload matching, with conflicts in place of the plain reasons. */
  function ClausesUnresolved(legacy: seq<Row>, canonical: seq<Row>): seq<Unresolved> {
    var mappings, plain := MappedUpTo(Clauses, legacy, canonical, |legacy|), UnresolvedUpTo(legacy, canonical, |legacy|);
    var conflicts := ConflictsUpTo(legacy, canonical, set m | m in mappings :: m.legacy, set u | u in plain :: u.legacy, |legacy|);
    NotReported(plain, conflicts) + conflicts
  }

  method MatchClauses(legacyRows: seq<Row>, canonicalRows: seq<Row>)
      returns (mappings: seq<EntityMapping>, unresolved: seq<Unresolved>)
    requires UniqueIds(canonicalRows)
    ensures mappings == MappedUpTo(Clauses, legacyRows, canonicalRows, |legacyRows|)
    ensures unresolved == ClausesUnresolved(legacyRows, canonicalRows)
  {
    hide UniqueIds, BaseCarriers, MappedUpTo, UnresolvedUpTo;
    mappings, unresolved := MatchPayloadRows(Clauses, legacyRows, canonicalRows);
    var mappedLegacy := set m | m in mappings :: m.legacy;
    var unresolvedLegacy := set u | u in unresolved :: u.legacy;
    var replacement: seq<Unresolved> := [];
    for n := 0 to |legacyRows|
      invariant replacement == ConflictsUpTo(legacyRows, canonicalRows, mappedLegacy, unresolvedLegacy, n)
    {
      var legacy := legacyRows[n];
      if legacy.id in mappedLegacy || legacy.id !in unresolvedLegacy { continue; }
      var candidates := BaseCarriers(canonicalRows, legacy);
      if |candidates| == 1 && legacy.payload != candidates[0].payload {
        replacement := replacement + [Unresolved(ReviewedValueConflict, legacy.id, candidates[0].id)];
      }
    }
    unresolved := NotReported(unresolved, replacement) + replacement;
  }

  lemma {:induction false} ConflictsWereUnresolved(
      legacy: seq<Row>, canonical: seq<Row>, mapped: set<Id>, unmapped: set<Id>, n: nat)
    requires n <= |legacy|
    ensures forall u | u in ConflictsUpTo(legacy, canonical, mapped, unmapped, n) :: u.legacy in unmapped && u.legacy !in mapped
  {
    hide ReviewConflict;
    if n > 0 { ConflictsWereUnresolved(legacy, canonical, mapped, unmapped, n - 1); }
  }

  /** Replacing reasons neither loses nor invents an unresolved clause. */
  lemma {:induction false} ConflictsKeepReports(legacy: seq<Row>, canonical: seq<Row>, id: Id)
    ensures Reported(UnresolvedUpTo(legacy, canonical, |legacy|), id) <==> Reported(ClausesUnresolved(legacy, canonical), id)
  {
    var mappings, plain := MappedUpTo(Clauses, legacy, canonical, |legacy|), UnresolvedUpTo(legacy, canonical, |legacy|);
    var mapped, unmapped := set m | m in mappings :: m.legacy, set u | u in plain :: u.legacy;
    var conflicts := ConflictsUpTo(legacy, canonical, mapped, unmapped, |legacy|);
    ConflictsWereUnresolved(legacy, canonical, mapped, unmapped, |legacy|);
    var kept := NotReported(plain, conflicts);
    if Reported(plain, id) {
      var u :| u in plain && u.legacy == id;
      if Reported(conflicts, id) {
        var w :| w in conflicts && w.legacy == id;
        assert w in kept + conflicts;
      } else {
        assert u in kept + conflicts;
      }
    }
  }

  /** Clause matching resolves everything exactly when payload matching does. */
  lemma ClausesExact(legacy: seq<Row>, canonical: seq<Row>)
    ensures ClausesUnresolved(legacy, canonical) == [] <==> ExactlyOnce(legacy, canonical)
  {
    GreedyIsExact(legacy, canonical);
    var plain, final := UnresolvedUpTo(legacy, canonical, |legacy|), ClausesUnresolved(legacy, canonical);
    if plain != [] {
      assert plain[0] in plain;
      ConflictsKeepReports(legacy, canonical, plain[0].legacy);
    }
    if final != [] {
      assert final[0] in final;
      ConflictsKeepReports(legacy, canonical, final[0].legacy);
    }
  }

  function NotReported(items: seq<Unresolved>, replacement: seq<Unresolved>): (kept: seq<Unresolved>)
    ensures forall u :: u in kept <==> u in items && !Reported(replacement, u.legacy)
  {
    if items == [] then []
    else
      var rest := NotReported(items[1..], replacement);
      assert forall u :: u in items <==> u == items[0] || u in items[1..];
      if Reported(replacement, items[0].legacy) then rest else [items[0]] + rest
  }
}

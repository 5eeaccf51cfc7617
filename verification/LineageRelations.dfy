/** Relations: links, review flags and retrieval records follow the identifier map. */
module LineageRelations {
  import opened LineageStore
  import opened LineageMatching

  // ---------------------------------------------------------------- relations between rows

  /** The rows of a relation table that the migration must account for. */
  predicate Selected(table: Table, row: Row, idMap: map<Id, Id>, legacyDocuments: set<Id>) {
    match table
    case Links => exists id | id in row.refs :: id in idMap
    case ReviewFlags => |row.refs| > 0 && row.refs[0] in idMap
    case _ => |row.refs| > 0 && row.refs[0] in legacyDocuments
  }

  function MapId(idMap: map<Id, Id>, id: Id): Id { if id in idMap then idMap[id] else id }

  function Translate(refs: seq<Id>, idMap: map<Id, Id>): seq<Id> {
    seq(|refs|, i requires 0 <= i < |refs| => MapId(idMap, refs[i]))
  }

  function Counterparts(rows: seq<Row>, refs: seq<Id>, payload: Payload): (found: seq<Row>)
    ensures forall row :: row in found <==> row in rows && row.refs == refs && row.payload == payload
  {
    if rows == [] then []
    else
      var rest := Counterparts(rows[1..], refs, payload);
      assert forall row :: row in rows <==> row == rows[0] || row in rows[1..];
      if rows[0].refs == refs && rows[0].payload == payload then [rows[0]] + rest else rest
  }

  predicate OneCounterpart(rows: seq<Row>, row: Row, idMap: map<Id, Id>) {
    |Counterparts(rows, Translate(row.refs, idMap), row.payload)| == 1
  }

  /** Every selected row has exactly one counterpart. */
  ghost predicate RelationExact(table: Table, rows: seq<Row>, idMap: map<Id, Id>, legacyDocuments: set<Id>) {
    forall row | row in rows && Selected(table, row, idMap, legacyDocuments) :: OneCounterpart(rows, row, idMap)
  }

  /** A relation mapping joins a selected row and its only counterpart. */
  ghost predicate RelationJoins(table: Table, rows: seq<Row>, idMap: map<Id, Id>, legacyDocuments: set<Id>, m: EntityMapping) {
    && m.table == table
    && exists a, b :: a in rows && b in rows && a.id == m.legacy && b.id == m.canonical
         && Selected(table, a, idMap, legacyDocuments) && OneCounterpart(rows, a, idMap)
         && b.refs == Translate(a.refs, idMap) && b.payload == a.payload
  }

  ghost predicate RelationMapped(table: Table, rows: seq<Row>, idMap: map<Id, Id>, legacyDocuments: set<Id>,
                                 mappings: seq<EntityMapping>) {
    forall row | row in rows && Selected(table, row, idMap, legacyDocuments) ::
      exists m | m in mappings :: m.table == table && m.legacy == row.id
  }

  function RelationMappingsUpTo(table: Table, rows: seq<Row>, idMap: map<Id, Id>, legacyDocuments: set<Id>, n: nat)
      : seq<EntityMapping>
    requires n <= |rows|
  {
    if n == 0 then []
    else
      var row := rows[n - 1];
      RelationMappingsUpTo(table, rows, idMap, legacyDocuments, n - 1)
      + if Selected(table, row, idMap, legacyDocuments) && OneCounterpart(rows, row, idMap)
        then [EntityMapping(table, row.id, Counterparts(rows, Translate(row.refs, idMap), row.payload)[0].id)] else []
  }

  function RelationUnresolvedUpTo(table: Table, rows: seq<Row>, idMap: map<Id, Id>, legacyDocuments: set<Id>, n: nat)
      : seq<Unresolved>
    requires n <= |rows|
  {
    if n == 0 then []
    else
      var row := rows[n - 1];
      RelationUnresolvedUpTo(table, rows, idMap, legacyDocuments, n - 1)
      + if Selected(table, row, idMap, legacyDocuments) && !OneCounterpart(rows, row, idMap)
        then [Unresolved(RelationCounterpartMissing(table), row.id, "")] else []
  }

  /** Links, review flags and retrieval records are matched alike, each with its own choice of
      rows to account for. */
  method MatchRelation(table: Table, rows: seq<Row>, idMap: map<Id, Id>, legacyDocuments: set<Id>)
      returns (mappings: seq<EntityMapping>, unresolved: seq<Unresolved>)
    ensures mappings == RelationMappingsUpTo(table, rows, idMap, legacyDocuments, |rows|)
    ensures unresolved == RelationUnresolvedUpTo(table, rows, idMap, legacyDocuments, |rows|)
  {
    hide Selected, Translate;
    mappings, unresolved := [], [];
    for n := 0 to |rows|
      invariant mappings == RelationMappingsUpTo(table, rows, idMap, legacyDocuments, n)
      invariant unresolved == RelationUnresolvedUpTo(table, rows, idMap, legacyDocuments, n)
    {
      var row := rows[n];
      if !Selected(table, row, idMap, legacyDocuments) { continue; }
      var candidates := Counterparts(rows, Translate(row.refs, idMap), row.payload);
      if |candidates| != 1 {
        unresolved := unresolved + [Unresolved(RelationCounterpartMissing(table), row.id, "")];
        continue;
      }
      mappings := mappings + [EntityMapping(table, row.id, candidates[0].id)];
    }
  }

  lemma {:induction false} RelationUnresolvedEmpty(
      table: Table, rows: seq<Row>, idMap: map<Id, Id>, legacyDocuments: set<Id>, n: nat)
    requires n <= |rows|
    ensures RelationUnresolvedUpTo(table, rows, idMap, legacyDocuments, n) == [] <==>
            forall i | 0 <= i < n && Selected(table, rows[i], idMap, legacyDocuments) :: OneCounterpart(rows, rows[i], idMap)
  {
    hide Selected, OneCounterpart;
    if n > 0 { RelationUnresolvedEmpty(table, rows, idMap, legacyDocuments, n - 1); }
  }

  lemma {:induction false} RelationMappingsMember(
      table: Table, rows: seq<Row>, idMap: map<Id, Id>, legacyDocuments: set<Id>, n: nat, i: nat)
    requires i < n <= |rows|
    requires Selected(table, rows[i], idMap, legacyDocuments) && OneCounterpart(rows, rows[i], idMap)
    ensures exists m | m in RelationMappingsUpTo(table, rows, idMap, legacyDocuments, n) ::
              m.table == table && m.legacy == rows[i].id
  {
    if i < n - 1 {
      RelationMappingsMember(table, rows, idMap, legacyDocuments, n - 1, i);
      var m :| m in RelationMappingsUpTo(table, rows, idMap, legacyDocuments, n - 1) && m.table == table && m.legacy == rows[i].id;
      assert m in RelationMappingsUpTo(table, rows, idMap, legacyDocuments, n);
    } else {
      var all := RelationMappingsUpTo(table, rows, idMap, legacyDocuments, n);
      assert all[|all| - 1] in all && all[|all| - 1].legacy == rows[i].id;
    }
  }

  lemma {:induction false} RelationMappingsJoin(
      table: Table, rows: seq<Row>, idMap: map<Id, Id>, legacyDocuments: set<Id>, n: nat, m: EntityMapping)
    requires n <= |rows| && m in RelationMappingsUpTo(table, rows, idMap, legacyDocuments, n)
    ensures RelationJoins(table, rows, idMap, legacyDocuments, m)
  {
    hide Selected, Translate;
    if m in RelationMappingsUpTo(table, rows, idMap, legacyDocuments, n - 1) {
      RelationMappingsJoin(table, rows, idMap, legacyDocuments, n - 1, m);
    } else {
      var a := rows[n - 1];
      var found := Counterparts(rows, Translate(a.refs, idMap), a.payload);
      assert a in rows && found[0] in found;
    }
  }

  /** Relation matching is exact, and then total. */
  lemma {:induction false} RelationMatching(table: Table, rows: seq<Row>, idMap: map<Id, Id>, legacyDocuments: set<Id>)
    ensures var mappings := RelationMappingsUpTo(table, rows, idMap, legacyDocuments, |rows|);
            && (RelationUnresolvedUpTo(table, rows, idMap, legacyDocuments, |rows|) == [] <==>
                  RelationExact(table, rows, idMap, legacyDocuments))
            && (RelationExact(table, rows, idMap, legacyDocuments) ==>
                  RelationMapped(table, rows, idMap, legacyDocuments, mappings))
            && (forall m | m in mappings :: RelationJoins(table, rows, idMap, legacyDocuments, m))
  {
    var mappings := RelationMappingsUpTo(table, rows, idMap, legacyDocuments, |rows|);
    RelationUnresolvedEmpty(table, rows, idMap, legacyDocuments, |rows|);
    hide Selected, OneCounterpart, RelationMappingsUpTo, RelationJoins, RelationUnresolvedUpTo;
    forall m | m in mappings
      ensures RelationJoins(table, rows, idMap, legacyDocuments, m)
    {
      RelationMappingsJoin(table, rows, idMap, legacyDocuments, |rows|, m);
    }
    if RelationExact(table, rows, idMap, legacyDocuments) {
      forall row | row in rows && Selected(table, row, idMap, legacyDocuments)
        ensures exists m | m in mappings :: m.table == table && m.legacy == row.id
      {
        var i :| 0 <= i < |rows| && rows[i] == row;
        RelationMappingsMember(table, rows, idMap, legacyDocuments, |rows|, i);
      }
    }
  }

  // ---------------------------------------------------------------- the three relation tables

  const RELATION_TABLES: set<Table> := {Links, ReviewFlags, RetrievalRecords}

  ghost predicate RelationsExact(store: Store, idMap: map<Id, Id>, legacyDocuments: set<Id>) {
    forall table | table in RELATION_TABLES :: RelationExact(table, Get(store, table), idMap, legacyDocuments)
  }

  ghost predicate RelationsMapped(store: Store, idMap: map<Id, Id>, legacyDocuments: set<Id>, relations: seq<EntityMapping>) {
    forall table | table in RELATION_TABLES :: RelationMapped(table, Get(store, table), idMap, legacyDocuments, relations)
  }

  ghost predicate AllJoin(store: Store, idMap: map<Id, Id>, legacyDocuments: set<Id>, relations: seq<EntityMapping>) {
    forall m | m in relations ::
      m.table in RELATION_TABLES && RelationJoins(m.table, Get(store, m.table), idMap, legacyDocuments, m)
  }

  function TableMappings(store: Store, table: Table, idMap: map<Id, Id>, legacyDocuments: set<Id>): seq<EntityMapping> {
    RelationMappingsUpTo(table, Get(store, table), idMap, legacyDocuments, |Get(store, table)|)
  }

  function TableUnresolved(store: Store, table: Table, idMap: map<Id, Id>, legacyDocuments: set<Id>): seq<Unresolved> {
    RelationUnresolvedUpTo(table, Get(store, table), idMap, legacyDocuments, |Get(store, table)|)
  }

  function AllMappings(store: Store, idMap: map<Id, Id>, legacyDocuments: set<Id>): seq<EntityMapping> {
    TableMappings(store, Links, idMap, legacyDocuments) + TableMappings(store, ReviewFlags, idMap, legacyDocuments)
    + TableMappings(store, RetrievalRecords, idMap, legacyDocuments)
  }

  function AllUnresolved(store: Store, idMap: map<Id, Id>, legacyDocuments: set<Id>): seq<Unresolved> {
    TableUnresolved(store, Links, idMap, legacyDocuments) + TableUnresolved(store, ReviewFlags, idMap, legacyDocuments)
    + TableUnresolved(store, RetrievalRecords, idMap, legacyDocuments)
  }

  method MatchRelations(store: Store, idMap: map<Id, Id>, legacyDocuments: set<Id>)
      returns (mappings: seq<EntityMapping>, unresolved: seq<Unresolved>)
    ensures mappings == AllMappings(store, idMap, legacyDocuments)
    ensures unresolved == AllUnresolved(store, idMap, legacyDocuments)
  {
    hide RelationMappingsUpTo, RelationUnresolvedUpTo;
    var links, openLinks := MatchRelation(Links, Get(store, Links), idMap, legacyDocuments);
    var flags, openFlags := MatchRelation(ReviewFlags, Get(store, ReviewFlags), idMap, legacyDocuments);
    var records, openRecords := MatchRelation(RetrievalRecords, Get(store, RetrievalRecords), idMap, legacyDocuments);
    mappings := links + flags + records;
    unresolved := openLinks + openFlags + openRecords;
  }

  lemma TableMatching(store: Store, table: Table, idMap: map<Id, Id>, legacyDocuments: set<Id>)
    requires table in RELATION_TABLES
    ensures TableUnresolved(store, table, idMap, legacyDocuments) == [] <==> RelationExact(table, Get(store, table), idMap, legacyDocuments)
    ensures RelationExact(table, Get(store, table), idMap, legacyDocuments) ==>
              RelationMapped(table, Get(store, table), idMap, legacyDocuments, AllMappings(store, idMap, legacyDocuments))
    ensures AllJoin(store, idMap, legacyDocuments, TableMappings(store, table, idMap, legacyDocuments))
  {
    hide RelationMappingsUpTo, RelationUnresolvedUpTo, Selected, RelationExact, RelationMapped, RelationJoins;
    var some, all := TableMappings(store, table, idMap, legacyDocuments), AllMappings(store, idMap, legacyDocuments);
    RelationMatching(table, Get(store, table), idMap, legacyDocuments);
    TableIsPart(store, table, idMap, legacyDocuments);
    if RelationExact(table, Get(store, table), idMap, legacyDocuments) {
      RelationMappedGrows(table, Get(store, table), idMap, legacyDocuments, some, all);
    }
    TableJoins(table, Get(store, table), idMap, legacyDocuments, some);
  }

  lemma TableIsPart(store: Store, table: Table, idMap: map<Id, Id>, legacyDocuments: set<Id>)
    requires table in RELATION_TABLES
    ensures forall m | m in TableMappings(store, table, idMap, legacyDocuments) :: m in AllMappings(store, idMap, legacyDocuments)
  {
    hide TableMappings;
  }

  lemma RelationMappedGrows(table: Table, rows: seq<Row>, idMap: map<Id, Id>, legacyDocuments: set<Id>,
                            some: seq<EntityMapping>, more: seq<EntityMapping>)
    requires RelationMapped(table, rows, idMap, legacyDocuments, some) && forall m | m in some :: m in more
    ensures RelationMapped(table, rows, idMap, legacyDocuments, more)
  {
    hide Selected;
  }

  lemma TableJoins(table: Table, rows: seq<Row>, idMap: map<Id, Id>, legacyDocuments: set<Id>, some: seq<EntityMapping>)
    requires table in RELATION_TABLES && forall m | m in some :: RelationJoins(table, rows, idMap, legacyDocuments, m)
    ensures forall m | m in some :: m.table == table
  {
  }

  /** The three tables together: nothing unresolved exactly when each is exact. */
  lemma RelationsPlanned(store: Store, idMap: map<Id, Id>, legacyDocuments: set<Id>)
    ensures AllUnresolved(store, idMap, legacyDocuments) == [] <==> RelationsExact(store, idMap, legacyDocuments)
    ensures RelationsExact(store, idMap, legacyDocuments) ==>
              RelationsMapped(store, idMap, legacyDocuments, AllMappings(store, idMap, legacyDocuments))
    ensures AllJoin(store, idMap, legacyDocuments, AllMappings(store, idMap, legacyDocuments))
  {
    hide RelationExact, RelationMapped, RelationJoins, TableMappings, TableUnresolved;
    TableMatching(store, Links, idMap, legacyDocuments);
    TableMatching(store, ReviewFlags, idMap, legacyDocuments);
    TableMatching(store, RetrievalRecords, idMap, legacyDocuments);
  }
}

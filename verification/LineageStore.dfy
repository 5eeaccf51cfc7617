/** The evidence database as tables of rows.

    Every table has the same row shape: an identifier, the identifiers it refers to, and the
    payload that matching compares.  A payload stands for the fingerprint of its JSON, which
    SHA-256 makes injective. */
module LineageStore {
  import opened Options

  type Id = string

  datatype Table =
    | Documents | Revisions | Pages | Elements | Clauses | Tables | Visuals
    | Links | ReviewFlags | RetrievalRecords

  datatype Payload =
    | Title(title: string)
    | RevisionData(sourceHash: string, byteSize: nat, pageCount: nat)
    | PageData(number: nat, width: string, height: string)
    | Content(fingerprint: string)
    | ClauseData(base: string, normalized: string, review: string)

  /** `refs` holds: the document of a revision, the revision of a page or clause, the page of
      an element, table or visual, the ends of a link, the subject of a review flag, and the
      document, revision and page of a retrieval record. */
  datatype Row = Row(id: Id, refs: seq<Id>, payload: Payload)

  type Store = map<Table, seq<Row>>

  function Get(store: Store, table: Table): seq<Row> {
    if table in store then store[table] else []
  }

  const GRAPH_TABLES: set<Table> := {Documents, Revisions, Pages, Elements, Clauses, Tables, Visuals}
  const ITEM_TABLES: seq<Table> := [Elements, Tables, Visuals]

  /** Rows of `rows` whose first reference is `parent`. */
  function Children(rows: seq<Row>, parent: Id): (children: seq<Row>)
    ensures forall row :: row in children <==> row in rows && |row.refs| > 0 && row.refs[0] == parent
    ensures UniqueIds(rows) ==> UniqueIds(children)
  {
    if rows == [] then []
    else
      var rest := Children(rows[1..], parent);
      assert forall row :: row in rows <==> row == rows[0] || row in rows[1..];
      if |rows[0].refs| > 0 && rows[0].refs[0] == parent then [rows[0]] + rest else rest
  }

  ghost predicate UniqueIds(rows: seq<Row>) {
    forall i, j | 0 <= i < j < |rows| :: rows[i].id != rows[j].id
  }

  function Find(rows: seq<Row>, id: Id): (found: Option<Row>)
    ensures found.Some? ==> found.value in rows && found.value.id == id
    ensures found.None? ==> forall row | row in rows :: row.id != id
  {
    if rows == [] then None else if rows[0].id == id then Some(rows[0]) else Find(rows[1..], id)
  }

  /** The rows that survive the deletion of `ids`. */
  function Without(rows: seq<Row>, ids: set<Id>): (kept: seq<Row>)
    ensures forall row :: row in kept <==> row in rows && row.id !in ids
    ensures |kept| <= |rows|
    ensures UniqueIds(rows) ==> UniqueIds(kept)
  {
    if rows == [] then []
    else
      var rest := Without(rows[1..], ids);
      assert forall row :: row in rows <==> row == rows[0] || row in rows[1..];
      if rows[0].id in ids then rest else [rows[0]] + rest
  }

  lemma {:induction false} WithoutTwice(rows: seq<Row>, first: set<Id>, second: set<Id>)
    ensures Without(Without(rows, first), second) == Without(rows, first + second)
  {
    if rows != [] {
      WithoutTwice(rows[1..], first, second);
      var kept := Without(rows, first);
      if rows[0].id !in first {
        assert kept[0] == rows[0] && kept[1..] == Without(rows[1..], first);
      }
    }
  }

  /** Deleting one present identifier from a keyed table removes exactly one row. */
  lemma {:induction false} WithoutOne(rows: seq<Row>, id: Id)
    requires UniqueIds(rows)
    ensures |Without(rows, {id})| == |rows| - (if Find(rows, id).Some? then 1 else 0)
  {
    if rows != [] {
      WithoutOne(rows[1..], id);
      if rows[0].id == id {
        WithoutAbsent(rows[1..], id);
      }
    }
  }

  lemma {:induction false} WithoutAbsent(rows: seq<Row>, id: Id)
    requires forall row | row in rows :: row.id != id
    ensures Without(rows, {id}) == rows
  {
    if rows != [] {
      WithoutAbsent(rows[1..], id);
    }
  }

  /** A keyed table has one row per identifier. */
  lemma SameRow(rows: seq<Row>, a: Row, b: Row)
    requires UniqueIds(rows) && a in rows && b in rows && a.id == b.id
    ensures a == b
  {
    var i :| 0 <= i < |rows| && rows[i] == a;
    var j :| 0 <= j < |rows| && rows[j] == b;
    assert i == j;
  }
}

/** Applying a plan: the legacy rows are deleted from a copy, table by table, and the copy is
    checked before it may be published. */
module LineageMigration {
  import opened Options
  import opened LineageStore
  import opened LineageMatching

  /** Children before parents. */
  const DELETE_ORDER: seq<Table> :=
    [RetrievalRecords, Links, ReviewFlags, Elements, Tables, Visuals, Clauses, Pages, Revisions, Documents]

  /** The tables whose first reference is a foreign key into `table`. */
  function ChildTables(table: Table): set<Table> {
    match table
    case Documents => {Revisions}
    case Revisions => {Pages, Clauses}
    case Pages => {Elements, Tables, Visuals}
    case _ => {}
  }

  function Removed(mappings: set<EntityMapping>, table: Table): set<Id> {
    set m | m in mappings && m.table == table :: m.legacy
  }

  function Restrict(mappings: set<EntityMapping>, table: Table): set<EntityMapping> {
    set m | m in mappings && m.table == table
  }

  predicate Referenced(store: Store, table: Table, id: Id) {
    exists child | child in ChildTables(table) :: exists row | row in Get(store, child) :: |row.refs| > 0 && row.refs[0] == id
  }

  predicate Present(rows: seq<Row>, id: Id) { Find(rows, id).Some? }

  // ---------------------------------------------------------------- what deletion needs and leaves

  /** No two mappings of a table share their legacy row. */
  ghost predicate OneMappingEach(mappings: set<EntityMapping>) {
    forall m, w | m in mappings && w in mappings && m.table == w.table && m.legacy == w.legacy :: m == w
  }

  /** The rows of every table that the plan does not remove. */
  function Survivors(store: Store, mappings: set<EntityMapping>): Store {
    map table | table in store :: Without(store[table], Removed(mappings, table))
  }

  /** Every mapped row is there once, and whatever refers to it goes with it. */
  ghost predicate Deletable(store: Store, mappings: set<EntityMapping>) {
    && OneMappingEach(mappings)
    && (forall m | m in mappings :: Present(Get(store, m.table), m.legacy))
    && (forall m | m in mappings :: !Referenced(Survivors(store, mappings), m.table, m.legacy))
  }

  ghost predicate VerifiedState(store: Store, mappings: set<EntityMapping>) {
    forall m | m in mappings :: !Present(Get(store, m.table), m.legacy) && Present(Get(store, m.table), m.canonical)
  }

  // ---------------------------------------------------------------- one row at a time

  lemma PresentMeans(rows: seq<Row>, id: Id)
    ensures Present(rows, id) <==> exists row | row in rows :: row.id == id
  {
  }

  lemma SurvivingRows(store: Store, mappings: set<EntityMapping>, table: Table)
    ensures Get(Survivors(store, mappings), table) == Without(Get(store, table), Removed(mappings, table))
  {
  }

  lemma SurvivingRow(store: Store, mappings: set<EntityMapping>, table: Table, row: Row)
    ensures row in Get(Survivors(store, mappings), table) <==> row in Get(store, table) && row.id !in Removed(mappings, table)
  {
    SurvivingRows(store, mappings, table);
  }

  lemma PresentAmongSurvivors(store: Store, mappings: set<EntityMapping>, table: Table, id: Id)
    ensures Present(Get(Survivors(store, mappings), table), id) <==> Present(Get(store, table), id) && id !in Removed(mappings, table)
  {
    SurvivingRows(store, mappings, table);
    hide Survivors, Removed;
    PresentMeans(Get(Survivors(store, mappings), table), id);
    PresentMeans(Get(store, table), id);
  }

  lemma RemovedOneMore(done: set<EntityMapping>, m: EntityMapping, table: Table)
    ensures Removed(done + {m}, table) == Removed(done, table) + if m.table == table then {m.legacy} else {}
  {
  }

  lemma SurvivorsOneMore(store: Store, done: set<EntityMapping>, m: EntityMapping)
    requires m.table in store
    ensures Survivors(store, done)[m.table := Without(Get(Survivors(store, done), m.table), {m.legacy})] == Survivors(store, done + {m})
  {
    hide Removed, Without;
    forall table | table in store
      ensures Removed(done + {m}, table) == Removed(done, table) + if m.table == table then {m.legacy} else {}
    {
      RemovedOneMore(done, m, table);
    }
    WithoutTwice(store[m.table], Removed(done, m.table), {m.legacy});
    var left, right := Survivors(store, done)[m.table := Without(Get(Survivors(store, done), m.table), {m.legacy})], Survivors(store, done + {m});
    forall table | table in store
      ensures left[table] == right[table]
    {
      if table != m.table {
        assert Removed(done, table) + {} == Removed(done, table);
      }
    }
  }

  lemma FewerReferenced(store: Store, some: set<EntityMapping>, more: set<EntityMapping>, table: Table, id: Id)
    requires some <= more && Referenced(Survivors(store, more), table, id)
    ensures Referenced(Survivors(store, some), table, id)
  {
    hide Survivors;
    var child :| child in ChildTables(table) && exists row | row in Get(Survivors(store, more), child) :: |row.refs| > 0 && row.refs[0] == id;
    var row :| row in Get(Survivors(store, more), child) && |row.refs| > 0 && row.refs[0] == id;
    SurvivingRow(store, more, child, row);
    SurvivingRow(store, some, child, row);
  }

  /** Deleting one more row keeps the deletion sound. */
  lemma DeletedOneMore(store: Store, done: set<EntityMapping>, m: EntityMapping)
    requires Deletable(store, done)
    requires Present(Get(Survivors(store, done), m.table), m.legacy) && !Referenced(Survivors(store, done), m.table, m.legacy)
    ensures Deletable(store, done + {m})
  {
    hide Referenced, Survivors, Present;
    PresentAmongSurvivors(store, done, m.table, m.legacy);
    assert OneMappingEach(done + {m});
    hide Removed;
    forall w | w in done + {m}
      ensures !Referenced(Survivors(store, done + {m}), w.table, w.legacy)
    {
      if Referenced(Survivors(store, done + {m}), w.table, w.legacy) {
        FewerReferenced(store, done, done + {m}, w.table, w.legacy);
      }
    }
  }

  /** A row that is no longer there was never there, or another mapping took it. */
  lemma AbsentRefused(store: Store, mappings: set<EntityMapping>, done: set<EntityMapping>, m: EntityMapping)
    requires done <= mappings && m in mappings && m !in done
    requires !Present(Get(Survivors(store, done), m.table), m.legacy)
    ensures !Deletable(store, mappings)
  {
    PresentAmongSurvivors(store, done, m.table, m.legacy);
    hide Survivors, Referenced, Present;
    if Present(Get(store, m.table), m.legacy) {
      var w :| w in done && w.table == m.table && w.legacy == m.legacy;
      assert w in mappings && w != m;
    }
  }

  /** A reference that blocks a deletion is not removed later, since child tables come first. */
  lemma ReferencedRefused(store: Store, mappings: set<EntityMapping>, done: set<EntityMapping>, m: EntityMapping)
    requires done <= mappings && m in mappings
    requires forall w | w in mappings && w.table in ChildTables(m.table) :: w in done
    requires Referenced(Survivors(store, done), m.table, m.legacy)
    ensures !Deletable(store, mappings)
  {
    hide Survivors, Present;
    var child :| child in ChildTables(m.table) && exists row | row in Get(Survivors(store, done), child) :: |row.refs| > 0 && row.refs[0] == m.legacy;
    var orphan :| orphan in Get(Survivors(store, done), child) && |orphan.refs| > 0 && orphan.refs[0] == m.legacy;
    SurvivingRow(store, done, child, orphan);
    assert Removed(done, child) == Removed(mappings, child);
    SurvivingRow(store, mappings, child, orphan);
  }

  // ---------------------------------------------------------------- the database copy

  class Database {
    var rows: Store

    constructor (rows: Store)
      ensures this.rows == rows
    {
      this.rows := rows;
    }

    /** DELETE of one identifier, with foreign keys enforced at once. */
    method DeleteOne(table: Table, id: Id) returns (ok: bool)
      modifies this
      ensures ok <==> Present(Get(old(rows), table), id) && !Referenced(old(rows), table, id)
      ensures rows == if ok then old(rows)[table := Without(Get(old(rows), table), {id})] else old(rows)
    {
      ok := Present(Get(rows, table), id) && !Referenced(rows, table, id);
      if ok {
        rows := rows[table := Without(Get(rows, table), {id})];
      }
    }

    /** One mapped row; `store`, `all` and `done` say how far the deletion has come. */
    method DeleteMapped(m: EntityMapping, ghost store: Store, ghost all: set<EntityMapping>, ghost done: set<EntityMapping>)
        returns (ok: bool)
      requires m in all && m !in done && Progress(store, all, done)
      requires forall w | w in all && w.table in ChildTables(m.table) :: w in done
      modifies this
      ensures ok ==> Progress(store, all, done + {m})
      ensures !ok ==> !Deletable(store, all)
    {
      hide Deletable, Survivors, Present, Referenced;
      if !Present(Get(rows, m.table), m.legacy) {
        AbsentRefused(store, all, done, m);
      } else if Referenced(rows, m.table, m.legacy) {
        ReferencedRefused(store, all, done, m);
      } else {
        PresentTable(store, done, m);
        SurvivorsOneMore(store, done, m);
        DeletedOneMore(store, done, m);
      }
      ok := DeleteOne(m.table, m.legacy);
    }

    /** Exactly the mappings in `done` have been deleted. */
    ghost predicate Progress(store: Store, all: set<EntityMapping>, done: set<EntityMapping>)
      reads this
    {
      done <= all && rows == Survivors(store, done) && Deletable(store, done)
    }

    method DeleteTable(table: Table, mappings: set<EntityMapping>, ghost store: Store, ghost all: set<EntityMapping>,
                       ghost done: set<EntityMapping>) returns (ok: bool, removed: nat)
      requires mappings == Restrict(all, table) && done !! mappings && Progress(store, all, done)
      requires forall w | w in all && w.table in ChildTables(table) :: w in done
      modifies this
      ensures ok ==> Progress(store, all, done + mappings) && removed == |mappings|
      ensures !ok ==> !Deletable(store, all)
    {
      hide Progress, Deletable, ChildTables, Survivors;
      ok, removed := true, 0;
      var todo := mappings;
      assert forall m | m in mappings :: m.table == table && m in all;
      assert done + (mappings - todo) == done;
      while todo != {}
        invariant ok && todo <= mappings && removed == |mappings| - |todo|
        invariant Progress(store, all, done + (mappings - todo))
      {
        var m :| m in todo;
        ok := DeleteMapped(m, store, all, done + (mappings - todo));
        if !ok { return; }
        assert done + (mappings - todo) + {m} == done + (mappings - (todo - {m}));
        todo := todo - {m};
        removed := removed + 1;
      }
      assert done + (mappings - todo) == done + mappings;
    }

    method DeleteLegacyGraph(mappings: set<EntityMapping>) returns (ok: bool, removed: map<Table, nat>)
      modifies this
      ensures ok <==> Deletable(old(rows), mappings)
      ensures ok ==> rows == Survivors(old(rows), mappings) && Counted(removed, mappings, |DELETE_ORDER|)
    {
      hide Deletable, Survivors, ChildTables;
      ok, removed := true, map[];
      NothingDeleted(rows);
      ghost var store := rows;
      assert MappedIn(mappings, 0) == {};
      assert Progress(store, mappings, MappedIn(mappings, 0));
      hide MappedIn, Restrict, Progress, Counted;
      CountedNone(removed, mappings);
      for k := 0 to |DELETE_ORDER|
        invariant ok && Progress(store, mappings, MappedIn(mappings, k)) && Counted(removed, mappings, k)
      {
        var table := DELETE_ORDER[k];
        ChildrenFirst(mappings, k);
        var count;
        ok, count := DeleteTable(table, Restrict(mappings, table), store, mappings, MappedIn(mappings, k));
        if !ok { return; }
        CountedOneMore(removed, count, mappings, k);
        removed := removed[table := count];
      }
      EveryTable(mappings);
      ProgressMeans(store, mappings, mappings);
    }

    lemma ProgressMeans(store: Store, all: set<EntityMapping>, done: set<EntityMapping>)
      requires Progress(store, all, done)
      ensures rows == Survivors(store, done) && Deletable(store, done)
    {
    }

    /** The whole step: on any failure the transaction is rolled back. */
    method Migrate(mappings: set<EntityMapping>) returns (ok: bool, removed: map<Table, nat>)
      modifies this
      ensures ok <==> Deletable(old(rows), mappings) && VerifiedState(Survivors(old(rows), mappings), mappings)
      ensures rows == if ok then Survivors(old(rows), mappings) else old(rows)
      ensures ok ==> Counted(removed, mappings, |DELETE_ORDER|)
    {
      hide Deletable, Survivors;
      var before := rows;
      ok, removed := DeleteLegacyGraph(mappings);
      if ok { ok := VerifyMappingState(mappings); }
      if !ok { rows := before; }
    }

    method VerifyMappingState(mappings: set<EntityMapping>) returns (ok: bool)
      ensures ok <==> VerifiedState(rows, mappings)
    {
      var todo := mappings;
      while todo != {}
        invariant todo <= mappings
        invariant forall m | m in mappings - todo :: !Present(Get(rows, m.table), m.legacy) && Present(Get(rows, m.table), m.canonical)
      {
        var m :| m in todo;
        if Present(Get(rows, m.table), m.legacy) || !Present(Get(rows, m.table), m.canonical) { return false; }
        todo := todo - {m};
      }
      return true;
    }
  }

  /** The counters of the first `k` tables in deletion order. */
  ghost predicate Counted(removed: map<Table, nat>, mappings: set<EntityMapping>, k: nat)
    requires k <= |DELETE_ORDER|
  {
    forall j | 0 <= j < k :: DELETE_ORDER[j] in removed && removed[DELETE_ORDER[j]] == |Restrict(mappings, DELETE_ORDER[j])|
  }

  lemma CountedNone(removed: map<Table, nat>, mappings: set<EntityMapping>)
    ensures Counted(removed, mappings, 0)
  {
  }

  lemma CountedOneMore(removed: map<Table, nat>, count: nat, mappings: set<EntityMapping>, k: nat)
    requires k < |DELETE_ORDER| && Counted(removed, mappings, k) && count == |Restrict(mappings, DELETE_ORDER[k])|
    ensures Counted(removed[DELETE_ORDER[k] := count], mappings, k + 1)
  {
    hide Restrict;
    forall j | 0 <= j < k
      ensures DELETE_ORDER[j] != DELETE_ORDER[k]
    {
    }
  }

  lemma PresentTable(store: Store, done: set<EntityMapping>, m: EntityMapping)
    requires Present(Get(Survivors(store, done), m.table), m.legacy)
    ensures m.table in store
  {
  }

  lemma NothingDeleted(store: Store)
    ensures Survivors(store, {}) == store && Deletable(store, {})
  {
    forall table | table in store
      ensures Without(store[table], Removed({}, table)) == store[table]
    {
      assert Removed({}, table) == {};
      WithoutNothing(store[table]);
    }
  }

  lemma {:induction false} WithoutNothing(rows: seq<Row>)
    ensures Without(rows, {}) == rows
  {
    if rows != [] { WithoutNothing(rows[1..]); }
  }

  /** The mappings of the first `k` tables in deletion order. */
  function MappedIn(mappings: set<EntityMapping>, k: nat): set<EntityMapping>
    requires k <= |DELETE_ORDER|
  {
    set m | m in mappings && Position(m.table) < k
  }

  function Position(table: Table): (position: nat)
    ensures position < |DELETE_ORDER| && DELETE_ORDER[position] == table
  {
    match table
    case RetrievalRecords => 0
    case Links => 1
    case ReviewFlags => 2
    case Elements => 3
    case Tables => 4
    case Visuals => 5
    case Clauses => 6
    case Pages => 7
    case Revisions => 8
    case Documents => 9
  }

  lemma ChildrenFirst(mappings: set<EntityMapping>, k: nat)
    requires k < |DELETE_ORDER|
    ensures Position(DELETE_ORDER[k]) == k
    ensures forall m | m in mappings && m.table in ChildTables(DELETE_ORDER[k]) :: m in MappedIn(mappings, k)
    ensures MappedIn(mappings, k) !! Restrict(mappings, DELETE_ORDER[k])
    ensures MappedIn(mappings, k) + Restrict(mappings, DELETE_ORDER[k]) == MappedIn(mappings, k + 1)
  {
    assert forall table: Table :: Position(table) == k ==> table == DELETE_ORDER[k];
    assert forall child | child in ChildTables(DELETE_ORDER[k]) :: Position(child) < k;
  }

  lemma EveryTable(mappings: set<EntityMapping>)
    ensures MappedIn(mappings, |DELETE_ORDER|) == mappings
  {
  }
}

/** What it means that the legacy graph equals the canonical graph, told of the rows alone. */
module LineageEquivalence {
  import opened Options
  import opened LineageStore
  import opened LineageMatching
  import opened LineageGraph
  import opened LineageOwnership

  /** A row of the table whose parent is `parent`. */
  predicate Under(store: Store, table: Table, parent: Id, row: Row) {
    row in Get(store, table) && |row.refs| > 0 && row.refs[0] == parent
  }

  /** Row `a` alone carries its payload under its parent. */
  ghost predicate Alone(store: Store, table: Table, parent: Id, a: Row) {
    Under(store, table, parent, a) && forall x: Row | Under(store, table, parent, x) && x.payload == a.payload :: x == a
  }

  /** Exactly one row under the parent carries the payload. */
  ghost predicate Matched(store: Store, table: Table, parent: Id, payload: Payload) {
    exists b: Row :: Alone(store, table, parent, b) && b.payload == payload
  }

  /** Every row under the legacy parent is alone with its payload there and has one counterpart under
      the canonical parent. */
  ghost predicate Counterparted(store: Store, table: Table, legacy: Id, canonical: Id) {
    forall a: Row | Under(store, table, legacy, a) :: Alone(store, table, legacy, a) && Matched(store, table, canonical, a.payload)
  }

  /** Pages of one number have one width and height, and the same items. */
  ghost predicate PagesAgree(store: Store, p: Row, q: Row) {
    && p.payload.PageData? && p.payload == q.payload
    && Counterparted(store, Elements, p.id, q.id) && Counterparted(store, Tables, p.id, q.id) && Counterparted(store, Visuals, p.id, q.id)
  }

  ghost predicate HasPage(store: Store, revision: Id, n: nat) {
    exists p: Row :: Under(store, Pages, revision, p) && Number(p) == n
  }

  ghost predicate ContentsAgree(store: Store, legacy: Id, canonical: Id) {
    && (forall n: nat :: HasPage(store, legacy, n) <==> HasPage(store, canonical, n))
    && (forall p: Row, q: Row | Under(store, Pages, legacy, p) && Under(store, Pages, canonical, q) && Number(p) == Number(q) ::
          PagesAgree(store, p, q))
    && Counterparted(store, Clauses, legacy, canonical)
  }

  /** Both revisions exist, belong to their documents, and record the declared source hash, one size and
      one page count. */
  ghost predicate RevisionsAgree(store: Store, d: DocumentMapping, r: RevisionMapping) {
    exists a: Row, b: Row ::
      && Under(store, Revisions, d.legacy, a) && a.id == r.legacy && Under(store, Revisions, d.canonical, b) && b.id == r.canonical
      && a.payload.RevisionData? && a.payload.sourceHash == d.sourceHash && a.payload == b.payload
  }

  ghost predicate TitlesAgree(store: Store, d: DocumentMapping) {
    exists a: Row, b: Row ::
      && a in Get(store, Documents) && a.id == d.legacy && b in Get(store, Documents) && b.id == d.canonical
      && a.payload == b.payload
  }

  ghost predicate DocumentsAgree(store: Store, d: DocumentMapping) {
    && TitlesAgree(store, d)
    && (forall r | r in d.revisions :: RevisionsAgree(store, d, r) && ContentsAgree(store, r.legacy, r.canonical))
  }

  // ---------------------------------------------------------------- the planner's equivalence

  lemma Two(rows: seq<Row>)
    requires UniqueIds(rows) && |rows| > 1
    ensures rows[0] in rows && rows[1] in rows && rows[0] != rows[1]
  {
  }

  lemma {:induction false} OneCarrier(rows: seq<Row>, a: Row)
    requires UniqueIds(rows) && a in rows
    ensures |Carrying(rows, a.payload)| == 1 <==> forall x | x in rows && x.payload == a.payload :: x == a
  {
    var carriers := Carrying(rows, a.payload);
    assert a in carriers;
    if |carriers| > 1 { Two(carriers); }
  }

  lemma {:induction false} AloneMeans(store: Store, table: Table, parent: Id, a: Row)
    requires Keyed(store) && Under(store, table, parent, a)
    ensures |Carrying(Children(Get(store, table), parent), a.payload)| == 1 <==> Alone(store, table, parent, a)
  {
    var rows := Children(Get(store, table), parent);
    assert forall x :: x in rows <==> Under(store, table, parent, x);
    OneCarrier(rows, a);
    hide Carrying, Children;
  }

  lemma {:induction false} OneMeans(store: Store, table: Table, parent: Id, payload: Payload)
    requires Keyed(store)
    ensures |Carrying(Children(Get(store, table), parent), payload)| == 1 <==> Matched(store, table, parent, payload)
  {
    var rows := Children(Get(store, table), parent);
    var carriers := Carrying(rows, payload);
    if |carriers| == 1 {
      assert carriers[0] in carriers;
      AloneMeans(store, table, parent, carriers[0]);
    }
    if b: Row :| Alone(store, table, parent, b) && b.payload == payload {
      AloneMeans(store, table, parent, b);
    }
  }

  predicate OneEach(rows: seq<Row>, others: seq<Row>, payload: Payload) {
    |Carrying(rows, payload)| == 1 && |Carrying(others, payload)| == 1
  }

  lemma ExactlyOnceMeans(rows: seq<Row>, others: seq<Row>)
    ensures ExactlyOnce(rows, others) <==> forall a | a in rows :: OneEach(rows, others, a.payload)
  {
    hide Carrying;
    if ExactlyOnce(rows, others) {
      forall a | a in rows ensures OneEach(rows, others, a.payload) {
        var i :| 0 <= i < |rows| && rows[i] == a;
      }
    } else {
      var i :| 0 <= i < |rows| && !(|Carrying(rows, rows[i].payload)| == 1 && |Carrying(others, rows[i].payload)| == 1);
      assert rows[i] in rows && !OneEach(rows, others, rows[i].payload);
    }
  }

  lemma ItemsMean(store: Store, table: Table, legacy: Id, canonical: Id)
    requires Keyed(store)
    ensures ItemsExact(store, table, legacy, canonical) <==> Counterparted(store, table, legacy, canonical)
  {
    var rows, others := Children(Get(store, table), legacy), Children(Get(store, table), canonical);
    assert forall a: Row :: Under(store, table, legacy, a) <==> a in rows;
    hide Keyed, Children, Alone, Under, ExactlyOnce, OneEach, Matched;
    ExactlyOnceMeans(rows, others);
    forall a: Row | a in rows
      ensures OneEach(rows, others, a.payload) <==> Alone(store, table, legacy, a) && Matched(store, table, canonical, a.payload)
    {
      EachMeans(store, table, legacy, canonical, a);
    }
  }

  lemma {:induction false} EachMeans(store: Store, table: Table, legacy: Id, canonical: Id, a: Row)
    requires Keyed(store) && Under(store, table, legacy, a)
    ensures OneEach(Children(Get(store, table), legacy), Children(Get(store, table), canonical), a.payload)
            <==> Alone(store, table, legacy, a) && Matched(store, table, canonical, a.payload)
  {
    hide Carrying, Children, Alone, Matched, Keyed, Under;
    AloneMeans(store, table, legacy, a);
    OneMeans(store, table, canonical, a.payload);
  }

  lemma PageMeans(store: Store, p: Row, q: Row)
    requires Keyed(store) && Number(p) == Number(q)
    ensures PageEquivalent(store, p, q) <==> PagesAgree(store, p, q)
  {
    hide Keyed, ItemsExact, Counterparted;
    ItemsMean(store, Elements, p.id, q.id);
    ItemsMean(store, Tables, p.id, q.id);
    ItemsMean(store, Visuals, p.id, q.id);
  }

  /** The page with a number, where numbers differ within a revision. */
  lemma {:induction false} PageOfNumber(store: Store, revision: Id, p: Row)
    requires PageNumbers(store) && Under(store, Pages, revision, p)
    ensures Number(p) in PagesOf(store, revision) && PagesOf(store, revision)[Number(p)] == p
  {
    var pages := Children(Get(store, Pages), revision);
    assert p in pages;
    var other := PagesOf(store, revision)[Number(p)];
    assert other in pages;
    assert Parent(other) == Parent(p);
  }

  lemma {:induction false} PageThere(store: Store, revision: Id, n: nat)
    requires n in PagesOf(store, revision)
    ensures Under(store, Pages, revision, PagesOf(store, revision)[n]) && Number(PagesOf(store, revision)[n]) == n
  {
    assert PagesOf(store, revision)[n] in Children(Get(store, Pages), revision);
  }

  lemma NumbersMean(store: Store, revision: Id, n: nat)
    requires PageNumbers(store)
    ensures n in PagesOf(store, revision) <==> HasPage(store, revision, n)
  {
    if n in PagesOf(store, revision) { PageThere(store, revision, n); }
    hide PagesOf, PageNumbers;
    if HasPage(store, revision, n) {
      var p: Row :| Under(store, Pages, revision, p) && Number(p) == n;
      PageOfNumber(store, revision, p);
    }
  }

  lemma ContentsMean(store: Store, r: RevisionMapping)
    requires Keyed(store) && PageNumbers(store)
    ensures PagesOf(store, r.legacy).Keys == PagesOf(store, r.canonical).Keys && ContentsEquivalent(store, r)
            <==> ContentsAgree(store, r.legacy, r.canonical)
  {
    hide Keyed, PageNumbers, PagesOf, PageEquivalent, PagesAgree, ItemsExact, Counterparted, Under, HasPage, Number;
    ItemsMean(store, Clauses, r.legacy, r.canonical);
    forall n: nat
      ensures n in PagesOf(store, r.legacy) <==> HasPage(store, r.legacy, n)
      ensures n in PagesOf(store, r.canonical) <==> HasPage(store, r.canonical, n)
    {
      NumbersMean(store, r.legacy, n);
      NumbersMean(store, r.canonical, n);
    }
    assert PagesOf(store, r.legacy).Keys == PagesOf(store, r.canonical).Keys
           <==> forall n: nat :: HasPage(store, r.legacy, n) <==> HasPage(store, r.canonical, n);
    if PagesOf(store, r.legacy).Keys == PagesOf(store, r.canonical).Keys { PairsMean(store, r); }
  }

  lemma PairsMean(store: Store, r: RevisionMapping)
    requires Keyed(store) && PageNumbers(store) && PagesOf(store, r.legacy).Keys == PagesOf(store, r.canonical).Keys
    ensures PagesEquivalent(store, r, PagesOf(store, r.legacy).Keys) <==>
            forall p: Row, q: Row | Under(store, Pages, r.legacy, p) && Under(store, Pages, r.canonical, q) && Number(p) == Number(q) ::
              PagesAgree(store, p, q)
  {
    hide Keyed, PageNumbers, PagesOf, PageEquivalent, PagesAgree, Under, Number;
    if PagesEquivalent(store, r, PagesOf(store, r.legacy).Keys) {
      forall p: Row, q: Row | Under(store, Pages, r.legacy, p) && Under(store, Pages, r.canonical, q) && Number(p) == Number(q)
        ensures PagesAgree(store, p, q)
      {
        PageOfNumber(store, r.legacy, p);
        PageOfNumber(store, r.canonical, q);
        PageMeans(store, p, q);
      }
    } else {
      var n :| n in PagesOf(store, r.legacy) && !PageEquivalent(store, PagesOf(store, r.legacy)[n], PagesOf(store, r.canonical)[n]);
      var p, q := PagesOf(store, r.legacy)[n], PagesOf(store, r.canonical)[n];
      PageThere(store, r.legacy, n);
      PageThere(store, r.canonical, n);
      PageMeans(store, p, q);
    }
  }

  lemma {:induction false} FindMeans(rows: seq<Row>, id: Id)
    requires UniqueIds(rows)
    ensures Find(rows, id).Some? <==> exists row: Row :: row in rows && row.id == id
    ensures forall row: Row | row in rows && row.id == id :: Find(rows, id) == Some(row)
  {
    forall row: Row | row in rows && row.id == id ensures Find(rows, id) == Some(row) {
      SameRow(rows, Find(rows, id).value, row);
    }
  }

  lemma HeadersMean(store: Store, d: DocumentMapping, r: RevisionMapping)
    requires Keyed(store)
    ensures RevisionHeaderMatches(store, d, r) <==> RevisionsAgree(store, d, r)
  {
    var rows := Get(store, Revisions);
    assert UniqueIds(rows);
    FindMeans(rows, r.legacy);
    FindMeans(rows, r.canonical);
    hide Keyed, Find, UniqueIds;
    if RevisionHeaderMatches(store, d, r) {
      assert Under(store, Revisions, d.legacy, Find(rows, r.legacy).value);
      assert Under(store, Revisions, d.canonical, Find(rows, r.canonical).value);
    }
  }

  lemma TitlesMean(store: Store, d: DocumentMapping)
    requires Keyed(store)
    ensures DocumentHeaderMatches(store, d) <==> TitlesAgree(store, d)
  {
    var rows := Get(store, Documents);
    assert UniqueIds(rows);
    FindMeans(rows, d.legacy);
    FindMeans(rows, d.canonical);
    hide Keyed, Find, UniqueIds;
  }

  /** The graph of a manifest is equivalent exactly when the rows of its documents agree one by one. */
  lemma EquivalentMeans(store: Store, manifest: Manifest)
    requires Keyed(store) && PageNumbers(store)
    ensures GraphEquivalent(store, manifest, |manifest|) <==> forall d | d in manifest :: DocumentsAgree(store, d)
  {
    hide Keyed, PageNumbers, DocumentEquivalent, DocumentsAgree;
    forall d | d in manifest ensures DocumentEquivalent(store, d) <==> DocumentsAgree(store, d) {
      DocumentMeans(store, d);
    }
  }

  lemma DocumentMeans(store: Store, d: DocumentMapping)
    requires Keyed(store) && PageNumbers(store)
    ensures DocumentEquivalent(store, d) <==> DocumentsAgree(store, d)
  {
    hide Keyed, PageNumbers, RevisionHeaderMatches, RevisionsAgree, ContentsEquivalent, ContentsAgree, DocumentHeaderMatches, TitlesAgree,
      PagesOf;
    TitlesMean(store, d);
    forall r | r in d.revisions
      ensures RevisionEquivalent(store, d, r) <==> RevisionsAgree(store, d, r) && ContentsAgree(store, r.legacy, r.canonical)
    {
      HeadersMean(store, d, r);
      ContentsMean(store, r);
    }
    hide RevisionEquivalent;
  }
}

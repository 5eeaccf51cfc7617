/** One layer of the graph: the rows under a pair of parents. */
module LineageLayers {
  import opened LineageStore
  import opened LineageMatching
  import opened LineageGraph

  function Layer(store: Store, table: Table, legacy: Id, canonical: Id): seq<EntityMapping> {
    var rows := Children(Get(store, table), legacy);
    MappedUpTo(table, rows, Children(Get(store, table), canonical), |rows|)
  }

  function LayerUnresolved(store: Store, table: Table, legacy: Id, canonical: Id): seq<Unresolved> {
    var rows, others := Children(Get(store, table), legacy), Children(Get(store, table), canonical);
    if table == Clauses then ClausesUnresolved(rows, others) else UnresolvedUpTo(rows, others, |rows|)
  }

  lemma LayerExact(store: Store, table: Table, legacy: Id, canonical: Id)
    ensures LayerUnresolved(store, table, legacy, canonical) == [] <==> ItemsExact(store, table, legacy, canonical)
  {
    var rows, others := Children(Get(store, table), legacy), Children(Get(store, table), canonical);
    GreedyIsExact(rows, others);
    ClausesExact(rows, others);
  }

  lemma LayerMapped(store: Store, table: Table, legacy: Id, canonical: Id)
    requires ItemsExact(store, table, legacy, canonical)
    ensures ItemsMapped(store, table, legacy, Layer(store, table, legacy, canonical))
  {
    var rows, others := Children(Get(store, table), legacy), Children(Get(store, table), canonical);
    forall row | row in rows
      ensures exists m | m in Layer(store, table, legacy, canonical) :: m.table == table && m.legacy == row.id
    {
      ExactMatchingIsTotal(table, rows, others, row);
    }
  }

  lemma LayerPairs(store: Store, table: Table, legacy: Id, canonical: Id, m: EntityMapping)
    requires m in Layer(store, table, legacy, canonical)
    ensures m.table == table && PairedItems(store, legacy, canonical, m)
  {
    var rows, others := Children(Get(store, table), legacy), Children(Get(store, table), canonical);
    MappingsPair(table, rows, others, |rows|, m);
  }

  lemma ItemsMappedGrows(store: Store, table: Table, legacy: Id, some: seq<EntityMapping>, more: seq<EntityMapping>)
    requires ItemsMapped(store, table, legacy, some)
    requires forall m | m in some :: m in more
    ensures ItemsMapped(store, table, legacy, more)
  {
  }

  lemma PageMappedGrows(store: Store, page: Row, some: seq<EntityMapping>, more: seq<EntityMapping>)
    requires PageMapped(store, page, some)
    requires forall m | m in some :: m in more
    ensures PageMapped(store, page, more)
  {
    ItemsMappedGrows(store, Elements, page.id, some, more);
    ItemsMappedGrows(store, Tables, page.id, some, more);
    ItemsMappedGrows(store, Visuals, page.id, some, more);
  }

  // ---------------------------------------------------------------- how the planner's lists grow

  ghost predicate Grew(store: Store, r: RevisionMapping, before: seq<EntityMapping>, after: seq<EntityMapping>) {
    before <= after && forall m | m in after :: m in before || PairedIn(store, r, m)
  }

  lemma GrewOn(store: Store, r: RevisionMapping, a: seq<EntityMapping>, b: seq<EntityMapping>, c: seq<EntityMapping>)
    requires Grew(store, r, a, b) && Grew(store, r, b, c)
    ensures Grew(store, r, a, c)
  {
    hide PairedIn;
  }

  lemma GrewExtends(store: Store, r: RevisionMapping, a: seq<EntityMapping>, b: seq<EntityMapping>)
    requires Grew(store, r, a, b)
    ensures a <= b
  {
  }

  /** Unresolved items are only added, and nothing is added exactly when the comparison succeeds. */
  ghost predicate Judged(open: seq<Unresolved>, open': seq<Unresolved>, succeeded: bool) {
    open <= open' && (open' == open <==> succeeded)
  }

  lemma JudgedOn(a: seq<Unresolved>, b: seq<Unresolved>, c: seq<Unresolved>, first: bool, second: bool)
    requires Judged(a, b, first) && Judged(b, c, second)
    ensures Judged(a, c, first && second)
  {
    if c == a { assert |b| == |a|; }
  }

  lemma JudgedFromNothing(open: seq<Unresolved>, open': seq<Unresolved>, succeeded: bool)
    requires Judged(open, open', succeeded)
    ensures open' == [] <==> open == [] && succeeded
  {
  }

  lemma Appended(a: seq<Unresolved>, more: seq<Unresolved>)
    ensures Judged(a, a + more, more == [])
  {
    if a + more == a { assert |more| == 0; }
  }

  // ---------------------------------------------------------------- what a layer settles

  ghost predicate LayerSettled(store: Store, table: Table, legacy: Id, canonical: Id, after: seq<EntityMapping>) {
    && (LayerUnresolved(store, table, legacy, canonical) == [] <==> ItemsExact(store, table, legacy, canonical))
    && (ItemsExact(store, table, legacy, canonical) ==> ItemsMapped(store, table, legacy, after))
    && (forall m | m in Layer(store, table, legacy, canonical) :: m.table == table && PairedItems(store, legacy, canonical, m))
  }

  lemma LayerPlanned(store: Store, table: Table, legacy: Id, canonical: Id, after: seq<EntityMapping>)
    requires forall m | m in Layer(store, table, legacy, canonical) :: m in after
    ensures LayerSettled(store, table, legacy, canonical, after)
  {
    hide Layer, LayerUnresolved, ItemsExact, ItemsMapped, PairedItems;
    LayerExact(store, table, legacy, canonical);
    if ItemsExact(store, table, legacy, canonical) {
      LayerMapped(store, table, legacy, canonical);
      ItemsMappedGrows(store, table, legacy, Layer(store, table, legacy, canonical), after);
    }
    forall m | m in Layer(store, table, legacy, canonical)
      ensures m.table == table && PairedItems(store, legacy, canonical, m)
    {
      LayerPairs(store, table, legacy, canonical, m);
    }
  }

  lemma NothingAdded(open: seq<Unresolved>, a: seq<Unresolved>, b: seq<Unresolved>, c: seq<Unresolved>)
    ensures open + a + b + c == open <==> a == [] && b == [] && c == []
  {
    if open + a + b + c == open {
      assert |open + a + b + c| == |open|;
    }
  }

  lemma PagePlanned(store: Store, r: RevisionMapping, legacy: Row, canonical: Row,
                    before: seq<EntityMapping>, after: seq<EntityMapping>, open: seq<Unresolved>, open': seq<Unresolved>)
    requires PairedPages(store, r, legacy, canonical) && SameGeometry(legacy, canonical)
    requires after == before + [EntityMapping(Pages, legacy.id, canonical.id)]
                      + Layer(store, Elements, legacy.id, canonical.id)
                      + Layer(store, Tables, legacy.id, canonical.id)
                      + Layer(store, Visuals, legacy.id, canonical.id)
    requires open' == open + LayerUnresolved(store, Elements, legacy.id, canonical.id)
                      + LayerUnresolved(store, Tables, legacy.id, canonical.id)
                      + LayerUnresolved(store, Visuals, legacy.id, canonical.id)
    ensures Judged(open, open', PageEquivalent(store, legacy, canonical))
    ensures PageEquivalent(store, legacy, canonical) ==> PageMapped(store, legacy, after)
    ensures Grew(store, r, before, after)
  {
    hide Layer, ItemsMapped, ItemsExact, LayerUnresolved, PairedItems, PairedPages, SameGeometry;
    var page := EntityMapping(Pages, legacy.id, canonical.id);
    assert page in after && PairedPage(store, r, page);
    LayerPlanned(store, Elements, legacy.id, canonical.id, after);
    LayerPlanned(store, Tables, legacy.id, canonical.id, after);
    LayerPlanned(store, Visuals, legacy.id, canonical.id, after);
    NothingAdded(open, LayerUnresolved(store, Elements, legacy.id, canonical.id),
                 LayerUnresolved(store, Tables, legacy.id, canonical.id), LayerUnresolved(store, Visuals, legacy.id, canonical.id));
  }

  /** What comparing the pages with these numbers settles. */
  ghost predicate PagesSettled(store: Store, r: RevisionMapping, done: set<nat>, before: seq<EntityMapping>, after: seq<EntityMapping>,
                               open: seq<Unresolved>, open': seq<Unresolved>)
    requires done <= PagesOf(store, r.legacy).Keys * PagesOf(store, r.canonical).Keys
  {
    && Grew(store, r, before, after)
    && Judged(open, open', PagesEquivalent(store, r, done))
    && (PagesEquivalent(store, r, done) ==> PagesMapped(store, r, done, after))
  }

  lemma PagesAllSettled(store: Store, r: RevisionMapping, before: seq<EntityMapping>, after: seq<EntityMapping>,
                        open: seq<Unresolved>, open': seq<Unresolved>)
    requires PagesOf(store, r.legacy).Keys == PagesOf(store, r.canonical).Keys
    requires PagesSettled(store, r, PagesOf(store, r.legacy).Keys, before, after, open, open')
    ensures Grew(store, r, before, after)
    ensures Judged(open, open', PagesEquivalent(store, r, PagesOf(store, r.legacy).Keys))
    ensures PagesEquivalent(store, r, PagesOf(store, r.legacy).Keys) ==> PagesMapped(store, r, PagesOf(store, r.legacy).Keys, after)
  {
  }

  /** The page numbered `n` joins those already compared. */
  lemma OneMorePage(store: Store, r: RevisionMapping, done: set<nat>, n: nat,
                    before: seq<EntityMapping>, mapped: seq<EntityMapping>, after: seq<EntityMapping>,
                    open: seq<Unresolved>, open': seq<Unresolved>, open'': seq<Unresolved>)
    requires done + {n} <= PagesOf(store, r.legacy).Keys * PagesOf(store, r.canonical).Keys
    requires PagesSettled(store, r, done, before, mapped, open, open')
    requires Grew(store, r, mapped, after)
    requires Judged(open', open'', PageEquivalent(store, PagesOf(store, r.legacy)[n], PagesOf(store, r.canonical)[n]))
    requires PageEquivalent(store, PagesOf(store, r.legacy)[n], PagesOf(store, r.canonical)[n])
             ==> PageMapped(store, PagesOf(store, r.legacy)[n], after)
    ensures PagesSettled(store, r, done + {n}, before, after, open, open'')
  {
    hide PageEquivalent, PageMapped, PagesOf, Grew, Judged, PagesMapped, PagesEquivalent;
    GrewOn(store, r, before, mapped, after);
    JudgedOn(open, open', open'', PagesEquivalent(store, r, done),
             PageEquivalent(store, PagesOf(store, r.legacy)[n], PagesOf(store, r.canonical)[n]));
    OneMoreMapped(store, r, done, n, mapped, after);
    OneMoreEquivalent(store, r, done, n);
  }

  lemma OneMoreEquivalent(store: Store, r: RevisionMapping, done: set<nat>, n: nat)
    requires done + {n} <= PagesOf(store, r.legacy).Keys * PagesOf(store, r.canonical).Keys
    ensures PagesEquivalent(store, r, done + {n}) <==>
            PagesEquivalent(store, r, done) && PageEquivalent(store, PagesOf(store, r.legacy)[n], PagesOf(store, r.canonical)[n])
  {
    hide PageEquivalent, PagesOf;
  }

  lemma OneMoreMapped(store: Store, r: RevisionMapping, done: set<nat>, n: nat, before: seq<EntityMapping>, after: seq<EntityMapping>)
    requires done + {n} <= PagesOf(store, r.legacy).Keys && Grew(store, r, before, after)
    ensures PagesMapped(store, r, done, before) && PageMapped(store, PagesOf(store, r.legacy)[n], after)
            ==> PagesMapped(store, r, done + {n}, after)
  {
    hide PageMapped, PagesOf, PairedIn;
    PagesMappedGrows(store, r, done, before, after);
  }

  lemma PagesMappedGrows(store: Store, r: RevisionMapping, numbers: set<nat>, before: seq<EntityMapping>, after: seq<EntityMapping>)
    requires numbers <= PagesOf(store, r.legacy).Keys && before <= after
    ensures PagesMapped(store, r, numbers, before) ==> PagesMapped(store, r, numbers, after)
  {
    if PagesMapped(store, r, numbers, before) {
      forall n | n in numbers
        ensures PageMapped(store, PagesOf(store, r.legacy)[n], after)
      {
        PageMappedGrows(store, PagesOf(store, r.legacy)[n], before, after);
      }
    }
  }

  lemma RevisionMappedGrows(store: Store, r: RevisionMapping, before: seq<EntityMapping>, after: seq<EntityMapping>)
    requires RevisionMapped(store, r, before) && before <= after
    ensures RevisionMapped(store, r, after)
  {
    hide PagesMapped, ItemsMapped;
    PagesMappedGrows(store, r, PagesOf(store, r.legacy).Keys, before, after);
    ItemsMappedGrows(store, Clauses, r.legacy, before, after);
  }

  // ---------------------------------------------------------------- documents

  ghost predicate GraphGrew(store: Store, manifest: Manifest, before: seq<EntityMapping>, after: seq<EntityMapping>) {
    before <= after && forall m | m in after :: m in before || GraphPaired(store, manifest, m)
  }

  lemma GraphGrewOn(store: Store, manifest: Manifest, a: seq<EntityMapping>, b: seq<EntityMapping>, c: seq<EntityMapping>)
    requires GraphGrew(store, manifest, a, b) && GraphGrew(store, manifest, b, c)
    ensures GraphGrew(store, manifest, a, c)
  {
    hide GraphPaired;
  }

  lemma GraphGrewExtends(store: Store, manifest: Manifest, a: seq<EntityMapping>, b: seq<EntityMapping>)
    requires GraphGrew(store, manifest, a, b)
    ensures a <= b
  {
  }

  lemma GraphGrewWider(store: Store, d: DocumentMapping, manifest: Manifest, a: seq<EntityMapping>, b: seq<EntityMapping>)
    requires d in manifest && GraphGrew(store, [d], a, b)
    ensures GraphGrew(store, manifest, a, b)
  {
    hide Paired;
  }

  lemma RevisionGrew(store: Store, d: DocumentMapping, r: RevisionMapping, a: seq<EntityMapping>, b: seq<EntityMapping>)
    requires r in d.revisions && Grew(store, r, a, b)
    ensures GraphGrew(store, [d], a, b)
  {
    hide PairedIn;
    assert d in [d];
    forall m | m in b
      ensures m in a || GraphPaired(store, [d], m)
    {
      if m !in a { assert Paired(store, d, m); }
    }
  }

  lemma RevisionsMappedGrows(store: Store, d: DocumentMapping, n: nat, before: seq<EntityMapping>, after: seq<EntityMapping>)
    requires n <= |d.revisions| && before <= after && RevisionsMapped(store, d, n, before)
    ensures RevisionsMapped(store, d, n, after)
  {
    hide RevisionMapped;
    forall i | 0 <= i < n
      ensures RevisionMapped(store, d.revisions[i], after)
    {
      RevisionMappedGrows(store, d.revisions[i], before, after);
    }
  }

  /** What comparing the first `n` revisions of a document settles. */
  ghost predicate RevisionsSettled(store: Store, d: DocumentMapping, n: nat, before: seq<EntityMapping>, after: seq<EntityMapping>,
                                   open: seq<Unresolved>, open': seq<Unresolved>)
    requires n <= |d.revisions|
  {
    && GraphGrew(store, [d], before, after)
    && Judged(open, open', RevisionsEquivalent(store, d, n))
    && (RevisionsEquivalent(store, d, n) ==> RevisionsMapped(store, d, n, after))
  }

  lemma OneMoreRevision(store: Store, d: DocumentMapping, n: nat,
                        before: seq<EntityMapping>, mapped: seq<EntityMapping>, after: seq<EntityMapping>,
                        open: seq<Unresolved>, open': seq<Unresolved>, open'': seq<Unresolved>)
    requires n < |d.revisions| && RevisionsSettled(store, d, n, before, mapped, open, open')
    requires Grew(store, d.revisions[n], mapped, after)
    requires Judged(open', open'', RevisionEquivalent(store, d, d.revisions[n]))
    requires RevisionEquivalent(store, d, d.revisions[n]) ==> RevisionMapped(store, d.revisions[n], after)
    ensures RevisionsSettled(store, d, n + 1, before, after, open, open'')
  {
    hide RevisionEquivalent, RevisionMapped, GraphGrew, Grew, Judged, PairedIn;
    GrewExtends(store, d.revisions[n], mapped, after);
    RevisionGrew(store, d, d.revisions[n], mapped, after);
    GraphGrewOn(store, [d], before, mapped, after);
    JudgedOn(open, open', open'', RevisionsEquivalent(store, d, n), RevisionEquivalent(store, d, d.revisions[n]));
    if RevisionsEquivalent(store, d, n) { RevisionsMappedGrows(store, d, n, mapped, after); }
  }

  lemma GraphMappedGrows(store: Store, manifest: Manifest, n: nat, before: seq<EntityMapping>, after: seq<EntityMapping>)
    requires n <= |manifest| && before <= after && GraphMapped(store, manifest, n, before)
    ensures GraphMapped(store, manifest, n, after)
  {
    hide RevisionsMapped;
    forall i | 0 <= i < n
      ensures DocumentMapped(store, manifest[i], after)
    {
      assert DocumentMapped(store, manifest[i], before);
      RevisionsMappedGrows(store, manifest[i], |manifest[i].revisions|, before, after);
    }
  }

  /** What comparing the first `n` documents of the manifest settles. */
  ghost predicate GraphSettled(store: Store, manifest: Manifest, n: nat, mappings: seq<EntityMapping>, open: seq<Unresolved>)
    requires n <= |manifest|
  {
    && GraphGrew(store, manifest, [], mappings)
    && (open == [] <==> GraphEquivalent(store, manifest, n))
    && (open == [] ==> GraphMapped(store, manifest, n, mappings))
  }

  lemma OneMoreDocument(store: Store, manifest: Manifest, n: nat, mapped: seq<EntityMapping>, after: seq<EntityMapping>,
                        open: seq<Unresolved>, open': seq<Unresolved>)
    requires n < |manifest| && GraphSettled(store, manifest, n, mapped, open)
    requires GraphGrew(store, [manifest[n]], mapped, after)
    requires Judged(open, open', DocumentEquivalent(store, manifest[n]))
    requires DocumentEquivalent(store, manifest[n]) ==> DocumentMapped(store, manifest[n], after)
    ensures GraphSettled(store, manifest, n + 1, after, open')
  {
    hide DocumentEquivalent, DocumentMapped, GraphGrew, Judged;
    GraphGrewExtends(store, [manifest[n]], mapped, after);
    JudgedFromNothing(open, open', DocumentEquivalent(store, manifest[n]));
    GraphGrewWider(store, manifest[n], manifest, mapped, after);
    GraphGrewOn(store, manifest, [], mapped, after);
    if open == [] { GraphMappedGrows(store, manifest, n, mapped, after); }
  }
}

/** The planning run: lists of mappings and unresolved items grow layer by layer. */
module LineagePlanner {
  import opened Options
  import opened LineageStore
  import opened LineageMatching
  import opened LineageGraph
  import opened LineageLayers
  import opened LineageReasons
  import opened LineageRelations

  class Planner {
    const store: Store
    var mappings: seq<EntityMapping>
    var unresolved: seq<Unresolved>
    var idMap: map<Id, Id>

    constructor (store: Store)
      ensures this.store == store && mappings == [] && unresolved == [] && idMap == map[]
    {
      this.store := store;
      mappings, unresolved, idMap := [], [], map[];
    }

    ghost predicate Tracking()
      reads this
    {
      unresolved == [] ==> Tracks(idMap, mappings)
    }

    method Record(found: seq<EntityMapping>)
      requires Tracking()
      modifies this`mappings, this`idMap
      ensures Tracking() && mappings == old(mappings) + found
    {
      MapIdsTracks(found);
      if unresolved == [] {
        TracksTogether(idMap, mappings, MapIds(found), found);
      }
      mappings := mappings + found;
      idMap := idMap + MapIds(found);
    }

    method Refuse(code: Code, legacy: Id, canonical: Id)
      modifies this`unresolved
      ensures unresolved == old(unresolved) + [Unresolved(code, legacy, canonical)]
    {
      unresolved := unresolved + [Unresolved(code, legacy, canonical)];
    }

    method MatchLayer(table: Table, legacy: Id, canonical: Id)
      requires Keyed(store) && Tracking()
      modifies this`mappings, this`unresolved, this`idMap
      ensures Tracking() && mappings == old(mappings) + Layer(store, table, legacy, canonical)
      ensures unresolved == old(unresolved) + LayerUnresolved(store, table, legacy, canonical)
    {
      var legacyRows := Children(Get(store, table), legacy);
      var canonicalRows := Children(Get(store, table), canonical);
      var found: seq<EntityMapping>, open: seq<Unresolved>;
      if table == Clauses {
        found, open := MatchClauses(legacyRows, canonicalRows);
      } else {
        found, open := MatchPayloadRows(table, legacyRows, canonicalRows);
      }
      Record(found);
      unresolved := unresolved + open;
    }

    /** One pair of pages with the same number. */
    method PlanPage(r: RevisionMapping, legacy: Row, canonical: Row)
      requires Keyed(store) && Tracking() && PairedPages(store, r, legacy, canonical)
      modifies this`mappings, this`unresolved, this`idMap
      ensures Tracking() && Grew(store, r, old(mappings), mappings)
      ensures Judged(old(unresolved), unresolved, PageEquivalent(store, legacy, canonical))
      ensures Explained(old(unresolved), unresolved, PageReasons(store, legacy, canonical))
      ensures PageEquivalent(store, legacy, canonical) ==> PageMapped(store, legacy, mappings)
    {
      if !SameGeometry(legacy, canonical) {
        Refuse(PageGeometryMismatch, legacy.id, canonical.id);
        OneExplained(old(unresolved), Unresolved(PageGeometryMismatch, legacy.id, canonical.id), PageReasons(store, legacy, canonical));
        return;
      }
      PlanItems(r, legacy, canonical);
    }

    method PlanItems(r: RevisionMapping, legacy: Row, canonical: Row)
      requires Keyed(store) && Tracking() && PairedPages(store, r, legacy, canonical) && SameGeometry(legacy, canonical)
      modifies this`mappings, this`unresolved, this`idMap
      ensures Tracking() && Grew(store, r, old(mappings), mappings)
      ensures Judged(old(unresolved), unresolved, PageEquivalent(store, legacy, canonical))
      ensures Explained(old(unresolved), unresolved, PageReasons(store, legacy, canonical))
      ensures PageEquivalent(store, legacy, canonical) ==> PageMapped(store, legacy, mappings)
    {
      hide Layer, LayerUnresolved, PageEquivalent, PageMapped, PairedIn, PairedPages, Tracking, Keyed, Grew, Judged, SameGeometry,
        PageReason, Explained;
      Record([EntityMapping(Pages, legacy.id, canonical.id)]);
      MatchLayer(Elements, legacy.id, canonical.id);
      MatchLayer(Tables, legacy.id, canonical.id);
      MatchLayer(Visuals, legacy.id, canonical.id);
      PagePlanned(store, r, legacy, canonical, old(mappings), mappings, old(unresolved), unresolved);
      PageExplained(store, legacy, canonical, old(unresolved), unresolved);
    }

    /** Pages are compared one number at a time; the outcome does not depend on the order. */
    method PlanPages(r: RevisionMapping)
      requires Keyed(store) && Tracking()
      requires PagesOf(store, r.legacy).Keys == PagesOf(store, r.canonical).Keys
      modifies this`mappings, this`unresolved, this`idMap
      ensures Tracking() && Grew(store, r, old(mappings), mappings)
      ensures Judged(old(unresolved), unresolved, PagesEquivalent(store, r, PagesOf(store, r.legacy).Keys))
      ensures Explained(old(unresolved), unresolved, ContentsReasons(store, r))
      ensures PagesEquivalent(store, r, PagesOf(store, r.legacy).Keys)
              ==> PagesMapped(store, r, PagesOf(store, r.legacy).Keys, mappings)
    {
      var legacyPages, canonicalPages := PagesOf(store, r.legacy), PagesOf(store, r.canonical);
      var done: set<nat> := {};
      assert PagesSettled(store, r, done, old(mappings), mappings, old(unresolved), unresolved);
      hide PagesSettled, PageEquivalent, PageMapped, PairedIn, Tracks, PagesOf, UniqueIds, Explained, PageReasons, ContentsReasons;
      NothingToExplain(unresolved, ContentsReasons(store, r));
      while done != legacyPages.Keys
        invariant done <= legacyPages.Keys && Tracking()
        invariant PagesSettled(store, r, done, old(mappings), mappings, old(unresolved), unresolved)
        invariant Explained(old(unresolved), unresolved, ContentsReasons(store, r))
        decreases legacyPages.Keys - done
      {
        ghost var mapped, open := mappings, unresolved;
        var n :| n in legacyPages.Keys && n !in done;
        assert PairedPages(store, r, legacyPages[n], canonicalPages[n]);
        hide PairedPages, Grew, Judged;
        PlanPage(r, legacyPages[n], canonicalPages[n]);
        OneMorePage(store, r, done, n, old(mappings), mapped, mappings, old(unresolved), open, unresolved);
        PageInContents(store, r, legacyPages[n], canonicalPages[n]);
        ExplainedWider(open, unresolved, PageReasons(store, legacyPages[n], canonicalPages[n]), ContentsReasons(store, r));
        ExplainedOn(old(unresolved), open, unresolved, ContentsReasons(store, r));
        done := done + {n};
      }
      PagesAllSettled(store, r, old(mappings), mappings, old(unresolved), unresolved);
    }

    /** The pages and clauses under a pair of revisions whose headers match. */
    method PlanContents(r: RevisionMapping)
      requires Keyed(store) && Tracking()
      requires PagesOf(store, r.legacy).Keys == PagesOf(store, r.canonical).Keys
      modifies this`mappings, this`unresolved, this`idMap
      ensures Tracking() && Grew(store, r, old(mappings), mappings)
      ensures Judged(old(unresolved), unresolved, ContentsEquivalent(store, r))
      ensures Explained(old(unresolved), unresolved, ContentsReasons(store, r))
      ensures ContentsEquivalent(store, r) ==> ContentsMapped(store, r, mappings)
    {
      hide PagesOf, PagesEquivalent, PagesMapped, ItemsExact, ItemsMapped, Tracks, UniqueIds, LayerUnresolved, Layer,
        PairedItems, Grew, Judged, Explained, ContentsReasons;
      PlanPages(r);
      ghost var paged, open := mappings, unresolved;
      MatchLayer(Clauses, r.legacy, r.canonical);
      LayerPlanned(store, Clauses, r.legacy, r.canonical, mappings);
      Appended(open, LayerUnresolved(store, Clauses, r.legacy, r.canonical));
      JudgedOn(old(unresolved), open, unresolved, PagesEquivalent(store, r, PagesOf(store, r.legacy).Keys),
               LayerUnresolved(store, Clauses, r.legacy, r.canonical) == []);
      PagesMappedGrows(store, r, PagesOf(store, r.legacy).Keys, paged, mappings);
      ClausesGrew(store, r, paged, mappings);
      ClausesExplained(store, r, open);
      ExplainedOn(old(unresolved), open, unresolved, ContentsReasons(store, r));
      GrewOn(store, r, old(mappings), paged, mappings);
    }

    method PlanRevision(d: DocumentMapping, r: RevisionMapping)
      requires Keyed(store) && Tracking()
      modifies this`mappings, this`unresolved, this`idMap
      ensures Tracking() && Grew(store, r, old(mappings), mappings)
      ensures Judged(old(unresolved), unresolved, RevisionEquivalent(store, d, r))
      ensures Explained(old(unresolved), unresolved, RevisionReasons(store, d, r))
      ensures RevisionEquivalent(store, d, r) ==> RevisionMapped(store, r, mappings)
    {
      hide ContentsEquivalent, ContentsMapped, Tracks, UniqueIds, PagesOf, ContentsReason;
      var legacy, canonical := Find(Get(store, Revisions), r.legacy), Find(Get(store, Revisions), r.canonical);
      if legacy.None? || canonical.None? {
        Refuse(RevisionNotFound, r.legacy, r.canonical);
        return;
      }
      if !RefersTo(legacy.value, d.legacy) || !RefersTo(canonical.value, d.canonical) {
        Refuse(RevisionOwnershipMismatch, r.legacy, r.canonical);
        return;
      }
      if !HasSource(legacy.value, d.sourceHash) || !HasSource(canonical.value, d.sourceHash) {
        Refuse(RevisionSourceHashMismatch, r.legacy, r.canonical);
        return;
      }
      if legacy.value.payload.byteSize != canonical.value.payload.byteSize
         || legacy.value.payload.pageCount != canonical.value.payload.pageCount {
        Refuse(RevisionMetadataMismatch, r.legacy, r.canonical);
        return;
      }
      assert RevisionHeaderMatches(store, d, r);
      hide RevisionHeaderMatches;
      ghost var revision := EntityMapping(Revisions, r.legacy, r.canonical);
      if unresolved == [] { TracksOneMore(idMap, mappings, revision); }
      mappings := mappings + [EntityMapping(Revisions, r.legacy, r.canonical)];
      assert revision in mappings;
      assert Grew(store, r, old(mappings), mappings);
      if PagesOf(store, r.legacy).Keys != PagesOf(store, r.canonical).Keys {
        Refuse(PageSetMismatch, r.legacy, r.canonical);
        return;
      }
      ghost var entered := mappings;
      idMap := idMap[r.legacy := r.canonical];
      PlanContents(r);
      ContentsInRevision(store, d, r);
      ExplainedWider(old(unresolved), unresolved, ContentsReasons(store, r), RevisionReasons(store, d, r));
      assert revision in mappings;
      GrewOn(store, r, old(mappings), entered, mappings);
    }

    method PlanDocument(d: DocumentMapping)
      requires Keyed(store) && Tracking()
      modifies this`mappings, this`unresolved, this`idMap
      ensures Tracking() && GraphGrew(store, [d], old(mappings), mappings)
      ensures Judged(old(unresolved), unresolved, DocumentEquivalent(store, d))
      ensures Explained(old(unresolved), unresolved, DocumentReasons(store, d))
      ensures DocumentEquivalent(store, d) ==> DocumentMapped(store, d, mappings)
    {
      hide Tracks, UniqueIds, RevisionsEquivalent, RevisionsMapped, RevisionReason;
      var legacy, canonical := Find(Get(store, Documents), d.legacy), Find(Get(store, Documents), d.canonical);
      if legacy.None? {
        Refuse(LegacyDocumentNotFound, d.legacy, d.canonical);
        return;
      }
      if canonical.None? {
        Refuse(CanonicalDocumentNotFound, d.legacy, d.canonical);
        return;
      }
      if legacy.value.payload != canonical.value.payload {
        Refuse(DocumentMetadataMismatch, d.legacy, d.canonical);
        return;
      }
      assert DocumentHeaderMatches(store, d);
      ghost var document := EntityMapping(Documents, d.legacy, d.canonical);
      Record([EntityMapping(Documents, d.legacy, d.canonical)]);
      assert document in mappings && GraphGrew(store, [d], old(mappings), mappings) by { assert d in [d] && Paired(store, d, document); }
      ghost var entered := mappings;
      PlanRevisions(d);
      assert entered <= mappings && document in mappings;
      GraphGrewOn(store, [d], old(mappings), entered, mappings);
    }

    method PlanRevisions(d: DocumentMapping)
      requires Keyed(store) && Tracking()
      modifies this`mappings, this`unresolved, this`idMap
      ensures Tracking() && RevisionsSettled(store, d, |d.revisions|, old(mappings), mappings, old(unresolved), unresolved)
      ensures Explained(old(unresolved), unresolved, DocumentReasons(store, d))
    {
      NothingToExplain(unresolved, DocumentReasons(store, d));
      for n := 0 to |d.revisions|
        invariant Tracking() && RevisionsSettled(store, d, n, old(mappings), mappings, old(unresolved), unresolved)
        invariant Explained(old(unresolved), unresolved, DocumentReasons(store, d))
      {
        ghost var mapped, open := mappings, unresolved;
        hide Tracks, UniqueIds, RevisionsSettled, RevisionEquivalent, RevisionMapped, Grew, Judged, Explained,
          DocumentReasons, RevisionReasons;
        PlanRevision(d, d.revisions[n]);
        OneMoreRevision(store, d, n, old(mappings), mapped, mappings, old(unresolved), open, unresolved);
        RevisionInDocument(store, d, d.revisions[n]);
        ExplainedWider(open, unresolved, RevisionReasons(store, d, d.revisions[n]), DocumentReasons(store, d));
        ExplainedOn(old(unresolved), open, unresolved, DocumentReasons(store, d));
      }
    }

    /** The graph part of the plan. */
    method PlanGraph(manifest: Manifest)
      requires Keyed(store) && mappings == [] && unresolved == [] && idMap == map[]
      modifies this`mappings, this`unresolved, this`idMap
      ensures Tracking() && GraphSettled(store, manifest, |manifest|, mappings, unresolved)
      ensures Explained([], unresolved, GraphReasons(store, manifest))
    {
      for n := 0 to |manifest|
        invariant Tracking() && GraphSettled(store, manifest, n, mappings, unresolved)
        invariant Explained([], unresolved, GraphReasons(store, manifest))
      {
        ghost var mapped, open := mappings, unresolved;
        hide Tracks, UniqueIds, GraphSettled, DocumentEquivalent, DocumentMapped, GraphGrew, Judged, Explained,
          GraphReasons, DocumentReasons;
        PlanDocument(manifest[n]);
        OneMoreDocument(store, manifest, n, mapped, mappings, open, unresolved);
        DocumentInGraph(store, manifest, manifest[n]);
        ExplainedWider(open, unresolved, DocumentReasons(store, manifest[n]), GraphReasons(store, manifest));
        ExplainedOn([], open, unresolved, GraphReasons(store, manifest));
      }
    }

    /** Relations are compared only when the graph is equivalent; otherwise their failures would
        merely repeat those of the graph. */
    method PlanMigration(manifest: Manifest) returns (plan: Plan, ghost graph: seq<EntityMapping>, ghost relations: seq<EntityMapping>)
      requires Keyed(store) && mappings == [] && unresolved == [] && idMap == map[]
      modifies this`mappings, this`unresolved, this`idMap
      ensures plan.ready <==> plan.unresolved == {}
      ensures plan.ready <==> GraphEquivalent(store, manifest, |manifest|) && RelationsExact(store, idMap, LegacyDocuments(manifest))
      ensures plan.mappings == (set m | m in graph + relations) && GraphGrew(store, manifest, [], graph)
      ensures plan.ready ==> Certified(store, manifest, graph, relations, idMap)
      ensures GraphEquivalent(store, manifest, |manifest|) ==> Tracks(idMap, graph) && GraphMapped(store, manifest, |manifest|, graph)
      ensures forall u | u in plan.unresolved ::
                GraphReason(store, manifest, u) || RelationReason(store, idMap, LegacyDocuments(manifest), u)
    {
      hide Tracks, UniqueIds, GraphEquivalent, GraphMapped, GraphGrew, RelationsExact, RelationsMapped, AllJoin, AllMappings,
        AllUnresolved, GraphReason, RelationReason;
      PlanGraph(manifest);
      graph, relations := mappings, [];
      if unresolved != [] {
        var reasons := set u | u in unresolved;
        assert unresolved[0] in reasons;
        return Plan(false, (set m | m in mappings), reasons), graph, relations;
      }
      var legacyDocuments := LegacyDocuments(manifest);
      RelationsPlanned(store, idMap, legacyDocuments);
      RelationsExplained(store, idMap, legacyDocuments);
      var found, open := MatchRelations(store, idMap, legacyDocuments);
      relations := found;
      mappings := mappings + found;
      unresolved := unresolved + open;
      var reasons := set u | u in unresolved;
      if unresolved != [] { assert unresolved[0] in reasons; }
      return Plan(unresolved == [], (set m | m in mappings), reasons), graph, relations;
    }
  }

  function LegacyDocuments(manifest: Manifest): set<Id> { set d | d in manifest :: d.legacy }

  /** What a READY plan has established. */
  ghost predicate Certified(store: Store, manifest: Manifest, graph: seq<EntityMapping>, relations: seq<EntityMapping>,
                            idMap: map<Id, Id>) {
    && GraphEquivalent(store, manifest, |manifest|)
    && GraphGrew(store, manifest, [], graph)
    && GraphMapped(store, manifest, |manifest|, graph)
    && Tracks(idMap, graph)
    && RelationsMapped(store, idMap, LegacyDocuments(manifest), relations)
    && AllJoin(store, idMap, LegacyDocuments(manifest), relations)
  }

  lemma ClausesGrew(store: Store, r: RevisionMapping, before: seq<EntityMapping>, after: seq<EntityMapping>)
    requires after == before + Layer(store, Clauses, r.legacy, r.canonical)
    requires LayerSettled(store, Clauses, r.legacy, r.canonical, after)
    ensures Grew(store, r, before, after)
  {
    hide Layer, LayerUnresolved, PairedItems, ItemsExact, ItemsMapped;
  }

  lemma TracksOneMore(idMap: map<Id, Id>, mappings: seq<EntityMapping>, m: EntityMapping)
    requires Tracks(idMap, mappings)
    ensures Tracks(idMap[m.legacy := m.canonical], mappings + [m])
  {
    var more := mappings + [m];
    assert m == more[|mappings|];
    var grown := idMap[m.legacy := m.canonical];
    forall id | id in grown
      ensures exists w | w in more :: w.legacy == id && w.canonical == grown[id]
    {
      if id != m.legacy {
        var w :| w in mappings && w.legacy == id && w.canonical == idMap[id];
        assert w in more;
      } else {
        assert m in more;
      }
    }
  }
}

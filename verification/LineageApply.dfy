/** The whole migration: plan, delete on a copy, verify, publish. */
module LineageApply {
  import opened LineageStore
  import opened LineageMatching
  import opened LineageGraph
  import opened LineageRelations
  import opened LineageLayers
  import opened LineagePlanner
  import opened LineageReasons
  import opened LineageMigration
  import opened LineageOwnership
  import opened LineageSoundness
  import opened LineageTheorems
  import opened LineagePublication
  import opened LineageAliases

  datatype Outcome = AlreadyPresent | PlanBlocked(reasons: set<Unresolved>) | DeletionFailed | PublicationFailed | Migrated

  function Counts(store: Store): map<Table, nat> {
    map table | table in DELETE_ORDER :: |Get(store, table)|
  }

  ghost predicate CountsRows(counts: map<Table, nat>, store: Store) {
    forall table | table in DELETE_ORDER :: table in counts && counts[table] == |Get(store, table)|
  }

  /** The database, the aliases and the report that a successful migration publishes: the alias file lists each
      declared pair of revisions once, in order, and leads from removed identifiers to present ones. */
  ghost predicate PublishedContents(entries: map<Path, Content>, outputs: seq<Path>, c: Approval)
    requires |outputs| == 3
  {
    && (forall output | output in outputs :: output in entries)
    && entries[outputs[0]] == Rows(Survivors(c.store, c.Mappings()))
    && entries[outputs[1]].Aliases? && AliasFile(c.manifest, entries[outputs[1]].entries)
    && (forall a | a in entries[outputs[1]].entries :: LeadsOver(Survivors(c.store, c.Mappings()), a))
    && entries[outputs[2]].Report?
    && CountsRows(entries[outputs[2]].before, c.store)
    && CountsRows(entries[outputs[2]].after, Survivors(c.store, c.Mappings()))
    && Counted(entries[outputs[2]].removed, c.Mappings(), |DELETE_ORDER|)
  }

  method ApplyLegacyLineageMigration(source: Store, manifest: Manifest, directory: Directory,
                                     outputs: seq<Path>, temporaries: seq<Path>, faults: Faults)
      returns (outcome: Outcome, ghost c: Approval)
    requires |outputs| == 3 && Distinct(temporaries, outputs) && Covers(faults, 3)
    requires WellFormed(source) && Decoded(manifest)
    modifies directory
    ensures c.store == source && c.manifest == manifest
    // Nothing that was there is replaced or removed, the source database included.
    ensures forall p | p in old(directory.entries) :: p in directory.entries && directory.entries[p] == old(directory.entries[p])
    ensures outcome.AlreadyPresent? <==> exists p | p in outputs + temporaries :: p in old(directory.entries)
    ensures outcome.AlreadyPresent? || outcome.PlanBlocked? ==> directory.entries == old(directory.entries)
    ensures !outcome.AlreadyPresent? ==>
      (outcome.PlanBlocked? <==> !(GraphEquivalent(source, manifest, |manifest|) && RelationsExact(source, c.idMap, LegacyDocuments(manifest))))
    // The identifier map is that of the graph whenever the graph is equivalent, READY or not.
    ensures !outcome.AlreadyPresent? && GraphEquivalent(source, manifest, |manifest|) ==>
      Tracks(c.idMap, c.graph) && GraphMapped(source, manifest, |manifest|, c.graph)
    ensures outcome.PlanBlocked? ==> outcome.reasons != {} && forall u | u in outcome.reasons ::
      GraphReason(source, manifest, u) || RelationReason(source, c.idMap, LegacyDocuments(manifest), u)
    ensures !outcome.AlreadyPresent? && !outcome.PlanBlocked? ==> c.Valid()
    ensures !outcome.AlreadyPresent? && !outcome.PlanBlocked? ==> (outcome.DeletionFailed? <==> !(c.AllRevisionsDeclared() && c.NoChains()))
    ensures !outcome.AlreadyPresent? && !outcome.PlanBlocked? && !outcome.DeletionFailed? ==>
      (outcome.Migrated? <==> Succeeds(old(directory.entries), outputs, faults))
    ensures outcome.Migrated? ==> PublishedContents(directory.entries, outputs, c)
    ensures outcome.PublicationFailed? ==> (NoneNew(old(directory.entries), directory.entries, outputs)
                                            <==> LeavesNothing(old(directory.entries), outputs, faults))
    ensures outcome.DeletionFailed? ==> NoneNew(old(directory.entries), directory.entries, outputs)
  {
    hide WellFormed, Decoded, Certified, Deletable, VerifiedState, Survivors, GraphEquivalent, RelationsExact, UniqueIds, Covers, Counted,
      Counts, CountsRows, AliasFile, LeadsOver, Declares, Succeeds, LeavesNothing, GraphReason, RelationReason, Tracks, GraphMapped;
    KeyedSource(source);
    var planner := new Planner(source);
    ghost var graph: seq<EntityMapping>, relations: seq<EntityMapping>;
    if exists p | p in outputs + temporaries :: p in directory.entries {
      return AlreadyPresent, Approval(source, manifest, [], [], map[]);
    }
    var plan;
    plan, graph, relations := planner.PlanMigration(manifest);
    c := Approval(source, manifest, graph, relations, planner.idMap);
    if !plan.ready {
      return PlanBlocked(plan.unresolved), c;
    }
    MigrationPasses(c);
    var copy := new Database(source);
    var ok, removed := copy.Migrate(plan.mappings);
    assert plan.mappings == c.Mappings();
    if !ok {
      outcome := AbandonCopy(source, directory, outputs, temporaries, faults);
      return outcome, c;
    }
    var aliases := AliasEntries(manifest);
    AllLeadOver(c, aliases);
    CountsMean(source);
    CountsMean(copy.rows);
    var contents := [Rows(copy.rows), Aliases(aliases), Report(Counts(source), Counts(copy.rows), removed)];
    ok := PublishContents(directory, outputs, temporaries, contents, faults);
    outcome := if ok then Migrated else PublicationFailed;
  }

  lemma CountsMean(store: Store)
    ensures CountsRows(Counts(store), store)
  {
  }

  lemma AllLeadOver(c: Approval, entries: seq<Alias>)
    requires c.Valid() && c.AllRevisionsDeclared() && c.NoChains() && AliasFile(c.manifest, entries)
    ensures forall a | a in entries :: LeadsOver(Survivors(c.store, c.Mappings()), a)
  {
    hide LeadsOver, Declares, Survivors;
    forall a | a in entries ensures LeadsOver(Survivors(c.store, c.Mappings()), a) { AliasesLeadOver(c, a); }
  }

  lemma KeyedSource(source: Store)
    requires WellFormed(source)
    ensures Keyed(source)
  {
  }

  /** The copy could not be migrated: its temporary is discarded. */
  method AbandonCopy(source: Store, directory: Directory, outputs: seq<Path>, temporaries: seq<Path>, faults: Faults)
      returns (outcome: Outcome)
    requires |outputs| == 3 && Distinct(temporaries, outputs) && Covers(faults, 3)
    requires forall p | p in outputs + temporaries :: p !in directory.entries
    modifies directory
    ensures outcome == DeletionFailed
    ensures forall p | p in old(directory.entries) :: p in directory.entries && directory.entries[p] == old(directory.entries[p])
    ensures NoneNew(old(directory.entries), directory.entries, outputs)
  {
    directory.entries := directory.entries[temporaries[0] := Rows(source)];
    ghost var copied := directory.entries;
    directory.Discard(temporaries, faults.discard);
    ghost var gone :| gone <= FirstPaths(temporaries, 3) && directory.entries == copied - gone;
    FirstPathsMembers(temporaries, 3);
    assert forall p | p in gone :: p in temporaries;
    outcome := DeletionFailed;
  }

  /** The temporaries are written and published. */
  method PublishContents(directory: Directory, outputs: seq<Path>, temporaries: seq<Path>, contents: seq<Content>, faults: Faults)
      returns (ok: bool)
    requires |outputs| == |contents| == 3 && Distinct(temporaries, outputs) && Covers(faults, 3)
    requires forall p | p in outputs + temporaries :: p !in directory.entries
    modifies directory
    ensures ok <==> Succeeds(old(directory.entries), outputs, faults)
    ensures forall p | p in old(directory.entries) :: p in directory.entries && directory.entries[p] == old(directory.entries[p])
    ensures ok ==> forall i | 0 <= i < 3 :: outputs[i] in directory.entries && directory.entries[outputs[i]] == contents[i]
    ensures !ok ==> (NoneNew(old(directory.entries), directory.entries, outputs)
                     <==> LeavesNothing(old(directory.entries), outputs, faults))
  {
    hide Succeeds, LeavesNothing, AllPublished, NoneNew, Untouched;
    ghost var before := directory.entries;
    WriteTemporaries(directory, temporaries, contents);
    ghost var written := directory.entries;
    OutputsStillAbsent(before, written, outputs, temporaries, faults);
    ok := directory.PublishOrDiscard(temporaries, outputs, faults);
    Published(before, written, directory.entries, temporaries, outputs, contents);
  }

  method WriteTemporaries(directory: Directory, temporaries: seq<Path>, contents: seq<Content>)
    requires |temporaries| == |contents| == 3 && NoRepeats(temporaries)
    modifies directory
    ensures directory.entries ==
      old(directory.entries)[temporaries[0] := contents[0]][temporaries[1] := contents[1]][temporaries[2] := contents[2]]
    ensures Written(old(directory.entries), directory.entries, temporaries, contents)
  {
    directory.entries := directory.entries[temporaries[0] := contents[0]];
    directory.entries := directory.entries[temporaries[1] := contents[1]];
    directory.entries := directory.entries[temporaries[2] := contents[2]];
    assert temporaries[0] != temporaries[1] && temporaries[1] != temporaries[2] && temporaries[0] != temporaries[2];
  }

  /** The temporaries hold the contents, and nothing else was touched. */
  ghost predicate Written(before: map<Path, Content>, written: map<Path, Content>, temporaries: seq<Path>, contents: seq<Content>)
    requires |temporaries| == |contents|
  {
    && (forall i | 0 <= i < |temporaries| :: temporaries[i] in written && written[temporaries[i]] == contents[i])
    && (forall p | p in before && p !in temporaries :: p in written && written[p] == before[p])
    && (forall p | p in written :: p in before || p in temporaries)
  }

  /** What publishing from written temporaries leaves, seen from before they were written. */
  lemma Published(before: map<Path, Content>, written: map<Path, Content>, after: map<Path, Content>, temporaries: seq<Path>, outputs: seq<Path>,
                  contents: seq<Content>)
    requires |temporaries| == |contents| == |outputs| && Written(before, written, temporaries, contents)
    requires forall p | p in outputs + temporaries :: p !in before
    requires Distinct(temporaries, outputs) && Untouched(written, after, temporaries, outputs)
    ensures forall p | p in before :: p in after && after[p] == before[p]
    ensures AllPublished(written, after, temporaries, outputs) ==>
              forall i | 0 <= i < |outputs| :: outputs[i] in after && after[outputs[i]] == contents[i]
    ensures NoneNew(written, after, outputs) <==> NoneNew(before, after, outputs)
  {
    forall p | p in before ensures p !in temporaries && p !in outputs {
      assert p in temporaries ==> p in outputs + temporaries;
      assert p in outputs ==> p in outputs + temporaries;
    }
    forall p | p in outputs ensures p !in before && p !in written {
      assert p in outputs + temporaries;
      var i :| 0 <= i < |outputs| && outputs[i] == p;
      assert forall j | 0 <= j < |temporaries| :: temporaries[j] != outputs[i];
    }
  }

  lemma OutputsStillAbsent(before: map<Path, Content>, written: map<Path, Content>, outputs: seq<Path>, temporaries: seq<Path>, faults: Faults)
    requires Distinct(temporaries, outputs) && Covers(faults, |outputs|)
    requires forall p | p in outputs :: p !in before && p !in written
    ensures Succeeds(before, outputs, faults) <==> Succeeds(written, outputs, faults)
    ensures LeavesNothing(before, outputs, faults) <==> LeavesNothing(written, outputs, faults)
  {
    SameBlocked(before, written, outputs, faults, 0);
  }

  lemma {:induction false} SameBlocked(before: map<Path, Content>, written: map<Path, Content>, outputs: seq<Path>, faults: Faults, i: nat)
    requires i <= |outputs| && Covers(faults, |outputs|)
    requires forall p | p in outputs :: p !in before && p !in written
    ensures Blocked(before, outputs, faults, i) == Blocked(written, outputs, faults, i)
    decreases |outputs| - i
  {
    if i < |outputs| && faults.link[i].Fine? { SameBlocked(before, written, outputs, faults, i + 1); }
  }
}

/** Publishing the migrated files: hard links to the final names, then the temporary names are
    removed; on any exception what was published is withdrawn.

    Any call may raise, either instead of its effect or just after it. */
module LineagePublication {
  import opened LineageStore

  type Path = string

  datatype Alias = Alias(legacyDocument: Id, canonicalDocument: Id, sourceHash: string, legacyRevision: Id, canonicalRevision: Id)

  datatype Content =
    | Other(text: string)
    | Rows(rows: Store)
    | Aliases(entries: seq<Alias>)
    | Report(before: map<Table, nat>, after: map<Table, nat>, removed: map<Table, nat>)

  datatype Fault = Fine | Refused | Interrupted

  /** The fault met by each call: linking, unlinking a temporary, withdrawing an output, and
      discarding a temporary.  A path meets each of them at most once. */
  datatype Faults = Faults(link: seq<Fault>, unlink: seq<Fault>, withdraw: seq<Fault>, discard: seq<Fault>)

  ghost predicate Covers(faults: Faults, n: nat) {
    |faults.link| == |faults.unlink| == |faults.withdraw| == |faults.discard| == n
  }

  ghost predicate Distinct(temporaries: seq<Path>, finals: seq<Path>) {
    && |temporaries| == |finals|
    && (forall i, j | 0 <= i < j < |finals| :: finals[i] != finals[j] && temporaries[i] != temporaries[j])
    && (forall i, j | 0 <= i < |finals| && 0 <= j < |finals| :: finals[i] != temporaries[j])
  }

  ghost predicate NoRepeats(paths: seq<Path>) { forall i, j | 0 <= i < j < |paths| :: paths[i] != paths[j] }

  ghost predicate AllPresent(entries: map<Path, Content>, paths: seq<Path>) { forall path | path in paths :: path in entries }

  function FirstPaths(paths: seq<Path>, n: nat): set<Path>
    requires n <= |paths|
  {
    set i | 0 <= i < n :: paths[i]
  }

  /** The first final path that cannot be linked. */
  function Blocked(before: map<Path, Content>, finals: seq<Path>, faults: Faults, i: nat): (k: nat)
    requires i <= |finals| && Covers(faults, |finals|)
    ensures i <= k <= |finals|
    ensures forall j | i <= j < k :: finals[j] !in before && faults.link[j].Fine?
    ensures k < |finals| ==> finals[k] in before || !faults.link[k].Fine?
    decreases |finals| - i
  {
    if i < |finals| && finals[i] !in before && faults.link[i].Fine? then Blocked(before, finals, faults, i + 1) else i
  }

  /** Withdrawing outputs `k - 1` down to 0 leaves none of them behind. */
  predicate AllWithdrawn(faults: seq<Fault>, k: nat)
    requires k <= |faults|
  {
    forall j | 0 <= j < k :: faults[j].Fine? || (j == 0 && faults[j].Interrupted?)
  }

  predicate Withdrawn(faults: Faults, k: nat)
    requires k <= |faults.withdraw|
  {
    AllWithdrawn(faults.withdraw, k)
  }

  /** The publication succeeds: no output is there yet and no call raises. */
  predicate Succeeds(before: map<Path, Content>, finals: seq<Path>, faults: Faults)
    requires |faults.link| == |faults.unlink| == |finals|
  {
    forall i | 0 <= i < |finals| :: finals[i] !in before && faults.link[i].Fine? && faults.unlink[i].Fine?
  }

  /** The link that failed took effect all the same. */
  predicate Extra(before: map<Path, Content>, finals: seq<Path>, faults: Faults)
    requires |faults.link| == |faults.unlink| == |faults.withdraw| == |faults.discard| == |finals|
  {
    var k := Blocked(before, finals, faults, 0);
    k < |finals| && finals[k] !in before && faults.link[k].Interrupted?
  }

  /** A failed publication leaves nothing behind: the link that failed was not interrupted after
      taking effect, and every output published so far is withdrawn. */
  predicate LeavesNothing(before: map<Path, Content>, finals: seq<Path>, faults: Faults)
    requires |faults.link| == |faults.unlink| == |faults.withdraw| == |faults.discard| == |finals|
  {
    !Extra(before, finals, faults) && Withdrawn(faults, Blocked(before, finals, faults, 0))
  }

  // ---------------------------------------------------------------- what a publication leaves

  /** Outputs `0` to `k - 1` are linked, beside everything that was there before. */
  ghost predicate Linked(before: map<Path, Content>, after: map<Path, Content>, temporaries: seq<Path>, finals: seq<Path>, k: nat)
    requires k <= |finals| == |temporaries|
  {
    && after.Keys == before.Keys + FirstPaths(finals, k)
    && (forall p | p in before :: after[p] == before[p])
    && (forall i | 0 <= i < k :: finals[i] !in before && temporaries[i] in before && after[finals[i]] == before[temporaries[i]])
  }

  lemma NothingLinked(before: map<Path, Content>, temporaries: seq<Path>, finals: seq<Path>)
    requires |finals| == |temporaries|
    ensures Linked(before, before, temporaries, finals, 0)
  {
  }

  lemma LinkedOneMore(before: map<Path, Content>, after: map<Path, Content>, temporaries: seq<Path>, finals: seq<Path>, k: nat)
    requires k < |finals| && Distinct(temporaries, finals) && Linked(before, after, temporaries, finals, k)
    requires temporaries[k] in before
    ensures temporaries[k] in after
    ensures finals[k] in after <==> finals[k] in before
    ensures finals[k] !in before ==> Linked(before, after[finals[k] := after[temporaries[k]]], temporaries, finals, k + 1)
  {
    assert finals[k] !in FirstPaths(finals, k);
    assert FirstPaths(finals, k + 1) == FirstPaths(finals, k) + {finals[k]};
  }

  /** Everything that was there before, other than the temporaries, is untouched; nothing but
      outputs is new. */
  ghost predicate Untouched(before: map<Path, Content>, after: map<Path, Content>, temporaries: seq<Path>, finals: seq<Path>) {
    && (forall p | p in before && p !in temporaries :: p in after && after[p] == before[p])
    && (forall p | p in after :: p in before || p in finals)
  }

  ghost predicate NoneNew(before: map<Path, Content>, after: map<Path, Content>, finals: seq<Path>) {
    forall path | path in finals && path !in before :: path !in after
  }

  /** All outputs are published with the temporary contents, and no temporary is left. */
  ghost predicate AllPublished(before: map<Path, Content>, after: map<Path, Content>, temporaries: seq<Path>, finals: seq<Path>)
    requires |temporaries| == |finals|
  {
    forall i | 0 <= i < |finals| ::
      && finals[i] !in before && temporaries[i] in before && temporaries[i] !in after
      && finals[i] in after && after[finals[i]] == before[temporaries[i]]
  }

  lemma FirstPathsMembers(paths: seq<Path>, n: nat)
    requires n <= |paths|
    ensures forall p :: p in FirstPaths(paths, n) <==> p in paths[..n]
    ensures forall p :: p in FirstPaths(paths, |paths|) <==> p in paths
  {
  }

  lemma Published(before: map<Path, Content>, linked: map<Path, Content>, temporaries: seq<Path>, finals: seq<Path>)
    requires Distinct(temporaries, finals) && Linked(before, linked, temporaries, finals, |finals|)
    ensures var after := linked - FirstPaths(temporaries, |temporaries|);
            AllPublished(before, after, temporaries, finals) && Untouched(before, after, temporaries, finals)
  {
    FirstPathsMembers(finals, |finals|);
    FirstPathsMembers(temporaries, |temporaries|);
  }

  /** After a failure: `k` outputs were recorded as published, and `linked` holds one more if its
      link was interrupted. */
  lemma Failed(before: map<Path, Content>, linked: map<Path, Content>, after: map<Path, Content>,
               temporaries: seq<Path>, finals: seq<Path>, k: nat, extra: bool, lostTemporaries: set<Path>, withdrawn: set<Path>)
    requires Distinct(temporaries, finals) && k <= |finals| && (extra ==> k < |finals|)
    requires Linked(before, linked, temporaries, finals, if extra then k + 1 else k)
    requires lostTemporaries <= FirstPaths(temporaries, |temporaries|) && withdrawn <= FirstPaths(finals, k)
    requires after == linked - lostTemporaries - withdrawn
    ensures Untouched(before, after, temporaries, finals)
    ensures NoneNew(before, after, finals) <==> !extra && forall path | path in finals[..k] :: path !in after
  {
    FirstPathsMembers(finals, k);
    FirstPathsMembers(temporaries, |temporaries|);
    if extra {
      FirstPathsMembers(finals, k + 1);
      assert finals[k] in FirstPaths(finals, k + 1) && finals[k] !in FirstPaths(finals, k);
      assert finals[k] in after && finals[k] in finals;
    }
    assert forall path | path in finals[..k] :: path in finals && path !in before;
  }

  class Directory {
    var entries: map<Path, Content>

    constructor (entries: map<Path, Content>)
      ensures this.entries == entries
    {
      this.entries := entries;
    }

    /** A hard link never replaces an existing path. */
    method Link(source: Path, target: Path, fault: Fault) returns (ok: bool)
      modifies this
      ensures ok <==> source in old(entries) && target !in old(entries) && fault.Fine?
      ensures entries == if source in old(entries) && target !in old(entries) && !fault.Refused?
                         then old(entries)[target := old(entries)[source]] else old(entries)
    {
      if source in entries && target !in entries && !fault.Refused? {
        entries := entries[target := entries[source]];
        return fault.Fine?;
      }
      return false;
    }

    method Unlink(path: Path, missingOk: bool, fault: Fault) returns (ok: bool)
      modifies this
      ensures ok <==> fault.Fine? && (missingOk || path in old(entries))
      ensures entries == if fault.Refused? then old(entries) else old(entries) - {path}
    {
      ok := fault.Fine? && (missingOk || path in entries);
      if !fault.Refused? { entries := entries - {path}; }
    }

    method LinkAll(temporaries: seq<Path>, finals: seq<Path>, faults: Faults) returns (ok: bool, published: seq<Path>)
      requires Distinct(temporaries, finals) && Covers(faults, |finals|)
      requires forall i | 0 <= i < |temporaries| :: temporaries[i] in entries
      modifies this
      ensures published == finals[..Blocked(old(entries), finals, faults, 0)] && |published| == Blocked(old(entries), finals, faults, 0)
      ensures ok <==> |published| == |finals|
      ensures Linked(old(entries), entries, temporaries, finals, |published| + if Extra(old(entries), finals, faults) then 1 else 0)
    {
      hide Linked;
      published := [];
      NothingLinked(entries, temporaries, finals);
      for i := 0 to |finals|
        invariant published == finals[..i] && Blocked(old(entries), finals, faults, 0) == Blocked(old(entries), finals, faults, i)
        invariant Linked(old(entries), entries, temporaries, finals, i)
      {
        LinkedOneMore(old(entries), entries, temporaries, finals, i);
        ok := Link(temporaries[i], finals[i], faults.link[i]);
        if !ok { return; }
        published := published + [finals[i]];
      }
      ok := true;
    }

    /** Removes the temporary names in order, stopping at the first exception. */
    method UnlinkAll(paths: seq<Path>, faults: seq<Fault>) returns (ok: bool)
      requires |faults| == |paths| && AllPresent(entries, paths) && NoRepeats(paths)
      modifies this
      ensures ok <==> forall i | 0 <= i < |paths| :: faults[i].Fine?
      ensures ok ==> entries == old(entries) - FirstPaths(paths, |paths|)
      ensures LessTemporaries(old(entries), entries, paths)
    {
      for i := 0 to |paths|
        invariant entries == old(entries) - FirstPaths(paths, i)
        invariant forall j | 0 <= j < i :: faults[j].Fine?
      {
        assert paths[i] !in FirstPaths(paths, i);
        assert FirstPaths(paths, i + 1) == FirstPaths(paths, i) + {paths[i]};
        ok := Unlink(paths[i], false, faults[i]);
        if !ok {
          ghost var gone := FirstPaths(paths, i) + if faults[i].Refused? then {} else {paths[i]};
          assert gone <= FirstPaths(paths, |paths|) && entries == old(entries) - gone;
          return;
        }
      }
      ok := true;
    }

    /** Withdraws what was published, the newest first, stopping at the first exception. */
    method Withdraw(published: seq<Path>, faults: seq<Fault>)
      requires |published| <= |faults| && AllPresent(entries, published) && NoRepeats(published)
      modifies this
      ensures exists gone | gone <= FirstPaths(published, |published|) :: entries == old(entries) - gone
      ensures AllWithdrawn(faults, |published|) <==> forall path | path in published :: path !in entries
    {
      var j := |published|;
      ghost var gone: set<Path> := {};
      while j > 0
        invariant 0 <= j <= |published| && gone <= FirstPaths(published, |published|)
        invariant entries == old(entries) - gone
        invariant gone == set i | j <= i < |published| :: published[i]
        invariant forall i | j <= i < |published| :: faults[i].Fine?
      {
        j := j - 1;
        assert published[j] !in gone;
        ghost var more := gone + {published[j]};
        assert more == set i | j <= i < |published| :: published[i];
        var ok := Unlink(published[j], true, faults[j]);
        if !ok {
          assert faults[j].Refused? ==> published[j] in entries;
          if j > 0 { assert published[0] in entries; }
          if faults[j].Interrupted? { gone := more; }
          assert entries == old(entries) - gone;
          return;
        }
        gone := more;
      }
    }

    method PublishAtomically(temporaries: seq<Path>, finals: seq<Path>, faults: Faults) returns (ok: bool)
      requires Distinct(temporaries, finals) && Covers(faults, |finals|)
      requires forall i | 0 <= i < |temporaries| :: temporaries[i] in entries
      modifies this
      ensures ok <==> Succeeds(old(entries), finals, faults)
      ensures Untouched(old(entries), entries, temporaries, finals)
      ensures ok ==> AllPublished(old(entries), entries, temporaries, finals)
      ensures !ok ==> (NoneNew(old(entries), entries, finals) <==> LeavesNothing(old(entries), finals, faults))
    {
      hide Linked, Untouched, AllPublished, NoneNew, Distinct, FirstPaths, Succeeds, LeavesNothing, Withdrawn, LessTemporaries,
        AllWithdrawn, AllPresent, NoRepeats, Blocked;
      SuccessNeedsEveryLink(old(entries), finals, faults);
      var published;
      ok, published := LinkAll(temporaries, finals, faults);
      ghost var linked := entries;
      if ok {
        ok := UnlinkTemporaries(temporaries, finals, faults, old(entries));
        if ok { return; }
      }
      PublishedStay(old(entries), linked, entries, temporaries, finals, faults);
      ghost var unlinked := entries;
      Withdraw(published, faults.withdraw);
      FailedPublication(old(entries), linked, unlinked, entries, temporaries, finals, faults);
    }

    /** The second half of a publication whose links all succeeded. */
    method UnlinkTemporaries(temporaries: seq<Path>, finals: seq<Path>, faults: Faults, ghost before: map<Path, Content>) returns (ok: bool)
      requires Distinct(temporaries, finals) && Covers(faults, |finals|) && Blocked(before, finals, faults, 0) == |finals|
      requires Linked(before, entries, temporaries, finals, |finals|)
      modifies this
      ensures ok <==> Succeeds(before, finals, faults)
      ensures ok ==> AllPublished(before, entries, temporaries, finals) && Untouched(before, entries, temporaries, finals)
      ensures LessTemporaries(old(entries), entries, temporaries)
    {
      hide Linked, Untouched, AllPublished, FirstPaths, Succeeds, LessTemporaries, Distinct, AllPresent, NoRepeats, Blocked;
      SuccessNeedsEveryLink(before, finals, faults);
      TemporariesStay(before, entries, temporaries, finals);
      Published(before, entries, temporaries, finals);
      ok := UnlinkAll(temporaries, faults.unlink);
    }

    /** Drops the temporaries that are left, stopping at the first exception. */
    method Discard(temporaries: seq<Path>, faults: seq<Fault>)
      requires |faults| == |temporaries|
      modifies this
      ensures exists gone | gone <= FirstPaths(temporaries, |temporaries|) :: entries == old(entries) - gone
      ensures (forall i | 0 <= i < |temporaries| :: faults[i].Fine?) ==>
                entries == old(entries) - FirstPaths(temporaries, |temporaries|)
    {
      for i := 0 to |temporaries|
        invariant entries == old(entries) - FirstPaths(temporaries, i)
      {
        assert FirstPaths(temporaries, i + 1) == FirstPaths(temporaries, i) + {temporaries[i]};
        ghost var gone := FirstPaths(temporaries, i) + if faults[i].Refused? then {} else {temporaries[i]};
        var ok := Unlink(temporaries[i], true, faults[i]);
        if !ok {
          assert gone <= FirstPaths(temporaries, |temporaries|) && entries == old(entries) - gone;
          return;
        }
      }
    }

    /** Publication and the clean-up around it. */
    method PublishOrDiscard(temporaries: seq<Path>, finals: seq<Path>, faults: Faults) returns (ok: bool)
      requires Distinct(temporaries, finals) && Covers(faults, |finals|)
      requires forall i | 0 <= i < |temporaries| :: temporaries[i] in entries
      modifies this
      ensures ok <==> Succeeds(old(entries), finals, faults)
      ensures Untouched(old(entries), entries, temporaries, finals)
      ensures ok ==> AllPublished(old(entries), entries, temporaries, finals)
      ensures !ok ==> (NoneNew(old(entries), entries, finals) <==> LeavesNothing(old(entries), finals, faults))
      ensures !ok && (forall i | 0 <= i < |temporaries| :: faults.discard[i].Fine?) ==>
                forall path | path in temporaries :: path !in entries
    {
      ok := PublishAtomically(temporaries, finals, faults);
      if !ok {
        ghost var failed := entries;
        Discard(temporaries, faults.discard);
        ghost var gone :| gone <= FirstPaths(temporaries, |temporaries|) && entries == failed - gone;
        FirstPathsMembers(temporaries, |temporaries|);
        Discarded(old(entries), failed, temporaries, finals, gone);
      }
    }
  }

  lemma Discarded(before: map<Path, Content>, failed: map<Path, Content>, temporaries: seq<Path>, finals: seq<Path>, gone: set<Path>)
    requires Distinct(temporaries, finals) && Untouched(before, failed, temporaries, finals)
    requires forall p | p in gone :: p in temporaries
    ensures Untouched(before, failed - gone, temporaries, finals)
    ensures NoneNew(before, failed, finals) <==> NoneNew(before, failed - gone, finals)
  {
    assert forall path | path in finals :: path !in gone;
  }

  /** A publication succeeds exactly when no link is blocked and every temporary goes quietly. */
  lemma {:induction false} SuccessNeedsEveryLink(before: map<Path, Content>, finals: seq<Path>, faults: Faults)
    requires Covers(faults, |finals|)
    ensures Succeeds(before, finals, faults) <==>
            Blocked(before, finals, faults, 0) == |finals| && forall i | 0 <= i < |finals| :: faults.unlink[i].Fine?
  {
  }

  /** Nothing but temporaries is gone. */
  ghost predicate LessTemporaries(before: map<Path, Content>, after: map<Path, Content>, temporaries: seq<Path>) {
    exists gone | gone <= FirstPaths(temporaries, |temporaries|) :: after == before - gone
  }

  lemma TemporariesStay(before: map<Path, Content>, linked: map<Path, Content>, temporaries: seq<Path>, finals: seq<Path>)
    requires Distinct(temporaries, finals) && Linked(before, linked, temporaries, finals, |finals|)
    ensures AllPresent(linked, temporaries) && NoRepeats(temporaries) && |temporaries| == |finals|
  {
  }

  /** What was published is still there before it is withdrawn. */
  lemma {:induction false} PublishedStay(before: map<Path, Content>, linked: map<Path, Content>, unlinked: map<Path, Content>,
                      temporaries: seq<Path>, finals: seq<Path>, faults: Faults)
    requires Distinct(temporaries, finals) && Covers(faults, |finals|)
    requires Linked(before, linked, temporaries, finals, Blocked(before, finals, faults, 0) + if Extra(before, finals, faults) then 1 else 0)
    requires unlinked == linked || LessTemporaries(linked, unlinked, temporaries)
    ensures AllPresent(unlinked, finals[..Blocked(before, finals, faults, 0)]) && NoRepeats(finals[..Blocked(before, finals, faults, 0)])
    ensures exists lost | lost <= FirstPaths(temporaries, |temporaries|) :: unlinked == linked - lost
  {
    FirstPathsMembers(temporaries, |temporaries|);
    if unlinked == linked { assert unlinked == linked - {}; }
    hide FirstPaths, Blocked, Extra;
  }

  lemma {:induction false} FailedPublication(before: map<Path, Content>, linked: map<Path, Content>, unlinked: map<Path, Content>,
                                             after: map<Path, Content>,
                          temporaries: seq<Path>, finals: seq<Path>, faults: Faults)
    requires Distinct(temporaries, finals) && Covers(faults, |finals|)
    requires Linked(before, linked, temporaries, finals, Blocked(before, finals, faults, 0) + if Extra(before, finals, faults) then 1 else 0)
    requires exists lost | lost <= FirstPaths(temporaries, |temporaries|) :: unlinked == linked - lost
    requires var published := finals[..Blocked(before, finals, faults, 0)];
             && (exists gone | gone <= FirstPaths(published, |published|) :: after == unlinked - gone)
             && (AllWithdrawn(faults.withdraw, |published|) <==> forall path | path in published :: path !in after)
    ensures Untouched(before, after, temporaries, finals)
    ensures NoneNew(before, after, finals) <==> LeavesNothing(before, finals, faults)
  {
    var k := Blocked(before, finals, faults, 0);
    var published := finals[..k];
    var lost :| lost <= FirstPaths(temporaries, |temporaries|) && unlinked == linked - lost;
    var gone :| gone <= FirstPaths(published, |published|) && after == unlinked - gone;
    FirstPathsMembers(published, k);
    FirstPathsMembers(finals, k);
    hide Linked, Untouched, NoneNew, Distinct, AllWithdrawn;
    Failed(before, linked, after, temporaries, finals, k, Extra(before, finals, faults), lost, gone);
  }

  // ---------------------------------------------------------------- failures that leave an output behind

  const TEMPORARIES: seq<Path> := ["t0", "t1", "t2"]
  const OUTPUTS: seq<Path> := ["database", "aliases", "report"]
  const QUIET: seq<Fault> := [Fine, Fine, Fine]

  /** The first link takes effect and then raises: the output is not yet recorded as published. */
  const LINK_INTERRUPTED := Faults([Interrupted, Fine, Fine], QUIET, QUIET, QUIET)

  /** The second link raises, and so does the withdrawal of the first output. */
  const WITHDRAWAL_REFUSED := Faults([Fine, Refused, Fine], QUIET, [Refused, Fine, Fine], QUIET)

  lemma LeftoverFaults(before: map<Path, Content>, faults: Faults)
    requires faults == LINK_INTERRUPTED || faults == WITHDRAWAL_REFUSED
    requires forall path | path in OUTPUTS :: path !in before
    ensures Covers(faults, |OUTPUTS|) && !Succeeds(before, OUTPUTS, faults) && !LeavesNothing(before, OUTPUTS, faults)
  {
    assert OUTPUTS[0] !in before && OUTPUTS[1] !in before;
    if faults == LINK_INTERRUPTED {
      assert Blocked(before, OUTPUTS, faults, 0) == 0;
    } else {
      assert Blocked(before, OUTPUTS, faults, 1) == 1;
      assert Blocked(before, OUTPUTS, faults, 0) == 1;
      assert faults.link[1].Refused? && faults.withdraw[0].Refused?;
      assert !Withdrawn(faults, 1);
    }
  }

  lemma PathsDiffer()
    ensures Distinct(TEMPORARIES, OUTPUTS)
  {
    assert "t0"[1] != "t1"[1] && "t0"[1] != "t2"[1] && "t1"[1] != "t2"[1];
    assert |"t0"| == |"t1"| == |"t2"| == 2 && |"database"| == 8 && |"aliases"| == 7 && |"report"| == 6;
  }

  /** With either fault the publication into a directory without outputs fails and an output stays. */
  method PublishWithLeftover(contents: seq<Content>, faults: Faults) returns (directory: Directory, ok: bool)
    requires |contents| == 3 && (faults == LINK_INTERRUPTED || faults == WITHDRAWAL_REFUSED)
    ensures !ok && exists path | path in OUTPUTS :: path in directory.entries
  {
    PathsDiffer();
    var temporaries: map<Path, Content> := map[TEMPORARIES[0] := contents[0], TEMPORARIES[1] := contents[1], TEMPORARIES[2] := contents[2]];
    directory := new Directory(temporaries);
    LeftoverFaults(temporaries, faults);
    hide Distinct, Succeeds, LeavesNothing, Untouched, AllPublished;
    ok := directory.PublishOrDiscard(TEMPORARIES, OUTPUTS, faults);
  }
}

/** What holds of every run: any sequence of calls, each completed or cut short anywhere. */
module RunTheorems {
  import opened Options
  import opened RunDisk
  import opened RunPlans
  import opened RunSafety
  import opened RunLegality
  import opened RunLegalityA
  import opened RunLegalityB

  // ---------------------------------------------------------------- safety

  lemma {:induction false} PlanLegal(rt: Runtime, env: Env, d: Disk, call: Call)
    requires Inv(rt, d) && rt.WellFormed()
    ensures LegalFrom(rt, d, PlanOf(rt, env, d, call).actions)
  {
    match call
    case CallPrepare =>
      hide Inv, LegalFrom, Prepare;
      PrepareLegal(rt, env, d);
    case CallTrackA(source) =>
      hide Inv, LegalFrom, SubmitQuestionTrackA;
      SubmitQuestionTrackALegal(rt, env, d, source);
    case CallTrackB(source) =>
      hide Inv, LegalFrom, SubmitQuestionTrackB;
      SubmitQuestionTrackBLegal(rt, env, d, source);
    case Place(name, bytes) =>
      hide Inv, LegalFrom, Replay, Later;
      LegalNothing(rt, d);
      if d.made && (name == TrackA || name == TrackB) && name !in d.files {
        LegalSnoc(rt, d, [], Write(name, bytes));
        assert [] + [Write(name, bytes)] == [Write(name, bytes)];
      }
    case LegacyFinalizing(raw) =>
      LegacyFinalizingLegal(rt, d, raw);
  }

  lemma {:induction false} LegacyFinalizingLegal(rt: Runtime, d: Disk, raw: Bytes)
    requires Inv(rt, d)
    ensures LegalFrom(rt, d, PlanOf(rt, Env(true, true, true), d, LegacyFinalizing(raw)).actions)
  {
    hide Inv, LegalFrom, ChainedJournal, Replay, Later;
    InvJournal(rt, d);
    LegalNothing(rt, d);
    if Last(d) == Some(WaitingTrackB) && ValidTrackB(rt, d, External(raw)) {
      AppendEventLegal(rt, d, Finalizing, Sha256(raw));
    }
  }

  lemma StepSafe(rt: Runtime, d: Disk, step: Step)
    requires Inv(rt, d) && rt.WellFormed()
    ensures Inv(rt, Execute(rt, d, step)) && Later(d, Execute(rt, d, step))
  {
    hide Inv, Later, LegalFrom, PlanOf, Crash;
    PlanLegal(rt, step.env, d, step.call);
    LegalCrash(rt, d, PlanOf(rt, step.env, d, step.call).actions, step.cut, step.tear);
  }

  /** Every disk a run can leave, at any crash point, satisfies the invariant. */
  lemma {:induction false} RunSafe(rt: Runtime, steps: seq<Step>)
    requires rt.WellFormed()
    ensures Inv(rt, AfterRun(rt, steps))
    decreases |steps|
  {
    if steps == [] {
    } else {
      hide Inv, Execute;
      RunSafe(rt, steps[..|steps| - 1]);
      StepSafe(rt, AfterRun(rt, steps[..|steps| - 1]), steps[|steps| - 1]);
    }
  }

  /** Whatever happens after a point of a run: the journal only grows, published inputs and
      handoff artifacts keep their bytes, and of a finished run only the telemetry changes. */
  lemma {:induction false} RunLater(rt: Runtime, steps: seq<Step>, more: seq<Step>)
    requires rt.WellFormed()
    ensures Later(AfterRun(rt, steps), AfterRun(rt, steps + more))
    decreases |more|
  {
    hide Inv, Later, Execute;
    if more == [] {
      assert steps + more == steps;
      LaterItself(AfterRun(rt, steps));
    } else {
      var before := steps + more[..|more| - 1];
      RunLater(rt, steps, more[..|more| - 1]);
      RunSafe(rt, before);
      StepSafe(rt, AfterRun(rt, before), more[|more| - 1]);
      assert (steps + more)[..|steps + more| - 1] == before;
      LaterTransitive(AfterRun(rt, steps), AfterRun(rt, before), AfterRun(rt, steps + more));
    }
  }

  /** The packet this run may have, once FINALIZING is recorded. */
  function ExpectedPacket(rt: Runtime, d: Disk): Option<Doc> {
    if d.ParsedFile(TrackA).Some? && Recorded(d).Some?
    then rt.derive(rt.bundle, d.ParsedFile(TrackA).value, Recorded(d).value, rt.confidence)
    else None
  }

  lemma AcceptedIsExpected(rt: Runtime, env: Env, d: Disk, packet: Doc)
    requires Inv(rt, d) && ExistingFinalized(rt, env, d) == Found(packet)
    ensures |d.journal| >= 9 && BoundTrackB(d) && ValidatedBComplete(d)
    ensures rt.validA(d.ParsedFile(TrackA).value) && rt.validB(d.ParsedFile(TrackA).value, Recorded(d).value)
    ensures OwnTracks(rt, d)
    ensures ExpectedPacket(rt, d) == Some(packet)
  {
  }

  /** Crash safety of finalization: an accepted packet is the one derived from the run-local
      Track A and from the Track B document recorded by the FINALIZING event, both valid and both
      of this run. */
  lemma {:induction false} CrashSafety(rt: Runtime, steps: seq<Step>, env: Env, packet: Doc)
    requires rt.WellFormed()
    requires ExistingFinalized(rt, env, AfterRun(rt, steps)) == Found(packet)
    ensures var d := AfterRun(rt, steps);
            && |d.journal| >= 9 && d.journal[8].next == Finalizing
            && d.ParsedFile(TrackA).Some? && d.ParsedFile(TrackB).Some?
            && d.ParsedFile(TrackB) == Parse(d.journal[8].payload.of)
            && rt.validA(d.ParsedFile(TrackA).value)
            && rt.validB(d.ParsedFile(TrackA).value, d.ParsedFile(TrackB).value)
            && rt.ownRun(d.ParsedFile(TrackA).value) && rt.ownRun(d.ParsedFile(TrackB).value)
            && rt.derive(rt.bundle, d.ParsedFile(TrackA).value, d.ParsedFile(TrackB).value, rt.confidence)
               == Some(packet)
  {
    var d := AfterRun(rt, steps);
    RunSafe(rt, steps);
    AcceptedIsExpected(rt, env, d, packet);
  }

  /** One run never yields two packets, whatever is submitted in between. */
  lemma {:induction false} OnePacketPerRun(rt: Runtime, steps: seq<Step>, more: seq<Step>, env: Env, later: Env, first: Doc, second: Doc)
    requires rt.WellFormed()
    requires ExistingFinalized(rt, env, AfterRun(rt, steps)) == Found(first)
    requires ExistingFinalized(rt, later, AfterRun(rt, steps + more)) == Found(second)
    ensures first == second
  {
    var d, e := AfterRun(rt, steps), AfterRun(rt, steps + more);
    RunSafe(rt, steps);
    RunSafe(rt, steps + more);
    RunLater(rt, steps, more);
    AcceptedIsExpected(rt, env, d, first);
    AcceptedIsExpected(rt, later, e, second);
    assert Frozen(d, TrackA);
    assert e.journal[8] == d.journal[8];
  }

  /** The first three events carry the digest of the request, the next four that of the Track A
      bundle as it stands in the run directory, which is the prepared one once Track A is handed
      over. */
  lemma {:induction false} PreparationDigests(rt: Runtime, steps: seq<Step>, i: nat)
    requires rt.WellFormed() && i < |AfterRun(rt, steps).journal| && i < 7
    ensures var d := AfterRun(rt, steps);
            && (i < 3 ==> d.journal[i].payload == Sha256(Canonical(rt.request)))
            && (i >= 3 ==> BundleA in d.files && d.journal[i].payload == Sha256(d.files[BundleA]))
            && (i >= 3 && |d.journal| >= 8 ==> d.journal[i].payload == Sha256(Canonical(rt.bundle)))
  {
    hide AfterRun, SidecarsOk, DerivedOk, ReadyOk, ChainedJournal;
    RunSafe(rt, steps);
  }

  /** Journal order and handoff: the journal is a gapless chained prefix of the fixed word,
      and each waiting state implies that everything it hands over exists. */
  lemma {:induction false} JournalAndHandoff(rt: Runtime, steps: seq<Step>)
    requires rt.WellFormed()
    ensures var d := AfterRun(rt, steps);
            && ChainedJournal(d)
            && (Last(d) == Some(WaitingTrackB) || Last(d) == Some(Finalizing) || Last(d) == Some(ReadyForReview) ==>
                  Handoff(rt, d) && Parse(d.journal[7].payload.of) == d.ParsedFile(TrackA))
            && (Last(d) == Some(ReadyForReview) ==>
                  Accepted(rt, d) && d.journal[9].payload == Sha256(d.files[Packet]))
  {
    hide Execute, AfterRun, OrderedInputs, SidecarsOk, PreparationBound, DerivedOk;
    RunSafe(rt, steps);
    var d := AfterRun(rt, steps);
    if d.journal != [] { LastPosition(d); }
  }

  /** Track A, once its run-local file exists, keeps its bytes for ever; after the handoff so
      do the sidecars; after READY_FOR_REVIEW so does everything but the telemetry. */
  lemma {:induction false} PublishedTrackANeverChanges(rt: Runtime, steps: seq<Step>, more: seq<Step>)
    requires rt.WellFormed()
    ensures var d, e := AfterRun(rt, steps), AfterRun(rt, steps + more);
            && d.journal <= e.journal
            && (TrackA in d.files ==> Holds(e, TrackA, d.files[TrackA]))
            && (|d.journal| >= 8 ==>
                  forall name | Sidecar(name) :: name in d.files && Holds(e, name, d.files[name]))
            && (|d.journal| == 10 ==> e == d.(stages := e.stages, tornMetrics := e.tornMetrics))
  {
    hide Execute, AfterRun, OrderedInputs, SidecarsOk, PreparationBound, DerivedOk, ReadyOk, ChainedJournal;
    RunSafe(rt, steps);
    RunLater(rt, steps, more);
    var d := AfterRun(rt, steps);
    assert TrackA in d.files ==> Frozen(d, TrackA);
    if |d.journal| >= 8 {
      assert Frozen(d, BundleB) && Frozen(d, ActionB) && Frozen(d, ValidationA);
    }
  }
}

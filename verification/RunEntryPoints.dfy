/** What a caller may conclude from the outcome of an entry point, on the disk the call leaves. */
module RunEntryPoints {
  import opened Options
  import opened RunDisk
  import opened RunPlans
  import opened RunSafety
  import opened RunLegality
  import opened RunTelemetry
  import opened RunLegalityA
  import opened RunLegalityB
  import opened RunTheorems
  import opened RunRecovery

  /** The run is ready and its stored packet is `packet`. */
  ghost predicate ReadyWith(rt: Runtime, d: Disk, packet: Doc) {
    Last(d) == Some(ReadyForReview) && VerifiedPacket(rt, d) == Some(packet)
  }

  /** A packet is returned only with a ready run, and it is the expected one. */
  lemma ReadyIsExpected(rt: Runtime, d: Disk, packet: Doc)
    requires Inv(rt, d) && ReadyWith(rt, d, packet)
    ensures |d.journal| == 10 && Accepted(rt, d) && ExpectedPacket(rt, d) == Some(packet)
  {
    LastPosition(d);
    VerifiedIsExpected(rt, d, packet);
  }

  lemma JournalAt(rt: Runtime, d: Disk)
    requires Inv(rt, d) && d.journal != []
    ensures |d.journal| <= 10 && Last(d) == Some(WORD[|d.journal| - 1]) && d.made && Request in d.files && BundleA in d.files
  {
    InvJournal(rt, d);
    LastPosition(d);
  }

  lemma MarkReadyEnds(rt: Runtime, d: Disk, packet: Doc)
    requires Inv(rt, d) && |d.journal| >= 9 && Accepted(rt, d) && VerifiedPacket(rt, d) == Some(packet)
    requires MarkReady(d, packet).outcome.Done?
    ensures MarkReady(d, packet).outcome.packet == packet
    ensures ReadyWith(rt, Leaves(d, MarkReady(d, packet)), packet)
  {
    hide Inv, LegalFrom, Later, Replay, Accepted, AppendEvent;
    var hash := Sha256(d.files[Packet]);
    assert Accepted(rt, d) && hash == Sha256(d.files[Packet]);
    JournalAt(rt, d);
    AppendEventLegal(rt, d, ReadyForReview, hash);
    AppendNeverDone(d, ReadyForReview, hash);
    var p := AppendEvent(d, ReadyForReview, hash);
    assert p.actions + [] == p.actions;
    VerifiedByFiles(rt, d, Leaves(d, p));
  }

  lemma FoundMeans(rt: Runtime, env: Env, d: Disk)
    requires ExistingFinalized(rt, env, d).Found?
    ensures Accepted(rt, d) && VerifiedPacket(rt, d) == Some(ExistingFinalized(rt, env, d).packet)
  {
  }

  lemma ResumeNonEmptyEnds(rt: Runtime, env: Env, d: Disk)
    requires Inv(rt, d) && d.journal != []
    ensures var p := ResumeNonEmpty(rt, env, d);
            && (p.outcome.Done? ==> |d.journal| >= 9 && ReadyWith(rt, Leaves(d, p), p.outcome.packet))
            && (p.outcome.Ok? ==> p.actions == [] && 7 <= |d.journal| <= 9)
  {
    hide Inv, ExistingFinalized, MarkReady, Replay, Accepted, VerifiedPacket, ReadyWith, ChainedJournal;
    JournalAt(rt, d);
    var existing := ExistingFinalized(rt, env, d);
    if |d.journal| >= 9 && existing.Found? {
      FoundMeans(rt, env, d);
      if MarkReady(d, existing.packet).outcome.Done? { MarkReadyEnds(rt, d, existing.packet); }
      MarkReadyNeverOk(d, existing.packet);
    }
  }

  /** Resuming ends at a waiting or finalizing run with nothing to hand out, or at a ready one. */
  lemma ResumeEnds(rt: Runtime, env: Env, d: Disk)
    requires Inv(rt, d)
    ensures var p := Resume(rt, env, d);
            && (p.outcome.Done? ==> ReadyWith(rt, Leaves(d, p), p.outcome.packet) && |d.journal| >= 9)
            && (p.outcome.Ok? ==> 7 <= |Leaves(d, p).journal| <= 9)
  {
    assert d.ParsedFile(Request).Some? ==> d.made;
    hide Inv, LegalFrom, Later, Replay, EnsureJournal, ResumeNonEmpty, ReadyWith;
    if env.evidence && d.ParsedFile(Request).Some? && !d.tornTail {
      var p := EnsureJournal(d);
      EnsureJournalLegal(rt, d);
      if p.outcome.Ok? {
        var e := Leaves(d, p);
        ResumeNonEmptyEnds(rt, env, e);
        LegalNothing(rt, e);
        ReplayConcat(d, p.actions, ResumeNonEmpty(rt, env, e).actions);
        if d.journal == [] { StartedJournal(rt, d); }
      }
    }
  }

  lemma StartedJournal(rt: Runtime, d: Disk)
    requires Inv(rt, d) && d.made && !d.tornTail && d.journal == [] && EnsureJournal(d).outcome.Ok?
    ensures |Leaves(d, EnsureJournal(d)).journal| == 7
  {
    hide Inv, InitializeEvents, Replay;
    InitializeEventsLegal(rt, d);
  }

  /** Preparation ends with a run that waits, or whose finalization can be retried, or is ready. */
  lemma PrepareEnds(rt: Runtime, env: Env, d: Disk)
    requires Inv(rt, d)
    ensures var p := Prepare(rt, env, d);
            && (p.outcome.Done? ==> ReadyWith(rt, Leaves(d, p), p.outcome.packet))
            && (p.outcome.Ok? ==> 7 <= |Leaves(d, p).journal| <= 9)
  {
    hide Inv, LegalFrom, Later, Replay, WriteInputs, InitializeEvents, Resume, ReadyWith, Reprepare;
    if !d.made {
      var p := WriteInputs(rt);
      WriteInputsLegal(rt, d);
      InputsNeverFail(rt);
      var e := Leaves(d, p);
      LegalLeaves(rt, d, p.actions);
      InitializeEventsLegal(rt, e);
      var q := Then(p, InitializeEvents(e));
      LegalThen(rt, d, p, InitializeEvents(e));
      LegalLeaves(rt, d, q.actions);
      ResumeEnds(rt, env, Leaves(d, q));
      ReplayConcat(d, q.actions, Resume(rt, env, Leaves(d, q)).actions);
    } else if Request in d.files && d.files[Request] == Canonical(rt.request) {
      ReprepareEnds(rt, env, d);
    }
  }

  lemma ReprepareEnds(rt: Runtime, env: Env, d: Disk)
    requires Inv(rt, d) && d.made && Holds(d, Request, Canonical(rt.request))
    ensures var p := Reprepare(rt, env, d);
            && (p.outcome.Done? ==> ReadyWith(rt, Leaves(d, p), p.outcome.packet))
            && (p.outcome.Ok? ==> 7 <= |Leaves(d, p).journal| <= 9)
  {
    hide Inv, LegalFrom, Later, Replay, WriteOrIdentical, ReportPreparation, Resume, ReadyWith;
    var p := WriteOrIdentical(d, Query, Canonical(rt.query));
    WriteOrIdenticalLegal(rt, d, Query, Canonical(rt.query));
    if p.outcome.Ok? {
      var e := Leaves(d, p);
      ReportPreparationLegal(rt, e);
      ReplayConcat(d, p.actions, ReportPreparation(e).actions);
      if ReportPreparation(e).outcome.Ok? {
        var q := Then(p, ReportPreparation(e));
        ResumeEnds(rt, env, Leaves(d, q));
        ReplayConcat(d, q.actions, Resume(rt, env, Leaves(d, q)).actions);
      }
    }
  }

  lemma InputsNeverFail(rt: Runtime)
    ensures WriteInputs(rt).outcome.Ok?
  {
  }

  /** A Track A submission that is not refused ends with a run waiting for Track B. */
  lemma TrackAEnds(rt: Runtime, env: Env, d: Disk, source: Source)
    requires Inv(rt, d) && rt.WellFormed()
    ensures var p := SubmitQuestionTrackA(rt, env, d, source);
            && !p.outcome.Done?
            && (p.outcome.Ok? ==> Last(Leaves(d, p)) == Some(WaitingTrackB))
  {
    hide Inv, LegalFrom, Later, Replay, Resume, AcceptTrackA;
    ResumeLegal(rt, env, d);
    var p := Resume(rt, env, d);
    var d1 := Leaves(d, p);
    if p.outcome.Ok? && Last(d1) == Some(WaitingTrackA) {
      AcceptTrackAEnds(rt, d1, source);
      ReplayConcat(d, p.actions, AcceptTrackA(rt, d1, source).actions);
    }
  }

  lemma AcceptTrackAEnds(rt: Runtime, d: Disk, source: Source)
    requires Inv(rt, d) && d.made && |d.journal| == 7 && rt.WellFormed() && ActionA in d.files
    ensures var p := AcceptTrackA(rt, d, source);
            && !p.outcome.Done?
            && (p.outcome.Ok? ==> Last(Leaves(d, p)) == Some(WaitingTrackB))
  {
    hide Inv, LegalFrom, Later, Replay, RecordExternalWait, SubmitTrackA, Reported, AppendEvent, Handoff;
    MeasuredSubmissionLegal(rt, d, source);
    var w := RecordExternalWait(d, WaitA, Preparation);
    var d1 := Leaves(d, w);
    var q := Then(w, Reported(d1, SubmitTrackA(rt, d1, source), ValidateA));
    if q.outcome.Ok? && Read(d, source, TrackA).Some? {
      var e := Leaves(d, q);
      var hash := Sha256(Read(d, source, TrackA).value);
      HandoffFiles(rt, e);
      AppendEventLegal(rt, e, WaitingTrackB, hash);
      ReplayConcat(d, q.actions, AppendEvent(e, WaitingTrackB, hash).actions);
      AppendNeverDone(e, WaitingTrackB, hash);
    }
  }

  lemma AppendNeverDone(d: Disk, next: State, payload: Hash)
    ensures !AppendEvent(d, next, payload).outcome.Done?
  {
  }

  lemma FinalizeAndMarkEnds(rt: Runtime, env: Env, d: Disk, source: Source)
    requires Inv(rt, d) && |d.journal| == 9 && !d.tornMetrics
    requires ReadDoc(d, source, TrackB).Some? && ReadDoc(d, source, TrackB) == Recorded(d)
    ensures var p := FinalizeAndMark(rt, env, d, source);
            p.outcome.Done? ==> ReadyWith(rt, Leaves(d, p), p.outcome.packet)
  {
    hide Inv, LegalFrom, Later, Replay, Accepted, SubmitTrackB, MarkReady, ReadDoc, Recorded, VerifiedPacket, ReadyWith;
    var p := SubmitTrackB(rt, env, d, source);
    SubmitTrackBLegal(rt, env, d, source);
    if p.outcome.Done? {
      var e := Leaves(d, p);
      if MarkReady(e, p.outcome.packet).outcome.Done? { MarkReadyEnds(rt, e, p.outcome.packet); }
      ReplayConcat(d, p.actions, MarkReady(e, p.outcome.packet).actions);
    }
  }

  lemma EnterFinalizingEnds(rt: Runtime, env: Env, d: Disk, source: Source)
    requires Inv(rt, d) && |d.journal| == 8 && !d.tornMetrics && ValidTrackB(rt, d, source)
    ensures var p := EnterFinalizing(rt, env, d, source);
            p.outcome.Done? ==> ReadyWith(rt, Leaves(d, p), p.outcome.packet)
  {
    hide Inv, LegalFrom, Later, Replay, FinalizeAndMark, ChainedJournal, ReadyWith;
    JournalAt(rt, d);
    var hash := Sha256(Canonical(ReadDoc(d, source, TrackB).value));
    var p := AppendEvent(d, Finalizing, hash);
    AppendEventLegal(rt, d, Finalizing, hash);
    if p.outcome.Ok? {
      ReplayOne(d, p.actions[0]);
      LegalLeaves(rt, d, p.actions);
      var e := Leaves(d, p);
      FinalizeAndMarkEnds(rt, env, e, source);
      ReplayConcat(d, p.actions, FinalizeAndMark(rt, env, e, source).actions);
    }
  }

  lemma FirstSubmissionEnds(rt: Runtime, env: Env, d: Disk, source: Source)
    requires Inv(rt, d) && d.made && |d.journal| == 8
    ensures var p := FirstSubmission(rt, env, d, source);
            p.outcome.Done? ==> ReadyWith(rt, Leaves(d, p), p.outcome.packet)
  {
    hide Inv, LegalFrom, Later, Replay, ValidateSubmission, EnterFinalizing, ValidTrackB, ReadyWith, ReadDoc, Recorded,
         ExistingFinalized;
    var p := ValidateSubmission(rt, d, source);
    ValidateSubmissionLegal(rt, d, source);
    if p.outcome.Ok? {
      var e := Leaves(d, p);
      JudgedByFiles(rt, env, d, e, source);
      EnterFinalizingEnds(rt, env, e, source);
      ReplayConcat(d, p.actions, EnterFinalizing(rt, env, e, source).actions);
    }
  }

  lemma FinishOrRecoverEnds(rt: Runtime, env: Env, d: Disk, source: Source)
    requires Inv(rt, d) && |d.journal| == 9 && !d.tornMetrics
    requires ReadDoc(d, source, TrackB).Some? && ReadDoc(d, source, TrackB) == Recorded(d)
    ensures var p := FinishOrRecover(rt, env, d, source);
            p.outcome.Done? ==> ReadyWith(rt, Leaves(d, p), p.outcome.packet)
  {
    hide Inv, LegalFrom, Later, Replay, FinalizeAndMark, RecoverIncompleteFinalization, MarkReady,
         ExistingFinalized, Accepted, ChainedJournal, ReadyWith, VerifiedPacket;
    var existing := ExistingFinalized(rt, env, d);
    if existing.Found? {
      FoundMeans(rt, env, d);
      if MarkReady(d, existing.packet).outcome.Done? { MarkReadyEnds(rt, d, existing.packet); }
    } else {
      var q := RecoverIncompleteFinalization(d, source);
      RecoverIncompleteFinalizationLegal(rt, d, source);
      if q.outcome.Ok? {
        FinalizeAndMarkEnds(rt, env, Leaves(d, q), source);
        ReplayConcat(d, q.actions, FinalizeAndMark(rt, env, Leaves(d, q), source).actions);
      }
    }
  }

  lemma RetrySubmissionEnds(rt: Runtime, env: Env, d: Disk, source: Source)
    requires Inv(rt, d) && d.made && |d.journal| == 9
    ensures var p := RetrySubmission(rt, env, d, source);
            p.outcome.Done? ==> ReadyWith(rt, Leaves(d, p), p.outcome.packet)
  {
    hide Inv, LegalFrom, Later, Replay, ValidateSubmission, FinishOrRecover, ValidTrackB, CheckRetry,
         ExistingFinalized, ReadyWith, ReadDoc, Recorded;
    CheckWritesNothing(d, source);
    if CheckRetry(d, source).outcome.Ok? {
      RetryNamesRecorded(d, source);
      var p := ValidateSubmission(rt, d, source);
      ValidateSubmissionLegal(rt, d, source);
      if p.outcome.Ok? {
        var e := Leaves(d, p);
        JudgedByFiles(rt, env, d, e, source);
        FinishOrRecoverEnds(rt, env, e, source);
        ReplayConcat(d, p.actions, FinishOrRecover(rt, env, e, source).actions);
      }
    }
  }

  /** A Track B submission hands out a packet only when it leaves a ready run that stores it. */
  lemma TrackBEnds(rt: Runtime, env: Env, d: Disk, source: Source)
    requires Inv(rt, d)
    ensures var p := SubmitQuestionTrackB(rt, env, d, source);
            p.outcome.Done? ==> ReadyWith(rt, Leaves(d, p), p.outcome.packet)
  {
    hide Inv, LegalFrom, Later, Replay, Resume, FirstSubmission, RetrySubmission, ExistingFinalized, ReadyWith, VerifiedPacket;
    ResumeLegal(rt, env, d);
    ResumeEnds(rt, env, d);
    var p := Resume(rt, env, d);
    var e := Leaves(d, p);
    if p.outcome.Done? {
      if ExistingFinalized(rt, env, e).Found? {
        FoundMeans(rt, env, e);
        ReadyTwice(rt, e, p.outcome.packet, ExistingFinalized(rt, env, e).packet);
      }
    } else if p.outcome.Ok? {
      JournalAt(rt, e);
      if |e.journal| == 8 {
        FirstSubmissionEnds(rt, env, e, source);
        ReplayConcat(d, p.actions, FirstSubmission(rt, env, e, source).actions);
      } else if |e.journal| == 9 {
        RetrySubmissionEnds(rt, env, e, source);
        ReplayConcat(d, p.actions, RetrySubmission(rt, env, e, source).actions);
      }
    }
  }

  lemma ReadyTwice(rt: Runtime, d: Disk, one: Doc, other: Doc)
    requires ReadyWith(rt, d, one) && VerifiedPacket(rt, d) == Some(other)
    ensures ReadyWith(rt, d, other)
  {
  }

  // ---------------------------------------------------------------- what every call keeps

  /** Every write of the call obeyed the discipline, so every point at which it may be killed leaves the
      invariant; what was published stays. */
  ghost predicate Disciplined(rt: Runtime, before: Disk, written: seq<Action>, after: Disk) {
    LegalFrom(rt, before, written) && Inv(rt, after) && Later(before, after)
  }

  lemma DisciplinedInv(rt: Runtime, before: Disk, written: seq<Action>, after: Disk)
    requires Disciplined(rt, before, written, after)
    ensures Inv(rt, after)
  {
    hide Inv, Later, LegalFrom;
  }

  lemma CallDisciplined(rt: Runtime, env: Env, d: Disk, call: Call)
    requires Inv(rt, d) && rt.WellFormed()
    ensures Disciplined(rt, d, PlanOf(rt, env, d, call).actions, Leaves(d, PlanOf(rt, env, d, call)))
  {
    hide Inv, LegalFrom, Later, PlanOf, Replay;
    PlanLegal(rt, env, d, call);
    LegalLeaves(rt, d, PlanOf(rt, env, d, call).actions);
  }

  /** The handoff that a run waiting for Track B rests on. */
  lemma WaitingHasHandoff(rt: Runtime, d: Disk)
    requires Inv(rt, d) && Last(d) == Some(WaitingTrackB)
    ensures |d.journal| == 8 && Handoff(rt, d)
  {
    LastPosition(d);
  }
}

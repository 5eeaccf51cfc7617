/** Exactly which interrupted finalizations can be recovered. */
module RunRecovery {
  import opened Options
  import opened RunDisk
  import opened RunPlans
  import opened RunSafety
  import opened RunLegality
  import opened RunTelemetry
  import opened RunLegalityA
  import opened RunLegalityB
  import opened RunTheorems

  /** The journal loads; so does the telemetry, unless packet and page are already complete;
      the Track B validation record is not a torn file; and the run-local Track B, if it is a
      document at all, is the one FINALIZING was entered with. */
  ghost predicate Recoverable(rt: Runtime, d: Disk) {
    && !d.tornTail
    && (d.tornMetrics ==> Accepted(rt, d))
    && !Malformed(d, ValidationB)
    && (d.ParsedFile(TrackB).Some? ==> d.ParsedFile(TrackB) == Recorded(d))
  }

  /** The submission a recovering caller makes: the run-local file when it is already valid,
      the original bytes otherwise. */
  function RetrySource(d: Disk, original: Bytes): Source {
    if HasValidCanonicalTrackB(d) then RunLocal else External(original)
  }

  // ---------------------------------------------------------------- progress

  lemma ThenNothing(q: Plan)
    ensures Then(NOTHING, q) == q
  {
    assert [] + q.actions == q.actions;
  }

  lemma MarkReadyDone(d: Disk, packet: Doc)
    requires ChainedJournal(d) && |d.journal| == 9 && !d.tornTail && Packet in d.files
    ensures MarkReady(d, packet).outcome == Done(packet)
    ensures Leaves(d, MarkReady(d, packet)).files == d.files && |Leaves(d, MarkReady(d, packet)).journal| == 10
  {
    LastPosition(d);
    var hash := Sha256(d.files[Packet]);
    var e := Event(10, Last(d), ReadyForReview, hash);
    assert AppendEvent(d, ReadyForReview, hash) == Plan([Append(e)], Ok);
    assert MarkReady(d, packet).actions == [Append(e)] + [] == [Append(e)];
    ReplayOne(d, Append(e));
  }

  lemma ResumeFinalizing(rt: Runtime, env: Env, d: Disk)
    requires Inv(rt, d) && |d.journal| == 9 && !d.tornTail && env.evidence
    ensures var existing := ExistingFinalized(rt, env, d);
            Resume(rt, env, d) == if existing.Found? then MarkReady(d, existing.packet) else NOTHING
  {
    LastPosition(d);
    assert d.ParsedFile(Request).Some?;
    hide Inv, MarkReady, ExistingFinalized;
    ThenNothing(ResumeNonEmpty(rt, env, d));
  }

  /** The retry is let through, and its document is the recorded one. */
  lemma RetryLetThrough(rt: Runtime, d: Disk, original: Bytes)
    requires Inv(rt, d) && |d.journal| == 9
    requires MatchesIdentity(original, d.journal[8].payload)
    ensures CheckRetry(d, RetrySource(d, original)).outcome.Ok?
    ensures ReadDoc(d, RetrySource(d, original), TrackB) == Recorded(d)
    ensures ValidTrackB(rt, d, RetrySource(d, original))
  {
    IdentityNamesDocument(original, d.journal[8].payload);
    if HasValidCanonicalTrackB(d) {
      IdentityNamesDocument(d.files[TrackB], d.journal[8].payload);
    }
  }

  ghost predicate CanFinalize(rt: Runtime, d: Disk, packet: Doc) {
    && |d.journal| == 9 && d.made && !d.tornTail && !d.tornMetrics
    && CompleteInputs(rt, d)
    && d.ParsedFile(TrackA).Some? && rt.validA(d.ParsedFile(TrackA).value) && rt.ownRun(d.ParsedFile(TrackA).value)
    && Recorded(d).Some? && rt.validB(d.ParsedFile(TrackA).value, Recorded(d).value) && rt.ownRun(Recorded(d).value)
    && ExpectedPacket(rt, d) == Some(packet)
    && BundleB in d.files
    && NoFinalArtifact(d)
  }

  lemma FinalizeReviewRunDone(rt: Runtime, env: Env, d: Disk, packet: Doc)
    requires CanFinalize(rt, d, packet) && BoundTrackB(d) && env.Viewable()
    ensures FinalizeReviewRun(rt, env, d).outcome == Done(packet)
  {
    assert DerivedPacket(rt, d) == Some(packet);
  }

  lemma FinalizeAndMarkDone(rt: Runtime, env: Env, d: Disk, source: Source, packet: Doc)
    requires Inv(rt, d) && CanFinalize(rt, d, packet) && env.Viewable()
    requires ReadDoc(d, source, TrackB) == Recorded(d)
    requires d.ParsedFile(TrackB) == Recorded(d) || (TrackB !in d.files && source.External?)
    requires !Malformed(d, ValidationB)
    ensures FinalizeAndMark(rt, env, d, source).outcome == Done(packet)
    ensures var e := Leaves(d, FinalizeAndMark(rt, env, d, source));
            |e.journal| == 10 && VerifiedPacket(rt, e) == Some(packet)
  {
    assert ValidTrackB(rt, d, source);
    assert ValidationB in d.files ==> BoundTrackB(d) && ValidatedBComplete(d);
    var doc := Recorded(d).value;
    PublishTrackBLegal(rt, d, source, doc);
    var p := PublishTrackB(d, source, doc);
    var d1 := Leaves(d, p);
    assert TrackB in d.files ==> d1.files == d.files;
    CanFinalizeFrame(rt, d, d1, TrackB, packet);
    hide Inv, Legal, LegalFrom, Later, Replay, PublishTrackB, WriteValidationB, FinalizeReviewRun, ValidTrackB,
         CompleteInputs, VerifiedPacket, Accepted;
    WriteValidationBLegal(rt, d1);
    var q := Then(p, WriteValidationB(d1));
    LegalThen(rt, d, p, WriteValidationB(d1));
    var d2 := Leaves(d, q);
    CanFinalizeFrame(rt, d1, d2, ValidationB, packet);
    FinalizeReviewRunDone(rt, env, d2, packet);
    SubmitTrackBLegal(rt, env, d, source);
    var all := SubmitTrackB(rt, env, d, source);
    assert all.outcome == Done(packet);
    var e := Leaves(d, all);
    ChainFromInv(rt, e);
    assert Packet in e.files;
    MarkReadyDone(e, packet);
    ReplayConcat(d, all.actions, MarkReady(e, packet).actions);
    VerifiedByFiles(rt, e, Leaves(e, MarkReady(e, packet)));
  }

  lemma ChainFromInv(rt: Runtime, d: Disk)
    requires Inv(rt, d)
    ensures ChainedJournal(d)
    ensures |d.journal| == 9 && Accepted(rt, d) ==> Packet in d.files
  {
  }

  lemma VerifiedByFiles(rt: Runtime, d: Disk, e: Disk)
    requires d.files == e.files
    ensures VerifiedPacket(rt, d) == VerifiedPacket(rt, e)
  {
  }

  /** Writing Track B or its validation record does not take the run out of reach. */
  lemma CanFinalizeFrame(rt: Runtime, d: Disk, e: Disk, name: Name, packet: Doc)
    requires CanFinalize(rt, d, packet)
    requires name == TrackB || name == ValidationB
    requires name in e.files && e == d.(files := d.files[name := e.files[name]])
    ensures CanFinalize(rt, e, packet)
  {
  }

  /** Recovery clears the final artifacts and a torn Track B, and nothing else. */
  lemma {:induction false} RecoverCanFinalize(rt: Runtime, d: Disk, source: Source, packet: Doc)
    requires Inv(rt, d) && |d.journal| == 9 && Recoverable(rt, d) && !d.tornMetrics
    requires ReadDoc(d, source, TrackB) == Recorded(d) && ValidTrackB(rt, d, source)
    requires rt.ownRun(d.ParsedFile(TrackA).value) && rt.ownRun(Recorded(d).value)
    requires ExpectedPacket(rt, d) == Some(packet)
    ensures var q := RecoverIncompleteFinalization(d, source);
            var e := Leaves(d, q);
            && q.outcome.Ok? && Inv(rt, e) && CanFinalize(rt, e, packet)
            && ReadDoc(e, source, TrackB) == Recorded(e)
            && (e.ParsedFile(TrackB) == Recorded(e) || (TrackB !in e.files && source.External?))
            && !Malformed(e, ValidationB)
            && LegalFrom(rt, d, q.actions)
  {
    hide Inv, Replay, Legal, LegalFrom, Later, RecoverIncompleteFinalization;
    RecoverIncompleteFinalizationLegal(rt, d, source);
    RecoverableParts(rt, d);
  }

  lemma RecoverableParts(rt: Runtime, d: Disk)
    requires Inv(rt, d) && |d.journal| == 9 && Recoverable(rt, d)
    ensures Handoff(rt, d) && !d.tornTail && Recorded(d).Some? && d.made
  {
    hide OrderedInputs, SidecarsOk, PreparationBound, DerivedOk, ReadyOk;
  }

  lemma FinishOrRecoverDone(rt: Runtime, env: Env, d: Disk, source: Source, packet: Doc)
    requires Inv(rt, d) && |d.journal| == 9 && Recoverable(rt, d) && !d.tornMetrics && env.Viewable()
    requires ValidTrackB(rt, d, source) && ReadDoc(d, source, TrackB) == Recorded(d)
    requires rt.ownRun(d.ParsedFile(TrackA).value) && rt.ownRun(Recorded(d).value)
    requires ExpectedPacket(rt, d) == Some(packet)
    requires !ExistingFinalized(rt, env, d).Found?
    ensures FinishOrRecover(rt, env, d, source).outcome == Done(packet)
    ensures var e := Leaves(d, FinishOrRecover(rt, env, d, source));
            |e.journal| == 10 && VerifiedPacket(rt, e) == Some(packet)
  {
    hide Inv, Legal, LegalFrom, Later, Replay, RecoverIncompleteFinalization, FinalizeAndMark, CanFinalize,
         ValidTrackB, ExistingFinalized, VerifiedPacket;
    RecoverCanFinalize(rt, d, source, packet);
    var q := RecoverIncompleteFinalization(d, source);
    var e := Leaves(d, q);
    FinalizeAndMarkDone(rt, env, e, source, packet);
    ReplayConcat(d, q.actions, FinalizeAndMark(rt, env, e, source).actions);
  }

  lemma TrackAWasMeasured(rt: Runtime, d: Disk)
    requires Inv(rt, d) && |d.journal| >= 8
    ensures ValidateA in d.stages && d.made
  {
    hide OrderedInputs, SidecarsOk, PreparationBound, DerivedOk, ReadyOk, ChainedJournal;
  }

  /** Two more measurements do not change whether and to what a run can be finished. */
  lemma RecoverableByFiles(rt: Runtime, d: Disk, e: Disk)
    requires OnlyStages(d, e)
    ensures Recoverable(rt, e) == Recoverable(rt, d) && ExpectedPacket(rt, e) == ExpectedPacket(rt, d)
    ensures e.ParsedFile(TrackA) == d.ParsedFile(TrackA) && Recorded(e) == Recorded(d)
  {
    AcceptedByFiles(rt, d, e);
    hide Accepted;
  }

  lemma RetryDone(rt: Runtime, env: Env, d: Disk, source: Source, packet: Doc)
    requires Inv(rt, d) && |d.journal| == 9 && Recoverable(rt, d) && !d.tornMetrics && env.Viewable()
    requires CheckRetry(d, source).outcome.Ok? && ValidTrackB(rt, d, source)
    requires ReadDoc(d, source, TrackB) == Recorded(d)
    requires rt.ownRun(d.ParsedFile(TrackA).value) && rt.ownRun(Recorded(d).value)
    requires ExpectedPacket(rt, d) == Some(packet)
    requires !ExistingFinalized(rt, env, d).Found?
    ensures RetrySubmission(rt, env, d, source).outcome == Done(packet)
    ensures var e := Leaves(d, RetrySubmission(rt, env, d, source));
            |e.journal| == 10 && VerifiedPacket(rt, e) == Some(packet)
  {
    hide Inv, Legal, LegalFrom, Later, Replay, ValidateSubmission, FinishOrRecover, ValidTrackB, CheckRetry,
         ExistingFinalized, VerifiedPacket, Recoverable, ExpectedPacket, Recorded, ReadDoc;
    TrackAWasMeasured(rt, d);
    var p := ValidateSubmission(rt, d, source);
    ValidateSubmissionLegal(rt, d, source);
    var e := Leaves(d, p);
    JudgedByFiles(rt, env, d, e, source);
    RecoverableByFiles(rt, d, e);
    FinishOrRecoverDone(rt, env, e, source, packet);
    ReplayConcat(d, p.actions, FinishOrRecover(rt, env, e, source).actions);
  }

  lemma ResumeAndRetryDone(rt: Runtime, env: Env, d: Disk, original: Bytes, packet: Doc)
    requires Inv(rt, d) && |d.journal| == 9 && Recoverable(rt, d) && env.evidence && env.Viewable()
    requires MatchesIdentity(original, d.journal[8].payload)
    requires rt.ownRun(d.ParsedFile(TrackA).value) && rt.ownRun(Recorded(d).value)
    requires ExpectedPacket(rt, d) == Some(packet)
    ensures SubmitQuestionTrackB(rt, env, d, RetrySource(d, original)).outcome == Done(packet)
    ensures var e := Leaves(d, SubmitQuestionTrackB(rt, env, d, RetrySource(d, original)));
            |e.journal| == 10 && VerifiedPacket(rt, e) == Some(packet)
  {
    hide Inv, RetrySubmission, ExistingFinalized, VerifiedPacket, ValidTrackB, CheckRetry, RetrySource, Replay, ChainedJournal;
    var source := RetrySource(d, original);
    ChainFromInv(rt, d);
    LastPosition(d);
    ResumeFinalizing(rt, env, d);
    RetryLetThrough(rt, d, original);
    var existing := ExistingFinalized(rt, env, d);
    if existing.Found? {
      FoundDone(rt, env, d, source, packet);
    } else {
      StillMeasurable(rt, env, d);
      hide Recoverable;
      RetryDone(rt, env, d, source, packet);
      ThenNothing(RetrySubmission(rt, env, d, source));
      LegalNothing(rt, d);
    }
  }

  lemma StillMeasurable(rt: Runtime, env: Env, d: Disk)
    requires Recoverable(rt, d) && !ExistingFinalized(rt, env, d).Found? && env.Viewable()
    ensures !d.tornMetrics
  {
    hide VerifiedPacket;
  }

  /** Packet and page are there already: resuming finishes the run. */
  lemma FoundDone(rt: Runtime, env: Env, d: Disk, source: Source, packet: Doc)
    requires Inv(rt, d) && |d.journal| == 9 && !d.tornTail && ChainedJournal(d) && env.Viewable()
    requires ExistingFinalized(rt, env, d).Found? && ExpectedPacket(rt, d) == Some(packet)
    requires Resume(rt, env, d) == MarkReady(d, ExistingFinalized(rt, env, d).packet)
    ensures SubmitQuestionTrackB(rt, env, d, source).outcome == Done(packet)
    ensures var e := Leaves(d, SubmitQuestionTrackB(rt, env, d, source));
            |e.journal| == 10 && VerifiedPacket(rt, e) == Some(packet)
  {
    var existing := ExistingFinalized(rt, env, d);
    AcceptedIsExpected(rt, env, d, existing.packet);
    assert Packet in d.files && VerifiedPacket(rt, d) == Some(packet);
    hide Inv, RetrySubmission, VerifiedPacket, Replay, ChainedJournal, Resume, ExpectedPacket, MarkReady, FirstSubmission;
    MarkReadyDone(d, existing.packet);
    VerifiedByFiles(rt, d, Leaves(d, MarkReady(d, existing.packet)));
  }

  // ---------------------------------------------------------------- no way out

  /** While the telemetry is torn no final artifact changes, so none becomes acceptable. */
  lemma TornStaysUnaccepted(rt: Runtime, d: Disk, e: Disk)
    requires Inv(rt, d) && Later(d, e) && |d.journal| == 9 && d.tornMetrics && Accepted(rt, e)
    ensures Accepted(rt, d)
  {
    hide OrderedInputs, SidecarsOk, PreparationBound, ReadyOk, ChainedJournal;
    assert Packet in d.files && BoundTrackB(d) && Handoff(rt, d);
    assert Frozen(d, TrackA) && Frozen(d, TrackB) && Frozen(d, BundleA) && Frozen(d, Confidence);
    assert VerifiedPacket(rt, d) == VerifiedPacket(rt, e);
  }

  /** A finished run was recoverable at every earlier point of its finalization. */
  lemma FinishedWasRecoverable(rt: Runtime, d: Disk, e: Disk)
    requires Inv(rt, d) && Inv(rt, e) && Later(d, e) && |d.journal| == 9 && |e.journal| == 10
    ensures Recoverable(rt, d)
  {
    hide OrderedInputs, SidecarsOk, PreparationBound, ChainedJournal, VerifiedPacket;
    assert Accepted(rt, e);
    if d.tornMetrics { TornStaysUnaccepted(rt, d, e); }
    assert e.journal[8] == d.journal[8];
    assert TrackB in d.files && Parse(d.files[TrackB]).Some? ==> Frozen(d, TrackB);
    assert ValidationB in d.files ==> Frozen(d, ValidationB);
  }

  lemma HopelessStays(rt: Runtime, d: Disk, e: Disk)
    requires Inv(rt, d) && Inv(rt, e) && Later(d, e) && |d.journal| == 9 && |e.journal| == 9 && !Recoverable(rt, d)
    ensures !Recoverable(rt, e)
  {
    hide Inv, Accepted;
    if d.tornMetrics && Accepted(rt, e) { TornStaysUnaccepted(rt, d, e); }
    assert e.journal[8] == d.journal[8];
    assert TrackB in d.files && Parse(d.files[TrackB]).Some? ==> Frozen(d, TrackB);
    assert ValidationB in d.files ==> Frozen(d, ValidationB);
  }

  lemma JournalBound(rt: Runtime, d: Disk, e: Disk)
    requires Inv(rt, e) && Later(d, e)
    ensures |d.journal| <= |e.journal| <= 10
  {
    hide OrderedInputs, HandoffOk, SidecarsOk, PreparationBound, DerivedOk, ReadyOk;
  }

  /** What makes an interrupted finalization hopeless stays that way. */
  lemma {:induction false} HopelessForEver(rt: Runtime, steps: seq<Step>, more: seq<Step>)
    requires rt.WellFormed()
    requires |AfterRun(rt, steps).journal| == 9 && !Recoverable(rt, AfterRun(rt, steps))
    ensures var e := AfterRun(rt, steps + more);
            |e.journal| == 9 && !Recoverable(rt, e)
  {
    hide Inv, Later, Recoverable, AfterRun;
    var d, e := AfterRun(rt, steps), AfterRun(rt, steps + more);
    RunSafe(rt, steps);
    RunSafe(rt, steps + more);
    RunLater(rt, steps, more);
    JournalBound(rt, d, e);
    if |e.journal| == 10 { FinishedWasRecoverable(rt, d, e); }
    HopelessStays(rt, d, e);
  }

  /** A hopeless run whose journal still loads holds no acceptable packet. */
  lemma HopelessHasNoPacket(rt: Runtime, env: Env, d: Disk)
    requires Inv(rt, d) && |d.journal| == 9 && !Recoverable(rt, d)
    ensures !d.tornTail ==> !ExistingFinalized(rt, env, d).Found?
  {
  }

  /** The tracks the run recorded name this run. */
  ghost predicate OwnRecorded(rt: Runtime, d: Disk) {
    && d.ParsedFile(TrackA).Some? && rt.ownRun(d.ParsedFile(TrackA).value)
    && Recorded(d).Some? && rt.ownRun(Recorded(d).value)
  }

  /** Tracks of another run are never finalized. */
  lemma {:induction false} ForeignForEver(rt: Runtime, steps: seq<Step>, more: seq<Step>)
    requires rt.WellFormed() && |AfterRun(rt, steps).journal| == 9 && !OwnRecorded(rt, AfterRun(rt, steps))
    ensures |AfterRun(rt, steps + more).journal| == 9
  {
    hide AfterRun, Inv, Later;
    var d, e := AfterRun(rt, steps), AfterRun(rt, steps + more);
    RunSafe(rt, steps);
    RunSafe(rt, steps + more);
    RunLater(rt, steps, more);
    GrownJournal(rt, d, e);
    if |e.journal| == 10 { FinishedIsOwn(rt, d, e); }
  }

  lemma GrownJournal(rt: Runtime, d: Disk, e: Disk)
    requires Inv(rt, e) && Later(d, e)
    ensures |d.journal| <= |e.journal| <= 10
  {
    hide OrderedInputs, SidecarsOk, PreparationBound, HandoffOk, DerivedOk, ReadyOk;
  }

  lemma FinishedIsOwn(rt: Runtime, d: Disk, e: Disk)
    requires Inv(rt, d) && Inv(rt, e) && Later(d, e) && |d.journal| == 9 && |e.journal| == 10
    ensures OwnRecorded(rt, d)
  {
    hide OrderedInputs, SidecarsOk, PreparationBound, ChainedJournal;
    assert e.journal[8] == d.journal[8];
    assert Frozen(d, TrackA);
  }

  /** Crash recovery, both ways.  From every state a run can reach after FINALIZING was
      journalled, resubmitting the original Track B (or the run-local file once it is valid)
      yields the packet of the uninterrupted run and READY_FOR_REVIEW exactly when the state
      is `Recoverable` and the recorded tracks are of this run; otherwise no continuation of the
      run is ever ready. */
  lemma {:induction false} RecoveryIff(rt: Runtime, steps: seq<Step>, env: Env, original: Bytes, packet: Doc, more: seq<Step>)
    requires rt.WellFormed() && env == Env(true, true, true)
    requires |AfterRun(rt, steps).journal| == 9
    requires MatchesIdentity(original, AfterRun(rt, steps).journal[8].payload)
    requires ExpectedPacket(rt, AfterRun(rt, steps)) == Some(packet)
    ensures var d := AfterRun(rt, steps);
            var retry := CallTrackB(RetrySource(d, original));
            var e := AfterRun(rt, steps + [Step(retry, env, |PlanOf(rt, env, d, retry).actions|, None)]);
            var possible := Recoverable(rt, d) && OwnRecorded(rt, d);
            && (possible <==> |e.journal| == 10)
            && (possible ==> PlanOf(rt, env, d, retry).outcome == Done(packet) && VerifiedPacket(rt, e) == Some(packet))
            && (!possible ==> |AfterRun(rt, steps + more).journal| == 9)
  {
    var d := AfterRun(rt, steps);
    var retry := CallTrackB(RetrySource(d, original));
    var step := Step(retry, env, |PlanOf(rt, env, d, retry).actions|, None);
    RunSafe(rt, steps);
    assert (steps + [step])[..|steps + [step]| - 1] == steps;
    if !OwnRecorded(rt, d) {
      hide Inv, OwnRecorded, Recoverable, PlanOf, RetrySource, Replay, VerifiedPacket;
      ForeignForEver(rt, steps, [step]);
      ForeignForEver(rt, steps, more);
    } else if Recoverable(rt, d) {
      hide Inv, Recoverable, SubmitQuestionTrackB, RetrySource, Replay, VerifiedPacket;
      ResumeAndRetryDone(rt, env, d, original, packet);
    } else {
      hide Inv, Recoverable, PlanOf, RetrySource, Replay, VerifiedPacket;
      HopelessForEver(rt, steps, [step]);
      HopelessForEver(rt, steps, more);
    }
  }

  // ---------------------------------------------------------------- the wrong Track B

  lemma SubmissionYieldsRecorded(rt: Runtime, env: Env, d: Disk, source: Source, packet: Doc)
    requires Inv(rt, d) && |d.journal| >= 9
    requires SubmitQuestionTrackB(rt, env, d, source).outcome == Done(packet)
    ensures ExpectedPacket(rt, d) == Some(packet)
  {
    hide Inv, LegalFrom, Later, Replay, RetrySubmission, MarkReady, ChainedJournal, ExpectedPacket, ExistingFinalized,
         ResumeNonEmpty;
    ChainAtNine(rt, d);
    LastPosition(d);
    ResumeLegal(rt, env, d);
    var p := Resume(rt, env, d);
    var e := Leaves(d, p);
    if p.outcome.Done? {
      LegalLeaves(rt, d, p.actions);
      AcceptedIsExpected(rt, env, e, packet);
      LaterExpected(rt, d, e);
    } else {
      assert e == d;
      RetryYieldsRecorded(rt, env, d, source, packet);
    }
  }

  lemma ChainAtNine(rt: Runtime, d: Disk)
    requires Inv(rt, d) && |d.journal| >= 9
    ensures ChainedJournal(d) && d.journal != [] && d.made
  {
    InvJournal(rt, d);
  }

  lemma LaterExpected(rt: Runtime, d: Disk, e: Disk)
    requires Inv(rt, d) && Later(d, e) && |d.journal| >= 9
    ensures ExpectedPacket(rt, d) == ExpectedPacket(rt, e)
  {
    assert e.journal[8] == d.journal[8];
    assert Frozen(d, TrackA);
  }

  lemma VerifiedIsExpected(rt: Runtime, d: Disk, packet: Doc)
    requires Inv(rt, d) && Accepted(rt, d) && VerifiedPacket(rt, d) == Some(packet)
    ensures ExpectedPacket(rt, d) == Some(packet)
  {
  }

  lemma FinalizeAndMarkYields(rt: Runtime, env: Env, d: Disk, source: Source, packet: Doc)
    requires Inv(rt, d) && |d.journal| == 9 && !d.tornMetrics
    requires ReadDoc(d, source, TrackB).Some? && ReadDoc(d, source, TrackB) == Recorded(d)
    requires FinalizeAndMark(rt, env, d, source).outcome == Done(packet)
    ensures ExpectedPacket(rt, d) == Some(packet)
  {
    hide Inv, LegalFrom, Later, Replay, SubmitTrackB, Accepted, VerifiedPacket, ExpectedPacket, ReadDoc, Recorded;
    var p := SubmitTrackB(rt, env, d, source);
    SubmitTrackBLegal(rt, env, d, source);
    LegalLeaves(rt, d, p.actions);
    VerifiedIsExpected(rt, Leaves(d, p), packet);
    LaterExpected(rt, d, Leaves(d, p));
  }

  lemma FinishOrRecoverYields(rt: Runtime, env: Env, d: Disk, source: Source, packet: Doc)
    requires Inv(rt, d) && |d.journal| == 9 && !d.tornMetrics
    requires ReadDoc(d, source, TrackB).Some? && ReadDoc(d, source, TrackB) == Recorded(d)
    requires FinishOrRecover(rt, env, d, source).outcome == Done(packet)
    ensures ExpectedPacket(rt, d) == Some(packet)
  {
    hide Inv, LegalFrom, Later, Replay, RecoverIncompleteFinalization, FinalizeAndMark, ExistingFinalized,
         VerifiedPacket, ChainedJournal, ExpectedPacket, MarkReady;
    var existing := ExistingFinalized(rt, env, d);
    if existing.Found? {
      AcceptedIsExpected(rt, env, d, existing.packet);
      MarkReadyYields(d, existing.packet);
    } else {
      var q := RecoverIncompleteFinalization(d, source);
      RecoverIncompleteFinalizationLegal(rt, d, source);
      var e := Leaves(d, q);
      LegalLeaves(rt, d, q.actions);
      LaterExpected(rt, d, e);
      FinalizeAndMarkYields(rt, env, e, source, packet);
    }
  }

  lemma RetryYieldsRecorded(rt: Runtime, env: Env, d: Disk, source: Source, packet: Doc)
    requires Inv(rt, d) && d.made && Last(d) == Some(Finalizing)
    requires RetrySubmission(rt, env, d, source).outcome == Done(packet)
    ensures ExpectedPacket(rt, d) == Some(packet)
  {
    hide Inv, LegalFrom, Later, Replay, ValidateSubmission, FinishOrRecover, ExistingFinalized,
         VerifiedPacket, ChainedJournal, CheckRetry, ValidTrackB, ExpectedPacket, Recoverable, Recorded, ReadDoc;
    ChainFromInv(rt, d);
    LastPosition(d);
    CheckWritesNothing(d, source);
    assert CheckRetry(d, source).outcome.Ok?;
    RetryNamesRecorded(d, source);
    var p := ValidateSubmission(rt, d, source);
    ValidateSubmissionLegal(rt, d, source);
    var e := Leaves(d, p);
    JudgedByFiles(rt, env, d, e, source);
    RecoverableByFiles(rt, d, e);
    FinishOrRecoverYields(rt, env, e, source, packet);
  }

  lemma MarkReadyYields(d: Disk, packet: Doc)
    ensures MarkReady(d, packet).outcome.Done? ==> MarkReady(d, packet).outcome.packet == packet
  {
  }

  lemma UnfinalizedRefusals(rt: Runtime, env: Env, d: Disk, source: Source)
    requires Inv(rt, d) && |d.journal| >= 9 && !ExistingFinalized(rt, env, d).Found?
    requires ReadDoc(d, source, TrackB) != Recorded(d) || (source.External? && HasValidCanonicalTrackB(d))
    ensures var p := SubmitQuestionTrackB(rt, env, d, source); p.outcome.Refused? && p.actions == []
  {
    hide Inv, ChainedJournal, ExistingFinalized, ValidateSubmission, FinishOrRecover, Recorded, ReadDoc, HasValidCanonicalTrackB,
         MatchesIdentity, MarkReady;
    ChainAtNine(rt, d);
    LastPosition(d);
    if CheckRetry(d, source).outcome.Ok? { RetryNamesRecorded(d, source); }
    ThenNothing(ResumeNonEmpty(rt, env, d));
    ThenNothing(RetrySubmission(rt, env, d, source));
  }

  /** After FINALIZING was journalled, no submission yields any other packet than the one of
      the recorded Track B. */
  lemma {:induction false} OtherTrackBNeverYields(rt: Runtime, steps: seq<Step>, env: Env, source: Source, packet: Doc)
    requires rt.WellFormed() && |AfterRun(rt, steps).journal| >= 9
    requires SubmitQuestionTrackB(rt, env, AfterRun(rt, steps), source).outcome == Done(packet)
    ensures ExpectedPacket(rt, AfterRun(rt, steps)) == Some(packet)
  {
    hide Inv, SubmitQuestionTrackB;
    RunSafe(rt, steps);
    SubmissionYieldsRecorded(rt, env, AfterRun(rt, steps), source, packet);
  }

  /** Unless the run is already finalized, submitting another document, or regenerating a
      valid run-local one, is refused before anything is written. */
  lemma {:induction false} OtherTrackBRefused(rt: Runtime, steps: seq<Step>, env: Env, source: Source)
    requires rt.WellFormed() && |AfterRun(rt, steps).journal| >= 9
    requires !ExistingFinalized(rt, env, AfterRun(rt, steps)).Found?
    requires || ReadDoc(AfterRun(rt, steps), source, TrackB) != Recorded(AfterRun(rt, steps))
             || (source.External? && HasValidCanonicalTrackB(AfterRun(rt, steps)))
    ensures var p := SubmitQuestionTrackB(rt, env, AfterRun(rt, steps), source);
            p.outcome.Refused? && p.actions == []
  {
    hide Inv, SubmitQuestionTrackB, ExistingFinalized, ReadDoc, HasValidCanonicalTrackB;
    RunSafe(rt, steps);
    UnfinalizedRefusals(rt, env, AfterRun(rt, steps), source);
  }
}

/** What the first Track B submission answers, for every state that waits for it and every document. */
module RunSubmission {
  import opened Options
  import opened RunDisk
  import opened RunPlans
  import opened RunSafety
  import opened RunLegality
  import opened RunTelemetry
  import opened RunLegalityA
  import opened RunLegalityB
  import opened RunTheorems
  import opened RunRecovery
  import opened RunHandover
  import opened RunWitness
  import opened RunAnswers

  // ---------------------------------------------------------------- from FINALIZING on

  /** A run that has just entered FINALIZING with the document of this submission. */
  ghost predicate JustEntered(rt: Runtime, d: Disk, source: Source, doc: Doc) {
    && Inv(rt, d) && |d.journal| == 9 && !d.tornTail && !d.tornMetrics && d.made
    && Recorded(d) == Some(doc) && ReadDoc(d, source, TrackB) == Some(doc)
    && CompleteInputs(rt, d) && BundleB in d.files && NoFinalArtifact(d) && ValidationB !in d.files
    && ValidTrackB(rt, d, source)
  }

  /** The submitted path holds another document than the run-local file. */
  predicate Clashes(d: Disk, source: Source, doc: Doc) {
    source.External? && TrackB in d.files && Parse(d.files[TrackB]) != Some(doc)
  }

  predicate Own(rt: Runtime, d: Disk, doc: Doc) {
    d.ParsedFile(TrackA).Some? && rt.ownRun(d.ParsedFile(TrackA).value) && rt.ownRun(doc)
  }

  function Derived(rt: Runtime, d: Disk, doc: Doc): Option<Doc> {
    if d.ParsedFile(TrackA).Some? then rt.derive(rt.bundle, d.ParsedFile(TrackA).value, doc, rt.confidence) else None
  }

  lemma WriteFinalOutcome(rt: Runtime, env: Env, d: Disk)
    requires !d.tornMetrics
    ensures WriteFinalArtifacts(rt, env, d).outcome ==
              if ManifestNow(d).Some? && DerivedPacket(rt, d).Some? && env.Viewable() then Done(DerivedPacket(rt, d).value)
              else Refused(FinalizerFailed)
  {
    hide ManifestNow, DerivedPacket;
  }

  /** Track B and its validation record are published unless another document is in the way. */
  lemma PublishedFiles(rt: Runtime, d: Disk, source: Source, doc: Doc)
    requires JustEntered(rt, d, source, doc)
    ensures var p := PublishTrackB(d, source, doc);
            var q := Then(p, WriteValidationB(Leaves(d, p)));
            if Clashes(d, source, doc) then q.outcome == Refused(InputMismatch)
            else
              var e := Leaves(d, q);
              && q.outcome.Ok? && !e.tornMetrics && NoFinalArtifact(e)
              && e.ParsedFile(TrackA) == d.ParsedFile(TrackA) && e.ParsedFile(TrackB) == Some(doc)
              && Holds(e, BundleA, Canonical(rt.bundle)) && Holds(e, Confidence, Canonical(rt.confidence))
  {
    hide Inv, Replay, LegalFrom, Later, ValidTrackB;
    PublishTrackBLegal(rt, d, source, doc);
    var p := PublishTrackB(d, source, doc);
    if p.outcome.Ok? {
      var d1 := Leaves(d, p);
      WriteValidationBLegal(rt, d1);
      ReplayConcat(d, p.actions, WriteValidationB(d1).actions);
    }
  }

  /** What finalizing answers. */
  function FinalOutcome(rt: Runtime, env: Env, d: Disk, source: Source, doc: Doc): Outcome {
    if Clashes(d, source, doc) then Refused(InputMismatch)
    else if !Own(rt, d, doc) then Refused(InvalidTrackB)
    else if Derived(rt, d, doc).Some? && env.Viewable() then Done(Derived(rt, d, doc).value)
    else Refused(FinalizerFailed)
  }

  lemma SubmitAnswers(rt: Runtime, env: Env, d: Disk, source: Source, doc: Doc)
    requires JustEntered(rt, d, source, doc)
    ensures SubmitTrackB(rt, env, d, source).outcome == FinalOutcome(rt, env, d, source, doc)
  {
    PublishedFiles(rt, d, source, doc);
    hide Inv, Replay, ValidTrackB, PublishTrackB, WriteValidationB, WriteFinalArtifacts;
    var p := PublishTrackB(d, source, doc);
    var e := Leaves(d, Then(p, WriteValidationB(Leaves(d, p))));
    WriteFinalOutcome(rt, env, e);
  }

  lemma {:induction false} FinalizeAnswers(rt: Runtime, env: Env, d: Disk, source: Source, doc: Doc)
    requires JustEntered(rt, d, source, doc)
    ensures FinalizeAndMark(rt, env, d, source).outcome == FinalOutcome(rt, env, d, source, doc)
  {
    SubmitAnswers(rt, env, d, source, doc);
    hide Inv, Replay, SubmitTrackB, Accepted, VerifiedPacket, Later, LegalFrom, ValidTrackB, ChainedJournal;
    SubmitTrackBLegal(rt, env, d, source);
    var p := SubmitTrackB(rt, env, d, source);
    if p.outcome.Done? {
      var e := Leaves(d, p);
      ChainFromInv(rt, e);
      AcceptedPacket(rt, e);
      MarkReadyDone(e, p.outcome.packet);
    }
  }

  // ---------------------------------------------------------------- the whole submission

  /** An invalid document is measured and refused. */
  lemma InvalidMeasured(rt: Runtime, d: Disk, source: Source)
    requires !d.tornMetrics && ValidateA in d.stages && !ValidTrackB(rt, d, source)
    ensures ValidateSubmission(rt, d, source) == Plan([Measure(WaitB)] + [Measure(ValidateB)], Refused(InvalidTrackB))
  {
    hide ValidTrackB, Replay, ReadDoc, Recorded, ExistingFinalized, Accepted, Handoff, VerifiedPacket;
    ReplayOne(d, Measure(WaitB));
    var d1 := Measured(d, WaitB);
    JudgedByFiles(rt, FAIR, d, d1, source);
    RefusedLeaves(d1, InvalidTrackB);
    assert [] + [Measure(ValidateB)] == [Measure(ValidateB)];
  }

  /** Journalling FINALIZING leaves a run that has just entered it. */
  lemma {:induction false} EnteredJust(rt: Runtime, d: Disk, source: Source, doc: Doc)
    requires Inv(rt, d) && |d.journal| == 8 && !d.tornTail && !d.tornMetrics
    requires ValidTrackB(rt, d, source) && ReadDoc(d, source, TrackB) == Some(doc)
    ensures JustEntered(rt, Entered(d, doc), source, doc)
  {
    AtTrackBFiles(rt, d);
    EnteredJournal(d, doc);
    MeasuredBInv(rt, d);
    EnteringIsLegal(rt, MeasuredB(d), doc);
    assert EnteringEvent(MeasuredB(d), doc) == EnteringEvent(d, doc);
    hide Inv;
    assert Recorded(Entered(d, doc)) == Some(doc);
  }

  /** A valid document is measured, journalled, and finalized. */
  lemma {:induction false} ValidEnters(rt: Runtime, env: Env, d: Disk, source: Source, doc: Doc)
    requires Inv(rt, d) && |d.journal| == 8 && !d.tornTail && !d.tornMetrics
    requires ValidTrackB(rt, d, source) && ReadDoc(d, source, TrackB) == Some(doc)
    ensures var e, p := Entered(d, doc), FirstSubmission(rt, env, d, source);
            && p.outcome == FinalizeAndMark(rt, env, e, source).outcome
            && p.actions == EnteringActions(d, doc) + FinalizeAndMark(rt, env, e, source).actions
  {
    hide Inv, Replay, ValidTrackB, ValidateSubmission, FinalizeAndMark, AppendEvent;
    AtTrackBFiles(rt, d);
    ValidationMeasured(rt, d, source);
    var d1 := MeasuredB(d);
    JudgedByFiles(rt, env, d, d1, source);
    MeasuredBInv(rt, d);
    EnteringPlan(rt, d1, doc);
    assert EnteringEvent(d1, doc) == EnteringEvent(d, doc);
    var more := FinalizeAndMark(rt, env, Entered(d, doc), source).actions;
    var start, event := [Measure(WaitB)] + [Measure(ValidateB)], [Append(EnteringEvent(d, doc))];
    assert start + (event + more) == start + event + more;
  }

  /** Every answer to a Track B submission while the run waits for it: refused without a write where the
      evidence is another, the journal or the telemetry does not load; refused after its two metric
      events when the document is not valid; otherwise FINALIZING is journalled, and the run is finished
      unless another document is in the way, a track is of another run, no packet is derived or the page
      cannot be made. */
  lemma {:induction false} TrackBAnswers(rt: Runtime, env: Env, d: Disk, source: Source)
    requires Inv(rt, d) && |d.journal| == 8
    ensures var p, doc := SubmitQuestionTrackB(rt, env, d, source), ReadDoc(d, source, TrackB);
            if !env.evidence then p == Refuse(EvidenceMismatch)
            else if d.tornTail then p == Refuse(TornJournal)
            else if d.tornMetrics then p == Refuse(TornTelemetry)
            else if !ValidTrackB(rt, d, source) then p == Plan([Measure(WaitB)] + [Measure(ValidateB)], Refused(InvalidTrackB))
            else
              && doc.Some? && EnteringActions(d, doc.value) <= p.actions
              && p.outcome == FinalOutcome(rt, env, d, source, doc.value)
  {
    hide Inv, Replay, Resume, FirstSubmission, RetrySubmission, ValidateSubmission, FinalizeAndMark, Accepted, FinalOutcome, EnteringActions;
    ResumeAnswers(rt, env, d);
    AtTrackBFiles(rt, d);
    ChainFromInv(rt, d);
    LastPosition(d);
    NothingLeaves(d);
    ThenNothing(FirstSubmission(rt, env, d, source));
    if env.evidence && !d.tornTail {
      if d.tornMetrics {
        TornSubmission(rt, env, d, source);
      } else if !ValidTrackB(rt, d, source) {
        InvalidMeasured(rt, d, source);
        InvalidFirst(rt, env, d, source);
      } else {
        var doc := ReadDoc(d, source, TrackB).value;
        ValidEnters(rt, env, d, source, doc);
        EnteredJust(rt, d, source, doc);
        FinalizeAnswers(rt, env, Entered(d, doc), source, doc);
        SameFinal(rt, env, d, source, doc);
      }
    }
  }

  lemma TornSubmission(rt: Runtime, env: Env, d: Disk, source: Source)
    requires d.tornMetrics
    ensures FirstSubmission(rt, env, d, source) == Refuse(TornTelemetry)
  {
  }

  lemma InvalidFirst(rt: Runtime, env: Env, d: Disk, source: Source)
    requires ValidateSubmission(rt, d, source).outcome.Refused?
    ensures FirstSubmission(rt, env, d, source) == ValidateSubmission(rt, d, source)
  {
    hide ValidateSubmission;
  }

  lemma SameFinal(rt: Runtime, env: Env, d: Disk, source: Source, doc: Doc)
    ensures FinalOutcome(rt, env, Entered(d, doc), source, doc) == FinalOutcome(rt, env, d, source, doc)
  {
  }
}

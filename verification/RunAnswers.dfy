/** What the entry points answer, state by state, to a run that has been prepared. */
module RunAnswers {
  import opened Options
  import opened RunDisk
  import opened RunPlans
  import opened RunSafety
  import opened RunLegality
  import opened RunTelemetry
  import opened RunLegalityA
  import opened RunLegalityB
  import opened RunTheorems
  import opened RunRecovery
  import opened RunHandover

  /** Done with the packet this run may have. */
  ghost function Finished(rt: Runtime, d: Disk): Outcome
    requires ExpectedPacket(rt, d).Some?
  {
    Done(ExpectedPacket(rt, d).value)
  }

  lemma AcceptedExpected(rt: Runtime, d: Disk)
    requires Inv(rt, d) && Accepted(rt, d)
    ensures ExpectedPacket(rt, d).Some? && VerifiedPacket(rt, d) == ExpectedPacket(rt, d) && Packet in d.files
  {
    VerifiedIsExpected(rt, d, VerifiedPacket(rt, d).value);
  }

  lemma ReadyIsAccepted(rt: Runtime, d: Disk)
    requires Inv(rt, d) && |d.journal| == 10
    ensures Accepted(rt, d) && !d.tornTail
  {
    hide OrderedInputs, SidecarsOk, PreparationBound, HandoffOk, DerivedOk, ChainedJournal, Accepted;
  }

  lemma ExistingIff(rt: Runtime, env: Env, d: Disk)
    requires Inv(rt, d)
    ensures ExistingFinalized(rt, env, d).Found? <==> Accepted(rt, d) && env.Viewable()
    ensures ExistingFinalized(rt, env, d).Found? ==> Some(ExistingFinalized(rt, env, d).packet) == ExpectedPacket(rt, d)
  {
    hide Inv, ExpectedPacket, VerifiedPacket;
    if Accepted(rt, d) { AcceptedExpected(rt, d); }
  }

  lemma InputsKept(rt: Runtime, d: Disk)
    requires Inv(rt, d) && d.journal != []
    ensures d.made && d.ParsedFile(Request).Some? && Holds(d, Request, Canonical(rt.request)) && ChainedJournal(d)
    ensures |d.journal| >= 8 ==> ActionA in d.files && ActionB in d.files
  {
    hide SidecarsOk, PreparationBound, DerivedOk, ReadyOk;
  }

  /** The event that makes a finalized run ready. */
  function ReadyEvent(d: Disk): Event
    requires Packet in d.files
  {
    Event(10, Some(Finalizing), ReadyForReview, Sha256(d.files[Packet]))
  }

  lemma MarkReadyAnswers(rt: Runtime, d: Disk, packet: Doc)
    requires Inv(rt, d) && |d.journal| >= 9 && !d.tornTail && Packet in d.files
    ensures MarkReady(d, packet) == Plan(if |d.journal| == 9 then [Append(ReadyEvent(d))] else [], Done(packet))
  {
    hide Inv, ChainedJournal;
    InputsKept(rt, d);
    LastPosition(d);
    assert [Append(ReadyEvent(d))] + [] == [Append(ReadyEvent(d))];
  }

  /** Resuming a run with all seven preparation events: refused where the evidence database is
      another one or the journal does not load; otherwise it waits, or hands out the packet that
      is complete, and only then writes, at most the event of readiness. */
  lemma ResumeAnswers(rt: Runtime, env: Env, d: Disk)
    requires Inv(rt, d) && |d.journal| >= 7
    ensures |d.journal| <= 10 && (Accepted(rt, d) ==> ExpectedPacket(rt, d).Some? && Packet in d.files)
    ensures Resume(rt, env, d) ==
      if !env.evidence then Refuse(EvidenceMismatch)
      else if d.tornTail then Refuse(TornJournal)
      else if |d.journal| == 7 then (if ActionA in d.files then NOTHING else Refuse(MissingArtifact))
      else if |d.journal| == 8 then NOTHING
      else if Accepted(rt, d) && env.Viewable() then
        Plan(if |d.journal| == 9 then [Append(ReadyEvent(d))] else [], Finished(rt, d))
      else if |d.journal| == 9 then NOTHING else Refuse(MissingArtifact)
  {
    hide Inv, ChainedJournal, ExistingFinalized, Accepted, ExpectedPacket, MarkReady, VerifiedPacket;
    InputsKept(rt, d);
    LastPosition(d);
    InvJournal(rt, d);
    AtMostTen(d);
    if Accepted(rt, d) { AcceptedExpected(rt, d); }
    ExistingIff(rt, env, d);
    var existing := ExistingFinalized(rt, env, d);
    if existing.Found? && |d.journal| >= 9 && !d.tornTail { MarkReadyAnswers(rt, d, existing.packet); }
    RefusedLeaves(d, TornJournal);
    ThenNothing(ResumeNonEmpty(rt, env, d));
  }

  lemma AtMostTen(d: Disk)
    requires ChainedJournal(d)
    ensures |d.journal| <= 10
  {
  }

  /** Two more measurements do not change what resuming answers. */
  lemma ResumeByFiles(rt: Runtime, env: Env, d: Disk, e: Disk)
    requires Inv(rt, d) && Inv(rt, e) && OnlyStages(d, e) && |d.journal| >= 7
    ensures Resume(rt, env, e) == Resume(rt, env, d)
  {
    hide Inv, Resume, Accepted, Handoff, ExistingFinalized, VerifiedPacket, ExpectedPacket;
    ResumeAnswers(rt, env, d);
    ResumeAnswers(rt, env, e);
    JudgedByFiles(rt, env, d, e, RunLocal);
    RecoverableByFiles(rt, d, e);
  }

  /** Preparing a prepared run again measures the preparation and answers like resuming; with a
      torn metric event it is refused. */
  lemma PrepareAnswers(rt: Runtime, env: Env, d: Disk)
    requires Inv(rt, d) && |d.journal| >= 7 && ActionA in d.files
    ensures Prepare(rt, env, d) ==
      if d.tornMetrics then Refuse(TornTelemetry)
      else Then(Plan([Measure(Normalization), Measure(Retrieval), Measure(RequestBuild), Measure(Preparation)], Ok), Resume(rt, env, d))
  {
    hide Inv, Resume, Replay, ChainedJournal;
    InputsKept(rt, d);
    PreparationWasMeasured(rt, d);
    RefusedLeaves(d, TornTelemetry);
    ReportPreparationLegal(rt, d);
    ThenNothing(ReportPreparation(d));
    if !d.tornMetrics { ResumeByFiles(rt, env, d, Leaves(d, ReportPreparation(d))); }
    assert Measures(PREPARATION) == [Measure(Normalization), Measure(Retrieval), Measure(RequestBuild), Measure(Preparation)];
  }

  /** A finished run answers every further Track B submission, of whatever document, with its
      packet and writes nothing; preparing it again adds nothing but metric events and answers
      the same; Track A is refused. */
  lemma {:induction false} FinishedRunAnswers(rt: Runtime, steps: seq<Step>, env: Env, source: Source)
    requires rt.WellFormed() && |AfterRun(rt, steps).journal| == 10
    ensures var d := AfterRun(rt, steps);
            && ExpectedPacket(rt, d).Some?
            && var answer := if !env.evidence then Refused(EvidenceMismatch) else if env.Viewable() then Finished(rt, d)
                             else Refused(MissingArtifact);
            && SubmitQuestionTrackB(rt, env, d, source) == Plan([], answer)
            && SubmitQuestionTrackA(rt, env, d, source) == Plan([], if answer.Done? then Refused(NotWaiting) else answer)
            && Prepare(rt, env, d) ==
                 if d.tornMetrics then Refuse(TornTelemetry)
                 else Plan([Measure(Normalization), Measure(Retrieval), Measure(RequestBuild), Measure(Preparation)], answer)
  {
    var d := AfterRun(rt, steps);
    RunSafe(rt, steps);
    FinishedAnswers(rt, env, d, source);
  }

  lemma FinishedAnswers(rt: Runtime, env: Env, d: Disk, source: Source)
    requires Inv(rt, d) && |d.journal| == 10
    ensures ExpectedPacket(rt, d).Some?
    ensures var answer := if !env.evidence then Refused(EvidenceMismatch) else if env.Viewable() then Finished(rt, d)
                          else Refused(MissingArtifact);
            && SubmitQuestionTrackB(rt, env, d, source) == Plan([], answer)
            && SubmitQuestionTrackA(rt, env, d, source) == Plan([], if answer.Done? then Refused(NotWaiting) else answer)
            && Prepare(rt, env, d) ==
                 if d.tornMetrics then Refuse(TornTelemetry)
                 else Plan([Measure(Normalization), Measure(Retrieval), Measure(RequestBuild), Measure(Preparation)], answer)
  {
    hide Inv, Resume, Replay, Prepare, Accepted, ExpectedPacket, ExistingFinalized, ChainedJournal, AcceptTrackA, FirstSubmission, RetrySubmission;
    ReadyIsAccepted(rt, d);
    ResumeAnswers(rt, env, d);
    InputsKept(rt, d);
    PrepareAnswers(rt, env, d);
    ExistingIff(rt, env, d);
    RefusedLeaves(d, MissingArtifact);
    var metrics := [Measure(Normalization), Measure(Retrieval), Measure(RequestBuild), Measure(Preparation)];
    assert metrics + [] == metrics;
  }

  /** A track that is not the one waited for is refused, and nothing of it is written. */
  lemma {:induction false} OtherTrackRefused(rt: Runtime, steps: seq<Step>, env: Env, source: Source)
    requires rt.WellFormed() && 7 <= |AfterRun(rt, steps).journal| <= 8 && env.evidence && !AfterRun(rt, steps).tornTail
    requires ActionA in AfterRun(rt, steps).files
    ensures |AfterRun(rt, steps).journal| == 7 ==> SubmitQuestionTrackB(rt, env, AfterRun(rt, steps), source) == Refuse(NotWaiting)
    ensures |AfterRun(rt, steps).journal| == 8 ==> SubmitQuestionTrackA(rt, env, AfterRun(rt, steps), source) == Refuse(NotWaiting)
  {
    hide Inv, Resume, Replay, AfterRun, ChainedJournal, AcceptTrackA, FirstSubmission, RetrySubmission;
    var d := AfterRun(rt, steps);
    RunSafe(rt, steps);
    ResumeAnswers(rt, env, d);
    InputsKept(rt, d);
    LastPosition(d);
    RefusedLeaves(d, NotWaiting);
  }
}

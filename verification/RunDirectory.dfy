/** The run directory as the runtime changes it: one file or journal write at a time.

    Every method is tied to its plan: it performs exactly the plan's writes, in the plan's
    order (`log` records them), and returns the plan's outcome.  The theorems about plans
    are therefore theorems about these methods, at every point where they may be killed. */
module RunDirectoryState {
  import opened Options
  import opened RunDisk
  import opened RunPlans
  import opened RunSafety
  import opened RunTheorems
  import RunAnswers
  import RunEntryPoints
  import RunLegality
  import RunRecovery

  lemma {:induction false} UnlinksSnoc(names: seq<Name>, last: Name)
    ensures Unlinks(names + [last]) == Unlinks(names) + [Unlink(last)]
  {
    if names == [] {
      assert names + [last] == [last];
      assert [last][1..] == [];
    } else {
      assert (names + [last])[1..] == names[1..] + [last];
      UnlinksSnoc(names[1..], last);
    }
  }

  class RunDirectory {
    var made: bool
    var files: map<Name, Bytes>
    var journal: seq<Event>
    var tornTail: bool
    var stages: set<Stage>
    var tornMetrics: bool
    ghost var log: seq<Action>

    ghost function Now(): Disk
      reads this
    {
      Disk(made, files, journal, tornTail, stages, tornMetrics)
    }

    constructor ()
      ensures Now() == EMPTY_DISK && log == []
    {
      made, files, journal, tornTail, stages, tornMetrics := false, map[], [], false, {}, false;
      log := [];
    }

    /** The effect of a whole call: the plan's writes, nothing else. */
    twostate predicate Performed(p: Plan, outcome: Outcome)
      reads this
    {
      && Now() == Leaves(old(Now()), p)
      && log == old(log) + p.actions
      && outcome == p.outcome
    }

    /** Every write since then kept the run invariant at each point where the call could be killed, and
        nothing published was taken back. */
    twostate predicate Disciplined(rt: Runtime)
      reads this
    {
      |old(log)| <= |log| && RunEntryPoints.Disciplined(rt, old(Now()), log[|old(log)|..], Now())
    }

    /** The run is ready, and its stored, accepted packet is the expected one. */
    ghost predicate ReadyFor(rt: Runtime, packet: Doc)
      reads this
    {
      |journal| == 10 && Accepted(rt, Now()) && VerifiedPacket(rt, Now()) == Some(packet) && ExpectedPacket(rt, Now()) == Some(packet)
    }

    /** The run waits for a track, or its finalization can be retried. */
    ghost predicate WaitsOrRetries()
      reads this
    {
      7 <= |journal| <= 9
    }

    // -------------------------------------------------------------- primitive writes

    method MakeDirectory()
      modifies this
      ensures Now() == Perform(old(Now()), RunDisk.Action.MakeDirectory)
      ensures log == old(log) + [RunDisk.Action.MakeDirectory]
    {
      made := true;
      log := log + [RunDisk.Action.MakeDirectory];
    }

    method CreateFile(name: Name, bytes: Bytes)
      requires name !in files
      modifies this
      ensures Now() == Perform(old(Now()), Write(name, bytes)) && log == old(log) + [Write(name, bytes)]
    {
      files := files[name := bytes];
      log := log + [Write(name, bytes)];
    }

    method UnlinkMissingOk(name: Name)
      modifies this
      ensures Now() == Perform(old(Now()), Unlink(name)) && log == old(log) + [Unlink(name)]
    {
      files := files - {name};
      log := log + [Unlink(name)];
    }

    method UnlinkAll(names: seq<Name>)
      modifies this
      ensures Now() == Replay(old(Now()), Unlinks(names)) && log == old(log) + Unlinks(names)
    {
      ghost var start, written := Now(), log;
      for i := 0 to |names|
        invariant Now() == Replay(start, Unlinks(names[..i])) && log == written + Unlinks(names[..i])
      {
        UnlinkMissingOk(names[i]);
        assert names[..i + 1] == names[..i] + [names[i]];
        UnlinksSnoc(names[..i], names[i]);
        ReplayConcat(start, Unlinks(names[..i]), [Unlink(names[i])]);
        ReplayOne(Replay(start, Unlinks(names[..i])), Unlink(names[i]));
      }
      assert names[..|names|] == names;
    }

    // -------------------------------------------------------------- journal

    method AppendEvent(next: State, payload: Hash) returns (outcome: Outcome)
      modifies this
      ensures Performed(RunPlans.AppendEvent(old(Now()), next, payload), outcome)
    {
      if tornTail { return Refused(TornJournal); }
      var previous := if journal == [] then None else Some(journal[|journal| - 1].next);
      if previous == Some(next) { return Ok; }
      if !Allowed(previous, next) { return Refused(CannotResume); }
      var event := Event(|journal| + 1, previous, next, payload);
      ghost var start := Now();
      journal := journal + [event];
      log := log + [Append(event)];
      ReplayOne(start, Append(event));
      outcome := Ok;
    }

    method InitializeEvents() returns (outcome: Outcome)
      modifies this
      ensures Performed(RunPlans.InitializeEvents(old(Now())), outcome)
    {
      if Request !in files || BundleA !in files { return Refused(MissingArtifact); }
      var request, bundle := Sha256(files[Request]), Sha256(files[BundleA]);
      hide RunPlans.AppendEvent, InitializeFrom, Replay;
      ghost var start, written, whole := Now(), log, InitializeFrom(Now(), 0, request, bundle);
      ghost var done := NOTHING;
      RunRecovery.ThenNothing(whole);
      for i := 0 to 7
        invariant done.outcome.Ok? && Now() == Leaves(start, done) && log == written + done.actions
        invariant Then(done, InitializeFrom(Now(), i, request, bundle)) == whole
      {
        var payload := if i < 3 then request else bundle;
        ghost var p := RunPlans.AppendEvent(Now(), WORD[i], payload);
        InitializeStep(start, done, i, request, bundle);
        Compose(start, written, done, p);
        outcome := AppendEvent(WORD[i], payload);
        done := Then(done, p);
        if !outcome.Ok? { return; }
      }
      InitializeEnds(Now(), request, bundle);
      assert done.actions + [] == done.actions;
      outcome := Ok;
    }

    // -------------------------------------------------------------- telemetry

    method AppendStage(stage: Stage) returns (outcome: Outcome)
      modifies `stages, `log
      ensures Performed(RunPlans.AppendStage(old(Now()), stage), outcome)
    {
      if tornMetrics { return Refused(TornTelemetry); }
      ReplayOne(Now(), Measure(stage));
      stages := stages + {stage};
      log := log + [Measure(stage)];
      outcome := Ok;
    }

    method RecordExternalWait(stage: Stage, after: Stage) returns (outcome: Outcome)
      modifies `stages, `log
      ensures Performed(RunPlans.RecordExternalWait(old(Now()), stage, after), outcome)
    {
      if tornMetrics { return Refused(TornTelemetry); }
      if after !in stages { return Refused(MissingStage); }
      outcome := AppendStage(stage);
    }

    /** The four events of a preparation. */
    method ReportPreparation() returns (outcome: Outcome)
      modifies `stages, `log
      ensures Performed(RunPlans.ReportPreparation(old(Now())), outcome)
    {
      hide Replay;
      ghost var start, written := Now(), log;
      assert Measures(PREPARATION[..0]) == [];
      ReplayConcat(start, [], []);
      RunLegality.RefusedLeaves(start, TornTelemetry);
      outcome := Ok;
      for i := 0 to |PREPARATION|
        invariant outcome.Ok? && (i > 0 ==> !tornMetrics)
        invariant Now() == Replay(start, Measures(PREPARATION[..i])) && log == written + Measures(PREPARATION[..i])
      {
        outcome := AppendStage(PREPARATION[i]);
        if !outcome.Ok? { return; }
        MeasuresSnoc(PREPARATION[..i], PREPARATION[i]);
        assert PREPARATION[..i + 1] == PREPARATION[..i] + [PREPARATION[i]];
        ReplayConcat(start, Measures(PREPARATION[..i]), [Measure(PREPARATION[i])]);
      }
      assert PREPARATION[..|PREPARATION|] == PREPARATION;
    }

    // -------------------------------------------------------------- resume and prepare

    method MarkReady(packet: Doc) returns (outcome: Outcome)
      modifies this
      ensures Performed(RunPlans.MarkReady(old(Now()), packet), outcome)
    {
      if Packet !in files { return Refused(MissingArtifact); }
      ghost var p := RunPlans.AppendEvent(Now(), ReadyForReview, Sha256(files[Packet]));
      assert p.actions + [] == p.actions;
      outcome := AppendEvent(ReadyForReview, Sha256(files[Packet]));
      if outcome.Ok? { outcome := Done(packet); }
    }

    /** A read-only view of the directory, as the planning functions take it. */
    function View(): (d: Disk)
      reads this
      ensures d == Now()
    {
      Disk(made, files, journal, tornTail, stages, tornMetrics)
    }

    method ResumeNonEmpty(rt: Runtime, env: Env) returns (outcome: Outcome)
      modifies this
      ensures Performed(RunPlans.ResumeNonEmpty(rt, env, old(Now())), outcome)
    {
      var state := Last(View());
      outcome := Ok;
      if state == Some(WaitingTrackA) {
        if ActionA !in files { outcome := Refused(MissingArtifact); }
      } else if state == Some(WaitingTrackB) {
        if ActionB !in files { outcome := Refused(MissingArtifact); }
      } else if state == Some(Finalizing) || state == Some(ReadyForReview) {
        var existing := ExistingFinalized(rt, env, View());
        if existing.Found? {
          outcome := MarkReady(existing.packet);
        } else if state == Some(ReadyForReview) {
          outcome := Refused(MissingArtifact);
        }
      } else {
        outcome := Refused(CannotResume);
      }
    }

    method ResumeState(rt: Runtime, env: Env) returns (outcome: Outcome)
      modifies this
      ensures Performed(Resume(rt, env, old(Now())), outcome)
    {
      if !env.evidence || View().ParsedFile(Request).None? { return Refused(EvidenceMismatch); }
      if tornTail { return Refused(TornJournal); }
      ghost var start, written, p := Now(), log, EnsureJournal(Now());
      outcome := Ok;
      if journal == [] { outcome := InitializeEvents(); }
      if outcome.Ok? {
        ghost var q := RunPlans.ResumeNonEmpty(rt, env, Now());
        Compose(start, written, p, q);
        hide RunPlans.ResumeNonEmpty;
        outcome := ResumeNonEmpty(rt, env);
      }
    }

    method WriteInputs(rt: Runtime) returns (outcome: Outcome)
      modifies this
      requires files == map[] && !tornMetrics
      ensures Performed(RunPlans.WriteInputs(rt), outcome)
    {
      hide Replay, Measures;
      ghost var start, written := Now(), log;
      MakeDirectory();
      CreateFile(Request, Canonical(rt.request));
      CreateFile(BundleA, Canonical(rt.bundle));
      CreateFile(Confidence, Canonical(rt.confidence));
      CreateFile(Query, Canonical(rt.query));
      ghost var inputs := RunPlans.WriteInputs(rt).actions[..5];
      FirstInputsReplayed(rt, start);
      assert log == written + inputs;
      outcome := ReportPreparation();
      CreateFile(ActionA, Canonical(rt.action));
      LastInputReplayed(rt, start);
      assert log == written + RunPlans.WriteInputs(rt).actions;
    }

    method Reprepare(rt: Runtime, env: Env) returns (outcome: Outcome)
      modifies this
      ensures Performed(RunPlans.Reprepare(rt, env, old(Now())), outcome)
    {
      hide WriteOrIdentical, RunPlans.ReportPreparation, Resume;
      ghost var start, written, p := Now(), log, WriteOrIdentical(Now(), Query, Canonical(rt.query));
      outcome := WriteJsonOrIdentical(Query, Canonical(rt.query));
      if !outcome.Ok? { return; }
      ghost var q := RunPlans.ReportPreparation(Now());
      Compose(start, written, p, q);
      outcome := ReportPreparation();
      if !outcome.Ok? { return; }
      Compose(start, written, Then(p, q), Resume(rt, env, Now()));
      outcome := ResumeState(rt, env);
    }

    /** The call is answered by a packet, and nothing but telemetry is written. */
    twostate predicate AnsweredAgain(outcome: Outcome)
      reads this
    {
      outcome.Done? && Now() == old(Now()).(stages := stages)
    }

    /** Preparation or resumption: it ends with a run that waits or can be retried, or with a ready run and
        the expected packet, and every write it makes keeps the run invariant.  Of a finished run it hands out
        the packet again. */
    method PrepareReviewQuestion(rt: Runtime, env: Env) returns (outcome: Outcome)
      requires !made ==> files == map[] && !tornMetrics
      modifies this
      ensures Performed(Prepare(rt, env, old(Now())), outcome)
      ensures rt.WellFormed() && Inv(rt, old(Now())) ==> Disciplined(rt)
      ensures rt.WellFormed() && Inv(rt, old(Now())) && outcome.Ok? ==> WaitsOrRetries()
      ensures rt.WellFormed() && Inv(rt, old(Now())) && outcome.Done? ==> ReadyFor(rt, outcome.packet)
      ensures rt.WellFormed() && Inv(rt, old(Now())) && |old(journal)| == 10 && env.evidence && env.Viewable() && !old(tornMetrics) ==>
                AnsweredAgain(outcome)
    {
      hide Inv, Prepare, RunEntryPoints.Disciplined, LegalFrom, Accepted, ExpectedPacket;
      ghost var start := Now();
      outcome := PrepareOrResume(rt, env);
      if rt.WellFormed() && Inv(rt, start) {
        RunEntryPoints.PrepareEnds(rt, env, start);
        if |start.journal| == 10 { FinishedStays(rt, env, start, RunLocal); }
        RunEntryPoints.CallDisciplined(rt, env, start, CallPrepare);
        RunEntryPoints.DisciplinedInv(rt, start, log[|old(log)|..], Now());
        if outcome.Done? { RunEntryPoints.ReadyIsExpected(rt, Now(), outcome.packet); }
      }
    }

    method PrepareOrResume(rt: Runtime, env: Env) returns (outcome: Outcome)
      requires !made ==> files == map[] && !tornMetrics
      modifies this
      ensures Performed(Prepare(rt, env, old(Now())), outcome)
    {
      if !made {
        ghost var start, written, p := Now(), log, RunPlans.WriteInputs(rt);
        outcome := WriteInputs(rt);
        ghost var q := RunPlans.InitializeEvents(Now());
        Compose(start, written, p, q);
        hide RunPlans.InitializeEvents, Resume, RunPlans.WriteInputs;
        outcome := InitializeEvents();
        if outcome.Ok? {
          Compose(start, written, Then(p, q), Resume(rt, env, Now()));
          outcome := ResumeState(rt, env);
        }
      } else {
        if Request !in files { return Refused(MissingArtifact); }
        if files[Request] != Canonical(rt.request) { return Refused(RequestDiffers); }
        outcome := Reprepare(rt, env);
      }
    }

    // -------------------------------------------------------------- Track A

    method WriteJsonOrIdentical(name: Name, bytes: Bytes) returns (outcome: Outcome)
      modifies this
      ensures Performed(WriteOrIdentical(old(Now()), name, bytes), outcome)
    {
      outcome := Ok;
      if name !in files {
        ReplayOne(Now(), Write(name, bytes));
        CreateFile(name, bytes);
      } else if files[name] != bytes {
        outcome := Refused(ExistingDiffers);
      }
    }

    method RecoverMalformedTrackASubmission(rt: Runtime) returns (outcome: Outcome)
      modifies this
      ensures Performed(RecoverMalformedTrackA(rt, old(Now())), outcome)
    {
      if Malformed(View(), TrackA) { return Refused(MalformedRunLocal); }
      outcome := Ok;
      for i := 0 to |SORTED_SIDECARS|
        invariant Now() == old(Now()) && log == old(log)
        invariant forall j | 0 <= j < i :: !Malformed(Now(), SORTED_SIDECARS[j])
      {
        if Malformed(View(), SORTED_SIDECARS[i]) {
          UnlinkAll(rt.sidecarOrder);
          return;
        }
      }
      assert !Malformed(Now(), SORTED_SIDECARS[0]) && !Malformed(Now(), SORTED_SIDECARS[1])
             && !Malformed(Now(), SORTED_SIDECARS[2]);
    }

    method PublishValidatedTrackA(source: Source, doc: Doc) returns (outcome: Outcome)
      modifies this
      ensures Performed(PublishTrackA(old(Now()), source, doc), outcome)
    {
      if source.RunLocal? {
        outcome := if TrackA in files then Ok else Refused(MissingArtifact);
      } else {
        outcome := WriteJsonOrIdentical(TrackA, Canonical(doc));
      }
    }

    method WriteSidecars(doc: Doc) returns (outcome: Outcome)
      modifies this
      ensures Performed(RunPlans.WriteSidecars(old(Now()), doc), outcome)
    {
      ghost var start, written := Now(), log;
      ghost var p := WriteOrIdentical(start, BundleB, Canonical(TrackBBundle(doc)));
      outcome := WriteJsonOrIdentical(BundleB, Canonical(TrackBBundle(doc)));
      if !outcome.Ok? { return; }
      assert TrackA in start.files <==> TrackA in files by { WriteKeeps(start, BundleB, Canonical(TrackBBundle(doc)), TrackA); }
      ghost var q := WriteOrIdentical(Now(), ActionB, Canonical(TrackBAction));
      Compose(start, written, p, q);
      ghost var middle := Now();
      outcome := WriteJsonOrIdentical(ActionB, Canonical(TrackBAction));
      if !outcome.Ok? { return; }
      WriteKeeps(start, BundleB, Canonical(TrackBBundle(doc)), TrackA);
      WriteKeeps(middle, ActionB, Canonical(TrackBAction), TrackA);
      if TrackA !in files {
        Compose(start, written, Then(p, q), Refuse(MissingArtifact));
        return Refused(MissingArtifact);
      }
      var record := Canonical(ValidatedA(Sha256(files[TrackA])));
      Compose(start, written, Then(p, q), WriteOrIdentical(Now(), ValidationA, record));
      outcome := WriteJsonOrIdentical(ValidationA, record);
    }

    method SubmitTrackA(rt: Runtime, source: Source) returns (outcome: Outcome)
      modifies this
      ensures Performed(RunPlans.SubmitTrackA(rt, old(Now()), source), outcome)
    {
      if BundleA !in files || Confidence !in files { return Refused(MissingArtifact); }
      var doc := ReadDoc(View(), source, TrackA);
      if doc.None? || !rt.validA(doc.value) { return Refused(InvalidTrackA); }
      ghost var start, written, p := Now(), log, RecoverMalformedTrackA(rt, Now());
      hide RecoverMalformedTrackA, PublishTrackA, RunPlans.WriteSidecars;
      outcome := RecoverMalformedTrackASubmission(rt);
      if !outcome.Ok? { return; }
      ghost var q := PublishTrackA(Now(), source, doc.value);
      Compose(start, written, p, q);
      outcome := PublishValidatedTrackA(source, doc.value);
      if !outcome.Ok? { return; }
      Compose(start, written, Then(p, q), RunPlans.WriteSidecars(Now(), doc.value));
      outcome := WriteSidecars(doc.value);
    }

    /** A Track A submission that is not refused leaves a run waiting for Track B with its whole handoff. */
    method SubmitQuestionTrackA(rt: Runtime, env: Env, source: Source) returns (outcome: Outcome)
      modifies this
      ensures Performed(RunPlans.SubmitQuestionTrackA(rt, env, old(Now()), source), outcome)
      ensures rt.WellFormed() && Inv(rt, old(Now())) ==> Disciplined(rt)
      ensures rt.WellFormed() && Inv(rt, old(Now())) ==> !outcome.Done? && (outcome.Ok? ==> |journal| == 8 && Handoff(rt, Now()))
    {
      hide Inv, RunPlans.SubmitQuestionTrackA, RunEntryPoints.Disciplined, LegalFrom, Handoff;
      ghost var start := Now();
      outcome := AcceptTrackA(rt, env, source);
      if rt.WellFormed() && Inv(rt, start) {
        RunEntryPoints.TrackAEnds(rt, env, start, source);
        RunEntryPoints.CallDisciplined(rt, env, start, CallTrackA(source));
        RunEntryPoints.DisciplinedInv(rt, start, log[|old(log)|..], Now());
        if outcome.Ok? { RunEntryPoints.WaitingHasHandoff(rt, Now()); }
      }
    }

    method AcceptTrackA(rt: Runtime, env: Env, source: Source) returns (outcome: Outcome)
      modifies this
      ensures Performed(RunPlans.SubmitQuestionTrackA(rt, env, old(Now()), source), outcome)
    {
      hide Resume, RunPlans.AcceptTrackA;
      ghost var start, written, p := Now(), log, Resume(rt, env, Now());
      outcome := ResumeState(rt, env);
      if outcome.Done? { return Refused(NotWaiting); }
      if !outcome.Ok? { return; }
      if Last(View()) != Some(WaitingTrackA) { return Refused(NotWaiting); }
      Compose(start, written, p, RunPlans.AcceptTrackA(rt, Now(), source));
      outcome := MeasureAndSubmitTrackA(rt, source);
    }

    method MeasureAndSubmitTrackA(rt: Runtime, source: Source) returns (outcome: Outcome)
      modifies this
      ensures Performed(RunPlans.AcceptTrackA(rt, old(Now()), source), outcome)
    {
      hide RunPlans.RecordExternalWait, RunPlans.SubmitTrackA, RunPlans.AppendStage, RunPlans.AppendEvent, Replay;
      ghost var start, written, w := Now(), log, RunPlans.RecordExternalWait(Now(), WaitA, Preparation);
      var bytes := Read(View(), source, TrackA);
      outcome := RecordExternalWait(WaitA, Preparation);
      if !outcome.Ok? { return; }
      ghost var waiting := Now();
      ghost var p := RunPlans.SubmitTrackA(rt, waiting, source);
      ghost var q := Reported(waiting, p, ValidateA);
      Compose(start, written, w, q);
      outcome := SubmitTrackA(rt, source);
      ghost var submitted := RunPlans.AppendStage(Now(), ValidateA);
      ReplayConcat(waiting, p.actions, submitted.actions);
      var measured := AppendStage(ValidateA);
      if !measured.Ok? { return measured; }
      if !outcome.Ok? { return; }
      if bytes.None? {
        Compose(start, written, Then(w, q), Refuse(MissingArtifact));
        RunLegality.RefusedLeaves(Now(), MissingArtifact);
        return Refused(MissingArtifact);
      }
      Compose(start, written, Then(w, q), RunPlans.AppendEvent(Now(), WaitingTrackB, Sha256(bytes.value)));
      outcome := AppendEvent(WaitingTrackB, Sha256(bytes.value));
    }

    // -------------------------------------------------------------- Track B

    method PublishValidatedTrackB(source: Source, doc: Doc) returns (outcome: Outcome)
      modifies this
      ensures Performed(PublishTrackB(old(Now()), source, doc), outcome)
    {
      if source.RunLocal? {
        outcome := if TrackB in files then Ok else Refused(MissingArtifact);
      } else if TrackB !in files {
        ReplayOne(Now(), Write(TrackB, Canonical(doc)));
        CreateFile(TrackB, Canonical(doc));
        outcome := Ok;
      } else {
        outcome := if Parse(files[TrackB]) == Some(doc) then Ok else Refused(InputMismatch);
      }
    }

    method RecoverIncompleteFinalization(source: Source) returns (outcome: Outcome)
      modifies this
      ensures Performed(RunPlans.RecoverIncompleteFinalization(old(Now()), source), outcome)
    {
      hide Replay, Unlinks, ReadDoc;
      RunLegality.RefusedLeaves(Now(), InputMismatch);
      RunLegality.RefusedLeaves(Now(), MalformedRunLocal);
      outcome := Ok;
      if TrackB in files {
        if Parse(files[TrackB]).Some? {
          if Parse(files[TrackB]) != ReadDoc(View(), source, TrackB) { return Refused(InputMismatch); }
        } else if source.RunLocal? {
          return Refused(MalformedRunLocal);
        } else {
          ReplayOne(Now(), Unlink(TrackB));
          ReplayConcat(Now(), [Unlink(TrackB)], Unlinks(FINALIZATION_DERIVED));
          UnlinkMissingOk(TrackB);
        }
      }
      UnlinkAll(FINALIZATION_DERIVED);
    }

    /** Manifest, packet and page, each stage measured; a failure in between removes all three again. */
    method WriteFinalArtifacts(rt: Runtime, env: Env) returns (outcome: Outcome)
      requires Manifest !in files && Packet !in files && Html !in files
      modifies this
      ensures Performed(RunPlans.WriteFinalArtifacts(rt, env, old(Now())), outcome)
    {
      ghost var d, written, done := Now(), log, [];
      var manifest, packet := ManifestNow(View()), DerivedPacket(rt, View());
      hide ManifestNow, DerivedPacket, Replay, Unlinks;
      if manifest.None? { UnlinkAll(CLEANUP); return Refused(FinalizerFailed); }
      done := [Write(Manifest, Canonical(manifest.value))];
      ReplayOne(d, done[0]);
      CreateFile(Manifest, Canonical(manifest.value));
      if packet.Some? {
        ReplaySnoc(d, done, Write(Packet, Canonical(packet.value)));
        CreateFile(Packet, Canonical(packet.value));
        done := done + [Write(Packet, Canonical(packet.value))];
      }
      assert Now() == Replay(d, done) && log == written + done;
      RunLegality.RefusedLeaves(Now(), TornTelemetry);
      if !tornMetrics { MeasuredNext(d, done, Finalizer, Now()); }
      var measured := AppendStage(Finalizer);
      if !measured.Ok? { Withdraw(d, written, done); return measured; }
      done := done + [Measure(Finalizer)];
      if packet.None? { Withdraw(d, written, done); return Refused(FinalizerFailed); }
      outcome := Render(env, packet.value, d, written, done);
    }

    /** From the packet on: view model, page images, page. */
    method Render(env: Env, packet: Doc, ghost d: Disk, ghost written: seq<Action>, ghost finalized: seq<Action>)
        returns (outcome: Outcome)
      requires Now() == Replay(d, finalized) && log == written + finalized && !tornMetrics && Html !in files
      modifies this
      ensures var modelled := finalized + [Measure(ViewModel)];
              var imaged := modelled + [Measure(PageImages)];
              var p := if !env.modelled then Plan(modelled + Unlinks(CLEANUP), Refused(FinalizerFailed))
                       else if !env.imaged then Plan(imaged + Unlinks(CLEANUP), Refused(FinalizerFailed))
                       else Plan(imaged + [Write(Html, Page(packet))] + [Measure(HtmlWrite)], Done(packet));
              Now() == Leaves(d, p) && log == written + p.actions && outcome == p.outcome
    {
      hide Replay, Unlinks;
      ghost var done := finalized;
      MeasuredNext(d, done, ViewModel, Now());
      var measured := AppendStage(ViewModel);
      done := done + [Measure(ViewModel)];
      if !env.modelled { Withdraw(d, written, done); return Refused(FinalizerFailed); }
      MeasuredNext(d, done, PageImages, Now());
      measured := AppendStage(PageImages);
      done := done + [Measure(PageImages)];
      if !env.imaged { Withdraw(d, written, done); return Refused(FinalizerFailed); }
      ReplaySnoc(d, done, Write(Html, Page(packet)));
      CreateFile(Html, Page(packet));
      done := done + [Write(Html, Page(packet))];
      MeasuredNext(d, done, HtmlWrite, Now());
      measured := AppendStage(HtmlWrite);
      outcome := Done(packet);
    }

    /** The clean-up of a finalization that raised. */
    method Withdraw(ghost d: Disk, ghost written: seq<Action>, ghost done: seq<Action>)
      requires Now() == Replay(d, done) && log == written + done
      modifies this
      ensures Now() == Replay(d, done + Unlinks(CLEANUP)) && log == written + (done + Unlinks(CLEANUP))
    {
      hide Replay, Unlinks;
      ReplayConcat(d, done, Unlinks(CLEANUP));
      UnlinkAll(CLEANUP);
    }

    method FinalizeReviewRun(rt: Runtime, env: Env) returns (outcome: Outcome)
      modifies this
      ensures Performed(RunPlans.FinalizeReviewRun(rt, env, old(Now())), outcome)
    {
      var a, b := View().ParsedFile(TrackA), View().ParsedFile(TrackB);
      if a.None? || b.None? || !rt.ownRun(a.value) || !rt.ownRun(b.value) { return Refused(InvalidTrackB); }
      if Manifest in files || Packet in files || Html in files { return Refused(AlreadyFinalized); }
      outcome := WriteFinalArtifacts(rt, env);
    }

    method SubmitTrackB(rt: Runtime, env: Env, source: Source) returns (outcome: Outcome)
      modifies this
      ensures Performed(RunPlans.SubmitTrackB(rt, env, old(Now()), source), outcome)
    {
      if !ValidTrackB(rt, View(), source) { return Refused(InvalidTrackB); }
      hide PublishTrackB, RunPlans.FinalizeReviewRun;
      var doc := ReadDoc(View(), source, TrackB).value;
      ghost var start, written, p := Now(), log, PublishTrackB(Now(), source, doc);
      outcome := PublishValidatedTrackB(source, doc);
      if !outcome.Ok? { return; }
      ghost var q := WriteValidationB(Now());
      Compose(start, written, p, q);
      if BundleB !in files || TrackB !in files { return Refused(MissingArtifact); }
      outcome := WriteJsonOrIdentical(ValidationB, Canonical(ValidatedB(Sha256(files[BundleB]), Sha256(files[TrackB]))));
      if !outcome.Ok? { return; }
      Compose(start, written, Then(p, q), RunPlans.FinalizeReviewRun(rt, env, Now()));
      outcome := FinalizeReviewRun(rt, env);
    }

    method FinalizeAndMark(rt: Runtime, env: Env, source: Source) returns (outcome: Outcome)
      modifies this
      ensures Performed(RunPlans.FinalizeAndMark(rt, env, old(Now()), source), outcome)
    {
      hide RunPlans.SubmitTrackB, RunPlans.MarkReady;
      ghost var start, written, p := Now(), log, RunPlans.SubmitTrackB(rt, env, Now(), source);
      outcome := SubmitTrackB(rt, env, source);
      if outcome.Done? {
        Compose(start, written, Plan(p.actions, Ok), RunPlans.MarkReady(Now(), outcome.packet));
        outcome := MarkReady(outcome.packet);
      }
    }

    /** A Track B submission hands out a packet only when the run is ready, stores that packet, and the
        packet is the one derived from the validated Track A and the recorded Track B.  A finished run is left
        as it is, and hands it out again. */
    method SubmitQuestionTrackB(rt: Runtime, env: Env, source: Source) returns (outcome: Outcome)
      modifies this
      ensures Performed(RunPlans.SubmitQuestionTrackB(rt, env, old(Now()), source), outcome)
      ensures rt.WellFormed() && Inv(rt, old(Now())) ==> Disciplined(rt)
      ensures rt.WellFormed() && Inv(rt, old(Now())) && outcome.Done? ==> ReadyFor(rt, outcome.packet)
      ensures rt.WellFormed() && Inv(rt, old(Now())) && |old(journal)| == 10 && env.evidence && env.Viewable() ==>
                outcome.Done? && Now() == old(Now())
    {
      hide Inv, RunPlans.SubmitQuestionTrackB, RunEntryPoints.Disciplined, LegalFrom, Accepted, ExpectedPacket;
      ghost var start := Now();
      outcome := AcceptTrackB(rt, env, source);
      if rt.WellFormed() && Inv(rt, start) {
        RunEntryPoints.TrackBEnds(rt, env, start, source);
        if |start.journal| == 10 { FinishedStays(rt, env, start, source); }
        RunEntryPoints.CallDisciplined(rt, env, start, CallTrackB(source));
        RunEntryPoints.DisciplinedInv(rt, start, log[|old(log)|..], Now());
        if outcome.Done? { RunEntryPoints.ReadyIsExpected(rt, Now(), outcome.packet); }
      }
    }

    method AcceptTrackB(rt: Runtime, env: Env, source: Source) returns (outcome: Outcome)
      modifies this
      ensures Performed(RunPlans.SubmitQuestionTrackB(rt, env, old(Now()), source), outcome)
    {
      hide Resume, FirstSubmission, RetrySubmission;
      ghost var start, written, p := Now(), log, Resume(rt, env, Now());
      outcome := ResumeState(rt, env);
      if outcome.Done? {
        var existing := ExistingFinalized(rt, env, View());
        return if existing.Found? then Done(existing.packet) else Refused(MissingArtifact);
      }
      if !outcome.Ok? { return; }
      var state := Last(View());
      if state == Some(WaitingTrackB) {
        Compose(start, written, p, FirstSubmission(rt, env, Now(), source));
        outcome := SubmitFirst(rt, env, source);
      } else if state == Some(Finalizing) {
        Compose(start, written, p, RetrySubmission(rt, env, Now(), source));
        outcome := RetryFinalizing(rt, env, source);
      } else {
        Compose(start, written, p, Refuse(NotWaiting));
        outcome := Refused(NotWaiting);
      }
    }

    /** The wait and the validation of a Track B submission, both measured. */
    method ValidateSubmission(rt: Runtime, source: Source) returns (outcome: Outcome)
      modifies this
      ensures Performed(RunPlans.ValidateSubmission(rt, old(Now()), source), outcome)
    {
      hide RunPlans.RecordExternalWait, RunPlans.AppendStage, ValidTrackB;
      ghost var start, written, w := Now(), log, RunPlans.RecordExternalWait(Now(), WaitB, ValidateA);
      outcome := RecordExternalWait(WaitB, ValidateA);
      if !outcome.Ok? { return; }
      ghost var waiting := Now();
      ghost var judged := if ValidTrackB(rt, waiting, source) then NOTHING else Refuse(InvalidTrackB);
      Compose(start, written, w, Reported(waiting, judged, ValidateB));
      JudgedLeaves(waiting, judged);
      if !ValidTrackB(rt, View(), source) { outcome := Refused(InvalidTrackB); }
      var measured := AppendStage(ValidateB);
      if !measured.Ok? { outcome := measured; }
    }

    method SubmitFirst(rt: Runtime, env: Env, source: Source) returns (outcome: Outcome)
      modifies this
      ensures Performed(FirstSubmission(rt, env, old(Now()), source), outcome)
    {
      hide RunPlans.ValidateSubmission, RunPlans.EnterFinalizing;
      ghost var start, written, p := Now(), log, RunPlans.ValidateSubmission(rt, Now(), source);
      outcome := ValidateSubmission(rt, source);
      if !outcome.Ok? { return; }
      Compose(start, written, p, RunPlans.EnterFinalizing(rt, env, Now(), source));
      outcome := EnterFinalizing(rt, env, source);
    }

    method EnterFinalizing(rt: Runtime, env: Env, source: Source) returns (outcome: Outcome)
      modifies this
      ensures Performed(RunPlans.EnterFinalizing(rt, env, old(Now()), source), outcome)
    {
      if ReadDoc(View(), source, TrackB).None? { return Refused(InvalidTrackB); }
      hide RunPlans.AppendEvent, RunPlans.FinalizeAndMark;
      var identity := Sha256(Canonical(ReadDoc(View(), source, TrackB).value));
      ghost var start, written, p := Now(), log, RunPlans.AppendEvent(Now(), Finalizing, identity);
      outcome := AppendEvent(Finalizing, identity);
      if !outcome.Ok? { return; }
      Compose(start, written, p, RunPlans.FinalizeAndMark(rt, env, Now(), source));
      outcome := FinalizeAndMark(rt, env, source);
    }

    method RetryFinalizing(rt: Runtime, env: Env, source: Source) returns (outcome: Outcome)
      modifies this
      ensures Performed(RetrySubmission(rt, env, old(Now()), source), outcome)
    {
      var check := CheckRetry(View(), source);
      CheckIsPure(Now(), source);
      if check.outcome.Refused? { return check.outcome; }
      hide CheckRetry, RunPlans.ValidateSubmission, RunPlans.FinishOrRecover;
      ghost var start, written, p := Now(), log, RunPlans.ValidateSubmission(rt, Now(), source);
      outcome := ValidateSubmission(rt, source);
      if !outcome.Ok? { return; }
      Compose(start, written, p, RunPlans.FinishOrRecover(rt, env, Now(), source));
      outcome := FinishOrRecover(rt, env, source);
    }

    method FinishOrRecover(rt: Runtime, env: Env, source: Source) returns (outcome: Outcome)
      modifies this
      ensures Performed(RunPlans.FinishOrRecover(rt, env, old(Now()), source), outcome)
    {
      hide ExistingFinalized, RunPlans.MarkReady, RunPlans.RecoverIncompleteFinalization, RunPlans.FinalizeAndMark;
      var existing := ExistingFinalized(rt, env, View());
      if existing.Found? {
        outcome := MarkReady(existing.packet);
        return;
      }
      ghost var start, written, p := Now(), log, RunPlans.RecoverIncompleteFinalization(Now(), source);
      outcome := RecoverIncompleteFinalization(source);
      if !outcome.Ok? { return; }
      Compose(start, written, p, RunPlans.FinalizeAndMark(rt, env, Now(), source));
      outcome := FinalizeAndMark(rt, env, source);
    }
  }

  /** What the calls on a finished run leave. */
  lemma FinishedStays(rt: Runtime, env: Env, d: Disk, source: Source)
    requires Inv(rt, d) && |d.journal| == 10
    ensures var p := SubmitQuestionTrackB(rt, env, d, source);
            env.evidence && env.Viewable() ==> p.outcome.Done? && Leaves(d, p) == d
    ensures var p := Prepare(rt, env, d);
            env.evidence && env.Viewable() && !d.tornMetrics ==>
              p.outcome.Done? && Leaves(d, p) == d.(stages := Leaves(d, p).stages)
  {
    hide Inv, SubmitQuestionTrackB, SubmitQuestionTrackA, Prepare, ExpectedPacket;
    RunAnswers.FinishedAnswers(rt, env, d, source);
    FourMeasured(d);
  }

  lemma {:induction false} FourMeasured(d: Disk)
    ensures var e := Replay(d, [Measure(Normalization), Measure(Retrieval), Measure(RequestBuild), Measure(Preparation)]);
            e == d.(stages := e.stages)
  {
    hide Replay;
    ReplayOne(d, Measure(Normalization));
    ReplaySnoc(d, [Measure(Normalization)], Measure(Retrieval));
    ReplaySnoc(d, [Measure(Normalization)] + [Measure(Retrieval)], Measure(RequestBuild));
    ReplaySnoc(d, [Measure(Normalization)] + [Measure(Retrieval)] + [Measure(RequestBuild)], Measure(Preparation));
    assert [Measure(Normalization)] + [Measure(Retrieval)] + [Measure(RequestBuild)] + [Measure(Preparation)]
           == [Measure(Normalization), Measure(Retrieval), Measure(RequestBuild), Measure(Preparation)];
  }

  /** One more measurement after the writes so far. */
  lemma {:induction false} MeasuredNext(d: Disk, done: seq<Action>, stage: Stage, now: Disk)
    requires now == Replay(d, done) && !now.tornMetrics
    ensures AppendStage(now, stage) == Plan([Measure(stage)], Ok)
    ensures Replay(d, done + [Measure(stage)]) == Leaves(now, AppendStage(now, stage))
    ensures !Leaves(now, AppendStage(now, stage)).tornMetrics && Leaves(now, AppendStage(now, stage)).files == now.files
  {
    hide Replay;
    ReplaySnoc(d, done, Measure(stage));
    ReplayOne(now, Measure(stage));
  }

  lemma JudgedLeaves(d: Disk, judged: Plan)
    requires judged.actions == []
    ensures Leaves(d, judged) == d
    ensures Leaves(d, Reported(d, judged, ValidateB)) == Leaves(d, AppendStage(d, ValidateB))
    ensures Reported(d, judged, ValidateB).actions == AppendStage(d, ValidateB).actions
  {
    assert [] + AppendStage(d, ValidateB).actions == AppendStage(d, ValidateB).actions;
  }

  lemma CheckIsPure(d: Disk, source: Source)
    ensures CheckRetry(d, source).actions == [] && Leaves(d, CheckRetry(d, source)) == d
    ensures !CheckRetry(d, source).outcome.Done?
  {
  }

  lemma {:induction false} MeasuresSnoc(stages: seq<Stage>, last: Stage)
    ensures Measures(stages + [last]) == Measures(stages) + [Measure(last)]
  {
    if stages == [] {
      assert stages + [last] == [last];
      assert [last][1..] == [];
    } else {
      assert (stages + [last])[1..] == stages[1..] + [last];
      MeasuresSnoc(stages[1..], last);
    }
  }

  /** The disk between the documents and the telemetry of a preparation. */
  lemma {:induction false} FirstInputsReplayed(rt: Runtime, d: Disk)
    ensures Replay(d, WriteInputs(rt).actions[..5]) ==
            d.(made := true, files := d.files[Request := Canonical(rt.request)][BundleA := Canonical(rt.bundle)]
                                             [Confidence := Canonical(rt.confidence)][Query := Canonical(rt.query)])
  {
    hide Replay, Measures;
    var all := WriteInputs(rt).actions;
    ReplayOne(d, all[0]);
    ReplaySnoc(d, [all[0]], all[1]);
    ReplaySnoc(d, [all[0]] + [all[1]], all[2]);
    ReplaySnoc(d, [all[0]] + [all[1]] + [all[2]], all[3]);
    ReplaySnoc(d, [all[0]] + [all[1]] + [all[2]] + [all[3]], all[4]);
    assert [all[0]] + [all[1]] + [all[2]] + [all[3]] + [all[4]] == all[..5];
  }

  lemma {:induction false} LastInputReplayed(rt: Runtime, d: Disk)
    ensures Leaves(d, WriteInputs(rt)) ==
            Perform(Replay(Replay(d, WriteInputs(rt).actions[..5]), Measures(PREPARATION)), Write(ActionA, Canonical(rt.action)))
    ensures WriteInputs(rt).actions == WriteInputs(rt).actions[..5] + Measures(PREPARATION) + [Write(ActionA, Canonical(rt.action))]
  {
    hide Replay, Measures;
    var first := WriteInputs(rt).actions[..5];
    assert first == [MakeDirectory, Write(Request, Canonical(rt.request)), Write(BundleA, Canonical(rt.bundle)),
                     Write(Confidence, Canonical(rt.confidence)), Write(Query, Canonical(rt.query))];
    ReplayConcat(d, first, Measures(PREPARATION));
    ReplaySnoc(d, first + Measures(PREPARATION), Write(ActionA, Canonical(rt.action)));
  }

  /** One turn of the preparation loop, after the events in `done`. */
  lemma {:induction false} InitializeStep(start: Disk, done: Plan, position: nat, request: Hash, bundle: Hash)
    requires position < 7 && done.outcome.Ok?
    ensures var now := Leaves(start, done);
            var p := RunPlans.AppendEvent(now, WORD[position], if position < 3 then request else bundle);
            var whole := Then(done, InitializeFrom(now, position, request, bundle));
            && (p.outcome.Ok? ==>
                  Then(Then(done, p), InitializeFrom(Leaves(now, p), position + 1, request, bundle)) == whole)
            && (!p.outcome.Ok? ==> whole == Then(done, p))
  {
    var now := Leaves(start, done);
    var p := RunPlans.AppendEvent(now, WORD[position], if position < 3 then request else bundle);
    hide RunPlans.AppendEvent, Replay;
    ThenAssociative(done, p, InitializeFrom(Leaves(now, p), position + 1, request, bundle));
  }

  lemma {:induction false} InitializeEnds(d: Disk, request: Hash, bundle: Hash)
    ensures InitializeFrom(d, 7, request, bundle) == NOTHING
  {
  }

  const SORTED_SIDECARS: seq<Name> := [ActionB, ValidationA, BundleB]

  lemma WriteKeeps(d: Disk, name: Name, bytes: Bytes, other: Name)
    requires other != name
    ensures var e := Leaves(d, WriteOrIdentical(d, name, bytes));
            (other in e.files <==> other in d.files) && (other in d.files ==> e.files[other] == d.files[other])
  {
    if name !in d.files { ReplayOne(d, Write(name, bytes)); }
  }

  /** Two consecutive plans are one plan, on the disk and in the log. */
  lemma Compose(start: Disk, written: seq<Action>, p: Plan, q: Plan)
    requires p.outcome.Ok?
    ensures Leaves(start, Then(p, q)) == Leaves(Leaves(start, p), q)
    ensures (written + p.actions) + q.actions == written + Then(p, q).actions
  {
    ReplayConcat(start, p.actions, q.actions);
  }

  lemma ThenAssociative(p: Plan, q: Plan, r: Plan)
    ensures Then(Then(p, q), r) == Then(p, Then(q, r))
  {
    if p.outcome.Ok? && q.outcome.Ok? {
      assert (p.actions + q.actions) + r.actions == p.actions + (q.actions + r.actions);
    }
  }
}

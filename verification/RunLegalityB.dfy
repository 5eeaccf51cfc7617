/** The Track B submission, its recovery path and finalization make legal writes only. */
module RunLegalityB {
  import opened Options
  import opened RunDisk
  import opened RunPlans
  import opened RunSafety
  import opened RunLegality
  import opened RunTelemetry
  import opened RunLegalityA

  lemma IdentityNamesDocument(bytes: Bytes, expected: Hash)
    requires MatchesIdentity(bytes, expected)
    ensures Parse(bytes).Some? && Parse(bytes) == Parse(expected.of)
  {
  }

  lemma {:induction false} PublishTrackBLegal(rt: Runtime, d: Disk, source: Source, doc: Doc)
    requires Inv(rt, d) && |d.journal| == 9
    requires ReadDoc(d, source, TrackB) == Some(doc) && Recorded(d) == Some(doc)
    ensures LegalFrom(rt, d, PublishTrackB(d, source, doc).actions)
    ensures var p := PublishTrackB(d, source, doc);
            && !p.outcome.Done?
            && (p.outcome.Ok? ==>
                  var e := Leaves(d, p);
                  && Inv(rt, e) && BoundTrackB(e)
                  && e == d.(files := d.files[TrackB := e.files[TrackB]]))
  {
    hide Inv, LegalFrom, Later, Replay, ChainedJournal;
    InvJournal(rt, d);
    LegalNothing(rt, d);
    if source.External? && TrackB !in d.files {
      LegalSnoc(rt, d, [], Write(TrackB, Canonical(doc)));
      assert [] + [Write(TrackB, Canonical(doc))] == [Write(TrackB, Canonical(doc))];
    } else if TrackB in d.files {
      assert d.files[TrackB := d.files[TrackB]] == d.files;
    }
  }

  lemma BundleBPresent(rt: Runtime, d: Disk)
    requires Inv(rt, d) && |d.journal| >= 8
    ensures BundleB in d.files
  {
    hide OrderedInputs, SidecarsOk, PreparationBound, DerivedOk, ReadyOk, ChainedJournal;
  }

  lemma {:induction false} WriteValidationBLegal(rt: Runtime, d: Disk)
    requires Inv(rt, d) && |d.journal| == 9 && BoundTrackB(d)
    ensures LegalFrom(rt, d, WriteValidationB(d).actions)
    ensures var p := WriteValidationB(d);
            && !p.outcome.Done?
            && (p.outcome.Ok? ==>
                  var e := Leaves(d, p);
                  && Inv(rt, e) && BoundTrackB(e) && ValidatedBComplete(e)
                  && e == d.(files := d.files[ValidationB := e.files[ValidationB]]))
            && (p.outcome.Ok? <==>
                  ValidationB in d.files ==> ValidatedBComplete(d))
  {
    hide Inv, LegalFrom, Later, Replay, ChainedJournal;
    InvJournal(rt, d);
    BundleBPresent(rt, d);
    WriteOrIdenticalLegal(rt, d, ValidationB, Canonical(ValidatedB(Sha256(d.files[BundleB]), Sha256(d.files[TrackB]))));
    LegalNothing(rt, d);
  }

  ghost predicate NoFinalArtifact(d: Disk) {
    Manifest !in d.files && Packet !in d.files && Html !in d.files
  }

  lemma {:induction false} CleanupLegal(rt: Runtime, d: Disk, actions: seq<Action>)
    requires LegalFrom(rt, d, actions)
    requires |Replay(d, actions).journal| == 9 && !Replay(d, actions).tornMetrics
    ensures LegalFrom(rt, d, actions + Unlinks(CLEANUP))
  {
    hide Inv, LegalFrom, Later, Replay;
    LegalLeaves(rt, d, actions);
    UnlinksLegal(rt, Replay(d, actions), CLEANUP);
    LegalConcat(rt, d, actions, Unlinks(CLEANUP));
  }

  /** A run whose finalization may write. */
  ghost predicate MayFinalize(rt: Runtime, d: Disk) {
    Inv(rt, d) && |d.journal| == 9 && d.made && !d.tornMetrics && BoundTrackB(d) && ValidatedBComplete(d)
  }

  /** Its tracks moreover name this run. */
  ghost predicate MayWrite(rt: Runtime, d: Disk) { MayFinalize(rt, d) && OwnTracks(rt, d) }

  /** One final artifact, or one measurement of its making, after the writes so far. */
  lemma {:induction false} FinalWriteLegal(rt: Runtime, d: Disk, actions: seq<Action>, a: Action)
    requires LegalFrom(rt, d, actions) && MayWrite(rt, Replay(d, actions))
    requires a.Measure? || (a.Write? && FinalArtifact(a.name) && a.name !in Replay(d, actions).files)
    ensures LegalFrom(rt, d, actions + [a]) && MayWrite(rt, Replay(d, actions + [a]))
    ensures Replay(d, actions + [a]) == Perform(Replay(d, actions), a)
  {
    hide Inv, LegalFrom, Later, Replay;
    LegalSnoc(rt, d, actions, a);
  }

  lemma {:induction false} WriteFinalArtifactsLegal(rt: Runtime, env: Env, d: Disk)
    requires MayWrite(rt, d) && NoFinalArtifact(d)
    ensures LegalFrom(rt, d, WriteFinalArtifacts(rt, env, d).actions)
    ensures var p := WriteFinalArtifacts(rt, env, d);
            && !p.outcome.Ok?
            && (p.outcome.Done? ==>
                  var e := Leaves(d, p);
                  && ManifestNow(d).Some? && DerivedPacket(rt, d) == Some(p.outcome.packet)
                  && e == d.(files := d.files[Manifest := Canonical(ManifestNow(d).value)]
                                             [Packet := Canonical(p.outcome.packet)]
                                             [Html := Page(p.outcome.packet)],
                             stages := e.stages)
                  && d.stages <= e.stages)
            && (p.outcome.Done? <==> ManifestNow(d).Some? && DerivedPacket(rt, d).Some? && env.Viewable())
  {
    hide Inv, LegalFrom, Later, Replay, MayWrite, ManifestNow, DerivedPacket, Unlinks;
    MayWriteParts(rt, d);
    LegalNothing(rt, d);
    if ManifestNow(d).None? {
      CleanupLegal(rt, d, []);
      assert [] + Unlinks(CLEANUP) == Unlinks(CLEANUP);
    } else {
      var bind := [Write(Manifest, Canonical(ManifestNow(d).value))];
      FinalWriteLegal(rt, d, [], bind[0]);
      assert [] + bind == bind;
      var packet := DerivedPacket(rt, d);
      if packet.None? {
        FinalWriteLegal(rt, d, bind, Measure(Finalizer));
        MayWriteParts(rt, Replay(d, bind + [Measure(Finalizer)]));
        CleanupLegal(rt, d, bind + [Measure(Finalizer)]);
      } else {
        FinalWriteLegal(rt, d, bind, Write(Packet, Canonical(packet.value)));
        RenderLegal(rt, env, d, bind + [Write(Packet, Canonical(packet.value))], packet.value);
      }
    }
  }

  lemma MayWriteParts(rt: Runtime, d: Disk)
    requires MayWrite(rt, d)
    ensures Inv(rt, d) && |d.journal| == 9 && !d.tornMetrics
  {
    hide Inv;
  }

  lemma MayFinalizeParts(rt: Runtime, d: Disk)
    requires MayFinalize(rt, d)
    ensures Inv(rt, d) && |d.journal| == 9 && !d.tornMetrics
  {
    hide Inv;
  }

  /** From the packet on: the measured stages up to the page, or the cleanup. */
  lemma {:induction false} RenderLegal(rt: Runtime, env: Env, d: Disk, pack: seq<Action>, packet: Doc)
    requires LegalFrom(rt, d, pack) && MayWrite(rt, Replay(d, pack)) && Html !in Replay(d, pack).files
    ensures var finalized := pack + [Measure(Finalizer)];
            var modelled := finalized + [Measure(ViewModel)];
            var imaged := modelled + [Measure(PageImages)];
            var rendered := imaged + [Write(Html, Page(packet))] + [Measure(HtmlWrite)];
            var e := Replay(d, pack);
            && LegalFrom(rt, d, modelled + Unlinks(CLEANUP)) && LegalFrom(rt, d, imaged + Unlinks(CLEANUP))
            && LegalFrom(rt, d, rendered)
            && Replay(d, rendered) == e.(files := e.files[Html := Page(packet)],
                                         stages := e.stages + {Finalizer, ViewModel, PageImages, HtmlWrite})
  {
    hide Inv, LegalFrom, Later, Replay, MayWrite, Unlinks;
    var finalized := pack + [Measure(Finalizer)];
    var modelled := finalized + [Measure(ViewModel)];
    var imaged := modelled + [Measure(PageImages)];
    FinalWriteLegal(rt, d, pack, Measure(Finalizer));
    FinalWriteLegal(rt, d, finalized, Measure(ViewModel));
    MayWriteParts(rt, Replay(d, modelled));
    CleanupLegal(rt, d, modelled);
    FinalWriteLegal(rt, d, modelled, Measure(PageImages));
    MayWriteParts(rt, Replay(d, imaged));
    CleanupLegal(rt, d, imaged);
    FinalWriteLegal(rt, d, imaged, Write(Html, Page(packet)));
    FinalWriteLegal(rt, d, imaged + [Write(Html, Page(packet))], Measure(HtmlWrite));
    assert {Finalizer} + {ViewModel} + {PageImages} + {HtmlWrite} == {Finalizer, ViewModel, PageImages, HtmlWrite};
  }

  /** What was just written is what a later verification accepts. */
  lemma WrittenIsAccepted(rt: Runtime, d: Disk, packet: Doc, stages: set<Stage>)
    requires ManifestNow(d).Some? && DerivedPacket(rt, d) == Some(packet)
    ensures var e := d.(files := d.files[Manifest := Canonical(ManifestNow(d).value)]
                                        [Packet := Canonical(packet)]
                                        [Html := Page(packet)],
                        stages := stages);
            Accepted(rt, e) && VerifiedPacket(rt, e) == Some(packet)
  {
  }

  /** Nothing differs but files and the stages that were measured. */
  ghost predicate FilesAndStages(d: Disk, e: Disk) {
    e == d.(files := e.files, stages := e.stages) && d.stages <= e.stages
  }

  lemma {:induction false} FinalizeReviewRunLegal(rt: Runtime, env: Env, d: Disk)
    requires MayFinalize(rt, d)
    ensures LegalFrom(rt, d, FinalizeReviewRun(rt, env, d).actions)
    ensures var p := FinalizeReviewRun(rt, env, d);
            && !p.outcome.Ok?
            && (p.outcome.Done? ==>
                  var e := Leaves(d, p);
                  && Inv(rt, e) && FilesAndStages(d, e) && Accepted(rt, e)
                  && VerifiedPacket(rt, e) == Some(p.outcome.packet)
                  && DerivedPacket(rt, d) == Some(p.outcome.packet))
  {
    hide Inv, LegalFrom, Later, Replay, Accepted, VerifiedPacket, WriteFinalArtifacts, ManifestNow, DerivedPacket, MayFinalize;
    MayFinalizeParts(rt, d);
    LegalNothing(rt, d);
    var p := FinalizeReviewRun(rt, env, d);
    if NoFinalArtifact(d) && OwnTracks(rt, d) {
      WriteFinalArtifactsLegal(rt, env, d);
      LegalLeaves(rt, d, p.actions);
      if p.outcome.Done? { WrittenIsAccepted(rt, d, p.outcome.packet, Leaves(d, p).stages); }
    }
  }

  lemma {:induction false} SubmitTrackBLegal(rt: Runtime, env: Env, d: Disk, source: Source)
    requires Inv(rt, d) && |d.journal| == 9 && !d.tornMetrics
    requires ReadDoc(d, source, TrackB).Some? && ReadDoc(d, source, TrackB) == Recorded(d)
    ensures LegalFrom(rt, d, SubmitTrackB(rt, env, d, source).actions)
    ensures var p := SubmitTrackB(rt, env, d, source);
            && !p.outcome.Ok?
            && (p.outcome.Done? ==>
                  var e := Leaves(d, p);
                  && Inv(rt, e) && FilesAndStages(d, e) && Accepted(rt, e)
                  && VerifiedPacket(rt, e) == Some(p.outcome.packet))
  {
    hide Inv, LegalFrom, Later, Replay, Accepted, VerifiedPacket, PublishTrackB, WriteValidationB,
         FinalizeReviewRun, ValidTrackB, BoundTrackB, ValidatedBComplete;
    LegalNothing(rt, d);
    if ValidTrackB(rt, d, source) {
      var doc := ReadDoc(d, source, TrackB).value;
      var p := PublishTrackB(d, source, doc);
      PublishTrackBLegal(rt, d, source, doc);
      var d1 := Leaves(d, p);
      var p1 := WriteValidationB(d1);
      if p.outcome.Ok? { WriteValidationBLegal(rt, d1); }
      LegalThen(rt, d, p, p1);
      var q := Then(p, p1);
      var d2 := Leaves(d, q);
      var p2 := FinalizeReviewRun(rt, env, d2);
      if q.outcome.Ok? {
        InvJournal(rt, d2);
        FinalizeReviewRunLegal(rt, env, d2);
      }
      LegalThen(rt, d, q, p2);
    }
  }

  lemma {:induction false} FinalizeAndMarkLegal(rt: Runtime, env: Env, d: Disk, source: Source)
    requires Inv(rt, d) && |d.journal| == 9 && !d.tornMetrics
    requires ReadDoc(d, source, TrackB).Some? && ReadDoc(d, source, TrackB) == Recorded(d)
    ensures LegalFrom(rt, d, FinalizeAndMark(rt, env, d, source).actions)
  {
    hide Inv, LegalFrom, Later, Replay, Accepted, SubmitTrackB, MarkReady, ReadDoc, Recorded;
    var p := SubmitTrackB(rt, env, d, source);
    SubmitTrackBLegal(rt, env, d, source);
    if p.outcome.Done? {
      var e := Leaves(d, p);
      MarkReadyLegal(rt, e, p.outcome.packet);
      LegalThen(rt, d, Plan(p.actions, Ok), MarkReady(e, p.outcome.packet));
    }
  }

  lemma {:induction false} ValidateSubmissionLegal(rt: Runtime, d: Disk, source: Source)
    requires Inv(rt, d) && d.made
    ensures LegalFrom(rt, d, ValidateSubmission(rt, d, source).actions)
    ensures var p := ValidateSubmission(rt, d, source);
            && !p.outcome.Done?
            && (p.outcome.Ok? <==> !d.tornMetrics && ValidateA in d.stages && ValidTrackB(rt, d, source))
            && Inv(rt, Leaves(d, p)) && OnlyStages(d, Leaves(d, p))
  {
    hide Inv, LegalFrom, Later, Replay, ValidTrackB, RecordExternalWait, Reported, ReadDoc, Recorded, ExistingFinalized;
    var w := RecordExternalWait(d, WaitB, ValidateA);
    RecordExternalWaitLegal(rt, d, WaitB, ValidateA);
    var d1 := Leaves(d, w);
    JudgedByFiles(rt, Env(true, true, true), d, d1, source);
    var judged := if ValidTrackB(rt, d1, source) then NOTHING else Refuse(InvalidTrackB);
    LegalNothing(rt, d1);
    ReportedLegal(rt, d1, judged, ValidateB);
    LegalThen(rt, d, w, Reported(d1, judged, ValidateB));
  }

  lemma {:induction false} EnterFinalizingLegal(rt: Runtime, env: Env, d: Disk, source: Source)
    requires Inv(rt, d) && d.made && !d.tornMetrics && Last(d) == Some(WaitingTrackB) && ValidTrackB(rt, d, source)
    ensures LegalFrom(rt, d, EnterFinalizing(rt, env, d, source).actions)
  {
    hide Inv, LegalFrom, Later, Replay, FinalizeAndMark, ChainedJournal;
    InvJournal(rt, d);
    LastPosition(d);
    LegalNothing(rt, d);
    var doc := ReadDoc(d, source, TrackB).value;
    var hash := Sha256(Canonical(doc));
    var p := AppendEvent(d, Finalizing, hash);
    AppendEventLegal(rt, d, Finalizing, hash);
    if p.outcome.Ok? {
      ReplayOne(d, p.actions[0]);
      var e := Leaves(d, p);
      assert e == Perform(d, p.actions[0]);
      LegalLeaves(rt, d, p.actions);
      assert ReadDoc(e, source, TrackB) == Some(doc);
      assert Recorded(e) == Some(doc);
      FinalizeAndMarkLegal(rt, env, e, source);
    }
    LegalThen(rt, d, p, FinalizeAndMark(rt, env, Leaves(d, p), source));
  }

  lemma {:induction false} FirstSubmissionLegal(rt: Runtime, env: Env, d: Disk, source: Source)
    requires Inv(rt, d) && d.made && Last(d) == Some(WaitingTrackB)
    ensures LegalFrom(rt, d, FirstSubmission(rt, env, d, source).actions)
  {
    hide Inv, LegalFrom, Later, Replay, ValidateSubmission, EnterFinalizing, ValidTrackB, ReadDoc, Recorded, ExistingFinalized;
    var p := ValidateSubmission(rt, d, source);
    ValidateSubmissionLegal(rt, d, source);
    var e := Leaves(d, p);
    JudgedByFiles(rt, env, d, e, source);
    if p.outcome.Ok? { EnterFinalizingLegal(rt, env, e, source); }
    LegalThen(rt, d, p, EnterFinalizing(rt, env, e, source));
  }

  lemma {:induction false} RecoverIncompleteFinalizationLegal(rt: Runtime, d: Disk, source: Source)
    requires Inv(rt, d) && |d.journal| == 9 && !d.tornMetrics
    ensures LegalFrom(rt, d, RecoverIncompleteFinalization(d, source).actions)
    ensures var p := RecoverIncompleteFinalization(d, source);
            && !p.outcome.Done?
            && (p.outcome.Ok? ==>
                  var e := Leaves(d, p);
                  && Inv(rt, e)
                  && e == d.(files := d.files - (if Malformed(d, TrackB) then {TrackB} else {}) - {Packet, Html, Manifest}))
            && (p.outcome.Ok? <==>
                  if Malformed(d, TrackB) then source.External?
                  else TrackB in d.files ==> d.ParsedFile(TrackB) == ReadDoc(d, source, TrackB))
  {
    hide Inv, LegalFrom, Later, Replay;
    LegalNothing(rt, d);
    var all := Unlinks(FINALIZATION_DERIVED);
    assert (set name | name in FINALIZATION_DERIVED) == {Packet, Html, Manifest};
    UnlinksLegal(rt, d, FINALIZATION_DERIVED);
    if Malformed(d, TrackB) {
      var a := Unlink(TrackB);
      LegalKeeps(rt, d, a, 0);
      var e := Perform(d, a);
      UnlinksLegal(rt, e, FINALIZATION_DERIVED);
      LegalCons(rt, d, a, all);
    } else {
      assert d.files - {} == d.files;
    }
  }

  /** After the validation of a retry: mark what is complete, or clear and write again. */
  lemma {:induction false} FinishOrRecoverLegal(rt: Runtime, env: Env, d: Disk, source: Source)
    requires Inv(rt, d) && |d.journal| == 9 && !d.tornMetrics
    requires ReadDoc(d, source, TrackB).Some? && ReadDoc(d, source, TrackB) == Recorded(d)
    ensures LegalFrom(rt, d, FinishOrRecover(rt, env, d, source).actions)
  {
    hide Inv, LegalFrom, Later, Replay, FinalizeAndMark, RecoverIncompleteFinalization, MarkReady,
         ExistingFinalized, Accepted, ChainedJournal;
    var existing := ExistingFinalized(rt, env, d);
    if existing.Found? {
      FoundIsAccepted(rt, env, d);
      MarkReadyLegal(rt, d, existing.packet);
    } else {
      var q := RecoverIncompleteFinalization(d, source);
      RecoverIncompleteFinalizationLegal(rt, d, source);
      var e := Leaves(d, q);
      if q.outcome.Ok? { FinalizeAndMarkLegal(rt, env, e, source); }
      LegalThen(rt, d, q, FinalizeAndMark(rt, env, e, source));
    }
  }

  lemma {:induction false} RetrySubmissionLegal(rt: Runtime, env: Env, d: Disk, source: Source)
    requires Inv(rt, d) && d.made && Last(d) == Some(Finalizing)
    ensures LegalFrom(rt, d, RetrySubmission(rt, env, d, source).actions)
  {
    hide Inv, LegalFrom, Later, Replay, ValidateSubmission, FinishOrRecover, ValidTrackB, CheckRetry, ReadDoc, Recorded,
         ExistingFinalized, ChainedJournal;
    InvJournal(rt, d);
    LastPosition(d);
    LegalNothing(rt, d);
    CheckWritesNothing(d, source);
    if CheckRetry(d, source).outcome.Ok? {
      RetryNamesRecorded(d, source);
      var p := ValidateSubmission(rt, d, source);
      ValidateSubmissionLegal(rt, d, source);
      var e := Leaves(d, p);
      JudgedByFiles(rt, env, d, e, source);
      if p.outcome.Ok? { FinishOrRecoverLegal(rt, env, e, source); }
      LegalThen(rt, d, p, FinishOrRecover(rt, env, e, source));
    }
  }

  lemma CheckWritesNothing(d: Disk, source: Source)
    ensures CheckRetry(d, source).actions == [] && !CheckRetry(d, source).outcome.Done?
  {
  }

  /** A retry is accepted only with the document the run entered FINALIZING with. */
  lemma RetryNamesRecorded(d: Disk, source: Source)
    requires CheckRetry(d, source).outcome.Ok?
    ensures ReadDoc(d, source, TrackB).Some? && ReadDoc(d, source, TrackB) == Recorded(d)
  {
  }

  lemma {:induction false} SubmitQuestionTrackBLegal(rt: Runtime, env: Env, d: Disk, source: Source)
    requires Inv(rt, d)
    ensures LegalFrom(rt, d, SubmitQuestionTrackB(rt, env, d, source).actions)
  {
    hide Inv, LegalFrom, Later, Replay, Resume, FirstSubmission, RetrySubmission, ExistingFinalized;
    ResumeLegal(rt, env, d);
    var p := Resume(rt, env, d);
    var e := Leaves(d, p);
    if p.outcome.Ok? {
      LegalNothing(rt, e);
      if Last(e) == Some(WaitingTrackB) {
        FirstSubmissionLegal(rt, env, e, source);
        LegalThen(rt, d, p, FirstSubmission(rt, env, e, source));
      } else if Last(e) == Some(Finalizing) {
        RetrySubmissionLegal(rt, env, e, source);
        LegalThen(rt, d, p, RetrySubmission(rt, env, e, source));
      } else {
        LegalThen(rt, d, p, Refuse(NotWaiting));
      }
    }
  }
}

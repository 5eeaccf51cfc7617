/** Prepare and the Track A submission make legal writes only. */
module RunLegalityA {
  import opened Options
  import opened RunDisk
  import opened RunPlans
  import opened RunSafety
  import opened RunLegality
  import opened RunTelemetry

  function InputFiles(rt: Runtime): map<Name, Bytes> {
    map[Request := Canonical(rt.request), BundleA := Canonical(rt.bundle),
        Confidence := Canonical(rt.confidence), Query := Canonical(rt.query), ActionA := Canonical(rt.action)]
  }

  const PREPARED: set<Stage> := {Normalization, Retrieval, RequestBuild, Preparation}

  lemma UnmadeIsEmpty(rt: Runtime, d: Disk)
    requires Inv(rt, d) && !d.made
    ensures d == EMPTY_DISK
  {
    hide OrderedInputs, HandoffOk, SidecarsOk, PreparationBound, DerivedOk, ReadyOk, ChainedJournal;
  }

  /** The part of the preparation before its telemetry. */
  lemma {:induction false} FirstInputsLegal(rt: Runtime, d: Disk)
    requires Inv(rt, d) && !d.made
    ensures var actions := WriteInputs(rt).actions[..5];
            && LegalFrom(rt, d, actions) && Inv(rt, Replay(d, actions))
            && Replay(d, actions) == Disk(true, InputFiles(rt) - {ActionA}, [], false, {}, false)
  {
    hide LegalFrom, Later, Inv, Replay, Measures;
    UnmadeIsEmpty(rt, d);
    LegalNothing(rt, d);
    var all := WriteInputs(rt).actions;
    LegalSnoc(rt, d, [], MakeDirectory);
    assert [] + [MakeDirectory] == all[..1];
    LegalSnoc(rt, d, all[..1], all[1]);
    assert all[..1] + [all[1]] == all[..2];
    LegalSnoc(rt, d, all[..2], all[2]);
    assert all[..2] + [all[2]] == all[..3];
    LegalSnoc(rt, d, all[..3], all[3]);
    assert all[..3] + [all[3]] == all[..4];
    LegalSnoc(rt, d, all[..4], all[4]);
    assert all[..4] + [all[4]] == all[..5];
  }

  lemma {:induction false} WriteInputsLegal(rt: Runtime, d: Disk)
    requires Inv(rt, d) && !d.made
    ensures LegalFrom(rt, d, WriteInputs(rt).actions)
    ensures Inv(rt, Leaves(d, WriteInputs(rt)))
    ensures Leaves(d, WriteInputs(rt)) == Disk(true, InputFiles(rt), [], false, PREPARED, false)
  {
    hide LegalFrom, Later, Inv, Replay, Measures;
    var all := WriteInputs(rt).actions;
    var first := all[..5];
    FirstInputsLegal(rt, d);
    var e := Replay(d, first);
    MeasuresLegal(rt, e, PREPARATION);
    LegalConcat(rt, d, first, Measures(PREPARATION));
    ReplayConcat(d, first, Measures(PREPARATION));
    assert (set stage | stage in PREPARATION) == PREPARED;
    var f := Replay(e, Measures(PREPARATION));
    assert f == e.(stages := PREPARED);
    LegalSnoc(rt, d, first + Measures(PREPARATION), Write(ActionA, Canonical(rt.action)));
    assert first + Measures(PREPARATION) + [Write(ActionA, Canonical(rt.action))] == all;
  }

  lemma {:induction false} ReprepareLegal(rt: Runtime, env: Env, d: Disk)
    requires Inv(rt, d) && d.made && Holds(d, Request, Canonical(rt.request))
    ensures LegalFrom(rt, d, Reprepare(rt, env, d).actions)
  {
    hide Inv, Legal, LegalFrom, Later, Replay, WriteOrIdentical, ReportPreparation, Resume;
    var p := WriteOrIdentical(d, Query, Canonical(rt.query));
    WriteOrIdenticalLegal(rt, d, Query, Canonical(rt.query));
    var e := Leaves(d, p);
    var q := Then(p, ReportPreparation(e));
    if p.outcome.Ok? { ReportPreparationLegal(rt, e); }
    LegalThen(rt, d, p, ReportPreparation(e));
    var f := Leaves(d, q);
    if q.outcome.Ok? { ResumeLegal(rt, env, f); }
    LegalThen(rt, d, q, Resume(rt, env, f));
  }

  lemma {:induction false} PrepareLegal(rt: Runtime, env: Env, d: Disk)
    requires Inv(rt, d)
    ensures LegalFrom(rt, d, Prepare(rt, env, d).actions)
  {
    hide Inv, Legal, LegalFrom, Later, Replay, WriteInputs, InitializeEvents, Resume, Reprepare;
    LegalNothing(rt, d);
    if !d.made {
      var p := WriteInputs(rt);
      WriteInputsLegal(rt, d);
      var e := Leaves(d, p);
      InitializeEventsLegal(rt, e);
      var q := Then(p, InitializeEvents(e));
      LegalThen(rt, d, p, InitializeEvents(e));
      var f := Leaves(d, q);
      LegalLeaves(rt, d, q.actions);
      ResumeLegal(rt, env, f);
      LegalThen(rt, d, q, Resume(rt, env, f));
    } else if Request in d.files && d.files[Request] == Canonical(rt.request) {
      ReprepareLegal(rt, env, d);
    }
  }

  lemma {:induction false} WriteOrIdenticalLegal(rt: Runtime, d: Disk, name: Name, bytes: Bytes)
    requires Inv(rt, d)
    requires name !in d.files ==> LegalWrite(rt, d, name, bytes)
    ensures LegalFrom(rt, d, WriteOrIdentical(d, name, bytes).actions)
    ensures var p := WriteOrIdentical(d, name, bytes);
            && !p.outcome.Done?
            && (p.outcome.Ok? ==> Leaves(d, p) == d.(files := d.files[name := bytes]) && Inv(rt, Leaves(d, p)))
            && (p.outcome.Ok? <==> name in d.files ==> d.files[name] == bytes)
  {
    hide Inv, LegalFrom, Later, Replay, LegalWrite;
    LegalNothing(rt, d);
    if name !in d.files {
      LegalSnoc(rt, d, [], Write(name, bytes));
      assert [] + [Write(name, bytes)] == [Write(name, bytes)];
    } else if d.files[name] == bytes {
      assert d.files[name := bytes] == d.files;
    }
  }

  lemma {:induction false} RecoverMalformedTrackALegal(rt: Runtime, d: Disk)
    requires Inv(rt, d) && |d.journal| == 7 && rt.WellFormed()
    ensures LegalFrom(rt, d, RecoverMalformedTrackA(rt, d).actions)
    ensures var p := RecoverMalformedTrackA(rt, d);
            var e := Leaves(d, p);
            && !p.outcome.Done?
            && Inv(rt, e) && e == d.(files := e.files)
            && (forall name | !Sidecar(name) :: name in d.files <==> name in e.files)
            && (forall name | !Sidecar(name) && name in d.files :: e.files[name] == d.files[name])
  {
    hide Inv, LegalFrom, Later, Replay;
    LegalNothing(rt, d);
    forall i | 0 <= i < |rt.sidecarOrder|
      ensures Sidecar(rt.sidecarOrder[i])
    {
      assert rt.sidecarOrder[i] in multiset(rt.sidecarOrder);
    }
    UnlinksLegal(rt, d, rt.sidecarOrder);
  }

  lemma {:induction false} PublishTrackALegal(rt: Runtime, d: Disk, source: Source, doc: Doc)
    requires Inv(rt, d) && d.made && |d.journal| == 7
    requires ReadDoc(d, source, TrackA) == Some(doc)
    ensures LegalFrom(rt, d, PublishTrackA(d, source, doc).actions)
    ensures var p := PublishTrackA(d, source, doc);
            && !p.outcome.Done?
            && (p.outcome.Ok? ==>
                  var e := Leaves(d, p);
                  && Inv(rt, e) && e.ParsedFile(TrackA) == Some(doc)
                  && (source.RunLocal? ==> e == d)
                  && e == d.(files := d.files[TrackA := e.files[TrackA]]))
  {
    hide Inv, LegalFrom, Later, Replay;
    LegalNothing(rt, d);
    if source.RunLocal? {
      assert d.files[TrackA := d.files[TrackA]] == d.files;
    } else {
      WriteOrIdenticalLegal(rt, d, TrackA, Canonical(doc));
    }
  }

  lemma {:induction false} WriteSidecarsLegal(rt: Runtime, d: Disk, doc: Doc)
    requires Inv(rt, d) && d.made && |d.journal| == 7
    requires d.ParsedFile(TrackA) == Some(doc)
    ensures LegalFrom(rt, d, WriteSidecars(d, doc).actions)
    ensures var p := WriteSidecars(d, doc);
            && !p.outcome.Done?
            && (p.outcome.Ok? ==>
                  && Inv(rt, Leaves(d, p))
                  && Leaves(d, p) == d.(files := d.files[BundleB := Canonical(TrackBBundle(doc))]
                                                        [ActionB := Canonical(TrackBAction)]
                                                        [ValidationA := Canonical(ValidatedA(Sha256(d.files[TrackA])))]))
  {
    hide Inv, LegalFrom, Later, Replay;
    var p1 := WriteOrIdentical(d, BundleB, Canonical(TrackBBundle(doc)));
    WriteOrIdenticalLegal(rt, d, BundleB, Canonical(TrackBBundle(doc)));
    var d1 := Leaves(d, p1);
    var p2 := WriteOrIdentical(d1, ActionB, Canonical(TrackBAction));
    var q2 := Then(p1, p2);
    if p1.outcome.Ok? {
      WriteOrIdenticalLegal(rt, d1, ActionB, Canonical(TrackBAction));
    }
    LegalThen(rt, d, p1, p2);
    var d2 := Leaves(d, q2);
    var record := Canonical(ValidatedA(Sha256(d.files[TrackA])));
    if q2.outcome.Ok? {
      WriteOrIdenticalLegal(rt, d2, ValidationA, record);
    }
    LegalThen(rt, d, q2, WriteOrIdentical(d2, ValidationA, record));
  }

  /** The sidecars of a validated Track A complete the handoff. */
  lemma HandoffWritten(rt: Runtime, d: Disk, doc: Doc)
    requires CompleteInputs(rt, d) && ActionA in d.files
    requires d.ParsedFile(TrackA) == Some(doc) && rt.validA(doc)
    ensures Handoff(rt, d.(files := d.files[BundleB := Canonical(TrackBBundle(doc))]
                                           [ActionB := Canonical(TrackBAction)]
                                           [ValidationA := Canonical(ValidatedA(Sha256(d.files[TrackA])))]))
  {
  }

  lemma InputsComplete(rt: Runtime, d: Disk)
    requires Inv(rt, d) && ActionA in d.files
    ensures CompleteInputs(rt, d)
  {
    hide HandoffOk, SidecarsOk, PreparationBound, DerivedOk, ReadyOk, ChainedJournal;
  }

  lemma {:induction false} RecoverAndPublishLegal(rt: Runtime, d: Disk, source: Source, doc: Doc)
    requires Inv(rt, d) && d.made && |d.journal| == 7 && rt.WellFormed() && ActionA in d.files
    requires ReadDoc(d, source, TrackA) == Some(doc)
    ensures var p := RecoverMalformedTrackA(rt, d);
            var q := Then(p, PublishTrackA(Leaves(d, p), source, doc));
            && LegalFrom(rt, d, q.actions) && !q.outcome.Done?
            && (q.outcome.Ok? ==>
                  var e := Leaves(d, q);
                  && Inv(rt, e) && e.made && |e.journal| == 7 && CompleteInputs(rt, e) && ActionA in e.files
                  && e.ParsedFile(TrackA) == Some(doc) && e == d.(files := e.files) && SameFile(d, e, TrackB))
  {
    hide Inv, LegalFrom, Later, Replay, RecoverMalformedTrackA, PublishTrackA, CompleteInputs;
    LegalNothing(rt, d);
    var p := RecoverMalformedTrackA(rt, d);
    RecoverMalformedTrackALegal(rt, d);
    var d1 := Leaves(d, p);
    assert ReadDoc(d1, source, TrackA) == Some(doc);
    PublishTrackALegal(rt, d1, source, doc);
    LegalThen(rt, d, p, PublishTrackA(d1, source, doc));
    var q := Then(p, PublishTrackA(d1, source, doc));
    if q.outcome.Ok? { InputsComplete(rt, Leaves(d, q)); }
  }

  lemma {:induction false} SidecarsCompleteHandoff(rt: Runtime, d: Disk, doc: Doc)
    requires Inv(rt, d) && d.made && |d.journal| == 7
    requires CompleteInputs(rt, d) && ActionA in d.files
    requires d.ParsedFile(TrackA) == Some(doc) && rt.validA(doc)
    ensures var p := WriteSidecars(d, doc);
            && LegalFrom(rt, d, p.actions) && !p.outcome.Done?
            && (p.outcome.Ok? ==>
                  var e := Leaves(d, p);
                  && Inv(rt, e) && Handoff(rt, e) && e == d.(files := e.files)
                  && e.ParsedFile(TrackA) == Some(doc) && SameFile(d, e, TrackB))
  {
    hide Inv, LegalFrom, Later, Replay, WriteSidecars, CompleteInputs, Handoff;
    WriteSidecarsLegal(rt, d, doc);
    HandoffWritten(rt, d, doc);
  }

  lemma {:induction false} SubmitTrackALegal(rt: Runtime, d: Disk, source: Source)
    requires Inv(rt, d) && d.made && |d.journal| == 7 && rt.WellFormed() && ActionA in d.files
    ensures LegalFrom(rt, d, SubmitTrackA(rt, d, source).actions)
    ensures var p := SubmitTrackA(rt, d, source);
            && !p.outcome.Done?
            && (p.outcome.Ok? ==>
                  var e := Leaves(d, p);
                  && Inv(rt, e) && Handoff(rt, e) && e == d.(files := e.files)
                  && e.ParsedFile(TrackA) == ReadDoc(d, source, TrackA) && SameFile(d, e, TrackB))
  {
    hide Inv, LegalFrom, Later, Replay, RecoverMalformedTrackA, PublishTrackA, WriteSidecars, CompleteInputs, Handoff;
    hide ReadDoc;
    LegalNothing(rt, d);
    var doc := ReadDoc(d, source, TrackA);
    if BundleA in d.files && Confidence in d.files && doc.Some? && rt.validA(doc.value) {
      RecoverAndPublishLegal(rt, d, source, doc.value);
      var p := RecoverMalformedTrackA(rt, d);
      var q := Then(p, PublishTrackA(Leaves(d, p), source, doc.value));
      var e := Leaves(d, q);
      if q.outcome.Ok? {
        SidecarsCompleteHandoff(rt, e, doc.value);
      }
      LegalThen(rt, d, q, WriteSidecars(e, doc.value));
    }
  }

  /** The measured submission: when it is accepted the handoff is complete and measured. */
  lemma {:induction false} MeasuredSubmissionLegal(rt: Runtime, d: Disk, source: Source)
    requires Inv(rt, d) && d.made && |d.journal| == 7 && rt.WellFormed() && ActionA in d.files
    ensures var w := RecordExternalWait(d, WaitA, Preparation);
            var d1 := Leaves(d, w);
            var q := Then(w, Reported(d1, SubmitTrackA(rt, d1, source), ValidateA));
            && LegalFrom(rt, d, q.actions) && !q.outcome.Done?
            && (q.outcome.Ok? ==>
                  var e := Leaves(d, q);
                  && Inv(rt, e) && Handoff(rt, e) && e == d.(files := e.files, stages := e.stages)
                  && e.ParsedFile(TrackA) == ReadDoc(d, source, TrackA) && SameFile(d, e, TrackB)
                  && ValidateA in e.stages && !e.tornMetrics)
  {
    hide Inv, LegalFrom, Later, Replay, RecordExternalWait, SubmitTrackA, AppendStage, Handoff, Reported;
    var w := RecordExternalWait(d, WaitA, Preparation);
    RecordExternalWaitLegal(rt, d, WaitA, Preparation);
    var d1 := Leaves(d, w);
    var p := SubmitTrackA(rt, d1, source);
    SubmitTrackALegal(rt, d1, source);
    MadeAfter(rt, d1, p);
    ReportedLegal(rt, d1, p, ValidateA);
    LegalThen(rt, d, w, Reported(d1, p, ValidateA));
    if w.outcome.Ok? && p.outcome.Ok? {
      var e := Leaves(d1, p);
      JudgedByFiles(rt, Env(true, true, true), e, Leaves(d1, Reported(d1, p, ValidateA)), source);
    }
  }

  lemma {:induction false} MadeAfter(rt: Runtime, d: Disk, p: Plan)
    requires LegalFrom(rt, d, p.actions) && d.made
    ensures Leaves(d, p).made
  {
    LegalLeaves(rt, d, p.actions);
  }

  lemma {:induction false} AcceptTrackALegal(rt: Runtime, d: Disk, source: Source)
    requires Inv(rt, d) && d.made && |d.journal| == 7 && rt.WellFormed() && ActionA in d.files
    ensures LegalFrom(rt, d, AcceptTrackA(rt, d, source).actions) && !AcceptTrackA(rt, d, source).outcome.Done?
  {
    hide Inv, LegalFrom, Later, Replay, RecordExternalWait, SubmitTrackA, AppendStage, AppendEvent, Handoff, Reported;
    MeasuredSubmissionLegal(rt, d, source);
    var w := RecordExternalWait(d, WaitA, Preparation);
    var d1 := Leaves(d, w);
    var q := Then(w, Reported(d1, SubmitTrackA(rt, d1, source), ValidateA));
    var d2 := Leaves(d, q);
    var bytes := Read(d, source, TrackA);
    if q.outcome.Ok? && bytes.Some? {
      AppendHandoffLegal(rt, d2, Sha256(bytes.value));
      LegalThen(rt, d, q, AppendEvent(d2, WaitingTrackB, Sha256(bytes.value)));
    } else if q.outcome.Ok? {
      LegalNothing(rt, d2);
      LegalThen(rt, d, q, Refuse(MissingArtifact));
    }
  }

  lemma {:induction false} SubmitQuestionTrackALegal(rt: Runtime, env: Env, d: Disk, source: Source)
    requires Inv(rt, d) && rt.WellFormed()
    ensures LegalFrom(rt, d, SubmitQuestionTrackA(rt, env, d, source).actions)
  {
    hide Inv, LegalFrom, Later, Replay, Resume, AcceptTrackA;
    ResumeLegal(rt, env, d);
    var p := Resume(rt, env, d);
    var d1 := Leaves(d, p);
    if p.outcome.Ok? && Last(d1) == Some(WaitingTrackA) {
      AcceptTrackALegal(rt, d1, source);
      LegalThen(rt, d, p, AcceptTrackA(rt, d1, source));
    }
  }

  lemma HandoffFiles(rt: Runtime, d: Disk)
    requires Handoff(rt, d)
    ensures Request in d.files && BundleA in d.files
  {
  }

  lemma {:induction false} AppendHandoffLegal(rt: Runtime, d: Disk, payload: Hash)
    requires Inv(rt, d) && d.made && |d.journal| == 7 && Handoff(rt, d)
    requires ValidateA in d.stages && !d.tornMetrics
    requires Parse(payload.of) == d.ParsedFile(TrackA)
    ensures LegalFrom(rt, d, AppendEvent(d, WaitingTrackB, payload).actions)
    ensures !AppendEvent(d, WaitingTrackB, payload).outcome.Done?
  {
    hide Inv, LegalFrom, Later, Replay;
    AppendEventLegal(rt, d, WaitingTrackB, payload);
  }
}

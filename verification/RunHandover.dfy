/** Exactly when a Track A submission is accepted by a run that waits for one, whatever an
    earlier, interrupted submission left behind. */
module RunHandover {
  import opened Options
  import opened RunDisk
  import opened RunPlans
  import opened RunSafety
  import opened RunLegality
  import opened RunTelemetry
  import opened RunLegalityA
  import opened RunTheorems
  import opened RunRecovery

  /** The journal and the telemetry load. */
  ghost predicate NothingTorn(d: Disk) { !d.tornTail && !d.tornMetrics }

  /** The run-local Track A is still missing, or is byte for byte what is submitted. */
  ghost predicate FreeFor(d: Disk, source: Source, doc: Doc) {
    source.External? && TrackA in d.files ==> d.files[TrackA] == Canonical(doc)
  }

  /** No sidecar is torn or stale. */
  ghost predicate SidecarsFresh(d: Disk)
    requires TrackA in d.files && d.ParsedFile(TrackA).Some?
  {
    forall name | Sidecar(name) && name in d.files :: d.files[name] == SidecarBytes(d, name)
  }

  /** After the recovery no sidecar is torn, and none is stale. */
  lemma RecoverySettles(rt: Runtime, d: Disk, doc: Doc)
    requires Inv(rt, d) && |d.journal| == 7 && rt.WellFormed()
    ensures var p := RecoverMalformedTrackA(rt, d);
            var e := Leaves(d, p);
            && (p.outcome.Ok? <==> !Malformed(d, TrackA))
            && (p.outcome.Ok? ==> forall name | Sidecar(name) && name in e.files :: Parse(e.files[name]).Some?)
  {
    hide Inv, LegalFrom, Later, Replay;
    if !Malformed(d, TrackA) {
      forall i | 0 <= i < |rt.sidecarOrder| ensures Sidecar(rt.sidecarOrder[i]) {
        assert rt.sidecarOrder[i] in multiset(rt.sidecarOrder);
      }
      UnlinksLegal(rt, d, rt.sidecarOrder);
      forall name | Sidecar(name) ensures name in rt.sidecarOrder {
        assert name in multiset(rt.sidecarOrder);
      }
      LegalNothing(rt, d);
    }
  }

  lemma SettledIsFresh(rt: Runtime, d: Disk)
    requires Inv(rt, d) && d.ParsedFile(TrackA).Some?
    requires forall name | Sidecar(name) && name in d.files :: Parse(d.files[name]).Some?
    ensures SidecarsFresh(d)
  {
    hide OrderedInputs, HandoffOk, DerivedOk, ReadyOk, ChainedJournal;
  }

  /** Recovery and publication go through exactly when the run-local Track A does not stand in
      the way, and leave fresh sidecars. */
  lemma PublishedIff(rt: Runtime, d: Disk, source: Source, doc: Doc)
    requires Inv(rt, d) && d.made && |d.journal| == 7 && rt.WellFormed() && ActionA in d.files
    requires ReadDoc(d, source, TrackA) == Some(doc)
    ensures var p := RecoverMalformedTrackA(rt, d);
            var q := Then(p, PublishTrackA(Leaves(d, p), source, doc));
            && (q.outcome.Ok? <==> FreeFor(d, source, doc))
            && (q.outcome.Ok? ==> Leaves(d, q).ParsedFile(TrackA) == Some(doc) && SidecarsFresh(Leaves(d, q)))
  {
    hide Inv, LegalFrom, Later, Replay, RecoverMalformedTrackA;
    var p := RecoverMalformedTrackA(rt, d);
    RecoverMalformedTrackALegal(rt, d);
    RecoverySettles(rt, d, doc);
    if p.outcome.Ok? {
      var e := Leaves(d, p);
      PublishTrackALegal(rt, e, source, doc);
      var q := PublishTrackA(e, source, doc);
      ReplayConcat(d, p.actions, q.actions);
      if q.outcome.Ok? {
        var f := Leaves(e, q);
        assert forall name | Sidecar(name) && name in f.files :: name in e.files && f.files[name] == e.files[name];
        SettledIsFresh(rt, f);
      }
    }
  }

  /** Fresh sidecars are never in the way. */
  lemma SidecarsWritten(rt: Runtime, d: Disk, doc: Doc)
    requires Inv(rt, d) && d.made && |d.journal| == 7
    requires d.ParsedFile(TrackA) == Some(doc) && SidecarsFresh(d)
    ensures WriteSidecars(d, doc).outcome.Ok?
  {
    hide Inv, LegalFrom, Later, Replay;
    assert Sidecar(BundleB) && Sidecar(ActionB) && Sidecar(ValidationA);
    var bundle := Canonical(TrackBBundle(doc));
    WriteOrIdenticalLegal(rt, d, BundleB, bundle);
    var d1 := Leaves(d, WriteOrIdentical(d, BundleB, bundle));
    WriteOrIdenticalLegal(rt, d1, ActionB, Canonical(TrackBAction));
    ReplayConcat(d, WriteOrIdentical(d, BundleB, bundle).actions, WriteOrIdentical(d1, ActionB, Canonical(TrackBAction)).actions);
  }

  lemma SubmitTrackAIff(rt: Runtime, d: Disk, source: Source, doc: Doc)
    requires Inv(rt, d) && d.made && |d.journal| == 7 && rt.WellFormed() && ActionA in d.files
    requires ReadDoc(d, source, TrackA) == Some(doc) && rt.validA(doc)
    ensures SubmitTrackA(rt, d, source).outcome.Ok? <==> FreeFor(d, source, doc)
  {
    hide Inv, LegalFrom, Later, Replay, RecoverMalformedTrackA, PublishTrackA, WriteSidecars, SidecarsFresh;
    InputsComplete(rt, d);
    var p := RecoverMalformedTrackA(rt, d);
    var q := Then(p, PublishTrackA(Leaves(d, p), source, doc));
    PublishedIff(rt, d, source, doc);
    RecoverAndPublishLegal(rt, d, source, doc);
    if q.outcome.Ok? { SidecarsWritten(rt, Leaves(d, q), doc); }
  }

  lemma MeasuredSubmissionIff(rt: Runtime, d: Disk, source: Source, doc: Doc)
    requires Inv(rt, d) && d.made && |d.journal| == 7 && rt.WellFormed() && ActionA in d.files
    requires ReadDoc(d, source, TrackA) == Some(doc) && rt.validA(doc)
    ensures var w := RecordExternalWait(d, WaitA, Preparation);
            var d1 := Leaves(d, w);
            Then(w, Reported(d1, SubmitTrackA(rt, d1, source), ValidateA)).outcome.Ok? <==>
              !d.tornMetrics && FreeFor(d, source, doc)
  {
    hide Inv, LegalFrom, Later, Replay, RecordExternalWait, SubmitTrackA, Reported, AppendStage;
    PreparationWasMeasured(rt, d);
    var w := RecordExternalWait(d, WaitA, Preparation);
    RecordExternalWaitLegal(rt, d, WaitA, Preparation);
    if w.outcome.Ok? {
      var d1 := Leaves(d, w);
      SubmitTrackAIff(rt, d1, source, doc);
      SubmitTrackALegal(rt, d1, source);
      MadeAfter(rt, d1, SubmitTrackA(rt, d1, source));
      ReportedLegal(rt, d1, SubmitTrackA(rt, d1, source), ValidateA);
    }
  }

  lemma PreparationWasMeasured(rt: Runtime, d: Disk)
    requires Inv(rt, d) && ActionA in d.files
    ensures Preparation in d.stages && d.made && Holds(d, Request, Canonical(rt.request)) && Holds(d, Query, Canonical(rt.query))
    ensures CompleteInputs(rt, d)
  {
    hide HandoffOk, SidecarsOk, PreparationBound, DerivedOk, ReadyOk, ChainedJournal;
  }

  /** Resuming a run that waits for Track A writes nothing. */
  lemma ResumeAtSeven(rt: Runtime, env: Env, d: Disk)
    requires Inv(rt, d) && |d.journal| == 7 && ActionA in d.files && env.evidence
    ensures Resume(rt, env, d) == if d.tornTail then Refuse(TornJournal) else NOTHING
    ensures Last(d) == Some(WaitingTrackA)
  {
    hide Inv, ChainedJournal;
    InvJournal(rt, d);
    PreparationWasMeasured(rt, d);
    LastPosition(d);
    ThenNothing(ResumeNonEmpty(rt, env, d));
  }

  lemma HandoverAppended(rt: Runtime, d: Disk, payload: Hash)
    requires ChainedJournal(d) && |d.journal| == 7 && !d.tornTail
    ensures AppendEvent(d, WaitingTrackB, payload) == Plan([Append(Event(8, Last(d), WaitingTrackB, payload))], Ok)
    ensures |Leaves(d, AppendEvent(d, WaitingTrackB, payload)).journal| == 8
  {
    hide ChainedJournal, Replay;
    LastPosition(d);
    ReplayOne(d, Append(Event(8, Last(d), WaitingTrackB, payload)));
  }

  // ---------------------------------------------------------------- writes without events

  ghost predicate NoEvent(actions: seq<Action>) {
    forall i | 0 <= i < |actions| :: !actions[i].Append?
  }

  lemma {:induction false} NoEventReplay(d: Disk, actions: seq<Action>)
    requires NoEvent(actions)
    ensures Replay(d, actions).journal == d.journal
    decreases |actions|
  {
    if actions != [] {
      assert forall i | 0 <= i < |actions[1..]| :: actions[1..][i] == actions[i + 1];
      NoEventReplay(Perform(d, actions[0]), actions[1..]);
    }
  }

  lemma EmptyNoEvent()
    ensures NoEvent([])
  {
  }

  lemma {:induction false} UnlinksNoEvent(names: seq<Name>)
    ensures NoEvent(Unlinks(names))
  {
    if names != [] { UnlinksNoEvent(names[1..]); }
  }

  lemma SubmitTrackANoEvent(rt: Runtime, d: Disk, source: Source)
    ensures NoEvent(SubmitTrackA(rt, d, source).actions)
  {
    hide Replay, ReadDoc, NoEvent, RecoverMalformedTrackA, PublishTrackA, WriteSidecars;
    var doc := ReadDoc(d, source, TrackA);
    if doc.Some? {
      var p := RecoverMalformedTrackA(rt, d);
      RecoveryNoEvent(rt, d);
      PublicationNoEvent(Leaves(d, p), source, doc.value);
      ThenNoEvent(p, PublishTrackA(Leaves(d, p), source, doc.value));
      var q := Then(p, PublishTrackA(Leaves(d, p), source, doc.value));
      SidecarsNoEvent(Leaves(d, q), doc.value);
      ThenNoEvent(q, WriteSidecars(Leaves(d, q), doc.value));
    }
    EmptyNoEvent();
  }

  lemma ThenNoEvent(p: Plan, q: Plan)
    requires NoEvent(p.actions) && NoEvent(q.actions)
    ensures NoEvent(Then(p, q).actions)
  {
  }

  lemma RecoveryNoEvent(rt: Runtime, d: Disk)
    ensures NoEvent(RecoverMalformedTrackA(rt, d).actions)
  {
    UnlinksNoEvent(rt.sidecarOrder);
  }

  lemma PublicationNoEvent(d: Disk, source: Source, doc: Doc)
    ensures NoEvent(PublishTrackA(d, source, doc).actions)
  {
  }

  lemma SidecarsNoEvent(d: Disk, doc: Doc)
    ensures NoEvent(WriteSidecars(d, doc).actions)
  {
    hide Replay;
  }

  /** A refused submission journals nothing. */
  lemma RefusedKeepsJournal(rt: Runtime, d: Disk, source: Source)
    requires !AcceptTrackA(rt, d, source).outcome.Ok?
    ensures NoEvent(AcceptTrackA(rt, d, source).actions)
    ensures Leaves(d, AcceptTrackA(rt, d, source)).journal == d.journal
  {
    hide Replay, SubmitTrackA, Read;
    var d1 := Leaves(d, RecordExternalWait(d, WaitA, Preparation));
    SubmitTrackANoEvent(rt, d1, source);
    NoEventReplay(d, AcceptTrackA(rt, d, source).actions);
  }

  lemma AcceptTrackAIff(rt: Runtime, d: Disk, source: Source, doc: Doc)
    requires Inv(rt, d) && d.made && |d.journal| == 7 && rt.WellFormed() && ActionA in d.files && !d.tornTail
    requires ReadDoc(d, source, TrackA) == Some(doc) && rt.validA(doc)
    ensures var p := AcceptTrackA(rt, d, source);
            var e := Leaves(d, p);
            && (p.outcome.Ok? <==> !d.tornMetrics && FreeFor(d, source, doc))
            && (p.outcome.Ok? ==> |e.journal| == 8 && e.ParsedFile(TrackA) == Some(doc) && NothingTorn(e) && SameFile(d, e, TrackB))
            && (!p.outcome.Ok? ==> e.journal == d.journal)
  {
    hide Inv, LegalFrom, Later, Replay, RecordExternalWait, SubmitTrackA, Reported, AppendEvent, Handoff, FreeFor, ChainedJournal;
    MeasuredSubmissionIff(rt, d, source, doc);
    MeasuredSubmissionLegal(rt, d, source);
    var w := RecordExternalWait(d, WaitA, Preparation);
    var d1 := Leaves(d, w);
    var q := Then(w, Reported(d1, SubmitTrackA(rt, d1, source), ValidateA));
    var bytes := Read(d, source, TrackA);
    if q.outcome.Ok? {
      var d2 := Leaves(d, q);
      InvJournal(rt, d2);
      HandoffFiles(rt, d2);
      HandoverAppended(rt, d2, Sha256(bytes.value));
      AppendEventLegal(rt, d2, WaitingTrackB, Sha256(bytes.value));
      ReplayConcat(d, q.actions, AppendEvent(d2, WaitingTrackB, Sha256(bytes.value)).actions);
    } else {
      RefusedKeepsJournal(rt, d, source);
    }
  }

  /** Resubmitting to a run that waits for Track A, whatever an interrupted submission left:
      the run moves on exactly when nothing is torn and the run-local Track A is missing, or
      is what is submitted.  Torn or missing sidecars are no obstacle. */
  lemma {:induction false} TrackASubmissionIff(rt: Runtime, steps: seq<Step>, env: Env, source: Source, doc: Doc)
    requires rt.WellFormed() && env.evidence
    requires |AfterRun(rt, steps).journal| == 7 && ActionA in AfterRun(rt, steps).files
    requires ReadDoc(AfterRun(rt, steps), source, TrackA) == Some(doc) && rt.validA(doc)
    ensures var d := AfterRun(rt, steps);
            var call := CallTrackA(source);
            var e := AfterRun(rt, steps + [Step(call, env, |PlanOf(rt, env, d, call).actions|, None)]);
            && (NothingTorn(d) && FreeFor(d, source, doc) <==> |e.journal| == 8)
            && (|e.journal| == 8 ==> Handoff(rt, e) && e.ParsedFile(TrackA) == Some(doc))
  {
    hide Inv, AfterRun, AcceptTrackA, Resume, Replay, FreeFor, Handoff, ReadDoc;
    var d := AfterRun(rt, steps);
    var call := CallTrackA(source);
    var step := Step(call, env, |PlanOf(rt, env, d, call).actions|, None);
    RunSafe(rt, steps);
    RunSafe(rt, steps + [step]);
    CompletedRun(rt, steps, step);
    ResumeAtSeven(rt, env, d);
    PreparationWasMeasured(rt, d);
    if d.tornTail {
      RefusedLeaves(d, TornJournal);
    } else {
      AcceptTrackAIff(rt, d, source, doc);
      ThenNothing(AcceptTrackA(rt, d, source));
      RefusedLeaves(d, TornJournal);
    }
    var e := AfterRun(rt, steps + [step]);
    if |e.journal| == 8 { HandedOverHandoff(rt, e); }
  }

  lemma {:induction false} CompletedRun(rt: Runtime, steps: seq<Step>, step: Step)
    requires step.cut == |PlanOf(rt, step.env, AfterRun(rt, steps), step.call).actions|
    ensures AfterRun(rt, steps + [step]) == Leaves(AfterRun(rt, steps), PlanOf(rt, step.env, AfterRun(rt, steps), step.call))
  {
    hide PlanOf, Replay;
    assert (steps + [step])[..|steps + [step]| - 1] == steps;
  }

  lemma HandedOverHandoff(rt: Runtime, d: Disk)
    requires Inv(rt, d) && |d.journal| == 8
    ensures Handoff(rt, d)
  {
    hide OrderedInputs, SidecarsOk, PreparationBound, DerivedOk, ReadyOk, ChainedJournal;
  }
}

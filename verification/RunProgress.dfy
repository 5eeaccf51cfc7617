/** From each reachable state, the calls that finish the run with a given pair of outputs. */
module RunProgress {
  import opened Options
  import opened RunDisk
  import opened RunPlans
  import opened RunSafety
  import opened RunLegality
  import opened RunTelemetry
  import opened RunLegalityA
  import opened RunLegalityB
  import opened RunTheorems
  import opened RunRecovery
  import opened RunWitness
  import opened RunHandover

  /** A run-local Track A, and a run-local Track B that is a document, are these two. */
  ghost predicate Compatible(d: Disk, a: Doc, b: Doc) {
    && (TrackA in d.files ==> d.ParsedFile(TrackA) == Some(a))
    && (d.ParsedFile(TrackB).Some? ==> d.ParsedFile(TrackB) == Some(b))
  }

  /** What a caller can look up to see whether the run may still end with `a` and `b`: before
      FINALIZING its preparation was not cut short, nothing is torn, and no other output is
      in the way; from then on the recorded Track B decides. */
  ghost predicate Open(rt: Runtime, d: Disk, a: Doc, b: Doc) {
    if !d.made then true
    else if |d.journal| <= 8 then
      && (d.journal == [] || |d.journal| >= 7)
      && NothingTorn(d) && ActionA in d.files && Compatible(d, a, b)
    else
      && d.ParsedFile(TrackA) == Some(a) && Recorded(d) == Some(b)
      && (|d.journal| == 9 ==> Recoverable(rt, d))
  }

  ghost predicate FinishedWith(d: Disk, a: Doc, b: Doc) {
    |d.journal| == 10 && d.ParsedFile(TrackA) == Some(a) && Recorded(d) == Some(b)
  }

  // ---------------------------------------------------------------- preparation

  /** Preparing again completes a preparation that lacked only its journal. */
  lemma PreparedAgain(rt: Runtime, d: Disk)
    requires Inv(rt, d) && d.made && d.journal == [] && NothingTorn(d) && ActionA in d.files
    ensures var e := Leaves(d, Prepare(rt, FAIR, d));
            && Prepare(rt, FAIR, d).outcome.Ok?
            && |e.journal| == 7 && e == d.(journal := e.journal, stages := e.stages)
  {
    hide Inv, LegalFrom, Later, Replay, Resume, ReportPreparation;
    PreparationWasMeasured(rt, d);
    NothingLeaves(d);
    ReportPreparationLegal(rt, d);
    var q := ReportPreparation(d);
    ThenNothing(q);
    var d1 := Leaves(d, q);
    ResumeStarts(rt, d1);
    ReplayConcat(d, q.actions, Resume(rt, FAIR, d1).actions);
  }

  /** Resuming a prepared run without a journal writes the seven preparation events. */
  lemma ResumeStarts(rt: Runtime, d: Disk)
    requires Inv(rt, d) && d.made && d.journal == [] && NothingTorn(d) && ActionA in d.files
    ensures var e := Leaves(d, Resume(rt, FAIR, d));
            Resume(rt, FAIR, d).outcome.Ok? && |e.journal| == 7 && OnlyJournal(d, e)
  {
    hide Inv, LegalFrom, Later, Replay, InitializeEvents, ChainedJournal;
    PreparationWasMeasured(rt, d);
    InitializeEventsLegal(rt, d);
    var p := InitializeEvents(d);
    var e := Leaves(d, p);
    LegalLeaves(rt, d, p.actions);
    InvJournal(rt, e);
    LastPosition(e);
    assert ResumeNonEmpty(rt, FAIR, e) == NOTHING;
    assert p.actions + [] == p.actions;
  }

  // ---------------------------------------------------------------- handover

  function TrackASource(d: Disk, a: Doc): Source {
    if TrackA in d.files then RunLocal else External(Canonical(a))
  }

  lemma HandedOverAgain(rt: Runtime, d: Disk, a: Doc, b: Doc)
    requires Inv(rt, d) && |d.journal| == 7 && Open(rt, d, a, b) && d.made && rt.WellFormed() && rt.validA(a)
    ensures var e := Leaves(d, SubmitQuestionTrackA(rt, FAIR, d, TrackASource(d, a)));
            AtTrackB(e, a) && (e.ParsedFile(TrackB).Some? ==> e.ParsedFile(TrackB) == Some(b))
  {
    hide Inv, LegalFrom, Later, Replay, Resume, AcceptTrackA;
    var source := TrackASource(d, a);
    ResumeAtSeven(rt, FAIR, d);
    NothingLeaves(d);
    AcceptTrackAIff(rt, d, source, a);
    ThenNothing(AcceptTrackA(rt, d, source));
  }

  // ---------------------------------------------------------------- finalization

  function TrackBSource(d: Disk, b: Doc): Source {
    if d.ParsedFile(TrackB).Some? then RunLocal else External(Canonical(b))
  }

  /** The submission finishes the run, or is refused because of a torn run-local Track B after
      FINALIZING was journalled. */
  lemma EnteredAgain(rt: Runtime, d: Disk, a: Doc, b: Doc, packet: Doc)
    requires Inv(rt, d) && AtTrackB(d, a) && Finishable(rt, a, b, packet)
    requires d.ParsedFile(TrackB).Some? ==> d.ParsedFile(TrackB) == Some(b)
    ensures var e := Leaves(d, SubmitQuestionTrackB(rt, FAIR, d, TrackBSource(d, b)));
            && e.ParsedFile(TrackA) == Some(a) && Recorded(e) == Some(b)
            && (|e.journal| == 10 || (|e.journal| == 9 && Recoverable(rt, e)))
  {
    hide Inv, LegalFrom, Later, Replay, CanFinalize, FinalizeAndMark, SubmitQuestionTrackB, ValidTrackB, EnteringEvent,
         EnteringActions, VerifiedPacket, Accepted;
    var source := TrackBSource(d, b);
    FirstSubmissionEnters(rt, d, a, b, packet, source);
    var e := Entered(d, b);
    EnteredJournal(d, b);
    EnteringReplayed(d, b);
    var rest := FinalizeAndMark(rt, FAIR, e, source);
    ReplayConcat(d, EnteringActions(d, b), rest.actions);
    if Malformed(d, TrackB) {
      TornTrackBRefused(rt, e, b, source);
      NothingLeaves(e);
    } else {
      FinalizeAndMarkDone(rt, FAIR, e, source, packet);
      FinalizeAndMarkLegal(rt, FAIR, e, source);
      LegalLeaves(rt, e, rest.actions);
      LaterKeepsOutputs(rt, e, Leaves(e, rest), a);
    }
  }

  lemma TornTrackBRefused(rt: Runtime, d: Disk, b: Doc, source: Source)
    requires Malformed(d, TrackB) && source == External(Canonical(b)) && ValidTrackB(rt, d, source)
    ensures FinalizeAndMark(rt, FAIR, d, source) == Refuse(InputMismatch)
  {
    hide ValidTrackB, FinalizeReviewRun, WriteValidationB, Replay;
  }

  lemma LaterKeepsOutputs(rt: Runtime, d: Disk, e: Disk, a: Doc)
    requires Later(d, e) && |d.journal| >= 9 && d.ParsedFile(TrackA) == Some(a)
    ensures e.ParsedFile(TrackA) == Some(a) && Recorded(e) == Recorded(d)
  {
    assert Frozen(d, TrackA);
    assert e.journal[8] == d.journal[8];
  }

  /** What FINALIZING recorded is itself a submission that the retry accepts. */
  lemma FinishedAgain(rt: Runtime, d: Disk, a: Doc, b: Doc, packet: Doc)
    requires Inv(rt, d) && |d.journal| == 9 && Open(rt, d, a, b) && Finishable(rt, a, b, packet)
    ensures var source := RetrySource(d, d.journal[8].payload.of);
            var e := Leaves(d, SubmitQuestionTrackB(rt, FAIR, d, source));
            FinishedWith(e, a, b)
  {
    hide Inv, LegalFrom, Later, Replay, Recoverable, SubmitQuestionTrackB, RetrySource, VerifiedPacket;
    var original := d.journal[8].payload.of;
    TrackAWasMeasured(rt, d);
    ResumeAndRetryDone(rt, FAIR, d, original, packet);
    var source := RetrySource(d, original);
    SubmitQuestionTrackBLegal(rt, FAIR, d, source);
    LegalLeaves(rt, d, SubmitQuestionTrackB(rt, FAIR, d, source).actions);
    LaterKeepsOutputs(rt, d, Leaves(d, SubmitQuestionTrackB(rt, FAIR, d, source)), a);
  }

  // ---------------------------------------------------------------- the calls together

  /** Every call of `more` starts where the run then is, and is neither interrupted nor
      disturbed by its environment. */
  ghost predicate Undisturbed(rt: Runtime, steps: seq<Step>, more: seq<Step>)
    decreases |more|
  {
    more == [] ||
    (more[0] == Completed(rt, AfterRun(rt, steps), more[0].call) && Undisturbed(rt, steps + [more[0]], more[1..]))
  }

  /** One more completed call. */
  lemma StepTo(rt: Runtime, steps: seq<Step>, call: Call) returns (step: Step)
    ensures step == Completed(rt, AfterRun(rt, steps), call)
    ensures AfterRun(rt, steps + [step]) == Leaves(AfterRun(rt, steps), PlanOf(rt, FAIR, AfterRun(rt, steps), call))
  {
    hide PlanOf, Replay;
    step := Completed(rt, AfterRun(rt, steps), call);
    assert (steps + [step])[..|steps + [step]| - 1] == steps;
  }

  lemma {:induction false} Prepended(rt: Runtime, steps: seq<Step>, step: Step, more: seq<Step>)
    requires step == Completed(rt, AfterRun(rt, steps), step.call) && Undisturbed(rt, steps + [step], more)
    ensures Undisturbed(rt, steps, [step] + more) && steps + ([step] + more) == steps + [step] + more
  {
    hide AfterRun, Completed;
    var all := [step] + more;
    assert all[0] == step && all[1..] == more;
    assert Undisturbed(rt, steps, all);
    assert steps + all == steps + [step] + more;
  }

  lemma FromNine(rt: Runtime, steps: seq<Step>, a: Doc, b: Doc, packet: Doc) returns (more: seq<Step>)
    requires Finishable(rt, a, b, packet) && Open(rt, AfterRun(rt, steps), a, b) && |AfterRun(rt, steps).journal| == 9
    requires AfterRun(rt, steps).made
    ensures Undisturbed(rt, steps, more) && |more| == 1 && FinishedWith(AfterRun(rt, steps + more), a, b)
  {
    hide Inv, AfterRun, Open, SubmitQuestionTrackB, Replay, FinishedWith, RetrySource;
    RunSafe(rt, steps);
    var d := AfterRun(rt, steps);
    FinishedAgain(rt, d, a, b, packet);
    var step := StepTo(rt, steps, CallTrackB(RetrySource(d, d.journal[8].payload.of)));
    Prepended(rt, steps, step, []);
    assert steps + [step] + [] == steps + [step];
    more := [step] + [];
  }

  lemma FromEight(rt: Runtime, steps: seq<Step>, a: Doc, b: Doc, packet: Doc) returns (more: seq<Step>)
    requires Finishable(rt, a, b, packet) && AtTrackB(AfterRun(rt, steps), a)
    requires AfterRun(rt, steps).ParsedFile(TrackB).Some? ==> AfterRun(rt, steps).ParsedFile(TrackB) == Some(b)
    ensures Undisturbed(rt, steps, more) && |more| <= 2 && FinishedWith(AfterRun(rt, steps + more), a, b)
  {
    hide Inv, AfterRun, SubmitQuestionTrackB, Replay, Recoverable, TrackBSource;
    RunSafe(rt, steps);
    var d := AfterRun(rt, steps);
    EnteredAgain(rt, d, a, b, packet);
    var step := StepTo(rt, steps, CallTrackB(TrackBSource(d, b)));
    var rest: seq<Step> := [];
    if |AfterRun(rt, steps + [step]).journal| == 9 {
      RunSafe(rt, steps + [step]);
      TrackAWasMeasured(rt, AfterRun(rt, steps + [step]));
      rest := FromNine(rt, steps + [step], a, b, packet);
    } else {
      assert steps + [step] + [] == steps + [step];
    }
    Prepended(rt, steps, step, rest);
    more := [step] + rest;
  }

  lemma FromSeven(rt: Runtime, steps: seq<Step>, a: Doc, b: Doc, packet: Doc) returns (more: seq<Step>)
    requires Finishable(rt, a, b, packet) && Open(rt, AfterRun(rt, steps), a, b) && |AfterRun(rt, steps).journal| == 7
    requires AfterRun(rt, steps).made
    ensures Undisturbed(rt, steps, more) && |more| <= 3 && FinishedWith(AfterRun(rt, steps + more), a, b)
  {
    hide Inv, AfterRun, SubmitQuestionTrackA, Replay, Open, TrackASource, FinishedWith, AtTrackB;
    RunSafe(rt, steps);
    var d := AfterRun(rt, steps);
    HandedOverAgain(rt, d, a, b);
    var step := StepTo(rt, steps, CallTrackA(TrackASource(d, a)));
    var rest := FromEight(rt, steps + [step], a, b, packet);
    Prepended(rt, steps, step, rest);
    more := [step] + rest;
  }

  /** An open preparation, or a run that does not exist yet, is prepared by one call. */
  lemma PreparedOpen(rt: Runtime, d: Disk, a: Doc, b: Doc)
    requires Inv(rt, d) && d.journal == [] && Open(rt, d, a, b)
    ensures var e := Leaves(d, Prepare(rt, FAIR, d));
            e.made && |e.journal| == 7 && Open(rt, e, a, b)
  {
    hide Inv, Prepare, Replay;
    if d.made {
      PreparedAgain(rt, d);
    } else {
      UnmadeIsEmpty(rt, d);
      PrepareCompletes(rt);
    }
  }

  lemma FromNothing(rt: Runtime, steps: seq<Step>, a: Doc, b: Doc, packet: Doc) returns (more: seq<Step>)
    requires Finishable(rt, a, b, packet) && Open(rt, AfterRun(rt, steps), a, b) && AfterRun(rt, steps).journal == []
    ensures Undisturbed(rt, steps, more) && |more| <= 4 && FinishedWith(AfterRun(rt, steps + more), a, b)
  {
    hide Inv, AfterRun, Prepare, Replay, Open, FinishedWith;
    RunSafe(rt, steps);
    var d := AfterRun(rt, steps);
    PreparedOpen(rt, d, a, b);
    var step := StepTo(rt, steps, CallPrepare);
    var rest := FromSeven(rt, steps + [step], a, b, packet);
    Prepended(rt, steps, step, rest);
    more := [step] + rest;
  }

  lemma JournalWhenOpen(rt: Runtime, d: Disk, a: Doc, b: Doc)
    requires Inv(rt, d) && Open(rt, d, a, b)
    ensures d.journal == [] || (d.made && 7 <= |d.journal| <= 10)
    ensures |d.journal| == 10 ==> FinishedWith(d, a, b)
    ensures |d.journal| == 8 ==> AtTrackB(d, a) && (d.ParsedFile(TrackB).Some? ==> d.ParsedFile(TrackB) == Some(b))
  {
    hide OrderedInputs, SidecarsOk, PreparationBound, DerivedOk, ReadyOk, Recoverable;
  }

  /** From every open state at most four undisturbed calls finish the run with `a` and `b`. */
  lemma OpenRunsFinish(rt: Runtime, steps: seq<Step>, a: Doc, b: Doc, packet: Doc) returns (more: seq<Step>)
    requires Finishable(rt, a, b, packet) && Open(rt, AfterRun(rt, steps), a, b)
    ensures Undisturbed(rt, steps, more) && |more| <= 4 && FinishedWith(AfterRun(rt, steps + more), a, b)
  {
    hide Inv, AfterRun, Open, FinishedWith, AtTrackB;
    RunSafe(rt, steps);
    var d := AfterRun(rt, steps);
    JournalWhenOpen(rt, d, a, b);
    match |d.journal|
    case 7 => more := FromSeven(rt, steps, a, b, packet);
    case 8 => more := FromEight(rt, steps, a, b, packet);
    case 9 => more := FromNine(rt, steps, a, b, packet);
    case 10 =>
      assert steps + [] == steps;
      more := [];
    case _ => more := FromNothing(rt, steps, a, b, packet);
  }
}

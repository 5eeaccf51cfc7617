/** The uninterrupted run, and the crash that no retry repairs. */
module RunWitness {
  import opened Options
  import opened RunDisk
  import opened RunPlans
  import opened RunSafety
  import opened RunLegality
  import opened RunTelemetry
  import opened RunLegalityA
  import opened RunLegalityB
  import opened RunTheorems
  import opened RunRecovery

  const FAIR: Env := Env(true, true, true)

  /** What an uninterrupted run would finish with. */
  ghost predicate Finishable(rt: Runtime, a: Doc, b: Doc, packet: Doc) {
    && rt.WellFormed() && rt.validA(a) && rt.validB(a, b) && rt.ownRun(a) && rt.ownRun(b)
    && rt.derive(rt.bundle, a, b, rt.confidence) == Some(packet)
  }

  function Completed(rt: Runtime, d: Disk, call: Call): Step {
    Step(call, FAIR, |PlanOf(rt, FAIR, d, call).actions|, None)
  }

  ghost predicate Prepared(rt: Runtime, d: Disk) {
    d == Disk(true, InputFiles(rt), d.journal, false, d.stages, false) && |d.journal| == 7 && Preparation in d.stages
  }

  ghost predicate HandedOver(rt: Runtime, d: Disk, a: Doc) {
    && |d.journal| == 8 && ValidateA in d.stages
    && d == Disk(true, InputFiles(rt)[TrackA := Canonical(a)]
                                     [BundleB := Canonical(TrackBBundle(a))]
                                     [ActionB := Canonical(TrackBAction)]
                                     [ValidationA := Canonical(ValidatedA(Sha256(Canonical(a))))],
                 d.journal, false, d.stages, false)
  }

  lemma ResumeWaiting(rt: Runtime, d: Disk)
    requires ChainedJournal(d) && d.made && !d.tornTail && d.ParsedFile(Request).Some?
    requires (|d.journal| == 7 && ActionA in d.files) || (|d.journal| == 8 && ActionB in d.files)
    ensures Resume(rt, FAIR, d) == NOTHING
  {
    LastPosition(d);
    ThenNothing(ResumeNonEmpty(rt, FAIR, d));
  }

  /** The disk between the inputs and the journal. */
  lemma InputsWritten(rt: Runtime) returns (e: Disk)
    ensures e == Leaves(EMPTY_DISK, WriteInputs(rt)) && WriteInputs(rt).outcome.Ok?
    ensures Inv(rt, e) && e == Disk(true, InputFiles(rt), [], false, PREPARED, false)
    ensures LegalFrom(rt, EMPTY_DISK, WriteInputs(rt).actions)
  {
    assert Inv(rt, EMPTY_DISK);
    hide Inv, LegalFrom, Later, Replay, WriteInputs, InputFiles;
    WriteInputsLegal(rt, EMPTY_DISK);
    InputsOk(rt);
    e := Leaves(EMPTY_DISK, WriteInputs(rt));
  }

  lemma PrepareCompletes(rt: Runtime)
    ensures Prepared(rt, Leaves(EMPTY_DISK, Prepare(rt, FAIR, EMPTY_DISK)))
    ensures Inv(rt, Leaves(EMPTY_DISK, Prepare(rt, FAIR, EMPTY_DISK)))
  {
    hide Inv, LegalFrom, Later, Replay, InitializeEvents, WriteInputs, ChainedJournal, Resume, InputFiles;
    var e := InputsWritten(rt);
    var init := InitializeEvents(e);
    InputsPresent(rt, e);
    InitializeEventsLegal(rt, e);
    var q := Then(WriteInputs(rt), init);
    LegalThen(rt, EMPTY_DISK, WriteInputs(rt), init);
    var f := Leaves(EMPTY_DISK, q);
    LegalLeaves(rt, EMPTY_DISK, q.actions);
    ChainFromInv(rt, f);
    InputsPresent(rt, f);
    ResumeWaiting(rt, f);
    assert q.actions + [] == q.actions;
  }

  lemma InputsOk(rt: Runtime)
    ensures WriteInputs(rt).outcome.Ok?
  {
  }

  lemma InputsPresent(rt: Runtime, d: Disk)
    requires d.files == InputFiles(rt)
    ensures Request in d.files && BundleA in d.files && ActionA in d.files && d.ParsedFile(Request).Some?
  {
  }

  function HandoffWrites(a: Doc): seq<Action> {
    [Write(TrackA, Canonical(a)), Write(BundleB, Canonical(TrackBBundle(a))), Write(ActionB, Canonical(TrackBAction)),
     Write(ValidationA, Canonical(ValidatedA(Sha256(Canonical(a)))))]
  }

  lemma TrackAPlan(rt: Runtime, d: Disk, a: Doc)
    requires Prepared(rt, d) && rt.validA(a)
    ensures SubmitTrackA(rt, d, External(Canonical(a))) == Plan(HandoffWrites(a), Ok)
  {
    var all := HandoffWrites(a);
    var source := External(Canonical(a));
    ThenNothing(PublishTrackA(d, source, a));
    var q := Then(RecoverMalformedTrackA(rt, d), PublishTrackA(d, source, a));
    assert q == Plan([all[0]], Ok);
    var d1 := Leaves(d, q);
    ReplayOne(d, all[0]);
    var p1 := Plan([all[1]], Ok);
    assert WriteOrIdentical(d1, BundleB, Canonical(TrackBBundle(a))) == p1;
    ReplayOne(d1, all[1]);
    var d2 := Leaves(d1, p1);
    var p2 := Then(p1, WriteOrIdentical(d2, ActionB, Canonical(TrackBAction)));
    assert p2 == Plan([all[1]] + [all[2]], Ok);
    ReplaySnoc(d1, [all[1]], all[2]);
    assert WriteSidecars(d1, a) == Plan([all[1]] + [all[2]] + [all[3]], Ok);
    assert [all[0]] + ([all[1]] + [all[2]] + [all[3]]) == all;
  }

  lemma NothingLeaves(d: Disk)
    ensures Leaves(d, NOTHING) == d
  {
  }

  function HandoffEvent(d: Disk, a: Doc): Event { Event(8, Last(d), WaitingTrackB, Sha256(Canonical(a))) }

  /** All writes of the Track A submission of a prepared run. */
  function TrackAActions(d: Disk, a: Doc): seq<Action> {
    [Measure(WaitA)] + (HandoffWrites(a) + [Measure(ValidateA)]) + [Append(HandoffEvent(d, a))]
  }

  function Measured(d: Disk, stage: Stage): Disk { d.(stages := d.stages + {stage}) }

  lemma MeasuredSubmission(rt: Runtime, d: Disk, a: Doc)
    requires Prepared(rt, d) && rt.validA(a)
    ensures var w := RecordExternalWait(d, WaitA, Preparation);
            var d1 := Leaves(d, w);
            && w == Plan([Measure(WaitA)], Ok) && d1 == Measured(d, WaitA)
            && Reported(d1, SubmitTrackA(rt, d1, External(Canonical(a))), ValidateA)
               == Plan(HandoffWrites(a) + [Measure(ValidateA)], Ok)
  {
    hide Replay, InputFiles, SubmitTrackA, HandoffWrites;
    ReplayOne(d, Measure(WaitA));
    var d1 := Measured(d, WaitA);
    TrackAPlan(rt, d1, a);
    HandoffReplayed(d1, a);
  }

  lemma {:induction false} TrackAAccepted(rt: Runtime, d: Disk, a: Doc)
    requires ChainedJournal(d) && Prepared(rt, d) && rt.validA(a)
    ensures AcceptTrackA(rt, d, External(Canonical(a))) == Plan(TrackAActions(d, a), Ok)
    ensures HandedOver(rt, Replay(d, TrackAActions(d, a)), a)
  {
    hide ChainedJournal, Replay, SubmitTrackA, HandoffWrites, Reported, RecordExternalWait, AppendEvent;
    MeasuredSubmission(rt, d, a);
    LastPosition(d);
    var first := [Measure(WaitA)];
    var second := HandoffWrites(a) + [Measure(ValidateA)];
    ReplayOne(d, first[0]);
    ReplayConcat(d, first, second);
    HandoffReplayed(Measured(d, WaitA), a);
    ReplaySnoc(Measured(d, WaitA), HandoffWrites(a), Measure(ValidateA));
    var e := Replay(d, first + second);
    HandoffPlan(d, e, a);
    ReplaySnoc(d, first + second, Append(HandoffEvent(d, a)));
  }

  lemma HandoffPlan(d: Disk, e: Disk, a: Doc)
    requires !e.tornTail && Last(d) == Some(WaitingTrackA) && e.journal == d.journal && |d.journal| == 7
    ensures AppendEvent(e, WaitingTrackB, Sha256(Canonical(a))) == Plan([Append(HandoffEvent(d, a))], Ok)
  {
  }

  lemma TrackACompletes(rt: Runtime, d: Disk, a: Doc)
    requires ChainedJournal(d) && Prepared(rt, d) && rt.validA(a)
    ensures HandedOver(rt, Leaves(d, SubmitQuestionTrackA(rt, FAIR, d, External(Canonical(a)))), a)
  {
    hide ChainedJournal, Resume, AcceptTrackA, Replay, InputFiles, HandedOver;
    NothingLeaves(d);
    InputsPresent(rt, d);
    ResumeWaiting(rt, d);
    LastPosition(d);
    TrackAAccepted(rt, d, a);
    ThenNothing(AcceptTrackA(rt, d, External(Canonical(a))));
  }

  lemma {:induction false} HandoffReplayed(d: Disk, a: Doc)
    ensures Replay(d, HandoffWrites(a)) ==
            d.(files := d.files[TrackA := Canonical(a)][BundleB := Canonical(TrackBBundle(a))]
                               [ActionB := Canonical(TrackBAction)]
                               [ValidationA := Canonical(ValidatedA(Sha256(Canonical(a))))])
  {
    var all := HandoffWrites(a);
    ReplayOne(d, all[0]);
    ReplaySnoc(d, [all[0]], all[1]);
    ReplaySnoc(d, [all[0]] + [all[1]], all[2]);
    ReplaySnoc(d, [all[0]] + [all[1]] + [all[2]], all[3]);
    assert [all[0]] + [all[1]] + [all[2]] + [all[3]] == all;
  }

  // ---------------------------------------------------------------- Track B

  function EnteringEvent(d: Disk, b: Doc): Event { Event(9, Last(d), Finalizing, Sha256(Canonical(b))) }

  /** The disk after the measured validation of the Track B submission. */
  function MeasuredB(d: Disk): Disk { Measured(Measured(d, WaitB), ValidateB) }

  lemma ValidationMeasured(rt: Runtime, d: Disk, source: Source)
    requires !d.tornMetrics && ValidateA in d.stages && ValidTrackB(rt, d, source)
    ensures ValidateSubmission(rt, d, source) == Plan([Measure(WaitB)] + [Measure(ValidateB)], Ok)
    ensures Leaves(d, ValidateSubmission(rt, d, source)) == MeasuredB(d)
    ensures ValidTrackB(rt, MeasuredB(d), source)
  {
    hide ValidTrackB, Replay, ReadDoc, Recorded, ExistingFinalized, Accepted, Handoff, VerifiedPacket;
    ReplayOne(d, Measure(WaitB));
    var d1 := Measured(d, WaitB);
    JudgedByFiles(rt, FAIR, d, d1, source);
    NothingLeaves(d1);
    assert [] + [Measure(ValidateB)] == [Measure(ValidateB)];
    ReplaySnoc(d, [Measure(WaitB)], Measure(ValidateB));
    JudgedByFiles(rt, FAIR, d1, MeasuredB(d), source);
  }

  /** The disk on which FINALIZING has just been journalled. */
  function Entered(d: Disk, b: Doc): Disk { Perform(MeasuredB(d), Append(EnteringEvent(d, b))) }

  /** The writes of a Track B submission up to that point. */
  function EnteringActions(d: Disk, b: Doc): seq<Action> {
    [Measure(WaitB)] + [Measure(ValidateB)] + [Append(EnteringEvent(d, b))]
  }

  lemma {:induction false} EnteringReplayed(d: Disk, b: Doc)
    ensures Replay(d, EnteringActions(d, b)) == Entered(d, b)
  {
    ReplayOne(d, Measure(WaitB));
    ReplaySnoc(d, [Measure(WaitB)], Measure(ValidateB));
    ReplaySnoc(d, [Measure(WaitB)] + [Measure(ValidateB)], Append(EnteringEvent(d, b)));
  }

  lemma EnteredJournal(d: Disk, b: Doc)
    requires |d.journal| == 8 && !d.tornTail && !d.tornMetrics
    ensures |Entered(d, b).journal| == 9 && !Entered(d, b).tornTail && !Entered(d, b).tornMetrics && |EnteringActions(d, b)| == 3
    ensures Entered(d, b).files == d.files && Entered(d, b).made == d.made
    ensures Entered(d, b).journal == d.journal + [EnteringEvent(d, b)]
  {
  }

  lemma EnteringPlan(rt: Runtime, d: Disk, b: Doc)
    requires Inv(rt, d) && |d.journal| == 8 && !d.tornTail
    ensures AppendEvent(d, Finalizing, Sha256(Canonical(b))) == Plan([Append(EnteringEvent(d, b))], Ok)
    ensures Leaves(d, AppendEvent(d, Finalizing, Sha256(Canonical(b)))) == Perform(d, Append(EnteringEvent(d, b)))
    ensures Last(d) == Some(WaitingTrackB) && d.made && d.journal != []
  {
    hide Inv, ChainedJournal;
    InvJournal(rt, d);
    LastPosition(d);
    ReplayOne(d, Append(EnteringEvent(d, b)));
  }

  /** A run that waits for Track B with nothing torn, and its Track A. */
  ghost predicate AtTrackB(d: Disk, a: Doc) {
    |d.journal| == 8 && !d.tornTail && !d.tornMetrics && d.ParsedFile(TrackA) == Some(a)
  }

  lemma AtTrackBFiles(rt: Runtime, d: Disk)
    requires Inv(rt, d) && |d.journal| == 8
    ensures CompleteInputs(rt, d) && BundleB in d.files && ActionB in d.files && d.ParsedFile(Request).Some?
    ensures NoFinalArtifact(d) && ValidationB !in d.files && ValidateA in d.stages && d.made
  {
    hide OrderedInputs, SidecarsOk, PreparationBound, ReadyOk;
  }

  /** Journalling FINALIZING leaves a run that can be finalized. */
  lemma EnteredFinalizing(rt: Runtime, d: Disk, a: Doc, b: Doc, packet: Doc, source: Source)
    requires Inv(rt, d) && AtTrackB(d, a) && Finishable(rt, a, b, packet) && ReadDoc(d, source, TrackB) == Some(b)
    ensures var e := Entered(d, b);
            && CanFinalize(rt, e, packet) && Recorded(e) == Some(b)
            && ReadDoc(e, source, TrackB) == Some(b)
            && ValidTrackB(rt, d, source) && ValidTrackB(rt, e, source)
  {
    hide Inv, ExistingFinalized, Accepted, Handoff, VerifiedPacket;
    AtTrackBFiles(rt, d);
    assert CompleteInputs(rt, Entered(d, b));
  }

  lemma EnteringIsLegal(rt: Runtime, d: Disk, b: Doc)
    requires Inv(rt, d) && |d.journal| == 8 && !d.tornTail && d.ParsedFile(TrackA).Some?
    requires rt.validB(d.ParsedFile(TrackA).value, b)
    ensures Inv(rt, Perform(d, Append(EnteringEvent(d, b))))
  {
    hide Inv, LegalFrom, Later, Replay, ChainedJournal;
    InvJournal(rt, d);
    EnteringPlan(rt, d, b);
    var p := AppendEvent(d, Finalizing, Sha256(Canonical(b)));
    AppendEventLegal(rt, d, Finalizing, Sha256(Canonical(b)));
    LegalLeaves(rt, d, p.actions);
  }

  lemma MeasuredBInv(rt: Runtime, d: Disk)
    requires Inv(rt, d) && d.made && !d.tornMetrics
    ensures Inv(rt, MeasuredB(d))
  {
    hide Inv, Later;
    MeasureKeeps(rt, d, WaitB);
    MeasureKeeps(rt, Measured(d, WaitB), ValidateB);
  }

  /** The first submission measures, journals FINALIZING, and goes on to finalize. */
  lemma FirstSubmissionEnters(rt: Runtime, d: Disk, a: Doc, b: Doc, packet: Doc, source: Source)
    requires Inv(rt, d) && AtTrackB(d, a) && Finishable(rt, a, b, packet) && ReadDoc(d, source, TrackB) == Some(b)
    ensures var e := Entered(d, b);
            && Inv(rt, e) && CanFinalize(rt, e, packet) && Recorded(e) == Some(b)
            && e.files == d.files && ValidationB !in e.files
            && ReadDoc(e, source, TrackB) == Some(b) && ValidTrackB(rt, e, source)
            && SubmitQuestionTrackB(rt, FAIR, d, source).outcome == FinalizeAndMark(rt, FAIR, e, source).outcome
            && SubmitQuestionTrackB(rt, FAIR, d, source).actions
               == EnteringActions(d, b) + FinalizeAndMark(rt, FAIR, e, source).actions
  {
    hide Inv, LegalFrom, Later, Replay, CanFinalize, FinalizeAndMark, Resume, ChainedJournal, ValidTrackB, AppendEvent,
         ValidateSubmission;
    AtTrackBFiles(rt, d);
    EnteredFinalizing(rt, d, a, b, packet, source);
    ValidationMeasured(rt, d, source);
    var d1 := MeasuredB(d);
    MeasuredBInv(rt, d);
    EnteringPlan(rt, d1, b);
    assert EnteringEvent(d1, b) == EnteringEvent(d, b);
    EnteringIsLegal(rt, d1, b);
    ChainFromInv(rt, d);
    LastPosition(d);
    ResumeWaiting(rt, d);
    NothingLeaves(d);
    ThenNothing(FirstSubmission(rt, FAIR, d, source));
    var rest := FinalizeAndMark(rt, FAIR, Entered(d, b), source).actions;
    assert [Measure(WaitB)] + [Measure(ValidateB)] + ([Append(EnteringEvent(d, b))] + rest) == EnteringActions(d, b) + rest;
  }

  lemma HandedOverInputs(rt: Runtime, d: Disk, a: Doc)
    requires HandedOver(rt, d, a)
    ensures AtTrackB(d, a) && d.made && TrackB !in d.files
  {
  }

  /** Prepare, Track A, Track B, nothing interrupted: the run is ready with its packet. */
  lemma UninterruptedRunIsReady(rt: Runtime, a: Doc, b: Doc, packet: Doc) returns (steps: seq<Step>)
    requires Finishable(rt, a, b, packet)
    ensures |steps| == 3 && steps[0].call == CallPrepare
    ensures steps[1].call == CallTrackA(External(Canonical(a))) && steps[2].call == CallTrackB(External(Canonical(b)))
    ensures var d := AfterRun(rt, steps);
            |d.journal| == 10 && ExistingFinalized(rt, FAIR, d) == Found(packet)
  {
    var two := ReadyForTrackB(rt, a);
    var d := AfterRun(rt, two);
    RunSafe(rt, two);
    var source := External(Canonical(b));
    var last := Completed(rt, d, CallTrackB(source));
    steps := two + [last];
    assert steps[..|steps| - 1] == two;
    RunSafe(rt, steps);
    HandedOverInputs(rt, d, a);
    FirstSubmissionEnters(rt, d, a, b, packet, source);
    var e := Entered(d, b);
    hide Inv, Replay, FinalizeAndMark, CanFinalize, SubmitQuestionTrackB, ValidTrackB;
    FinalizeAndMarkDone(rt, FAIR, e, source, packet);
    var actions := SubmitQuestionTrackB(rt, FAIR, d, source).actions;
    ReplayConcat(d, EnteringActions(d, b), FinalizeAndMark(rt, FAIR, e, source).actions);
    EnteringReplayed(d, b);
    assert AfterRun(rt, steps) == Replay(d, actions);
    ReadyIsFound(rt, AfterRun(rt, steps), packet);
  }

  lemma ReadyIsFound(rt: Runtime, d: Disk, packet: Doc)
    requires Inv(rt, d) && |d.journal| == 10 && VerifiedPacket(rt, d) == Some(packet)
    ensures ExistingFinalized(rt, FAIR, d) == Found(packet)
  {
  }

  lemma ReadyForTrackB(rt: Runtime, a: Doc) returns (steps: seq<Step>)
    requires rt.WellFormed() && rt.validA(a)
    ensures |steps| == 2 && steps[0].call == CallPrepare && steps[1].call == CallTrackA(External(Canonical(a)))
    ensures HandedOver(rt, AfterRun(rt, steps), a)
  {
    hide Inv, Replay, Prepare, SubmitQuestionTrackA, Prepared, HandedOver;
    PrepareCompletes(rt);
    var first := Completed(rt, EMPTY_DISK, CallPrepare);
    var one := [first];
    assert one[..|one| - 1] == [];
    var d := AfterRun(rt, one);
    assert AfterRun(rt, []) == EMPTY_DISK;
    assert d == Execute(rt, EMPTY_DISK, first);
    assert d == Leaves(EMPTY_DISK, Prepare(rt, FAIR, EMPTY_DISK));
    ChainFromInv(rt, d);
    TrackACompletes(rt, d, a);
    var second := Completed(rt, d, CallTrackA(External(Canonical(a))));
    steps := one + [second];
    assert steps[..|steps| - 1] == one;
  }

  /** Dying inside the write of track-b-validation.json, four writes after the Track B
      submission began, leaves a run that no continuation finishes: the recovery path clears
      the three final artifacts and a torn Track B, but not this record. */
  lemma TornValidationIsFatal(rt: Runtime, a: Doc, b: Doc, packet: Doc, noise: nat, more: seq<Step>)
      returns (steps: seq<Step>)
    requires Finishable(rt, a, b, packet)
    ensures |steps| == 3 && steps[2] == Step(CallTrackB(External(Canonical(b))), FAIR, 4, Some(noise))
    ensures var d := AfterRun(rt, steps);
            && Holds(d, ValidationB, Junk(noise))
            && |AfterRun(rt, steps + more).journal| == 9
  {
    var two := ReadyForTrackB(rt, a);
    var d := AfterRun(rt, two);
    RunSafe(rt, two);
    var source := External(Canonical(b));
    var last := Step(CallTrackB(source), FAIR, 4, Some(noise));
    steps := two + [last];
    assert steps[..|steps| - 1] == two;
    hide Inv, CanFinalize, SubmitQuestionTrackB, FinalizeAndMark, ValidTrackB, Replay, HandedOver;
    var e := TornInValidation(rt, d, a, b, packet, noise);
    assert AfterRun(rt, steps) == e;
    hide AfterRun;
    TornIsHopeless(rt, d, b, noise, e);
    HopelessForEver(rt, steps, more);
  }

  /** The write after the run-local Track B is torn. */
  lemma TornInValidation(rt: Runtime, d: Disk, a: Doc, b: Doc, packet: Doc, noise: nat) returns (e: Disk)
    requires Inv(rt, d) && HandedOver(rt, d, a)
    requires Finishable(rt, a, b, packet)
    ensures e == Execute(rt, d, Step(CallTrackB(External(Canonical(b))), FAIR, 4, Some(noise)))
    ensures e == Tear(Perform(Entered(d, b), Write(TrackB, Canonical(b))), Write(ValidationB, Junk(0)), noise)
    ensures |d.journal| == 8
  {
    hide Inv, CanFinalize, SubmitQuestionTrackB, FinalizeAndMark, ValidTrackB, Replay, HandedOver, EnteringEvent;
    var source := External(Canonical(b));
    HandedOverInputs(rt, d, a);
    FirstSubmissionEnters(rt, d, a, b, packet, source);
    TrackBWrites(rt, Entered(d, b), b, packet);
    var actions := SubmitQuestionTrackB(rt, FAIR, d, source).actions;
    assert actions[..4] == EnteringActions(d, b) + [Write(TrackB, Canonical(b))];
    EnteringReplayed(d, b);
    ReplaySnoc(d, EnteringActions(d, b), Write(TrackB, Canonical(b)));
    assert actions[4].Write? && actions[4].name == ValidationB;
    e := Execute(rt, d, Step(CallTrackB(source), FAIR, 4, Some(noise)));
  }

  lemma TornIsHopeless(rt: Runtime, d: Disk, b: Doc, noise: nat, e: Disk)
    requires |d.journal| == 8
    requires e == Tear(Perform(Entered(d, b), Write(TrackB, Canonical(b))), Write(ValidationB, Junk(0)), noise)
    ensures |e.journal| == 9 && Holds(e, ValidationB, Junk(noise)) && !Recoverable(rt, e)
  {
  }

  /** The first writes of an undisturbed finalization. */
  lemma TrackBWrites(rt: Runtime, d: Disk, b: Doc, packet: Doc)
    requires Inv(rt, d) && CanFinalize(rt, d, packet) && Recorded(d) == Some(b)
    requires TrackB !in d.files && ValidationB !in d.files && ValidTrackB(rt, d, External(Canonical(b)))
    ensures var actions := FinalizeAndMark(rt, FAIR, d, External(Canonical(b))).actions;
            && |actions| >= 5 && actions[0] == Write(TrackB, Canonical(b))
            && actions[1].Write? && actions[1].name == ValidationB
            && actions[2].Write? && actions[2].name == Manifest
            && actions[3].Write? && actions[3].name == Packet
            && actions[4] == Measure(Finalizer)
  {
    hide Inv, CanFinalize, FinalizeReviewRun, MarkReady, Replay, ValidTrackB, WriteValidationB, SubmitTrackB, PublishTrackB;
    var source := External(Canonical(b));
    var p := PublishTrackB(d, source, b);
    PublishedAlone(d, b);
    ReplayOne(d, Write(TrackB, Canonical(b)));
    var e := Leaves(d, p);
    CanFinalizeFrame(rt, d, e, TrackB, packet);
    RecordedAlone(rt, e, packet);
    var record := WriteValidationB(e).actions[0];
    assert WriteValidationB(e).actions == [record];
    ReplayOne(e, record);
    var f := Leaves(e, WriteValidationB(e));
    CanFinalizeFrame(rt, e, f, ValidationB, packet);
    FinalizationBegins(rt, f, packet);
    SubmissionBegins(rt, d, b);
    ReplaySnoc(d, [Write(TrackB, Canonical(b))], record);
  }

  lemma PublishedAlone(d: Disk, b: Doc)
    requires TrackB !in d.files
    ensures PublishTrackB(d, External(Canonical(b)), b) == Plan([Write(TrackB, Canonical(b))], Ok)
  {
  }

  lemma RecordedAlone(rt: Runtime, d: Disk, packet: Doc)
    requires CanFinalize(rt, d, packet) && TrackB in d.files && ValidationB !in d.files
    ensures var q := WriteValidationB(d);
            |q.actions| == 1 && q.actions[0].Write? && q.actions[0].name == ValidationB && q.outcome.Ok?
  {
  }

  lemma FinalizationBegins(rt: Runtime, d: Disk, packet: Doc)
    requires CanFinalize(rt, d, packet) && BoundTrackB(d)
    ensures var actions := FinalizeReviewRun(rt, FAIR, d).actions;
            && |actions| >= 3 && actions[0].Write? && actions[0].name == Manifest
            && actions[1].Write? && actions[1].name == Packet && actions[2] == Measure(Finalizer)
            && FinalizeReviewRun(rt, FAIR, d).outcome.Done?
  {
    FinalizeReviewRunDone(rt, FAIR, d, packet);
    assert DerivedPacket(rt, d) == Some(packet);
  }

  lemma SubmissionBegins(rt: Runtime, d: Disk, b: Doc)
    requires ValidTrackB(rt, d, External(Canonical(b)))
    ensures var p := PublishTrackB(d, External(Canonical(b)), b);
            var q := Then(p, WriteValidationB(Leaves(d, p)));
            var all := SubmitTrackB(rt, FAIR, d, External(Canonical(b)));
            && all == Then(q, FinalizeReviewRun(rt, FAIR, Leaves(d, q)))
            && FinalizeAndMark(rt, FAIR, d, External(Canonical(b))).actions[..|all.actions|] == all.actions
  {
    hide Replay, PublishTrackB, WriteValidationB, FinalizeReviewRun, MarkReady, ValidTrackB;
  }
}

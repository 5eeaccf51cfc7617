/** What each runtime entry point writes, as a function of the disk it starts from.

    A plan is the ordered list of primitive writes of one call that is not interrupted,
    with the call's outcome.  An exception is the outcome `Refused`. */
module RunPlans {
  import opened Options
  import opened RunDisk

  /** The parts of the runtime that are deterministic functions of documents: the prepared
      inputs of the run, the Track A and Track B validators, the packet derivation, and the
      iteration order of the derived Track A sidecars. */
  datatype Runtime = Runtime(
    request: Doc, bundle: Doc, confidence: Doc, query: Doc, action: Doc,
    validA: Doc -> bool,
    validB: (Doc, Doc) -> bool,
    ownRun: Doc -> bool,
    derive: (Doc, Doc, Doc, Doc) -> Option<Doc>,
    sidecarOrder: seq<Name>)
  {
    ghost predicate WellFormed() {
      multiset(sidecarOrder) == multiset{BundleB, ActionB, ValidationA}
    }
  }

  /** What a call observes of the world outside the run directory: whether the workspace
      still holds the evidence database the run is bound to, whether the view model can be
      built, and whether its page images verify. */
  datatype Env = Env(evidence: bool, modelled: bool, imaged: bool) {
    predicate Viewable() { modelled && imaged }
  }

  /** A submitted path: a file outside the run directory, or the run-local artifact itself. */
  datatype Source = External(bytes: Bytes) | RunLocal

  datatype Reason =
    | EvidenceMismatch | TornJournal | CannotResume | MissingArtifact | ExistingDiffers
    | NotWaiting | InvalidTrackA | InvalidTrackB | MalformedRunLocal | InputMismatch
    | RegenerationForbidden | RetryMismatch | AlreadyFinalized | FinalizerFailed | RequestDiffers
    | TornTelemetry | MissingStage

  datatype Outcome = Ok | Done(packet: Doc) | Refused(reason: Reason)

  datatype Plan = Plan(actions: seq<Action>, outcome: Outcome)

  /** The disk a completed plan leaves. */
  function Leaves(d: Disk, p: Plan): Disk { Replay(d, p.actions) }

  /** `p`, and then `q` unless `p` ended the call. */
  function Then(p: Plan, q: Plan): Plan {
    if p.outcome.Ok? then Plan(p.actions + q.actions, q.outcome) else p
  }

  function Refuse(reason: Reason): Plan { Plan([], Refused(reason)) }

  const NOTHING: Plan := Plan([], Ok)

  // ---------------------------------------------------------------- journal

  function Position(state: State): nat {
    match state
    case Received => 0 case ClassifyingInputs => 1 case ReadyToEvaluate => 2
    case RetrievingEvidence => 3 case RunningMath => 4 case RunningRules => 5
    case WaitingTrackA => 6 case WaitingTrackB => 7 case Finalizing => 8 case ReadyForReview => 9
  }

  function Last(d: Disk): Option<State> {
    if d.journal == [] then None else Some(d.journal[|d.journal| - 1].next)
  }

  /** The transitions the state machine allows between the states of this protocol. */
  predicate Allowed(previous: Option<State>, next: State) {
    if previous.None? then next == Received
    else Position(next) == Position(previous.value) + 1
  }

  function AppendEvent(d: Disk, next: State, payload: Hash): Plan {
    if d.tornTail then Refuse(TornJournal)
    else if Last(d) == Some(next) then NOTHING
    else if Allowed(Last(d), next)
    then Plan([Append(Event(|d.journal| + 1, Last(d), next, payload))], Ok)
    else Refuse(CannotResume)
  }

  /** The seven preparation events; the first three are bound to the request. */
  function InitializeFrom(d: Disk, position: nat, request: Hash, bundle: Hash): Plan
    requires position <= 7
    decreases 7 - position
  {
    if position == 7 then NOTHING
    else
      var p := AppendEvent(d, WORD[position], if position < 3 then request else bundle);
      Then(p, InitializeFrom(Leaves(d, p), position + 1, request, bundle))
  }

  function InitializeEvents(d: Disk): Plan {
    if Request !in d.files || BundleA !in d.files then Refuse(MissingArtifact)
    else InitializeFrom(d, 0, Sha256(d.files[Request]), Sha256(d.files[BundleA]))
  }

  // ---------------------------------------------------------------- telemetry

  /** One metric event.  Every earlier one is parsed first, so a torn one ends the call. */
  function AppendStage(d: Disk, stage: Stage): Plan {
    if d.tornMetrics then Refuse(TornTelemetry) else Plan([Measure(stage)], Ok)
  }

  /** The wait since `after`, which must have been measured. */
  function RecordExternalWait(d: Disk, stage: Stage, after: Stage): Plan {
    if d.tornMetrics then Refuse(TornTelemetry)
    else if after !in d.stages then Refuse(MissingStage)
    else AppendStage(d, stage)
  }

  /** `p`, and then the metric event of its stage, whether `p` succeeded or not. */
  function Reported(d: Disk, p: Plan, stage: Stage): Plan {
    var measured := AppendStage(Leaves(d, p), stage);
    Plan(p.actions + measured.actions, if measured.outcome.Ok? then p.outcome else measured.outcome)
  }

  const PREPARATION: seq<Stage> := [Normalization, Retrieval, RequestBuild, Preparation]

  function Measures(stages: seq<Stage>): seq<Action> {
    if stages == [] then [] else [Measure(stages[0])] + Measures(stages[1..])
  }

  function ReportPreparation(d: Disk): Plan {
    if d.tornMetrics then Refuse(TornTelemetry) else Plan(Measures(PREPARATION), Ok)
  }

  // ---------------------------------------------------------------- final artifacts

  datatype Existing = Absent | Invalid | Found(packet: Doc)

  function ManifestNow(d: Disk): Option<Doc> {
    if BundleA in d.files && TrackA in d.files && TrackB in d.files && Confidence in d.files
    then Some(RunManifest(Sha256(d.files[BundleA]), Sha256(d.files[TrackA]),
                          Sha256(d.files[TrackB]), Sha256(d.files[Confidence])))
    else None
  }

  function DerivedPacket(rt: Runtime, d: Disk): Option<Doc> {
    if d.ParsedFile(BundleA).Some? && d.ParsedFile(TrackA).Some?
       && d.ParsedFile(TrackB).Some? && d.ParsedFile(Confidence).Some?
    then rt.derive(d.ParsedFile(BundleA).value, d.ParsedFile(TrackA).value,
                   d.ParsedFile(TrackB).value, d.ParsedFile(Confidence).value)
    else None
  }

  /** The stored packet, if the manifest binds the current artifacts and they derive it. */
  function VerifiedPacket(rt: Runtime, d: Disk): Option<Doc> {
    if d.ParsedFile(Packet).Some? && d.ParsedFile(Manifest).Some?
       && d.ParsedFile(Manifest) == ManifestNow(d)
       && d.ParsedFile(Packet) == DerivedPacket(rt, d)
    then d.ParsedFile(Packet)
    else None
  }

  function ExistingFinalized(rt: Runtime, env: Env, d: Disk): Existing {
    if Packet !in d.files || Html !in d.files then Absent
    else
      var packet := VerifiedPacket(rt, d);
      if packet.Some? && env.Viewable() && d.files[Html] == Page(packet.value)
      then Found(packet.value)
      else Invalid
  }

  function MarkReady(d: Disk, packet: Doc): Plan {
    if Packet !in d.files then Refuse(MissingArtifact)
    else Then(AppendEvent(d, ReadyForReview, Sha256(d.files[Packet])), Plan([], Done(packet)))
  }

  // ---------------------------------------------------------------- resume and prepare

  function ResumeNonEmpty(rt: Runtime, env: Env, d: Disk): Plan {
    match Last(d)
    case Some(WaitingTrackA) => if ActionA in d.files then NOTHING else Refuse(MissingArtifact)
    case Some(WaitingTrackB) => if ActionB in d.files then NOTHING else Refuse(MissingArtifact)
    case Some(Finalizing) =>
      var existing := ExistingFinalized(rt, env, d);
      if existing.Found? then MarkReady(d, existing.packet) else NOTHING
    case Some(ReadyForReview) =>
      var existing := ExistingFinalized(rt, env, d);
      if existing.Found? then MarkReady(d, existing.packet) else Refuse(MissingArtifact)
    case _ => Refuse(CannotResume)
  }

  function EnsureJournal(d: Disk): Plan {
    if d.journal == [] then InitializeEvents(d) else NOTHING
  }

  function Resume(rt: Runtime, env: Env, d: Disk): Plan {
    if !env.evidence || d.ParsedFile(Request).None? then Refuse(EvidenceMismatch)
    else if d.tornTail then Refuse(TornJournal)
    else
      var p := EnsureJournal(d);
      Then(p, ResumeNonEmpty(rt, env, Leaves(d, p)))
  }

  function WriteInputs(rt: Runtime): Plan {
    Plan([MakeDirectory, Write(Request, Canonical(rt.request)), Write(BundleA, Canonical(rt.bundle)),
          Write(Confidence, Canonical(rt.confidence)), Write(Query, Canonical(rt.query))]
         + Measures(PREPARATION) + [Write(ActionA, Canonical(rt.action))], Ok)
  }

  /** Preparing a run that exists: its query document is completed or compared, and the
      preparation is measured again, before its state is looked at. */
  function Reprepare(rt: Runtime, env: Env, d: Disk): Plan {
    var p := WriteOrIdentical(d, Query, Canonical(rt.query));
    var q := Then(p, ReportPreparation(Leaves(d, p)));
    Then(q, Resume(rt, env, Leaves(d, q)))
  }

  function Prepare(rt: Runtime, env: Env, d: Disk): Plan {
    if !d.made then
      var p := WriteInputs(rt);
      var q := Then(p, InitializeEvents(Leaves(d, p)));
      Then(q, Resume(rt, env, Leaves(d, q)))
    else if Request !in d.files then Refuse(MissingArtifact)
    else if d.files[Request] != Canonical(rt.request) then Refuse(RequestDiffers)
    else Reprepare(rt, env, d)
  }

  // ---------------------------------------------------------------- Track A

  function Read(d: Disk, source: Source, runLocal: Name): Option<Bytes> {
    if source.External? then Some(source.bytes)
    else if runLocal in d.files then Some(d.files[runLocal]) else None
  }

  function ReadDoc(d: Disk, source: Source, runLocal: Name): Option<Doc> {
    var bytes := Read(d, source, runLocal);
    if bytes.Some? then Parse(bytes.value) else None
  }

  function WriteOrIdentical(d: Disk, name: Name, bytes: Bytes): Plan {
    if name !in d.files then Plan([Write(name, bytes)], Ok)
    else if d.files[name] == bytes then NOTHING else Refuse(ExistingDiffers)
  }

  predicate Malformed(d: Disk, name: Name) { name in d.files && Parse(d.files[name]).None? }

  function Unlinks(names: seq<Name>): seq<Action> {
    if names == [] then [] else [Unlink(names[0])] + Unlinks(names[1..])
  }

  function RecoverMalformedTrackA(rt: Runtime, d: Disk): Plan {
    if Malformed(d, TrackA) then Refuse(MalformedRunLocal)
    else if Malformed(d, ActionB) || Malformed(d, ValidationA) || Malformed(d, BundleB)
    then Plan(Unlinks(rt.sidecarOrder), Ok)
    else NOTHING
  }

  function PublishTrackA(d: Disk, source: Source, doc: Doc): Plan {
    if source.RunLocal? then (if TrackA in d.files then NOTHING else Refuse(MissingArtifact))
    else WriteOrIdentical(d, TrackA, Canonical(doc))
  }

  function WriteSidecars(d: Disk, doc: Doc): Plan {
    var p := WriteOrIdentical(d, BundleB, Canonical(TrackBBundle(doc)));
    var q := Then(p, WriteOrIdentical(Leaves(d, p), ActionB, Canonical(TrackBAction)));
    if TrackA !in d.files then Then(q, Refuse(MissingArtifact))
    else Then(q, WriteOrIdentical(Leaves(d, q), ValidationA, Canonical(ValidatedA(Sha256(d.files[TrackA])))))
  }

  function SubmitTrackA(rt: Runtime, d: Disk, source: Source): Plan {
    if BundleA !in d.files || Confidence !in d.files then Refuse(MissingArtifact)
    else
      var doc := ReadDoc(d, source, TrackA);
      if doc.None? || !rt.validA(doc.value) then Refuse(InvalidTrackA)
      else
        var p := RecoverMalformedTrackA(rt, d);
        var q := Then(p, PublishTrackA(Leaves(d, p), source, doc.value));
        Then(q, WriteSidecars(Leaves(d, q), doc.value))
  }

  /** The wait, the validated submission with its measurement, and the event it allows. */
  function AcceptTrackA(rt: Runtime, d: Disk, source: Source): Plan {
    var w := RecordExternalWait(d, WaitA, Preparation);
    var d1 := Leaves(d, w);
    var q := Then(w, Reported(d1, SubmitTrackA(rt, d1, source), ValidateA));
    var bytes := Read(d, source, TrackA);
    if bytes.None? then Then(q, Refuse(MissingArtifact))
    else Then(q, AppendEvent(Leaves(d, q), WaitingTrackB, Sha256(bytes.value)))
  }

  function SubmitQuestionTrackA(rt: Runtime, env: Env, d: Disk, source: Source): Plan {
    var p := Resume(rt, env, d);
    var d1 := Leaves(d, p);
    if p.outcome.Done? then Plan(p.actions, Refused(NotWaiting))
    else if p.outcome.Ok? && Last(d1) != Some(WaitingTrackA) then Plan(p.actions, Refused(NotWaiting))
    else Then(p, AcceptTrackA(rt, d1, source))
  }

  // ---------------------------------------------------------------- Track B

  /** The digest recorded when the run entered FINALIZING. */
  function RecordedHash(d: Disk): Option<Hash> {
    if |d.journal| >= 9 then Some(d.journal[8].payload) else None
  }

  /** Canonical identity of the document, or the raw bytes for a legacy FINALIZING event. */
  predicate MatchesIdentity(bytes: Bytes, expected: Hash) {
    Parse(bytes).Some? && (Sha256(Canonical(Parse(bytes).value)) == expected || Sha256(bytes) == expected)
  }

  predicate HasValidCanonicalTrackB(d: Disk) {
    TrackB in d.files && RecordedHash(d).Some? && MatchesIdentity(d.files[TrackB], RecordedHash(d).value)
  }

  /** Refuses unless a FINALIZING run may be retried with this source. */
  function CheckRetry(d: Disk, source: Source): Plan {
    if HasValidCanonicalTrackB(d)
    then (if source.RunLocal? then NOTHING else Refuse(RegenerationForbidden))
    else
      var bytes := Read(d, source, TrackB);
      if bytes.Some? && RecordedHash(d).Some? && MatchesIdentity(bytes.value, RecordedHash(d).value)
      then NOTHING else Refuse(RetryMismatch)
  }

  predicate ValidTrackB(rt: Runtime, d: Disk, source: Source) {
    && BundleA in d.files && Confidence in d.files
    && d.ParsedFile(TrackA).Some? && rt.validA(d.ParsedFile(TrackA).value)
    && ReadDoc(d, source, TrackB).Some?
    && rt.validB(d.ParsedFile(TrackA).value, ReadDoc(d, source, TrackB).value)
  }

  const FINALIZATION_DERIVED: seq<Name> := [Packet, Html, Manifest]

  function RecoverIncompleteFinalization(d: Disk, source: Source): Plan {
    var derived := Unlinks(FINALIZATION_DERIVED);
    if TrackB !in d.files then Plan(derived, Ok)
    else if Parse(d.files[TrackB]).Some? then
      if Parse(d.files[TrackB]) == ReadDoc(d, source, TrackB) then Plan(derived, Ok) else Refuse(InputMismatch)
    else if source.RunLocal? then Refuse(MalformedRunLocal)
    else Plan([Unlink(TrackB)] + derived, Ok)
  }

  function PublishTrackB(d: Disk, source: Source, doc: Doc): Plan {
    if source.RunLocal? then (if TrackB in d.files then NOTHING else Refuse(MissingArtifact))
    else if TrackB !in d.files then Plan([Write(TrackB, Canonical(doc))], Ok)
    else if Parse(d.files[TrackB]) == Some(doc) then NOTHING else Refuse(InputMismatch)
  }

  function WriteValidationB(d: Disk): Plan {
    if BundleB !in d.files || TrackB !in d.files then Refuse(MissingArtifact)
    else WriteOrIdentical(d, ValidationB, Canonical(ValidatedB(Sha256(d.files[BundleB]), Sha256(d.files[TrackB]))))
  }

  const CLEANUP: seq<Name> := [Manifest, Packet, Html]

  /** Manifest, packet and page, each stage measured; any exception in between removes all
      three. */
  function WriteFinalArtifacts(rt: Runtime, env: Env, d: Disk): Plan {
    var cleanup := Unlinks(CLEANUP);
    if ManifestNow(d).None? then Plan(cleanup, Refused(FinalizerFailed))
    else
      var packet := DerivedPacket(rt, d);
      var bind := [Write(Manifest, Canonical(ManifestNow(d).value))];
      var pack := if packet.Some? then bind + [Write(Packet, Canonical(packet.value))] else bind;
      if d.tornMetrics then Plan(pack + cleanup, Refused(TornTelemetry))
      else
        var finalized := pack + [Measure(Finalizer)];
        if packet.None? then Plan(finalized + cleanup, Refused(FinalizerFailed))
        else
          var modelled := finalized + [Measure(ViewModel)];
          var imaged := modelled + [Measure(PageImages)];
          if !env.modelled then Plan(modelled + cleanup, Refused(FinalizerFailed))
          else if !env.imaged then Plan(imaged + cleanup, Refused(FinalizerFailed))
          else Plan(imaged + [Write(Html, Page(packet.value))] + [Measure(HtmlWrite)], Done(packet.value))
  }

  function FinalizeReviewRun(rt: Runtime, env: Env, d: Disk): Plan {
    if d.ParsedFile(TrackA).None? || d.ParsedFile(TrackB).None?
       || !rt.ownRun(d.ParsedFile(TrackA).value) || !rt.ownRun(d.ParsedFile(TrackB).value)
    then Refuse(InvalidTrackB)
    else if Manifest in d.files || Packet in d.files || Html in d.files then Refuse(AlreadyFinalized)
    else WriteFinalArtifacts(rt, env, d)
  }

  function SubmitTrackB(rt: Runtime, env: Env, d: Disk, source: Source): Plan {
    if !ValidTrackB(rt, d, source) then Refuse(InvalidTrackB)
    else
      var p := PublishTrackB(d, source, ReadDoc(d, source, TrackB).value);
      var q := Then(p, WriteValidationB(Leaves(d, p)));
      Then(q, FinalizeReviewRun(rt, env, Leaves(d, q)))
  }

  /** From an accepted submission to READY_FOR_REVIEW. */
  function FinalizeAndMark(rt: Runtime, env: Env, d: Disk, source: Source): Plan {
    var p := SubmitTrackB(rt, env, d, source);
    if p.outcome.Done?
    then Then(Plan(p.actions, Ok), MarkReady(Leaves(d, p), p.outcome.packet))
    else p
  }

  /** The wait and the validation, both measured. */
  function ValidateSubmission(rt: Runtime, d: Disk, source: Source): Plan {
    var w := RecordExternalWait(d, WaitB, ValidateA);
    var d1 := Leaves(d, w);
    Then(w, Reported(d1, if ValidTrackB(rt, d1, source) then NOTHING else Refuse(InvalidTrackB), ValidateB))
  }

  function EnterFinalizing(rt: Runtime, env: Env, d: Disk, source: Source): Plan {
    if ReadDoc(d, source, TrackB).None? then Refuse(InvalidTrackB)
    else
      var p := AppendEvent(d, Finalizing, Sha256(Canonical(ReadDoc(d, source, TrackB).value)));
      Then(p, FinalizeAndMark(rt, env, Leaves(d, p), source))
  }

  function FirstSubmission(rt: Runtime, env: Env, d: Disk, source: Source): Plan {
    var p := ValidateSubmission(rt, d, source);
    Then(p, EnterFinalizing(rt, env, Leaves(d, p), source))
  }

  function FinishOrRecover(rt: Runtime, env: Env, d: Disk, source: Source): Plan {
    var existing := ExistingFinalized(rt, env, d);
    if existing.Found? then MarkReady(d, existing.packet)
    else
      var q := RecoverIncompleteFinalization(d, source);
      Then(q, FinalizeAndMark(rt, env, Leaves(d, q), source))
  }

  function RetrySubmission(rt: Runtime, env: Env, d: Disk, source: Source): Plan {
    if CheckRetry(d, source).outcome.Refused? then CheckRetry(d, source)
    else
      var p := ValidateSubmission(rt, d, source);
      Then(p, FinishOrRecover(rt, env, Leaves(d, p), source))
  }

  function SubmitQuestionTrackB(rt: Runtime, env: Env, d: Disk, source: Source): Plan {
    var p := Resume(rt, env, d);
    var d1 := Leaves(d, p);
    if p.outcome.Done? then
      var existing := ExistingFinalized(rt, env, d1);
      Plan(p.actions, if existing.Found? then Done(existing.packet) else Refused(MissingArtifact))
    else if Last(d1) == Some(WaitingTrackB) then Then(p, FirstSubmission(rt, env, d1, source))
    else if Last(d1) == Some(Finalizing) then Then(p, RetrySubmission(rt, env, d1, source))
    else Then(p, Refuse(NotWaiting))
  }

  // ---------------------------------------------------------------- runs

  /** One thing that happens to a run.  Besides the three entry points, a reviewer may put a
      Track output at its run-local path (create-only), and an earlier runtime may have
      journalled FINALIZING with the raw digest of a validated Track B. */
  datatype Call =
    | CallPrepare
    | CallTrackA(source: Source)
    | CallTrackB(source: Source)
    | Place(name: Name, bytes: Bytes)
    | LegacyFinalizing(raw: Bytes)

  function PlanOf(rt: Runtime, env: Env, d: Disk, call: Call): Plan {
    match call
    case CallPrepare => Prepare(rt, env, d)
    case CallTrackA(source) => SubmitQuestionTrackA(rt, env, d, source)
    case CallTrackB(source) => SubmitQuestionTrackB(rt, env, d, source)
    case Place(name, bytes) =>
      if d.made && (name == TrackA || name == TrackB) && name !in d.files
      then Plan([Write(name, bytes)], Ok) else Refuse(ExistingDiffers)
    case LegacyFinalizing(raw) =>
      if Last(d) == Some(WaitingTrackB) && ValidTrackB(rt, d, External(raw))
      then AppendEvent(d, Finalizing, Sha256(raw)) else Refuse(NotWaiting)
  }

  /** A call in some environment, and how far it got. */
  datatype Step = Step(call: Call, env: Env, cut: nat, tear: Option<nat>)

  function Execute(rt: Runtime, d: Disk, step: Step): Disk {
    Crash(d, PlanOf(rt, step.env, d, step.call).actions, step.cut, step.tear)
  }

  /** The disk after any sequence of calls, each completed or cut short anywhere. */
  function AfterRun(rt: Runtime, steps: seq<Step>): Disk {
    if steps == [] then EMPTY_DISK
    else Execute(rt, AfterRun(rt, steps[..|steps| - 1]), steps[|steps| - 1])
  }
}

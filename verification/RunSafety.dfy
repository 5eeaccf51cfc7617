/** The write discipline of a review run, and what it guarantees at every crash point.

    `Inv` is the invariant, `Legal` says which primitive writes the protocol may make, and
    the lemmas below show that a legal write keeps the invariant even when it is torn, and
    that every plan of the runtime makes legal writes only. */
module RunSafety {
  import opened Options
  import opened RunDisk
  import opened RunPlans

  // ---------------------------------------------------------------- the invariant

  ghost predicate ChainedJournal(d: Disk) {
    && |d.journal| <= |WORD|
    && forall i | 0 <= i < |d.journal| ::
         && d.journal[i].sequence == i + 1
         && d.journal[i].previous == (if i == 0 then None else Some(WORD[i - 1]))
         && d.journal[i].next == WORD[i]
  }

  ghost predicate Holds(d: Disk, name: Name, bytes: Bytes) {
    name in d.files && d.files[name] == bytes
  }

  /** Each prepared input is complete before the next one is begun. */
  ghost predicate OrderedInputs(rt: Runtime, d: Disk) {
    && (BundleA in d.files ==> Holds(d, Request, Canonical(rt.request)))
    && (Confidence in d.files ==> Holds(d, BundleA, Canonical(rt.bundle)))
    && (ActionA in d.files ==>
          && Holds(d, Confidence, Canonical(rt.confidence))
          && Holds(d, Query, Canonical(rt.query))
          && Preparation in d.stages)
  }

  ghost predicate CompleteInputs(rt: Runtime, d: Disk) {
    && Holds(d, Request, Canonical(rt.request))
    && Holds(d, BundleA, Canonical(rt.bundle))
    && Holds(d, Confidence, Canonical(rt.confidence))
  }

  /** Everything Track B needs: validated Track A, its bundle, its action and its record. */
  ghost predicate Handoff(rt: Runtime, d: Disk) {
    && CompleteInputs(rt, d) && ActionA in d.files
    && d.ParsedFile(TrackA).Some?
    && rt.validA(d.ParsedFile(TrackA).value)
    && Holds(d, BundleB, Canonical(TrackBBundle(d.ParsedFile(TrackA).value)))
    && Holds(d, ActionB, Canonical(TrackBAction))
    && Holds(d, ValidationA, Canonical(ValidatedA(Sha256(d.files[TrackA]))))
  }

  /** The Track B document the FINALIZING event is bound to. */
  function Recorded(d: Disk): Option<Doc> {
    if |d.journal| >= 9 then Parse(d.journal[8].payload.of) else None
  }

  ghost predicate BoundTrackB(d: Disk) {
    Recorded(d).Some? && d.ParsedFile(TrackB) == Recorded(d)
  }

  ghost predicate ValidatedBComplete(d: Disk) {
    && BundleB in d.files && TrackB in d.files
    && Holds(d, ValidationB, Canonical(ValidatedB(Sha256(d.files[BundleB]), Sha256(d.files[TrackB]))))
  }

  /** Both tracks name this run. */
  ghost predicate OwnTracks(rt: Runtime, d: Disk) {
    && d.ParsedFile(TrackA).Some? && rt.ownRun(d.ParsedFile(TrackA).value)
    && d.ParsedFile(TrackB).Some? && rt.ownRun(d.ParsedFile(TrackB).value)
  }

  ghost predicate Accepted(rt: Runtime, d: Disk) {
    && Packet in d.files && Html in d.files
    && VerifiedPacket(rt, d).Some?
    && d.files[Html] == Page(VerifiedPacket(rt, d).value)
  }

  ghost predicate FinalArtifact(name: Name) { name == Manifest || name == Packet || name == Html }

  predicate Sidecar(name: Name) { name == BundleB || name == ActionB || name == ValidationA }

  /** What a derived Track A sidecar holds once it is complete. */
  function SidecarBytes(d: Disk, name: Name): Bytes
    requires TrackA in d.files && d.ParsedFile(TrackA).Some? && Sidecar(name)
  {
    match name
    case BundleB => Canonical(TrackBBundle(d.ParsedFile(TrackA).value))
    case ActionB => Canonical(TrackBAction)
    case _ => Canonical(ValidatedA(Sha256(d.files[TrackA])))
  }

  /** A sidecar is torn, or is the one of the run-local Track A. */
  ghost predicate SidecarsOk(d: Disk) {
    forall name | Sidecar(name) && name in d.files ::
      d.ParsedFile(TrackA).Some? && (Parse(d.files[name]).None? || d.files[name] == SidecarBytes(d, name))
  }

  /** The prepared input that the event at position `i` is bound to. */
  function BoundInput(i: nat): Name { if i < 3 then Request else BundleA }

  /** Each preparation event is bound to the bytes of its input. */
  ghost predicate PreparationBound(d: Disk) {
    forall i | 0 <= i < |d.journal| && i < 7 ::
      BoundInput(i) in d.files && d.journal[i].payload == Sha256(d.files[BoundInput(i)])
  }

  ghost predicate HandoffOk(rt: Runtime, d: Disk) {
    && (|d.journal| >= 1 ==> Request in d.files && BundleA in d.files)
    && (|d.journal| >= 8 ==> Handoff(rt, d) && Parse(d.journal[7].payload.of) == d.ParsedFile(TrackA)
                              && ValidateA in d.stages)
    && (|d.journal| >= 9 ==> Recorded(d).Some? && rt.validB(d.ParsedFile(TrackA).value, Recorded(d).value))
  }

  ghost predicate DerivedOk(rt: Runtime, d: Disk) {
    && (ValidationB in d.files ==>
          BoundTrackB(d) && (ValidatedBComplete(d) || Parse(d.files[ValidationB]).None?))
    && (Manifest in d.files || Packet in d.files || Html in d.files ==>
          BoundTrackB(d) && ValidatedBComplete(d) && OwnTracks(rt, d))
  }

  ghost predicate ReadyOk(rt: Runtime, d: Disk) {
    |d.journal| == 10 ==>
      !d.tornTail && Accepted(rt, d) && d.journal[9].payload == Sha256(d.files[Packet])
  }

  ghost predicate Clauses(rt: Runtime, d: Disk) {
    && ChainedJournal(d)
    && (!d.made ==> d == EMPTY_DISK)
    && OrderedInputs(rt, d)
    && SidecarsOk(d)
    && PreparationBound(d)
    && HandoffOk(rt, d)
    && DerivedOk(rt, d)
    && ReadyOk(rt, d)
  }

  /** The invariant of a run.  The equation keeps each use of it one proof obligation. */
  ghost predicate Inv(rt: Runtime, d: Disk) {
    Clauses(rt, d) == true
  }

  // ---------------------------------------------------------------- legal writes

  ghost predicate LegalWrite(rt: Runtime, d: Disk, name: Name, bytes: Bytes) {
    && d.made && name !in d.files
    && match name
       case Request => bytes == Canonical(rt.request)
       case BundleA => bytes == Canonical(rt.bundle) && Holds(d, Request, Canonical(rt.request))
       case Confidence => bytes == Canonical(rt.confidence) && Holds(d, BundleA, Canonical(rt.bundle))
       case Query => bytes == Canonical(rt.query) && Holds(d, Request, Canonical(rt.request))
       case ActionA =>
         && bytes == Canonical(rt.action)
         && Holds(d, Confidence, Canonical(rt.confidence)) && Holds(d, Query, Canonical(rt.query))
         && Preparation in d.stages
       case TrackA => true
       case TrackB => true
       case ValidationB =>
         && BoundTrackB(d) && BundleB in d.files
         && bytes == Canonical(ValidatedB(Sha256(d.files[BundleB]), Sha256(d.files[TrackB])))
       case Manifest => !d.tornMetrics && BoundTrackB(d) && ValidatedBComplete(d) && OwnTracks(rt, d)
       case Packet => !d.tornMetrics && BoundTrackB(d) && ValidatedBComplete(d) && OwnTracks(rt, d)
       case Html => !d.tornMetrics && BoundTrackB(d) && ValidatedBComplete(d) && OwnTracks(rt, d)
       case _ => |d.journal| <= 7 && d.ParsedFile(TrackA).Some? && bytes == SidecarBytes(d, name)
  }

  ghost predicate LegalUnlink(d: Disk, name: Name) {
    || (Sidecar(name) && |d.journal| <= 7)
    || (name == TrackB && |d.journal| == 9 && d.ParsedFile(TrackB).None?)
    || (FinalArtifact(name) && |d.journal| == 9 && !d.tornMetrics)
  }

  ghost predicate LegalAppend(rt: Runtime, d: Disk, event: Event) {
    && !d.tornTail && d.made && |d.journal| < 10
    && event == Event(|d.journal| + 1, Last(d), WORD[|d.journal|], event.payload)
    && Request in d.files && BundleA in d.files
    && (|d.journal| < 7 ==> event.payload == Sha256(d.files[BoundInput(|d.journal|)]))
    && (|d.journal| == 7 ==> Handoff(rt, d) && Parse(event.payload.of) == d.ParsedFile(TrackA)
                             && ValidateA in d.stages && !d.tornMetrics)
    && (|d.journal| == 8 ==>
          d.ParsedFile(TrackA).Some? && Parse(event.payload.of).Some?
          && rt.validB(d.ParsedFile(TrackA).value, Parse(event.payload.of).value))
    && (|d.journal| == 9 ==> Accepted(rt, d) && event.payload == Sha256(d.files[Packet]))
  }

  ghost predicate Legal(rt: Runtime, d: Disk, a: Action)
    requires Inv(rt, d)
  {
    match a
    case MakeDirectory => !d.made
    case Write(name, bytes) => LegalWrite(rt, d, name, bytes)
    case Unlink(name) => LegalUnlink(d, name)
    case Append(event) => LegalAppend(rt, d, event)
    case Measure(_) => d.made && !d.tornMetrics
  }

  /** The artifacts that no later write may touch. */
  ghost predicate Frozen(d: Disk, name: Name) {
    && name in d.files
    && match name
       case BundleB => |d.journal| >= 8
       case ActionB => |d.journal| >= 8
       case ValidationA => |d.journal| >= 8
       case TrackB => Parse(d.files[TrackB]).Some?
       case Manifest => |d.journal| == 10
       case Packet => |d.journal| == 10
       case Html => |d.journal| == 10
       case _ => true
  }

  ghost predicate SameFile(d: Disk, e: Disk, name: Name) {
    && (name in d.files <==> name in e.files)
    && (name in d.files ==> e.files[name] == d.files[name])
  }

  /** A torn metric event stays torn; from then on nothing is measured, no Track A is handed
      over, and no final artifact is written or removed. */
  ghost predicate TornTelemetryStays(d: Disk, later: Disk) {
    && later.tornMetrics && later.stages == d.stages
    && (|d.journal| <= 7 ==> |later.journal| <= 7)
    && SameFile(d, later, Manifest) && SameFile(d, later, Packet) && SameFile(d, later, Html)
  }

  /** What time may do to a disk: the journal and the set of measured stages grow, frozen
      artifacts stay, a torn journal stays torn, and in a run that is ready nothing but its
      telemetry changes. */
  ghost predicate Later(d: Disk, later: Disk) {
    && d.journal <= later.journal
    && (d.made ==> later.made)
    && (d.tornTail ==> later.tornTail && later.journal == d.journal)
    && (forall name | Frozen(d, name) :: name in later.files && later.files[name] == d.files[name])
    && d.stages <= later.stages
    && (d.tornMetrics ==> TornTelemetryStays(d, later))
    && (|d.journal| == 10 ==> later == d.(stages := later.stages, tornMetrics := later.tornMetrics))
  }

  lemma LaterItself(d: Disk)
    ensures Later(d, d)
  {
  }

  lemma LaterTransitive(a: Disk, b: Disk, c: Disk)
    requires Later(a, b) && Later(b, c)
    ensures Later(a, c)
  {
    forall name | Frozen(a, name)
      ensures name in c.files && c.files[name] == a.files[name]
    {
      assert Frozen(b, name);
    }
  }

  // ---------------------------------------------------------------- one legal write

  lemma AppendKeepsChain(rt: Runtime, d: Disk, event: Event)
    requires Inv(rt, d) && LegalAppend(rt, d, event)
    ensures ChainedJournal(Perform(d, Append(event)))
  {
    assert d.journal != [] ==> Last(d) == Some(WORD[|d.journal| - 1]);
  }

  lemma AppendKeepsHandoff(rt: Runtime, d: Disk, event: Event)
    requires Inv(rt, d) && LegalAppend(rt, d, event)
    ensures HandoffOk(rt, Perform(d, Append(event))) && DerivedOk(rt, Perform(d, Append(event)))
  {
    hide OrderedInputs, SidecarsOk, PreparationBound, ReadyOk, ChainedJournal, Accepted;
    var e := Perform(d, Append(event));
    assert |d.journal| >= 8 ==> e.journal[7] == d.journal[7];
    assert |d.journal| >= 9 ==> e.journal[8] == d.journal[8];
  }

  lemma AppendKeepsReady(rt: Runtime, d: Disk, event: Event)
    requires Inv(rt, d) && LegalAppend(rt, d, event)
    ensures ReadyOk(rt, Perform(d, Append(event)))
  {
    hide HandoffOk, DerivedOk, SidecarsOk, PreparationBound, OrderedInputs, ChainedJournal, Accepted, Handoff;
    var e := Perform(d, Append(event));
    AcceptedByFiles(rt, d, e);
  }

  lemma AcceptedByFiles(rt: Runtime, d: Disk, e: Disk)
    requires d.files == e.files
    ensures Accepted(rt, d) == Accepted(rt, e)
  {
    assert VerifiedPacket(rt, e) == VerifiedPacket(rt, d);
  }

  lemma TornTailKeepsFiles(rt: Runtime, d: Disk)
    requires Inv(rt, d)
    ensures var e := d.(tornTail := true);
            HandoffOk(rt, e) && DerivedOk(rt, e) && OrderedInputs(rt, e) && SidecarsOk(e) && PreparationBound(e)
  {
    hide ReadyOk, ChainedJournal;
  }

  lemma TornAppendKeeps(rt: Runtime, d: Disk)
    requires Inv(rt, d) && d.made && |d.journal| < 10
    ensures Inv(rt, d.(tornTail := true)) && Later(d, d.(tornTail := true))
  {
    hide HandoffOk, DerivedOk, OrderedInputs, SidecarsOk, PreparationBound, Accepted;
    TornTailKeepsFiles(rt, d);
  }

  lemma AppendKeepsPast(rt: Runtime, d: Disk, event: Event)
    requires Inv(rt, d) && LegalAppend(rt, d, event)
    ensures SidecarsOk(Perform(d, Append(event))) && OrderedInputs(rt, Perform(d, Append(event)))
    ensures Later(d, Perform(d, Append(event)))
  {
    hide HandoffOk, DerivedOk, ReadyOk, ChainedJournal, Accepted, Handoff;
  }

  lemma AppendKeepsBound(rt: Runtime, d: Disk, event: Event)
    requires Inv(rt, d) && LegalAppend(rt, d, event)
    ensures PreparationBound(Perform(d, Append(event)))
  {
    hide HandoffOk, DerivedOk, ReadyOk, ChainedJournal, OrderedInputs, SidecarsOk, Accepted, Handoff;
  }

  lemma LegalAppendKeeps(rt: Runtime, d: Disk, event: Event)
    requires Inv(rt, d) && LegalAppend(rt, d, event)
    ensures Inv(rt, Perform(d, Append(event))) && Later(d, Perform(d, Append(event)))
    ensures Inv(rt, d.(tornTail := true)) && Later(d, d.(tornTail := true))
  {
    hide HandoffOk, DerivedOk, ReadyOk, ChainedJournal, OrderedInputs, SidecarsOk, PreparationBound, Later, Accepted, Handoff;
    TornAppendKeeps(rt, d);
    AppendKeepsChain(rt, d, event);
    AppendKeepsHandoff(rt, d, event);
    AppendKeepsReady(rt, d, event);
    AppendKeepsPast(rt, d, event);
    AppendKeepsBound(rt, d, event);
  }

  lemma WriteKeepsInputs(rt: Runtime, d: Disk, name: Name, bytes: Bytes, written: Bytes)
    requires Inv(rt, d) && LegalWrite(rt, d, name, bytes)
    requires written == bytes || Parse(written).None?
    ensures OrderedInputs(rt, d.(files := d.files[name := written]))
  {
    hide HandoffOk, SidecarsOk, PreparationBound, DerivedOk, ReadyOk, ChainedJournal;
  }

  lemma WriteKeepsSidecars(rt: Runtime, d: Disk, name: Name, bytes: Bytes, written: Bytes)
    requires Inv(rt, d) && LegalWrite(rt, d, name, bytes)
    requires written == bytes || Parse(written).None?
    ensures SidecarsOk(d.(files := d.files[name := written]))
  {
    hide HandoffOk, OrderedInputs, DerivedOk, ReadyOk, ChainedJournal, BoundTrackB, ValidatedBComplete;
    var e := d.(files := d.files[name := written]);
    forall other | Sidecar(other) && other in e.files
      ensures e.ParsedFile(TrackA).Some? && (Parse(e.files[other]).None? || e.files[other] == SidecarBytes(e, other))
    {
      assert other != name ==> other in d.files && e.files[other] == d.files[other];
    }
  }

  lemma WriteKeepsBound(rt: Runtime, d: Disk, name: Name, bytes: Bytes, written: Bytes)
    requires Inv(rt, d) && LegalWrite(rt, d, name, bytes)
    ensures PreparationBound(d.(files := d.files[name := written]))
  {
    hide HandoffOk, SidecarsOk, OrderedInputs, DerivedOk, ReadyOk, ChainedJournal, BoundTrackB, ValidatedBComplete;
    assert name !in d.files;
    hide LegalWrite;
  }

  /** The handoff does not depend on a file that is only now written. */
  lemma WriteKeepsHandoff(rt: Runtime, d: Disk, name: Name, bytes: Bytes, written: Bytes)
    requires Inv(rt, d) && LegalWrite(rt, d, name, bytes)
    ensures HandoffOk(rt, d.(files := d.files[name := written]))
  {
    hide OrderedInputs, SidecarsOk, PreparationBound, DerivedOk, ReadyOk, ChainedJournal, BoundTrackB, ValidatedBComplete;
    assert name !in d.files;
    hide LegalWrite;
  }

  lemma WriteKeepsDerived(rt: Runtime, d: Disk, name: Name, bytes: Bytes, written: Bytes)
    requires Inv(rt, d) && LegalWrite(rt, d, name, bytes)
    requires written == bytes || Parse(written).None?
    ensures DerivedOk(rt, d.(files := d.files[name := written]))
  {
    hide OrderedInputs, SidecarsOk, PreparationBound, HandoffOk, ReadyOk, ChainedJournal;
  }

  /** In a ready run every name that may be written is taken. */
  lemma NoWriteWhenReady(rt: Runtime, d: Disk, name: Name, bytes: Bytes)
    requires Inv(rt, d) && LegalWrite(rt, d, name, bytes)
    ensures |d.journal| < 10
  {
    hide SidecarsOk, PreparationBound;
  }

  lemma WriteKeepsPast(rt: Runtime, d: Disk, name: Name, bytes: Bytes, written: Bytes)
    requires LegalWrite(rt, d, name, bytes) && |d.journal| < 10
    ensures Later(d, d.(files := d.files[name := written]))
  {
    hide BoundTrackB, ValidatedBComplete;
  }

  /** `written` is what the write leaves, complete or torn. */
  lemma LegalWriteKeeps(rt: Runtime, d: Disk, name: Name, bytes: Bytes, written: Bytes)
    requires Inv(rt, d) && LegalWrite(rt, d, name, bytes)
    requires written == bytes || Parse(written).None?
    ensures Inv(rt, d.(files := d.files[name := written])) && Later(d, d.(files := d.files[name := written]))
  {
    hide OrderedInputs, SidecarsOk, PreparationBound, HandoffOk, DerivedOk, LegalWrite, Later, Accepted;
    WriteKeepsInputs(rt, d, name, bytes, written);
    WriteKeepsSidecars(rt, d, name, bytes, written);
    WriteKeepsBound(rt, d, name, bytes, written);
    WriteKeepsHandoff(rt, d, name, bytes, written);
    WriteKeepsDerived(rt, d, name, bytes, written);
    NoWriteWhenReady(rt, d, name, bytes);
    WriteKeepsPast(rt, d, name, bytes, written);
    WriteIntoMade(rt, d, name, bytes);
  }

  lemma WriteIntoMade(rt: Runtime, d: Disk, name: Name, bytes: Bytes)
    requires LegalWrite(rt, d, name, bytes)
    ensures d.made
  {
  }

  /** A metric event changes nothing that the invariant says of files and journal. */
  lemma MeasureKeeps(rt: Runtime, d: Disk, stage: Stage)
    requires Inv(rt, d) && d.made && !d.tornMetrics
    ensures Inv(rt, Perform(d, Measure(stage))) && Later(d, Perform(d, Measure(stage)))
    ensures Inv(rt, d.(tornMetrics := true)) && Later(d, d.(tornMetrics := true))
  {
    hide HandoffOk, DerivedOk, OrderedInputs, SidecarsOk, PreparationBound, Accepted, Later;
    var e, f := Perform(d, Measure(stage)), d.(tornMetrics := true);
    AcceptedByFiles(rt, d, e);
    AcceptedByFiles(rt, d, f);
    MeasureKeepsFiles(rt, d, e);
    MeasureKeepsFiles(rt, d, f);
    MeasureKeepsPast(d, e);
    MeasureKeepsPast(d, f);
  }

  lemma MeasureKeepsPast(d: Disk, e: Disk)
    requires !d.tornMetrics && d.stages <= e.stages && e == d.(stages := e.stages, tornMetrics := e.tornMetrics)
    ensures Later(d, e)
  {
  }

  lemma MeasureKeepsFiles(rt: Runtime, d: Disk, e: Disk)
    requires Inv(rt, d) && d.stages <= e.stages && e == d.(stages := e.stages, tornMetrics := e.tornMetrics)
    ensures HandoffOk(rt, e) && DerivedOk(rt, e) && OrderedInputs(rt, e) && SidecarsOk(e) && PreparationBound(e)
  {
    hide ReadyOk, ChainedJournal;
  }

  lemma UnlinkKeepsInputs(rt: Runtime, d: Disk, name: Name)
    requires Inv(rt, d) && LegalUnlink(d, name)
    ensures OrderedInputs(rt, Perform(d, Unlink(name)))
  {
    hide HandoffOk, DerivedOk, ReadyOk, ChainedJournal, SidecarsOk, PreparationBound;
  }

  lemma UnlinkKeepsSidecars(rt: Runtime, d: Disk, name: Name)
    requires Inv(rt, d) && LegalUnlink(d, name)
    ensures SidecarsOk(Perform(d, Unlink(name)))
  {
    hide HandoffOk, DerivedOk, ReadyOk, ChainedJournal, OrderedInputs;
    var e := Perform(d, Unlink(name));
    forall other | Sidecar(other) && other in e.files
      ensures e.ParsedFile(TrackA).Some? && (Parse(e.files[other]).None? || e.files[other] == SidecarBytes(e, other))
    {
      assert other in d.files && e.files[other] == d.files[other];
    }
  }

  lemma UnlinkKeepsBound(rt: Runtime, d: Disk, name: Name)
    requires Inv(rt, d) && LegalUnlink(d, name)
    ensures PreparationBound(Perform(d, Unlink(name)))
  {
    hide HandoffOk, SidecarsOk, DerivedOk, ReadyOk, ChainedJournal, OrderedInputs;
  }

  lemma UnlinkKeepsHandoff(rt: Runtime, d: Disk, name: Name)
    requires Inv(rt, d) && LegalUnlink(d, name)
    ensures HandoffOk(rt, Perform(d, Unlink(name)))
  {
    hide OrderedInputs, SidecarsOk, PreparationBound, DerivedOk, ReadyOk, ChainedJournal;
    var e := Perform(d, Unlink(name));
    assert |d.journal| >= 8 ==> e.ParsedFile(TrackA) == d.ParsedFile(TrackA);
  }

  lemma UnlinkKeepsDerived(rt: Runtime, d: Disk, name: Name)
    requires Inv(rt, d) && LegalUnlink(d, name)
    ensures DerivedOk(rt, Perform(d, Unlink(name)))
  {
    hide HandoffOk, OrderedInputs, SidecarsOk, PreparationBound, ReadyOk, ChainedJournal;
  }

  lemma UnlinkKeepsPast(d: Disk, name: Name)
    requires LegalUnlink(d, name)
    ensures Later(d, Perform(d, Unlink(name)))
  {
  }

  /** What an unlink finds, and what it leaves of the invariant at once. */
  lemma UnlinkFrame(rt: Runtime, d: Disk, name: Name)
    requires Inv(rt, d) && LegalUnlink(d, name)
    ensures var e := Perform(d, Unlink(name)); ChainedJournal(e) && (!e.made ==> e == EMPTY_DISK) && ReadyOk(rt, e)
  {
    hide HandoffOk, DerivedOk, OrderedInputs, SidecarsOk, PreparationBound;
  }

  lemma LegalUnlinkKeeps(rt: Runtime, d: Disk, name: Name)
    requires Inv(rt, d) && LegalUnlink(d, name)
    ensures Inv(rt, Perform(d, Unlink(name))) && Later(d, Perform(d, Unlink(name)))
  {
    hide HandoffOk, DerivedOk, OrderedInputs, SidecarsOk, PreparationBound, ReadyOk, ChainedJournal, LegalUnlink, Perform, Later;
    UnlinkKeepsInputs(rt, d, name);
    UnlinkKeepsSidecars(rt, d, name);
    UnlinkKeepsBound(rt, d, name);
    UnlinkKeepsHandoff(rt, d, name);
    UnlinkKeepsDerived(rt, d, name);
    UnlinkKeepsPast(d, name);
    UnlinkFrame(rt, d, name);
  }

  /** What the invariant says of a run whose journal has begun. */
  lemma InvJournal(rt: Runtime, d: Disk)
    requires Inv(rt, d)
    ensures ChainedJournal(d)
    ensures d.journal != [] ==> d.made && Request in d.files && BundleA in d.files
  {
    hide DerivedOk, ReadyOk, OrderedInputs, SidecarsOk, PreparationBound;
  }

  /** A legal write keeps the invariant and the past, whether it completes or is torn. */
  lemma LegalKeeps(rt: Runtime, d: Disk, a: Action, noise: nat)
    requires Inv(rt, d) && Legal(rt, d, a)
    ensures Inv(rt, Perform(d, a)) && Later(d, Perform(d, a))
    ensures Inv(rt, Tear(d, a, noise)) && Later(d, Tear(d, a, noise))
  {
    match a
    case MakeDirectory =>
    case Write(name, bytes) =>
      LegalWriteKeeps(rt, d, name, bytes, bytes);
      LegalWriteKeeps(rt, d, name, bytes, Junk(noise));
    case Unlink(name) => LegalUnlinkKeeps(rt, d, name);
    case Append(event) => LegalAppendKeeps(rt, d, event);
    case Measure(stage) => MeasureKeeps(rt, d, stage);
  }

  ghost predicate LegalFrom(rt: Runtime, d: Disk, actions: seq<Action>)
    decreases |actions|
  {
    Inv(rt, d) &&
    (actions != [] ==> Legal(rt, d, actions[0]) && LegalFrom(rt, Perform(d, actions[0]), actions[1..]))
  }

  /** Legal writes are safe wherever the process dies. */
  lemma {:induction false} LegalCrash(rt: Runtime, d: Disk, actions: seq<Action>, cut: nat, tear: Option<nat>)
    requires LegalFrom(rt, d, actions)
    ensures Inv(rt, Crash(d, actions, cut, tear)) && Later(d, Crash(d, actions, cut, tear))
    decreases |actions|
  {
    hide Inv, Legal, Later, Perform, Tear;
    LaterItself(d);
    if actions == [] {
    } else if cut == 0 {
      assert actions[..0] == [];
      LegalKeeps(rt, d, actions[0], if tear.Some? then tear.value else 0);
    } else {
      var next := Perform(d, actions[0]);
      LegalKeeps(rt, d, actions[0], 0);
      LegalCrash(rt, next, actions[1..], cut - 1, tear);
      if cut < |actions| {
        assert actions[..cut][1..] == actions[1..][..cut - 1];
      }
      assert Crash(d, actions, cut, tear) == Crash(next, actions[1..], cut - 1, tear);
      LaterTransitive(d, next, Crash(d, actions, cut, tear));
    }
  }

  lemma {:induction false} LegalNothing(rt: Runtime, d: Disk)
    requires Inv(rt, d)
    ensures LegalFrom(rt, d, []) && Replay(d, []) == d
  {
  }

  lemma {:induction false} LegalLeaves(rt: Runtime, d: Disk, actions: seq<Action>)
    requires LegalFrom(rt, d, actions)
    ensures Inv(rt, Replay(d, actions)) && Later(d, Replay(d, actions))
  {
    LegalCrash(rt, d, actions, |actions|, None);
  }

  lemma {:induction false} LegalConcat(rt: Runtime, d: Disk, first: seq<Action>, second: seq<Action>)
    requires LegalFrom(rt, d, first) && LegalFrom(rt, Replay(d, first), second)
    ensures LegalFrom(rt, d, first + second)
    decreases |first|
  {
    if first == [] {
      assert first + second == second;
    } else {
      assert (first + second)[1..] == first[1..] + second;
      LegalConcat(rt, Perform(d, first[0]), first[1..], second);
    }
  }

  lemma {:induction false} LegalThen(rt: Runtime, d: Disk, p: Plan, q: Plan)
    requires LegalFrom(rt, d, p.actions)
    requires p.outcome.Ok? ==> LegalFrom(rt, Leaves(d, p), q.actions)
    ensures LegalFrom(rt, d, Then(p, q).actions)
    ensures p.outcome.Ok? ==> Leaves(d, Then(p, q)) == Leaves(Leaves(d, p), q)
  {
    if p.outcome.Ok? {
      LegalConcat(rt, d, p.actions, q.actions);
      ReplayConcat(d, p.actions, q.actions);
    }
  }

  /** One more legal write at the end of a legal sequence. */
  lemma {:induction false} LegalSnoc(rt: Runtime, d: Disk, actions: seq<Action>, a: Action)
    requires LegalFrom(rt, d, actions)
    requires Inv(rt, Replay(d, actions)) && Legal(rt, Replay(d, actions), a)
    ensures LegalFrom(rt, d, actions + [a])
    ensures Replay(d, actions + [a]) == Perform(Replay(d, actions), a)
    ensures Inv(rt, Perform(Replay(d, actions), a)) && Later(Replay(d, actions), Perform(Replay(d, actions), a))
  {
    hide Inv, Legal, Later, Replay, Perform;
    var e := Replay(d, actions);
    LegalKeeps(rt, e, a, 0);
    assert [a][0] == a && [a][1..] == [];
    LegalNothing(rt, Perform(e, a));
    LegalConcat(rt, d, actions, [a]);
    ReplayConcat(d, actions, [a]);
    ReplayOne(e, a);
  }

  /** Removing one file leaves the removal of the others as legal as it was. */
  lemma UnlinkStaysLegal(d: Disk, gone: Name, name: Name)
    requires LegalUnlink(d, name) && name != TrackB
    ensures LegalUnlink(Perform(d, Unlink(gone)), name)
  {
  }

  lemma {:induction false} UnlinksLegal(rt: Runtime, d: Disk, names: seq<Name>)
    requires Inv(rt, d)
    requires forall i | 0 <= i < |names| :: LegalUnlink(d, names[i]) && names[i] != TrackB
    ensures LegalFrom(rt, d, Unlinks(names)) && Inv(rt, Replay(d, Unlinks(names)))
    ensures Replay(d, Unlinks(names)) == d.(files := d.files - (set name | name in names))
    decreases |names|
  {
    hide Inv, LegalFrom, Later, LegalUnlink;
    LegalNothing(rt, d);
    if names == [] {
      assert d.files - (set name | name in names) == d.files;
    } else {
      var a := Unlink(names[0]);
      var e := Perform(d, a);
      LegalKeeps(rt, d, a, 0);
      forall i | 0 <= i < |names| ensures LegalUnlink(e, names[i]) { UnlinkStaysLegal(d, names[0], names[i]); }
      UnlinksLegal(rt, e, names[1..]);
      assert Unlinks(names)[1..] == Unlinks(names[1..]);
      LegalCons(rt, d, a, Unlinks(names[1..]));
      assert e.files - (set name | name in names[1..]) == d.files - (set name | name in names) by {
        assert (set name | name in names) == {names[0]} + (set name | name in names[1..]);
      }
    }
  }

  lemma {:induction false} LegalCons(rt: Runtime, d: Disk, a: Action, rest: seq<Action>)
    requires Inv(rt, d) && Legal(rt, d, a) && LegalFrom(rt, Perform(d, a), rest)
    ensures LegalFrom(rt, d, [a] + rest)
    ensures Replay(d, [a] + rest) == Replay(Perform(d, a), rest)
  {
    hide Inv, Legal, Later, Perform;
    assert ([a] + rest)[1..] == rest;
  }
}

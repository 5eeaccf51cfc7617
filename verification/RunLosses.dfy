/** The other ways to lose a run: a torn journal event, a torn metric event, and another document in the place of
    Track B. */
module RunLosses {
  import opened Options
  import opened RunDisk
  import opened RunPlans
  import opened RunSafety
  import opened RunLegality
  import opened RunTelemetry
  import opened RunLegalityA
  import opened RunLegalityB
  import opened RunTheorems
  import opened RunRecovery
  import opened RunWitness

  // ---------------------------------------------------------------- the last event is torn

  lemma ReadyEventIsLast(rt: Runtime, d: Disk, packet: Doc)
    requires Inv(rt, d) && |d.journal| == 9 && !d.tornTail && Packet in d.files
    ensures MarkReady(d, packet).actions == [Append(Event(10, Last(d), ReadyForReview, Sha256(d.files[Packet])))]
  {
    hide Inv, ChainedJournal;
    ChainFromInv(rt, d);
    LastPosition(d);
  }

  /** The submission's last write is the journal event READY_FOR_REVIEW. */
  lemma SubmissionEndsWithEvent(rt: Runtime, d: Disk, source: Source, packet: Doc)
    requires Inv(rt, d) && |d.journal| == 9 && !d.tornTail && !d.tornMetrics
    requires ReadDoc(d, source, TrackB).Some? && ReadDoc(d, source, TrackB) == Recorded(d)
    requires FinalizeAndMark(rt, FAIR, d, source).outcome == Done(packet)
    ensures var p, q := SubmitTrackB(rt, FAIR, d, source), FinalizeAndMark(rt, FAIR, d, source);
            && |q.actions| == |p.actions| + 1 && q.actions[..|p.actions|] == p.actions && q.actions[|p.actions|].Append?
            && FilesAndStages(d, Leaves(d, p))
  {
    hide Inv, LegalFrom, Later, Replay, SubmitTrackB, MarkReady, ReadDoc, Recorded, VerifiedPacket;
    SubmitTrackBLegal(rt, FAIR, d, source);
    var p := SubmitTrackB(rt, FAIR, d, source);
    var e := Leaves(d, p);
    AcceptedPacket(rt, e);
    ReadyEventIsLast(rt, e, p.outcome.packet);
  }

  /** All writes but the last, and the last one torn. */
  lemma TornInEvent(rt: Runtime, d: Disk, a: Doc, b: Doc, packet: Doc, noise: nat) returns (cut: nat)
    requires Finishable(rt, a, b, packet) && Inv(rt, d) && HandedOver(rt, d, a)
    ensures var e := Execute(rt, d, Step(CallTrackB(External(Canonical(b))), FAIR, cut, Some(noise)));
            |e.journal| == 9 && e.tornTail
  {
    hide Inv, Replay, FinalizeAndMark, CanFinalize, SubmitQuestionTrackB, ValidTrackB, HandedOver, SubmitTrackB, Malformed;
    var source := External(Canonical(b));
    HandedOverInputs(rt, d, a);
    FirstSubmissionEnters(rt, d, a, b, packet, External(Canonical(b)));
    var e := Entered(d, b);
    EnteredDone(rt, e, b, packet);
    EnteredJournal(d, b);
    SubmissionEndsWithEvent(rt, e, source, packet);
    var p, q := SubmitTrackB(rt, FAIR, e, source), FinalizeAndMark(rt, FAIR, e, source);
    var actions := SubmitQuestionTrackB(rt, FAIR, d, source).actions;
    cut := 3 + |p.actions|;
    EnteringReplayed(d, b);
    AllButLast(d, EnteringActions(d, b), p.actions, q.actions, noise);
    assert CrashedTorn(d, actions, cut, noise);
  }

  lemma EnteredDone(rt: Runtime, e: Disk, b: Doc, packet: Doc)
    requires Inv(rt, e) && CanFinalize(rt, e, packet) && Recorded(e) == Some(b) && TrackB !in e.files && ValidationB !in e.files
    ensures FinalizeAndMark(rt, FAIR, e, External(Canonical(b))).outcome == Done(packet)
  {
    hide Inv, FinalizeAndMark, CanFinalize;
    FinalizeAndMarkDone(rt, FAIR, e, External(Canonical(b)), packet);
  }

  ghost predicate CrashedTorn(d: Disk, actions: seq<Action>, cut: nat, noise: nat) {
    |Crash(d, actions, cut, Some(noise)).journal| == |d.journal| + 1 && Crash(d, actions, cut, Some(noise)).tornTail
  }

  lemma {:induction false} AllButLast(d: Disk, first: seq<Action>, some: seq<Action>, all: seq<Action>, noise: nat)
    requires |all| == |some| + 1 && all[..|some|] == some && all[|some|].Append?
    requires var e := Replay(d, first); |e.journal| == |d.journal| + 1 && Replay(e, some).journal == e.journal
    ensures CrashedTorn(d, first + all, |first| + |some|, noise)
  {
    hide Replay;
    var actions := first + all;
    assert actions[..|first| + |some|] == first + some && actions[|first| + |some|] == all[|some|];
    ReplayConcat(d, first, some);
  }

  /** Dying inside the last write of the submission, the event READY_FOR_REVIEW, leaves a run that no
      continuation finishes: its journal no longer loads. */
  lemma TornEventIsFatal(rt: Runtime, a: Doc, b: Doc, packet: Doc, noise: nat, more: seq<Step>) returns (steps: seq<Step>)
    requires Finishable(rt, a, b, packet)
    ensures |steps| == 3 && steps[2].call == CallTrackB(External(Canonical(b))) && steps[2].tear == Some(noise)
    ensures var d := AfterRun(rt, steps);
            && |d.journal| == 9 && d.tornTail && !Recoverable(rt, d)
            && |AfterRun(rt, steps + more).journal| == 9
  {
    hide Inv, Execute, HandedOver;
    var two := ReadyForTrackB(rt, a);
    RunSafe(rt, two);
    var cut := TornInEvent(rt, AfterRun(rt, two), a, b, packet, noise);
    steps := two + [Step(CallTrackB(External(Canonical(b))), FAIR, cut, Some(noise))];
    assert steps[..|steps| - 1] == two;
    assert |AfterRun(rt, steps).journal| == 9 && AfterRun(rt, steps).tornTail;
    hide AfterRun;
    HopelessForEver(rt, steps, more);
  }

  // ---------------------------------------------------------------- a metric event is torn

  /** Dying inside the metric event that follows the packet leaves a run that no continuation finishes: a
      retry reads every metric event before it validates, and nothing removes a torn one. */
  lemma TornMetricIsFatal(rt: Runtime, a: Doc, b: Doc, packet: Doc, noise: nat, more: seq<Step>) returns (steps: seq<Step>)
    requires Finishable(rt, a, b, packet)
    ensures |steps| == 3 && steps[2] == Step(CallTrackB(External(Canonical(b))), FAIR, 7, Some(noise))
    ensures var d := AfterRun(rt, steps);
            && |d.journal| == 9 && !d.tornTail && d.tornMetrics && d.ParsedFile(TrackB) == Recorded(d) && ValidatedBComplete(d)
            && Html !in d.files && !Recoverable(rt, d)
            && |AfterRun(rt, steps + more).journal| == 9
  {
    hide Inv, Execute, HandedOver;
    var two := ReadyForTrackB(rt, a);
    RunSafe(rt, two);
    steps := two + [Step(CallTrackB(External(Canonical(b))), FAIR, 7, Some(noise))];
    assert steps[..|steps| - 1] == two;
    TornInMetric(rt, AfterRun(rt, two), a, b, packet, noise);
    RunSafe(rt, steps);
    hide AfterRun;
    PacketMeansValidated(rt, AfterRun(rt, steps));
    HopelessForEver(rt, steps, more);
  }

  lemma PacketMeansValidated(rt: Runtime, d: Disk)
    requires Inv(rt, d) && Packet in d.files
    ensures BoundTrackB(d) && ValidatedBComplete(d)
  {
    hide OrderedInputs, HandoffOk, SidecarsOk, PreparationBound, ReadyOk, ChainedJournal;
  }

  /** The eighth write of the submission is the metric event of the finalizer. */
  lemma TornInMetric(rt: Runtime, d: Disk, a: Doc, b: Doc, packet: Doc, noise: nat)
    requires Finishable(rt, a, b, packet) && Inv(rt, d) && HandedOver(rt, d, a)
    ensures var e := Execute(rt, d, Step(CallTrackB(External(Canonical(b))), FAIR, 7, Some(noise)));
            |e.journal| == 9 && !e.tornTail && e.tornMetrics && Html !in e.files && Packet in e.files
  {
    hide Inv, Replay, FinalizeAndMark, CanFinalize, SubmitQuestionTrackB, ValidTrackB, HandedOver, EnteringEvent;
    var source := External(Canonical(b));
    HandedOverInputs(rt, d, a);
    FirstSubmissionEnters(rt, d, a, b, packet, External(Canonical(b)));
    var e := Entered(d, b);
    EnteredJournal(d, b);
    NoPageYet(rt, e, packet);
    TrackBWrites(rt, e, b, packet);
    EnteringReplayed(d, b);
    var rest := FinalizeAndMark(rt, FAIR, e, source).actions;
    var actions := SubmitQuestionTrackB(rt, FAIR, d, source).actions;
    assert actions[..7] == EnteringActions(d, b) + rest[..4] && actions[7] == Measure(Finalizer);
    ReplayConcat(d, EnteringActions(d, b), rest[..4]);
    FourWrites(e, rest[..4]);
  }

  lemma NoPageYet(rt: Runtime, d: Disk, packet: Doc)
    requires CanFinalize(rt, d, packet)
    ensures Html !in d.files
  {
  }

  lemma {:induction false} FourWrites(d: Disk, writes: seq<Action>)
    requires |writes| == 4 && writes[0].Write? && writes[1].Write? && writes[2].Write? && writes[3].Write?
    requires writes[0].name != Html && writes[1].name != Html && writes[2].name != Html && writes[3].name == Packet
    requires Html !in d.files
    ensures var e := Replay(d, writes); e == d.(files := e.files) && Html !in e.files && Packet in e.files
  {
    ReplayOne(d, writes[0]);
    ReplaySnoc(d, [writes[0]], writes[1]);
    ReplaySnoc(d, [writes[0]] + [writes[1]], writes[2]);
    ReplaySnoc(d, [writes[0]] + [writes[1]] + [writes[2]], writes[3]);
    assert [writes[0]] + [writes[1]] + [writes[2]] + [writes[3]] == writes;
  }

  // ---------------------------------------------------------------- another document as Track B

  /** The process dies between the event FINALIZING and the run-local Track B, and another document is
      put in its place: no continuation finishes the run. */
  lemma ReplacedTrackBIsFatal(rt: Runtime, a: Doc, b: Doc, packet: Doc, other: Doc, more: seq<Step>) returns (steps: seq<Step>)
    requires Finishable(rt, a, b, packet) && other != b
    ensures |steps| == 4 && steps[2] == Step(CallTrackB(External(Canonical(b))), FAIR, 3, None)
    ensures steps[3] == Step(Place(TrackB, Canonical(other)), FAIR, 1, None)
    ensures var d := AfterRun(rt, steps);
            && |d.journal| == 9 && !d.tornTail && d.ParsedFile(TrackB) == Some(other) && Recorded(d) == Some(b) && !Recoverable(rt, d)
            && |AfterRun(rt, steps + more).journal| == 9
  {
    hide Inv, Execute, HandedOver;
    var two := ReadyForTrackB(rt, a);
    RunSafe(rt, two);
    var third, fourth := Step(CallTrackB(External(Canonical(b))), FAIR, 3, None), Step(Place(TrackB, Canonical(other)), FAIR, 1, None);
    var e := EnteredOnly(rt, AfterRun(rt, two), a, b, packet);
    var three := two + [third];
    steps := three + [fourth];
    assert three[..|three| - 1] == two && steps[..|steps| - 1] == three;
    assert AfterRun(rt, three) == e;
    PlacedAfter(rt, e, other);
    assert AfterRun(rt, steps) == Perform(e, Write(TrackB, Canonical(other)));
    hide AfterRun;
    HopelessForEver(rt, steps, more);
  }

  lemma EnteredOnly(rt: Runtime, d: Disk, a: Doc, b: Doc, packet: Doc) returns (e: Disk)
    requires Finishable(rt, a, b, packet) && Inv(rt, d) && HandedOver(rt, d, a)
    ensures e == Execute(rt, d, Step(CallTrackB(External(Canonical(b))), FAIR, 3, None))
    ensures |e.journal| == 9 && !e.tornTail && e.made && TrackB !in e.files && Recorded(e) == Some(b)
  {
    hide Inv, Replay, FinalizeAndMark, CanFinalize, SubmitQuestionTrackB, ValidTrackB, HandedOver;
    HandedOverInputs(rt, d, a);
    FirstSubmissionEnters(rt, d, a, b, packet, External(Canonical(b)));
    e := Entered(d, b);
    EnteredJournal(d, b);
    EnteringReplayed(d, b);
    FirstWritesOnly(d, EnteringActions(d, b), FinalizeAndMark(rt, FAIR, e, External(Canonical(b))).actions);
  }

  /** A crash after some first writes leaves what those leave, whether or not more was to come. */
  lemma {:induction false} FirstWritesOnly(d: Disk, first: seq<Action>, rest: seq<Action>)
    ensures Crash(d, first + rest, |first|, None) == Replay(d, first)
  {
    hide Replay;
    if rest == [] { assert first + rest == first; }
    assert (first + rest)[..|first|] == first;
  }

  lemma PlacedAfter(rt: Runtime, e: Disk, other: Doc)
    requires e.made && TrackB !in e.files
    ensures Execute(rt, e, Step(Place(TrackB, Canonical(other)), FAIR, 1, None)) == Perform(e, Write(TrackB, Canonical(other)))
  {
    ReplayOne(e, Write(TrackB, Canonical(other)));
  }
}

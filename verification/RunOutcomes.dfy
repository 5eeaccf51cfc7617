/** What a run can still become: exactly the pairs of outputs its state is open for. */
module RunOutcomes {
  import opened Options
  import opened RunDisk
  import opened RunPlans
  import opened RunSafety
  import opened RunLegality
  import opened RunTelemetry
  import opened RunLegalityA
  import opened RunLegalityB
  import opened RunTheorems
  import opened RunRecovery
  import opened RunWitness
  import opened RunHandover
  import opened RunProgress

  // ---------------------------------------------------------------- a preparation cut short

  /** A run directory whose preparation was killed before next-action-track-a.json existed, or
      among its first seven journal events. */
  ghost predicate CutShort(d: Disk) {
    d.made && |d.journal| <= 7 && (ActionA !in d.files || 1 <= |d.journal| <= 6)
  }

  ghost predicate NoActionA(actions: seq<Action>) {
    forall i | 0 <= i < |actions| :: actions[i].Write? ==> actions[i].name != ActionA
  }

  /** Neither writes the Track A action, nor continues a journal that has begun. */
  ghost predicate Idle(d: Disk, actions: seq<Action>) {
    NoActionA(actions) && (d.journal != [] ==> NoEvent(actions))
  }

  lemma {:induction false} NoActionAReplay(d: Disk, actions: seq<Action>)
    requires NoActionA(actions) && ActionA !in d.files
    ensures ActionA !in Replay(d, actions).files
    decreases |actions|
  {
    if actions != [] {
      assert forall i | 0 <= i < |actions[1..]| :: actions[1..][i] == actions[i + 1];
      NoActionAReplay(Perform(d, actions[0]), actions[1..]);
    }
  }

  lemma IdleCrash(d: Disk, actions: seq<Action>, cut: nat, tear: Option<nat>)
    requires Idle(d, actions)
    ensures var e := Crash(d, actions, cut, tear);
            && (ActionA !in d.files ==> ActionA !in e.files)
            && (d.journal != [] ==> e.journal == d.journal)
  {
    var whole := if cut >= |actions| then actions else actions[..cut];
    if ActionA !in d.files { NoActionAReplay(d, whole); }
    if d.journal != [] { NoEventReplay(d, whole); }
    hide Replay;
  }

  lemma {:induction false} InitializeAppends(d: Disk, position: nat, request: Hash, bundle: Hash)
    requires position <= 7
    ensures NoActionA(InitializeFrom(d, position, request, bundle).actions)
    decreases 7 - position
  {
    if position < 7 {
      var p := AppendEvent(d, WORD[position], if position < 3 then request else bundle);
      InitializeAppends(Leaves(d, p), position + 1, request, bundle);
    }
  }

  /** Resuming such a run journals at most the preparation events, and is refused. */
  lemma ResumeCutShort(rt: Runtime, env: Env, d: Disk)
    requires Inv(rt, d) && CutShort(d)
    ensures Resume(rt, env, d).outcome.Refused? && Idle(d, Resume(rt, env, d).actions)
  {
    hide Inv, LegalFrom, Later, Replay, InitializeFrom, ChainedJournal;
    InvJournal(rt, d);
    if env.evidence && d.ParsedFile(Request).Some? && !d.tornTail {
      if d.journal == [] {
        EnsureJournalLegal(rt, d);
        var p := EnsureJournal(d);
        var e := Leaves(d, p);
        if Request in d.files && BundleA in d.files {
          InitializeAppends(d, 0, Sha256(d.files[Request]), Sha256(d.files[BundleA]));
          StartedLast(rt, d);
          assert ResumeNonEmpty(rt, env, e) == Refuse(MissingArtifact);
        }
        assert p.actions + [] == p.actions;
      } else {
        LastPosition(d);
        NothingLeaves(d);
      }
    }
  }

  lemma StartedLast(rt: Runtime, d: Disk)
    requires Inv(rt, d) && d.made && !d.tornTail && d.journal == [] && Request in d.files && BundleA in d.files
    ensures Last(Leaves(d, InitializeEvents(d))) == Some(WaitingTrackA)
  {
    hide Inv, LegalFrom, Later, Replay, InitializeEvents, ChainedJournal;
    InitializeEventsLegal(rt, d);
    LegalLeaves(rt, d, InitializeEvents(d).actions);
    InvJournal(rt, Leaves(d, InitializeEvents(d)));
    LastPosition(Leaves(d, InitializeEvents(d)));
  }

  lemma MeasuresIdle(d: Disk)
    ensures Idle(d, ReportPreparation(d).actions) && Idle(d, Measures(PREPARATION))
  {
    assert Measures(PREPARATION) == [Measure(Normalization), Measure(Retrieval), Measure(RequestBuild), Measure(Preparation)];
  }

  lemma ReprepareCutShort(rt: Runtime, env: Env, d: Disk)
    requires Inv(rt, d) && CutShort(d) && Holds(d, Request, Canonical(rt.request))
    ensures Idle(d, Reprepare(rt, env, d).actions)
  {
    hide Inv, LegalFrom, Later, Replay, Resume, ReportPreparation;
    var p := WriteOrIdentical(d, Query, Canonical(rt.query));
    WriteOrIdenticalLegal(rt, d, Query, Canonical(rt.query));
    if p.outcome.Ok? {
      var e := Leaves(d, p);
      ReportPreparationLegal(rt, e);
      MeasuresIdle(e);
      ReplayConcat(d, p.actions, ReportPreparation(e).actions);
      ResumeCutShort(rt, env, Leaves(e, ReportPreparation(e)));
    }
  }

  lemma CallCutShort(rt: Runtime, env: Env, d: Disk, call: Call)
    requires Inv(rt, d) && CutShort(d)
    ensures Idle(d, PlanOf(rt, env, d, call).actions)
  {
    hide Inv, Resume, Reprepare, AcceptTrackA, FirstSubmission, RetrySubmission, ChainedJournal;
    ResumeCutShort(rt, env, d);
    InvJournal(rt, d);
    if d.journal != [] { LastPosition(d); }
    if Request in d.files && d.files[Request] == Canonical(rt.request) { ReprepareCutShort(rt, env, d); }
  }

  lemma StaysCutShort(rt: Runtime, d: Disk, step: Step)
    requires Inv(rt, d) && CutShort(d) && rt.WellFormed()
    ensures CutShort(Execute(rt, d, step))
  {
    hide Inv, PlanOf, Crash, Idle, ChainedJournal;
    CallCutShort(rt, step.env, d, step.call);
    IdleCrash(d, PlanOf(rt, step.env, d, step.call).actions, step.cut, step.tear);
    var e := Execute(rt, d, step);
    StepSafe(rt, d, step);
    hide Later;
    assert d.made && e.made by { MadeStays(d, e); }
    NoActionANoHandover(rt, e);
  }

  lemma MadeStays(d: Disk, e: Disk)
    requires Later(d, e) && d.made
    ensures e.made
  {
  }

  lemma NoActionANoHandover(rt: Runtime, d: Disk)
    requires Inv(rt, d)
    ensures ActionA !in d.files ==> |d.journal| <= 7
  {
    hide OrderedInputs, SidecarsOk, PreparationBound, DerivedOk, ReadyOk, ChainedJournal;
  }

  lemma {:induction false} CutShortForEver(rt: Runtime, steps: seq<Step>, more: seq<Step>)
    requires rt.WellFormed() && CutShort(AfterRun(rt, steps))
    ensures CutShort(AfterRun(rt, steps + more))
    decreases |more|
  {
    hide Inv, CutShort, Execute;
    if more == [] {
      assert steps + more == steps;
    } else {
      var before := steps + more[..|more| - 1];
      assert (steps + more)[..|steps + more| - 1] == before;
      CutShortForEver(rt, steps, more[..|more| - 1]);
      RunSafe(rt, before);
      StaysCutShort(rt, AfterRun(rt, before), more[|more| - 1]);
    }
  }

  /** A preparation killed anywhere between its first write and next-action-track-a.json leaves
      a run that is never handed over: preparing again does not write that file. */
  lemma {:induction false} KilledPreparationIsFatal(rt: Runtime, cut: nat, tear: Option<nat>, more: seq<Step>)
    requires rt.WellFormed() && (1 <= cut < 9 || (cut == 9 && tear.None?))
    ensures var d := AfterRun(rt, [Step(CallPrepare, FAIR, cut, tear)]);
            d.made && ActionA !in d.files && |AfterRun(rt, [Step(CallPrepare, FAIR, cut, tear)] + more).journal| <= 7
  {
    hide Inv, Crash, Replay, Prepare;
    var step := Step(CallPrepare, FAIR, cut, tear);
    assert [step][..|[step]| - 1] == [];
    PreparationBegins(rt);
    KilledWithoutAction(rt, Prepare(rt, FAIR, EMPTY_DISK).actions, cut, tear);
    assert AfterRun(rt, [step]) == Execute(rt, EMPTY_DISK, step);
    CutShortForEver(rt, [step], more);
  }

  lemma PreparationBegins(rt: Runtime)
    ensures var actions := Prepare(rt, FAIR, EMPTY_DISK).actions;
            |actions| >= 10 && actions[..10] == WriteInputs(rt).actions
  {
    hide Replay, Resume, InitializeEvents;
    assert Measures(PREPARATION) == [Measure(Normalization), Measure(Retrieval), Measure(RequestBuild), Measure(Preparation)];
  }

  lemma KilledWithoutAction(rt: Runtime, actions: seq<Action>, cut: nat, tear: Option<nat>)
    requires |actions| >= 10 && actions[..10] == WriteInputs(rt).actions
    requires 1 <= cut < 9 || (cut == 9 && tear.None?)
    ensures var e := Crash(EMPTY_DISK, actions, cut, tear); e.made && ActionA !in e.files && e.journal == []
  {
    hide Replay;
    assert Measures(PREPARATION) == [Measure(Normalization), Measure(Retrieval), Measure(RequestBuild), Measure(Preparation)];
    var first := actions[..cut];
    assert forall i | 0 <= i < 10 :: actions[i] == WriteInputs(rt).actions[i];
    assert NoActionA(first) && NoEvent(first);
    NoActionAReplay(EMPTY_DISK, first);
    NoEventReplay(EMPTY_DISK, first);
    MadeFirst(EMPTY_DISK, first);
  }

  lemma {:induction false} MadeReplay(d: Disk, actions: seq<Action>)
    requires d.made
    ensures Replay(d, actions).made
    decreases |actions|
  {
    if actions != [] { MadeReplay(Perform(d, actions[0]), actions[1..]); }
  }

  lemma {:induction false} MadeFirst(d: Disk, actions: seq<Action>)
    requires actions != [] && actions[0] == MakeDirectory
    ensures Replay(d, actions).made
  {
    MadeReplay(Perform(d, actions[0]), actions[1..]);
  }

  // ---------------------------------------------------------------- nothing opens again

  lemma OutputsStay(rt: Runtime, d: Disk, e: Disk, a: Doc, b: Doc)
    requires Inv(rt, d) && Inv(rt, e) && Later(d, e) && |d.journal| <= 8 && d.made && Open(rt, e, a, b)
    ensures Compatible(d, a, b)
  {
    hide OrderedInputs, SidecarsOk, PreparationBound, HandoffOk, ChainedJournal, Accepted;
    assert TrackA in d.files ==> Frozen(d, TrackA);
    assert d.ParsedFile(TrackB).Some? ==> Frozen(d, TrackB);
    if |e.journal| == 10 { ReadyBound(rt, e); }
    if |e.journal| > 10 { JournalBound(rt, d, e); }
  }

  lemma ReadyBound(rt: Runtime, d: Disk)
    requires Inv(rt, d) && |d.journal| == 10
    ensures BoundTrackB(d)
  {
    hide OrderedInputs, SidecarsOk, PreparationBound, HandoffOk, ChainedJournal;
  }

  /** Before FINALIZING nothing torn is ever repaired. */
  lemma TornStays(rt: Runtime, d: Disk, e: Disk, a: Doc, b: Doc)
    requires Inv(rt, d) && Inv(rt, e) && Later(d, e) && |d.journal| <= 8 && d.made && Open(rt, e, a, b)
    ensures NothingTorn(d)
  {
    hide OrderedInputs, SidecarsOk, PreparationBound, HandoffOk, ChainedJournal, VerifiedPacket, BoundTrackB, ValidatedBComplete;
    JournalBound(rt, d, e);
    NoPacketYet(rt, d);
    if |e.journal| == 10 { assert Accepted(rt, e); }
  }

  lemma NoPacketYet(rt: Runtime, d: Disk)
    requires Inv(rt, d) && |d.journal| <= 8
    ensures Packet !in d.files
  {
    hide OrderedInputs, SidecarsOk, PreparationBound, HandoffOk, ChainedJournal, ReadyOk;
  }

  lemma OpenEarlier(rt: Runtime, d: Disk, e: Disk, a: Doc, b: Doc)
    requires Inv(rt, d) && Inv(rt, e) && Later(d, e) && |d.journal| <= 8 && d.made && Open(rt, e, a, b) && !CutShort(d)
    ensures Open(rt, d, a, b)
  {
    hide Inv, Later, NothingTorn, Compatible;
    OutputsStay(rt, d, e, a, b);
    TornStays(rt, d, e, a, b);
    NoActionANoHandover(rt, d);
  }

  lemma OpenAfterFinalizing(rt: Runtime, d: Disk, e: Disk, a: Doc, b: Doc)
    requires Inv(rt, d) && Inv(rt, e) && Later(d, e) && |d.journal| >= 9 && Open(rt, e, a, b)
    ensures Open(rt, d, a, b)
  {
    hide Inv, Recoverable;
    JournalBound(rt, d, e);
    TrackAPresent(rt, d);
    assert Frozen(d, TrackA) && e.journal[8] == d.journal[8];
    if |d.journal| == 9 {
      if |e.journal| == 10 { FinishedWasRecoverable(rt, d, e); } else if !Recoverable(rt, d) { HopelessStays(rt, d, e); }
    }
  }

  lemma TrackAPresent(rt: Runtime, d: Disk)
    requires Inv(rt, d) && |d.journal| >= 8
    ensures TrackA in d.files && d.made
  {
    hide OrderedInputs, SidecarsOk, PreparationBound, DerivedOk, ReadyOk, ChainedJournal;
  }

  /** A state that is not open stays so, whatever is called and however it is interrupted. */
  lemma OpenBefore(rt: Runtime, d: Disk, step: Step, a: Doc, b: Doc)
    requires Inv(rt, d) && rt.WellFormed() && Open(rt, Execute(rt, d, step), a, b)
    ensures Open(rt, d, a, b)
  {
    hide Inv, Later, Execute, Recoverable, NothingTorn, Compatible;
    var e := Execute(rt, d, step);
    StepSafe(rt, d, step);
    if d.made && CutShort(d) {
      StaysCutShort(rt, d, step);
    } else if d.made && |d.journal| <= 8 {
      OpenEarlier(rt, d, e, a, b);
    } else if d.made {
      OpenAfterFinalizing(rt, d, e, a, b);
    }
  }

  lemma {:induction false} OpenAtFirst(rt: Runtime, steps: seq<Step>, more: seq<Step>, a: Doc, b: Doc)
    requires rt.WellFormed() && Open(rt, AfterRun(rt, steps + more), a, b)
    ensures Open(rt, AfterRun(rt, steps), a, b)
    decreases |more|
  {
    hide Inv, Open, Execute;
    if more == [] {
      assert steps + more == steps;
    } else {
      var before := steps + more[..|more| - 1];
      assert (steps + more)[..|steps + more| - 1] == before;
      RunSafe(rt, before);
      OpenBefore(rt, AfterRun(rt, before), more[|more| - 1], a, b);
      OpenAtFirst(rt, steps, more[..|more| - 1], a, b);
    }
  }

  /** The whole of crash recovery.  For every state a run can reach, and every pair of outputs
      that the validators and the packet derivation accept: some continuation finishes the run
      with that pair exactly when the state is open for it. */
  lemma {:induction false} RunCanFinishIff(rt: Runtime, steps: seq<Step>, a: Doc, b: Doc, packet: Doc)
    requires Finishable(rt, a, b, packet)
    ensures Open(rt, AfterRun(rt, steps), a, b) <==> exists more :: FinishedWith(AfterRun(rt, steps + more), a, b)
  {
    hide Inv, AfterRun, Open, FinishedWith;
    if Open(rt, AfterRun(rt, steps), a, b) {
      var more := OpenRunsFinish(rt, steps, a, b, packet);
    }
    forall more | FinishedWith(AfterRun(rt, steps + more), a, b) ensures Open(rt, AfterRun(rt, steps), a, b) {
      RunSafe(rt, steps + more);
      FinishedIsOpen(rt, AfterRun(rt, steps + more), a, b);
      OpenAtFirst(rt, steps, more, a, b);
    }
  }

  lemma FinishedIsOpen(rt: Runtime, d: Disk, a: Doc, b: Doc)
    requires Inv(rt, d) && FinishedWith(d, a, b)
    ensures Open(rt, d, a, b)
  {
    hide Inv;
  }
}

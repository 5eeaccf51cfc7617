/** Every plan of the runtime makes legal writes only. */
module RunLegality {
  import opened Options
  import opened RunDisk
  import opened RunPlans
  import opened RunSafety

  lemma RefusedLeaves(d: Disk, reason: Reason)
    ensures Leaves(d, Refuse(reason)) == d && Leaves(d, NOTHING) == d
  {
  }

  lemma LastPosition(d: Disk)
    requires ChainedJournal(d) && d.journal != []
    ensures Last(d) == Some(WORD[|d.journal| - 1])
    ensures Position(WORD[|d.journal| - 1]) == |d.journal| - 1
  {
  }

  lemma PositionInjective(state: State)
    ensures Position(state) < 10 && WORD[Position(state)] == state
  {
  }

  /** Nothing but the journal differs. */
  ghost predicate OnlyJournal(d: Disk, e: Disk) { e == d.(journal := e.journal) }

  /** What the event's payload must be backed by. */
  ghost predicate Backed(rt: Runtime, d: Disk, next: State, payload: Hash) {
    && (|d.journal| == Position(next) < 7 ==>
          BoundInput(Position(next)) in d.files && payload == Sha256(d.files[BoundInput(Position(next))]))
    && (next == WaitingTrackB && |d.journal| == 7 ==>
          Handoff(rt, d) && Parse(payload.of) == d.ParsedFile(TrackA) && ValidateA in d.stages && !d.tornMetrics)
    && (next == Finalizing && |d.journal| == 8 ==>
          d.ParsedFile(TrackA).Some? && Parse(payload.of).Some? && rt.validB(d.ParsedFile(TrackA).value, Parse(payload.of).value))
    && (next == ReadyForReview && |d.journal| == 9 ==> Accepted(rt, d) && payload == Sha256(d.files[Packet]))
  }

  lemma BackedIsLegal(rt: Runtime, d: Disk, next: State, payload: Hash)
    requires ChainedJournal(d) && Inv(rt, d)
    requires d.made && Request in d.files && BundleA in d.files && Backed(rt, d, next, payload)
    requires !d.tornTail && Allowed(Last(d), next)
    ensures Legal(rt, d, Append(Event(|d.journal| + 1, Last(d), next, payload)))
  {
    hide Inv, Handoff, Accepted;
    PositionInjective(next);
    if d.journal != [] { LastPosition(d); }
    assert |d.journal| == Position(next);
  }

  lemma {:induction false} AppendEventLegal(rt: Runtime, d: Disk, next: State, payload: Hash)
    requires Inv(rt, d) && d.made
    requires Request in d.files && BundleA in d.files
    requires Backed(rt, d, next, payload)
    ensures LegalFrom(rt, d, AppendEvent(d, next, payload).actions)
    ensures AppendEvent(d, next, payload).outcome.Ok? ==>
              && OnlyJournal(d, Leaves(d, AppendEvent(d, next, payload)))
              && Last(Leaves(d, AppendEvent(d, next, payload))) == Some(next)
    ensures !AppendEvent(d, next, payload).outcome.Ok? ==> Leaves(d, AppendEvent(d, next, payload)) == d
  {
    hide Inv, Legal, LegalFrom, ChainedJournal, Backed, Allowed, Later, Replay;
    InvJournal(rt, d);
    LegalNothing(rt, d);
    var p := AppendEvent(d, next, payload);
    if p.actions != [] {
      BackedIsLegal(rt, d, next, payload);
      LegalSnoc(rt, d, [], p.actions[0]);
      assert [] + [p.actions[0]] == p.actions;
    }
  }

  /** One preparation event. */
  lemma {:induction false} InitializeStepLegal(rt: Runtime, d: Disk, position: nat, hash: Hash)
    requires Inv(rt, d) && d.made && position < 7 && |d.journal| == position
    requires Request in d.files && BundleA in d.files && hash == Sha256(d.files[BoundInput(position)])
    ensures var p := AppendEvent(d, WORD[position], hash);
            var e := Leaves(d, p);
            && LegalFrom(rt, d, p.actions) && !p.outcome.Done?
            && (!d.tornTail <==> p.outcome.Ok?)
            && (p.outcome.Ok? ==> Inv(rt, e) && e == d.(journal := e.journal) && |e.journal| == position + 1)
  {
    hide Inv, Legal, LegalFrom, Later, Replay, ChainedJournal;
    InvJournal(rt, d);
    PositionInjective(WORD[position]);
    if position > 0 { LastPosition(d); }
    AppendEventLegal(rt, d, WORD[position], hash);
    var p := AppendEvent(d, WORD[position], hash);
    LegalLeaves(rt, d, p.actions);
    if p.outcome.Ok? { ReplayOne(d, p.actions[0]); }
  }

  lemma {:induction false} InitializeFromLegal(rt: Runtime, d: Disk, position: nat, request: Hash, bundle: Hash)
    requires Inv(rt, d) && d.made && position <= 7 && |d.journal| == position
    requires Request in d.files && BundleA in d.files
    requires request == Sha256(d.files[Request]) && bundle == Sha256(d.files[BundleA])
    ensures LegalFrom(rt, d, InitializeFrom(d, position, request, bundle).actions)
    ensures !d.tornTail ==>
              var p := InitializeFrom(d, position, request, bundle);
              && p.outcome.Ok?
              && Leaves(d, p) == d.(journal := Leaves(d, p).journal)
              && |Leaves(d, p).journal| == 7
    decreases 7 - position
  {
    hide Inv, Legal, LegalFrom, Later, Replay, AppendEvent;
    if position < 7 {
      var hash := if position < 3 then request else bundle;
      var p := AppendEvent(d, WORD[position], hash);
      InitializeStepLegal(rt, d, position, hash);
      if p.outcome.Ok? {
        var e := Leaves(d, p);
        InitializeFromLegal(rt, e, position + 1, request, bundle);
        LegalThen(rt, d, p, InitializeFrom(e, position + 1, request, bundle));
      }
    } else {
      LegalNothing(rt, d);
    }
  }

  lemma {:induction false} InitializeEventsLegal(rt: Runtime, d: Disk)
    requires Inv(rt, d) && d.made && d.journal == [] && !d.tornTail
    ensures LegalFrom(rt, d, InitializeEvents(d).actions)
    ensures InitializeEvents(d).outcome.Ok? <==> Request in d.files && BundleA in d.files
    ensures !InitializeEvents(d).outcome.Ok? ==>
              InitializeEvents(d).outcome.Refused? && InitializeEvents(d).actions == []
    ensures InitializeEvents(d).outcome.Ok? ==>
              var e := Leaves(d, InitializeEvents(d));
              e == d.(journal := e.journal) && |e.journal| == 7
  {
    if Request in d.files && BundleA in d.files {
      InitializeFromLegal(rt, d, 0, Sha256(d.files[Request]), Sha256(d.files[BundleA]));
    }
  }

  lemma AcceptedPacket(rt: Runtime, d: Disk)
    requires Accepted(rt, d)
    ensures Packet in d.files
  {
  }

  lemma {:induction false} MarkReadyLegal(rt: Runtime, d: Disk, packet: Doc)
    requires Inv(rt, d) && |d.journal| >= 9 && Accepted(rt, d)
    ensures LegalFrom(rt, d, MarkReady(d, packet).actions)
    ensures OnlyJournal(d, Leaves(d, MarkReady(d, packet)))
  {
    hide Inv, Legal, LegalFrom, Later, Replay, AppendEvent, Accepted, ChainedJournal;
    InvJournal(rt, d);
    AcceptedPacket(rt, d);
    var p := AppendEvent(d, ReadyForReview, Sha256(d.files[Packet]));
    AppendEventLegal(rt, d, ReadyForReview, Sha256(d.files[Packet]));
    LegalLeaves(rt, d, p.actions);
    LegalNothing(rt, Replay(d, p.actions));
    LegalThen(rt, d, p, Plan([], Done(packet)));
  }

  lemma MarkReadyNeverOk(d: Disk, packet: Doc)
    ensures !MarkReady(d, packet).outcome.Ok?
  {
  }

  lemma FoundIsAccepted(rt: Runtime, env: Env, d: Disk)
    requires ExistingFinalized(rt, env, d).Found?
    ensures Accepted(rt, d)
  {
  }

  lemma {:induction false} ResumeNonEmptyLegal(rt: Runtime, env: Env, d: Disk)
    requires Inv(rt, d) && d.made && !d.tornTail && d.journal != []
    ensures LegalFrom(rt, d, ResumeNonEmpty(rt, env, d).actions)
    ensures OnlyJournal(d, Leaves(d, ResumeNonEmpty(rt, env, d)))
    ensures var p := ResumeNonEmpty(rt, env, d);
            p.outcome.Ok? ==>
              && p.actions == []
              && (Last(d) == Some(WaitingTrackA) ==> |d.journal| == 7 && ActionA in d.files)
  {
    hide Inv, Legal, LegalFrom, Later, Replay, ChainedJournal, ExistingFinalized, Accepted, MarkReady;
    InvJournal(rt, d);
    LastPosition(d);
    LegalNothing(rt, d);
    var existing := ExistingFinalized(rt, env, d);
    if |d.journal| >= 9 && existing.Found? {
      FoundIsAccepted(rt, env, d);
      MarkReadyLegal(rt, d, existing.packet);
      MarkReadyNeverOk(d, existing.packet);
    }
  }

  lemma {:induction false} EnsureJournalLegal(rt: Runtime, d: Disk)
    requires Inv(rt, d) && d.made && !d.tornTail
    ensures LegalFrom(rt, d, EnsureJournal(d).actions)
    ensures !EnsureJournal(d).outcome.Done?
    ensures var e := Leaves(d, EnsureJournal(d));
            && e == d.(journal := e.journal)
            && (EnsureJournal(d).outcome.Ok? ==> Inv(rt, e) && e.journal != [])
            && (EnsureJournal(d).outcome.Refused? ==> e == d)
            && (d.journal != [] ==> e == d && EnsureJournal(d).actions == [])
  {
    hide Inv, Legal, LegalFrom, Later, Replay, InitializeEvents;
    LegalNothing(rt, d);
    if d.journal == [] {
      InitializeEventsLegal(rt, d);
      LegalLeaves(rt, d, InitializeEvents(d).actions);
    }
  }

  /** Resume writes only journal events. */
  lemma {:induction false} ResumeLegal(rt: Runtime, env: Env, d: Disk)
    requires Inv(rt, d)
    ensures LegalFrom(rt, d, Resume(rt, env, d).actions)
    ensures OnlyJournal(d, Leaves(d, Resume(rt, env, d)))
    ensures var p := Resume(rt, env, d);
            p.outcome.Ok? ==>
              var e := Leaves(d, p);
              && Inv(rt, e) && e.made && !e.tornTail && e.journal != []
              && (d.journal != [] ==> p.actions == [] && e == d)
              && (Last(e) == Some(WaitingTrackA) ==> |e.journal| == 7 && ActionA in e.files)
  {
    assert d.ParsedFile(Request).Some? ==> d.made;
    LegalNothing(rt, d);
    hide Inv, Legal, LegalFrom, Later, Replay, EnsureJournal, ResumeNonEmpty;
    if env.evidence && d.ParsedFile(Request).Some? && !d.tornTail {
      var p := EnsureJournal(d);
      EnsureJournalLegal(rt, d);
      if p.outcome.Ok? {
        var e := Leaves(d, p);
        ResumeNonEmptyLegal(rt, env, e);
        LegalThen(rt, d, p, ResumeNonEmpty(rt, env, e));
        LegalNothing(rt, e);
      }
    }
  }
}

/** Measuring the stages of a run is legal, and changes nothing that the protocol decides by,
    as long as no metric event is torn. */
module RunTelemetry {
  import opened Options
  import opened RunDisk
  import opened RunPlans
  import opened RunSafety
  import opened RunLegality

  /** Nothing differs but the stages that were measured. */
  ghost predicate OnlyStages(d: Disk, e: Disk) {
    e == d.(stages := e.stages) && d.stages <= e.stages
  }

  lemma {:induction false} AppendStageLegal(rt: Runtime, d: Disk, stage: Stage)
    requires Inv(rt, d) && d.made
    ensures LegalFrom(rt, d, AppendStage(d, stage).actions)
    ensures var p := AppendStage(d, stage);
            var e := Leaves(d, p);
            && !p.outcome.Done? && (p.outcome.Ok? <==> !d.tornMetrics)
            && Inv(rt, e) && OnlyStages(d, e) && (p.outcome.Ok? ==> stage in e.stages) && (!p.outcome.Ok? ==> e == d)
  {
    hide Inv, LegalFrom, Later, Replay;
    LegalNothing(rt, d);
    if !d.tornMetrics {
      LegalSnoc(rt, d, [], Measure(stage));
      assert [] + [Measure(stage)] == [Measure(stage)];
    }
  }

  lemma {:induction false} RecordExternalWaitLegal(rt: Runtime, d: Disk, stage: Stage, after: Stage)
    requires Inv(rt, d) && d.made
    ensures LegalFrom(rt, d, RecordExternalWait(d, stage, after).actions)
    ensures var p := RecordExternalWait(d, stage, after);
            var e := Leaves(d, p);
            && !p.outcome.Done? && (p.outcome.Ok? <==> !d.tornMetrics && after in d.stages)
            && Inv(rt, e) && OnlyStages(d, e) && (!p.outcome.Ok? ==> e == d)
  {
    hide Inv, LegalFrom, Later, Replay, AppendStage;
    LegalNothing(rt, d);
    AppendStageLegal(rt, d, stage);
  }

  /** The measurement adds its event to what the stage itself did, and no more. */
  lemma {:induction false} ReportedLegal(rt: Runtime, d: Disk, p: Plan, stage: Stage)
    requires LegalFrom(rt, d, p.actions) && Leaves(d, p).made
    ensures LegalFrom(rt, d, Reported(d, p, stage).actions)
    ensures var q := Reported(d, p, stage);
            var e := Leaves(d, q);
            && (q.outcome.Ok? <==> p.outcome.Ok? && !Leaves(d, p).tornMetrics)
            && (q.outcome.Done? ==> p.outcome.Done?)
            && Inv(rt, e) && OnlyStages(Leaves(d, p), e) && (q.outcome.Ok? ==> stage in e.stages)
  {
    hide Inv, LegalFrom, Later, Replay, AppendStage;
    LegalLeaves(rt, d, p.actions);
    var e := Leaves(d, p);
    AppendStageLegal(rt, e, stage);
    LegalConcat(rt, d, p.actions, AppendStage(e, stage).actions);
    ReplayConcat(d, p.actions, AppendStage(e, stage).actions);
  }

  lemma {:induction false} MeasuresLegal(rt: Runtime, d: Disk, stages: seq<Stage>)
    requires Inv(rt, d) && d.made && !d.tornMetrics
    ensures LegalFrom(rt, d, Measures(stages))
    ensures var e := Replay(d, Measures(stages));
            Inv(rt, e) && e == d.(stages := d.stages + (set stage | stage in stages))
    decreases |stages|
  {
    hide Inv, LegalFrom, Later;
    LegalNothing(rt, d);
    if stages == [] {
      assert d.stages + (set stage | stage in stages) == d.stages;
    } else {
      var a := Measure(stages[0]);
      var e := Perform(d, a);
      LegalKeeps(rt, d, a, 0);
      MeasuresLegal(rt, e, stages[1..]);
      LegalCons(rt, d, a, Measures(stages[1..]));
      assert e.stages + (set stage | stage in stages[1..]) == d.stages + (set stage | stage in stages);
    }
  }

  lemma {:induction false} ReportPreparationLegal(rt: Runtime, d: Disk)
    requires Inv(rt, d) && d.made
    ensures LegalFrom(rt, d, ReportPreparation(d).actions)
    ensures var p := ReportPreparation(d);
            var e := Leaves(d, p);
            && !p.outcome.Done? && (p.outcome.Ok? <==> !d.tornMetrics)
            && Inv(rt, e) && OnlyStages(d, e) && (!p.outcome.Ok? ==> e == d)
  {
    hide Inv, LegalFrom, Later, Replay, Measures;
    LegalNothing(rt, d);
    if !d.tornMetrics { MeasuresLegal(rt, d, PREPARATION); }
  }

  /** What a submission is judged by does not depend on the telemetry. */
  lemma JudgedByFiles(rt: Runtime, env: Env, d: Disk, e: Disk, source: Source)
    requires OnlyStages(d, e)
    ensures Last(e) == Last(d) && Recorded(e) == Recorded(d)
    ensures ValidTrackB(rt, e, source) == ValidTrackB(rt, d, source)
    ensures ReadDoc(e, source, TrackA) == ReadDoc(d, source, TrackA) && ReadDoc(e, source, TrackB) == ReadDoc(d, source, TrackB)
    ensures ExistingFinalized(rt, env, e) == ExistingFinalized(rt, env, d)
    ensures Accepted(rt, e) == Accepted(rt, d) && Handoff(rt, e) == Handoff(rt, d) && VerifiedPacket(rt, e) == VerifiedPacket(rt, d)
  {
    assert VerifiedPacket(rt, e) == VerifiedPacket(rt, d);
  }
}

/** What the clause derivation covers: every clause is a contiguous run of rows of one revision,
    and from the first structural marker on every row is covered. */
module ClauseRuns {
  import opened Options
  import opened ClauseText
  import opened ClauseMaterializer

  // ---------------------------------------------------------------- one step

  /** Article mode and operation mode exclude each other, and the active clause is the last one. */
  ghost predicate StateInv(st: State) {
    && (st.article.Some? ==> st.root.None?)
    && (st.root.None? ==> st.alpha.None? && st.number.None?)
    && (st.root.Some? ==> st.active.Some?)
    && (st.active.Some? ==> st.active.value == |st.builders| - 1 && st.revision.Some?
                            && st.builders[st.active.value].revision == st.revision.value)
  }

  /** A clause with one part, taken from one row. */
  ghost predicate FreshFrom(b: Builder, row: Row) {
    b.revision == row.revision && |b.parts| == 1 && b.sources == [row.id]
  }

  ghost predicate StepFacts(st: State, row: Row, after: State) {
    var sizeBefore, sizeAfter := |st.builders|, |after.builders|;
    && sizeBefore <= sizeAfter
    && after.revision == Some(row.revision)
    && (forall k | sizeBefore <= k < sizeAfter :: FreshFrom(after.builders[k], row))
    && (sizeAfter > sizeBefore ==> after.builders[..sizeBefore] == st.builders && after.active == Some(sizeAfter - 1))
    && (sizeAfter == sizeBefore && after.active.None? ==> after.builders == st.builders)
    && (sizeAfter == sizeBefore && after.active.Some? ==>
          && st.active == after.active && st.active.Some? && st.active.value == sizeBefore - 1 && st.revision == after.revision
          && after.builders == st.builders[st.active.value := Extended(st.builders[st.active.value], row)])
  }

  lemma ArticleStep(st: State, row: Row, heading: Heading)
    requires st.revision == Some(row.revision)
    ensures var after := ConsiderArticle(st, row, heading);
            && StateInv(after) && StepFacts(st, row, after) && after.article.Some?
            && (|after.builders| > |st.builders| <==> heading.remainder != "")
  {
    hide ParagraphParts;
  }

  lemma ItemStep(st: State, row: Row)
    requires st.revision == Some(row.revision) && StateInv(st) && st.root.Some? && ConsiderItem(st, row).Some?
    ensures var after := ConsiderItem(st, row).value;
            StateInv(after) && StepFacts(st, row, after) && |after.builders| > |st.builders|
  {
  }

  lemma PlainStep(st: State, row: Row)
    requires st.revision == Some(row.revision) && StateInv(st)
    ensures var after := ConsiderPlain(st, row);
            && StateInv(after) && StepFacts(st, row, after)
            && (after.active.Some? <==> st.article.Some? || st.active.Some?)
            && after.article == st.article
  {
  }

  predicate Structural(row: Row) { row.shape.appendix.Some? || row.shape.article.Some? || row.shape.operation.Some? }

  predicate BareHeading(row: Row) {
    row.shape.appendix.None? && row.shape.article.Some? && row.shape.article.value.remainder == ""
  }

  predicate Recognising(st: State) { st.article.Some? || st.active.Some? }

  /** The step keeps the invariant; a row is recognised from a structural marker on, and only a bare
      article heading leaves no clause active. */
  lemma StepKeeps(before: State, row: Row)
    requires StateInv(before)
    ensures var st, after := InRevision(before, row), Consider(before, row);
            && StateInv(after) && StepFacts(st, row, after)
            && (Recognising(after) <==> Structural(row) || Recognising(st))
            && (after.active.Some? <==> Recognising(after) && !BareHeading(row))
  {
    hide ParagraphParts, ConsiderArticle, ConsiderItem, ConsiderPlain, StepFacts;
    var st, s := InRevision(before, row), row.shape;
    if s.appendix.Some? {
      StartedStep(st, State(st.revision, None, "", None, None, None, None, st.builders), row,
                  Builder(row.revision, AppendixKey(s.appendix.value), WholeText(row.text), [row.text], [row.id], None));
    } else if s.article.Some? {
      ArticleStep(st, row, s.article.value);
      ArticleActive(st, row, s.article.value);
    } else if st.article.Some? && ParagraphParts(row.text) != [] {
      ParagraphStep(st, row);
    } else if s.operation.Some? {
      StartedStep(st, State(st.revision, None, "", Some(s.operation.value.mark), None, None, None, st.builders), row,
                  OperationBuilder(row, [s.operation.value.mark], s.operation.value.remainder));
    } else if st.article.None? && st.root.Some? && ConsiderItem(st, row).Some? {
      ItemStep(st, row);
      ItemActive(st, row);
    } else {
      PlainStep(st, row);
    }
  }

  lemma StartedStep(st: State, reset: State, row: Row, b: Builder)
    requires FreshFrom(b, row) && reset.builders == st.builders && reset.revision == Some(row.revision)
    ensures StepFacts(st, row, Started(reset, b))
  {
  }

  lemma ParagraphStep(st: State, row: Row)
    requires st.revision == Some(row.revision) && StateInv(st) && st.article.Some? && ParagraphParts(row.text) != []
    ensures var after := WithParagraphs(st, row, st.article.value, st.heading, ParagraphParts(row.text));
            StateInv(after) && StepFacts(st, row, after)
  {
    hide ParagraphParts;
  }

  lemma ArticleActive(st: State, row: Row, heading: Heading)
    ensures ConsiderArticle(st, row, heading).active.Some? <==> heading.remainder != ""
  {
    hide ParagraphParts;
  }

  lemma ItemActive(st: State, row: Row)
    requires st.root.Some? && ConsiderItem(st, row).Some?
    ensures ConsiderItem(st, row).value.active.Some?
  {
  }

  // ---------------------------------------------------------------- whole runs

  /** The row each clause starts at. */
  function Origins(rows: seq<Row>, n: nat): seq<nat>
    requires n <= |rows|
  {
    if n == 0 then []
    else
      var added := |Run(rows, n).builders| - |Run(rows, n - 1).builders|;
      Origins(rows, n - 1) + seq(if added < 0 then 0 else added, _ => n - 1)
  }

  function SourceIds(rows: seq<Row>, first: nat, end: nat): seq<string>
    requires first < end <= |rows|
    decreases end
  {
    if end == first + 1 then [rows[first].id]
    else
      var before := SourceIds(rows, first, end - 1);
      if rows[end - 1].id in before then before else before + [rows[end - 1].id]
  }

  /** The identifiers of the rows, each once, in the order they first occur. */
  lemma {:induction false} SourceIdsMean(rows: seq<Row>, first: nat, end: nat)
    requires first < end <= |rows|
    ensures var ids := SourceIds(rows, first, end);
            && (forall id :: id in ids <==> exists m | first <= m < end :: rows[m].id == id)
            && Distinct(ids)
            && (forall e | first < e < end :: SourceIds(rows, first, e) <= ids)
    decreases end
  {
    if end == first + 1 {
      assert rows[first].id in SourceIds(rows, first, end);
    } else {
      SourceIdsMean(rows, first, end - 1);
      var before := SourceIds(rows, first, end - 1);
      if rows[end - 1].id !in before { DistinctMore(before, rows[end - 1].id); }
      var ids := if rows[end - 1].id in before then before else before + [rows[end - 1].id];
      assert SourceIds(rows, first, end) == ids;
      hide SourceIds, Distinct;
      forall id ensures id in ids <==> exists m | first <= m < end :: rows[m].id == id {
        assert id in ids <==> id in before || id == rows[end - 1].id;
        assert (exists m | first <= m < end :: rows[m].id == id)
               <==> (exists m | first <= m < end - 1 :: rows[m].id == id) || rows[end - 1].id == id;
      }
    }
  }

  predicate Distinct(ids: seq<string>) {
    forall a, b | 0 <= a < b < |ids| :: ids[a] != ids[b]
  }

  lemma DistinctMore(ids: seq<string>, id: string)
    requires Distinct(ids) && id !in ids
    ensures Distinct(ids + [id])
  {
  }

  /** The clause is made of the rows from `first`, all of its revision: its sources are their
      identifiers and its later parts are their texts. */
  ghost predicate MadeOf(rows: seq<Row>, b: Builder, first: nat) {
    && |b.parts| > 0 && first + |b.parts| <= |rows|
    && b.sources == SourceIds(rows, first, first + |b.parts|)
    && (forall m | first <= m < first + |b.parts| :: rows[m].revision == b.revision)
    && (forall m | first < m < first + |b.parts| :: b.parts[m - first] == rows[m].text)
  }

  ghost predicate RunsInv(rows: seq<Row>, n: nat)
    requires n <= |rows|
  {
    var st, origins := Run(rows, n), Origins(rows, n);
    && StateInv(st)
    && |origins| == |st.builders|
    && (n > 0 ==> st.revision == Some(rows[n - 1].revision)) && (n == 0 ==> st.revision.None?)
    && (forall k | 0 <= k < |origins| :: MadeOf(rows, st.builders[k], origins[k]) && origins[k] + |st.builders[k].parts| <= n)
    && (forall k, j | 0 <= k < j < |origins| :: origins[k] + |st.builders[k].parts| <= origins[j]
                                                || (origins[k] == origins[j] && |st.builders[k].parts| == 1))
    && (st.active.Some? ==> origins[st.active.value] + |st.builders[st.active.value].parts| == n)
  }

  lemma ExtendedMadeOf(rows: seq<Row>, b: Builder, first: nat, n: nat)
    requires n < |rows| && MadeOf(rows, b, first) && first + |b.parts| == n && rows[n].revision == b.revision
    ensures MadeOf(rows, Extended(b, rows[n]), first)
  {
    var more := Extended(b, rows[n]);
    assert |more.parts| == |b.parts| + 1;
    assert more.sources == SourceIds(rows, first, n + 1);
    hide SourceIds, Extended;
    assert more.revision == b.revision by { ExtendedParts(b, rows[n]); }
    forall m | first < m < first + |more.parts|
      ensures more.parts[m - first] == rows[m].text
    {
      PartsOfExtended(b, rows[n], m - first);
    }
  }

  lemma PartsOfExtended(b: Builder, row: Row, k: nat)
    requires k < |b.parts| + 1
    ensures |Extended(b, row).parts| == |b.parts| + 1
    ensures Extended(b, row).parts[k] == if k < |b.parts| then b.parts[k] else row.text
  {
  }

  lemma FreshMadeOf(rows: seq<Row>, b: Builder, n: nat)
    requires n < |rows| && FreshFrom(b, rows[n])
    ensures MadeOf(rows, b, n)
  {
  }

  lemma {:induction false} RunsHold(rows: seq<Row>, n: nat)
    requires n <= |rows|
    ensures RunsInv(rows, n)
  {
    hide RunsInv;
    if n == 0 {
      RunsStart(rows);
    } else {
      RunsHold(rows, n - 1);
      RunsStep(rows, n - 1);
    }
  }

  lemma RunsStart(rows: seq<Row>)
    ensures RunsInv(rows, 0)
  {
  }

  /** The facts of one step of a run. */
  lemma RunStep(rows: seq<Row>, n: nat)
    requires n < |rows| && StateInv(Run(rows, n)) && |Origins(rows, n)| == |Run(rows, n).builders|
    ensures var before, after := Run(rows, n), Run(rows, n + 1);
            var st := InRevision(before, rows[n]);
            && after == Consider(before, rows[n]) && StateInv(after) && StepFacts(st, rows[n], after)
            && st.builders == before.builders
            && (st.active.Some? ==> st == before && before.revision == Some(rows[n].revision))
    ensures var some, more := Origins(rows, n), Origins(rows, n + 1);
            && |more| == |Run(rows, n + 1).builders|
            && (forall k | 0 <= k < |some| :: more[k] == some[k])
            && (forall k | |some| <= k < |more| :: more[k] == n)
  {
    var before := Run(rows, n);
    assert Run(rows, n + 1) == Consider(before, rows[n]);
    hide Run, Origins, Consider, Recognising, StateInv;
    StepKeeps(before, rows[n]);
    InRevisionKeeps(before, rows[n]);
    OriginsStep(rows, n);
    if InRevision(before, rows[n]).active.Some? { InRevisionActive(before, rows[n]); }
  }

  lemma OriginsStep(rows: seq<Row>, n: nat)
    requires n < |rows| && |Run(rows, n).builders| <= |Run(rows, n + 1).builders| && |Origins(rows, n)| == |Run(rows, n).builders|
    ensures var some, more := Origins(rows, n), Origins(rows, n + 1);
            && |more| == |Run(rows, n + 1).builders|
            && (forall k | 0 <= k < |some| :: more[k] == some[k])
            && (forall k | |some| <= k < |more| :: more[k] == n)
  {
    hide Run;
  }

  lemma RunsStep(rows: seq<Row>, n: nat)
    requires n < |rows| && RunsInv(rows, n)
    ensures RunsInv(rows, n + 1)
  {
    hide Run, Origins, Consider, InRevision, MadeOf, StateInv, Extended;
    var before, after := Run(rows, n), Run(rows, n + 1);
    RunStep(rows, n);
    var origins, origins' := Origins(rows, n), Origins(rows, n + 1);
    StateFacts(before);
    StateFacts(after);
    forall k | 0 <= k < |origins'|
      ensures MadeOf(rows, after.builders[k], origins'[k]) && origins'[k] + |after.builders[k].parts| <= n + 1
    {
      if k >= |origins| {
        FreshMadeOf(rows, after.builders[k], n);
      } else if |after.builders| == |before.builders| && after.active == Some(k) {
        ExtendedMadeOf(rows, before.builders[k], origins[k], n);
        ExtendedParts(before.builders[k], rows[n]);
      }
    }
    if after.active.Some? && |after.builders| == |before.builders| { ExtendedParts(before.builders[after.active.value], rows[n]); }
  }

  lemma StateFacts(st: State)
    requires StateInv(st)
    ensures st.active.Some? ==> st.active.value == |st.builders| - 1 && st.revision == Some(st.builders[st.active.value].revision)
  {
  }

  lemma ExtendedParts(b: Builder, row: Row)
    ensures |Extended(b, row).parts| == |b.parts| + 1 && Extended(b, row).revision == b.revision
  {
  }

  lemma InRevisionKeeps(before: State, row: Row)
    ensures InRevision(before, row).builders == before.builders
  {
  }

  lemma InRevisionActive(before: State, row: Row)
    requires InRevision(before, row).active.Some?
    ensures InRevision(before, row) == before && before.revision == Some(row.revision)
  {
  }

  // ---------------------------------------------------------------- coverage

  /** Row `m` is one of the rows clause `k` is made of. */
  predicate Holds(rows: seq<Row>, n: nat, k: nat, m: nat)
    requires n <= |rows|
  {
    k < |Origins(rows, n)| && k < |Run(rows, n).builders|
    && Origins(rows, n)[k] <= m < Origins(rows, n)[k] + |Run(rows, n).builders[k].parts|
  }

  ghost predicate Covered(rows: seq<Row>, n: nat, m: nat)
    requires n <= |rows|
  {
    exists k :: Holds(rows, n, k, m)
  }

  /** A structural marker stands at or before row `m`, in the same stretch of its revision. */
  ghost predicate Marked(rows: seq<Row>, m: nat)
    requires m < |rows|
  {
    exists p | 0 <= p <= m :: Structural(rows[p]) && forall q | p <= q <= m :: rows[q].revision == rows[m].revision
  }

  lemma MarkedStep(rows: seq<Row>, m: nat)
    requires m < |rows|
    ensures Marked(rows, m) <==> Structural(rows[m]) || (m > 0 && rows[m - 1].revision == rows[m].revision && Marked(rows, m - 1))
  {
    if Marked(rows, m) && !Structural(rows[m]) {
      var p :| 0 <= p <= m && Structural(rows[p]) && forall q | p <= q <= m :: rows[q].revision == rows[m].revision;
      assert rows[m - 1].revision == rows[m].revision;
    }
    if m > 0 && rows[m - 1].revision == rows[m].revision && Marked(rows, m - 1) {
      var p :| 0 <= p <= m - 1 && Structural(rows[p]) && forall q | p <= q <= m - 1 :: rows[q].revision == rows[m - 1].revision;
      assert Structural(rows[p]);
    }
  }

  lemma {:induction false} StateAt(rows: seq<Row>, n: nat)
    requires n <= |rows|
    ensures StateInv(Run(rows, n)) && (n > 0 ==> Run(rows, n).revision == Some(rows[n - 1].revision))
  {
    RunsHold(rows, n);
    hide StateInv, MadeOf;
  }

  /** A row is being recognised exactly when a marker has been seen in its revision. */
  lemma {:induction false} RecognisingIsMarked(rows: seq<Row>, n: nat)
    requires n < |rows|
    ensures Recognising(Run(rows, n + 1)) <==> Marked(rows, n)
  {
    StateAt(rows, n);
    assert Run(rows, n + 1) == Consider(Run(rows, n), rows[n]);
    assert n == 0 ==> !Recognising(InRevision(Run(rows, n), rows[n]));
    hide Run, Origins, Consider, InRevision, MadeOf, Recognising, Marked, StateInv, StepFacts;
    StepKeeps(Run(rows, n), rows[n]);
    MarkedStep(rows, n);
    if n > 0 {
      RecognisingIsMarked(rows, n - 1);
      RevisionEntered(Run(rows, n), rows[n]);
    }
  }

  lemma RevisionEntered(before: State, row: Row)
    ensures Recognising(InRevision(before, row)) <==> before.revision == Some(row.revision) && Recognising(before)
  {
  }

  /** A step starts clauses at row `n` or extends a clause that ends there. */
  ghost predicate OneStep(origins: seq<nat>, builders: seq<Builder>, origins': seq<nat>, builders': seq<Builder>, n: nat) {
    && |origins| == |builders| <= |origins'| == |builders'|
    && (forall k | 0 <= k < |origins| :: origins'[k] == origins[k]
          && (|builders'[k].parts| == |builders[k].parts|
              || (origins[k] + |builders[k].parts| == n && |builders'[k].parts| == |builders[k].parts| + 1)))
    && (forall k | |origins| <= k < |origins'| :: origins'[k] == n)
  }

  lemma StepSummary(rows: seq<Row>, n: nat)
    requires n < |rows|
    ensures OneStep(Origins(rows, n), Run(rows, n).builders, Origins(rows, n + 1), Run(rows, n + 1).builders, n)
  {
    RunsHold(rows, n);
    hide Run, Origins, Consider, InRevision, MadeOf, StateInv, Extended;
    RunStep(rows, n);
    var before, after := Run(rows, n), Run(rows, n + 1);
    StateFacts(before);
    if after.active.Some? && |after.builders| == |before.builders| { ExtendedParts(before.builders[after.active.value], rows[n]); }
  }

  /** Covering never changes for rows already considered. */
  lemma HoldsLater(rows: seq<Row>, n: nat, k: nat, m: nat)
    requires m < n < |rows|
    ensures Holds(rows, n + 1, k, m) <==> Holds(rows, n, k, m)
  {
    hide Run, Origins, Consider, InRevision, MadeOf, Recognising;
    StepSummary(rows, n);
  }

  lemma CoveredAtOnce(rows: seq<Row>, n: nat)
    requires n < |rows|
    ensures Covered(rows, n + 1, n) <==> Run(rows, n + 1).active.Some?
  {
    RunsHold(rows, n);
    RunsHold(rows, n + 1);
    var before, after := Run(rows, n), Run(rows, n + 1);
    StepKeeps(before, rows[n]);
    InRevisionKeeps(before, rows[n]);
    OriginsStep(rows, n);
    hide Run, Origins, Consider, InRevision, MadeOf, Recognising;
    if after.active.Some? { assert Holds(rows, n + 1, after.active.value, n); }
  }

  lemma {:induction false} CoveredLater(rows: seq<Row>, m: nat, n: nat)
    requires m < n <= |rows|
    ensures Covered(rows, n, m) <==> Run(rows, m + 1).active.Some?
  {
    hide Run, Holds;
    if n == m + 1 {
      CoveredAtOnce(rows, m);
    } else {
      CoveredLater(rows, m, n - 1);
      if Covered(rows, n, m) {
        var k :| Holds(rows, n, k, m);
        HoldsLater(rows, n - 1, k, m);
      }
      if Covered(rows, n - 1, m) {
        var k :| Holds(rows, n - 1, k, m);
        HoldsLater(rows, n - 1, k, m);
      }
    }
  }

  /** A row is part of some clause exactly when a structural marker stands at or before it in its
      revision and it is not a bare article heading. */
  lemma Coverage(rows: seq<Row>, m: nat)
    requires m < |rows|
    ensures Covered(rows, |rows|, m) <==> Marked(rows, m) && !BareHeading(rows[m])
  {
    CoveredLater(rows, m, |rows|);
    RecognisingIsMarked(rows, m);
    RunsHold(rows, m);
    StepKeeps(Run(rows, m), rows[m]);
  }

  /** Two clauses share a row only if both are paragraphs split from that one row, and then at most
      the later of them goes on. */
  lemma {:induction false} RunsAreDisjoint(rows: seq<Row>, k: nat, j: nat, m: nat)
    requires k < j && Holds(rows, |rows|, k, m) && Holds(rows, |rows|, j, m)
    ensures Origins(rows, |rows|)[k] == m == Origins(rows, |rows|)[j] && |Run(rows, |rows|).builders[k].parts| == 1
  {
    RunsHold(rows, |rows|);
  }

  /** Every clause is a contiguous run of rows of its own revision, in the order of the rows. */
  lemma {:induction false} EveryClauseIsARun(rows: seq<Row>, k: nat)
    requires k < |Run(rows, |rows|).builders|
    ensures k < |Origins(rows, |rows|)| && MadeOf(rows, Run(rows, |rows|).builders[k], Origins(rows, |rows|)[k])
    ensures k + 1 < |Run(rows, |rows|).builders| ==> k + 1 < |Origins(rows, |rows|)|
    ensures k + 1 < |Run(rows, |rows|).builders| ==> Origins(rows, |rows|)[k] <= Origins(rows, |rows|)[k + 1]
  {
    RunsHold(rows, |rows|);
    hide MadeOf;
  }

  /** Article mode and operation mode are never active together. */
  lemma {:induction false} ModesExclude(rows: seq<Row>, n: nat)
    requires n <= |rows|
    ensures !(Run(rows, n).article.Some? && Run(rows, n).root.Some?)
    ensures Run(rows, n).root.None? ==> Run(rows, n).alpha.None? && Run(rows, n).number.None?
  {
    RunsHold(rows, n);
  }
}

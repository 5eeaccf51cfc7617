/** Which clauses begin at a row, told from the rows alone: the article or the root in force is that of
    the nearest heading before the row in its revision, and an item stands under the last items of a
    higher rank since that root. */
module ClauseKeys {
  import opened Options
  import opened ClauseText
  import opened ClauseMaterializer
  import opened ClauseRuns

  // ---------------------------------------------------------------- what is in force at a row

  /** Rows `p` to `n` belong to one revision. */
  predicate OneRevision(rows: seq<Row>, p: nat, n: nat)
    requires p <= n < |rows|
  {
    forall q | p <= q <= n :: rows[q].revision == rows[n].revision
  }

  /** A row that ends an article; an operation mark in front of paragraphs does not. */
  predicate EndsArticle(row: Row) {
    row.shape.appendix.Some? || row.shape.article.Some? || (row.shape.operation.Some? && ParagraphParts(row.text) == [])
  }

  /** Row `n` stands in the article that row `a` heads. */
  predicate InArticle(rows: seq<Row>, n: nat, a: nat)
    requires n < |rows|
  {
    && a < n && OneRevision(rows, a, n)
    && rows[a].shape.appendix.None? && rows[a].shape.article.Some?
    && forall q | a < q < n :: !EndsArticle(rows[q])
  }

  function ArticleOver(rows: seq<Row>, n: nat): (over: Option<nat>)
    requires n < |rows|
    ensures over.Some? ==> InArticle(rows, n, over.value)
    ensures forall a: nat | InArticle(rows, n, a) :: over == Some(a)
  {
    if n == 0 || rows[n - 1].revision != rows[n].revision then None
    else if !EndsArticle(rows[n - 1]) then ArticleOver(rows, n - 1)
    else if rows[n - 1].shape.appendix.None? && rows[n - 1].shape.article.Some? then Some(n - 1)
    else None
  }

  /** Row `r` is the root of an operational standard. */
  predicate IsRoot(rows: seq<Row>, r: nat)
    requires r < |rows|
  {
    && rows[r].shape.appendix.None? && rows[r].shape.article.None? && rows[r].shape.operation.Some?
    && (ParagraphParts(rows[r].text) == [] || ArticleOver(rows, r).None?)
  }

  /** Row `n` stands under the root of row `r`. */
  predicate UnderRoot(rows: seq<Row>, n: nat, r: nat)
    requires n < |rows|
  {
    r < n && OneRevision(rows, r, n) && IsRoot(rows, r) && forall q | r < q < n :: !Structural(rows[q])
  }

  function RootOver(rows: seq<Row>, n: nat): (over: Option<nat>)
    requires n < |rows|
    ensures over.Some? ==> UnderRoot(rows, n, over.value)
    ensures forall r: nat | UnderRoot(rows, n, r) :: over == Some(r)
  {
    if n == 0 || rows[n - 1].revision != rows[n].revision then None
    else if !Structural(rows[n - 1]) then RootOver(rows, n - 1)
    else if IsRoot(rows, n - 1) then Some(n - 1)
    else None
  }

  /** The mark of the last alpha-dot item behind row `r`. */
  function AlphaOver(rows: seq<Row>, r: nat, n: nat): (mark: Option<string>)
    requires r < n < |rows|
    ensures mark.None? ==> forall q | r < q < n :: rows[q].shape.alphaDot.None?
    ensures mark.Some? ==> exists x | r < x < n :: rows[x].shape.alphaDot.Some? && rows[x].shape.alphaDot.value.mark == mark.value
                             && forall q | x < q < n :: rows[q].shape.alphaDot.None?
  {
    if n == r + 1 then None
    else if rows[n - 1].shape.alphaDot.Some? then Some(rows[n - 1].shape.alphaDot.value.mark)
    else AlphaOver(rows, r, n - 1)
  }

  predicate IsNumber(row: Row) { row.shape.alphaDot.None? && row.shape.numberParen.Some? }

  /** The mark of the last number item behind row `r` and behind the last alpha-dot item. */
  function NumberOver(rows: seq<Row>, r: nat, n: nat): (mark: Option<string>)
    requires r < n < |rows|
    ensures mark.None? ==> forall x | r < x < n && IsNumber(rows[x]) :: exists q | x < q < n :: rows[q].shape.alphaDot.Some?
    ensures mark.Some? ==> exists x | r < x < n :: IsNumber(rows[x]) && rows[x].shape.numberParen.value.mark == mark.value
                             && forall q | x < q < n :: rows[q].shape.alphaDot.None? && rows[q].shape.numberParen.None?
  {
    if n == r + 1 || rows[n - 1].shape.alphaDot.Some? then None
    else if rows[n - 1].shape.numberParen.Some? then Some(rows[n - 1].shape.numberParen.value.mark)
    else NumberOver(rows, r, n - 1)
  }

  // ---------------------------------------------------------------- the clauses begun at a row

  datatype Start = Start(row: nat, key: Key, title: Title, text: string, article: Option<string>)

  function HeadingOf(rows: seq<Row>, a: nat): Heading
    requires a < |rows| && rows[a].shape.article.Some?
  {
    rows[a].shape.article.value
  }

  function ArticleStart(n: nat, h: Heading, text: string): Start {
    Start(n, ArticleKey(h.article), ArticleTitle(h.article, h.heading), text, Some(h.article))
  }

  function ParagraphStarts(n: nat, h: Heading, parts: seq<Part>): (starts: seq<Start>)
    ensures |starts| == |parts|
    ensures forall i | 0 <= i < |parts| ::
      starts[i] == Start(n, ParagraphKey(h.article, parts[i].number), ParagraphTitle(h.article, h.heading, parts[i].number), parts[i].text,
                         Some(h.article))
  {
    seq(|parts|, i requires 0 <= i < |parts| =>
      Start(n, ParagraphKey(h.article, parts[i].number), ParagraphTitle(h.article, h.heading, parts[i].number), parts[i].text, Some(h.article)))
  }

  function OperationStart(row: Row, n: nat, path: seq<string>, remainder: string): Start {
    Start(n, OperationKey(path), OperationTitle(path, remainder), if remainder != "" then remainder else row.text, None)
  }

  predicate IsItem(row: Row) { row.shape.alphaDot.Some? || row.shape.numberParen.Some? || row.shape.alphaParen.Some? }

  /** An item's path: its root, the items of a higher rank it stands under, its own mark. */
  function ItemStart(rows: seq<Row>, n: nat, r: nat): Start
    requires n < |rows| && UnderRoot(rows, n, r) && IsItem(rows[n])
  {
    var s, root := rows[n].shape, rows[r].shape.operation.value.mark;
    if s.alphaDot.Some? then OperationStart(rows[n], n, [root, s.alphaDot.value.mark], s.alphaDot.value.remainder)
    else if s.numberParen.Some? then
      OperationStart(rows[n], n, [root] + Optional(AlphaOver(rows, r, n)) + [s.numberParen.value.mark], s.numberParen.value.remainder)
    else
      OperationStart(rows[n], n, [root] + Optional(AlphaOver(rows, r, n)) + Optional(NumberOver(rows, r, n)) + [s.alphaParen.value.mark],
                     s.alphaParen.value.remainder)
  }

  /** The clauses that begin at row `n`, in order. */
  function Begun(rows: seq<Row>, n: nat): seq<Start>
    requires n < |rows|
  {
    var row, over, root := rows[n], ArticleOver(rows, n), RootOver(rows, n);
    if row.shape.appendix.Some? then [Start(n, AppendixKey(row.shape.appendix.value), WholeText(row.text), row.text, None)]
    else if row.shape.article.Some? then
      var h := HeadingOf(rows, n);
      if h.remainder == "" then []
      else if ParagraphParts(h.remainder) == [] then [ArticleStart(n, h, h.remainder)]
      else ParagraphStarts(n, h, ParagraphParts(h.remainder))
    else if over.Some? && ParagraphParts(row.text) != [] then ParagraphStarts(n, HeadingOf(rows, over.value), ParagraphParts(row.text))
    else if row.shape.operation.Some? then
      [OperationStart(row, n, [row.shape.operation.value.mark], row.shape.operation.value.remainder)]
    else if root.Some? && IsItem(row) then [ItemStart(rows, n, root.value)]
    else if over == Some(n - 1) && HeadingOf(rows, n - 1).remainder == "" then [ArticleStart(n, HeadingOf(rows, n - 1), row.text)]
    else []
  }

  function BegunUpTo(rows: seq<Row>, n: nat): seq<Start>
    requires n <= |rows|
  {
    if n == 0 then [] else BegunUpTo(rows, n - 1) + Begun(rows, n - 1)
  }

  // ---------------------------------------------------------------- the run keeps track of what is in force

  function MarkOf(rows: seq<Row>, root: Option<nat>): Option<string>
    requires root.Some? ==> root.value < |rows| && rows[root.value].shape.operation.Some?
  {
    if root.Some? then Some(rows[root.value].shape.operation.value.mark) else None
  }

  /** What is in force behind row `n`, by what the row itself matches. */
  lemma OverStep(rows: seq<Row>, n: nat)
    requires n + 1 < |rows| && rows[n].revision == rows[n + 1].revision
    ensures ArticleOver(rows, n + 1) == (if !EndsArticle(rows[n]) then ArticleOver(rows, n)
                                         else if rows[n].shape.appendix.None? && rows[n].shape.article.Some? then Some(n) else None)
    ensures RootOver(rows, n + 1) == (if !Structural(rows[n]) then RootOver(rows, n) else if IsRoot(rows, n) then Some(n) else None)
  {
  }

  lemma ItemsStep(rows: seq<Row>, r: nat, n: nat)
    requires r < n && n + 1 < |rows|
    ensures AlphaOver(rows, r, n + 1) == if rows[n].shape.alphaDot.Some? then Some(rows[n].shape.alphaDot.value.mark) else AlphaOver(rows, r, n)
    ensures NumberOver(rows, r, n + 1) == if rows[n].shape.alphaDot.Some? then None
                                          else if rows[n].shape.numberParen.Some? then Some(rows[n].shape.numberParen.value.mark)
                                          else NumberOver(rows, r, n)
  {
  }

  /** The variables after a row, without those a clause is made of. */
  datatype Force = Force(article: Option<string>, heading: string, root: Option<string>, alpha: Option<string>, number: Option<string>)

  function ForceOf(st: State): Force { Force(st.article, st.heading, st.root, st.alpha, st.number) }

  /** What a row does to the variables. */
  function ForceAfter(st: State, row: Row): Force {
    var s, now := row.shape, ForceOf(st);
    if s.appendix.Some? then Force(None, "", None, None, None)
    else if s.article.Some? then Force(Some(s.article.value.article), s.article.value.heading, None, None, None)
    else if s.operation.Some? && (st.article.None? || ParagraphParts(row.text) == []) then
      Force(None, "", Some(s.operation.value.mark), None, None)
    else if s.operation.Some? || st.article.Some? || st.root.None? then now
    else if s.alphaDot.Some? then now.(alpha := Some(s.alphaDot.value.mark), number := None)
    else if s.numberParen.Some? then now.(number := Some(s.numberParen.value.mark))
    else now
  }

  lemma ConsiderForce(before: State, row: Row)
    ensures ForceOf(Consider(before, row)) == ForceAfter(InRevision(before, row), row)
  {
    hide ParagraphParts, ConsiderArticle, InRevision;
    var st := InRevision(before, row);
    if row.shape.article.Some? { ArticleForce(st, row, row.shape.article.value); }
  }

  lemma ArticleForce(st: State, row: Row, h: Heading)
    ensures ForceOf(ConsiderArticle(st, row, h)) == Force(Some(h.article), h.heading, None, None, None)
  {
    hide ParagraphParts;
  }

  ghost predicate ForceTold(rows: seq<Row>, n: nat, f: Force)
    requires n < |rows|
  {
    var over, root := ArticleOver(rows, n), RootOver(rows, n);
    && (over.None? ==> f.article.None?)
    && (over.Some? ==> f.article == Some(HeadingOf(rows, over.value).article) && f.heading == HeadingOf(rows, over.value).heading)
    && f.root == MarkOf(rows, root)
    && f.alpha == (if root.Some? then AlphaOver(rows, root.value, n) else None)
    && f.number == (if root.Some? then NumberOver(rows, root.value, n) else None)
  }

  lemma ForceStep(rows: seq<Row>, n: nat, st: State)
    requires n + 1 < |rows| && rows[n].revision == rows[n + 1].revision
    requires ForceTold(rows, n, ForceOf(st)) && (st.article.Some? ==> st.root.None?)
    ensures ForceTold(rows, n + 1, ForceAfter(st, rows[n]))
  {
    hide ParagraphParts;
    OverStep(rows, n);
    var over, root := ArticleOver(rows, n), RootOver(rows, n);
    hide ArticleOver, RootOver, AlphaOver, NumberOver, UnderRoot, InArticle;
    if Structural(rows[n]) {
      if IsRoot(rows, n) { JustUnder(rows, n); }
    } else if root.Some? {
      RootBefore(rows, n, root.value);
      ItemsStep(rows, root.value, n);
    }
  }

  lemma RootBefore(rows: seq<Row>, n: nat, r: nat)
    requires n < |rows| && UnderRoot(rows, n, r)
    ensures r < n && rows[r].shape.operation.Some?
  {
  }

  lemma JustUnder(rows: seq<Row>, n: nat)
    requires n + 1 < |rows|
    ensures AlphaOver(rows, n, n + 1) == None && NumberOver(rows, n, n + 1) == None
  {
  }

  /** The variables of the loop hold what the rows say is in force at row `n`; no clause of an article
      is active exactly behind its bare heading. */
  ghost predicate Told(rows: seq<Row>, n: nat, st: State)
    requires n < |rows|
  {
    && ForceTold(rows, n, ForceOf(st))
    && (st.article.Some? ==> (st.active.None? <==> n > 0 && BareHeading(rows[n - 1])))
  }

  lemma ToldStep(rows: seq<Row>, n: nat, before: State)
    requires n + 1 < |rows| && StateInv(before) && Told(rows, n, InRevision(before, rows[n]))
    ensures Told(rows, n + 1, InRevision(Consider(before, rows[n]), rows[n + 1]))
  {
    hide Consider, InRevision, ForceTold, ForceAfter, StateInv, StepFacts, BareHeading, Structural;
    var st, after := InRevision(before, rows[n]), Consider(before, rows[n]);
    AfterRevision(before, rows[n]);
    Excluded(st);
    StepKeeps(before, rows[n]);
    ConsiderForce(before, rows[n]);
    if rows[n].revision == rows[n + 1].revision {
      ForceStep(rows, n, st);
      SameRevision(after, rows[n + 1]);
    } else {
      NewRevision(rows, n + 1, after);
    }
  }

  lemma SameRevision(st: State, row: Row)
    requires st.revision == Some(row.revision)
    ensures InRevision(st, row) == st
  {
  }

  lemma NewRevision(rows: seq<Row>, n: nat, st: State)
    requires n < |rows| && st.revision != Some(rows[n].revision) && (n > 0 ==> rows[n - 1].revision != rows[n].revision)
    ensures Told(rows, n, InRevision(st, rows[n]))
  {
  }

  lemma AfterRevision(before: State, row: Row)
    requires StateInv(before)
    ensures StateInv(InRevision(before, row)) && Consider(before, row).revision == Some(row.revision)
  {
    hide Consider;
    StepKeeps(before, row);
  }

  lemma Excluded(st: State)
    requires StateInv(st)
    ensures st.article.Some? ==> st.root.None?
  {
  }

  /** At every row the variables hold what the rows before it say. */
  lemma {:induction false} RunIsTold(rows: seq<Row>, n: nat)
    requires n < |rows|
    ensures StateInv(Run(rows, n)) && Told(rows, n, InRevision(Run(rows, n), rows[n]))
  {
    hide Consider, InRevision, Told;
    StateAt(rows, n);
    if n == 0 {
      NewRevision(rows, 0, START);
    } else {
      RunIsTold(rows, n - 1);
      ToldStep(rows, n - 1, Run(rows, n - 1));
    }
  }

  // ---------------------------------------------------------------- the clauses a step begins

  /** What a clause keeps for good once it is begun. */
  function StartOf(b: Builder, row: nat): Start {
    Start(row, b.key, b.title, if b.parts == [] then "" else b.parts[0], b.article)
  }

  /** The step appends clauses that begin as `starts`, and leaves the beginnings of the others. */
  ghost predicate Begins(before: seq<Builder>, after: seq<Builder>, n: nat, starts: seq<Start>) {
    && |after| == |before| + |starts|
    && (forall k, m: nat | 0 <= k < |before| :: StartOf(after[k], m) == StartOf(before[k], m))
    && (forall k | |before| <= k < |after| :: StartOf(after[k], n) == starts[k - |before|])
  }

  lemma OneBegins(st: State, b: Builder, n: nat)
    ensures Begins(st.builders, Started(st, b).builders, n, [StartOf(b, n)])
  {
  }

  lemma ParagraphsBegin(st: State, row: Row, h: Heading, parts: seq<Part>, n: nat)
    requires parts != []
    ensures Begins(st.builders, WithParagraphs(st, row, h.article, h.heading, parts).builders, n, ParagraphStarts(n, h, parts))
  {
  }

  lemma ArticleBegins(st: State, row: Row, h: Heading, n: nat)
    ensures Begins(st.builders, ConsiderArticle(st, row, h).builders, n,
              if h.remainder == "" then []
              else if ParagraphParts(h.remainder) == [] then [ArticleStart(n, h, h.remainder)]
              else ParagraphStarts(n, h, ParagraphParts(h.remainder)))
  {
    hide ParagraphParts, ParagraphStarts;
    var entered := State(st.revision, Some(h.article), h.heading, None, None, None, None, st.builders);
    if h.remainder != "" && ParagraphParts(h.remainder) != [] { ParagraphsBegin(entered, row, h, ParagraphParts(h.remainder), n); }
  }

  lemma {:induction false} ItemBegins(rows: seq<Row>, n: nat, st: State)
    requires n < |rows| && ForceTold(rows, n, ForceOf(st)) && st.root.Some? && IsItem(rows[n])
    ensures RootOver(rows, n).Some? && ConsiderItem(st, rows[n]).Some?
    ensures Begins(st.builders, ConsiderItem(st, rows[n]).value.builders, n, [ItemStart(rows, n, RootOver(rows, n).value)])
  {
    hide AlphaOver, NumberOver, RootOver, ArticleOver;
  }

  /** An article is in force without an active clause exactly behind its bare heading. */
  lemma {:induction false} BehindBareHeading(rows: seq<Row>, n: nat, st: State)
    requires n < |rows| && Told(rows, n, st)
    ensures var bare := ArticleOver(rows, n) == Some(n - 1) && HeadingOf(rows, n - 1).remainder == "";
            && (st.article.Some? && st.active.None? <==> bare)
            && (bare ==> st.article == Some(HeadingOf(rows, n - 1).article) && st.heading == HeadingOf(rows, n - 1).heading)
  {
    hide AlphaOver, NumberOver, RootOver, ParagraphParts;
  }

  ghost predicate NoneEmpty(builders: seq<Builder>) {
    forall k | 0 <= k < |builders| :: builders[k].parts != []
  }

  lemma ExtendingBegins(st: State, row: Row, k: nat, n: nat)
    requires NoneEmpty(st.builders) && k < |st.builders|
    ensures Begins(st.builders, st.builders[k := Extended(st.builders[k], row)], n, [])
  {
  }

  lemma {:induction false} PlainBegins(rows: seq<Row>, n: nat, st: State)
    requires n < |rows| && Told(rows, n, st) && NoneEmpty(st.builders)
    ensures Begins(st.builders, ConsiderPlain(st, rows[n]).builders, n,
              if ArticleOver(rows, n) == Some(n - 1) && HeadingOf(rows, n - 1).remainder == ""
              then [ArticleStart(n, HeadingOf(rows, n - 1), rows[n].text)] else [])
  {
    BehindBareHeading(rows, n, st);
    hide Told, ArticleOver, NoneEmpty, Extended, Begins;
    if st.article.Some? && st.active.None? {
      OneBegins(st, ArticleBuilder(rows[n], st.article.value, st.heading, rows[n].text), n);
    } else if st.active.Some? && st.active.value < |st.builders| {
      ExtendingBegins(st, rows[n], st.active.value, n);
    } else {
      NothingBegins(st.builders, n);
    }
  }

  lemma NothingBegins(builders: seq<Builder>, n: nat)
    ensures Begins(builders, builders, n, [])
  {
  }

  /** A step begins exactly the clauses the rows say. */
  lemma StepBegins(rows: seq<Row>, n: nat, before: State)
    requires n < |rows| && Told(rows, n, InRevision(before, rows[n])) && NoneEmpty(before.builders) && StateInv(before)
    ensures Begins(before.builders, Consider(before, rows[n]).builders, n, Begun(rows, n))
  {
    var row, st := rows[n], InRevision(before, rows[n]);
    InRevisionKeeps(before, row);
    AfterRevision(before, row);
    Excluded(st);
    InForce(rows, n, st);
    hide InRevision, Told, ForceTold, ParagraphParts, ArticleOver, RootOver, Begins, ConsiderItem, ConsiderPlain, ConsiderArticle,
         WithParagraphs,
         StateInv, ItemStart, NoneEmpty;
    if row.shape.appendix.Some? {
      OneBegins(State(st.revision, None, "", None, None, None, None, st.builders),
                Builder(row.revision, AppendixKey(row.shape.appendix.value), WholeText(row.text), [row.text], [row.id], None), n);
    } else if row.shape.article.Some? {
      ArticleBegins(st, row, row.shape.article.value, n);
    } else if st.article.Some? && ParagraphParts(row.text) != [] {
      ParagraphsBegin(st, row, HeadingOf(rows, ArticleOver(rows, n).value), ParagraphParts(row.text), n);
    } else if row.shape.operation.Some? {
      OneBegins(State(st.revision, None, "", Some(row.shape.operation.value.mark), None, None, None, st.builders),
                OperationBuilder(row, [row.shape.operation.value.mark], row.shape.operation.value.remainder), n);
    } else if st.root.Some? && IsItem(row) {
      ItemBegins(rows, n, st);
    } else {
      NoItem(st, row);
      PlainBegins(rows, n, st);
    }
  }

  lemma NoItem(st: State, row: Row)
    requires st.root.Some? ==> !IsItem(row)
    ensures st.root.Some? ==> ConsiderItem(st, row).None?
  {
  }

  lemma {:induction false} InForce(rows: seq<Row>, n: nat, st: State)
    requires n < |rows| && Told(rows, n, st)
    ensures ForceTold(rows, n, ForceOf(st))
    ensures st.article.Some? <==> ArticleOver(rows, n).Some?
    ensures st.article.Some? ==> var h := HeadingOf(rows, ArticleOver(rows, n).value); st.article == Some(h.article) && st.heading == h.heading
    ensures st.root.Some? <==> RootOver(rows, n).Some?
  {
    hide AlphaOver, NumberOver, ParagraphParts;
  }

  // ---------------------------------------------------------------- whole runs

  /** The clauses of a run are those begun at its rows, in order. */
  ghost predicate AllBegun(rows: seq<Row>, n: nat)
    requires n <= |rows|
  {
    var builders, origins, starts := Run(rows, n).builders, Origins(rows, n), BegunUpTo(rows, n);
    && |starts| == |builders| == |origins|
    && forall k | 0 <= k < |starts| :: StartOf(builders[k], origins[k]) == starts[k]
  }

  lemma {:induction false} RunNoneEmpty(rows: seq<Row>, n: nat)
    requires n <= |rows|
    ensures NoneEmpty(Run(rows, n).builders) && |Origins(rows, n)| == |Run(rows, n).builders|
  {
    RunsHold(rows, n);
    hide StateInv;
  }

  lemma {:induction false} RunBegins(rows: seq<Row>, n: nat)
    requires n <= |rows|
    ensures AllBegun(rows, n)
  {
    hide AllBegun, Consider, Told, InRevision, StateInv, NoneEmpty, Begun;
    if n == 0 {
      NoneBegun(rows);
    } else {
      RunBegins(rows, n - 1);
      RunNoneEmpty(rows, n - 1);
      RunIsTold(rows, n - 1);
      StepBegins(rows, n - 1, Run(rows, n - 1));
      BeginsMore(rows, n - 1);
    }
  }

  lemma NoneBegun(rows: seq<Row>)
    ensures AllBegun(rows, 0)
  {
  }

  lemma BeginsMore(rows: seq<Row>, n: nat)
    requires n < |rows| && AllBegun(rows, n)
    requires Begins(Run(rows, n).builders, Run(rows, n + 1).builders, n, Begun(rows, n))
    ensures AllBegun(rows, n + 1)
  {
    hide Run, Begun, StartOf, Origins;
    OriginsStep(rows, n);
    MoreBegun(rows, n);
    hide BegunUpTo;
    var builders', origins' := Run(rows, n + 1).builders, Origins(rows, n + 1);
    forall k | 0 <= k < |builders'|
      ensures StartOf(builders'[k], origins'[k]) == (BegunUpTo(rows, n) + Begun(rows, n))[k]
    {
    }
  }

  lemma MoreBegun(rows: seq<Row>, n: nat)
    requires n < |rows|
    ensures BegunUpTo(rows, n + 1) == BegunUpTo(rows, n) + Begun(rows, n)
  {
    hide Begun;
  }

  /** Row `q` only goes on a clause begun before it. */
  predicate GoesOn(rows: seq<Row>, q: nat)
    requires q < |rows|
  {
    q > 0 && rows[q - 1].revision == rows[q].revision && Begun(rows, q) == [] && !BareHeading(rows[q])
  }

  /** The rows from `m` up to `e`: the row a clause begins at and those that go it on, to the last. */
  predicate Extent(rows: seq<Row>, m: nat, e: nat) {
    && m < e <= |rows|
    && (forall q | m < q < e :: GoesOn(rows, q))
    && (e < |rows| ==> !GoesOn(rows, e))
  }

  /** Clause `j` of the list begins at row `q`. */
  predicate AtRow(starts: seq<Start>, j: nat, q: nat) { j < |starts| && starts[j].row == q }

  lemma {:induction false} BegunAt(rows: seq<Row>, n: nat, q: nat)
    requires n <= |rows| && q < |rows|
    ensures (exists j: nat :: AtRow(BegunUpTo(rows, n), j, q)) <==> q < n && Begun(rows, q) != []
  {
    hide Begun, AtRow;
    if n == 0 {
      NoneAt(q);
    } else {
      BegunAt(rows, n - 1, q);
      BegunHere(rows, n - 1);
      MoreBegun(rows, n - 1);
      AppendedAt(BegunUpTo(rows, n - 1), Begun(rows, n - 1), n - 1, q);
    }
  }

  lemma NoneAt(q: nat)
    ensures forall j: nat :: !AtRow([], j, q)
  {
  }

  lemma AppendedAt(before: seq<Start>, here: seq<Start>, n: nat, q: nat)
    requires forall start | start in here :: start.row == n
    ensures (exists j: nat :: AtRow(before + here, j, q)) <==> (exists j: nat :: AtRow(before, j, q)) || (here != [] && q == n)
  {
    if j: nat :| AtRow(before + here, j, q) {
      if j < |before| { assert AtRow(before, j, q); } else { assert (before + here)[j] in here; }
    }
    if j: nat :| AtRow(before, j, q) { assert AtRow(before + here, j, q); }
    if here != [] && q == n {
      assert here[0] in here;
      assert AtRow(before + here, |before|, q);
    }
  }

  lemma BegunHere(rows: seq<Row>, n: nat)
    requires n < |rows|
    ensures forall start | start in Begun(rows, n) :: start.row == n
  {
    hide ParagraphParts, ArticleOver, RootOver, AlphaOver, NumberOver;
  }

  /** A clause begins and ends where the rows say. */
  ghost predicate ClauseAt(rows: seq<Row>, starts: seq<Start>, k: nat, b: Builder)
    requires k < |starts|
  {
    var start, m, e := starts[k], starts[k].row, starts[k].row + |b.parts|;
    && m < e <= |rows|
    && b.revision == rows[m].revision && b.key == start.key && b.title == start.title && b.article == start.article
    && b.sources == SourceIds(rows, m, e)
    && b.parts[0] == start.text && (forall q | m < q < e :: b.parts[q - m] == rows[q].text)
    && (if k + 1 < |starts| && starts[k + 1].row == m then e == m + 1 else Extent(rows, m, e))
  }

  /** Row `q` is one of the rows of clause `k`. */
  predicate Spans(starts: seq<Start>, builders: seq<Builder>, k: nat, q: nat) {
    k < |starts| && k < |builders| && starts[k].row <= q < starts[k].row + |builders[k].parts|
  }

  /** The clauses are made of rows from where they begin, one behind the other. */
  ghost predicate Laid(rows: seq<Row>, starts: seq<Start>, builders: seq<Builder>) {
    && |starts| == |builders|
    && (forall k | 0 <= k < |starts| :: StartOf(builders[k], starts[k].row) == starts[k] && MadeOf(rows, builders[k], starts[k].row))
    && (forall k, j | 0 <= k < j < |starts| :: starts[k].row + |builders[k].parts| <= starts[j].row
                                               || (starts[k].row == starts[j].row && |builders[k].parts| == 1))
    && (forall q: nat | q < |rows| :: (exists k: nat :: Spans(starts, builders, k, q)) <==> Marked(rows, q) && !BareHeading(rows[q]))
    && (forall q: nat | q < |rows| :: (exists j: nat :: AtRow(starts, j, q)) <==> Begun(rows, q) != [])
  }

  lemma {:induction false} RunLaid(rows: seq<Row>)
    ensures Laid(rows, BegunUpTo(rows, |rows|), Run(rows, |rows|).builders)
  {
    hide Run, Origins, Begun, BegunUpTo, BareHeading, Marked, MadeOf, StateInv, StartOf, Covered, AtRow, Spans;
    var n := |rows|;
    RunBegins(rows, n);
    RunsHold(rows, n);
    StartRows(rows);
    forall q: nat | q < n
      ensures (exists k: nat :: Spans(BegunUpTo(rows, n), Run(rows, n).builders, k, q)) <==> Marked(rows, q) && !BareHeading(rows[q])
    {
      Coverage(rows, q);
      CoveredIsSpanned(rows, q);
    }
    forall q: nat | q < n
      ensures (exists j: nat :: AtRow(BegunUpTo(rows, n), j, q)) <==> Begun(rows, q) != []
    {
      BegunAt(rows, n, q);
    }
  }

  lemma {:induction false} StartRows(rows: seq<Row>)
    requires AllBegun(rows, |rows|)
    ensures var builders, origins, starts := Run(rows, |rows|).builders, Origins(rows, |rows|), BegunUpTo(rows, |rows|);
            && |starts| == |builders| == |origins|
            && forall k | 0 <= k < |starts| :: starts[k].row == origins[k] && StartOf(builders[k], starts[k].row) == starts[k]
  {
    hide Run, Origins, BegunUpTo;
  }

  lemma {:induction false} CoveredIsSpanned(rows: seq<Row>, q: nat)
    requires AllBegun(rows, |rows|)
    ensures Covered(rows, |rows|, q) <==> exists k: nat :: Spans(BegunUpTo(rows, |rows|), Run(rows, |rows|).builders, k, q)
  {
    hide Run, Origins, BegunUpTo, StartOf, AllBegun;
    StartRows(rows);
    assert forall k: nat :: Holds(rows, |rows|, k, q) <==> Spans(BegunUpTo(rows, |rows|), Run(rows, |rows|).builders, k, q);
  }

  lemma LaterRowGoesOn(rows: seq<Row>, starts: seq<Start>, builders: seq<Builder>, k: nat, q: nat)
    requires Laid(rows, starts, builders) && k < |starts| && starts[k].row < q && Spans(starts, builders, k, q)
    ensures q < |rows| && GoesOn(rows, q)
  {
    hide Begun, BareHeading, Marked, SourceIds;
    var m := starts[k].row;
    assert MadeOf(rows, builders[k], m);
  }

  lemma EndsThere(rows: seq<Row>, starts: seq<Start>, builders: seq<Builder>, k: nat)
    requires Laid(rows, starts, builders) && k < |starts|
    requires var e := starts[k].row + |builders[k].parts|; e < |rows| && GoesOn(rows, e)
    ensures k + 1 < |starts| && starts[k + 1].row == starts[k].row
  {
    hide Begun, BareHeading, SourceIds;
    var m, e := starts[k].row, starts[k].row + |builders[k].parts|;
    assert MadeOf(rows, builders[k], m);
    MarkedStep(rows, e);
    hide MadeOf, Marked;
    assert Spans(starts, builders, k, e - 1);
    var j: nat :| Spans(starts, builders, j, e);
    assert !AtRow(starts, j, e);
    assert k < j;
    if k + 1 < j { assert starts[k].row <= starts[k + 1].row <= starts[j].row; }
  }

  lemma NextToo(rows: seq<Row>, starts: seq<Start>, builders: seq<Builder>, k: nat)
    requires Laid(rows, starts, builders) && k + 1 < |starts| && starts[k + 1].row == starts[k].row
    ensures |builders[k].parts| == 1
  {
    hide Begun, BareHeading, SourceIds, Marked;
    assert MadeOf(rows, builders[k], starts[k].row);
  }

  /** Every clause, from the rows alone: its key, title and first text are those of the start, its
      sources and later texts those of the rows up to the next row that does not go it on. */
  lemma {:induction false} ClausesFromRows(rows: seq<Row>, k: nat)
    requires k < |BegunUpTo(rows, |rows|)|
    ensures |BegunUpTo(rows, |rows|)| == |Run(rows, |rows|).builders|
    ensures ClauseAt(rows, BegunUpTo(rows, |rows|), k, Run(rows, |rows|).builders[k])
  {
    hide Run, Begun, BegunUpTo, BareHeading, Marked, SourceIds, GoesOn;
    RunLaid(rows);
    LaidClause(rows, BegunUpTo(rows, |rows|), Run(rows, |rows|).builders, k);
  }

  lemma LaidClause(rows: seq<Row>, starts: seq<Start>, builders: seq<Builder>, k: nat)
    requires Laid(rows, starts, builders) && k < |starts|
    ensures ClauseAt(rows, starts, k, builders[k])
  {
    var m, e := starts[k].row, starts[k].row + |builders[k].parts|;
    assert StartOf(builders[k], m) == starts[k] && MadeOf(rows, builders[k], m);
    hide Begun, BareHeading, SourceIds, Marked, GoesOn, Laid;
    if k + 1 < |starts| && starts[k + 1].row == m {
      NextToo(rows, starts, builders, k);
    } else {
      forall q | m < q < e ensures GoesOn(rows, q) {
        LaterRowGoesOn(rows, starts, builders, k, q);
      }
      if e < |rows| && GoesOn(rows, e) {
        EndsThere(rows, starts, builders, k);
      }
    }
  }
}

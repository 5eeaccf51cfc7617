/** Deriving legal clauses from parser elements, one element at a time.

    Regular expressions are abstract: a row says which headings its text matches.  Texts are
    already whitespace-normalized and rows are already sorted by revision, page and order. */
module ClauseMaterializer {
  import opened Options
  import opened ClauseText

  datatype Heading = Heading(article: string, heading: string, remainder: string)

  datatype Item = Item(mark: string, remainder: string)

  /** What the text of a row matches; several may apply at once. */
  datatype Shape = Shape(appendix: Option<string>, article: Option<Heading>, operation: Option<Item>,
                         alphaDot: Option<Item>, numberParen: Option<Item>, alphaParen: Option<Item>)

  datatype Row = Row(revision: string, id: string, text: string, shape: Shape)

  predicate Blank(row: Row) { row.revision == "" || row.id == "" || row.text == "" }

  datatype Key =
    | AppendixKey(title: string)
    | ArticleKey(article: string)
    | ParagraphKey(article: string, number: nat)
    | OperationKey(path: seq<string>)

  datatype Title =
    | WholeText(text: string)
    | ArticleTitle(article: string, heading: string)
    | ParagraphTitle(article: string, heading: string, number: nat)
    | OperationTitle(path: seq<string>, remainder: string)

  datatype Builder = Builder(revision: string, key: Key, title: Title, parts: seq<string>, sources: seq<string>, article: Option<string>)

  function Extended(b: Builder, row: Row): Builder {
    b.(parts := b.parts + [row.text], sources := if row.id in b.sources then b.sources else b.sources + [row.id])
  }

  /** `active` is the position of the builder that plain text extends. */
  datatype State = State(revision: Option<string>, article: Option<string>, heading: string, root: Option<string>,
                         alpha: Option<string>, number: Option<string>, active: Option<nat>, builders: seq<Builder>)

  const START := State(None, None, "", None, None, None, None, [])

  // ---------------------------------------------------------------- one row, as a function

  function Started(st: State, b: Builder): State {
    st.(builders := st.builders + [b], active := Some(|st.builders|))
  }

  function ParagraphBuilder(row: Row, article: string, heading: string, part: Part): Builder {
    Builder(row.revision, ParagraphKey(article, part.number), ParagraphTitle(article, heading, part.number), [part.text], [row.id],
            Some(article))
  }

  function ParagraphBuilders(row: Row, article: string, heading: string, parts: seq<Part>): (builders: seq<Builder>)
    ensures |builders| == |parts|
  {
    seq(|parts|, i requires 0 <= i < |parts| => ParagraphBuilder(row, article, heading, parts[i]))
  }

  function WithParagraphs(st: State, row: Row, article: string, heading: string, parts: seq<Part>): State
    requires parts != []
  {
    st.(builders := st.builders + ParagraphBuilders(row, article, heading, parts), active := Some(|st.builders| + |parts| - 1))
  }

  function ArticleBuilder(row: Row, article: string, heading: string, text: string): Builder {
    Builder(row.revision, ArticleKey(article), ArticleTitle(article, heading), [text], [row.id], Some(article))
  }

  function OperationBuilder(row: Row, path: seq<string>, remainder: string): Builder {
    Builder(row.revision, OperationKey(path), OperationTitle(path, remainder), [if remainder == "" then row.text else remainder],
            [row.id], None)
  }

  function InRevision(st: State, row: Row): State {
    if st.revision == Some(row.revision) then st else State(Some(row.revision), None, "", None, None, None, None, st.builders)
  }

  function ConsiderArticle(st: State, row: Row, heading: Heading): State {
    var entered := State(st.revision, Some(heading.article), heading.heading, None, None, None, None, st.builders);
    var parts := ParagraphParts(heading.remainder);
    if heading.remainder == "" then entered
    else if parts != [] then WithParagraphs(entered, row, heading.article, heading.heading, parts)
    else Started(entered, ArticleBuilder(row, heading.article, heading.heading, heading.remainder))
  }

  function Optional(value: Option<string>): seq<string> {
    if value.Some? then [value.value] else []
  }

  /** Items of an operational standard, under the current root. */
  function ConsiderItem(st: State, row: Row): Option<State>
    requires st.root.Some?
  {
    var s := row.shape;
    if s.alphaDot.Some? then
      Some(Started(st.(alpha := Some(s.alphaDot.value.mark), number := None),
                   OperationBuilder(row, [st.root.value, s.alphaDot.value.mark], s.alphaDot.value.remainder)))
    else if s.numberParen.Some? then
      Some(Started(st.(number := Some(s.numberParen.value.mark)),
                   OperationBuilder(row, [st.root.value] + Optional(st.alpha) + [s.numberParen.value.mark], s.numberParen.value.remainder)))
    else if s.alphaParen.Some? then
      Some(Started(st, OperationBuilder(row, [st.root.value] + Optional(st.alpha) + Optional(st.number) + [s.alphaParen.value.mark],
                                        s.alphaParen.value.remainder)))
    else None
  }

  function ConsiderPlain(st: State, row: Row): State {
    if st.article.Some? && st.active.None? then Started(st, ArticleBuilder(row, st.article.value, st.heading, row.text))
    else if st.active.Some? && st.active.value < |st.builders| then
      st.(builders := st.builders[st.active.value := Extended(st.builders[st.active.value], row)])
    else st
  }

  /** The state after one non-blank row. */
  function Consider(before: State, row: Row): State {
    var st, s := InRevision(before, row), row.shape;
    if s.appendix.Some? then
      Started(State(st.revision, None, "", None, None, None, None, st.builders),
              Builder(row.revision, AppendixKey(s.appendix.value), WholeText(row.text), [row.text], [row.id], None))
    else if s.article.Some? then ConsiderArticle(st, row, s.article.value)
    else if st.article.Some? && ParagraphParts(row.text) != [] then
      WithParagraphs(st, row, st.article.value, st.heading, ParagraphParts(row.text))
    else if s.operation.Some? then
      Started(State(st.revision, None, "", Some(s.operation.value.mark), None, None, None, st.builders),
              OperationBuilder(row, [s.operation.value.mark], s.operation.value.remainder))
    else if st.article.None? && st.root.Some? && ConsiderItem(st, row).Some? then ConsiderItem(st, row).value
    else ConsiderPlain(st, row)
  }

  function Run(rows: seq<Row>, n: nat): State
    requires n <= |rows|
  {
    if n == 0 then START else Consider(Run(rows, n - 1), rows[n - 1])
  }

  function NonBlank(rows: seq<Row>): (kept: seq<Row>)
    ensures forall row | row in kept :: row in rows && !Blank(row)
  {
    if rows == [] then []
    else NonBlank(rows[..|rows| - 1]) + if Blank(rows[|rows| - 1]) then [] else [rows[|rows| - 1]]
  }

  /** The rows kept are those at `at`, in order: exactly the ones with a revision, an identifier and a text. */
  ghost predicate KeptAt(rows: seq<Row>, kept: seq<Row>, at: seq<nat>) {
    && |at| == |kept|
    && (forall k | 0 <= k < |at| :: at[k] < |rows| && kept[k] == rows[at[k]])
    && (forall k, l | 0 <= k < l < |at| :: at[k] < at[l])
    && (forall i | 0 <= i < |rows| :: i in at <==> rows[i].revision != "" && rows[i].id != "" && rows[i].text != "")
  }

  lemma {:induction false} KeptRows(rows: seq<Row>) returns (at: seq<nat>)
    ensures KeptAt(rows, NonBlank(rows), at)
  {
    at := [];
    hide KeptAt;
    if rows == [] {
      assert KeptAt(rows, [], at) by { KeptNone(); }
    } else {
      var n := |rows| - 1;
      var before := KeptRows(rows[..n]);
      at := if Blank(rows[n]) then before else before + [n];
      if Blank(rows[n]) {
        KeptSame(rows, NonBlank(rows[..n]), before);
        assert NonBlank(rows) == NonBlank(rows[..n]);
      } else {
        KeptMore(rows, NonBlank(rows[..n]), before);
      }
    }
  }

  lemma KeptNone()
    ensures KeptAt([], [], [])
  {
  }

  lemma KeptSame(rows: seq<Row>, kept: seq<Row>, at: seq<nat>)
    requires rows != [] && KeptAt(rows[..|rows| - 1], kept, at) && Blank(rows[|rows| - 1])
    ensures KeptAt(rows, kept, at)
  {
    var n := |rows| - 1;
    forall i | 0 <= i < |rows| ensures i in at <==> rows[i].revision != "" && rows[i].id != "" && rows[i].text != "" {
      if i < n { assert rows[..n][i] == rows[i]; }
    }
  }

  lemma KeptMore(rows: seq<Row>, kept: seq<Row>, at: seq<nat>)
    requires rows != [] && KeptAt(rows[..|rows| - 1], kept, at) && !Blank(rows[|rows| - 1])
    ensures KeptAt(rows, kept + [rows[|rows| - 1]], at + [|rows| - 1])
  {
    var n := |rows| - 1;
    var all := at + [n];
    forall i | 0 <= i < |rows| ensures i in all <==> rows[i].revision != "" && rows[i].id != "" && rows[i].text != "" {
      assert i in all <==> i in at || i == n;
      if i < n { assert rows[..n][i] == rows[i]; }
    }
    forall k | 0 <= k < |all| ensures all[k] < |rows| && (kept + [rows[n]])[k] == rows[all[k]] {
      if k < n && k < |at| { assert all[k] == at[k]; }
    }
  }

  function RunAll(rows: seq<Row>): State { Run(NonBlank(rows), |NonBlank(rows)|) }

  // ---------------------------------------------------------------- the loop over rows

  class Materializer {
    var revision: Option<string>
    var article: Option<string>
    var heading: string
    var root: Option<string>
    var alpha: Option<string>
    var number: Option<string>
    var active: Option<nat>
    var builders: seq<Builder>

    constructor ()
      ensures Now() == START
    {
      revision, article, heading, root, alpha, number, active, builders := None, None, "", None, None, None, None, [];
    }

    ghost function Now(): State
      reads this
    {
      State(revision, article, heading, root, alpha, number, active, builders)
    }

    method StartClause(b: Builder)
      modifies this`builders, this`active
      ensures Now() == Started(old(Now()), b)
    {
      active := Some(|builders|);
      builders := builders + [b];
    }

    method StartParagraphs(row: Row, parts: seq<Part>)
      requires parts != [] && article.Some?
      modifies this`builders, this`active
      ensures Now() == WithParagraphs(old(Now()), row, article.value, heading, parts)
    {
      for i := 0 to |parts|
        invariant builders == old(builders) + ParagraphBuilders(row, article.value, heading, parts)[..i]
        invariant i > 0 ==> active == Some(|old(builders)| + i - 1)
      {
        StartClause(ParagraphBuilder(row, article.value, heading, parts[i]));
      }
    }

    method Reset()
      modifies this`article, this`heading, this`root, this`alpha, this`number, this`active
      ensures Now() == State(old(revision), None, "", None, None, None, None, old(builders))
    {
      article, heading, root, alpha, number, active := None, "", None, None, None, None;
    }

    method EnterArticle(row: Row, found: Heading)
      modifies this
      ensures Now() == ConsiderArticle(old(Now()), row, found)
    {
      Reset();
      article, heading := Some(found.article), found.heading;
      if found.remainder != "" {
        var parts := SplitParagraphs(found.remainder);
        if parts != [] {
          StartParagraphs(row, parts);
        } else {
          StartClause(ArticleBuilder(row, found.article, found.heading, found.remainder));
        }
      }
    }

    method StartItem(row: Row) returns (found: bool)
      requires root.Some?
      modifies this
      ensures found <==> ConsiderItem(old(Now()), row).Some?
      ensures Now() == if found then ConsiderItem(old(Now()), row).value else old(Now())
    {
      var s := row.shape;
      if s.alphaDot.Some? {
        alpha, number := Some(s.alphaDot.value.mark), None;
        StartClause(OperationBuilder(row, [root.value, s.alphaDot.value.mark], s.alphaDot.value.remainder));
        return true;
      }
      if s.numberParen.Some? {
        number := Some(s.numberParen.value.mark);
        StartClause(OperationBuilder(row, [root.value] + Optional(alpha) + [s.numberParen.value.mark], s.numberParen.value.remainder));
        return true;
      }
      if s.alphaParen.Some? {
        StartClause(OperationBuilder(row, [root.value] + Optional(alpha) + Optional(number) + [s.alphaParen.value.mark],
                                     s.alphaParen.value.remainder));
        return true;
      }
      return false;
    }

    method ExtendActive(row: Row)
      modifies this`builders, this`active
      ensures Now() == ConsiderPlain(old(Now()), row)
    {
      if article.Some? && active.None? {
        StartClause(ArticleBuilder(row, article.value, heading, row.text));
      } else if active.Some? && active.value < |builders| {
        builders := builders[active.value := Extended(builders[active.value], row)];
      }
    }

    method ConsiderRow(row: Row)
      modifies this
      ensures Now() == Consider(old(Now()), row)
    {
      hide ParagraphParts, ConsiderArticle, ConsiderItem, ConsiderPlain, WithParagraphs;
      var s := row.shape;
      if revision != Some(row.revision) {
        Reset();
        revision := Some(row.revision);
      }
      if s.appendix.Some? {
        Reset();
        StartClause(Builder(row.revision, AppendixKey(s.appendix.value), WholeText(row.text), [row.text], [row.id], None));
        return;
      }
      if s.article.Some? {
        EnterArticle(row, s.article.value);
        return;
      }
      if article.Some? {
        var parts := SplitParagraphs(row.text);
        if parts != [] {
          StartParagraphs(row, parts);
          return;
        }
      }
      if s.operation.Some? {
        Reset();
        root := Some(s.operation.value.mark);
        StartClause(OperationBuilder(row, [s.operation.value.mark], s.operation.value.remainder));
        return;
      }
      if article.None? && root.Some? {
        var found := StartItem(row);
        if found { return; }
      }
      ExtendActive(row);
    }

    method Derive(rows: seq<Row>)
      requires Now() == START
      modifies this
      ensures Now() == RunAll(rows)
    {
      hide Consider, NonBlank, Run;
      RunOfNone(rows);
      for i := 0 to |rows|
        invariant Now() == RunAll(rows[..i])
      {
        RunOneMore(rows, i);
        if Blank(rows[i]) { continue; }
        ConsiderRow(rows[i]);
      }
      assert rows[..|rows|] == rows;
    }
  }

  lemma RunOfNone(rows: seq<Row>)
    ensures RunAll(rows[..0]) == START
  {
  }

  lemma RunOneMore(rows: seq<Row>, i: nat)
    requires i < |rows|
    ensures RunAll(rows[..i + 1]) == if Blank(rows[i]) then RunAll(rows[..i]) else Consider(RunAll(rows[..i]), rows[i])
  {
    hide Consider, Run;
    NonBlankOneMore(rows, i);
    var kept := NonBlank(rows[..i]);
    if Blank(rows[i]) {
      assert NonBlank(rows[..i + 1]) == kept;
    } else {
      assert NonBlank(rows[..i + 1]) == kept + [rows[i]];
      RunExtends(kept, rows[i], |kept|);
      RunLast(kept + [rows[i]]);
    }
  }

  lemma NonBlankOneMore(rows: seq<Row>, i: nat)
    requires i < |rows|
    ensures NonBlank(rows[..i + 1]) == NonBlank(rows[..i]) + if Blank(rows[i]) then [] else [rows[i]]
  {
    assert rows[..i + 1][..i] == rows[..i];
  }

  lemma {:induction false} RunLast(rows: seq<Row>)
    requires rows != []
    ensures Run(rows, |rows|) == Consider(Run(rows, |rows| - 1), rows[|rows| - 1])
  {
  }

  lemma {:induction false} RunExtends(rows: seq<Row>, row: Row, n: nat)
    requires n <= |rows|
    ensures Run(rows + [row], n) == Run(rows, n)
  {
    hide Consider;
    if n > 0 { RunExtends(rows, row, n - 1); }
  }
}

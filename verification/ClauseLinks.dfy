/** The links between derived clauses and their sources.

    A clause identifier is a digest of the revision, the structural key and the text. */
module ClauseLinks {
  import opened Options
  import opened ClauseKeys
  import opened ClauseMaterializer
  import opened ClauseRuns

  datatype Node = ClauseId(revision: string, key: Key, text: string) | ElementId(id: string)

  datatype Clause = Clause(revision: string, key: Key, title: Title, text: string, sources: seq<string>, article: Option<string>)

  datatype Relation = SourceElement | NextSibling | PreviousSibling | CitedClause

  datatype Link = Link(source: Node, target: Node, relation: Relation)

  function IdOf(clause: Clause): Node { ClauseId(clause.revision, clause.key, clause.text) }

  /** Clauses of the same revision and article. */
  predicate Siblings(a: Clause, b: Clause) {
    a.article.Some? && a.article == b.article && a.revision == b.revision
  }

  predicate NextOf(clauses: seq<Clause>, i: nat, j: nat) {
    && i < j < |clauses| && Siblings(clauses[i], clauses[j])
    && forall k | i < k < j :: !Siblings(clauses[i], clauses[k])
  }

  /** Clause `j` is the last of its article with paragraph number `n`. */
  predicate ParagraphOf(clauses: seq<Clause>, of: Clause, n: nat, j: nat) {
    && j < |clauses| && IsParagraph(clauses[j], of, n)
    && forall k | j < k < |clauses| :: !IsParagraph(clauses[k], of, n)
  }

  predicate IsParagraph(clause: Clause, of: Clause, n: nat) {
    Siblings(of, clause) && clause.key.ParagraphKey? && clause.key.number == n
  }

  function LastParagraph(clauses: seq<Clause>, of: Clause, n: nat, end: nat): (found: Option<nat>)
    requires end <= |clauses|
    ensures found.Some? ==> found.value < end && IsParagraph(clauses[found.value], of, n)
    ensures found.Some? ==> forall k | found.value < k < end :: !IsParagraph(clauses[k], of, n)
    ensures found.None? ==> forall k | 0 <= k < end :: !IsParagraph(clauses[k], of, n)
  {
    if end == 0 then None
    else if IsParagraph(clauses[end - 1], of, n) then Some(end - 1)
    else LastParagraph(clauses, of, n, end - 1)
  }

  // ---------------------------------------------------------------- which links there should be

  ghost predicate SourceLink(clauses: seq<Clause>, i: nat, l: Link) {
    i < |clauses| && exists id | id in clauses[i].sources :: l == Link(IdOf(clauses[i]), ElementId(id), SourceElement)
  }

  ghost predicate SiblingLink(clauses: seq<Clause>, i: nat, l: Link) {
    exists j: nat :: NextOf(clauses, i, j)
      && (l == Link(IdOf(clauses[i]), IdOf(clauses[j]), NextSibling) || l == Link(IdOf(clauses[j]), IdOf(clauses[i]), PreviousSibling))
  }

  /** A citation joins two clauses with different identifiers, and their different sources. */
  predicate CitationLink(from: Clause, target: Clause, l: Link) {
    && l.relation == CitedClause
    && (|| (l.source == IdOf(from) && l.target == IdOf(target))
        || (l.source.ElementId? && l.target.ElementId? && l.source.id in from.sources && l.target.id in target.sources
            && l.source != l.target))
  }

  ghost predicate CitedLink(clauses: seq<Clause>, cited: string -> set<nat>, i: nat, l: Link) {
    i < |clauses| && CitedFrom(clauses, i, cited(clauses[i].text), l)
  }

  // ---------------------------------------------------------------- the loops

  method SourceLinks(clauses: seq<Clause>) returns (links: seq<Link>)
    ensures forall l :: l in links <==> exists i: nat :: SourceLink(clauses, i, l)
  {
    links := [];
    for i := 0 to |clauses|
      invariant forall l :: l in links <==> exists k: nat :: k < i && SourceLink(clauses, k, l)
    {
      var sources := clauses[i].sources;
      ghost var before := links;
      for n := 0 to |sources|
        invariant forall l :: l in links <==>
          l in before || exists m | 0 <= m < n :: l == Link(IdOf(clauses[i]), ElementId(sources[m]), SourceElement)
      {
        links := links + [Link(IdOf(clauses[i]), ElementId(sources[n]), SourceElement)];
      }
      assert forall l :: SourceLink(clauses, i, l) <==>
        exists m | 0 <= m < |sources| :: l == Link(IdOf(clauses[i]), ElementId(sources[m]), SourceElement);
      assert forall l :: l in links <==> l in before || SourceLink(clauses, i, l);
      assert forall l :: l in before ==> exists k: nat :: k < i && SourceLink(clauses, k, l);
    }
  }

  method SiblingLinks(clauses: seq<Clause>) returns (links: seq<Link>)
    ensures forall l :: l in links <==> exists i: nat :: SiblingLink(clauses, i, l)
  {
    links := [];
    for i := 0 to |clauses|
      invariant forall l :: l in links <==> exists k: nat :: k < i && SiblingLink(clauses, k, l)
    {
      ghost var before := links;
      var j := i + 1;
      while j < |clauses| && !Siblings(clauses[i], clauses[j])
        invariant i < j <= |clauses| && forall k | i < k < j :: !Siblings(clauses[i], clauses[k])
      {
        j := j + 1;
      }
      if j < |clauses| {
        assert NextOf(clauses, i, j);
        assert forall k: nat :: NextOf(clauses, i, k) ==> k == j;
        links := links + [Link(IdOf(clauses[i]), IdOf(clauses[j]), NextSibling), Link(IdOf(clauses[j]), IdOf(clauses[i]), PreviousSibling)];
      } else {
        assert forall k: nat :: !NextOf(clauses, i, k);
      }
      assert forall l :: l in links <==> l in before || SiblingLink(clauses, i, l);
      assert forall l :: l in before ==> exists k: nat :: k < i && SiblingLink(clauses, k, l);
    }
  }

  method CitationLinks(from: Clause, target: Clause) returns (links: seq<Link>)
    ensures forall l :: l in links <==> CitationLink(from, target, l)
  {
    links := [Link(IdOf(from), IdOf(target), CitedClause)];
    for a := 0 to |from.sources|
      invariant forall l :: l in links <==> l == Link(IdOf(from), IdOf(target), CitedClause) || PairUpTo(from, target, a, 0, l)
    {
      for b := 0 to |target.sources|
        invariant forall l :: l in links <==> l == Link(IdOf(from), IdOf(target), CitedClause) || PairUpTo(from, target, a, b, l)
      {
        if from.sources[a] == target.sources[b] { continue; }
        links := links + [Link(ElementId(from.sources[a]), ElementId(target.sources[b]), CitedClause)];
      }
    }
  }

  /** A link between different sources among the first pairs in the order of the loops. */
  ghost predicate PairUpTo(from: Clause, target: Clause, a: nat, b: nat, l: Link) {
    exists x, y | 0 <= x < |from.sources| && 0 <= y < |target.sources| && (x < a || (x == a && y < b)) ::
      from.sources[x] != target.sources[y] && l == Link(ElementId(from.sources[x]), ElementId(target.sources[y]), CitedClause)
  }

  method CitedLinks(clauses: seq<Clause>, cited: string -> set<nat>) returns (links: seq<Link>)
    ensures forall l :: l in links <==> exists i: nat :: CitedLink(clauses, cited, i, l)
  {
    links := [];
    for i := 0 to |clauses|
      invariant forall l :: l in links <==> exists k: nat :: k < i && CitedLink(clauses, cited, k, l)
    {
      var numbers := cited(clauses[i].text);
      ghost var before := links;
      ghost var done: set<nat> := {};
      while numbers != {}
        invariant numbers !! done && numbers + done == cited(clauses[i].text)
        invariant forall l :: l in links <==> l in before || CitedFrom(clauses, i, done, l)
      {
        var n :| n in numbers;
        var found := LastParagraph(clauses, clauses[i], n, |clauses|);
        if found.Some? && IdOf(clauses[found.value]) != IdOf(clauses[i]) {
          var more := CitationLinks(clauses[i], clauses[found.value]);
          links := links + more;
          assert ParagraphOf(clauses, clauses[i], n, found.value);
        }
        CitedOneMore(clauses, i, done, n, found);
        numbers, done := numbers - {n}, done + {n};
      }
      assert forall l :: l in links <==> l in before || CitedLink(clauses, cited, i, l);
      assert forall l :: l in before ==> exists k: nat :: k < i && CitedLink(clauses, cited, k, l);
    }
  }

  ghost predicate CitedFrom(clauses: seq<Clause>, i: nat, numbers: set<nat>, l: Link)
    requires i < |clauses|
  {
    exists n: nat, j: nat :: n in numbers && ParagraphOf(clauses, clauses[i], n, j)
      && IdOf(clauses[j]) != IdOf(clauses[i]) && CitationLink(clauses[i], clauses[j], l)
  }

  lemma {:induction false} CitedOneMore(clauses: seq<Clause>, i: nat, done: set<nat>, n: nat, found: Option<nat>)
    requires i < |clauses| && found == LastParagraph(clauses, clauses[i], n, |clauses|)
    ensures forall l :: CitedFrom(clauses, i, done + {n}, l) <==> (CitedFrom(clauses, i, done, l)
              || (found.Some? && IdOf(clauses[found.value]) != IdOf(clauses[i]) && CitationLink(clauses[i], clauses[found.value], l)))
  {
    assert forall j: nat :: ParagraphOf(clauses, clauses[i], n, j) <==> found == Some(j);
    hide CitationLink, ParagraphOf, LastParagraph;
  }

  function Joined(parts: seq<string>): string {
    if parts == [] then "" else if |parts| == 1 then parts[0] else parts[0] + " " + Joined(parts[1..])
  }

  function Emit(b: Builder): Clause { Clause(b.revision, b.key, b.title, Joined(b.parts), b.sources, b.article) }

  function EmitAll(builders: seq<Builder>): (clauses: seq<Clause>)
    ensures |clauses| == |builders|
    ensures forall k | 0 <= k < |builders| :: clauses[k] == Emit(builders[k])
  {
    seq(|builders|, i requires 0 <= i < |builders| => Emit(builders[i]))
  }

  /** The texts are joined with one space. */
  lemma {:induction false} JoinedIsSpaced(parts: seq<string>, more: seq<string>)
    requires parts != [] && more != []
    ensures Joined(parts + more) == Joined(parts) + " " + Joined(more)
    ensures |parts| == 1 ==> Joined(parts) == parts[0]
  {
    if |parts| == 1 {
      assert (parts + more)[1..] == more;
    } else {
      assert (parts + more)[1..] == parts[1..] + more;
      JoinedIsSpaced(parts[1..], more);
    }
  }

  /** The texts of a clause: the one it begins with and those of the rows behind row `m` up to `e`. */
  function TextsOf(rows: seq<Row>, first: string, m: nat, e: nat): (texts: seq<string>)
    requires m < e <= |rows|
  {
    [first] + seq(e - m - 1, i requires 0 <= i < e - m - 1 => rows[m + 1 + i].text)
  }

  /** Clause `k` as the rows give it, reaching up to row `e`. */
  predicate FromRows(rows: seq<Row>, starts: seq<Start>, k: nat, e: nat, clause: Clause) {
    k < |starts| &&
    var start, m := starts[k], starts[k].row;
    && m < e <= |rows|
    && clause.revision == rows[m].revision && clause.key == start.key && clause.title == start.title && clause.article == start.article
    && clause.text == Joined(TextsOf(rows, start.text, m, e))
    && clause.sources == SourceIds(rows, m, e)
    && (if k + 1 < |starts| && starts[k + 1].row == m then e == m + 1 else Extent(rows, m, e))
  }

  ghost predicate Derivable(rows: seq<Row>, starts: seq<Start>, k: nat, clause: Clause) {
    exists e: nat :: FromRows(rows, starts, k, e, clause)
  }

  /** The clauses are those that begin at the kept rows, in order, each reaching to the last row that
      goes it on. */
  ghost predicate ClausesOf(rows: seq<Row>, clauses: seq<Clause>) {
    var starts := BegunUpTo(rows, |rows|);
    |clauses| == |starts| && forall k: nat | k < |starts| :: Derivable(rows, starts, k, clauses[k])
  }

  lemma {:induction false} RunGivesClauses(rows: seq<Row>)
    ensures ClausesOf(rows, EmitAll(Run(rows, |rows|).builders))
  {
    hide Run, BegunUpTo, ClauseAt, Emit, AllBegun, Derivable;
    var starts, clauses := BegunUpTo(rows, |rows|), EmitAll(Run(rows, |rows|).builders);
    RunBegins(rows, |rows|);
    BegunIsBuilt(rows);
    forall k: nat | k < |starts|
      ensures Derivable(rows, starts, k, clauses[k])
    {
      ClausesFromRows(rows, k);
      EmittedFromRows(rows, starts, k, Run(rows, |rows|).builders[k]);
    }
  }

  lemma {:induction false} BegunIsBuilt(rows: seq<Row>)
    requires AllBegun(rows, |rows|)
    ensures |BegunUpTo(rows, |rows|)| == |Run(rows, |rows|).builders|
  {
    hide Run, BegunUpTo;
  }

  lemma EmittedFromRows(rows: seq<Row>, starts: seq<Start>, k: nat, b: Builder)
    requires k < |starts| && ClauseAt(rows, starts, k, b)
    ensures Derivable(rows, starts, k, Emit(b))
  {
    hide SourceIds, Extent, Joined;
    var e := starts[k].row + |b.parts|;
    assert b.parts == TextsOf(rows, starts[k].text, starts[k].row, e);
    assert FromRows(rows, starts, k, e, Emit(b));
  }

  /** The whole materialization: the clauses of the rows and the links between them. */
  method DeriveLegalClauses(rows: seq<Row>, cited: string -> set<nat>) returns (clauses: seq<Clause>, links: seq<Link>)
    ensures clauses == EmitAll(RunAll(rows).builders)
    ensures ClausesOf(NonBlank(rows), clauses)
    ensures forall l :: l in links <==> Expected(clauses, cited, l)
  {
    hide Run, BegunUpTo, FromRows;
    var materializer := new Materializer();
    materializer.Derive(rows);
    clauses := EmitAll(materializer.builders);
    RunGivesClauses(NonBlank(rows));
    links := DeriveLinks(clauses, cited);
  }

  method DeriveLinks(clauses: seq<Clause>, cited: string -> set<nat>) returns (links: seq<Link>)
    ensures forall l :: l in links <==> Expected(clauses, cited, l)
  {
    var sources := SourceLinks(clauses);
    var siblings := SiblingLinks(clauses);
    var citations := CitedLinks(clauses, cited);
    links := sources + siblings + citations;
  }

  ghost predicate Expected(clauses: seq<Clause>, cited: string -> set<nat>, l: Link) {
    exists i: nat :: SourceLink(clauses, i, l) || SiblingLink(clauses, i, l) || CitedLink(clauses, cited, i, l)
  }

  // ---------------------------------------------------------------- what the links are like

  lemma ExpectedSibling(clauses: seq<Clause>, cited: string -> set<nat>, l: Link)
    requires l.relation == NextSibling || l.relation == PreviousSibling
    ensures Expected(clauses, cited, l) <==> exists i: nat :: SiblingLink(clauses, i, l)
  {
  }

  /** Following back is exactly the inverse of following on. */
  lemma PreviousIsInverse(clauses: seq<Clause>, cited: string -> set<nat>, a: Node, b: Node)
    ensures Expected(clauses, cited, Link(a, b, NextSibling)) <==> Expected(clauses, cited, Link(b, a, PreviousSibling))
  {
    var next, previous := Link(a, b, NextSibling), Link(b, a, PreviousSibling);
    ExpectedSibling(clauses, cited, next);
    ExpectedSibling(clauses, cited, previous);
    if exists i: nat :: SiblingLink(clauses, i, next) {
      var i: nat :| SiblingLink(clauses, i, next);
      assert SiblingLink(clauses, i, previous);
    }
    if exists i: nat :: SiblingLink(clauses, i, previous) {
      var i: nat :| SiblingLink(clauses, i, previous);
      assert SiblingLink(clauses, i, next);
    }
  }

  /** Following next siblings from clause `i` passes through clause `j`. */
  ghost predicate LeadsTo(clauses: seq<Clause>, i: nat, j: nat)
    decreases j - i
  {
    i == j || exists k | i < k <= j :: NextOf(clauses, i, k) && LeadsTo(clauses, k, j)
  }

  /** Within an article the next siblings form one path in document order: no clause has two
      successors or two predecessors, and every later clause of the article is reached. */
  lemma {:induction false} SiblingsFormAPath(clauses: seq<Clause>, i: nat, j: nat)
    requires i < j < |clauses| && Siblings(clauses[i], clauses[j])
    ensures LeadsTo(clauses, i, j)
    ensures exists k: nat :: NextOf(clauses, i, k)
    decreases j - i
  {
    var k := i + 1;
    while !Siblings(clauses[i], clauses[k])
      invariant i < k <= j && forall m | i < m < k :: !Siblings(clauses[i], clauses[m])
      decreases j - k
    {
      k := k + 1;
    }
    assert NextOf(clauses, i, k);
    if k < j { SiblingsFormAPath(clauses, k, j); }
    assert LeadsTo(clauses, k, j);
  }

  lemma OneSuccessorOnePredecessor(clauses: seq<Clause>, i: nat, j: nat, i': nat, j': nat)
    requires NextOf(clauses, i, j) && NextOf(clauses, i', j')
    ensures i == i' <==> j == j'
  {
  }

  /** An identifier the derivation emitted, or the source element of a clause it emitted. */
  ghost predicate Emitted(clauses: seq<Clause>, node: Node) {
    exists clause | clause in clauses :: node == IdOf(clause) || (node.ElementId? && node.id in clause.sources)
  }

  lemma EndpointsEmitted(clauses: seq<Clause>, cited: string -> set<nat>, l: Link)
    requires Expected(clauses, cited, l)
    ensures Emitted(clauses, l.source) && Emitted(clauses, l.target)
  {
    var i: nat :| SourceLink(clauses, i, l) || SiblingLink(clauses, i, l) || CitedLink(clauses, cited, i, l);
    if SourceLink(clauses, i, l) {
      assert clauses[i] in clauses;
    } else if SiblingLink(clauses, i, l) {
      var j: nat :| NextOf(clauses, i, j)
        && (l == Link(IdOf(clauses[i]), IdOf(clauses[j]), NextSibling) || l == Link(IdOf(clauses[j]), IdOf(clauses[i]), PreviousSibling));
      assert clauses[i] in clauses && clauses[j] in clauses;
    } else {
      var n: nat, j: nat :| n in cited(clauses[i].text) && ParagraphOf(clauses, clauses[i], n, j)
        && IdOf(clauses[j]) != IdOf(clauses[i]) && CitationLink(clauses[i], clauses[j], l);
      assert clauses[i] in clauses && clauses[j] in clauses;
    }
  }

  /** A citation never joins an identifier to itself, and stays within one article. */
  lemma CitationsJoinDifferentNodes(clauses: seq<Clause>, cited: string -> set<nat>, l: Link)
    requires Expected(clauses, cited, l) && l.relation == CitedClause
    ensures l.source != l.target
    ensures l.source.ClauseId? && l.target.ClauseId? ==>
              exists a, b | a in clauses && b in clauses :: Siblings(a, b) && l.source == IdOf(a) && l.target == IdOf(b)
  {
    var i: nat :| SourceLink(clauses, i, l) || SiblingLink(clauses, i, l) || CitedLink(clauses, cited, i, l);
    var n: nat, j: nat :| n in cited(clauses[i].text) && ParagraphOf(clauses, clauses[i], n, j)
      && IdOf(clauses[j]) != IdOf(clauses[i]) && CitationLink(clauses[i], clauses[j], l);
    assert clauses[i] in clauses && clauses[j] in clauses;
  }
}

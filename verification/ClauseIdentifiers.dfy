/** Sibling links carry identifiers, not positions: exactly when they still form paths. */
module ClauseIdentifiers {
  import opened Options
  import opened ClauseText
  import opened ClauseMaterializer
  import opened ClauseLinks

  // ---------------------------------------------------------------- the article is part of the key

  function ArticleOf(key: Key): Option<string> {
    match key
    case ArticleKey(article) => Some(article)
    case ParagraphKey(article, _) => Some(article)
    case _ => None
  }

  ghost predicate KeyedByArticle(builders: seq<Builder>) {
    forall k | 0 <= k < |builders| :: builders[k].article == ArticleOf(builders[k].key)
  }

  lemma StepKeepsKeys(before: State, row: Row)
    requires KeyedByArticle(before.builders)
    ensures KeyedByArticle(Consider(before, row).builders)
  {
    hide ParagraphParts;
  }

  lemma {:induction false} RunKeyed(rows: seq<Row>, n: nat)
    requires n <= |rows|
    ensures KeyedByArticle(Run(rows, n).builders)
  {
    hide Consider;
    if n > 0 {
      RunKeyed(rows, n - 1);
      StepKeepsKeys(Run(rows, n - 1), rows[n - 1]);
    }
  }

  /** Clauses with one identifier belong to one article, or to none. */
  ghost predicate IdentifiedByArticle(clauses: seq<Clause>) {
    forall a, b | a in clauses && b in clauses && IdOf(a) == IdOf(b) :: a.article == b.article
  }

  /** So it is for the clauses of any rows. */
  lemma DerivedAreIdentified(rows: seq<Row>)
    ensures IdentifiedByArticle(EmitAll(RunAll(rows).builders))
  {
    hide Run, ClauseLinks.Joined;
    RunKeyed(NonBlank(rows), |NonBlank(rows)|);
  }

  // ---------------------------------------------------------------- links between identifiers

  /** Identifier `b` is the next sibling of identifier `a`. */
  ghost predicate NextLink(clauses: seq<Clause>, a: Node, b: Node) {
    exists i: nat, j: nat :: NextOf(clauses, i, j) && a == IdOf(clauses[i]) && b == IdOf(clauses[j])
  }

  lemma NextLinkIsDerived(clauses: seq<Clause>, cited: string -> set<nat>, a: Node, b: Node)
    ensures NextLink(clauses, a, b) <==> Expected(clauses, cited, Link(a, b, NextSibling))
  {
    ExpectedSibling(clauses, cited, Link(a, b, NextSibling));
    hide NextOf;
    if NextLink(clauses, a, b) {
      var i: nat, j: nat :| NextOf(clauses, i, j) && a == IdOf(clauses[i]) && b == IdOf(clauses[j]);
      assert SiblingLink(clauses, i, Link(a, b, NextSibling));
    }
  }

  ghost predicate NextPath(clauses: seq<Clause>, path: seq<Node>) {
    |path| > 1 ==> NextLink(clauses, path[0], path[1]) && NextPath(clauses, path[1..])
  }

  /** Following next siblings comes back to an identifier. */
  ghost predicate Cyclic(clauses: seq<Clause>) {
    exists path :: |path| > 1 && NextPath(clauses, path) && path[0] == path[|path| - 1]
  }

  /** Clauses of one article have different identifiers. */
  ghost predicate SiblingsDiffer(clauses: seq<Clause>) {
    forall i, j | 0 <= i < j < |clauses| && Siblings(clauses[i], clauses[j]) :: IdOf(clauses[i]) != IdOf(clauses[j])
  }

  /** Where siblings differ, an identifier of an article stands for one position. */
  lemma SamePosition(clauses: seq<Clause>, i: nat, j: nat)
    requires IdentifiedByArticle(clauses) && SiblingsDiffer(clauses)
    requires i < |clauses| && j < |clauses| && IdOf(clauses[i]) == IdOf(clauses[j]) && clauses[i].article.Some?
    ensures i == j
  {
    assert clauses[i] in clauses && clauses[j] in clauses;
    assert Siblings(clauses[i], clauses[j]) && Siblings(clauses[j], clauses[i]);
  }

  /** An identifier has at most one next and at most one previous sibling. */
  lemma OneNextOnePrevious(clauses: seq<Clause>, a: Node, b: Node, a': Node, b': Node)
    requires IdentifiedByArticle(clauses) && SiblingsDiffer(clauses) && NextLink(clauses, a, b) && NextLink(clauses, a', b')
    ensures a == a' <==> b == b'
  {
    hide IdentifiedByArticle, SiblingsDiffer;
    var i: nat, j: nat :| NextOf(clauses, i, j) && a == IdOf(clauses[i]) && b == IdOf(clauses[j]);
    var i': nat, j': nat :| NextOf(clauses, i', j') && a' == IdOf(clauses[i']) && b' == IdOf(clauses[j']);
    OneSuccessorOnePredecessor(clauses, i, j, i', j');
    hide NextOf;
    assert clauses[i].article.Some? && clauses[j].article.Some? by { SiblingArticles(clauses, i, j); }
    if a == a' { SamePosition(clauses, i, i'); }
    if b == b' { SamePosition(clauses, j, j'); }
  }

  lemma SiblingArticles(clauses: seq<Clause>, i: nat, j: nat)
    requires NextOf(clauses, i, j)
    ensures i < j < |clauses| && Siblings(clauses[i], clauses[j]) && clauses[i].article.Some? && clauses[j].article.Some?
  {
  }

  /** A path of identifiers climbs through the positions of one article. */
  lemma {:induction false} PathClimbs(clauses: seq<Clause>, path: seq<Node>, i: nat) returns (j: nat)
    requires IdentifiedByArticle(clauses) && SiblingsDiffer(clauses) && |path| > 1 && NextPath(clauses, path)
    requires i < |clauses| && path[0] == IdOf(clauses[i])
    ensures i < j < |clauses| && path[|path| - 1] == IdOf(clauses[j]) && Siblings(clauses[i], clauses[j])
    decreases |path|
  {
    hide IdentifiedByArticle, SiblingsDiffer;
    assert NextLink(clauses, path[0], path[1]);
    var start: nat, next: nat :| NextOf(clauses, start, next) && path[0] == IdOf(clauses[start]) && path[1] == IdOf(clauses[next]);
    SiblingArticles(clauses, start, next);
    SamePosition(clauses, start, i);
    j := next;
    if |path| > 2 {
      j := PathClimbs(clauses, path[1..], next);
    }
  }

  /** Following positions from `i` to `j` gives a path of identifiers. */
  lemma {:induction false} PathBetween(clauses: seq<Clause>, i: nat, j: nat) returns (path: seq<Node>)
    requires i < j < |clauses| && LeadsTo(clauses, i, j)
    ensures |path| > 1 && NextPath(clauses, path) && path[0] == IdOf(clauses[i]) && path[|path| - 1] == IdOf(clauses[j])
    decreases j - i
  {
    var k :| i < k <= j && NextOf(clauses, i, k) && LeadsTo(clauses, k, j);
    hide NextOf, LeadsTo;
    assert NextLink(clauses, IdOf(clauses[i]), IdOf(clauses[k]));
    if k == j {
      path := [IdOf(clauses[i]), IdOf(clauses[j])];
    } else {
      var rest := PathBetween(clauses, k, j);
      path := [IdOf(clauses[i])] + rest;
      assert path[1..] == rest;
    }
  }

  /** Over identifiers the next siblings have no cycle exactly when the clauses of each article have
      different identifiers, that is, differ in their structural key or their text. */
  lemma AcyclicIff(clauses: seq<Clause>)
    requires IdentifiedByArticle(clauses)
    ensures !Cyclic(clauses) <==> SiblingsDiffer(clauses)
  {
    hide IdentifiedByArticle, SiblingsDiffer, NextOf, LeadsTo, NextPath;
    if SiblingsDiffer(clauses) && Cyclic(clauses) {
      var path :| |path| > 1 && NextPath(clauses, path) && path[0] == path[|path| - 1];
      NoCycle(clauses, path);
    }
    if !SiblingsDiffer(clauses) {
      var i, j := EqualSiblings(clauses);
      SiblingsFormAPath(clauses, i, j);
      var path := PathBetween(clauses, i, j);
    }
  }

  lemma {:induction false} NoCycle(clauses: seq<Clause>, path: seq<Node>)
    requires IdentifiedByArticle(clauses) && SiblingsDiffer(clauses) && |path| > 1 && NextPath(clauses, path)
    ensures path[0] != path[|path| - 1]
  {
    assert NextLink(clauses, path[0], path[1]);
    var i: nat, k: nat :| NextOf(clauses, i, k) && path[0] == IdOf(clauses[i]) && path[1] == IdOf(clauses[k]);
    var j := PathClimbs(clauses, path, i);
  }

  lemma EqualSiblings(clauses: seq<Clause>) returns (i: nat, j: nat)
    requires !SiblingsDiffer(clauses)
    ensures i < j < |clauses| && Siblings(clauses[i], clauses[j]) && IdOf(clauses[i]) == IdOf(clauses[j])
  {
    i, j :| 0 <= i < j < |clauses| && Siblings(clauses[i], clauses[j]) && IdOf(clauses[i]) == IdOf(clauses[j]);
  }

  // ---------------------------------------------------------------- an article that comes twice

  function Repeated(id: string): Row {
    Row("r", id, "1 t", Shape(None, Some(Heading("1", "", "t")), None, None, None, None))
  }

  /** Two elements that repeat one article yield two clauses of one identifier, next sibling of itself. */
  lemma RepeatedArticle()
    ensures var clauses := EmitAll(RunAll([Repeated("x"), Repeated("y")]).builders);
            |clauses| == 2 && NextLink(clauses, IdOf(clauses[0]), IdOf(clauses[0])) && Cyclic(clauses)
  {
    var rows := [Repeated("x"), Repeated("y")];
    var clauses := EmitAll(RunAll(rows).builders);
    TwoArticles(rows);
    assert NextOf(clauses, 0, 1);
    assert NextLink(clauses, IdOf(clauses[0]), IdOf(clauses[0]));
    hide NextLink, NextOf;
    var path := [IdOf(clauses[0]), IdOf(clauses[0])];
    assert NextPath(clauses, path);
  }

  lemma TwoArticles(rows: seq<Row>)
    requires rows == [Repeated("x"), Repeated("y")]
    ensures var clauses := EmitAll(RunAll(rows).builders);
            |clauses| == 2 && Siblings(clauses[0], clauses[1]) && IdOf(clauses[0]) == IdOf(clauses[1])
  {
    assert NonBlank(rows[..1]) == [rows[0]] by { assert NonBlank([]) == []; assert rows[..1][..0] == []; }
    assert NonBlank(rows) == rows;
    assert ParagraphParts("t") == [] by { assert !IsMarker("t"[0]) && NextMarker("t", 1) == 1 && NextMarker("t", 0) == 1; }
    assert Run(rows, 0) == START;
    var one, two := Run(rows, 1), Run(rows, 2);
    hide ParagraphParts;
    assert one == Consider(START, rows[0]) && |one.builders| == 1;
    assert two == Consider(one, rows[1]) && |two.builders| == 2;
  }
}

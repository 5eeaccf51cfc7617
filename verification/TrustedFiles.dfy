/** The filesystem trust boundary: paths are walked component by component, and a link anywhere on
    the way is refused before anything is resolved. */
module TrustedFiles {
  import opened Options

  /** An absolute path, component by component; the root is empty. */
  type Path = seq<string>

  /** Links may lead anywhere; a reparse point is a directory or file that redirects. */
  datatype Node = Directory | File | Other | Link(target: Path) | Reparse(target: Path)

  type Tree = map<Path, Node>

  /** The root is a directory, and whatever exists lies in a directory. */
  ghost predicate WellFormed(tree: Tree) {
    && [] in tree && tree[[]].Directory?
    && forall p | p in tree && p != [] :: p[..|p| - 1] in tree && tree[p[..|p| - 1]].Directory?
  }

  const LINK_BUDGET: nat := 40

  /** Resolution by the operating system: `base` is resolved, `rest` is not; links are followed. */
  function Resolve(tree: Tree, base: Path, rest: Path, budget: nat): Option<Path>
    decreases budget, |rest|
  {
    if rest == [] then (if base in tree then Some(base) else None)
    else
      var next := base + [rest[0]];
      if next !in tree then None
      else
        match tree[next]
        case Link(target) => if budget == 0 then None else Resolve(tree, [], target + rest[1..], budget - 1)
        case Reparse(target) => if budget == 0 then None else Resolve(tree, [], target + rest[1..], budget - 1)
        case Directory => Resolve(tree, next, rest[1..], budget)
        case _ => if |rest| == 1 then Some(next) else None
  }

  /** The status of a path itself: links before the last component are followed, the last is not. */
  function Lstat(tree: Tree, path: Path): Option<Node> {
    if path == [] then Some(Directory)
    else
      var parent := Resolve(tree, [], path[..|path| - 1], LINK_BUDGET);
      if parent.None? || parent.value + [path[|path| - 1]] !in tree then None else Some(tree[parent.value + [path[|path| - 1]]])
  }

  /** Every component of the path is a directory in its own right. */
  predicate PlainDirectory(tree: Tree, path: Path, n: nat)
    requires n <= |path|
  {
    forall i | 1 <= i <= n :: path[..i] in tree && tree[path[..i]].Directory?
  }

  lemma {:induction false} ResolvePlain(tree: Tree, path: Path, n: nat, budget: nat)
    requires WellFormed(tree) && n <= |path| && PlainDirectory(tree, path, n)
    ensures Resolve(tree, path[..n], path[n..], budget) == Resolve(tree, [], path, budget)
  {
    if n == 0 {
      assert path[..0] == [] && path[0..] == path;
    } else {
      ResolvePlain(tree, path, n - 1, budget);
      assert path[..n - 1] + [path[n - 1..][0]] == path[..n];
      assert path[n - 1..][1..] == path[n..];
    }
  }

  /** Below plain directories the status of a path is its own entry. */
  lemma LstatPlain(tree: Tree, path: Path)
    requires WellFormed(tree) && path != [] && PlainDirectory(tree, path, |path| - 1)
    ensures Lstat(tree, path) == if path in tree then Some(tree[path]) else None
  {
    hide Resolve;
    var parent := path[..|path| - 1];
    ParentIsPlain(tree, path);
    ResolvePlain(tree, parent, |parent|, LINK_BUDGET);
    assert parent[..|parent|] == parent && parent[|parent|..] == [];
    ResolvedAlready(tree, parent, LINK_BUDGET);
    assert parent + [path[|path| - 1]] == path;
  }

  lemma {:induction false} ResolvedAlready(tree: Tree, path: Path, budget: nat)
    ensures Resolve(tree, path, [], budget) == if path in tree then Some(path) else None
  {
  }

  lemma ParentIsPlain(tree: Tree, path: Path)
    requires WellFormed(tree) && path != [] && PlainDirectory(tree, path, |path| - 1)
    ensures var parent := path[..|path| - 1]; PlainDirectory(tree, parent, |parent|) && parent in tree
  {
    var parent := path[..|path| - 1];
    forall i | 1 <= i <= |parent|
      ensures parent[..i] in tree && tree[parent[..i]].Directory?
    {
      assert parent[..i] == path[..i];
    }
    if parent != [] { assert parent[..|parent|] == parent; }
  }

  lemma {:induction false} ResolveToItself(tree: Tree, path: Path)
    requires WellFormed(tree) && path in tree && (path == [] || PlainDirectory(tree, path, |path| - 1))
    requires !tree[path].Link? && !tree[path].Reparse?
    ensures Resolve(tree, [], path, LINK_BUDGET) == Some(path)
  {
    if path != [] {
      ResolvePlain(tree, path, |path| - 1, LINK_BUDGET);
      assert path[..|path| - 1] + [path[|path| - 1..][0]] == path;
      assert path[|path| - 1..][1..] == [];
    }
  }

  // ---------------------------------------------------------------- verified reading

  datatype Verified = Ok(path: Path) | NotFound | LinkRefused | WrongKind | InvalidComponent | Escaped | AlreadyExists

  /** The first component, from `i` on, that is not a plain directory. */
  function FirstObstacle(tree: Tree, path: Path, i: nat): (k: nat)
    requires i <= |path|
    ensures i <= k <= |path|
    ensures forall j | i < j <= k :: path[..j] in tree && tree[path[..j]].Directory?
    ensures k < |path| ==> !(path[..k + 1] in tree && tree[path[..k + 1]].Directory?)
    decreases |path| - i
  {
    if i < |path| && path[..i + 1] in tree && tree[path[..i + 1]].Directory? then FirstObstacle(tree, path, i + 1) else i
  }

  function ObstacleAt(tree: Tree, path: Path): Verified {
    if path !in tree then NotFound
    else if tree[path].Link? || tree[path].Reparse? then LinkRefused
    else WrongKind
  }

  function DirectoryCheck(tree: Tree, path: Path): (verified: Verified)
    ensures verified.Ok? <==> PlainDirectory(tree, path, |path|)
  {
    var k := FirstObstacle(tree, path, 0);
    if k == |path| then Ok(path) else ObstacleAt(tree, path[..k + 1])
  }

  /** One more component: its status is its own entry, and a directory extends the plain path. */
  lemma NextComponent(tree: Tree, path: Path, i: nat)
    requires WellFormed(tree) && i < |path| && PlainDirectory(tree, path, i)
    ensures Lstat(tree, path[..i + 1]) == if path[..i + 1] in tree then Some(tree[path[..i + 1]]) else None
    ensures PlainDirectory(tree, path, i + 1) <==> path[..i + 1] in tree && tree[path[..i + 1]].Directory?
    ensures FirstObstacle(tree, path, i) == if PlainDirectory(tree, path, i + 1) then FirstObstacle(tree, path, i + 1) else i
  {
    var component := path[..i + 1];
    assert forall j | 1 <= j <= i :: component[..j] == path[..j];
    LstatPlain(tree, component);
  }

  method VerifiedRegularDirectory(tree: Tree, path: Path) returns (verified: Verified)
    requires WellFormed(tree)
    ensures verified == DirectoryCheck(tree, path)
  {
    for i := 0 to |path|
      invariant PlainDirectory(tree, path, i) && FirstObstacle(tree, path, 0) == FirstObstacle(tree, path, i)
    {
      NextComponent(tree, path, i);
      var component := path[..i + 1];
      var status := Lstat(tree, component);
      if status.None? { return NotFound; }
      if status.value.Link? || status.value.Reparse? { return LinkRefused; }
      if !status.value.Directory? { return WrongKind; }
    }
    if path != [] { assert path[..|path|] == path; }
    ResolveToItself(tree, path);
    var resolved := Resolve(tree, [], path, LINK_BUDGET);
    if resolved.None? { return NotFound; }
    if !tree[resolved.value].Directory? { return WrongKind; }
    return Ok(resolved.value);
  }

  /** What stands at the first place of the walk that is no plain directory. */
  ghost predicate StopsAt(tree: Tree, path: Path, from: nat, n: nat) {
    from <= n < |path| && PlainDirectory(tree, path, n)
  }

  ghost predicate MissingOnWay(tree: Tree, path: Path, from: nat) {
    exists n: nat :: StopsAt(tree, path, from, n) && path[..n + 1] !in tree
  }

  ghost predicate LinkOnWay(tree: Tree, path: Path, from: nat) {
    exists n: nat :: StopsAt(tree, path, from, n) && path[..n + 1] in tree && (tree[path[..n + 1]].Link? || tree[path[..n + 1]].Reparse?)
  }

  lemma {:induction false} ObstacleIsThere(tree: Tree, path: Path, from: nat)
    requires from <= |path| && PlainDirectory(tree, path, from)
    ensures var k := FirstObstacle(tree, path, from);
            && PlainDirectory(tree, path, k)
            && forall n | from <= n < |path| && PlainDirectory(tree, path, n) && !(path[..n + 1] in tree && tree[path[..n + 1]].Directory?) :: n == k
  {
  }

  /** Which refusal a path gets: the kind of what stands at the first place that is no directory. */
  lemma DirectoryRefusals(tree: Tree, path: Path)
    ensures DirectoryCheck(tree, path).NotFound? <==> MissingOnWay(tree, path, 0)
    ensures DirectoryCheck(tree, path).LinkRefused? <==> LinkOnWay(tree, path, 0)
    ensures DirectoryCheck(tree, path).Ok? || DirectoryCheck(tree, path).NotFound? || DirectoryCheck(tree, path).LinkRefused?
            || DirectoryCheck(tree, path).WrongKind?
  {
    ObstacleIsThere(tree, path, 0);
    var k := FirstObstacle(tree, path, 0);
    hide FirstObstacle, PlainDirectory;
    if k < |path| { assert StopsAt(tree, path, 0, k); }
  }

  predicate ValidComponent(part: string) {
    part != "" && part != "." && part != ".." && '/' !in part && '\\' !in part
  }

  predicate ValidParts(parts: seq<string>) { parts != [] && forall part | part in parts :: ValidComponent(part) }

  /** A file below `root` reached through directories only. */
  predicate PlainFile(tree: Tree, root: Path, parts: seq<string>) {
    && PlainDirectory(tree, root + parts, |root + parts| - (if parts == [] then 0 else 1))
    && root + parts in tree && tree[root + parts].File?
  }

  /** The first component of `path`, from `i` on, that is not of the kind it must be: a directory
      before the end, a file at the end. */
  function FirstMisfit(tree: Tree, path: Path, i: nat): (k: nat)
    requires i <= |path|
    ensures i <= k <= |path|
    decreases |path| - i
  {
    if i < |path| && path[..i + 1] in tree && (if i + 1 < |path| then tree[path[..i + 1]].Directory? else tree[path[..i + 1]].File?)
    then FirstMisfit(tree, path, i + 1) else i
  }

  function FileCheck(tree: Tree, root: Path, parts: seq<string>): Verified {
    if !DirectoryCheck(tree, root).Ok? then DirectoryCheck(tree, root)
    else if !ValidParts(parts) then InvalidComponent
    else FileFound(tree, root + parts, FirstMisfit(tree, root + parts, |root|))
  }

  function FileFound(tree: Tree, whole: Path, k: nat): Verified
    requires k <= |whole|
  {
    if k == |whole| then Ok(whole) else ObstacleAt(tree, whole[..k + 1])
  }

  method VerifiedRegularFileBelow(tree: Tree, root: Path, parts: seq<string>) returns (verified: Verified)
    requires WellFormed(tree)
    ensures verified == FileCheck(tree, root, parts)
  {
    verified := VerifiedRegularDirectory(tree, root);
    if !verified.Ok? { return; }
    if !ValidParts(parts) { return InvalidComponent; }
    RootIsPlain(tree, root, parts);
    verified := FindFile(tree, root, parts);
  }

  method FindFile(tree: Tree, root: Path, parts: seq<string>) returns (verified: Verified)
    requires WellFormed(tree) && PlainDirectory(tree, root + parts, |root|) && parts != []
    ensures verified == FileFound(tree, root + parts, FirstMisfit(tree, root + parts, |root|))
  {
    hide PlainDirectory, Lstat, FirstMisfit, WellFormed, FirstObstacle, Resolve;
    ghost var whole := root + parts;
    StartPath(root, parts);
    var current := root;
    for index := 0 to |parts|
      invariant current == whole[..|root| + index]
      invariant index < |parts| ==> PlainDirectory(tree, whole, |root| + index)
      invariant index == |parts| ==> PlainDirectory(tree, whole, |whole| - 1) && whole in tree && tree[whole].File?
      invariant FirstMisfit(tree, whole, |root|) == FirstMisfit(tree, whole, |root| + index)
    {
      NextComponent(tree, whole, |root| + index);
      NextMisfit(tree, whole, |root| + index);
      NextPath(root, parts, index);
      current := current + [parts[index]];
      var status := Lstat(tree, current);
      if status.None? { return NotFound; }
      if status.value.Link? || status.value.Reparse? { return LinkRefused; }
      if index < |parts| - 1 {
        if !status.value.Directory? { return WrongKind; }
      } else if !status.value.File? {
        return WrongKind;
      }
    }
    NextMisfit(tree, whole, |whole| - 1);
    ResolveToItself(tree, whole);
    var resolved := Resolve(tree, [], current, LINK_BUDGET);
    if resolved.None? { return NotFound; }
    if !(root <= resolved.value) { return Escaped; }
    return Ok(resolved.value);
  }

  lemma StartPath(root: Path, parts: seq<string>)
    ensures (root + parts)[..|root|] == root && (root + parts)[..|root + parts|] == root + parts
  {
  }

  lemma NextPath(root: Path, parts: seq<string>, index: nat)
    requires index < |parts|
    ensures (root + parts)[..|root| + index] + [parts[index]] == (root + parts)[..|root| + index + 1]
    ensures (root + parts)[..|root| + index + 1] + parts[index + 1..] == root + parts
    ensures index + 1 == |parts| ==> (root + parts)[..|root| + index + 1] == root + parts
  {
  }

  lemma NextMisfit(tree: Tree, path: Path, i: nat)
    requires i < |path|
    ensures var fits := path[..i + 1] in tree && (if i + 1 < |path| then tree[path[..i + 1]].Directory? else tree[path[..i + 1]].File?);
            FirstMisfit(tree, path, i) == if fits then FirstMisfit(tree, path, i + 1) else i
    ensures FirstMisfit(tree, path, |path|) == |path|
  {
  }

  lemma RootIsPlain(tree: Tree, root: Path, parts: seq<string>)
    requires PlainDirectory(tree, root, |root|)
    ensures PlainDirectory(tree, root + parts, |root|)
  {
    var whole := root + parts;
    assert forall i | 1 <= i <= |root| :: whole[..i] == root[..i];
  }

  lemma {:induction false} MisfitMeans(tree: Tree, path: Path, i: nat)
    requires i < |path| && PlainDirectory(tree, path, i)
    ensures FirstMisfit(tree, path, i) == |path| <==> PlainDirectory(tree, path, |path| - 1) && path in tree && tree[path].File?
    decreases |path| - i
  {
    assert path[..|path|] == path;
    if i + 1 < |path| && path[..i + 1] in tree && tree[path[..i + 1]].Directory? { MisfitMeans(tree, path, i + 1); }
  }

  /** The walk returns exactly `root / parts`, and only when every component on the way is a directory
      and the last a regular file; nothing ever escapes the root. */
  lemma FileBelowMeans(tree: Tree, root: Path, parts: seq<string>)
    requires WellFormed(tree)
    ensures FileCheck(tree, root, parts).Ok? <==> PlainDirectory(tree, root, |root|) && ValidParts(parts) && PlainFile(tree, root, parts)
    ensures FileCheck(tree, root, parts).Ok? ==> FileCheck(tree, root, parts).path == root + parts
    ensures !FileCheck(tree, root, parts).Escaped? && !FileCheck(tree, root, parts).AlreadyExists?
  {
    if PlainDirectory(tree, root, |root|) && ValidParts(parts) {
      RootIsPlain(tree, root, parts);
      MisfitMeans(tree, root + parts, |root|);
    }
  }

  lemma {:induction false} MisfitIsThere(tree: Tree, path: Path, from: nat)
    requires from <= |path| && PlainDirectory(tree, path, from)
    ensures var k := FirstMisfit(tree, path, from);
            && (k < |path| ==> PlainDirectory(tree, path, k) && !(path[..k + 1] in tree && Fits(tree[path[..k + 1]], k + 1 == |path|)))
            && (forall n | from <= n < |path| && PlainDirectory(tree, path, n)
                           && !(path[..n + 1] in tree && Fits(tree[path[..n + 1]], n + 1 == |path|)) :: n == k)
    decreases |path| - from
  {
    if FirstMisfit(tree, path, from) != from && from + 1 < |path| { MisfitIsThere(tree, path, from + 1); }
  }

  predicate Fits(node: Node, last: bool) { if last then node.File? else node.Directory? }

  /** Which refusal a file gets: a bad component before anything below the root is looked at, then the
      kind of what stands at the first place that is not what it must be. */
  lemma FileRefusals(tree: Tree, root: Path, parts: seq<string>)
    ensures var rooted, check := PlainDirectory(tree, root, |root|), FileCheck(tree, root, parts);
            var valid := parts != [] && forall part | part in parts ::
              part != "" && part != "." && part != ".." && '/' !in part && '\\' !in part;
            && (check.InvalidComponent? <==> rooted && !valid)
            && (check.NotFound? <==> MissingOnWay(tree, root, 0) || (rooted && valid && MissingOnWay(tree, root + parts, |root|)))
            && (check.LinkRefused? <==> LinkOnWay(tree, root, 0) || (rooted && valid && LinkOnWay(tree, root + parts, |root|)))
  {
    DirectoryRefusals(tree, root);
    if PlainDirectory(tree, root, |root|) { RootOrObstacle(tree, root); }
    if PlainDirectory(tree, root, |root|) && ValidParts(parts) {
      var whole := root + parts;
      RootIsPlain(tree, root, parts);
      MisfitIsThere(tree, whole, |root|);
      var k := FirstMisfit(tree, whole, |root|);
      hide FirstMisfit, PlainDirectory, DirectoryCheck;
      if k < |whole| { assert StopsAt(tree, whole, |root|, k); }
    }
  }

  /** Nothing on the way to a plain directory is missing or a link. */
  lemma RootOrObstacle(tree: Tree, root: Path)
    requires PlainDirectory(tree, root, |root|)
    ensures !MissingOnWay(tree, root, 0) && !LinkOnWay(tree, root, 0)
  {
  }

  // ---------------------------------------------------------------- verified creation

  function CreateCheck(tree: Tree, root: Path, parts: seq<string>): Verified {
    if !DirectoryCheck(tree, root).Ok? then DirectoryCheck(tree, root)
    else if !ValidParts(parts) then InvalidComponent
    else
      CreateBelow(tree, root + parts, FirstObstacle(tree, root + parts, |root|))
  }

  function CreateBelow(tree: Tree, whole: Path, k: nat): Verified
    requires k <= |whole|
  {
    if k == |whole| then AlreadyExists
    else if whole[..k + 1] !in tree then Ok(whole)
    else if tree[whole[..k + 1]].Link? || tree[whole[..k + 1]].Reparse? then LinkRefused
    else if k + 1 == |whole| then AlreadyExists
    else WrongKind
  }

  method VerifiedCreateTargetBelow(tree: Tree, root: Path, parts: seq<string>) returns (verified: Verified)
    requires WellFormed(tree)
    ensures verified == CreateCheck(tree, root, parts)
  {
    verified := VerifiedRegularDirectory(tree, root);
    if !verified.Ok? { return; }
    if !ValidParts(parts) { return InvalidComponent; }
    RootIsPlain(tree, root, parts);
    verified := FindCreateTarget(tree, root, parts);
  }

  method FindCreateTarget(tree: Tree, root: Path, parts: seq<string>) returns (verified: Verified)
    requires WellFormed(tree) && PlainDirectory(tree, root + parts, |root|) && parts != []
    ensures verified == CreateBelow(tree, root + parts, FirstObstacle(tree, root + parts, |root|))
  {
    ghost var whole := root + parts;
    hide PlainDirectory, Lstat, WellFormed, FirstObstacle;
    StartPath(root, parts);
    var current := root;
    for index := 0 to |parts|
      invariant index < |parts|
      invariant current == whole[..|root| + index]
      invariant PlainDirectory(tree, whole, |root| + index)
      invariant FirstObstacle(tree, whole, |root|) == FirstObstacle(tree, whole, |root| + index)
    {
      NextComponent(tree, whole, |root| + index);
      NextPath(root, parts, index);
      current := current + [parts[index]];
      var status := Lstat(tree, current);
      if status.None? {
        return Ok(current + parts[index + 1..]);
      }
      if status.value.Link? || status.value.Reparse? { return LinkRefused; }
      if index < |parts| - 1 {
        if !status.value.Directory? { return WrongKind; }
      } else {
        return AlreadyExists;
      }
    }
  }

  lemma {:induction false} MissingBelow(tree: Tree, path: Path, k: nat, n: nat)
    requires WellFormed(tree) && k <= n <= |path| && path[..k] !in tree
    ensures path[..n] !in tree
  {
    if k < n {
      MissingBelow(tree, path, k, n - 1);
      assert path[..n][..n - 1] == path[..n - 1];
    }
  }

  /** A target may be created exactly when the walk meets directories only until a component that is
      missing; the target itself is then missing too. */
  lemma CreateTargetMeans(tree: Tree, root: Path, parts: seq<string>)
    requires WellFormed(tree)
    ensures CreateCheck(tree, root, parts).Ok? <==>
              && PlainDirectory(tree, root, |root|) && ValidParts(parts)
              && exists k | |root| < k <= |root + parts| :: PlainDirectory(tree, root + parts, k - 1) && (root + parts)[..k] !in tree
    ensures CreateCheck(tree, root, parts).Ok? ==>
              CreateCheck(tree, root, parts).path == root + parts && root + parts !in tree
  {
    var whole := root + parts;
    if PlainDirectory(tree, root, |root|) && ValidParts(parts) {
      RootIsPlain(tree, root, parts);
      var k := FirstObstacle(tree, whole, |root|);
      assert PlainDirectory(tree, whole, k);
      if k < |whole| && whole[..k + 1] !in tree {
        MissingBelow(tree, whole, k + 1, |whole|);
        assert whole[..|whole|] == whole;
        assert PlainDirectory(tree, whole, k + 1 - 1) && whole[..k + 1] !in tree;
      }
    }
  }

  /** Which refusal a target gets: what exists is refused where the walk stops, as a link, as something
      that is no directory, or as the target itself. */
  lemma CreateRefusals(tree: Tree, root: Path, parts: seq<string>)
    requires WellFormed(tree) && PlainDirectory(tree, root, |root|) && ValidParts(parts)
    ensures var whole, check := root + parts, CreateCheck(tree, root, parts);
            && (check.LinkRefused? <==> LinkOnWay(tree, whole, |root|))
            && (check.AlreadyExists? <==> PlainDirectory(tree, whole, |whole| - 1) && whole in tree && !tree[whole].Link? && !tree[whole].Reparse?)
            && (check.Ok? || check.LinkRefused? || check.AlreadyExists? || check.WrongKind?)
  {
    hide PlainDirectory, FirstObstacle, WellFormed, ValidComponent;
    var whole := root + parts;
    RootIsPlain(tree, root, parts);
    PlainIsOk(tree, root);
    StopOfCreation(tree, whole, |root|);
  }

  lemma PlainIsOk(tree: Tree, root: Path)
    requires PlainDirectory(tree, root, |root|)
    ensures DirectoryCheck(tree, root).Ok?
  {
  }

  lemma {:induction false} StopOfCreation(tree: Tree, whole: Path, from: nat)
    requires from < |whole| && PlainDirectory(tree, whole, from)
    ensures var check := CreateBelow(tree, whole, FirstObstacle(tree, whole, from));
            && (check.LinkRefused? <==> LinkOnWay(tree, whole, from))
            && (check.AlreadyExists? <==> PlainDirectory(tree, whole, |whole| - 1) && whole in tree && !tree[whole].Link? && !tree[whole].Reparse?)
            && (check.Ok? || check.LinkRefused? || check.AlreadyExists? || check.WrongKind?)
  {
    ObstacleIsThere(tree, whole, from);
    var k := FirstObstacle(tree, whole, from);
    assert whole[..|whole|] == whole;
    LastIsPlain(tree, whole, k);
    hide FirstObstacle, PlainDirectory;
    if k < |whole| { assert StopsAt(tree, whole, from, k); }
  }

  /** All but the last component are directories exactly when the walk stops at the last, or not at all. */
  lemma LastIsPlain(tree: Tree, path: Path, k: nat)
    requires path != [] && k <= |path| && PlainDirectory(tree, path, k)
    requires k < |path| ==> !(path[..k + 1] in tree && tree[path[..k + 1]].Directory?)
    ensures PlainDirectory(tree, path, |path| - 1) <==> k + 1 >= |path|
  {
  }

  // ---------------------------------------------------------------- creating missing directories

  /** The tree with every missing directory on the way to `path` added. */
  function WithDirectories(tree: Tree, path: Path, n: nat): Tree
    requires n <= |path|
  {
    if n == 0 then tree
    else
      var before := WithDirectories(tree, path, n - 1);
      if path[..n] in before then before else before[path[..n] := Directory]
  }

  class FileSystem {
    var tree: Tree

    constructor (tree: Tree)
      ensures this.tree == tree
    {
      this.tree := tree;
    }

    /** A directory is created only in an existing directory, and never over anything. */
    method MakeDirectory(path: Path) returns (ok: bool)
      modifies this
      ensures ok <==> path != [] && path !in old(tree) && path[..|path| - 1] in old(tree) && old(tree)[path[..|path| - 1]].Directory?
      ensures tree == if ok then old(tree)[path := Directory] else old(tree)
    {
      ok := path != [] && path !in tree && path[..|path| - 1] in tree && tree[path[..|path| - 1]].Directory?;
      if ok { tree := tree[path := Directory]; }
    }

    /** Climbs to the nearest verified directory, then creates what is missing below it. */
    method CreateVerifiedDirectory(path: Path) returns (verified: Verified)
      requires WellFormed(tree)
      modifies this
      ensures WellFormed(tree)
      ensures verified.Ok? <==> DirectoryCheck(old(tree), path).Ok? || DirectoryCheck(old(tree), path).NotFound?
      ensures verified.Ok? ==> verified.path == path && tree == WithDirectories(old(tree), path, |path|)
      ensures verified.Ok? ==> PlainDirectory(tree, path, |path|)
      ensures !verified.Ok? ==> tree == old(tree) && verified == DirectoryCheck(old(tree), path)
    {
      ghost var k := FirstObstacle(tree, path, 0);
      assert path[..|path|] == path;
      CheckPrefix(tree, path, |path|);
      hide DirectoryCheck, PlainDirectory, WellFormed, FirstObstacle;
      var current;
      verified, current := ClimbToDirectory(path);
      if !verified.Ok? { return; }
      CheckPrefix(tree, path, |current|);
      verified := CreateMissing(path, current, path[|current|..]);
    }

    /** The nearest ancestor that is not merely missing. */
    method ClimbToDirectory(path: Path) returns (verified: Verified, current: Path)
      requires WellFormed(tree)
      ensures FirstObstacle(tree, path, 0) <= |current| <= |path| && current == path[..|current|]
      ensures verified == DirectoryCheck(tree, current) && !verified.NotFound?
      ensures verified.Ok? || current == path
      ensures |current| < |path| ==> FirstObstacle(tree, path, 0) < |path| && path[..FirstObstacle(tree, path, 0) + 1] !in tree
    {
      hide DirectoryCheck, WellFormed, PlainDirectory, FirstObstacle;
      ghost var k := FirstObstacle(tree, path, 0);
      current := path;
      WholePrefixes(path, path, []);
      verified := VerifiedRegularDirectory(tree, current);
      while verified.NotFound?
        invariant k <= |current| <= |path| && current == path[..|current|]
        invariant verified == DirectoryCheck(tree, current)
        invariant verified.NotFound? || verified.Ok? || current == path
        invariant |current| < |path| ==> k < |path| && path[..k + 1] !in tree
        decreases |current|
      {
        ClimbOne(tree, path, |current|);
        current := current[..|current| - 1];
        verified := VerifiedRegularDirectory(tree, current);
      }
    }

    method CreateMissing(path: Path, current: Path, missing: seq<string>) returns (verified: Verified)
      requires WellFormed(tree) && current + missing == path && PlainDirectory(tree, path, |current|)
      requires missing != [] ==> path[..|current| + 1] !in tree
      modifies this
      ensures WellFormed(tree) && PlainDirectory(tree, path, |path|)
      ensures verified == Ok(path) && tree == WithDirectories(old(tree), path, |path|)
    {
      hide PlainDirectory, WellFormed, WithDirectories, DirectoryCheck;
      var made := current;
      NothingMissing(tree, path, |current|);
      WholePrefixes(path, current, missing);
      for i := |current| to |path|
        invariant made == path[..i] && WellFormed(tree) && PlainDirectory(tree, path, i)
        invariant tree == WithDirectories(old(tree), path, i)
        invariant i < |path| ==> path[..i + 1] !in tree
      {
        NextPrefix(path, current, missing, i);
        made := made + [missing[i - |current|]];
        OneMoreAdded(old(tree), path, i);
        MakeNext(path, i);
      }
      IsPlainDirectory(tree, path);
      verified := VerifiedRegularDirectory(tree, made);
    }

    method MakeNext(path: Path, i: nat)
      requires WellFormed(tree) && i < |path| && PlainDirectory(tree, path, i) && path[..i + 1] !in tree
      modifies this
      ensures tree == old(tree)[path[..i + 1] := Directory] && WellFormed(tree) && PlainDirectory(tree, path, i + 1)
      ensures i + 1 < |path| ==> path[..i + 2] !in tree
    {
      hide PlainDirectory, WellFormed;
      OneMoreDirectory(tree, path, i);
      var ok := MakeDirectory(path[..i + 1]);
    }
  }

  lemma WholePrefixes(path: Path, current: Path, missing: seq<string>)
    requires current + missing == path
    ensures path[..|current|] == current && path[..|path|] == path
  {
  }

  lemma NextPrefix(path: Path, current: Path, missing: seq<string>, i: nat)
    requires current + missing == path && |current| <= i < |path|
    ensures path[..i] + [missing[i - |current|]] == path[..i + 1]
  {
  }

  /** A missing directory is above the obstacle; what is missing is the obstacle itself. */
  lemma {:induction false} ClimbOne(tree: Tree, path: Path, n: nat)
    requires FirstObstacle(tree, path, 0) <= n <= |path| && DirectoryCheck(tree, path[..n]).NotFound?
    ensures var k := FirstObstacle(tree, path, 0);
            && k < n && path[..n][..n - 1] == path[..n - 1] && path[..k + 1] !in tree
            && (DirectoryCheck(tree, path[..n - 1]).Ok? || DirectoryCheck(tree, path[..n - 1]).NotFound?)
  {
    hide DirectoryCheck, PlainDirectory, FirstObstacle;
    CheckPrefix(tree, path, n);
    CheckPrefix(tree, path, n - 1);
    ShorterPrefix(path, n);
  }

  lemma ShorterPrefix(path: Path, n: nat)
    requires 0 < n <= |path|
    ensures path[..n][..n - 1] == path[..n - 1]
  {
  }

  lemma IsPlainDirectory(tree: Tree, path: Path)
    requires PlainDirectory(tree, path, |path|)
    ensures DirectoryCheck(tree, path) == Ok(path)
  {
  }

  lemma {:induction false} ObstacleOfPrefix(tree: Tree, path: Path, j: nat, i: nat)
    requires i <= j <= |path| && FirstObstacle(tree, path, i) <= j
    ensures FirstObstacle(tree, path[..j], i) == FirstObstacle(tree, path, i)
    decreases |path| - i
  {
    var k := FirstObstacle(tree, path, i);
    if i < k {
      assert path[..j][..i + 1] == path[..i + 1];
      ObstacleOfPrefix(tree, path, j, i + 1);
    } else if i < j {
      assert path[..j][..i + 1] == path[..i + 1];
    }
  }

  /** The check of a longer prefix stops at the same obstacle; the prefix before it passes. */
  lemma {:induction false} CheckPrefix(tree: Tree, path: Path, j: nat)
    requires FirstObstacle(tree, path, 0) <= j <= |path|
    ensures var k := FirstObstacle(tree, path, 0);
            && DirectoryCheck(tree, path[..j]) == (if j == k then Ok(path[..j]) else ObstacleAt(tree, path[..k + 1]))
            && PlainDirectory(tree, path, k)
  {
    ObstacleOfPrefix(tree, path, j, 0);
    var k := FirstObstacle(tree, path, 0);
    if k < j { assert path[..j][..k + 1] == path[..k + 1]; }
  }

  lemma {:induction false} NothingMissing(tree: Tree, path: Path, n: nat)
    requires n <= |path| && PlainDirectory(tree, path, n)
    ensures WithDirectories(tree, path, n) == tree
  {
    if n > 0 { NothingMissing(tree, path, n - 1); }
  }

  lemma OneMoreDirectory(tree: Tree, path: Path, i: nat)
    requires WellFormed(tree) && i < |path| && PlainDirectory(tree, path, i) && path[..i + 1] !in tree
    ensures var target, more := path[..i + 1], tree[path[..i + 1] := Directory];
            && target[..|target| - 1] in tree && tree[target[..|target| - 1]].Directory?
            && WellFormed(more) && PlainDirectory(more, path, i + 1)
            && (i + 1 < |path| ==> path[..i + 2] !in more)
  {
    var target, more := path[..i + 1], tree[path[..i + 1] := Directory];
    ParentOfPrefix(tree, path, i);
    if i + 1 < |path| {
      MissingBelow(tree, path, i + 1, i + 2);
      assert |path[..i + 2]| != |target|;
    }
    AddedKeepsTree(tree, target);
    forall j | 1 <= j <= i + 1
      ensures path[..j] in more && more[path[..j]].Directory?
    {
      assert |path[..j]| == j;
    }
    hide WellFormed;
  }

  lemma ParentOfPrefix(tree: Tree, path: Path, i: nat)
    requires WellFormed(tree) && i < |path| && PlainDirectory(tree, path, i)
    ensures var target := path[..i + 1]; target[..|target| - 1] in tree && tree[target[..|target| - 1]].Directory?
  {
    var target := path[..i + 1];
    assert target[..|target| - 1] == path[..i];
    if i == 0 { assert path[..0] == []; }
  }

  lemma AddedKeepsTree(tree: Tree, target: Path)
    requires WellFormed(tree) && target != [] && target !in tree
    requires target[..|target| - 1] in tree && tree[target[..|target| - 1]].Directory?
    ensures WellFormed(tree[target := Directory])
  {
  }

  lemma OneMoreAdded(tree: Tree, path: Path, i: nat)
    requires i < |path| && path[..i + 1] !in WithDirectories(tree, path, i)
    ensures WithDirectories(tree, path, i + 1) == WithDirectories(tree, path, i)[path[..i + 1] := Directory]
  {
  }

  /** Creating directories adds exactly the missing ones on the way and changes nothing else. */
  lemma {:induction false} OnlyMissingAdded(tree: Tree, path: Path, n: nat, p: Path)
    requires n <= |path|
    ensures p in WithDirectories(tree, path, n) <==> p in tree || exists i | 1 <= i <= n :: p == path[..i]
    ensures p in WithDirectories(tree, path, n) ==> WithDirectories(tree, path, n)[p] == if p in tree then tree[p] else Directory
  {
    if n > 0 {
      OnlyMissingAdded(tree, path, n - 1, p);
      OnlyMissingAdded(tree, path, n - 1, path[..n]);
    }
  }
}

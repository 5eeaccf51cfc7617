/** Validation of the dependencies between planned issues, by depth-first search. */
module IssueGraph {
  type Id = string

  datatype Issue = Issue(id: Id, dependsOn: seq<Id>)

  datatype Verdict = Accepted | SelfDependency(id: Id) | UnknownDependency(id: Id, dependency: Id) | DependencyCycle

  type Dependencies = map<Id, seq<Id>>

  /** Issues by identifier; a later issue wins. */
  function ById(issues: seq<Issue>): (byId: Dependencies)
    ensures forall id :: id in byId <==> exists i | 0 <= i < |issues| :: issues[i].id == id
    ensures forall id | id in byId :: exists i | 0 <= i < |issues| :: issues[i] == Issue(id, byId[id])
  {
    if issues == [] then map[]
    else
      var most, last := issues[..|issues| - 1], issues[|issues| - 1];
      assert forall i | 0 <= i < |most| :: issues[i] == most[i];
      ById(most)[last.id := last.dependsOn]
  }

  /** Each issue on the path depends on the next. */
  ghost predicate IsPath(deps: Dependencies, path: seq<Id>) {
    && |path| > 0
    && (forall i | 0 <= i < |path| :: path[i] in deps)
    && (forall i | 0 <= i < |path| - 1 :: path[i + 1] in deps[path[i]])
  }

  ghost predicate Cyclic(deps: Dependencies) {
    exists path :: IsPath(deps, path) && |path| > 1 && path[0] == path[|path| - 1]
  }

  ghost predicate Closed(deps: Dependencies) {
    forall id, d | id in deps && d in deps[id] :: d in deps
  }

  /** An order in which every dependency of a finished issue is finished before it. */
  ghost predicate Ranked(deps: Dependencies, rank: map<Id, nat>) {
    forall id | id in rank :: id in deps && forall d | d in deps[id] :: d in rank && rank[d] < rank[id]
  }

  lemma {:induction false} RanksFall(deps: Dependencies, rank: map<Id, nat>, path: seq<Id>, n: nat)
    requires Ranked(deps, rank) && IsPath(deps, path) && path[0] in rank && n < |path|
    ensures path[n] in rank && (n > 0 ==> rank[path[n]] < rank[path[0]])
  {
    if n > 0 {
      RanksFall(deps, rank, path, n - 1);
      assert path[n - 1 + 1] in deps[path[n - 1]];
    }
  }

  /** A complete order leaves no room for a cycle. */
  lemma RankedIsAcyclic(deps: Dependencies, rank: map<Id, nat>)
    requires Ranked(deps, rank) && rank.Keys == deps.Keys
    ensures !Cyclic(deps)
  {
    forall path | IsPath(deps, path) && |path| > 1
      ensures path[0] != path[|path| - 1]
    {
      RanksFall(deps, rank, path, |path| - 1);
    }
  }

  class Search {
    const deps: Dependencies
    var visiting: set<Id>
    var visited: set<Id>
    /** Ghost: the order in which visits finished. */
    ghost var rank: map<Id, nat>
    ghost var next: nat

    constructor (deps: Dependencies)
      ensures this.deps == deps && visiting == {} && visited == {} && rank == map[] && next == 0
    {
      this.deps := deps;
      visiting, visited, rank, next := {}, {}, map[], 0;
    }

    ghost predicate Valid()
      reads this
    {
      && Closed(deps) && visited == rank.Keys && Ranked(deps, rank)
      && (forall id | id in rank :: rank[id] < next)
      && visiting <= deps.Keys && visiting !! visited
    }

    /** `trail` leads from the first issue of the search to `id`; it holds the issues being visited. */
    ghost predicate OnTrail(trail: seq<Id>, id: Id)
      reads this
    {
      visiting == (set i | 0 <= i < |trail| :: trail[i]) && IsPath(deps, trail + [id])
    }

    method Visit(id: Id, ghost trail: seq<Id>) returns (ok: bool)
      requires Valid() && id in deps && OnTrail(trail, id)
      modifies this`visiting, this`visited, this`rank, this`next
      decreases deps.Keys - visiting
      ensures ok ==> Valid() && visiting == old(visiting) && old(visited) <= visited && id in visited
      ensures !ok ==> Cyclic(deps)
    {
      if id in visited { return true; }
      if id in visiting {
        ghost var k :| 0 <= k < |trail| && trail[k] == id;
        CycleFound(deps, trail, id, k);
        return false;
      }
      ghost var deeper := trail + [id];
      visiting := visiting + {id};
      TrailGrows(trail, id);
      for n := 0 to |deps[id]|
        invariant Valid() && visiting == old(visiting) + {id} && old(visited) <= visited
        invariant forall j | 0 <= j < n :: deps[id][j] in visited
      {
        assert IsPath(deps, deeper + [deps[id][n]]);
        ok := Visit(deps[id][n], deeper);
        if !ok { return; }
      }
      visiting := visiting - {id};
      visited := visited + {id};
      rank := rank[id := next];
      next := next + 1;
      ok := true;
    }
  }

  lemma TrailGrows(trail: seq<Id>, id: Id)
    ensures (set i | 0 <= i < |trail + [id]| :: (trail + [id])[i]) == (set i | 0 <= i < |trail| :: trail[i]) + {id}
  {
    var deeper := trail + [id];
    var before, after := set i | 0 <= i < |trail| :: trail[i], set i | 0 <= i < |deeper| :: deeper[i];
    forall x | x in before + {id}
      ensures x in after
    {
      if x == id { assert deeper[|trail|] == id; } else {
        var i :| 0 <= i < |trail| && trail[i] == x;
        assert deeper[i] == x;
      }
    }
  }

  /** Meeting an issue that is being visited closes a cycle. */
  lemma CycleFound(deps: Dependencies, trail: seq<Id>, id: Id, k: nat)
    requires IsPath(deps, trail + [id]) && k < |trail| && trail[k] == id
    ensures Cyclic(deps)
  {
    var cycle := trail[k..] + [id];
    forall i | 0 <= i < |cycle|
      ensures cycle[i] in deps
    {
      assert cycle[i] == (trail + [id])[k + i];
    }
    forall i | 0 <= i < |cycle| - 1
      ensures cycle[i + 1] in deps[cycle[i]]
    {
      assert (trail + [id])[k + i + 1] in deps[(trail + [id])[k + i]];
    }
    assert IsPath(deps, cycle);
  }

  // ---------------------------------------------------------------- the validation

  ghost predicate NoSelfDependency(issues: seq<Issue>) {
    forall i | 0 <= i < |issues| :: issues[i].id !in issues[i].dependsOn
  }

  ghost predicate AllKnown(issues: seq<Issue>) {
    forall i, d | 0 <= i < |issues| && d in issues[i].dependsOn :: d in ById(issues)
  }

  /** Accepts exactly the plans with no self-dependency, no unknown dependency and no cycle; an
      accepted plan comes with an order that respects every dependency. */
  method ValidateIssueGraph(issues: seq<Issue>) returns (verdict: Verdict, ghost rank: map<Id, nat>)
    ensures verdict.Accepted? <==> NoSelfDependency(issues) && AllKnown(issues) && !Cyclic(ById(issues))
    ensures verdict.Accepted? ==> Ranked(ById(issues), rank) && rank.Keys == ById(issues).Keys
    ensures verdict.DependencyCycle? ==> NoSelfDependency(issues) && AllKnown(issues)
    ensures verdict.SelfDependency? ==> exists i | 0 <= i < |issues| :: issues[i].id == verdict.id && verdict.id in issues[i].dependsOn
    ensures verdict.UnknownDependency? ==> verdict.dependency !in ById(issues)
    ensures verdict.UnknownDependency? ==> exists i | 0 <= i < |issues| ::
              issues[i].id == verdict.id && verdict.dependency in issues[i].dependsOn
  {
    hide ById, Ranked, Cyclic;
    rank := map[];
    verdict := CheckDependencies(issues, ById(issues));
    if verdict.Accepted? {
      var acyclic;
      acyclic, rank := SearchForCycles(issues, ById(issues));
      if !acyclic { verdict := DependencyCycle; }
    }
  }

  /** The checks on each single dependency. */
  method CheckDependencies(issues: seq<Issue>, byId: Dependencies) returns (verdict: Verdict)
    requires byId == ById(issues)
    ensures verdict.Accepted? || verdict.SelfDependency? || verdict.UnknownDependency?
    ensures verdict.Accepted? <==> NoSelfDependency(issues) && AllKnown(issues)
    ensures verdict.SelfDependency? ==> exists i | 0 <= i < |issues| :: issues[i].id == verdict.id && verdict.id in issues[i].dependsOn
    ensures verdict.UnknownDependency? ==> verdict.dependency !in byId
    ensures verdict.UnknownDependency? ==> exists i | 0 <= i < |issues| ::
              issues[i].id == verdict.id && verdict.dependency in issues[i].dependsOn
  {
    hide ById;
    for i := 0 to |issues|
      invariant forall j | 0 <= j < i :: issues[j].id !in issues[j].dependsOn
      invariant forall j, d | 0 <= j < i && d in issues[j].dependsOn :: d in byId
    {
      var issue := issues[i];
      for n := 0 to |issue.dependsOn|
        invariant forall k | 0 <= k < n :: issue.dependsOn[k] != issue.id && issue.dependsOn[k] in byId
      {
        if issue.dependsOn[n] == issue.id { return SelfDependency(issue.id); }
        if issue.dependsOn[n] !in byId { return UnknownDependency(issue.id, issue.dependsOn[n]); }
      }
    }
    verdict := Accepted;
  }

  lemma {:induction false} KnownIsClosed(issues: seq<Issue>)
    requires AllKnown(issues)
    ensures Closed(ById(issues))
  {
    var byId := ById(issues);
    forall id, d | id in byId && d in byId[id]
      ensures d in byId
    {
      var i :| 0 <= i < |issues| && issues[i] == Issue(id, byId[id]);
      assert d in issues[i].dependsOn;
    }
  }

  lemma NothingRanked(deps: Dependencies)
    ensures Ranked(deps, map[])
  {
  }

  lemma {:induction false} AllRanked(issues: seq<Issue>, byId: Dependencies, rank: map<Id, nat>)
    requires byId == ById(issues) && Ranked(byId, rank) && forall j | 0 <= j < |issues| :: issues[j].id in rank
    ensures rank.Keys == byId.Keys
  {
  }

  lemma {:induction false} StartOfSearch(byId: Dependencies, issues: seq<Issue>, i: nat)
    requires byId == ById(issues) && i < |issues|
    ensures issues[i].id in byId && IsPath(byId, [] + [issues[i].id])
  {
  }

  method SearchForCycles(issues: seq<Issue>, byId: Dependencies) returns (acyclic: bool, ghost rank: map<Id, nat>)
    requires byId == ById(issues) && AllKnown(issues)
    ensures acyclic <==> !Cyclic(byId)
    ensures acyclic ==> Ranked(byId, rank) && rank.Keys == byId.Keys
  {
    hide Ranked, Cyclic, Closed, IsPath, AllKnown, ById;
    KnownIsClosed(issues);
    var search := new Search(byId);
    assert search.Valid() by { NothingRanked(byId); }
    rank := map[];
    for i := 0 to |issues|
      invariant search.Valid() && search.visiting == {} && search.deps == byId
      invariant forall j | 0 <= j < i :: issues[j].id in search.visited
    {
      StartOfSearch(byId, issues, i);
      var ok := search.Visit(issues[i].id, []);
      if !ok { return false, rank; }
    }
    rank := search.rank;
    AllRanked(issues, byId, rank);
    RankedIsAcyclic(byId, rank);
    acyclic := true;
  }
}

/**
 The commits each step of a timeline adds (crates/adapters/src/releases.rs,
 `members`): a depth-first search from every step's end over a shared set of
 seen commits.
 */
module Members {
  import opened Wrappers
  import opened Releases

  type Graph = map<Commit, seq<Commit>>

  datatype Node = Node(sha: Commit, parents: seq<Commit>)

  /** A commit of a compare as the provider lists it; a parent without a valid id is `None`. */
  datatype Listed = Listed(sha: Commit, parents: seq<Option<Commit>>)

  function ValidParents(parents: seq<Option<Commit>>): seq<Commit> {
    if parents == [] then []
    else (if parents[0].Some? then [parents[0].value] else []) + ValidParents(parents[1..])
  }

  /** What the path is read from: each commit with its first parent. */
  function RangeOf(commits: seq<Listed>): seq<Ranged> {
    seq(|commits|, i requires 0 <= i < |commits| =>
      Ranged(commits[i].sha, if commits[i].parents == [] then None else commits[i].parents[0]))
  }

  /** What the search reads: each commit with all its parents. */
  function NodesOf(commits: seq<Listed>): seq<Node> {
    seq(|commits|, i requires 0 <= i < |commits| => Node(commits[i].sha, ValidParents(commits[i].parents)))
  }

  function GraphOf(range: seq<Node>): Graph {
    if range == [] then map[]
    else GraphOf(range[..|range| - 1])[range[|range| - 1].sha := range[|range| - 1].parents]
  }

  /** Commits of the range, each a parent of the one before. */
  ghost predicate IsPath(g: Graph, p: seq<Commit>) {
    && p != []
    && (forall i :: 0 <= i < |p| ==> p[i] in g)
    && (forall i, j :: 0 <= i && j == i + 1 && j < |p| ==> p[j] in g[p[i]])
  }

  ghost predicate Reaches(g: Graph, from: Commit, to: Commit) {
    exists p :: IsPath(g, p) && p[0] == from && p[|p| - 1] == to
  }

  /** `c` is reached by one of the first `n` steps' ends. */
  ghost predicate ReachedBefore(g: Graph, steps: seq<Step>, n: nat, c: Commit)
    requires n <= |steps|
  {
    exists k :: 0 <= k < n && Reaches(g, steps[k].to, c)
  }

  lemma {:induction false} ReachesSelf(g: Graph, c: Commit)
    requires c in g
    ensures Reaches(g, c, c)
  {
    assert IsPath(g, [c]);
  }

  lemma {:induction false} ReachesParent(g: Graph, from: Commit, c: Commit, parent: Commit)
    requires Reaches(g, from, c) && parent in g && parent in g[c]
    ensures Reaches(g, from, parent)
  {
    var p :| IsPath(g, p) && p[0] == from && p[|p| - 1] == c;
    assert IsPath(g, p + [parent]);
  }

  lemma {:induction false} ClosedHoldsReached(g: Graph, closed: set<Commit>, p: seq<Commit>)
    requires IsPath(g, p) && p[0] in closed
    requires forall c, q :: c in closed && c in g && q in g[c] && q in g ==> q in closed
    ensures p[|p| - 1] in closed
  {
    if |p| > 1 {
      assert p[1] in g[p[0]];
      assert IsPath(g, p[1..]) by {
        forall i, j | 0 <= i && j == i + 1 && j < |p[1..]| ensures p[1..][j] in g[p[1..][i]] {
          assert p[1..][i] == p[i + 1] && p[1..][j] == p[j + 1];
        }
      }
      ClosedHoldsReached(g, closed, p[1..]);
    }
  }

  /** `seen` is closed under parents in the range, but for commits still on the stack. */
  ghost predicate ClosedBut(g: Graph, seen: set<Commit>, stack: seq<Commit>) {
    forall c, q :: c in seen && c in g && q in g[c] && q in g ==> q in seen || q in stack
  }

  /** A search in progress: `added` is what it has seen, all of it reached, the rest reached through the stack. */
  ghost predicate Searching(
      g: Graph, to: Commit, before: set<Commit>, seen: set<Commit>, added: seq<Commit>, next: seq<Commit>) {
    && before <= seen <= g.Keys && ClosedBut(g, seen, next)
    && Distinct(added) && (forall c :: c in added <==> c in seen && c !in before)
    && (forall c :: c in added ==> Reaches(g, to, c))
    && (forall c :: c in next && c in g ==> Reaches(g, to, c))
    && (to in g ==> to in seen || to in next)
  }

  lemma {:induction false} Visit(
      g: Graph, to: Commit, before: set<Commit>, seen: set<Commit>, added: seq<Commit>, popped: seq<Commit>,
      sha: Commit)
    requires Searching(g, to, before, seen, added, popped + [sha]) && sha in g && sha !in seen
    ensures Searching(g, to, before, seen + {sha}, added + [sha], popped + g[sha])
    ensures |g.Keys - (seen + {sha})| < |g.Keys - seen|
  {
    assert sha in popped + [sha];
    ParentsReached(g, to, sha);
    Shrinks(g.Keys, seen, sha);
    var next := popped + g[sha];
    assert forall c :: c in popped + [sha] ==> c in next || c == sha;
    assert forall c :: c in next ==> c in popped || c in g[sha];
    assert forall c :: c in popped ==> c in popped + [sha];
  }

  lemma {:induction false} Skip(
      g: Graph, to: Commit, before: set<Commit>, seen: set<Commit>, added: seq<Commit>, popped: seq<Commit>,
      sha: Commit)
    requires Searching(g, to, before, seen, added, popped + [sha]) && (sha !in g || sha in seen)
    ensures Searching(g, to, before, seen, added, popped)
  {
    assert forall c :: c in popped + [sha] <==> c in popped || c == sha;
  }

  /** One step's search; `before` is what earlier steps have seen. */
  method Search(g: Graph, to: Commit, before: set<Commit>) returns (added: seq<Commit>, seen: set<Commit>)
    requires before <= g.Keys && ClosedBut(g, before, [])
    ensures seen <= g.Keys && ClosedBut(g, seen, [])
    ensures Distinct(added)
    ensures forall c :: c in added <==> c in seen && c !in before
    ensures before <= seen
    ensures forall c :: c in seen <==> c in before || Reaches(g, to, c)
  {
    added, seen := [], before;
    var next := [to];
    if to in g { ReachesSelf(g, to); }
    while next != []
      invariant Searching(g, to, before, seen, added, next)
      decreases |g.Keys - seen|, |next|
    {
      var sha := next[|next| - 1];
      var popped := next[..|next| - 1];
      assert next == popped + [sha];
      if sha in g && sha !in seen {
        Visit(g, to, before, seen, added, popped, sha);
        seen := seen + {sha};
        added := added + [sha];
        next := popped + g[sha];
      } else {
        Skip(g, to, before, seen, added, popped, sha);
        next := popped;
      }
    }
    forall c | Reaches(g, to, c) ensures c in seen {
      var p :| IsPath(g, p) && p[0] == to && p[|p| - 1] == c;
      ClosedHoldsReached(g, seen, p);
    }
  }

  lemma {:induction false} ParentsReached(g: Graph, to: Commit, sha: Commit)
    requires sha in g && Reaches(g, to, sha)
    ensures forall q :: q in g[sha] && q in g ==> Reaches(g, to, q)
  {
    forall q | q in g[sha] && q in g ensures Reaches(g, to, q) {
      ReachesParent(g, to, sha, q);
    }
  }

  lemma {:induction false} Shrinks(keys: set<Commit>, seen: set<Commit>, sha: Commit)
    requires sha in keys && sha !in seen
    ensures |keys - (seen + {sha})| < |keys - seen|
  {
    assert keys - seen == (keys - (seen + {sha})) + {sha};
  }

  /** List `i` holds exactly what step `i` reaches and no earlier step does. */
  ghost predicate AreMembers(g: Graph, steps: seq<Step>, lists: seq<seq<Commit>>) {
    && |lists| <= |steps|
    && forall i :: 0 <= i < |lists| ==> IsMemberList(g, steps, i, lists[i])
  }

  ghost predicate IsMemberList(g: Graph, steps: seq<Step>, i: nat, members: seq<Commit>)
    requires i < |steps|
  {
    && Distinct(members)
    && forall c :: c in members <==> Reaches(g, steps[i].to, c) && !ReachedBefore(g, steps, i, c)
  }

  ghost predicate AreReachedBefore(g: Graph, steps: seq<Step>, n: nat, seen: set<Commit>)
    requires n <= |steps|
  {
    forall c :: c in seen <==> ReachedBefore(g, steps, n, c)
  }

  lemma {:induction false} OneMoreStep(g: Graph, steps: seq<Step>, n: nat, c: Commit)
    requires n < |steps|
    ensures ReachedBefore(g, steps, n + 1, c) <==> ReachedBefore(g, steps, n, c) || Reaches(g, steps[n].to, c)
  {
  }

  /** What a search adds is the next list. */
  lemma {:induction false} ListIsAdded(
    g: Graph, steps: seq<Step>, lists: seq<seq<Commit>>, before: set<Commit>, seen: set<Commit>, added: seq<Commit>)
    requires |lists| < |steps| && AreMembers(g, steps, lists) && AreReachedBefore(g, steps, |lists|, before)
    requires Distinct(added) && forall c :: c in added <==> c in seen && c !in before
    requires forall c :: c in seen <==> c in before || Reaches(g, steps[|lists|].to, c)
    ensures AreMembers(g, steps, lists + [added]) && AreReachedBefore(g, steps, |lists| + 1, seen)
  {
    assert IsMemberList(g, steps, |lists|, added);
    forall c ensures c in seen <==> ReachedBefore(g, steps, |lists| + 1, c) {
      OneMoreStep(g, steps, |lists|, c);
    }
  }

  method Members(range: seq<Node>, steps: seq<Step>) returns (lists: seq<seq<Commit>>)
    ensures |lists| == |steps| && AreMembers(GraphOf(range), steps, lists)
  {
    var g := BuildGraph(range);
    lists := [];
    var seen: set<Commit> := {};
    for i := 0 to |steps|
      invariant |lists| == i && AreMembers(g, steps, lists)
      invariant seen <= g.Keys && ClosedBut(g, seen, []) && AreReachedBefore(g, steps, i, seen)
    {
      var added, now := Search(g, steps[i].to, seen);
      ListIsAdded(g, steps, lists, seen, now, added);
      lists := lists + [added];
      seen := now;
    }
  }

  method BuildGraph(range: seq<Node>) returns (g: Graph)
    ensures g == GraphOf(range)
  {
    g := map[];
    for i := 0 to |range|
      invariant g == GraphOf(range[..i])
    {
      assert range[..i + 1][..i] == range[..i];
      g := g[range[i].sha := range[i].parents];
    }
    assert range[..|range|] == range;
  }

  // ----- the lists of a timeline partition its range -----

  /** The first parent is one of the parents. */
  ghost predicate SameCommits(parents: map<Commit, Option<Commit>>, g: Graph) {
    parents.Keys == g.Keys && forall c :: c in parents && parents[c].Some? ==> parents[c].value in g[c]
  }

  /** The two readings of one list agree. */
  lemma {:induction false} ReadingsAgree(commits: seq<Listed>)
    ensures SameCommits(ParentMap(RangeOf(commits)), GraphOf(NodesOf(commits)))
  {
    if commits != [] {
      var n := |commits| - 1;
      ReadingsAgree(commits[..n]);
      assert RangeOf(commits)[..n] == RangeOf(commits[..n]);
      assert NodesOf(commits)[..n] == NodesOf(commits[..n]);
    }
  }

  /** The last entry for `sha` is `commits[i]`. */
  predicate IsLastListed(commits: seq<Listed>, i: nat, sha: Commit) {
    i < |commits| && commits[i].sha == sha && forall j :: i < j < |commits| ==> commits[j].sha != sha
  }

  lemma {:induction false} ValidParentsExactly(parents: seq<Option<Commit>>, p: Commit)
    ensures p in ValidParents(parents) <==> Some(p) in parents
  {
    if parents != [] {
      ValidParentsExactly(parents[1..], p);
      assert parents == [parents[0]] + parents[1..];
    }
  }

  /** The graph by the provider's list: the last entry of a commit gives its parents, all valid ones. */
  lemma {:induction false} GraphExactly(commits: seq<Listed>, c: Commit)
    ensures var g := GraphOf(NodesOf(commits));
      && (c in g <==> exists i :: 0 <= i < |commits| && commits[i].sha == c)
      && (c in g ==> exists i: nat :: IsLastListed(commits, i, c) && g[c] == ValidParents(commits[i].parents))
  {
    if commits != [] {
      var n := |commits| - 1;
      var front := commits[..n];
      GraphExactly(front, c);
      assert NodesOf(commits)[..n] == NodesOf(front);
      assert forall i :: 0 <= i < n ==> front[i] == commits[i];
      if commits[n].sha == c {
        assert IsLastListed(commits, n, c);
      } else if c in GraphOf(NodesOf(front)) {
        var i: nat :| IsLastListed(front, i, c) && GraphOf(NodesOf(front))[c] == ValidParents(front[i].parents);
        assert IsLastListed(commits, i, c);
      }
    }
  }

  /** Whom a search can go to: a listed commit that the last entry for `c` names as a parent. */
  lemma {:induction false} EdgesExactly(commits: seq<Listed>, i: nat, c: Commit, p: Commit)
    requires IsLastListed(commits, i, c)
    ensures var g := GraphOf(NodesOf(commits)); c in g && (p in g[c] <==> Some(p) in commits[i].parents)
  {
    GraphExactly(commits, c);
    ValidParentsExactly(commits[i].parents, p);
    assert forall j: nat :: IsLastListed(commits, j, c) ==> j == i;
  }

  /** And the path follows its first parent, where that is a valid one. */
  lemma {:induction false} FirstParentExactly(commits: seq<Listed>, i: nat, c: Commit)
    requires IsLastListed(commits, i, c)
    ensures c in ParentMap(RangeOf(commits))
    ensures ParentMap(RangeOf(commits))[c] == if commits[i].parents == [] then None else commits[i].parents[0]
  {
    var range := RangeOf(commits);
    assert range[i].sha == c;
    ParentsExactly(range, c);
    var j: nat :| IsEntry(range, j, c) && range[j].parent == ParentMap(range)[c];
    assert commits[j].sha == c && range[i].sha == commits[i].sha;
    assert j == i;
  }

  lemma {:induction false} UpIsReached(parents: map<Commit, Option<Commit>>, g: Graph, from: Commit, sha: Commit)
    requires SameCommits(parents, g) && sha in parents && Reaches(g, from, sha) && Up(parents, sha).Some?
    ensures Up(parents, sha).value in parents && Reaches(g, from, Up(parents, sha).value)
  {
    ReachesParent(g, from, sha, Up(parents, sha).value);
  }

  lemma {:induction false} WalkIsReached(
      parents: map<Commit, Option<Commit>>, g: Graph, from: Commit, sha: Commit, room: nat, i: nat)
    requires SameCommits(parents, g) && sha in parents && room > 0 && Reaches(g, from, sha)
    requires i < |Walk(parents, sha, room)|
    ensures Reaches(g, from, Walk(parents, sha, room)[i])
    decreases room
  {
    if i > 0 {
      var up := Up(parents, sha).value;
      UpIsReached(parents, g, from, sha);
      assert Walk(parents, sha, room)[i] == Walk(parents, up, room - 1)[i - 1];
      WalkIsReached(parents, g, from, up, room - 1, i - 1);
    }
  }

  lemma {:induction false} PathIsReached(range: seq<Ranged>, g: Graph, head: Commit, c: Commit)
    requires SameCommits(ParentMap(range), g) && c in PathTo(range, head)
    ensures Reaches(g, head, c)
  {
    var parents := ParentMap(range);
    var path := PathTo(range, head);
    var i :| 0 <= i < |path| && path[i] == c;
    ReachesSelf(g, head);
    WalkIsReached(parents, g, head, head, |range| + 1, |path| - 1 - i);
  }

  lemma {:induction false} ReachesIsTransitive(g: Graph, a: Commit, b: Commit, p: seq<Commit>)
    requires Reaches(g, a, b) && IsPath(g, p) && p[0] == b
    ensures Reaches(g, a, p[|p| - 1])
  {
    if |p| > 1 {
      var front := p[..|p| - 1];
      assert IsPath(g, front);
      ReachesIsTransitive(g, a, b, front);
      ReachesParent(g, a, p[|p| - 2], p[|p| - 1]);
    }
  }

  /**
   With the steps of a timeline, every commit that the head reaches in the range is in exactly one
   list, and no other commit is in any.
   */
  lemma {:induction false} ListsPartitionReachable(
    commits: seq<Listed>, base: Commit, head: Commit, tags: seq<Tag>, released: set<TagName>,
    lists: seq<seq<Commit>>, c: Commit)
    requires var steps := Timeline(RangeOf(commits), base, head, tags, released).0;
      steps != [] && |lists| == |steps| && AreMembers(GraphOf(NodesOf(commits)), steps, lists)
    ensures Reaches(GraphOf(NodesOf(commits)), head, c) <==> exists i :: 0 <= i < |lists| && c in lists[i]
    ensures forall i, j :: 0 <= i < j < |lists| && c in lists[i] ==> c !in lists[j]
  {
    var range, g := RangeOf(commits), GraphOf(NodesOf(commits));
    var steps := Timeline(range, base, head, tags, released).0;
    ReadingsAgree(commits);
    TimelineIsChain(range, base, head, tags, released);
    if Reaches(g, head, c) {
      var i := FirstReaching(g, steps, |steps| - 1, c);
      assert IsMemberList(g, steps, i, lists[i]);
    }
    forall i | 0 <= i < |lists| && c in lists[i]
      ensures Reaches(g, head, c)
    {
      assert IsMemberList(g, steps, i, lists[i]);
      TimelineAdvances(range, base, head, tags, released, i);
      PathIsReached(range, g, head, steps[i].to);
      var p :| IsPath(g, p) && p[0] == steps[i].to && p[|p| - 1] == c;
      ReachesIsTransitive(g, head, steps[i].to, p);
    }
    forall i, j | 0 <= i < j < |lists| && c in lists[i]
      ensures c !in lists[j]
    {
      assert IsMemberList(g, steps, i, lists[i]) && IsMemberList(g, steps, j, lists[j]);
    }
  }

  lemma {:induction false} FirstReaching(g: Graph, steps: seq<Step>, k: nat, c: Commit) returns (i: nat)
    requires k < |steps| && Reaches(g, steps[k].to, c)
    ensures i <= k && Reaches(g, steps[i].to, c) && !ReachedBefore(g, steps, i, c)
  {
    i := k;
    if ReachedBefore(g, steps, k, c) {
      var j :| 0 <= j < k && Reaches(g, steps[j].to, c);
      i := FirstReaching(g, steps, j, c);
    }
  }
}

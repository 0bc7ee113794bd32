/**
 The unblock edges of Cargo unit timings (scripts/analyze-cargo-timings.py):
 who released whom, the counting pass that rejects cycles, and the walk back
 from the unit that ended last along the latest releases.
 */
module Unblocks {
  import opened Collections
  import opened Wrappers
  import opened Timings

  /** The tolerance of the timing checks, in ticks. */
  const SLACK: nat := 30

  datatype Kind = Complete | Metadata

  datatype Edge = Edge(release: nat, parent: Id, kind: Kind)

  datatype Failure = NoFrontend | BadEdge | CountCycle | WalkCycle | LateEdge

  function Children(u: Unit): seq<Id> {
    u.unblocked + u.unblockedMeta
  }

  function Ids(units: seq<Unit>): set<Id> {
    set k | 0 <= k < |units| :: units[k].id
  }

  /** What `load_units` also checks: edges lead to units of the list. */
  predicate Closed(units: seq<Unit>) {
    forall k, c :: 0 <= k < |units| && c in Children(units[k]) ==> c in Ids(units)
  }

  function ById(units: seq<Unit>): (byId: map<Id, Unit>)
    requires forall j, k :: 0 <= j < k < |units| ==> units[j].id != units[k].id
    ensures byId.Keys == Ids(units) && forall k :: 0 <= k < |units| ==> byId[units[k].id] == units[k]
  {
    if units == [] then map[]
    else
      var front, u := units[..|units| - 1], units[|units| - 1];
      assert forall k :: 0 <= k < |front| ==> units[k] == front[k];
      ById(front)[u.id := u]
  }

  // ----- cycles -----

  /** Each unit of `p` unblocks the next. */
  ghost predicate IsPath(byId: map<Id, Unit>, p: seq<Id>) {
    && (forall k :: 0 <= k < |p| ==> p[k] in byId)
    && (forall k :: 0 <= k < |p| - 1 ==> p[k + 1] in Children(byId[p[k]]))
  }

  ghost predicate IsCycle(byId: map<Id, Unit>, p: seq<Id>) {
    IsPath(byId, p) && |p| >= 2 && p[0] == p[|p| - 1]
  }

  ghost predicate HasCycle(byId: map<Id, Unit>) {
    exists p :: IsCycle(byId, p)
  }

  /** Every unit comes after all units that unblock it. */
  ghost predicate Topological(byId: map<Id, Unit>, order: seq<Id>) {
    && (forall i, j :: 0 <= i < j < |order| ==> order[i] != order[j])
    && (forall i, u :: 0 <= i < |order| && u in byId && order[i] in Children(byId[u]) ==> u in order[..i])
  }

  lemma {:induction false} PathStartsEarlier(byId: map<Id, Unit>, order: seq<Id>, p: seq<Id>, i: nat)
    requires Topological(byId, order) && IsPath(byId, p) && |p| >= 2 && i < |order| && order[i] == p[|p| - 1]
    ensures p[0] in order[..i]
  {
    var front := p[..|p| - 1];
    assert p[|p| - 2 + 1] in Children(byId[p[|p| - 2]]);
    var j :| 0 <= j < i && order[j] == front[|front| - 1];
    if |front| >= 2 {
      assert IsPath(byId, front) by {
        forall k | 0 <= k < |front| - 1 ensures front[k + 1] in Children(byId[front[k]]) {
          assert p[k + 1] in Children(byId[p[k]]);
        }
      }
      PathStartsEarlier(byId, order, front, j);
    }
  }

  lemma {:induction false} OrderedIsAcyclic(byId: map<Id, Unit>, order: seq<Id>)
    requires Topological(byId, order) && forall u :: u in byId ==> u in order
    ensures !HasCycle(byId)
  {
    if p :| IsCycle(byId, p) {
      var i :| 0 <= i < |order| && order[i] == p[|p| - 1];
      PathStartsEarlier(byId, order, p, i);
    }
  }

  ghost predicate Follows(byId: map<Id, Unit>, rest: set<Id>, d: Id) {
    exists u :: u in rest && u in byId && d in Children(byId[u])
  }

  ghost predicate AllFollow(byId: map<Id, Unit>, rest: set<Id>) {
    forall d {:trigger Follows(byId, rest, d)} :: d in rest ==> Follows(byId, rest, d)
  }

  /** Where every unit of a set is unblocked by one of the set, one can walk back as long as one likes. */
  lemma {:induction false} BackPath(byId: map<Id, Unit>, rest: set<Id>, c: Id, n: nat) returns (p: seq<Id>)
    requires rest <= byId.Keys && c in rest
    requires AllFollow(byId, rest)
    ensures |p| == n + 1 && IsPath(byId, p) && p[n] == c && forall k :: 0 <= k <= n ==> p[k] in rest
    decreases n
  {
    if n == 0 {
      p := [c];
    } else {
      assert Follows(byId, rest, c);
      var u :| u in rest && u in byId && c in Children(byId[u]);
      var q := BackPath(byId, rest, u, n - 1);
      p := q + [c];
      forall k | 0 <= k < |p| - 1 ensures p[k + 1] in Children(byId[p[k]]) {
        assert k < n - 1 ==> q[k + 1] in Children(byId[q[k]]);
      }
    }
  }

  lemma {:induction false} Repeats(p: seq<Id>, s: set<Id>) returns (i: nat, j: nat)
    requires |p| > |s| && forall k :: 0 <= k < |p| ==> p[k] in s
    ensures i < j < |p| && p[i] == p[j]
    decreases |p|
  {
    var last := p[|p| - 1];
    if k :| 0 <= k < |p| - 1 && p[k] == last {
      i, j := k, |p| - 1;
    } else {
      i, j := Repeats(p[..|p| - 1], s - {last});
    }
  }

  lemma {:induction false} SegmentIsCycle(byId: map<Id, Unit>, p: seq<Id>, i: nat, j: nat)
    requires IsPath(byId, p) && i < j < |p| && p[i] == p[j]
    ensures HasCycle(byId)
  {
    var q := p[i..j + 1];
    forall k | 0 <= k < |q| - 1 ensures q[k + 1] in Children(byId[q[k]]) {
      assert p[i + k + 1] in Children(byId[p[i + k]]);
    }
    assert IsCycle(byId, q);
  }

  lemma {:induction false} BackwardsIsCyclic(byId: map<Id, Unit>, rest: set<Id>, c: Id)
    requires rest <= byId.Keys && c in rest
    requires AllFollow(byId, rest)
    ensures HasCycle(byId)
  {
    var p := BackPath(byId, rest, c, |rest|);
    var i, j := Repeats(p, rest);
    SegmentIsCycle(byId, p, i, j);
  }

  // ----- the edges into a unit -----

  /** One edge for each mention of `c` in `children`. */
  function Mentions(children: seq<Id>, e: Edge, c: Id): seq<Edge> {
    if children == [] then []
    else Mentions(children[..|children| - 1], e, c) + if children[|children| - 1] == c then [e] else []
  }

  function EdgesFrom(u: Unit, c: Id): seq<Edge> {
    Mentions(u.unblocked, CompleteEdge(u), c) + Mentions(u.unblockedMeta, MetadataEdge(u), c)
  }

  function CompleteEdge(u: Unit): Edge {
    Edge(u.End(), u.id, Complete)
  }

  function MetadataEdge(u: Unit): Edge {
    Edge(u.start + if u.frontend.Some? then u.frontend.value else 0, u.id, Metadata)
  }

  function Incoming(units: seq<Unit>, c: Id): seq<Edge> {
    if units == [] then [] else Incoming(units[..|units| - 1], c) + EdgesFrom(units[|units| - 1], c)
  }

  predicate HasFrontends(units: seq<Unit>) {
    forall k :: 0 <= k < |units| && units[k].unblockedMeta != [] ==> units[k].frontend.Some?
  }

  ghost predicate Recorded(units: seq<Unit>, predecessors: map<Id, seq<Edge>>) {
    predecessors.Keys == Ids(units) && forall c :: c in predecessors ==> predecessors[c] == Incoming(units, c)
  }

  lemma {:induction false} OneMoreUnit(units: seq<Unit>, n: nat, c: Id)
    requires n < |units|
    ensures Incoming(units[..n + 1], c)
         == Incoming(units[..n], c) + Mentions(units[n].unblocked, CompleteEdge(units[n]), c)
           + Mentions(units[n].unblockedMeta, MetadataEdge(units[n]), c)
  {
    assert units[..n + 1][..n] == units[..n];
  }

  lemma {:induction false} ChildrenAreKnown(units: seq<Unit>, n: nat)
    requires Closed(units) && n < |units|
    ensures forall c :: c in units[n].unblocked || c in units[n].unblockedMeta ==> c in Ids(units)
  {
    forall c | c in units[n].unblocked || c in units[n].unblockedMeta ensures c in Ids(units) {
      assert c in Children(units[n]);
    }
  }

  /** Adds one edge to each of `children`, in turn. */
  method AddEdges(before: map<Id, seq<Edge>>, children: seq<Id>, e: Edge) returns (after: map<Id, seq<Edge>>)
    requires forall c :: c in children ==> c in before
    ensures after.Keys == before.Keys && forall c :: c in before ==> after[c] == before[c] + Mentions(children, e, c)
  {
    after := before;
    for n := 0 to |children|
      invariant after.Keys == before.Keys
      invariant forall c :: c in before ==> after[c] == before[c] + Mentions(children[..n], e, c)
    {
      assert children[n] in children;
      after := after[children[n] := after[children[n]] + [e]];
      assert children[..n + 1][..n] == children[..n];
    }
    assert children[..|children|] == children;
  }

  method Predecessors(units: seq<Unit>) returns (r: Result<map<Id, seq<Edge>>, Failure>)
    requires Loaded(units) && Closed(units)
    ensures r.Ok? <==> HasFrontends(units)
    ensures r.Err? ==> r.error == NoFrontend
    ensures r.Ok? ==> Recorded(units, r.value)
  {
    var predecessors: map<Id, seq<Edge>> := map c | c in Ids(units) :: [];
    for n := 0 to |units|
      invariant HasFrontends(units[..n])
      invariant predecessors.Keys == Ids(units)
      invariant forall c :: c in predecessors ==> predecessors[c] == Incoming(units[..n], c)
    {
      var u := units[n];
      ChildrenAreKnown(units, n);
      if u.unblockedMeta != [] && u.frontend.None? {
        return Err(NoFrontend);
      }
      predecessors := AddEdges(predecessors, u.unblocked, CompleteEdge(u));
      predecessors := AddEdges(predecessors, u.unblockedMeta, MetadataEdge(u));
      forall c ensures Incoming(units[..n + 1], c)
        == Incoming(units[..n], c) + Mentions(u.unblocked, CompleteEdge(u), c)
          + Mentions(u.unblockedMeta, MetadataEdge(u), c)
      {
        OneMoreUnit(units, n, c);
      }
    }
    assert units[..|units|] == units;
    return Ok(predecessors);
  }

  // ----- the counting pass -----

  /** How often `c` is mentioned by units outside `done`. */
  function Count(units: seq<Unit>, done: set<Id>, c: Id): nat {
    if units == [] then 0
    else
      var u := units[|units| - 1];
      Count(units[..|units| - 1], done, c) + if u.id in done then 0 else multiset(Children(u))[c]
  }

  lemma {:induction false} MentionsCount(children: seq<Id>, e: Edge, c: Id)
    ensures |Mentions(children, e, c)| == multiset(children)[c]
  {
    if children != [] {
      var front := children[..|children| - 1];
      MentionsCount(front, e, c);
      assert children == front + [children[|children| - 1]];
    }
  }

  lemma {:induction false} IncomingCount(units: seq<Unit>, c: Id)
    ensures |Incoming(units, c)| == Count(units, {}, c)
  {
    if units != [] {
      var u := units[|units| - 1];
      IncomingCount(units[..|units| - 1], c);
      MentionsCount(u.unblocked, CompleteEdge(u), c);
      MentionsCount(u.unblockedMeta, MetadataEdge(u), c);
    }
  }

  lemma {:induction false} DoneElsewhere(units: seq<Unit>, done: set<Id>, id: Id, c: Id)
    requires forall k :: 0 <= k < |units| ==> units[k].id != id
    ensures Count(units, done + {id}, c) == Count(units, done, c)
  {
    if units != [] {
      assert units[|units| - 1].id != id;
      DoneElsewhere(units[..|units| - 1], done, id, c);
    }
  }

  /** Taking a unit into `done` takes away what it mentions. */
  lemma {:induction false} DoneTakesAway(units: seq<Unit>, done: set<Id>, k: nat, c: Id)
    requires forall i, j :: 0 <= i < j < |units| ==> units[i].id != units[j].id
    requires k < |units| && units[k].id !in done
    ensures Count(units, done + {units[k].id}, c) + multiset(Children(units[k]))[c] == Count(units, done, c)
  {
    var front := units[..|units| - 1];
    if k == |units| - 1 {
      DoneElsewhere(front, done, units[k].id, c);
    } else {
      DoneTakesAway(front, done, k, c);
    }
  }

  lemma {:induction false} CountIsPositive(units: seq<Unit>, done: set<Id>, c: Id)
    ensures Count(units, done, c) > 0
      <==> exists k :: 0 <= k < |units| && units[k].id !in done && c in Children(units[k])
  {
    if units != [] {
      var front := units[..|units| - 1];
      CountIsPositive(front, done, c);
      if k :| 0 <= k < |units| && units[k].id !in done && c in Children(units[k]) {
        assert k < |front| ==> front[k] == units[k];
      }
      if k :| 0 <= k < |front| && front[k].id !in done && c in Children(front[k]) {
        assert units[k] == front[k];
      }
    }
  }

  /** The state of the pass between two units. `order` are the units visited so far. */
  ghost predicate Counting(units: seq<Unit>, order: seq<Id>, remaining: map<Id, nat>, ready: seq<Id>)
    requires Loaded(units)
  {
    && remaining.Keys == Ids(units)
    && (forall c :: c in remaining ==> remaining[c] == Count(units, Set(order), c))
    && Topological(ById(units), order)
    && Pending(remaining, Set(order), ready)
    && (forall c :: c in order ==> c in Ids(units))
  }

  /** A unit that waits for nothing is either done or ready once. */
  ghost predicate Pending(remaining: map<Id, nat>, done: set<Id>, ready: seq<Id>) {
    && (forall c :: c in done || c in ready ==> c in remaining && remaining[c] == 0)
    && (forall c :: c in remaining && remaining[c] == 0 ==> c in done || c in ready)
    && (forall i :: 0 <= i < |ready| ==> ready[i] !in done)
    && (forall i, j :: 0 <= i < j < |ready| ==> ready[i] != ready[j])
  }

  lemma {:induction false} OneMoreChild(children: seq<Id>, n: nat)
    requires n < |children|
    ensures multiset(children[..n + 1]) == multiset(children[..n]) + multiset{children[n]}
    ensures multiset(children[..n + 1])[children[n]] <= multiset(children)[children[n]]
  {
    assert children[..n + 1] == children[..n] + [children[n]];
    assert children == children[..n + 1] + children[n + 1..];
    assert multiset(children) == multiset(children[..n + 1]) + multiset(children[n + 1..]);
  }

  /** Counts down what one unit unblocks; a count is never taken below zero. */
  method CountDown(children: seq<Id>, remaining0: map<Id, nat>, ghost done: set<Id>, ready0: seq<Id>)
    returns (remaining: map<Id, nat>, ready: seq<Id>)
    requires Pending(remaining0, done, ready0)
    requires forall c :: c in children ==> c in remaining0
    requires forall c :: c in remaining0 ==> multiset(children)[c] <= remaining0[c]
    ensures remaining.Keys == remaining0.Keys
    ensures forall c :: c in remaining ==> remaining[c] + multiset(children)[c] == remaining0[c]
    ensures Pending(remaining, done, ready)
  {
    remaining, ready := remaining0, ready0;
    for n := 0 to |children|
      invariant remaining.Keys == remaining0.Keys
      invariant forall c :: c in remaining ==> remaining[c] + multiset(children[..n])[c] == remaining0[c]
      invariant Pending(remaining, done, ready)
    {
      var child := children[n];
      assert child in children;
      OneMoreChild(children, n);
      assert child in remaining0 && multiset(children)[child] <= remaining0[child];
      assert remaining[child] + multiset(children[..n])[child] == remaining0[child];
      remaining := remaining[child := remaining[child] - 1];
      if remaining[child] == 0 {
        ready := ready + [child];
      }
    }
    assert children[..|children|] == children;
  }

  method StartCounting(
      units: seq<Unit>, predecessors: map<Id, seq<Edge>>) returns (remaining: map<Id, nat>, ready: seq<Id>)
    requires Loaded(units) && Recorded(units, predecessors)
    ensures Counting(units, [], remaining, ready)
  {
    remaining := map c | c in predecessors.Keys :: |predecessors[c]|;
    ready := FirstReady(units, remaining);
    assert Set([]) == {};
    forall c | c in remaining ensures remaining[c] == Count(units, Set([]), c) {
      IncomingCount(units, c);
    }
  }

  /** Visits every unit exactly when the recorded edges have no cycle. */
  method CountUnits(units: seq<Unit>, predecessors: map<Id, seq<Edge>>) returns (visited: nat)
    requires Loaded(units) && Closed(units)
    requires Recorded(units, predecessors)
    ensures visited <= |units|
    ensures visited == |units| <==> !HasCycle(ById(units))
  {
    var byId := ById(units);
    var remaining, ready := StartCounting(units, predecessors);
    visited := 0;
    ghost var order: seq<Id> := [];
    while ready != []
      invariant byId == ById(units) && Counting(units, order, remaining, ready)
      invariant visited == |order| <= |units|
      decreases |units| - |order|
    {
      visited := visited + 1;
      remaining, ready, order := VisitUnit(units, byId, order, remaining, ready);
    }
    CountDecides(units, order, remaining);
  }

  /** Takes the last ready unit into the order. */
  method VisitUnit(
      units: seq<Unit>, byId: map<Id, Unit>, ghost order0: seq<Id>, remaining0: map<Id, nat>, ready0: seq<Id>)
    returns (remaining: map<Id, nat>, ready: seq<Id>, ghost order: seq<Id>)
    requires Loaded(units) && Closed(units) && byId == ById(units)
    requires ready0 != [] && Counting(units, order0, remaining0, ready0)
    ensures order == order0 + [ready0[|ready0| - 1]] && |order| <= |units|
    ensures Counting(units, order, remaining, ready)
  {
    var id := ready0[|ready0| - 1];
    var popped := ready0[..|ready0| - 1];
    assert ready0 == popped + [id];
    order := order0 + [id];
    Visit(units, order0, remaining0, popped, id);
    remaining, ready := CountDown(Children(byId[id]), remaining0, Set(order), popped);
    Visited(units, order, remaining, ready);
  }

  method FirstReady(units: seq<Unit>, remaining: map<Id, nat>) returns (ready: seq<Id>)
    requires Loaded(units) && remaining.Keys == Ids(units)
    ensures Pending(remaining, {}, ready)
  {
    ready := [];
    for n := 0 to |units|
      invariant forall c :: c in ready <==> c in Ids(units[..n]) && remaining[c] == 0
      invariant forall i, j :: 0 <= i < j < |ready| ==> ready[i] != ready[j]
      invariant forall k :: 0 <= k < n ==> units[k].id in Ids(units[..n])
    {
      var id := units[n].id;
      OneMoreId(units, n);
      if remaining[id] == 0 {
        ready := ready + [id];
      }
    }
    assert units[..|units|] == units;
  }

  lemma {:induction false} OneMoreId(units: seq<Unit>, n: nat)
    requires Loaded(units) && n < |units|
    ensures Ids(units[..n + 1]) == Ids(units[..n]) + {units[n].id} && units[n].id !in Ids(units[..n])
    ensures Ids(units[..n]) <= Ids(units) && units[n].id in Ids(units)
  {
    var more := units[..n + 1];
    assert more[n] == units[n];
    forall k | 0 <= k < n ensures more[k] == units[..n][k] == units[k] {}
  }

  lemma {:induction false} Visit(units: seq<Unit>, order: seq<Id>, remaining: map<Id, nat>, ready: seq<Id>, id: Id)
    requires Loaded(units) && Closed(units) && Counting(units, order, remaining, ready + [id])
    ensures id in Ids(units) && id !in order
    ensures Pending(remaining, Set(order + [id]), ready)
    ensures Topological(ById(units), order + [id])
    ensures forall c :: c in Children(ById(units)[id]) ==> c in remaining
    ensures forall c :: c in remaining ==>
      Count(units, Set(order + [id]), c) + multiset(Children(ById(units)[id]))[c] == remaining[c]
  {
    assert Set(order + [id]) == Set(order) + {id};
    VisitIsPending(remaining, Set(order), ready, id);
    var k :| 0 <= k < |units| && units[k].id == id;
    forall c | c in remaining
      ensures Count(units, Set(order + [id]), c) + multiset(Children(units[k]))[c] == remaining[c]
    {
      DoneTakesAway(units, Set(order), k, c);
    }
    VisitIsOrdered(units, order, id);
  }

  lemma {:induction false} Visited(units: seq<Unit>, order: seq<Id>, remaining: map<Id, nat>, ready: seq<Id>)
    requires Loaded(units) && Topological(ById(units), order) && Pending(remaining, Set(order), ready)
    requires remaining.Keys == Ids(units) && forall c :: c in remaining ==> remaining[c] == Count(units, Set(order), c)
    ensures Counting(units, order, remaining, ready) && |order| <= |units|
  {
    forall c | c in order ensures c in Ids(units) {
      assert c in Set(order);
    }
    ShortOrder(units, order);
  }

  lemma {:induction false} VisitIsPending(remaining: map<Id, nat>, done: set<Id>, ready: seq<Id>, id: Id)
    requires Pending(remaining, done, ready + [id])
    ensures id in remaining && remaining[id] == 0 && id !in done
    ensures Pending(remaining, done + {id}, ready)
  {
    var waiting := ready + [id];
    assert waiting[|ready|] == id;
    forall c | c in ready ensures c in waiting {}
    forall i | 0 <= i < |ready| ensures ready[i] !in done + {id} {
      assert waiting[i] == ready[i];
    }
    forall i, j | 0 <= i < j < |ready| ensures ready[i] != ready[j] {
      assert waiting[i] != waiting[j];
    }
  }

  lemma {:induction false} VisitIsOrdered(units: seq<Unit>, order: seq<Id>, id: Id)
    requires Loaded(units) && Topological(ById(units), order) && id !in order && Count(units, Set(order), id) == 0
    ensures Topological(ById(units), order + [id])
  {
    var byId, more := ById(units), order + [id];
    forall i, u | 0 <= i < |more| && u in byId && more[i] in Children(byId[u]) ensures u in more[..i] {
      if i < |order| {
        assert more[..i] == order[..i];
      } else {
        assert more[..i] == order;
        CountIsPositive(units, Set(order), id);
        var k :| 0 <= k < |units| && units[k].id == u;
        assert byId[u] == units[k];
      }
    }
  }

  lemma {:induction false} DistinctSize(s: seq<Id>)
    requires forall i, j :: 0 <= i < j < |s| ==> s[i] != s[j]
    ensures |Set(s)| == |s|
  {
    if s != [] {
      var front := s[..|s| - 1];
      DistinctSize(front);
      assert Set(s) == Set(front) + {s[|s| - 1]};
    }
  }

  lemma {:induction false} IdsSize(units: seq<Unit>)
    requires forall j, k :: 0 <= j < k < |units| ==> units[j].id != units[k].id
    ensures |Ids(units)| == |units|
  {
    if units != [] {
      var front := units[..|units| - 1];
      IdsSize(front);
      assert Ids(units) == Ids(front) + {units[|units| - 1].id} by {
        forall k | 0 <= k < |front| ensures units[k] == front[k] {}
      }
    }
  }

  lemma {:induction false} ShortOrder(units: seq<Unit>, order: seq<Id>)
    requires Loaded(units) && (forall c :: c in order ==> c in Ids(units))
    requires forall i, j :: 0 <= i < j < |order| ==> order[i] != order[j]
    ensures |order| <= |units|
    ensures |order| == |units| <==> Set(order) == Ids(units)
  {
    DistinctSize(order);
    IdsSize(units);
    SubsetSize(Set(order), Ids(units));
    if |order| == |units| {
      var left := Ids(units) - Set(order);
      assert Ids(units) == Set(order) + left;
      assert |left| == 0;
    }
  }

  lemma {:induction false} SomeRest(units: seq<Unit>, order: seq<Id>)
    requires (forall c :: c in order ==> c in Ids(units)) && Set(order) != Ids(units)
    ensures Ids(units) - Set(order) != {}
  {
    if Ids(units) - Set(order) == {} {
      forall c ensures c in Set(order) <==> c in Ids(units) {
        assert c in Ids(units) ==> c in Set(order) || c in Ids(units) - Set(order);
      }
    }
  }

  /** What was not visited: each unit there is unblocked by another one. */
  lemma {:induction false} RestFollows(units: seq<Unit>, order: seq<Id>, remaining: map<Id, nat>)
    requires Loaded(units) && Counting(units, order, remaining, [])
    ensures AllFollow(ById(units), Ids(units) - Set(order))
  {
    var rest := Ids(units) - Set(order);
    forall d | d in rest ensures Follows(ById(units), rest, d) {
      assert remaining[d] != 0;
      CountIsPositive(units, Set(order), d);
      var k :| 0 <= k < |units| && units[k].id !in Set(order) && d in Children(units[k]);
      assert units[k].id in rest;
    }
  }

  lemma {:induction false} CountDecides(units: seq<Unit>, order: seq<Id>, remaining: map<Id, nat>)
    requires Loaded(units) && Counting(units, order, remaining, [])
    ensures |order| == |units| <==> !HasCycle(ById(units))
  {
    ShortOrder(units, order);
    if |order| == |units| {
      AllOrdered(units, order);
    } else {
      SomeRest(units, order);
      RestFollows(units, order, remaining);
      var c :| c in Ids(units) - Set(order);
      BackwardsIsCyclic(ById(units), Ids(units) - Set(order), c);
    }
  }

  lemma {:induction false} AllOrdered(units: seq<Unit>, order: seq<Id>)
    requires Loaded(units) && Topological(ById(units), order) && Set(order) == Ids(units)
    ensures !HasCycle(ById(units))
  {
    forall u | u in ById(units) ensures u in order {
      assert u in Set(order);
    }
    OrderedIsAcyclic(ById(units), order);
  }

  // ----- the walk back -----

  predicate AtMost(e: Edge, f: Edge) {
    || e.release < f.release
    || (e.release == f.release && e.parent.number < f.parent.number)
    || (e.release == f.release && e.parent == f.parent && (e.kind.Complete? || f.kind.Metadata?))
  }

  /** Python's `max` of the edges: the latest release, then the greatest parent. */
  function Greatest(incoming: seq<Edge>): (e: Edge)
    requires incoming != []
    ensures e in incoming && forall f :: f in incoming ==> AtMost(f, e)
  {
    if |incoming| == 1 then incoming[0]
    else
      var e, f := Greatest(incoming[..|incoming| - 1]), incoming[|incoming| - 1];
      assert forall g :: g in incoming ==> g in incoming[..|incoming| - 1] || g == f;
      if AtMost(f, e) then e else f
  }

  function Reversed(s: seq<Id>): (r: seq<Id>) {
    seq(|s|, i requires 0 <= i < |s| => s[|s| - 1 - i])
  }

  /** Each unit of `p` is unblocked by the next. */
  ghost predicate IsBackPath(byId: map<Id, Unit>, p: seq<Id>) {
    IsPath(byId, Reversed(p))
  }

  lemma {:induction false} BackPathGrows(byId: map<Id, Unit>, p: seq<Id>, id: Id)
    requires IsBackPath(byId, p) && id in byId && (p != [] ==> p[|p| - 1] in Children(byId[id]))
    ensures IsBackPath(byId, p + [id])
  {
    assert Reversed(p + [id]) == [id] + Reversed(p);
    var q := [id] + Reversed(p);
    forall k | 0 <= k < |q| - 1 ensures q[k + 1] in Children(byId[q[k]]) {
      assert k > 0 ==> Reversed(p)[k - 1 + 1] in Children(byId[Reversed(p)[k - 1]]);
    }
  }

  lemma {:induction false} BackPathRepeats(byId: map<Id, Unit>, p: seq<Id>, i: nat)
    requires IsBackPath(byId, p) && i < |p| - 1 && p[i] == p[|p| - 1]
    ensures HasCycle(byId)
  {
    SegmentIsCycle(byId, Reversed(p), 0, |p| - 1 - i);
  }

  lemma {:induction false} MentionsAre(children: seq<Id>, e: Edge, c: Id)
    ensures forall f :: f in Mentions(children, e, c) ==> f == e && c in children
  {
    if children != [] {
      MentionsAre(children[..|children| - 1], e, c);
    }
  }

  /** A recorded edge into `c` comes from a unit that unblocks `c`. */
  lemma {:induction false} IncomingIsRecorded(units: seq<Unit>, c: Id, e: Edge)
    requires e in Incoming(units, c)
    ensures exists k :: 0 <= k < |units| && units[k].id == e.parent && c in Children(units[k])
  {
    var front, u := units[..|units| - 1], units[|units| - 1];
    MentionsAre(u.unblocked, CompleteEdge(u), c);
    MentionsAre(u.unblockedMeta, MetadataEdge(u), c);
    if e in Incoming(front, c) {
      IncomingIsRecorded(front, c, e);
      var k :| 0 <= k < |front| && front[k].id == e.parent && c in Children(front[k]);
      assert units[k] == front[k];
    }
  }

  predicate InTime(byId: map<Id, Unit>, c: Id, e: Edge)
    requires c in byId
  {
    e.release <= byId[c].start + SLACK
  }

  /** The unit that ends last, the first one of those. */
  function Final(units: seq<Unit>): (u: Unit)
    requires units != []
    ensures u in units && forall v :: v in units ==> v.End() <= u.End()
  {
    if |units| == 1 then units[0]
    else
      var u, v := Final(units[..|units| - 1]), units[|units| - 1];
      if v.End() > u.End() then v else u
  }

  lemma {:induction false} FinalIsFirst(units: seq<Unit>)
    requires units != []
    ensures IsFinal(units, Final(units))
  {
    if |units| == 1 {
      assert IsFinalAt(units, 0);
    } else {
      FinalIsFirst(units[..|units| - 1]);
      FinalGrows(units, Final(units[..|units| - 1]));
    }
  }

  /** No unit ends later, and those that end with it come after it. */
  ghost predicate IsFinal(units: seq<Unit>, u: Unit) {
    exists k :: 0 <= k < |units| && units[k] == u && IsFinalAt(units, k)
  }

  ghost predicate IsFinalAt(units: seq<Unit>, k: nat)
    requires k < |units|
  {
    var last := units[k].start + units[k].duration;
    && (forall j :: 0 <= j < |units| ==> units[j].start + units[j].duration <= last)
    && (forall j :: 0 <= j < k ==> units[j].start + units[j].duration < last)
  }

  lemma {:induction false} FinalGrows(units: seq<Unit>, u: Unit)
    requires |units| > 1 && IsFinal(units[..|units| - 1], u)
    ensures var v := units[|units| - 1]; IsFinal(units, if v.End() > u.End() then v else u)
  {
    var n := |units| - 1;
    var front := units[..n];
    var k :| 0 <= k < n && front[k] == u && IsFinalAt(front, k);
    forall j | 0 <= j < n ensures front[j] == units[j] {}
    if units[n].End() > u.End() {
      assert IsFinalAt(units, n);
    } else {
      assert units[k] == u && IsFinalAt(units, k);
    }
  }

  /** `earlier` is the parent of the greatest edge into `later`. */
  predicate Selects(units: seq<Unit>, earlier: Id, later: Id) {
    Incoming(units, later) != [] && Greatest(Incoming(units, later)).parent == earlier
  }

  /** From a unit that waited for nobody to the one that ended last, each step the latest release. */
  ghost predicate IsGatingPath(units: seq<Unit>, path: seq<Id>)
    requires Loaded(units)
  {
    && path != [] && path[|path| - 1] == Final(units).id
    && Incoming(units, path[0]) == []
    && (forall k :: 0 <= k < |path| - 1 ==> Selects(units, path[k], path[k + 1]))
    && IsPath(ById(units), path)
    && |path| <= |units|
  }

  /** The units found so far, the last one first; `current` comes next. */
  ghost predicate Walking(units: seq<Unit>, chain: seq<Id>, current: Id)
    requires Loaded(units)
  {
    && current in Ids(units) && (forall c :: c in chain ==> c in Ids(units))
    && (forall i, j :: 0 <= i < j < |chain| ==> chain[i] != chain[j])
    && IsChain(units, chain + [current])
  }

  ghost predicate IsChain(units: seq<Unit>, chain: seq<Id>)
    requires Loaded(units)
  {
    && chain != [] && chain[0] == Final(units).id
    && IsBackPath(ById(units), chain)
    && forall k :: 0 <= k < |chain| - 1 ==> Selects(units, chain[k + 1], chain[k])
  }

  lemma {:induction false} WalkStarts(units: seq<Unit>)
    requires Loaded(units)
    ensures Walking(units, [], Final(units).id)
  {
    assert [] + [Final(units).id] == [Final(units).id];
  }

  lemma {:induction false} WalkMoves(units: seq<Unit>, chain: seq<Id>, current: Id)
    requires Loaded(units) && Walking(units, chain, current) && current !in chain && Incoming(units, current) != []
    ensures Walking(units, chain + [current], Greatest(Incoming(units, current)).parent)
  {
    var latest := Greatest(Incoming(units, current));
    IncomingIsRecorded(units, current, latest);
    BackPathGrows(ById(units), chain + [current], latest.parent);
    var longer, next := chain + [current], chain + [current] + [latest.parent];
    forall k | 0 <= k < |next| - 1 ensures Selects(units, next[k + 1], next[k]) {
      assert k < |longer| - 1 ==> Selects(units, longer[k + 1], longer[k]);
    }
  }

  lemma {:induction false} WalkRepeats(units: seq<Unit>, chain: seq<Id>, current: Id)
    requires Loaded(units) && Walking(units, chain, current) && current in chain
    ensures HasCycle(ById(units))
  {
    var i :| 0 <= i < |chain| && chain[i] == current;
    BackPathRepeats(ById(units), chain + [current], i);
  }

  lemma {:induction false} WalkIsShort(units: seq<Unit>, chain: seq<Id>, current: Id)
    requires Loaded(units) && Walking(units, chain, current) && current !in chain
    ensures |chain + [current]| <= |units|
  {
    ShortOrder(units, chain + [current]);
  }

  lemma {:induction false} WalkEnds(units: seq<Unit>, chain: seq<Id>)
    requires Loaded(units) && IsChain(units, chain) && |chain| <= |units| && Incoming(units, chain[|chain| - 1]) == []
    ensures IsGatingPath(units, Reversed(chain))
  {
    var path := Reversed(chain);
    forall k | 0 <= k < |path| - 1 ensures Selects(units, path[k], path[k + 1]) {
      var j := |chain| - 2 - k;
      assert Selects(units, chain[j + 1], chain[j]);
    }
  }

  method WalkBack(units: seq<Unit>, predecessors: map<Id, seq<Edge>>) returns (r: Result<seq<Id>, Failure>)
    requires Loaded(units)
    requires Recorded(units, predecessors)
    ensures r.Ok? ==> IsGatingPath(units, r.value)
    ensures r.Err? ==> r.error.WalkCycle? || r.error.LateEdge?
    ensures r.Err? && r.error.WalkCycle? ==> HasCycle(ById(units))
    ensures r.Err? && r.error.LateEdge? ==> !EdgesAreGood(units)
  {
    var byId := ById(units);
    var current := Final(units).id;
    var seen: set<Id> := {};
    var chain: seq<Id> := [];
    WalkStarts(units);
    while true
      invariant seen == Set(chain) && Walking(units, chain, current)
      decreases |units| - |chain|
    {
      if current in seen {
        WalkRepeats(units, chain, current);
        return Err(WalkCycle);
      }
      seen := seen + {current};
      var incoming := predecessors[current];
      WalkIsShort(units, chain, current);
      if incoming == [] {
        chain := chain + [current];
        break;
      }
      var latest := Greatest(incoming);
      if latest.release > byId[current].start + SLACK {
        LateIsBad(units, current, latest);
        return Err(LateEdge);
      }
      WalkMoves(units, chain, current);
      chain := chain + [current];
      current := latest.parent;
    }
    WalkEnds(units, chain);
    return Ok(Reversed(chain));
  }

  lemma {:induction false} LateIsBad(units: seq<Unit>, c: Id, e: Edge)
    requires Loaded(units) && c in Ids(units) && e in Incoming(units, c) && !InTime(ById(units), c, e)
    ensures !EdgesAreGood(units)
  {}

  // ----- the whole check -----

  /** No unit releases itself, and none is released clearly after it started. */
  predicate EdgesFit(byId: map<Id, Unit>, predecessors: map<Id, seq<Edge>>)
    requires predecessors.Keys == byId.Keys
  {
    forall c, e :: c in predecessors.Keys && e in predecessors[c] ==> e.parent != c && InTime(byId, c, e)
  }

  ghost predicate EdgesAreGood(units: seq<Unit>)
    requires Loaded(units)
  {
    forall c, e :: c in ById(units) && e in Incoming(units, c) ==> e.parent != c && InTime(ById(units), c, e)
  }

  lemma {:induction false} FitIsGood(units: seq<Unit>, predecessors: map<Id, seq<Edge>>)
    requires Loaded(units) && Recorded(units, predecessors)
    ensures EdgesFit(ById(units), predecessors) <==> EdgesAreGood(units)
  {}

  // ----- the same, by starts, durations and frontends -----

  /** `u` lets `c` go at this time: when it is complete, or when its metadata is. */
  predicate Releases(u: Unit, c: Id, release: nat, kind: Kind) {
    if kind == Complete then c in u.unblocked && release == u.start + u.duration
    else c in u.unblockedMeta && u.frontend.Some? && release == u.start + u.frontend.value
  }

  lemma {:induction false} MentionsExactly(children: seq<Id>, e: Edge, c: Id)
    ensures forall f :: f in Mentions(children, e, c) <==> f == e && c in children
  {
    if children != [] {
      var n := |children| - 1;
      assert children == children[..n] + [children[n]];
      MentionsExactly(children[..n], e, c);
    }
  }

  ghost predicate IsEdge(units: seq<Unit>, e: Edge, c: Id) {
    exists k :: 0 <= k < |units| && units[k].id == e.parent && Releases(units[k], c, e.release, e.kind)
  }

  lemma {:induction false} EdgeOfMore(units: seq<Unit>, c: Id, e: Edge)
    requires units != []
    ensures var u := units[|units| - 1];
      IsEdge(units, e, c)
      <==> IsEdge(units[..|units| - 1], e, c) || (u.id == e.parent && Releases(u, c, e.release, e.kind))
  {
    var n := |units| - 1;
    var front := units[..n];
    if IsEdge(units, e, c) {
      var k :| 0 <= k < |units| && units[k].id == e.parent && Releases(units[k], c, e.release, e.kind);
      assert k < n ==> front[k] == units[k];
    }
    if IsEdge(front, e, c) {
      var k :| 0 <= k < n && front[k].id == e.parent && Releases(front[k], c, e.release, e.kind);
      assert units[k] == front[k];
    }
  }

  lemma {:induction false} EdgesOfOne(u: Unit, c: Id, e: Edge)
    requires u.unblockedMeta != [] ==> u.frontend.Some?
    ensures e in EdgesFrom(u, c) <==> u.id == e.parent && Releases(u, c, e.release, e.kind)
  {
    MentionsExactly(u.unblocked, CompleteEdge(u), c);
    MentionsExactly(u.unblockedMeta, MetadataEdge(u), c);
  }

  /** The edges recorded for a unit are exactly the releases of it. */
  lemma {:induction false} EdgesExactly(units: seq<Unit>, c: Id, e: Edge)
    requires HasFrontends(units)
    ensures e in Incoming(units, c) <==> IsEdge(units, e, c)
  {
    if units != [] {
      var n := |units| - 1;
      forall j | 0 <= j < n ensures units[..n][j] == units[j] {}
      EdgesExactly(units[..n], c, e);
      EdgeOfMore(units, c, e);
      EdgesOfOne(units[n], c, e);
    }
  }

  /** No unit releases itself, and none is released more than 30 ticks after its start. */
  ghost predicate NoneIsLate(units: seq<Unit>) {
    forall j, k, release: nat, kind ::
      0 <= j < |units| && 0 <= k < |units| && Releases(units[j], units[k].id, release, kind) ==>
        units[j].id != units[k].id && release <= units[k].start + 30
  }

  lemma {:induction false} GoodIsNotLate(units: seq<Unit>, j: nat, k: nat, release: nat, kind: Kind)
    requires Loaded(units) && HasFrontends(units) && EdgesAreGood(units)
    requires j < |units| && k < |units| && Releases(units[j], units[k].id, release, kind)
    ensures units[j].id != units[k].id && release <= units[k].start + 30
  {
    var e := Edge(release, units[j].id, kind);
    assert IsEdge(units, e, units[k].id);
    EdgesExactly(units, units[k].id, e);
  }

  lemma {:induction false} NotLateIsGood(units: seq<Unit>, c: Id, e: Edge)
    requires Loaded(units) && HasFrontends(units) && NoneIsLate(units) && c in ById(units) && e in Incoming(units, c)
    ensures e.parent != c && InTime(ById(units), c, e)
  {
    EdgesExactly(units, c, e);
    var j :| 0 <= j < |units| && units[j].id == e.parent && Releases(units[j], c, e.release, e.kind);
    var k :| 0 <= k < |units| && units[k].id == c;
  }

  lemma {:induction false} GoodExactly(units: seq<Unit>)
    requires Loaded(units) && HasFrontends(units)
    ensures EdgesAreGood(units) <==> NoneIsLate(units)
  {
    if EdgesAreGood(units) {
      forall j, k, release: nat, kind |
        0 <= j < |units| && 0 <= k < |units| && Releases(units[j], units[k].id, release, kind)
        ensures units[j].id != units[k].id && release <= units[k].start + 30
      {
        GoodIsNotLate(units, j, k, release, kind);
      }
    }
    if NoneIsLate(units) {
      forall c, e | c in ById(units) && e in Incoming(units, c) ensures e.parent != c && InTime(ById(units), c, e) {
        NotLateIsGood(units, c, e);
      }
    }
  }

  /** The release of `later` by `earlier` that no other release of `later` comes after. */
  ghost predicate ReleasesLast(units: seq<Unit>, earlier: Id, later: Id) {
    exists e :: IsLastEdge(units, earlier, later, e)
  }

  ghost predicate IsLastEdge(units: seq<Unit>, earlier: Id, later: Id, e: Edge) {
    && e.parent == earlier && IsEdge(units, e, later)
    && forall f :: IsEdge(units, f, later) ==>
         f.release < e.release || (f.release == e.release && f.parent.number <= e.parent.number)
  }

  lemma {:induction false} SelectsLast(units: seq<Unit>, earlier: Id, later: Id)
    requires HasFrontends(units) && Selects(units, earlier, later)
    ensures ReleasesLast(units, earlier, later)
  {
    var e := Greatest(Incoming(units, later));
    EdgesExactly(units, later, e);
    forall f | IsEdge(units, f, later)
      ensures f.release < e.release || (f.release == e.release && f.parent.number <= e.parent.number)
    {
      EdgesExactly(units, later, f);
    }
    assert IsLastEdge(units, earlier, later, e);
  }

  /**
   The path ends at the unit that ends last and begins at one that waited for nobody; between them
   each unit was let go last by the one before it.
   */
  ghost predicate IsCriticalPath(units: seq<Unit>, path: seq<Id>) {
    && path != []
    && (exists k :: 0 <= k < |units| && units[k].id == path[|path| - 1] && IsFinalAt(units, k))
    && (forall e :: !IsEdge(units, e, path[0]))
    && forall k :: 0 <= k < |path| - 1 ==> ReleasesLast(units, path[k], path[k + 1])
  }

  lemma {:induction false} GatingIsCritical(units: seq<Unit>, path: seq<Id>)
    requires Loaded(units) && HasFrontends(units) && IsGatingPath(units, path)
    ensures IsCriticalPath(units, path)
  {
    var last := Final(units);
    FinalIsFirst(units);
    var k :| 0 <= k < |units| && units[k] == last && IsFinalAt(units, k);
    assert units[k].id == path[|path| - 1];
    forall e ensures !IsEdge(units, e, path[0]) {
      EdgesExactly(units, path[0], e);
    }
    forall k | 0 <= k < |path| - 1 ensures ReleasesLast(units, path[k], path[k + 1]) {
      SelectsLast(units, path[k], path[k + 1]);
    }
  }

  /**
   The timings are accepted exactly when every edge is good and there is no cycle, and then the
   gating path is found: the walk's own checks never fail.
   */
  method Gate(units: seq<Unit>) returns (r: Result<seq<Id>, Failure>)
    requires Loaded(units) && Closed(units)
    ensures r.Ok? <==> HasFrontends(units) && NoneIsLate(units) && !HasCycle(ById(units))
    ensures r.Ok? ==> IsGatingPath(units, r.value) && IsCriticalPath(units, r.value)
    ensures r.Err? ==>
      r.error == (if !HasFrontends(units) then NoFrontend else if !NoneIsLate(units) then BadEdge else CountCycle)
  {
    var edges := Predecessors(units);
    if edges.Err? {
      return Err(edges.error);
    }
    var predecessors := edges.value;
    FitIsGood(units, predecessors);
    GoodExactly(units);
    if !EdgesFit(ById(units), predecessors) {
      return Err(BadEdge);
    }
    var visited := CountUnits(units, predecessors);
    if visited != |units| {
      return Err(CountCycle);
    }
    r := WalkBack(units, predecessors);
    if r.Ok? {
      GatingIsCritical(units, r.value);
    }
  }
}

/**
 Release tags on a compare's range (crates/adapters/src/releases.rs): the
 first-parent path cut at tags, and the commits each step adds.
 */
module Releases {
  import opened Collections
  import opened Wrappers

  datatype Commit = Sha(text: string)
  datatype TagName = TagName(text: string)

  /** The timeline keeps the newest this many tags. */
  const MAX_RELEASES: nat := 30

  datatype Ranged = Ranged(sha: Commit, parent: Option<Commit>)
  datatype Tag = Tag(name: TagName, sha: Commit)
  /** A tag chosen for the timeline and where on the path it stands. */
  datatype Mark = Mark(at: nat, name: TagName)
  datatype Step = Step(tag: Option<TagName>, from: Commit, to: Commit)

  // ----- the first-parent path -----

  /** A later entry for a commit replaces an earlier one. */
  function ParentMap(range: seq<Ranged>): map<Commit, Option<Commit>> {
    if range == [] then map[]
    else ParentMap(range[..|range| - 1])[range[|range| - 1].sha := range[|range| - 1].parent]
  }

  /** The first parent, when the range holds it. */
  function Up(parents: map<Commit, Option<Commit>>, sha: Commit): Option<Commit>
    requires sha in parents
  {
    if parents[sha].Some? && parents[sha].value in parents then parents[sha] else None
  }

  /** At most `room` commits from `sha` up its first parents, newest first. */
  function Walk(parents: map<Commit, Option<Commit>>, sha: Commit, room: nat): (path: seq<Commit>)
    requires sha in parents && room > 0
    ensures 0 < |path| <= room && path[0] == sha
    ensures forall i :: 0 <= i < |path| ==> path[i] in parents
    ensures |path| < room ==> Up(parents, path[|path| - 1]) == None
    decreases room
  {
    var up := Up(parents, sha);
    if up.None? || room == 1 then [sha] else [sha] + Walk(parents, up.value, room - 1)
  }

  function Reversed(s: seq<Commit>): (r: seq<Commit>)
    ensures |r| == |s| && forall i :: 0 <= i < |s| ==> r[i] == s[|s| - 1 - i]
  {
    if s == [] then [] else Reversed(s[1..]) + [s[0]]
  }

  /** The path from the oldest commit reached to the head; empty when the head is outside the range. */
  function PathTo(range: seq<Ranged>, head: Commit): seq<Commit> {
    var parents := ParentMap(range);
    if head in parents then Reversed(Walk(parents, head, |range| + 1)) else []
  }

  lemma {:induction false} FewKeys(range: seq<Ranged>)
    ensures |ParentMap(range)| <= |range|
  {
    if range != [] {
      var front := range[..|range| - 1];
      FewKeys(front);
      assert ParentMap(range).Keys == ParentMap(front).Keys + {range[|range| - 1].sha};
    }
  }

  predicate Distinct(s: seq<Commit>) {
    forall i, j :: 0 <= i < j < |s| ==> s[i] != s[j]
  }

  lemma {:induction false} DistinctIsShort(s: seq<Commit>, keys: set<Commit>)
    requires Distinct(s) && forall i :: 0 <= i < |s| ==> s[i] in keys
    ensures |s| <= |keys|
  {
    if s != [] {
      DistinctIsShort(s[1..], keys - {s[0]});
    }
  }

  /** The commit `n` first parents above `sha`, as far as the range holds them. */
  function Ancestor(parents: map<Commit, Option<Commit>>, sha: Commit, n: nat): (top: Option<Commit>)
    requires sha in parents
    ensures top.Some? ==> top.value in parents
    decreases n
  {
    if n == 0 then Some(sha)
    else if Up(parents, sha).None? then None
    else Ancestor(parents, Up(parents, sha).value, n - 1)
  }

  /** The first parents above `sha` come back to it. */
  ghost predicate InCycle(parents: map<Commit, Option<Commit>>, sha: Commit)
    requires sha in parents
  {
    exists n: nat :: n > 0 && Ancestor(parents, sha, n) == Some(sha)
  }

  ghost predicate MeetsCycle(parents: map<Commit, Option<Commit>>, head: Commit)
    requires head in parents
  {
    exists n: nat :: Ancestor(parents, head, n).Some? && InCycle(parents, Ancestor(parents, head, n).value)
  }

  lemma {:induction false} AncestorOn(parents: map<Commit, Option<Commit>>, sha: Commit, n: nat, m: nat)
    requires sha in parents
    ensures Ancestor(parents, sha, n + m) ==
      if Ancestor(parents, sha, n).Some? then Ancestor(parents, Ancestor(parents, sha, n).value, m) else None
    decreases n
  {
    if n > 0 && Up(parents, sha).Some? {
      AncestorOn(parents, Up(parents, sha).value, n - 1, m);
    }
  }

  lemma {:induction false} WalkIsAncestor(parents: map<Commit, Option<Commit>>, sha: Commit, room: nat, k: nat)
    requires sha in parents && room > 0 && k < |Walk(parents, sha, room)|
    ensures Ancestor(parents, sha, k) == Some(Walk(parents, sha, room)[k])
    decreases room
  {
    if k > 0 {
      WalkIsAncestor(parents, Up(parents, sha).value, room - 1, k - 1);
    }
  }

  /** Who comes back once always goes on. */
  lemma {:induction false} CycleGoesOn(parents: map<Commit, Option<Commit>>, sha: Commit, round: nat, n: nat)
    requires sha in parents && round > 0 && Ancestor(parents, sha, round) == Some(sha)
    ensures Ancestor(parents, sha, n).Some?
    decreases n
  {
    if n <= round {
      AncestorOn(parents, sha, n, round - n);
    } else {
      AncestorOn(parents, sha, round, n - round);
      CycleGoesOn(parents, sha, round, n - round);
    }
  }

  lemma {:induction false} EndedMeetsNoCycle(parents: map<Commit, Option<Commit>>, head: Commit, end: nat)
    requires head in parents && Ancestor(parents, head, end) == None
    ensures !MeetsCycle(parents, head)
  {
    forall n: nat | Ancestor(parents, head, n).Some?
      ensures !InCycle(parents, Ancestor(parents, head, n).value)
    {
      var c := Ancestor(parents, head, n).value;
      forall round: nat | round > 0 ensures Ancestor(parents, c, round) != Some(c) {
        if Ancestor(parents, c, round) == Some(c) {
          CycleGoesOn(parents, c, round, end);
          AncestorOn(parents, head, n, end);
          AncestorOn(parents, head, end, n);
        }
      }
    }
  }

  lemma {:induction false} RepeatIsCycle(parents: map<Commit, Option<Commit>>, head: Commit, room: nat, i: nat, j: nat)
    requires head in parents && room > 0
    requires var w := Walk(parents, head, room); i < j < |w| && w[i] == w[j]
    ensures MeetsCycle(parents, head)
  {
    var c := Walk(parents, head, room)[i];
    WalkIsAncestor(parents, head, room, i);
    WalkIsAncestor(parents, head, room, j);
    AncestorOn(parents, head, i, j - i);
    assert InCycle(parents, c);
  }

  /** A walk as long as the guard allows has met more commits than the range holds. */
  lemma {:induction false} GuardMeansRepeat(range: seq<Ranged>, head: Commit)
    requires head in ParentMap(range) && |Walk(ParentMap(range), head, |range| + 1)| == |range| + 1
    ensures !Distinct(Walk(ParentMap(range), head, |range| + 1))
  {
    FewKeys(range);
    if Distinct(Walk(ParentMap(range), head, |range| + 1)) {
      DistinctIsShort(Walk(ParentMap(range), head, |range| + 1), ParentMap(range).Keys);
    }
  }

  /**
   The path starts at a commit whose first parent is outside the range exactly if the first parents
   above the head do not run into a cycle; only a cycle reaches the length guard.
   */
  lemma {:induction false} PathIsComplete(range: seq<Ranged>, head: Commit)
    requires head in ParentMap(range)
    ensures Up(ParentMap(range), PathTo(range, head)[0]) == None <==> !MeetsCycle(ParentMap(range), head)
  {
    var parents := ParentMap(range);
    var w := Walk(parents, head, |range| + 1);
    var last := |w| - 1;
    WalkIsAncestor(parents, head, |range| + 1, last);
    AncestorOn(parents, head, last, 1);
    if Up(parents, w[last]) == None {
      EndedMeetsNoCycle(parents, head, last + 1);
    } else {
      GuardMeansRepeat(range, head);
      var i, j :| 0 <= i < j < |w| && w[i] == w[j];
      RepeatIsCycle(parents, head, |range| + 1, i, j);
    }
  }

  /** Two commits that name each other as first parent: the path stops at the guard, inside the range. */
  lemma {:induction false} CyclicPathIsCut(a: Commit, b: Commit)
    requires a != b
    ensures var range := [Ranged(a, Some(b)), Ranged(b, Some(a))];
      PathTo(range, a) == [a, b, a] && Up(ParentMap(range), PathTo(range, a)[0]) == Some(b)
  {
    var range := [Ranged(a, Some(b)), Ranged(b, Some(a))];
    var first := range[..1];
    assert ParentMap(first) == ParentMap(first[..0])[a := Some(b)];
    assert ParentMap(range) == ParentMap(first)[b := Some(a)];
    var parents := ParentMap(range);
    assert Up(parents, a) == Some(b) && Up(parents, b) == Some(a);
    var room := |range| + 1;
    assert Walk(parents, a, room - 2) == [a];
    assert Walk(parents, b, room - 1) == [b] + Walk(parents, a, room - 2);
    assert Walk(parents, a, room) == [a] + Walk(parents, b, room - 1);
    assert Walk(parents, a, room) == [a, b, a];
  }

  /** The last entry for `sha` is `range[i]`. */
  predicate IsEntry(range: seq<Ranged>, i: nat, sha: Commit) {
    i < |range| && range[i].sha == sha && forall j :: i < j < |range| ==> range[j].sha != sha
  }

  ghost predicate IsFirstParent(range: seq<Ranged>, child: Commit, parent: Commit) {
    exists i: nat :: IsEntry(range, i, child) && range[i].parent == Some(parent)
  }

  predicate IsListed(range: seq<Ranged>, sha: Commit) {
    exists i :: 0 <= i < |range| && range[i].sha == sha
  }

  lemma {:induction false} ParentsExactly(range: seq<Ranged>, sha: Commit)
    ensures sha in ParentMap(range) <==> IsListed(range, sha)
    ensures sha in ParentMap(range) ==>
      exists i: nat :: IsEntry(range, i, sha) && range[i].parent == ParentMap(range)[sha]
  {
    if range != [] {
      var n := |range| - 1;
      var front := range[..n];
      ParentsExactly(front, sha);
      assert forall i :: 0 <= i < n ==> front[i] == range[i];
      if range[n].sha == sha {
        assert IsEntry(range, n, sha);
      } else if sha in ParentMap(range) {
        var i: nat :| IsEntry(front, i, sha) && front[i].parent == ParentMap(front)[sha];
        assert IsEntry(range, i, sha);
      }
    }
  }

  lemma {:induction false} UpExactly(range: seq<Ranged>, sha: Commit)
    requires sha in ParentMap(range)
    ensures var up := Up(ParentMap(range), sha);
      && (up.Some? ==> IsFirstParent(range, sha, up.value) && IsListed(range, up.value))
      && (up.None? ==> forall p :: IsFirstParent(range, sha, p) ==> !IsListed(range, p))
  {
    var parents := ParentMap(range);
    ParentsExactly(range, sha);
    var i: nat :| IsEntry(range, i, sha) && range[i].parent == parents[sha];
    assert forall j: nat :: IsEntry(range, j, sha) ==> j == i;
    if parents[sha].Some? {
      ParentsExactly(range, parents[sha].value);
    }
  }

  /** Each step of a walk goes to the first parent that was listed last for the commit. */
  lemma {:induction false} WalkClimbs(range: seq<Ranged>, sha: Commit, room: nat, k: nat)
    requires sha in ParentMap(range) && room > 0 && k + 1 < |Walk(ParentMap(range), sha, room)|
    ensures var w := Walk(ParentMap(range), sha, room); IsFirstParent(range, w[k], w[k + 1]) && IsListed(range, w[k])
    decreases room
  {
    var parents := ParentMap(range);
    UpExactly(range, sha);
    ParentsExactly(range, sha);
    if k > 0 {
      WalkClimbs(range, Up(parents, sha).value, room - 1, k - 1);
    }
  }

  /** The path goes down from first parent to child, as far up as the range lists them, and ends at the head. */
  lemma {:induction false} PathExactly(range: seq<Ranged>, head: Commit)
    ensures var path := PathTo(range, head);
      && (path == [] <==> !IsListed(range, head))
      && (forall i :: 0 <= i < |path| - 1 ==> IsFirstParent(range, path[i + 1], path[i]))
      && (path != [] ==> path[|path| - 1] == head)
      && (path != [] && |path| <= |range| ==>
            forall p :: IsFirstParent(range, path[0], p) ==> !IsListed(range, p))
      && |path| <= |range| + 1
  {
    var parents, path := ParentMap(range), PathTo(range, head);
    ParentsExactly(range, head);
    if path != [] {
      var w := Walk(parents, head, |range| + 1);
      var n := |w|;
      forall i | 0 <= i < n - 1 ensures IsFirstParent(range, path[i + 1], path[i]) {
        WalkClimbs(range, head, |range| + 1, n - 2 - i);
        assert path[i + 1] == w[n - 2 - i] && path[i] == w[n - 1 - i];
      }
      UpExactly(range, w[n - 1]);
    }
  }

  // ----- the tag chosen at a commit -----

  /** The tags are taken as listed; a released one replaces an unreleased one. */
  function Choose(tags: seq<Tag>, released: set<TagName>, sha: Commit): Option<TagName> {
    if tags == [] then None
    else Preferred(Choose(tags[..|tags| - 1], released, sha), tags[|tags| - 1], released, sha)
  }

  function Preferred(kept: Option<TagName>, tag: Tag, released: set<TagName>, sha: Commit): Option<TagName> {
    if tag.sha != sha then kept
    else if kept.Some? && (kept.value in released || tag.name !in released) then kept
    else Some(tag.name)
  }

  /** Tag `k` is the first released one at its commit, or the first listed where none is released. */
  ghost predicate IsChoice(tags: seq<Tag>, released: set<TagName>, k: nat)
    requires k < |tags|
  {
    if tags[k].name in released
    then forall j :: 0 <= j < k && tags[j].sha == tags[k].sha ==> tags[j].name !in released
    else && (forall j :: 0 <= j < k ==> tags[j].sha != tags[k].sha)
         && (forall j :: 0 <= j < |tags| && tags[j].sha == tags[k].sha ==> tags[j].name !in released)
  }

  lemma {:induction false} ChoiceIsFirst(tags: seq<Tag>, released: set<TagName>, sha: Commit)
    ensures Choose(tags, released, sha) == None <==> forall j :: 0 <= j < |tags| ==> tags[j].sha != sha
    ensures Choose(tags, released, sha).Some? ==>
      exists k :: 0 <= k < |tags| && tags[k] == Tag(Choose(tags, released, sha).value, sha)
        && IsChoice(tags, released, k)
  {
    if tags != [] {
      var n := |tags| - 1;
      var front := tags[..n];
      ChoiceIsFirst(front, released, sha);
      var kept, chosen := Choose(front, released, sha), Choose(tags, released, sha);
      if chosen.Some? && chosen == kept {
        var k :| 0 <= k < n && front[k] == Tag(kept.value, sha) && IsChoice(front, released, k);
        assert forall j :: 0 <= j < n ==> front[j] == tags[j];
        assert IsChoice(tags, released, k);
      } else if chosen.Some? {
        assert forall j :: 0 <= j < n ==> front[j] == tags[j];
        NoneReleased(front, released, sha);
        assert IsChoice(tags, released, n);
      }
    }
  }

  /** An unreleased choice means that no released tag was listed at the commit. */
  lemma {:induction false} NoneReleased(tags: seq<Tag>, released: set<TagName>, sha: Commit)
    requires Choose(tags, released, sha).None? || Choose(tags, released, sha).value !in released
    ensures forall j :: 0 <= j < |tags| && tags[j].sha == sha ==> tags[j].name !in released
    ensures Choose(tags, released, sha).None? ==> forall j :: 0 <= j < |tags| ==> tags[j].sha != sha
  {
    if tags != [] {
      var front := tags[..|tags| - 1];
      NoneReleased(front, released, sha);
      assert forall j :: 0 <= j < |front| ==> front[j] == tags[j];
    }
  }

  // ----- the steps -----

  /** Where a commit stands on the path; on a cyclic path, its last place. */
  predicate IsPlace(path: seq<Commit>, i: nat) {
    i < |path| && forall j :: i < j < |path| ==> path[j] != path[i]
  }

  /** The chosen tags of the path, oldest first, with their places. */
  function Placed(path: seq<Commit>, tags: seq<Tag>, released: set<TagName>, n: nat): (placed: seq<Mark>)
    requires n <= |path|
    ensures forall m :: m in placed ==> m.at < n
    ensures forall k, l :: 0 <= k < l < |placed| ==> placed[k].at < placed[l].at
  {
    if n == 0 then []
    else Placed(path, tags, released, n - 1) + PlacedAt(path, tags, released, n - 1)
  }

  function PlacedAt(path: seq<Commit>, tags: seq<Tag>, released: set<TagName>, i: nat): seq<Mark>
    requires i < |path|
  {
    var chosen := Choose(tags, released, path[i]);
    if IsPlace(path, i) && chosen.Some? then [Mark(i, chosen.value)] else []
  }

  predicate IsMark(path: seq<Commit>, tags: seq<Tag>, released: set<TagName>, m: Mark) {
    IsPlace(path, m.at) && Choose(tags, released, path[m.at]) == Some(m.name)
  }

  /** Exactly the places with a chosen tag, each with its choice. */
  lemma {:induction false} PlacedIsChosen(path: seq<Commit>, tags: seq<Tag>, released: set<TagName>, n: nat)
    requires n <= |path|
    ensures forall m :: m in Placed(path, tags, released, n) <==> m.at < n && IsMark(path, tags, released, m)
  {
    if n > 0 {
      PlacedIsChosen(path, tags, released, n - 1);
    }
  }

  /** The marks by commits and tags: a place has one exactly if a tag lies there, by the name chosen there. */
  lemma {:induction false} MarksExactly(
      range: seq<Ranged>, head: Commit, tags: seq<Tag>, released: set<TagName>, i: nat)
    requires i < |PathTo(range, head)|
    ensures var (path, marks) := (PathTo(range, head), Marks(range, head, tags, released));
      && ((exists m :: m in marks && m.at == i) <==>
            && (forall j :: i < j < |path| ==> path[j] != path[i])
            && (exists k :: 0 <= k < |tags| && tags[k].sha == path[i]))
      && forall m :: m in marks && m.at == i ==>
           exists k :: 0 <= k < |tags| && tags[k] == Tag(m.name, path[i]) && IsChoice(tags, released, k)
  {
    var path, marks := PathTo(range, head), Marks(range, head, tags, released);
    PlacedIsChosen(path, tags, released, |path|);
    ChoiceIsFirst(tags, released, path[i]);
    var chosen := Choose(tags, released, path[i]);
    if IsPlace(path, i) && chosen.Some? {
      assert Mark(i, chosen.value) in marks;
    }
  }

  function Names(placed: seq<Mark>): seq<TagName> {
    seq(|placed|, k requires 0 <= k < |placed| => placed[k].name)
  }

  function Excess(placed: seq<Mark>): nat {
    if |placed| > MAX_RELEASES then |placed| - MAX_RELEASES else 0
  }

  /** Where the step of `kept[k]` starts: at the tag before it, or at the base. */
  function StartOf(path: seq<Commit>, base: Commit, kept: seq<Mark>, k: nat): Commit
    requires k <= |kept| && OnPath(path, kept)
  {
    if k == 0 then base else path[kept[k - 1].at]
  }

  predicate OnPath(path: seq<Commit>, marks: seq<Mark>) {
    forall m :: m in marks ==> m.at < |path|
  }

  /** The steps of the kept tags: each starts where the one before it ended. */
  function TagSteps(path: seq<Commit>, base: Commit, kept: seq<Mark>): (steps: seq<Step>)
    requires OnPath(path, kept)
    ensures |steps| == |kept|
  {
    if kept == [] then []
    else
      var n := |kept| - 1;
      TagSteps(path, base, kept[..n]) + [Step(Some(kept[n].name), StartOf(path, base, kept, n), path[kept[n].at])]
  }

  lemma {:induction false} TagStepAt(path: seq<Commit>, base: Commit, kept: seq<Mark>, k: nat)
    requires OnPath(path, kept) && k < |kept|
    ensures TagSteps(path, base, kept)[k] == Step(Some(kept[k].name), StartOf(path, base, kept, k), path[kept[k].at])
  {
    if k < |kept| - 1 {
      TagStepAt(path, base, kept[..|kept| - 1], k);
    }
  }

  function Tail(path: seq<Commit>, steps: seq<Step>): seq<Step> {
    if path != [] && steps != [] && path[|path| - 1] != steps[|steps| - 1].to
    then [Step(None, steps[|steps| - 1].to, path[|path| - 1])] else []
  }

  /** The steps of one path and its marks, and the names folded into the first. */
  function Cut(path: seq<Commit>, base: Commit, placed: seq<Mark>): (seq<Step>, seq<TagName>)
    requires OnPath(path, placed)
  {
    var steps := TagSteps(path, base, placed[Excess(placed)..]);
    (steps + Tail(path, steps), Names(placed[..Excess(placed)]))
  }

  function Marks(range: seq<Ranged>, head: Commit, tags: seq<Tag>, released: set<TagName>): (placed: seq<Mark>)
    ensures OnPath(PathTo(range, head), placed)
  {
    Placed(PathTo(range, head), tags, released, |PathTo(range, head)|)
  }

  function Timeline(range: seq<Ranged>, base: Commit, head: Commit, tags: seq<Tag>, released: set<TagName>)
    : (seq<Step>, seq<TagName>)
  {
    Cut(PathTo(range, head), base, Marks(range, head, tags, released))
  }

  // ----- the source's code -----

  method Steps(range: seq<Ranged>, base: Commit, head: Commit, tags: seq<Tag>, released: set<TagName>)
    returns (steps: seq<Step>, folded: seq<TagName>)
    ensures (steps, folded) == Timeline(range, base, head, tags, released)
  {
    var path := FollowPath(range, head);
    var placed := PlaceTags(path, tags, released);
    steps, folded := CutAtTags(path, base, placed);
  }

  method FirstParents(range: seq<Ranged>) returns (parents: map<Commit, Option<Commit>>)
    ensures parents == ParentMap(range)
  {
    parents := map[];
    for i := 0 to |range|
      invariant parents == ParentMap(range[..i])
    {
      assert range[..i + 1][..i] == range[..i];
      parents := parents[range[i].sha := range[i].parent];
    }
    assert range[..|range|] == range;
  }

  method FollowPath(range: seq<Ranged>, head: Commit) returns (path: seq<Commit>)
    ensures path == PathTo(range, head)
  {
    var parents := FirstParents(range);
    path := [];
    if head in parents {
      path := Climb(parents, head, |range|);
      path := Reversed(path);
    }
  }

  /** Each commit is pushed, then its first parent is next while at most `limit` are on the path. */
  method Climb(parents: map<Commit, Option<Commit>>, head: Commit, limit: nat) returns (path: seq<Commit>)
    requires head in parents
    ensures path == Walk(parents, head, limit + 1)
  {
    path := [];
    var at := Some(head);
    ghost var room: nat := limit + 1;
    ghost var whole := Walk(parents, head, room);
    assert [] + whole == whole;
    while at.Some?
      invariant room + |path| == limit + 1 && Climbing(parents, whole, path, at, room)
      decreases room
    {
      ClimbOne(parents, whole, path, at.value, room);
      assert NextUp(parents, at.value, room) == if |path| < limit then Up(parents, at.value) else None;
      var next := if |path| < limit then Up(parents, at.value) else None;
      path := path + [at.value];
      at := next;
      room := room - 1;
    }
    assert path + [] == path;
  }

  /** What is on the path, and what the walk from `at` adds to it, is the whole walk. */
  ghost predicate Climbing(
      parents: map<Commit, Option<Commit>>, whole: seq<Commit>, path: seq<Commit>, at: Option<Commit>, room: nat) {
    && (at.Some? ==> at.value in parents && room > 0)
    && whole == path + Rest(parents, at, room)
  }

  ghost function Rest(parents: map<Commit, Option<Commit>>, at: Option<Commit>, room: nat): seq<Commit>
    requires at.Some? ==> at.value in parents && room > 0
  {
    if at.Some? then Walk(parents, at.value, room) else []
  }

  ghost function NextUp(parents: map<Commit, Option<Commit>>, sha: Commit, room: nat): (up: Option<Commit>)
    requires sha in parents
    ensures up.Some? ==> up.value in parents && room > 1
  {
    if room > 1 then Up(parents, sha) else None
  }

  lemma {:induction false} ClimbOne(
      parents: map<Commit, Option<Commit>>, whole: seq<Commit>, path: seq<Commit>, sha: Commit, room: nat)
    requires room > 0 && sha in parents && Climbing(parents, whole, path, Some(sha), room)
    ensures Climbing(parents, whole, path + [sha], NextUp(parents, sha, room), room - 1)
  {
    WalkOne(parents, sha, room);
    Regroup(path, [sha], Rest(parents, NextUp(parents, sha, room), room - 1));
  }

  lemma {:induction false} WalkOne(parents: map<Commit, Option<Commit>>, sha: Commit, room: nat)
    requires sha in parents && room > 0
    ensures Rest(parents, Some(sha), room) == [sha] + Rest(parents, NextUp(parents, sha, room), room - 1)
  {
    assert [sha] + [] == [sha];
  }

  /** Tags are read as listed and kept per place; then the places are taken in order. */
  method PlaceTags(path: seq<Commit>, tags: seq<Tag>, released: set<TagName>) returns (placed: seq<Mark>)
    ensures placed == Placed(path, tags, released, |path|)
  {
    var at := ChooseTags(path, tags, released);
    placed := [];
    for i := 0 to |path|
      invariant placed == Placed(path, tags, released, i)
    {
      TablePlaces(path, tags, released, at, i);
      if i in at { placed := placed + [Mark(i, at[i])]; }
    }
  }

  lemma {:induction false} TablePlaces(
      path: seq<Commit>, tags: seq<Tag>, released: set<TagName>, at: map<nat, TagName>, i: nat)
    requires i < |path| && IsTable(path, tags, released, at)
    ensures i in at ==> Placed(path, tags, released, i + 1) == Placed(path, tags, released, i) + [Mark(i, at[i])]
    ensures i !in at ==> Placed(path, tags, released, i + 1) == Placed(path, tags, released, i)
  {
    assert PlacedAt(path, tags, released, i) == if i in at then [Mark(i, at[i])] else [];
  }

  method ChooseTags(path: seq<Commit>, tags: seq<Tag>, released: set<TagName>) returns (at: map<nat, TagName>)
    ensures IsTable(path, tags, released, at)
  {
    var position := Positions(path);
    at := map[];
    for k := 0 to |tags|
      invariant IsTable(path, tags[..k], released, at)
    {
      ChooseOne(tags, released, k);
      if tags[k].sha in position {
        var i := position[tags[k].sha];
        OnePlace(path, i);
        if !(i in at && (at[i] in released || tags[k].name !in released)) {
          at := at[i := tags[k].name];
        }
      }
    }
    assert tags[..|tags|] == tags;
  }

  lemma {:induction false} ChooseOne(tags: seq<Tag>, released: set<TagName>, k: nat)
    requires k < |tags|
    ensures forall sha ::
      Choose(tags[..k + 1], released, sha) == Preferred(Choose(tags[..k], released, sha), tags[k], released, sha)
  {
    assert tags[..k + 1][..k] == tags[..k];
  }

  lemma {:induction false} OnePlace(path: seq<Commit>, i: nat)
    requires IsPlace(path, i)
    ensures forall j: nat :: IsPlace(path, j) && path[j] == path[i] ==> j == i
  {}

  method Positions(path: seq<Commit>) returns (position: map<Commit, nat>)
    ensures forall c :: c in position <==> c in path
    ensures forall c :: c in position ==> IsPlace(path, position[c]) && path[position[c]] == c
  {
    position := map[];
    for i := 0 to |path|
      invariant forall c :: c in position <==> c in path[..i]
      invariant forall c :: c in position ==> IsPlace(path[..i], position[c]) && path[position[c]] == c
    {
      position := position[path[i] := i];
    }
    assert path[..|path|] == path;
  }

  /** The choices made so far, by place. */
  ghost predicate IsTable(path: seq<Commit>, tags: seq<Tag>, released: set<TagName>, at: map<nat, TagName>) {
    && (forall i: nat :: i < |path| && IsPlace(path, i) ==>
          Choose(tags, released, path[i]) == if i in at then Some(at[i]) else None)
    && (forall i :: i in at ==> IsPlace(path, i))
  }

  method CutAtTags(path: seq<Commit>, base: Commit, placed: seq<Mark>) returns (steps: seq<Step>, folded: seq<TagName>)
    requires OnPath(path, placed)
    ensures (steps, folded) == Cut(path, base, placed)
  {
    var excess := Excess(placed);
    folded := Names(placed[..excess]);
    var kept := placed[excess..];
    steps := [];
    var from := base;
    for k := 0 to |kept|
      invariant steps == TagSteps(path, base, kept[..k])
      invariant from == StartOf(path, base, kept, k)
    {
      assert kept[..k + 1][..k] == kept[..k];
      steps := steps + [Step(Some(kept[k].name), from, path[kept[k].at])];
      from := path[kept[k].at];
    }
    assert kept[..|kept|] == kept;
    if kept != [] { TagStepAt(path, base, kept, |kept| - 1); }
    ghost var tail := Tail(path, steps);
    assert steps + tail == Cut(path, base, placed).0;
    if path != [] && steps != [] && path[|path| - 1] != from {
      steps := steps + [Step(None, from, path[|path| - 1])];
    } else {
      assert steps + tail == steps;
    }
  }

  // ----- what the timeline promises -----

  lemma {:induction false} CutStepAt(path: seq<Commit>, base: Commit, placed: seq<Mark>, i: nat)
    requires OnPath(path, placed) && path != [] && i < |Cut(path, base, placed).0|
    ensures var (kept, steps) := (placed[Excess(placed)..], Cut(path, base, placed).0);
      && |kept| <= |steps| <= |kept| + 1 && kept != []
      && (i < |kept| ==> steps[i] == Step(Some(kept[i].name), StartOf(path, base, kept, i), path[kept[i].at]))
      && (i == |kept|
        ==> steps[i] == Step(None, path[kept[i - 1].at], path[|path| - 1]) && path[|path| - 1] != path[kept[i - 1].at])
      && (|steps| == |kept| ==> path[|path| - 1] == path[kept[|kept| - 1].at])
  {
    var kept := placed[Excess(placed)..];
    if i < |kept| { TagStepAt(path, base, kept, i); }
    if kept != [] { TagStepAt(path, base, kept, |kept| - 1); }
  }

  lemma {:induction false} CutIsChain(path: seq<Commit>, base: Commit, placed: seq<Mark>, i: nat)
    requires OnPath(path, placed) && path != [] && 0 < i < |Cut(path, base, placed).0|
    ensures Cut(path, base, placed).0[i].from == Cut(path, base, placed).0[i - 1].to
  {
    CutStepAt(path, base, placed, i);
    CutStepAt(path, base, placed, i - 1);
  }

  lemma {:induction false} CutSpans(path: seq<Commit>, base: Commit, placed: seq<Mark>)
    requires OnPath(path, placed) && path != [] && Cut(path, base, placed).0 != []
    ensures var steps := Cut(path, base, placed).0; steps[0].from == base && steps[|steps| - 1].to == path[|path| - 1]
  {
    CutStepAt(path, base, placed, 0);
    CutStepAt(path, base, placed, |Cut(path, base, placed).0| - 1);
  }

  /** The steps form an unbroken chain from the base to the head. */
  lemma {:induction false} TimelineIsChain(
      range: seq<Ranged>, base: Commit, head: Commit, tags: seq<Tag>, released: set<TagName>)
    ensures var steps := Timeline(range, base, head, tags, released).0;
      steps != [] ==>
        && steps[0].from == base && steps[|steps| - 1].to == head
        && forall i :: 0 < i < |steps| ==> steps[i].from == steps[i - 1].to
  {
    var path, placed := PathTo(range, head), Marks(range, head, tags, released);
    var steps := Timeline(range, base, head, tags, released).0;
    if steps != [] {
      assert path[|path| - 1] == head;
      CutSpans(path, base, placed);
      forall i | 0 < i < |steps| ensures steps[i].from == steps[i - 1].to {
        CutIsChain(path, base, placed, i);
      }
    }
  }

  /** The place on the path where step `i` of a timeline ends. */
  function EndPlace(path: seq<Commit>, placed: seq<Mark>, i: nat): int {
    var kept := placed[Excess(placed)..];
    if i < |kept| then kept[i].at else |path| - 1
  }

  lemma {:induction false} CutEnds(path: seq<Commit>, base: Commit, placed: seq<Mark>, i: nat)
    requires OnPath(path, placed) && path != [] && i < |Cut(path, base, placed).0|
    ensures 0 <= EndPlace(path, placed, i) < |path|
      && Cut(path, base, placed).0[i].to == path[EndPlace(path, placed, i)]
    ensures i < |Cut(path, base, placed).0| - 1
      ==> i < |placed[Excess(placed)..]| && Cut(path, base, placed).0[i].tag.Some?
  {
    var kept := placed[Excess(placed)..];
    CutStepAt(path, base, placed, i);
    if i < |kept| { assert kept[i] == placed[Excess(placed) + i] && kept[i] in placed; }
  }

  lemma {:induction false} CutAdvances(path: seq<Commit>, base: Commit, placed: seq<Mark>, i: nat)
    requires OnPath(path, placed) && path != [] && i < |Cut(path, base, placed).0| - 1
    requires forall k, l :: 0 <= k < l < |placed| ==> placed[k].at < placed[l].at
    ensures EndPlace(path, placed, i) < EndPlace(path, placed, i + 1)
  {
    var kept, cut := placed[Excess(placed)..], Excess(placed);
    CutEnds(path, base, placed, i);
    assert kept[i] == placed[cut + i];
    if i + 1 < |kept| {
      assert kept[i + 1] == placed[cut + (i + 1)];
    } else {
      UntaggedEndsLater(path, base, placed);
    }
  }

  lemma {:induction false} UntaggedEndsLater(path: seq<Commit>, base: Commit, placed: seq<Mark>)
    requires OnPath(path, placed) && path != [] && placed[Excess(placed)..] != []
    requires |Cut(path, base, placed).0| > |placed[Excess(placed)..]|
    ensures placed[Excess(placed)..][|placed[Excess(placed)..]| - 1].at < |path| - 1
  {
    var kept := placed[Excess(placed)..];
    CutStepAt(path, base, placed, |kept|);
    assert kept[|kept| - 1] in placed;
  }

  /** Ends move strictly forward on the path, and only the last step may be untagged. */
  lemma {:induction false} TimelineAdvances(
      range: seq<Ranged>, base: Commit, head: Commit, tags: seq<Tag>, released: set<TagName>, i: nat)
    requires i < |Timeline(range, base, head, tags, released).0|
    ensures var (steps, path, placed) := (Timeline(range, base, head, tags, released).0, PathTo(range, head),
      Marks(range, head, tags, released));
      && 0 <= EndPlace(path, placed, i) < |path| && steps[i].to == path[EndPlace(path, placed, i)]
      && (i < |steps| - 1 ==> steps[i].tag.Some? && EndPlace(path, placed, i) < EndPlace(path, placed, i + 1))
  {
    var path, placed := PathTo(range, head), Marks(range, head, tags, released);
    CutEnds(path, base, placed, i);
    if i < |Timeline(range, base, head, tags, released).0| - 1 { CutAdvances(path, base, placed, i); }
  }

  /** A tagged step ends at the commit its tag names, and its tag is the choice at that commit. */
  lemma {:induction false} TaggedStepEndsAtTag(
      range: seq<Ranged>, base: Commit, head: Commit, tags: seq<Tag>, released: set<TagName>, i: nat)
    returns (k: nat)
    requires i < |Timeline(range, base, head, tags, released).0|
      && Timeline(range, base, head, tags, released).0[i].tag.Some?
    ensures var step := Timeline(range, base, head, tags, released).0[i];
      k < |tags| && tags[k] == Tag(step.tag.value, step.to) && IsChoice(tags, released, k)
  {
    var path, placed := PathTo(range, head), Marks(range, head, tags, released);
    var kept := placed[Excess(placed)..];
    CutStepAt(path, base, placed, i);
    PlacedIsChosen(path, tags, released, |path|);
    assert kept[i] in placed;
    var name, sha := kept[i].name, path[kept[i].at];
    ChoiceIsFirst(tags, released, sha);
    k :| 0 <= k < |tags| && tags[k] == Tag(name, sha) && IsChoice(tags, released, k);
  }

  function StepNames(steps: seq<Step>): (names: seq<TagName>) {
    if steps == [] then []
    else StepNames(steps[..|steps| - 1]) + if steps[|steps| - 1].tag.Some? then [steps[|steps| - 1].tag.value] else []
  }

  lemma {:induction false} TagStepNames(path: seq<Commit>, base: Commit, kept: seq<Mark>)
    requires OnPath(path, kept)
    ensures StepNames(TagSteps(path, base, kept)) == Names(kept)
  {
    if kept != [] {
      var n := |kept| - 1;
      TagStepNames(path, base, kept[..n]);
      assert TagSteps(path, base, kept)[..n] == TagSteps(path, base, kept[..n]);
      assert Names(kept) == Names(kept[..n]) + [kept[n].name];
    }
  }

  lemma {:induction false} CutKeepsNames(path: seq<Commit>, base: Commit, placed: seq<Mark>)
    requires OnPath(path, placed)
    ensures var (steps, folded) := Cut(path, base, placed);
      && folded + StepNames(steps) == Names(placed)
      && |StepNames(steps)| == |placed| - Excess(placed) && |steps| <= |placed| - Excess(placed) + 1
      && |folded| == Excess(placed)
  {
    var cut := Excess(placed);
    var tagged := TagSteps(path, base, placed[cut..]);
    TagStepNames(path, base, placed[cut..]);
    assert Names(placed) == Names(placed[..cut]) + Names(placed[cut..]);
    TailHasNoName(tagged, Tail(path, tagged));
  }

  /** Folded and kept tags together are all chosen tags of the path in order; folding only trims to the limit. */
  lemma {:induction false} NoTagIsLost(
      range: seq<Ranged>, base: Commit, head: Commit, tags: seq<Tag>, released: set<TagName>)
    ensures var (steps, folded) := Timeline(range, base, head, tags, released);
      && folded + StepNames(steps) == Names(Marks(range, head, tags, released))
      && |StepNames(steps)| <= 30 && |steps| <= 31
      && (folded != [] ==> |StepNames(steps)| == 30)
  {
    CutKeepsNames(PathTo(range, head), base, Marks(range, head, tags, released));
  }

  lemma {:induction false} TailHasNoName(steps: seq<Step>, tail: seq<Step>)
    requires tail == [] || (|tail| == 1 && tail[0].tag.None?)
    ensures StepNames(steps + tail) == StepNames(steps)
  {
    if tail == [] {
      assert steps + tail == steps;
    } else {
      assert (steps + tail)[..|steps|] == steps;
    }
  }

  /** There is a timeline exactly when some tag lies on the path. */
  lemma {:induction false} TimelineExists(
      range: seq<Ranged>, base: Commit, head: Commit, tags: seq<Tag>, released: set<TagName>)
    ensures Timeline(range, base, head, tags, released).0 == []
      <==> forall k :: 0 <= k < |tags| ==> tags[k].sha !in PathTo(range, head)
  {
    var path, placed := PathTo(range, head), Marks(range, head, tags, released);
    PlacedIsChosen(path, tags, released, |path|);
    if k :| 0 <= k < |tags| && tags[k].sha in path {
      ChoiceIsFirst(tags, released, tags[k].sha);
      var i := PlaceOf(path, tags[k].sha);
      assert Mark(i, Choose(tags, released, path[i]).value) in placed;
    }
    if placed != [] {
      assert placed[0] in placed;
      ChoiceIsFirst(tags, released, path[placed[0].at]);
    }
  }

  lemma {:induction false} PlaceOf(path: seq<Commit>, sha: Commit) returns (i: nat)
    requires sha in path
    ensures IsPlace(path, i) && path[i] == sha
  {
    i := |path| - 1;
    while path[i] != sha
      invariant i < |path| && forall j :: i < j < |path| ==> path[j] != sha
      decreases i
    {
      i := i - 1;
    }
  }
}

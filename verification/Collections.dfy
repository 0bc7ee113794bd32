/** Facts about sizes of sets and about joined sequences. */
module Collections {
  lemma {:induction false} SubsetSize<T>(a: set<T>, b: set<T>)
    requires a <= b
    ensures |a| <= |b|
  {
    assert b == a + (b - a);
  }

  lemma {:induction false} DisjointSize<T>(a: set<T>, b: set<T>)
    requires forall x :: x in a ==> x !in b
    ensures |a + b| == |a| + |b|
  {
    assert a !! b;
  }

  lemma {:induction false} Regroup<T>(a: seq<T>, b: seq<T>, c: seq<T>)
    ensures a + b + c == a + (b + c)
  {
  }

  /** `order` names every place of `a` once and reads `b` off it. */
  ghost predicate Reorders<T>(a: seq<T>, b: seq<T>, order: seq<nat>) {
    && |order| == |b| == |a|
    && (forall i :: 0 <= i < |order| ==> order[i] < |a|)
    && (forall i, j :: 0 <= i < j < |order| ==> order[i] != order[j])
    && (forall i :: 0 <= i < |order| ==> a[order[i]] == b[i])
  }

  lemma {:induction false} RemoveBoth<T>(a: seq<T>, b: seq<T>, at: nat)
    requires at < |a| && b != [] && a[at] == b[|b| - 1] && multiset(a) == multiset(b)
    ensures multiset(a[..at] + a[at + 1..]) == multiset(b[..|b| - 1])
  {
    var front, back, last := a[..at], a[at + 1..], b[|b| - 1];
    assert a == front + [last] + back;
    assert multiset(a) == multiset(front + back) + multiset{last};
    assert b == b[..|b| - 1] + [last];
    assert multiset(b) == multiset(b[..|b| - 1]) + multiset{last};
    assert multiset(front + back) == multiset(a) - multiset{last};
    assert multiset(b[..|b| - 1]) == multiset(b) - multiset{last};
  }

  function Skip(at: nat, i: nat): nat {
    if i < at then i else i + 1
  }

  /** Equal multisets are reorderings. */
  lemma {:induction false} ReorderingOf<T>(a: seq<T>, b: seq<T>) returns (order: seq<nat>)
    requires multiset(a) == multiset(b)
    ensures Reorders(a, b, order)
    decreases |b|
  {
    assert |multiset(a)| == |a| && |multiset(b)| == |b|;
    if b == [] {
      order := [];
    } else {
      var n := |b| - 1;
      assert b[n] in multiset(b) && b[n] in multiset(a);
      var at :| 0 <= at < |a| && a[at] == b[n];
      var rest := a[..at] + a[at + 1..];
      RemoveBoth(a, b, at);
      var before := ReorderingOf(rest, b[..n]);
      order := Extended(before, at);
      ExtendedReorders(a, b, before, at);
    }
  }

  function Extended(before: seq<nat>, at: nat): seq<nat> {
    seq(|before|, i requires 0 <= i < |before| => Skip(at, before[i])) + [at]
  }

  lemma {:induction false} ExtendedReorders<T>(a: seq<T>, b: seq<T>, before: seq<nat>, at: nat)
    requires at < |a| == |b| && a[at] == b[|b| - 1]
    requires Reorders(a[..at] + a[at + 1..], b[..|b| - 1], before)
    ensures Reorders(a, b, Extended(before, at))
  {
    var order, rest, front := Extended(before, at), a[..at] + a[at + 1..], b[..|b| - 1];
    forall i | 0 <= i < |before| ensures order[i] < |a| && order[i] != at && a[order[i]] == b[i] {
      assert rest[before[i]] == front[i] == b[i];
    }
    forall i, j | 0 <= i < j < |order| ensures order[i] != order[j] {
      if j < |before| {
        assert before[i] != before[j];
      }
    }
  }

  /** And reorderings have equal multisets. */
  lemma {:induction false} ReorderingIsSame<T>(a: seq<T>, b: seq<T>, order: seq<nat>)
    requires Reorders(a, b, order)
    ensures multiset(a) == multiset(b)
    decreases |b|
  {
    if b != [] {
      var n := |b| - 1;
      var at := order[n];
      var rest := a[..at] + a[at + 1..];
      var less := seq(n, i requires 0 <= i < n => if order[i] < at then order[i] else order[i] - 1);
      forall i | 0 <= i < n ensures less[i] < n && rest[less[i]] == b[i] && order[i] == Skip(at, less[i]) {
        assert order[i] != order[n];
      }
      forall i, j | 0 <= i < j < n ensures less[i] != less[j] {
        assert order[i] != order[j];
      }
      ReorderingIsSame(rest, b[..n], less);
      assert a == a[..at] + [a[at]] + a[at + 1..];
      assert b == b[..n] + [b[n]];
    }
  }

  /** Distinct places below the length are all of them. */
  lemma {:induction false} PlaceOf(order: seq<nat>, i: nat) returns (k: nat)
    requires forall i :: 0 <= i < |order| ==> order[i] < |order|
    requires forall i, j :: 0 <= i < j < |order| ==> order[i] != order[j]
    requires i < |order|
    ensures k < |order| && order[k] == i
  {
    var all := UpTo(|order|);
    var used := set j | 0 <= j < |order| :: order[j];
    DistinctSize(order);
    if i !in used {
      SubsetSize(used, all - {i});
    }
    k :| 0 <= k < |order| && order[k] == i;
  }

  function UpTo(n: nat): (all: set<nat>)
    ensures |all| == n && forall i: nat :: i in all <==> i < n
  {
    if n == 0 then {} else UpTo(n - 1) + {n - 1}
  }

  lemma {:induction false} DistinctSize(s: seq<nat>)
    requires forall i, j :: 0 <= i < j < |s| ==> s[i] != s[j]
    ensures |set j | 0 <= j < |s| :: s[j]| == |s|
  {
    if s != [] {
      var front := s[..|s| - 1];
      DistinctSize(front);
      assert (set j | 0 <= j < |s| :: s[j]) == (set j | 0 <= j < |front| :: front[j]) + {s[|s| - 1]};
    }
  }
}

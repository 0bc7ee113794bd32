/**
 The worker pool of the release reads (crates/adapters/src/releases.rs,
 `bounded`): up to four threads take item numbers from one atomic counter and
 keep what they computed; the results are put in order at the end. A schedule
 is any sequence of worker actions; one that is not possible changes nothing.
 */
module WorkerPool {
  import opened Wrappers

  const WIDTH: nat := 4

  /** `done` lists the items a worker has finished. A panicking thread loses its list. */
  datatype Worker =
    | Ready(done: seq<nat>)
    | Holding(done: seq<nat>, item: nat)
    | Failing(done: seq<nat>)
    | Finished(done: seq<nat>)
    | Panicked

  /** `claimed` only records how many items were handed out. */
  datatype Pool = Pool(next: nat, workers: seq<Worker>, claimed: nat)

  datatype Action = Fetch(w: nat) | Compute(w: nat, panics: bool) | Stop(w: nat)

  datatype Failure<E> = Item(error: E) | Stopped

  function Start(n: nat): Pool {
    Pool(0, seq(if n < WIDTH then n else WIDTH, _ => Ready([])), 0)
  }

  /** `results[i]` is what the function gives for item `i`. */
  function Next<R, E>(results: seq<Result<R, E>>, p: Pool, a: Action): Pool {
    if a.w >= |p.workers| then p
    else
      match (a, p.workers[a.w])
      case (Fetch(w), Ready(done)) =>
        if p.next < |results|
        then Pool(p.next + 1, p.workers[w := Holding(done, p.next)], p.claimed + 1)
        else Pool(p.next + 1, p.workers[w := Finished(done)], p.claimed)
      case (Compute(w, panics), Holding(done, item)) =>
        if panics then p.(workers := p.workers[w := Panicked])
        else if item < |results| && results[item].Ok? then p.(workers := p.workers[w := Ready(done + [item])])
        else p.(workers := p.workers[w := Failing(done + [item])])
      case (Stop(w), Failing(done)) => Pool(|results|, p.workers[w := Finished(done)], p.claimed)
      case _ => p
  }

  function Run<R, E>(results: seq<Result<R, E>>, schedule: seq<Action>): Pool {
    if schedule == [] then Start(|results|)
    else Next(results, Run(results, schedule[..|schedule| - 1]), schedule[|schedule| - 1])
  }

  /** Every thread has ended. */
  predicate Joined(p: Pool) {
    forall w :: 0 <= w < |p.workers| ==> p.workers[w].Finished? || p.workers[w].Panicked?
  }

  /** The lists of the joined threads, one after another. */
  function Gathered(workers: seq<Worker>): seq<nat> {
    if workers == [] then []
    else
      var last := workers[|workers| - 1];
      Gathered(workers[..|workers| - 1]) + if last.Panicked? then [] else last.done
  }

  /** The items of `done` in ascending order, which is `done` sorted (SortedIsPermutation). */
  function Sorted(done: seq<nat>, n: nat): seq<nat> {
    if n == 0 then [] else Sorted(done, n - 1) + if n - 1 in done then [n - 1] else []
  }

  /** The first error in this order, or all values. */
  function Collect<R, E>(results: seq<Result<R, E>>, items: seq<nat>): Result<seq<R>, Failure<E>>
    requires forall k :: 0 <= k < |items| ==> items[k] < |results|
  {
    if items == [] then Ok([])
    else
      var before := Collect(results, items[..|items| - 1]);
      var i := items[|items| - 1];
      if before.Err? then before
      else if results[i].Err? then Err(Item(results[i].error))
      else Ok(before.value + [results[i].value])
  }

  function UpTo(n: nat): (items: seq<nat>)
    ensures |items| == n && forall i :: 0 <= i < n ==> items[i] == i
  {
    if n == 0 then [] else UpTo(n - 1) + [n - 1]
  }

  /** What a plain loop over the items would return. */
  function Sequential<R, E>(results: seq<Result<R, E>>): Result<seq<R>, Failure<E>> {
    Collect(results, UpTo(|results|))
  }

  lemma {:induction false} SortedInRange(done: seq<nat>, n: nat)
    ensures forall k :: 0 <= k < |Sorted(done, n)| ==> Sorted(done, n)[k] < n
  {
    if n > 0 {
      SortedInRange(done, n - 1);
    }
  }

  /** What `bounded` returns once the threads have ended. */
  function Answer<R, E>(results: seq<Result<R, E>>, p: Pool): Result<seq<R>, Failure<E>> {
    var done := Gathered(p.workers);
    SortedInRange(done, |results|);
    if |done| != |results| && forall i :: 0 <= i < |done| ==> done[i] < |results| && results[done[i]].Ok?
    then Err(Stopped)
    else Collect(results, Sorted(done, |results|))
  }

  // ----- the invariant -----

  function Taken(w: Worker): seq<nat> {
    match w
    case Panicked => []
    case Holding(done, item) => done + [item]
    case _ => w.done
  }

  predicate Distinct(s: seq<nat>) {
    forall i, j :: 0 <= i < j < |s| ==> s[i] != s[j]
  }

  /** No item is taken twice, and only items handed out are taken. */
  ghost predicate Exclusive(p: Pool) {
    && (forall w :: 0 <= w < |p.workers| ==> Distinct(Taken(p.workers[w])))
    && (forall w, i :: 0 <= w < |p.workers| && i in Taken(p.workers[w]) ==> i < p.claimed)
    && (forall v, w, i :: 0 <= v < |p.workers| && 0 <= w < |p.workers| && v != w && i in Taken(p.workers[v]) ==>
      i !in Taken(p.workers[w]))
  }

  ghost predicate NoPanic(p: Pool) {
    forall w :: 0 <= w < |p.workers| ==> !p.workers[w].Panicked?
  }

  ghost predicate Held(p: Pool, i: nat) {
    exists w :: 0 <= w < |p.workers| && i in Taken(p.workers[w])
  }

  /** Without a panic, every item handed out is with some worker. */
  ghost predicate Complete(p: Pool) {
    forall i: nat :: i < p.claimed ==> Held(p, i)
  }

  ghost predicate HasFailed<R, E>(results: seq<Result<R, E>>, w: Worker) {
    (w.Failing? || w.Finished?) && exists i :: i in w.done && i < |results| && results[i].Err?
  }

  /** Workers that have ended saw the counter at the end; a failing one holds an error. */
  ghost predicate EndsValid<R, E>(results: seq<Result<R, E>>, p: Pool) {
    forall w :: 0 <= w < |p.workers| ==>
      && (p.workers[w].Finished? ==> p.next >= |results|)
      && (p.workers[w].Failing? ==> HasFailed(results, p.workers[w]))
  }

  ghost predicate SomeFailed<R, E>(results: seq<Result<R, E>>, p: Pool) {
    exists w :: 0 <= w < |p.workers| && HasFailed(results, p.workers[w])
  }

  ghost predicate Inv<R, E>(results: seq<Result<R, E>>, p: Pool) {
    && Exclusive(p) && EndsValid(results, p)
    && |p.workers| == (if |results| < WIDTH then |results| else WIDTH)
    && p.claimed <= |results| && (p.next < |results| ==> p.next == p.claimed)
    && (NoPanic(p) ==> Complete(p) && (p.next >= |results| > p.claimed ==> SomeFailed(results, p)))
  }

  /** Only worker `w` changes. */
  ghost predicate OnlyWorker(p: Pool, q: Pool, w: nat) {
    w < |p.workers| && |q.workers| == |p.workers| && forall v :: 0 <= v < |p.workers| && v != w ==>
      q.workers[v] == p.workers[v]
  }

  ghost predicate TakesNext(p: Pool, q: Pool, w: nat)
    requires OnlyWorker(p, q, w)
  {
    Taken(q.workers[w]) == Taken(p.workers[w]) + [p.claimed] && q.claimed == p.claimed + 1
  }

  /** What the worker has taken grows at most by the next item. */
  lemma {:induction false} WorkerKeepsExclusive(p: Pool, q: Pool, w: nat)
    requires Exclusive(p) && OnlyWorker(p, q, w)
    requires TakesNext(p, q, w)
      || (q.claimed == p.claimed && (Taken(q.workers[w]) == Taken(p.workers[w]) || Taken(q.workers[w]) == []))
    ensures Exclusive(q)
  {
    assert forall j :: 0 <= j < |Taken(p.workers[w])| ==> Taken(p.workers[w])[j] in Taken(p.workers[w]);
    assert Distinct(Taken(p.workers[w]));
    assert Distinct(Taken(q.workers[w]));
    assert forall i :: i in Taken(q.workers[w]) ==> i in Taken(p.workers[w]) || (i == p.claimed && TakesNext(p, q, w));
  }

  lemma {:induction false} WorkerKeepsComplete(p: Pool, q: Pool, w: nat)
    requires Complete(p) && OnlyWorker(p, q, w)
    requires TakesNext(p, q, w) || (q.claimed == p.claimed && Taken(q.workers[w]) == Taken(p.workers[w]))
    ensures Complete(q)
  {
    forall i: nat | i < q.claimed ensures Held(q, i) {
      if i == p.claimed {
        assert i in Taken(q.workers[w]);
      } else {
        assert Held(p, i);
        var v :| 0 <= v < |p.workers| && i in Taken(p.workers[v]);
        assert i in Taken(q.workers[v]);
      }
    }
  }

  lemma {:induction false} ActionChangesWorker<R, E>(results: seq<Result<R, E>>, p: Pool, a: Action)
    requires Inv(results, p) && Next(results, p, a) != p
    ensures var q := Next(results, p, a);
      && OnlyWorker(p, q, a.w) && !p.workers[a.w].Panicked? && !p.workers[a.w].Finished?
      && (|| TakesNext(p, q, a.w)
          || (q.claimed == p.claimed && Taken(q.workers[a.w]) == Taken(p.workers[a.w]))
          || (q.claimed == p.claimed && q.workers[a.w].Panicked?))
      && (q.next >= p.next || q.next == |results|)
  {}

  lemma {:induction false} NextKeepsEnds<R, E>(results: seq<Result<R, E>>, p: Pool, a: Action)
    requires Inv(results, p)
    ensures EndsValid(results, Next(results, p, a))
    ensures SomeFailed(results, p) ==> SomeFailed(results, Next(results, p, a))
    ensures a.Stop? && Next(results, p, a) != p ==> SomeFailed(results, Next(results, p, a))
  {
    var q := Next(results, p, a);
    if q != p {
      var w := a.w;
      if p.workers[w].Holding? {
        var item := p.workers[w].item;
        assert item == Taken(p.workers[w])[|p.workers[w].done|];
        assert item in Taken(p.workers[w]);
        if q.workers[w].Failing? { assert item in q.workers[w].done; }
      }
      if v :| 0 <= v < |p.workers| && HasFailed(results, p.workers[v]) {
        assert HasFailed(results, q.workers[v]);
      }
    }
  }

  lemma {:induction false} NextKeepsInv<R, E>(results: seq<Result<R, E>>, p: Pool, a: Action)
    requires Inv(results, p)
    ensures Inv(results, Next(results, p, a))
  {
    var q := Next(results, p, a);
    if q != p {
      ActionChangesWorker(results, p, a);
      WorkerKeepsExclusive(p, q, a.w);
      NextKeepsEnds(results, p, a);
      if NoPanic(q) {
        assert forall v :: 0 <= v < |p.workers| ==> !q.workers[v].Panicked? ==> !p.workers[v].Panicked?;
        assert NoPanic(p);
        WorkerKeepsComplete(p, q, a.w);
      }
    }
  }

  lemma {:induction false} RunKeepsInv<R, E>(results: seq<Result<R, E>>, schedule: seq<Action>)
    ensures Inv(results, Run(results, schedule))
  {
    if schedule != [] {
      RunKeepsInv(results, schedule[..|schedule| - 1]);
      NextKeepsInv(results, Run(results, schedule[..|schedule| - 1]), schedule[|schedule| - 1]);
    }
  }

  // ----- the results -----

  lemma {:induction false} GatheredHolds(workers: seq<Worker>, i: nat)
    requires forall w :: 0 <= w < |workers| ==> workers[w].Finished? || workers[w].Panicked?
    ensures i in Gathered(workers) <==> exists w :: 0 <= w < |workers| && i in Taken(workers[w])
  {
    if workers != [] {
      var front := workers[..|workers| - 1];
      GatheredHolds(front, i);
      assert i in Gathered(workers) <==> i in Gathered(front) || i in Taken(workers[|workers| - 1]);
      if i in Gathered(front) {
        var w :| 0 <= w < |front| && i in Taken(front[w]);
        assert i in Taken(workers[w]);
      }
      if w :| 0 <= w < |front| && i in Taken(workers[w]) {
        assert i in Taken(front[w]);
      }
    }
  }

  lemma {:induction false} GatheredIsDistinct(p: Pool, n: nat)
    requires Exclusive(p) && Joined(p) && n <= |p.workers|
    ensures Distinct(Gathered(p.workers[..n]))
    ensures forall i :: i in Gathered(p.workers[..n]) ==> exists w :: 0 <= w < n && i in Taken(p.workers[w])
  {
    if n > 0 {
      assert p.workers[..n][..n - 1] == p.workers[..n - 1];
      GatheredIsDistinct(p, n - 1);
      var before, last := Gathered(p.workers[..n - 1]), Taken(p.workers[n - 1]);
      assert Gathered(p.workers[..n]) == before + last;
      assert forall i :: i in before ==> i !in last;
      assert Distinct(last);
      assert forall j :: 0 <= j < |before| ==> before[j] in before;
      assert forall j :: 0 <= j < |last| ==> last[j] in last;
    }
  }

  lemma {:induction false} SortedIsUpTo(done: seq<nat>, k: nat, n: nat)
    requires k <= n && forall i :: 0 <= i < n ==> (i in done <==> i < k)
    ensures Sorted(done, n) == UpTo(k)
  {
    if n > 0 {
      SortedIsUpTo(done, if k == n then k - 1 else k, n - 1);
    }
  }

  lemma {:induction false} SortedIsPermutation(done: seq<nat>, n: nat)
    requires Distinct(done) && forall k :: 0 <= k < |done| ==> done[k] < n
    ensures multiset(Sorted(done, n)) == multiset(done)
    ensures forall i, j :: 0 <= i < j < |Sorted(done, n)| ==> Sorted(done, n)[i] < Sorted(done, n)[j]
  {
    forall i: nat ensures multiset(done)[i] == if i in done then 1 else 0 {
      DistinctCount(done, i);
    }
    SortedCounts(done, n);
    SortedAscends(done, n);
  }

  lemma {:induction false} DistinctCount(s: seq<nat>, i: nat)
    requires Distinct(s)
    ensures multiset(s)[i] == if i in s then 1 else 0
  {
    if s != [] {
      var front := s[..|s| - 1];
      DistinctCount(front, i);
      assert s == front + [s[|s| - 1]];
    }
  }

  lemma {:induction false} SortedCounts(done: seq<nat>, n: nat)
    ensures forall i: nat :: multiset(Sorted(done, n))[i] == if i < n && i in done then 1 else 0
  {
    if n > 0 {
      SortedCounts(done, n - 1);
      var before := Sorted(done, n - 1);
      assert n - 1 in done ==> Sorted(done, n) == before + [n - 1];
      assert n - 1 !in done ==> Sorted(done, n) == before;
    }
  }

  lemma {:induction false} SortedAscends(done: seq<nat>, n: nat)
    ensures forall i, j :: 0 <= i < j < |Sorted(done, n)| ==> Sorted(done, n)[i] < Sorted(done, n)[j]
  {
    if n > 0 {
      SortedAscends(done, n - 1);
      SortedInRange(done, n - 1);
    }
  }

  /** Collecting stops at the first error: a prefix that holds one decides the answer. */
  lemma {:induction false} PrefixDecides<R, E>(results: seq<Result<R, E>>, k: nat, n: nat, i: nat)
    requires i < k <= n <= |results| && results[i].Err?
    ensures Collect(results, UpTo(k)) == Collect(results, UpTo(n)) && Collect(results, UpTo(n)).Err?
  {
    if n > 0 {
      assert UpTo(n)[..n - 1] == UpTo(n - 1);
      if k < n {
        PrefixDecides(results, k, n - 1, i);
      } else if i < n - 1 {
        PrefixDecides(results, n - 1, n - 1, i);
      }
    }
  }

  lemma {:induction false} CollectedHasNoError<R, E>(results: seq<Result<R, E>>, items: seq<nat>, k: nat)
    requires (forall j :: 0 <= j < |items| ==> items[j] < |results|) && k < |items|
    requires Collect(results, items).Ok?
    ensures results[items[k]].Ok?
  {
    if k < |items| - 1 {
      CollectedHasNoError(results, items[..|items| - 1], k);
    }
  }

  /** The joined lists hold distinct items of the range, so sorting them loses none. */
  lemma {:induction false} GatheredSorts<R, E>(results: seq<Result<R, E>>, p: Pool)
    requires Inv(results, p) && Joined(p)
    ensures multiset(Sorted(Gathered(p.workers), |results|)) == multiset(Gathered(p.workers))
    ensures |Sorted(Gathered(p.workers), |results|)| == |Gathered(p.workers)|
  {
    var n, done := |results|, Gathered(p.workers);
    assert p.workers[..|p.workers|] == p.workers;
    GatheredIsDistinct(p, |p.workers|);
    forall k | 0 <= k < |done| ensures done[k] < n {
      assert done[k] in done;
      GatheredHolds(p.workers, done[k]);
    }
    SortedIsPermutation(done, n);
    assert |multiset(Sorted(done, n))| == |multiset(done)|;
  }

  lemma {:induction false} GatheredIsPrefix<R, E>(results: seq<Result<R, E>>, p: Pool)
    requires Inv(results, p) && Joined(p) && NoPanic(p)
    ensures Sorted(Gathered(p.workers), |results|) == UpTo(p.claimed) && |Gathered(p.workers)| == p.claimed
  {
    var done := Gathered(p.workers);
    forall i: nat ensures i in done <==> i < p.claimed {
      GatheredHolds(p.workers, i);
      if i < p.claimed { assert Held(p, i); }
    }
    SortedIsUpTo(done, p.claimed, |results|);
    GatheredSorts(results, p);
  }

  /** A pool that stopped early holds the error that stopped it. */
  lemma {:induction false} StoppedHoldsError<R, E>(results: seq<Result<R, E>>, p: Pool) returns (i: nat, k: nat)
    requires Inv(results, p) && Joined(p) && NoPanic(p) && p.claimed < |results|
    ensures i < p.claimed && results[i].Err? && k < |Gathered(p.workers)| && Gathered(p.workers)[k] == i
  {
    assert p.workers[0].Finished?;
    assert SomeFailed(results, p);
    var w :| 0 <= w < |p.workers| && HasFailed(results, p.workers[w]);
    i :| i in p.workers[w].done && i < |results| && results[i].Err?;
    assert i in Taken(p.workers[w]);
    GatheredHolds(p.workers, i);
    k :| 0 <= k < |Gathered(p.workers)| && Gathered(p.workers)[k] == i;
  }

  /** Whatever the schedule, if no thread panics the answer is that of a plain loop. */
  lemma {:induction false} BoundedIsSequential<R, E>(results: seq<Result<R, E>>, schedule: seq<Action>)
    requires Joined(Run(results, schedule)) && NoPanic(Run(results, schedule))
    ensures Answer(results, Run(results, schedule)) == Sequential(results)
  {
    var p := Run(results, schedule);
    RunKeepsInv(results, schedule);
    GatheredIsPrefix(results, p);
    if p.claimed < |results| {
      var i, k := StoppedHoldsError(results, p);
      PrefixDecides(results, p.claimed, |results|, i);
    }
  }

  /** Even when threads panic, a successful answer is complete and in order. */
  lemma {:induction false} NeverShort<R, E>(results: seq<Result<R, E>>, schedule: seq<Action>)
    requires Joined(Run(results, schedule))
    requires Answer(results, Run(results, schedule)).Ok?
    ensures Answer(results, Run(results, schedule)) == Sequential(results)
    ensures |Answer(results, Run(results, schedule)).value| == |results|
  {
    var p := Run(results, schedule);
    RunKeepsInv(results, schedule);
    var n, done := |results|, Gathered(p.workers);
    GatheredSorts(results, p);
    if |done| != n { ShortHasError(results, p); }
    SortedSize(done, n);
    SortedIsUpTo(done, n, n);
    CollectLength(results, UpTo(n));
  }

  lemma {:induction false} ShortHasError<R, E>(results: seq<Result<R, E>>, p: Pool)
    requires Inv(results, p) && Joined(p) && |Gathered(p.workers)| != |results|
    ensures Answer(results, p).Err?
  {
    var n, done := |results|, Gathered(p.workers);
    var sorted := Sorted(done, n);
    GatheredSorts(results, p);
    SortedInRange(done, n);
    if k :| 0 <= k < |done| && !(done[k] < n && results[done[k]].Ok?) {
      assert done[k] in multiset(done);
      assert done[k] in multiset(sorted);
      var j :| 0 <= j < |sorted| && sorted[j] == done[k];
      if Collect(results, sorted).Ok? { CollectedHasNoError(results, sorted, j); }
    }
  }

  lemma {:induction false} CollectLength<R, E>(results: seq<Result<R, E>>, items: seq<nat>)
    requires forall j :: 0 <= j < |items| ==> items[j] < |results|
    requires Collect(results, items).Ok?
    ensures |Collect(results, items).value| == |items|
  {
    if items != [] { CollectLength(results, items[..|items| - 1]); }
  }

  lemma {:induction false} SortedSize(done: seq<nat>, n: nat)
    ensures |Sorted(done, n)| <= n
    ensures |Sorted(done, n)| == n ==> forall i: nat :: i < n ==> i in done
  {
    if n > 0 { SortedSize(done, n - 1); }
  }

  // ----- every schedule ends -----

  function WorkLeft(w: Worker): nat {
    match w
    case Ready(_) => 1 case Holding(_, _) => 3 case Failing(_) => 2 case Finished(_) => 0 case Panicked => 0
  }

  function TotalLeft(workers: seq<Worker>): nat {
    if workers == [] then 0 else TotalLeft(workers[..|workers| - 1]) + WorkLeft(workers[|workers| - 1])
  }

  function Budget<R, E>(results: seq<Result<R, E>>, p: Pool): nat {
    3 * (if p.next < |results| then |results| - p.next else 0) + TotalLeft(p.workers)
  }

  lemma {:induction false} TotalChanges(workers: seq<Worker>, w: nat, worker: Worker)
    requires w < |workers|
    ensures TotalLeft(workers[w := worker]) == TotalLeft(workers) - WorkLeft(workers[w]) + WorkLeft(worker)
  {
    var n := |workers| - 1;
    if w < n {
      TotalChanges(workers[..n], w, worker);
      assert workers[w := worker][..n] == workers[..n][w := worker];
    } else {
      assert workers[w := worker][..n] == workers[..n];
    }
  }

  /** Each possible action uses up some of a finite budget, and while a thread runs, one is possible. */
  lemma {:induction false} PoolEnds<R, E>(results: seq<Result<R, E>>, p: Pool, a: Action)
    ensures Next(results, p, a) != p ==> Budget(results, Next(results, p, a)) < Budget(results, p)
    ensures !Joined(p) ==> exists b: Action :: Next(results, p, b) != p
  {
    var q := Next(results, p, a);
    if q != p { TotalChanges(p.workers, a.w, q.workers[a.w]); }
    if w :| 0 <= w < |p.workers| && !(p.workers[w].Finished? || p.workers[w].Panicked?) {
      var b := if p.workers[w].Ready? then Fetch(w) else if p.workers[w].Failing? then Stop(w) else Compute(w, false);
      assert Next(results, p, b) != p by {
        assert Next(results, p, b).workers[w] != p.workers[w];
      }
    }
  }

  /** A thread for each item, but not more than four. */
  lemma {:induction false} FourThreads<R, E>(results: seq<Result<R, E>>, schedule: seq<Action>)
    ensures |Run(results, schedule).workers| == if |results| < 4 then |results| else 4
  {
    if schedule != [] {
      FourThreads(results, schedule[..|schedule| - 1]);
    }
  }
}

/**
 Cargo unit timings (scripts/analyze-cargo-timings.py): the sweep that measures
 how long some unit was active and how long each was the only one. Time is
 counted in ticks; tick `t` is the time from `t` to `t + 1`.
 */
module Timings {
  import opened Collections
  import opened Wrappers

  datatype Id = Id(number: int)

  /** `frontend` is the end of the unit's frontend section. */
  datatype Unit = Unit(
    id: Id,
    start: nat,
    duration: nat,
    unblocked: seq<Id>,
    unblockedMeta: seq<Id>,
    frontend: Option<nat>)
  {
    function End(): nat { start + duration }
  }

  /** What `load_units` checks. */
  predicate Loaded(units: seq<Unit>) {
    && units != []
    && (forall j, k :: 0 <= j < k < |units| ==> units[j].id != units[k].id)
  }

  /** The units whose span holds tick `t`. */
  function Active(units: seq<Unit>, t: nat): set<Id> {
    set k | 0 <= k < |units| && units[k].start <= t < units[k].start + units[k].duration :: units[k].id
  }

  /** The ticks from `lo` up to `hi` in which some unit is active. */
  function BusyTicks(units: seq<Unit>, lo: nat, hi: nat): set<nat> {
    set t: nat | lo <= t < hi && Active(units, t) != {}
  }

  /** The ticks in which `id` alone is active. */
  function OnlyTicks(units: seq<Unit>, id: Id, lo: nat, hi: nat): set<nat> {
    set t: nat | lo <= t < hi && Active(units, t) == {id}
  }

  predicate IsWithin(t: nat, lo: nat, hi: nat) {
    lo <= t < hi
  }

  function Range(lo: nat, hi: nat): set<nat> {
    set t: nat | lo <= t < hi && IsWithin(t, lo, hi)
  }

  lemma {:induction false} RangeSize(lo: nat, hi: nat)
    requires lo <= hi
    ensures |Range(lo, hi)| == hi - lo
    decreases hi - lo
  {
    if lo == hi {
      assert Range(lo, hi) == {};
    } else {
      RangeSize(lo, hi - 1);
      assert Range(lo, hi) == Range(lo, hi - 1) + {hi - 1};
    }
  }

  // ----- the events -----

  function StartOf(u: Unit): nat { u.start }

  function EndOf(u: Unit): nat { u.End() }

  /** The units whose `time` is `t`, in their order. */
  function IdsAt(units: seq<Unit>, time: Unit -> nat, t: nat): seq<Id> {
    if units == [] then []
    else
      var u := units[|units| - 1];
      IdsAt(units[..|units| - 1], time, t) + if time(u) == t then [u.id] else []
  }

  function Times(units: seq<Unit>, time: Unit -> nat): set<nat> {
    set k | 0 <= k < |units| :: time(units[k])
  }

  lemma {:induction false} IdsAre(units: seq<Unit>, time: Unit -> nat, t: nat, id: Id)
    ensures id in IdsAt(units, time, t) <==> exists k :: 0 <= k < |units| && units[k].id == id && time(units[k]) == t
  {
    if units != [] {
      var front := units[..|units| - 1];
      IdsAre(front, time, t, id);
      if k :| 0 <= k < |units| && units[k].id == id && time(units[k]) == t {
        assert k < |front| ==> front[k] == units[k];
      }
    }
  }

  lemma {:induction false} IdsAreDistinct(units: seq<Unit>, time: Unit -> nat, t: nat)
    requires forall j, k :: 0 <= j < k < |units| ==> units[j].id != units[k].id
    ensures forall i, j :: 0 <= i < j < |IdsAt(units, time, t)| ==> IdsAt(units, time, t)[i] != IdsAt(units, time, t)[j]
  {
    if units != [] {
      var front := units[..|units| - 1];
      IdsAreDistinct(front, time, t);
      IdsAre(front, time, t, units[|units| - 1].id);
    }
  }

  function At(events: map<nat, seq<Id>>, t: nat): seq<Id> {
    if t in events then events[t] else []
  }

  ghost predicate AreEvents(units: seq<Unit>, time: Unit -> nat, events: map<nat, seq<Id>>) {
    && (forall t: nat :: At(events, t) == IdsAt(units, time, t))
    && events.Keys == Times(units, time)
  }

  lemma {:induction false} OneMoreEvent(units: seq<Unit>, time: Unit -> nat, events: map<nat, seq<Id>>, n: nat)
    requires n < |units| && AreEvents(units[..n], time, events)
    ensures var t := time(units[n]); AreEvents(units[..n + 1], time, events[t := At(events, t) + [units[n].id]])
  {
    var t := time(units[n]);
    var more := units[..n + 1];
    assert more[..n] == units[..n] && more[n] == units[n];
    var later := events[t := At(events, t) + [units[n].id]];
    forall s: nat ensures At(later, s) == IdsAt(more, time, s) {
      assert At(events, s) == IdsAt(units[..n], time, s);
    }
    assert Times(more, time) == Times(units[..n], time) + {t} by {
      assert more[n] == units[n];
      forall k | 0 <= k < n ensures more[k] == units[..n][k] {}
    }
  }

  method Events(units: seq<Unit>) returns (starts: map<nat, seq<Id>>, ends: map<nat, seq<Id>>)
    ensures AreEvents(units, StartOf, starts) && AreEvents(units, EndOf, ends)
  {
    starts, ends := map[], map[];
    for n := 0 to |units|
      invariant AreEvents(units[..n], StartOf, starts) && AreEvents(units[..n], EndOf, ends)
    {
      var u := units[n];
      OneMoreEvent(units, StartOf, starts, n);
      OneMoreEvent(units, EndOf, ends, n);
      starts := starts[u.start := At(starts, u.start) + [u.id]];
      ends := ends[u.End() := At(ends, u.End()) + [u.id]];
    }
    assert units[..|units|] == units;
  }

  function EventTimes(units: seq<Unit>): set<nat> {
    Times(units, StartOf) + Times(units, EndOf)
  }

  lemma {:induction false} TimesHold(units: seq<Unit>, k: nat)
    requires k < |units|
    ensures units[k].start in Times(units, StartOf) && units[k].End() in Times(units, EndOf)
  {
    assert StartOf(units[k]) in Times(units, StartOf) && EndOf(units[k]) in Times(units, EndOf);
  }

  method Least(times: set<nat>) returns (least: nat)
    requires times != {}
    ensures least in times && forall t :: t in times ==> least <= t
  {
    least :| least in times;
    var rest := times - {least};
    while rest != {}
      invariant rest <= times && least in times
      invariant forall t :: t in times ==> t in rest || least <= t
      decreases |rest|
    {
      var t :| t in rest;
      rest := rest - {t};
      if t < least {
        least := t;
      }
    }
  }

  // ----- the sweep -----

  /** The units that started at a time before the remaining `times` and end at one of them. */
  function Running(units: seq<Unit>, times: set<nat>): set<Id> {
    set k | 0 <= k < |units| && units[k].start !in times && units[k].End() in times :: units[k].id
  }

  ghost predicate Swept(units: seq<Unit>, times: set<nat>, previous: nat) {
    && times <= EventTimes(units)
    && (forall t :: t in times ==> previous <= t)
    && (forall t :: t in EventTimes(units) && t !in times ==> t <= previous)
  }

  lemma {:induction false} NextIsSwept(units: seq<Unit>, times: set<nat>, previous: nat, now: nat)
    requires Swept(units, times, previous) && now in times && (forall s :: s in times ==> now <= s)
    ensures Swept(units, times - {now}, now) && now in EventTimes(units) && previous <= now
  {}

  /** Between two neighbouring event times the same units are active. */
  lemma {:induction false} RunningIsActive(units: seq<Unit>, times: set<nat>, previous: nat, now: nat, t: nat)
    requires Swept(units, times, previous) && now in times && (forall s :: s in times ==> now <= s)
    requires previous <= t < now
    ensures Active(units, t) == Running(units, times)
  {
    forall k | 0 <= k < |units|
      ensures units[k].start <= t < units[k].End() <==> units[k].start !in times && units[k].End() in times
    {
      TimesHold(units, k);
    }
  }

  lemma {:induction false} BusyGrows(units: seq<Unit>, from: nat, times: set<nat>, previous: nat, now: nat)
    requires Swept(units, times, previous) && now in times && (forall s :: s in times ==> now <= s) && from <= previous
    ensures |BusyTicks(units, from, now)|
         == |BusyTicks(units, from, previous)| + if Running(units, times) != {} then now - previous else 0
  {
    forall t | previous <= t < now ensures Active(units, t) == Running(units, times) {
      RunningIsActive(units, times, previous, now, t);
    }
    if Running(units, times) != {} {
      RangeSize(previous, now);
      BusyAll(units, from, previous, now);
      DisjointSize(BusyTicks(units, from, previous), Range(previous, now));
    } else {
      BusyNone(units, from, previous, now);
    }
  }

  lemma {:induction false} BusyAll(units: seq<Unit>, lo: nat, mid: nat, hi: nat)
    requires lo <= mid <= hi && forall t: nat :: mid <= t < hi ==> Active(units, t) != {}
    ensures BusyTicks(units, lo, hi) == BusyTicks(units, lo, mid) + Range(mid, hi)
  {}

  lemma {:induction false} BusyNone(units: seq<Unit>, lo: nat, mid: nat, hi: nat)
    requires lo <= mid <= hi && forall t: nat :: mid <= t < hi ==> Active(units, t) == {}
    ensures BusyTicks(units, lo, hi) == BusyTicks(units, lo, mid)
  {}

  lemma {:induction false} OnlyGrows(units: seq<Unit>, id: Id, from: nat, times: set<nat>, previous: nat, now: nat)
    requires Swept(units, times, previous) && now in times && (forall s :: s in times ==> now <= s) && from <= previous
    ensures |OnlyTicks(units, id, from, now)|
         == |OnlyTicks(units, id, from, previous)| + if Running(units, times) == {id} then now - previous else 0
  {
    forall t | previous <= t < now ensures Active(units, t) == Running(units, times) {
      RunningIsActive(units, times, previous, now, t);
    }
    if Running(units, times) == {id} {
      RangeSize(previous, now);
      assert OnlyTicks(units, id, from, now) == OnlyTicks(units, id, from, previous) + Range(previous, now);
    } else {
      assert OnlyTicks(units, id, from, now) == OnlyTicks(units, id, from, previous);
    }
  }

  lemma {:induction false} RunningHas(units: seq<Unit>, times: set<nat>, k: nat)
    requires Loaded(units) && k < |units|
    ensures units[k].id in Running(units, times) <==> units[k].start !in times && units[k].End() in times
  {}

  function Set(s: seq<Id>): set<Id> {
    set x | x in s
  }

  /** How the events at `now` change whether unit `k` is running. */
  lemma {:induction false} UnitMoves(units: seq<Unit>, times: set<nat>, previous: nat, now: nat, k: nat)
    requires Swept(units, times, previous) && now in times && (forall s :: s in times ==> now <= s)
    requires Loaded(units) && k < |units|
    ensures units[k].id in Running(units, times - {now})
       <==> (units[k].id in Running(units, times) || units[k].start == now) && units[k].End() != now
    ensures units[k].End() == now ==> units[k].id in Running(units, times) || units[k].start == now
  {
    TimesHold(units, k);
    RunningHas(units, times, k);
    RunningHas(units, times - {now}, k);
  }

  lemma {:induction false} IdAt(units: seq<Unit>, time: Unit -> nat, t: nat, k: nat)
    requires Loaded(units) && k < |units|
    ensures units[k].id in IdsAt(units, time, t) <==> time(units[k]) == t
  {
    IdsAre(units, time, t, units[k].id);
  }

  /** What is active after the events at `now`: who starts then is added first, who ends then is removed. */
  lemma {:induction false} EventsMoveRunning(units: seq<Unit>, times: set<nat>, previous: nat, now: nat)
    requires Swept(units, times, previous) && now in times && (forall s :: s in times ==> now <= s)
    requires Loaded(units)
    ensures var active := Running(units, times) + Set(IdsAt(units, StartOf, now));
      && (forall id :: id in IdsAt(units, EndOf, now) ==> id in active)
      && Running(units, times - {now}) == active - Set(IdsAt(units, EndOf, now))
  {
    var active := Running(units, times) + Set(IdsAt(units, StartOf, now));
    forall k | 0 <= k < |units|
      ensures units[k].id in Running(units, times - {now})
        <==> units[k].id in active && units[k].id !in IdsAt(units, EndOf, now)
      ensures units[k].id in IdsAt(units, EndOf, now) ==> units[k].id in active
    {
      UnitMoves(units, times, previous, now, k);
      IdAt(units, StartOf, now, k);
      IdAt(units, EndOf, now, k);
    }
    forall id | id in active || id in IdsAt(units, EndOf, now)
      ensures exists k :: 0 <= k < |units| && units[k].id == id
    {
      IdsAre(units, StartOf, now, id);
      IdsAre(units, EndOf, now, id);
    }
  }

  function Seconds(exclusive: map<Id, nat>, id: Id): nat {
    if id in exclusive then exclusive[id] else 0
  }

  /** `covered` and `exclusive` are right for the time from `begin` to `now`. */
  ghost predicate Measured(units: seq<Unit>, begin: nat, now: nat, covered: nat, exclusive: map<Id, nat>) {
    && covered == |BusyTicks(units, begin, now)|
    && forall id :: Seconds(exclusive, id) == |OnlyTicks(units, id, begin, now)|
  }

  /** One interval more. */
  ghost predicate Charged(exclusive: map<Id, nat>, active: set<Id>, interval: nat, charged: map<Id, nat>) {
    forall id :: Seconds(charged, id) == Seconds(exclusive, id) + if active == {id} then interval else 0
  }

  lemma {:induction false} MeasureGrows(
      units: seq<Unit>, begin: nat, times: set<nat>, previous: nat, now: nat,
      covered: nat, exclusive: map<Id, nat>, charged: map<Id, nat>)
    requires Swept(units, times, previous) && now in times && (forall s :: s in times ==> now <= s) && begin <= previous
    requires Measured(units, begin, previous, covered, exclusive)
    requires Charged(exclusive, Running(units, times), now - previous, charged)
    ensures Measured(units, begin, now, covered + (if Running(units, times) != {} then now - previous else 0), charged)
  {
    BusyGrows(units, begin, times, previous, now);
    forall id ensures Seconds(charged, id) == |OnlyTicks(units, id, begin, now)| {
      OnlyGrows(units, id, begin, times, previous, now);
    }
  }

  /** Adds the interval to the unit that is alone, if one is. */
  method Charge(exclusive: map<Id, nat>, active: set<Id>, interval: nat) returns (charged: map<Id, nat>)
    ensures Charged(exclusive, active, interval, charged)
  {
    charged := exclusive;
    if |active| == 1 {
      Singleton(active);
      var id :| id in active;
      charged := charged[id := Seconds(exclusive, id) + interval];
    }
  }

  /** The measures are exact: the ticks with some unit active, and for each unit those it has alone. */
  method Sweep(units: seq<Unit>) returns (begin: nat, finish: nat, covered: nat, exclusive: map<Id, nat>)
    requires Loaded(units)
    ensures exists k :: 0 <= k < |units| && units[k].start == begin
    ensures exists k :: 0 <= k < |units| && units[k].start + units[k].duration == finish
    ensures forall k :: 0 <= k < |units| ==> begin <= units[k].start && units[k].start + units[k].duration <= finish
    ensures covered == |BusyTicks(units, begin, finish)|
    ensures forall id :: Seconds(exclusive, id) == |OnlyTicks(units, id, begin, finish)|
  {
    var starts, ends := Events(units);
    TimesHold(units, 0);
    begin := Least(starts.Keys);
    var active: set<Id> := {};
    covered, exclusive := 0, map[];
    var previous := begin;
    var times := starts.Keys + ends.Keys;
    FirstEvent(units, begin);
    while times != {}
      invariant previous in EventTimes(units)
      invariant Sweeping(units, begin, times, previous, active, covered, exclusive)
      decreases |times|
    {
      var now := Least(times);
      covered, exclusive := Cover(units, begin, times, previous, now, active, covered, exclusive);
      EventsApply(units, starts, ends, times, previous, now);
      active := Apply(active, At(starts, now), At(ends, now));
      times := times - {now};
      previous := now;
    }
    finish := previous;
    LastEvent(units, begin, finish);
  }

  /** The state of the sweep between two event times. */
  ghost predicate Sweeping(
      units: seq<Unit>, begin: nat, times: set<nat>, previous: nat, active: set<Id>, covered: nat,
      exclusive: map<Id, nat>)
  {
    && begin <= previous && Swept(units, times, previous)
    && active == Running(units, times)
    && Measured(units, begin, previous, covered, exclusive)
  }

  /** The interval up to the next event time. */
  method Cover(
      ghost units: seq<Unit>, ghost begin: nat, ghost times: set<nat>, previous: nat, now: nat,
      active: set<Id>, covered0: nat, exclusive0: map<Id, nat>)
    returns (covered: nat, exclusive: map<Id, nat>)
    requires Sweeping(units, begin, times, previous, active, covered0, exclusive0)
    requires now in times && (forall s :: s in times ==> now <= s)
    ensures Measured(units, begin, now, covered, exclusive)
  {
    var interval := now - previous;
    exclusive := Charge(exclusive0, active, interval);
    MeasureGrows(units, begin, times, previous, now, covered0, exclusive0, exclusive);
    covered := if active != {} then covered0 + interval else covered0;
  }

  lemma {:induction false} Singleton(s: set<Id>)
    requires |s| == 1
    ensures exists x :: x in s
    ensures forall x :: x in s ==> s == {x}
  {
    var y :| y in s;
    forall x | x in s ensures s == {x} {
      assert |s - {x}| == 0;
    }
  }

  lemma {:induction false} FirstEvent(units: seq<Unit>, begin: nat)
    requires units != [] && begin in Times(units, StartOf)
    requires forall t :: t in Times(units, StartOf) ==> begin <= t
    ensures Swept(units, EventTimes(units), begin) && Running(units, EventTimes(units)) == {}
    ensures BusyTicks(units, begin, begin) == {} && forall id :: OnlyTicks(units, id, begin, begin) == {}
  {
    forall k | 0 <= k < |units|
      ensures begin <= units[k].start && units[k].start in EventTimes(units)
    {
      TimesHold(units, k);
    }
  }

  lemma {:induction false} LastEvent(units: seq<Unit>, begin: nat, finish: nat)
    requires Swept(units, {}, finish) && finish in EventTimes(units)
    requires begin in Times(units, StartOf) && forall t :: t in Times(units, StartOf) ==> begin <= t
    ensures exists k :: 0 <= k < |units| && units[k].start == begin
    ensures exists k :: 0 <= k < |units| && units[k].End() == finish
    ensures forall k :: 0 <= k < |units| ==> begin <= units[k].start && units[k].End() <= finish
  {
    forall k | 0 <= k < |units| ensures begin <= units[k].start && units[k].End() <= finish {
      TimesHold(units, k);
    }
    var k :| 0 <= k < |units| && StartOf(units[k]) == begin;
    if finish in Times(units, StartOf) {
      var j :| 0 <= j < |units| && StartOf(units[j]) == finish;
      assert units[j].End() == finish;
    } else {
      var j :| 0 <= j < |units| && EndOf(units[j]) == finish;
      assert units[j].End() == finish;
    }
  }

  lemma {:induction false} EventsApply(
      units: seq<Unit>, starts: map<nat, seq<Id>>, ends: map<nat, seq<Id>>, times: set<nat>, previous: nat, now: nat)
    requires Loaded(units) && AreEvents(units, StartOf, starts) && AreEvents(units, EndOf, ends)
    requires Swept(units, times, previous) && now in times && (forall s :: s in times ==> now <= s)
    ensures forall id :: id in At(ends, now) ==> id in Running(units, times) || id in At(starts, now)
    ensures forall i, j :: 0 <= i < j < |At(ends, now)| ==> At(ends, now)[i] != At(ends, now)[j]
    ensures Running(units, times - {now}) == Running(units, times) + Set(At(starts, now)) - Set(At(ends, now))
    ensures Swept(units, times - {now}, now) && now in EventTimes(units) && previous <= now
  {
    assert At(starts, now) == IdsAt(units, StartOf, now) && At(ends, now) == IdsAt(units, EndOf, now);
    EventsMoveRunning(units, times, previous, now);
    IdsAreDistinct(units, EndOf, now);
    NextIsSwept(units, times, previous, now);
  }

  /** The events of one time. `remove` always finds the unit, also one that started at the same time. */
  method Apply(before: set<Id>, starting: seq<Id>, ending: seq<Id>) returns (active: set<Id>)
    requires forall id :: id in ending ==> id in before || id in starting
    requires forall i, j :: 0 <= i < j < |ending| ==> ending[i] != ending[j]
    ensures active == before + Set(starting) - Set(ending)
  {
    active := before;
    for n := 0 to |starting|
      invariant active == before + Set(starting[..n])
    {
      active := active + {starting[n]};
    }
    assert starting[..|starting|] == starting;
    for n := 0 to |ending|
      invariant active == before + Set(starting) - Set(ending[..n])
    {
      assert ending[n] in ending;
      assert forall i :: 0 <= i < n ==> ending[..n][i] != ending[n];
      assert ending[n] in active;
      active := active - {ending[n]};
    }
    assert ending[..|ending|] == ending;
  }

  // ----- how the measures are related -----

  /** For each unit, the ticks it has alone. */
  function OnlySets(units: seq<Unit>, begin: nat, finish: nat): (sets: seq<set<nat>>)
    ensures |sets| == |units| && forall k :: 0 <= k < |units| ==>
      sets[k] == OnlyTicks(units, units[k].id, begin, finish)
  {
    seq(|units|, k requires 0 <= k < |units| => OnlyTicks(units, units[k].id, begin, finish))
  }

  function SizeSum(sets: seq<set<nat>>): nat {
    if sets == [] then 0 else SizeSum(sets[..|sets| - 1]) + |sets[|sets| - 1]|
  }

  function Union(sets: seq<set<nat>>): set<nat> {
    if sets == [] then {} else Union(sets[..|sets| - 1]) + sets[|sets| - 1]
  }

  ghost predicate Disjoint(sets: seq<set<nat>>) {
    forall i, j :: 0 <= i < j < |sets| ==> sets[i] !! sets[j]
  }

  lemma {:induction false} UnionHolds(sets: seq<set<nat>>, x: nat)
    ensures x in Union(sets) <==> exists k :: 0 <= k < |sets| && x in sets[k]
  {
    if sets != [] {
      UnionHolds(sets[..|sets| - 1], x);
    }
  }

  lemma {:induction false} UnionSize(sets: seq<set<nat>>)
    requires Disjoint(sets)
    ensures |Union(sets)| == SizeSum(sets)
  {
    if sets != [] {
      var front, last := sets[..|sets| - 1], sets[|sets| - 1];
      UnionSize(front);
      forall x | x in Union(front) ensures x !in last {
        UnionHolds(front, x);
        var k :| 0 <= k < |front| && x in front[k];
        assert sets[k] !! last;
      }
      DisjointSize(Union(front), last);
    }
  }

  lemma {:induction false} OnlyOne(units: seq<Unit>, a: Id, b: Id, begin: nat, finish: nat)
    requires a != b
    ensures OnlyTicks(units, a, begin, finish) !! OnlyTicks(units, b, begin, finish)
  {
    forall t | t in OnlyTicks(units, a, begin, finish) ensures t !in OnlyTicks(units, b, begin, finish) {
      assert a in Active(units, t);
    }
  }

  /** No time is counted twice: the exclusive times add up to at most the covered time, and that to the span. */
  lemma {:induction false} ExclusiveWithinCovered(units: seq<Unit>, begin: nat, finish: nat)
    requires Loaded(units) && begin <= finish
    ensures SizeSum(OnlySets(units, begin, finish)) <= |BusyTicks(units, begin, finish)| <= finish - begin
  {
    var sets := OnlySets(units, begin, finish);
    forall i, j | 0 <= i < j < |sets| ensures sets[i] !! sets[j] {
      OnlyOne(units, units[i].id, units[j].id, begin, finish);
    }
    UnionSize(sets);
    forall t | t in Union(sets) ensures t in BusyTicks(units, begin, finish) {
      UnionHolds(sets, t);
    }
    SubsetSize(Union(sets), BusyTicks(units, begin, finish));
    RangeSize(begin, finish);
    SubsetSize(BusyTicks(units, begin, finish), Range(begin, finish));
  }
}

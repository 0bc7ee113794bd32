/**
 Publication as a machine: one process at a time works on durable tables, any
 number of threads interleave their steps, the remote answers whatever it
 likes, and the process may die between any two steps. A run is a sequence of
 actions from an empty store; an action that is not possible changes nothing.

 Sources: crates/adapters/src/outbox.rs (publish, reconcile),
 crates/adapters/src/store.rs (transactions, recovery on open),
 crates/adapters/src/service.rs (one gate per provider; reconciliation has none).
 */
module Publication {
  import opened Wrappers
  import opened Review
  import opened Tables
  import opened Outbox
  import opened Store

  /** What the provider showed to back a confirmation. */
  datatype Shown = Shown(review: RemoteReview, comments: seq<RemoteComment>)

  /**
   `publishers` holds the publication inside each provider's gate, `poisoned` the gates a panic
   closed, `reconcilers` the entries that reconciling threads have read. These die with the
   process. `sends`, `shown` and `refused` record what the remote was asked and answered, and are
   never read.
   */
  datatype World = World(
    t: Tables,
    up: bool,
    publishers: map<ProviderId, Publisher>,
    poisoned: set<ProviderId>,
    reconcilers: set<OutboxEntry>,
    sends: seq<PreparedReview>,
    shown: map<OperationId, Shown>,
    refused: set<OperationId>)

  datatype Action =
    | Save(d: Draft)
    | Discard(id: DraftId, version: nat)
    | Put(s: Snapshot, now: nat, rowid: nat)
    | Reopen(snapshot: SnapshotId, at: nat)
    | Prepare(p: PreparedReview)
    | Enter(p: PreparedReview)                          // publish takes the gate and reads the entry
    | Step(provider: ProviderId, answers: Answers)      // the publication inside the gate goes on
    | Leave(provider: ProviderId, panics: bool)         // it fails, or its thread panics
    | Read(op: OperationId)                             // reconcile reads an entry
    | Finish(e: OutboxEntry, reviews: seq<RemoteReview>, comments: map<nat, seq<RemoteComment>>)
    | GiveUp(e: OutboxEntry)
    | Crash
    | RecoverOne(op: OperationId)
    | Opened                                            // recovery is complete; prune and serve

  const Start := World(Tables(map[], map[], map[]), false, map[], {}, {}, [], map[], {})

  const GITLAB := ProviderId("gitlab")

  function RulesOf(provider: ProviderId): Rules {
    Rules(provider, provider == GITLAB)
  }

  function ProviderOf(p: PreparedReview): ProviderId {
    p.payload.target.provider
  }

  function Next(w: World, a: Action): World {
    match a
    case Prepare(p) =>
      if w.up && p.payload.snapshot in w.t.snapshots then w.(t := w.t.InsertPrepared(p, ProviderOf(p)).0) else w
    case Enter(p) =>
      if w.up && ProviderOf(p) !in w.publishers && ProviderOf(p) !in w.poisoned
        && Begin(p, RulesOf(ProviderOf(p)), w.t).Ok?
      then w.(publishers := w.publishers[ProviderOf(p) := Begin(p, RulesOf(ProviderOf(p)), w.t).value])
      else w
    case Step(provider, answers) =>
      if w.up && provider in w.publishers then StepPublisher(w, provider, answers) else w
    case Leave(provider, panics) =>
      if provider in w.publishers
      then w.(
        publishers := w.publishers - {provider},
        poisoned := if panics then w.poisoned + {provider} else w.poisoned)
      else w
    case Read(op) =>
      if w.up && op in w.t.outbox && w.t.outbox[op].state.UnknownOutcome?
      then w.(reconcilers := w.reconcilers + {w.t.outbox[op]})
      else w
    case Finish(e, reviews, comments) =>
      if w.up && e in w.reconcilers then FinishReconcile(w, e, reviews, comments) else w
    case GiveUp(e) => w.(reconcilers := w.reconcilers - {e})
    case Crash => w.(up := false, publishers := map[], poisoned := {}, reconcilers := {})
    case RecoverOne(op) =>
      if !w.up && op in w.t.outbox && w.t.outbox[op].state.InFlight?
      then w.(t := w.t.Transition(Recovered(w.t.outbox[op]), None).0)
      else w
    case Opened =>
      if !w.up && (forall op :: op in w.t.outbox ==> !w.t.outbox[op].state.InFlight?)
      then w.(t := w.t.Prune(KEEP_RECENT), up := true)
      else w
    case _ => if w.up then w.(t := UiTables(w.t, a)) else w
  }

  /** What the window itself stores: drafts and snapshots. */
  function UiTables(t: Tables, a: Action): Tables {
    match a
    case Save(d) => t.SaveDraft(d).0
    case Discard(id, version) => t.DiscardDraft(id, version).0
    case Put(s, now, rowid) => if t.FreshRowid(rowid) then t.PutSnapshot(s, now, rowid).0 else t
    case Reopen(id, now) => t.Touch(id, now)
    case _ => t
  }

  function StepPublisher(w: World, provider: ProviderId, answers: Answers): World
    requires provider in w.publishers
  {
    var pub := w.publishers[provider];
    match Advance(pub, RulesOf(provider), w.t, answers)
    case Returned(_, u) => w.(t := u, publishers := w.publishers - {provider})
    case Going(next, u, sent) =>
      w.(t := u,
         publishers := w.publishers[provider := next],
         sends := if sent then w.sends + [pub.p] else w.sends,
         shown := if sent && next.entry.state.Confirmed?
                  then w.shown[pub.p.payload.id := ShownBy(answers)] else w.shown,
         refused := if sent && answers.outcome.Refused? then w.refused + {pub.p.payload.id} else w.refused)
  }

  function ShownBy(a: Answers): Shown {
    if a.outcome.Accepted? && a.comments.Some? then Shown(a.outcome.response, a.comments.value)
    else Shown(RemoteReview(None, None, None, None, None, None), [])
  }

  function FinishReconcile(
      w: World, e: OutboxEntry, reviews: seq<RemoteReview>, comments: map<nat, seq<RemoteComment>>): World {
    var rules := RulesOf(ProviderOf(e.prepared));
    var matches := Matching(e, reviews, comments, rules.marksReviews);
    var done := w.(reconcilers := w.reconcilers - {e});
    if matches.None? || |matches.value| != 1 then done
    else
      var i := FirstMatch(e, reviews, comments, rules.marksReviews);
      var (u, r) := Settle(e, rules, w.t, matches.value);
      done.(t := u,
            shown := if r.Ok? && i < |reviews| && reviews[i].id.Some? && reviews[i].id.value in comments
                     then w.shown[e.prepared.payload.id := Shown(reviews[i], comments[reviews[i].id.value])]
                       else w.shown)
  }

  function FirstMatch(
      e: OutboxEntry, reviews: seq<RemoteReview>, comments: map<nat, seq<RemoteComment>>, marked: bool): (i: nat)
    ensures i < |reviews| ==> IsMatch(e, reviews[i], comments, marked)
    ensures i >= |reviews| ==> forall j :: 0 <= j < |reviews| ==> !IsMatch(e, reviews[j], comments, marked)
  {
    MatchFrom(e, reviews, comments, marked, 0)
  }

  function MatchFrom(
      e: OutboxEntry, reviews: seq<RemoteReview>, comments: map<nat, seq<RemoteComment>>, marked: bool,
      start: nat): (i: nat)
    requires start <= |reviews|
    ensures i < |reviews| ==> IsMatch(e, reviews[i], comments, marked)
    ensures i >= |reviews| ==> forall j :: start <= j < |reviews| ==> !IsMatch(e, reviews[j], comments, marked)
    decreases |reviews| - start
  {
    if start == |reviews| || IsMatch(e, reviews[start], comments, marked) then start
    else MatchFrom(e, reviews, comments, marked, start + 1)
  }

  function Run(w: World, actions: seq<Action>): World {
    if actions == [] then w else Next(Run(w, actions[..|actions| - 1]), actions[|actions| - 1])
  }

  // ----- the invariant -----

  predicate Sent(sends: seq<PreparedReview>, op: OperationId) {
    exists i :: 0 <= i < |sends| && sends[i].payload.id == op
  }

  ghost predicate OneUnresolved(t: Tables) {
    forall a, b :: a in t.outbox && b in t.outbox && a != b && t.outbox[a].state.Unresolved()
      && t.outbox[b].state.Unresolved()
      ==> !SamePr(t.outbox[a].prepared.payload.target, t.outbox[b].prepared.payload.target)
  }

  ghost predicate SendsInv(w: World) {
    && (forall i, j :: 0 <= i < j < |w.sends| ==> w.sends[i].payload.id != w.sends[j].payload.id)
    && (forall i :: 0 <= i < |w.sends| ==> SendValid(w, w.sends[i]))
  }

  /** What was sent is the stored review, and it left Prepared first. */
  ghost predicate SendValid(w: World, p: PreparedReview) {
    var op := p.payload.id;
    op in w.t.outbox && w.t.outbox[op].prepared == p && !w.t.outbox[op].state.Prepared?
  }

  ghost predicate Backed(w: World, e: OutboxEntry) {
    var op := e.prepared.payload.id;
    && op in w.shown && e.remoteId.Some? && w.shown[op].review.id == e.remoteId
    && MatchesReview(e.prepared, w.shown[op].review, w.shown[op].comments, RulesOf(ProviderOf(e.prepared)).marksReviews)
  }

  ghost predicate ShownInv(w: World) {
    forall op :: op in w.t.outbox && w.t.outbox[op].state.Confirmed? ==> Backed(w, w.t.outbox[op])
  }

  ghost predicate PublisherInv(w: World, provider: ProviderId, pub: Publisher) {
    var op := pub.p.payload.id;
    && ProviderOf(pub.p) == provider
    && op in w.t.outbox
    && w.t.outbox[op].prepared == pub.p && pub.entry.prepared == pub.p
    && (pub.pc.BeforeSend() ==> w.t.outbox[op].state.Prepared? && pub.entry.state.Prepared?)
    && (pub.pc.BeforeSend() && pub.pc != Begun ==> !OtherUnresolved(w.t, pub.p.payload))
    && (!pub.pc.BeforeSend() ==> w.t.outbox[op].state.InFlight?)
    && (pub.pc.Durable? ==> !Sent(w.sends, op) && pub.entry.state.InFlight?)
    && (pub.pc.Answered? && pub.entry.state.Confirmed? ==> Backed(w, pub.entry))
  }

  ghost predicate PublishersInv(w: World) {
    forall provider :: provider in w.publishers ==> PublisherInv(w, provider, w.publishers[provider])
  }

  ghost predicate ReconcilersInv(w: World) {
    forall e :: e in w.reconcilers ==> ReconcilerInv(w, e)
  }

  ghost predicate ReconcilerInv(w: World, e: OutboxEntry) {
    var op := e.prepared.payload.id;
    && e.state.UnknownOutcome?
    && op in w.t.outbox && w.t.outbox[op].prepared == e.prepared
    && (w.t.outbox[op].state.UnknownOutcome? || w.t.outbox[op].state.Confirmed?)
  }

  ghost predicate Inv(w: World) {
    && w.t.Valid() && OneUnresolved(w.t)
    && SendsInv(w) && ShownInv(w) && PublishersInv(w) && ReconcilersInv(w)
    && (!w.up ==> w.publishers == map[] && w.reconcilers == {})
  }

  // ----- every action keeps the invariant -----

  /** Nothing that the invariant says of operations has changed. */
  ghost predicate SameFacts(w: World, v: World) {
    v.t.outbox == w.t.outbox && v.sends == w.sends && v.shown == w.shown
  }

  lemma {:induction false} SendsSame(w: World, v: World)
    requires SendsInv(w) && SameFacts(w, v)
    ensures SendsInv(v)
  {
    forall i | 0 <= i < |v.sends| ensures SendValid(v, v.sends[i]) {
      assert SendValid(w, w.sends[i]);
    }
  }

  lemma {:induction false} ShownSame(w: World, v: World)
    requires ShownInv(w) && SameFacts(w, v)
    ensures ShownInv(v)
  {
    forall op | op in v.t.outbox && v.t.outbox[op].state.Confirmed? ensures Backed(v, v.t.outbox[op]) {
      assert Backed(w, w.t.outbox[op]);
    }
  }

  lemma {:induction false} PublisherSame(w: World, v: World, provider: ProviderId, pub: Publisher)
    requires PublisherInv(w, provider, pub) && SameFacts(w, v)
    ensures PublisherInv(v, provider, pub)
  {}

  lemma {:induction false} ReconcilerSame(w: World, v: World, e: OutboxEntry)
    requires ReconcilerInv(w, e) && SameFacts(w, v)
    ensures ReconcilerInv(v, e)
  {}

  /** Actions that leave the outbox as it is. */
  lemma {:induction false} SameOutbox(w: World, v: World)
    requires Inv(w) && v.t.Valid() && SameFacts(w, v)
    requires forall p :: p in v.publishers ==> p in w.publishers && v.publishers[p] == w.publishers[p]
    requires v.reconcilers <= w.reconcilers
    requires !v.up ==> v.publishers == map[] && v.reconcilers == {}
    ensures Inv(v)
  {
    SendsSame(w, v);
    ShownSame(w, v);
    forall p | p in v.publishers ensures PublisherInv(v, p, v.publishers[p]) {
      PublisherSame(w, v, p, w.publishers[p]);
    }
    forall e | e in v.reconcilers ensures ReconcilerInv(v, e) {
      ReconcilerSame(w, v, e);
    }
  }

  /** One outbox row is new and Prepared, or has moved within the lifecycle. */
  ghost predicate RowChanged(t: Tables, u: Tables, op: OperationId) {
    && op in u.outbox && u.outbox == t.outbox[op := u.outbox[op]]
    && u.outbox[op].prepared.payload.id == op
    && (if op in t.outbox
        then u.outbox[op].prepared == t.outbox[op].prepared && t.outbox[op].state.CanTransition(u.outbox[op].state)
        else u.outbox[op].state.Prepared?)
  }

  lemma {:induction false} OneUnresolvedKept(t: Tables, u: Tables, op: OperationId)
    requires OneUnresolved(t) && RowChanged(t, u, op) && t.OutboxValid()
    requires u.outbox[op].state.InFlight? ==> !OtherUnresolved(t, u.outbox[op].prepared.payload)
    ensures OneUnresolved(u)
  {
    forall a | a in u.outbox && a != op && u.outbox[a].state.Unresolved() && u.outbox[op].state.Unresolved()
      ensures !SamePr(u.outbox[a].prepared.payload.target, u.outbox[op].prepared.payload.target)
    {
      assert t.EntryValid(a);
      if u.outbox[op].state.InFlight? {
        assert !BlocksPr(t.outbox[a], u.outbox[op].prepared.payload);
      }
    }
  }

  lemma {:induction false} SendsKept(w: World, v: World, op: OperationId)
    requires SendsInv(w) && RowChanged(w.t, v.t, op) && v.sends == w.sends
    ensures SendsInv(v)
  {
    forall i | 0 <= i < |v.sends| ensures SendValid(v, v.sends[i]) {
      assert SendValid(w, w.sends[i]);
    }
  }

  lemma {:induction false} ShownKept(w: World, v: World, op: OperationId)
    requires ShownInv(w) && RowChanged(w.t, v.t, op) && w.t.OutboxValid()
    requires forall o :: o in w.shown && o != op ==> o in v.shown && v.shown[o] == w.shown[o]
    requires v.t.outbox[op].state.Confirmed? ==> Backed(v, v.t.outbox[op])
    ensures ShownInv(v)
  {
    forall o | o in v.t.outbox && v.t.outbox[o].state.Confirmed? ensures Backed(v, v.t.outbox[o]) {
      if o != op {
        assert w.t.EntryValid(o);
        assert Backed(w, w.t.outbox[o]);
      }
    }
  }

  /** A publication is not disturbed by a row of another PR, nor by a row that stays out of its way. */
  lemma {:induction false} PublisherKept(w: World, v: World, op: OperationId, provider: ProviderId)
    requires w.t.OutboxValid() && RowChanged(w.t, v.t, op) && provider in w.publishers
    requires PublisherInv(w, provider, w.publishers[provider])
    requires op != w.publishers[provider].p.payload.id
    requires v.t.outbox[op].prepared.payload.target.provider != provider || !v.t.outbox[op].state.InFlight?
    requires forall o :: o != op ==> (Sent(v.sends, o) == Sent(w.sends, o))
    requires forall o :: o in w.shown && o != op ==> o in v.shown && v.shown[o] == w.shown[o]
    ensures PublisherInv(v, provider, w.publishers[provider])
  {
    var pub := w.publishers[provider];
    if !OtherUnresolved(w.t, pub.p.payload) {
      forall o | o in v.t.outbox && BlocksPr(v.t.outbox[o], pub.p.payload)
        ensures o in w.t.outbox && BlocksPr(w.t.outbox[o], pub.p.payload)
      {
        if o == op { assert w.t.outbox[op].state.Unresolved(); }
      }
      OtherUnresolvedKept(w.t, v.t, pub.p.payload);
    }
  }

  lemma {:induction false} ReconcilersKept(w: World, v: World, op: OperationId)
    requires ReconcilersInv(w) && RowChanged(w.t, v.t, op) && v.reconcilers <= w.reconcilers
    ensures ReconcilersInv(v)
  {
    forall e | e in v.reconcilers ensures ReconcilerInv(v, e) {
      assert ReconcilerInv(w, e);
    }
  }

  lemma {:induction false} OthersKept(w: World, v: World, op: OperationId)
    requires PublishersInv(w) && w.t.OutboxValid() && RowChanged(w.t, v.t, op) && v.publishers == w.publishers
    requires forall q :: q in w.publishers ==> w.publishers[q].p.payload.id != op
    requires !v.t.outbox[op].state.InFlight? && v.sends == w.sends
    requires forall o :: o in w.shown && o != op ==> o in v.shown && v.shown[o] == w.shown[o]
    ensures PublishersInv(v)
  {
    forall q | q in v.publishers ensures PublisherInv(v, q, v.publishers[q]) {
      assert PublisherInv(w, q, w.publishers[q]);
      PublisherKept(w, v, op, q);
    }
  }

  lemma {:induction false} NewRowKeepsInv(w: World, v: World, op: OperationId)
    requires Inv(w) && v.t.Valid() && RowChanged(w.t, v.t, op) && op !in w.t.outbox && v == w.(t := v.t)
    ensures Inv(v)
  {
    OneUnresolvedKept(w.t, v.t, op);
    SendsKept(w, v, op);
    ShownKept(w, v, op);
    ReconcilersKept(w, v, op);
    forall q | q in w.publishers ensures w.publishers[q].p.payload.id != op {
      assert PublisherInv(w, q, w.publishers[q]);
    }
    OthersKept(w, v, op);
  }

  lemma {:induction false} PrepareKeepsInv(w: World, p: PreparedReview)
    requires Inv(w)
    ensures Inv(Next(w, Prepare(p)))
  {
    var v := Next(w, Prepare(p));
    if v.t != w.t {
      InsertPreparedKeepsValid(w.t, p, ProviderOf(p));
      NewRowKeepsInv(w, v, p.payload.id);
    }
  }

  /** Nothing newly unresolved on the PR means nothing newly in the way of its publication. */
  lemma {:induction false} OtherUnresolvedKept(t: Tables, u: Tables, p: Payload)
    requires !OtherUnresolved(t, p)
    requires forall op :: op in u.outbox && BlocksPr(u.outbox[op], p) ==> op in t.outbox && BlocksPr(t.outbox[op], p)
    ensures !OtherUnresolved(u, p)
  {}

  /** Only the threads change. */
  lemma {:induction false} SameTables(w: World, v: World)
    requires Inv(w) && w.up && v == w.(publishers := v.publishers)
    requires forall q :: q in v.publishers ==> PublisherInv(w, q, v.publishers[q])
    ensures Inv(v)
  {
    SendsSame(w, v);
    ShownSame(w, v);
    forall q | q in v.publishers ensures PublisherInv(v, q, v.publishers[q]) {
      PublisherSame(w, v, q, v.publishers[q]);
    }
    forall e | e in v.reconcilers ensures ReconcilerInv(v, e) {
      ReconcilerSame(w, v, e);
    }
  }

  lemma {:induction false} BegunIsValid(w: World, p: PreparedReview)
    requires w.t.OutboxValid() && Begin(p, RulesOf(ProviderOf(p)), w.t).Ok?
    ensures PublisherInv(w, ProviderOf(p), Begin(p, RulesOf(ProviderOf(p)), w.t).value)
  {
    assert w.t.EntryValid(p.payload.id);
  }

  lemma {:induction false} EnterKeepsInv(w: World, p: PreparedReview)
    requires Inv(w)
    ensures Inv(Next(w, Enter(p)))
  {
    var v := Next(w, Enter(p));
    if v != w {
      BegunIsValid(w, p);
      SameTables(w, v);
    }
  }

  /** A check passed: the holder knows one thing more. */
  lemma {:induction false} CheckPassed(w: World, provider: ProviderId, answers: Answers, next: Publisher)
    requires provider in w.publishers && PublisherInv(w, provider, w.publishers[provider])
    requires w.publishers[provider].pc.BeforeSend() && !w.publishers[provider].pc.Ready?
    requires Advance(w.publishers[provider], RulesOf(provider), w.t, answers) == Going(next, w.t, false)
    ensures PublisherInv(w, provider, next)
  {}

  lemma {:induction false} NotSentWhilePrepared(w: World, op: OperationId)
    requires SendsInv(w) && op in w.t.outbox && w.t.outbox[op].state.Prepared?
    ensures !Sent(w.sends, op)
  {
    forall i | 0 <= i < |w.sends| ensures w.sends[i].payload.id != op {
      assert SendValid(w, w.sends[i]);
    }
  }

  /** What a write by the holder may be: to Rejected, to InFlight, or to what the remote answered. */
  ghost predicate HolderWrites(w: World, v: World, provider: ProviderId, e: OutboxEntry) {
    && provider in w.publishers
    && var pub := w.publishers[provider];
    && PublisherInv(w, provider, pub)
    && e.prepared == pub.p && w.t.TransitionError(e, Some(provider)).None?
    && v == w.(t := w.t.Transition(e, Some(provider)).0, publishers := v.publishers)
    && (|| v.publishers == w.publishers - {provider}
        || (v.publishers == w.publishers[provider := Publisher(pub.p, e, Durable)] && e.state.InFlight?))
    && (e.state.InFlight? ==> !OtherUnresolved(w.t, pub.p.payload))
    && (e.state.Confirmed? ==> Backed(w, e))
  }

  lemma {:induction false} WriteChangesRow(w: World, v: World, provider: ProviderId, e: OutboxEntry)
    requires w.t.OutboxValid() && HolderWrites(w, v, provider, e)
    ensures RowChanged(w.t, v.t, e.prepared.payload.id) && v.t.outbox[e.prepared.payload.id] == e
  {
    assert w.t.EntryValid(e.prepared.payload.id);
  }

  lemma {:induction false} WriteKeepsOther(w: World, v: World, provider: ProviderId, e: OutboxEntry, q: ProviderId)
    requires w.t.OutboxValid() && HolderWrites(w, v, provider, e)
    requires q != provider && q in w.publishers && PublisherInv(w, q, w.publishers[q])
    ensures PublisherInv(v, q, w.publishers[q])
  {
    WriteChangesRow(w, v, provider, e);
    PublisherKept(w, v, e.prepared.payload.id, q);
  }

  lemma {:induction false} WriteKeepsHolder(w: World, v: World, provider: ProviderId, e: OutboxEntry)
    requires w.t.OutboxValid() && SendsInv(w) && HolderWrites(w, v, provider, e) && provider in v.publishers
    ensures PublisherInv(v, provider, v.publishers[provider])
  {
    WriteChangesRow(w, v, provider, e);
    NotSentWhilePrepared(w, e.prepared.payload.id);
  }

  lemma {:induction false} WriteKeepsPublishers(w: World, v: World, provider: ProviderId, e: OutboxEntry)
    requires w.t.OutboxValid() && SendsInv(w) && PublishersInv(w) && HolderWrites(w, v, provider, e)
    ensures PublishersInv(v)
  {
    forall q | q in v.publishers ensures PublisherInv(v, q, v.publishers[q]) {
      if q != provider {
        WriteKeepsOther(w, v, provider, e, q);
      } else {
        WriteKeepsHolder(w, v, provider, e);
      }
    }
  }

  lemma {:induction false} WriteKeepsInv(w: World, v: World, provider: ProviderId, e: OutboxEntry)
    requires Inv(w) && w.up && HolderWrites(w, v, provider, e)
    ensures Inv(v)
  {
    var op := e.prepared.payload.id;
    WriteChangesRow(w, v, provider, e);
    assert w.t.EntryValid(op);
    TransitionKeepsValid(w.t, e, Some(provider));
    OneUnresolvedKept(w.t, v.t, op);
    SendsKept(w, v, op);
    ShownKept(w, v, op);
    ReconcilersKept(w, v, op);
    WriteKeepsPublishers(w, v, provider, e);
  }

  // The send itself: nothing durable changes, the call is recorded.

  lemma {:induction false} SendIsRecorded(w: World, v: World, p: PreparedReview)
    requires SendsInv(w) && v.t == w.t && v.sends == w.sends + [p] && SendValid(w, p) && !Sent(w.sends, p.payload.id)
    ensures SendsInv(v)
  {
    forall i | 0 <= i < |v.sends| ensures SendValid(v, v.sends[i]) {
      assert i < |w.sends| ==> SendValid(w, w.sends[i]);
    }
    forall i | 0 <= i < |w.sends| ensures w.sends[i].payload.id != p.payload.id {
      assert !(w.sends[i].payload.id == p.payload.id);
    }
  }

  lemma {:induction false} SendIsFirst(w: World, v: World, provider: ProviderId, answers: Answers)
    requires SendsInv(w) && provider in w.publishers && w.publishers[provider].pc.Durable?
    requires PublisherInv(w, provider, w.publishers[provider])
    requires v == StepPublisher(w, provider, answers)
    ensures SendsInv(v)
    ensures v.sends == w.sends + [w.publishers[provider].p] && v.t == w.t
  {
    var pub := w.publishers[provider];
    assert v.sends == w.sends + [pub.p] && v.t == w.t;
    SendIsRecorded(w, v, pub.p);
  }

  lemma {:induction false} ConfirmedByAnswer(e: OutboxEntry, p: PreparedReview, rules: Rules, a: Answers)
    requires e.prepared == p && Judge(e, p, rules, a).state.Confirmed? && !e.state.Confirmed?
    ensures a.outcome.Accepted? && a.comments.Some?
    ensures Judge(e, p, rules, a).remoteId == a.outcome.response.id && a.outcome.response.id.Some?
    ensures MatchesReview(p, a.outcome.response, a.comments.value, rules.marksReviews)
  {}

  lemma {:induction false} JudgedIsBacked(w: World, v: World, provider: ProviderId, answers: Answers)
    requires provider in w.publishers && w.publishers[provider].pc.Durable?
    requires PublisherInv(w, provider, w.publishers[provider])
    requires v == StepPublisher(w, provider, answers)
    ensures v.publishers[provider].entry.state.Confirmed? ==> Backed(v, v.publishers[provider].entry)
    ensures forall o :: o in w.shown && o != w.publishers[provider].p.payload.id ==>
      o in v.shown && v.shown[o] == w.shown[o]
  {
    var pub := w.publishers[provider];
    if v.publishers[provider].entry.state.Confirmed? {
      ConfirmedByAnswer(pub.entry, pub.p, RulesOf(provider), answers);
    }
  }

  /** Another provider's publication does not notice a send. */
  lemma {:induction false} SendKeepsOther(w: World, v: World, q: ProviderId, p: PreparedReview)
    requires q in w.publishers && PublisherInv(w, q, w.publishers[q])
    requires ProviderOf(p) != q && p.payload.id in w.t.outbox && w.t.outbox[p.payload.id].prepared == p
    requires v.t == w.t && v.sends == w.sends + [p]
    requires forall o :: o in w.shown && o != p.payload.id ==> o in v.shown && v.shown[o] == w.shown[o]
    ensures PublisherInv(v, q, w.publishers[q])
  {
    var op := w.publishers[q].p.payload.id;
    assert op != p.payload.id;
    assert Sent(v.sends, op) ==> Sent(w.sends, op);
  }

  lemma {:induction false} SendKeepsHolder(w: World, v: World, provider: ProviderId, answers: Answers)
    requires provider in w.publishers && w.publishers[provider].pc.Durable?
    requires PublisherInv(w, provider, w.publishers[provider])
    requires v == StepPublisher(w, provider, answers)
    ensures provider in v.publishers && PublisherInv(v, provider, v.publishers[provider])
    ensures v.publishers == w.publishers[provider := v.publishers[provider]]
  {
    JudgedIsBacked(w, v, provider, answers);
  }

  lemma {:induction false} SendKeepsPublishers(w: World, v: World, provider: ProviderId, answers: Answers)
    requires SendsInv(w) && PublishersInv(w) && provider in w.publishers && w.publishers[provider].pc.Durable?
    requires v == StepPublisher(w, provider, answers)
    ensures PublishersInv(v)
  {
    var p := w.publishers[provider].p;
    assert PublisherInv(w, provider, w.publishers[provider]);
    SendIsFirst(w, v, provider, answers);
    JudgedIsBacked(w, v, provider, answers);
    SendKeepsHolder(w, v, provider, answers);
    forall q | q in v.publishers && q != provider ensures PublisherInv(v, q, v.publishers[q]) {
      assert PublisherInv(w, q, w.publishers[q]);
      SendKeepsOther(w, v, q, p);
    }
  }

  lemma {:induction false} SendKeepsInv(w: World, provider: ProviderId, answers: Answers)
    requires Inv(w) && w.up && provider in w.publishers && w.publishers[provider].pc.Durable?
    ensures Inv(StepPublisher(w, provider, answers))
  {
    var v := StepPublisher(w, provider, answers);
    var op := w.publishers[provider].p.payload.id;
    assert PublisherInv(w, provider, w.publishers[provider]);
    SendIsFirst(w, v, provider, answers);
    JudgedIsBacked(w, v, provider, answers);
    SendKeepsPublishers(w, v, provider, answers);
    forall o | o in v.t.outbox && v.t.outbox[o].state.Confirmed? ensures Backed(v, v.t.outbox[o]) {
      assert w.t.EntryValid(o);
      assert Backed(w, w.t.outbox[o]);
    }
    assert forall e :: ReconcilerInv(w, e) ==> ReconcilerInv(v, e);
  }

  lemma {:induction false} RemovedKeepsInv(w: World, provider: ProviderId)
    requires Inv(w)
    ensures Inv(w.(publishers := w.publishers - {provider}))
  {
    SameOutbox(w, w.(publishers := w.publishers - {provider}));
  }

  /** The holder wrote, or its write was refused and it left. */
  ghost predicate WroteOrLeft(w: World, v: World, provider: ProviderId, e: OutboxEntry) {
    HolderWrites(w, v, provider, e) || v == w.(publishers := w.publishers - {provider})
  }

  lemma {:induction false} WroteOrLeftKeepsInv(w: World, v: World, provider: ProviderId, e: OutboxEntry)
    requires Inv(w) && w.up && WroteOrLeft(w, v, provider, e)
    ensures Inv(v)
  {
    if HolderWrites(w, v, provider, e) {
      WriteKeepsInv(w, v, provider, e);
    } else {
      RemovedKeepsInv(w, provider);
    }
  }

  lemma {:induction false} ReadyStep(w: World, provider: ProviderId, answers: Answers)
    requires provider in w.publishers && PublisherInv(w, provider, w.publishers[provider])
      && w.publishers[provider].pc.Ready?
    ensures WroteOrLeft(w, StepPublisher(w, provider, answers), provider,
      w.publishers[provider].entry.(state := InFlight))
  {}

  lemma {:induction false} AnsweredStep(w: World, provider: ProviderId, answers: Answers)
    requires provider in w.publishers && PublisherInv(w, provider, w.publishers[provider])
      && w.publishers[provider].pc.Answered?
    ensures WroteOrLeft(w, StepPublisher(w, provider, answers), provider, w.publishers[provider].entry)
  {}

  lemma {:induction false} GoingKeepsInv(w: World, provider: ProviderId, next: Publisher)
    requires Inv(w) && w.up && provider in w.publishers && PublisherInv(w, provider, next)
    ensures Inv(w.(publishers := w.publishers[provider := next]))
  {
    var v := w.(publishers := w.publishers[provider := next]);
    forall q | q in v.publishers ensures PublisherInv(w, q, v.publishers[q]) {
      if q != provider { assert PublisherInv(w, q, w.publishers[q]); }
    }
    SameTables(w, v);
  }

  lemma {:induction false} RejectingIsWrite(w: World, provider: ProviderId, answers: Answers, u: Tables)
    requires provider in w.publishers && PublisherInv(w, provider, w.publishers[provider])
    requires var pub := w.publishers[provider];
      pub.pc.BeforeSend() && !pub.pc.Ready? && Advance(pub, RulesOf(provider), w.t, answers).Returned?
      && Advance(pub, RulesOf(provider), w.t, answers).tables == u && u != w.t
    ensures HolderWrites(w, w.(t := u, publishers := w.publishers - {provider}), provider,
      Rejection(w.publishers[provider].entry, "the PR no longer matches the preview"))
  {}

  lemma {:induction false} CheckStepKeepsInv(w: World, provider: ProviderId, answers: Answers)
    requires Inv(w) && w.up && provider in w.publishers
    requires w.publishers[provider].pc.BeforeSend() && !w.publishers[provider].pc.Ready?
    ensures Inv(StepPublisher(w, provider, answers))
  {
    var pub, v := w.publishers[provider], StepPublisher(w, provider, answers);
    assert PublisherInv(w, provider, pub);
    match Advance(pub, RulesOf(provider), w.t, answers)
    case Going(next, u, sent) =>
      CheckChangesNothing(pub, RulesOf(provider), w.t, answers);
      CheckPassed(w, provider, answers, next);
      GoingKeepsInv(w, provider, next);
    case Returned(_, u) =>
      if u == w.t {
        RemovedKeepsInv(w, provider);
      } else {
        RejectingIsWrite(w, provider, answers, u);
        WriteKeepsInv(w, v, provider, Rejection(pub.entry, "the PR no longer matches the preview"));
      }
  }

  lemma {:induction false} CheckChangesNothing(pub: Publisher, rules: Rules, t: Tables, answers: Answers)
    requires pub.pc.BeforeSend() && !pub.pc.Ready? && Advance(pub, rules, t, answers).Going?
    ensures var next := Advance(pub, rules, t, answers); next.tables == t && !next.sent
  {}

  lemma {:induction false} WriteStepKeepsInv(w: World, provider: ProviderId, answers: Answers)
    requires Inv(w) && w.up && provider in w.publishers
    requires w.publishers[provider].pc.Ready? || w.publishers[provider].pc.Answered?
    ensures Inv(StepPublisher(w, provider, answers))
  {
    var entry, v := w.publishers[provider].entry, StepPublisher(w, provider, answers);
    assert PublisherInv(w, provider, w.publishers[provider]);
    if w.publishers[provider].pc.Ready? {
      ReadyStep(w, provider, answers);
      WroteOrLeftKeepsInv(w, v, provider, entry.(state := InFlight));
    } else {
      AnsweredStep(w, provider, answers);
      WroteOrLeftKeepsInv(w, v, provider, entry);
    }
  }

  lemma {:induction false} HolderKeepsInv(w: World, provider: ProviderId, answers: Answers)
    requires Inv(w) && w.up && provider in w.publishers
    ensures Inv(StepPublisher(w, provider, answers))
  {
    var pc := w.publishers[provider].pc;
    if pc.Durable? {
      SendKeepsInv(w, provider, answers);
    } else if pc.Ready? || pc.Answered? {
      WriteStepKeepsInv(w, provider, answers);
    } else {
      CheckStepKeepsInv(w, provider, answers);
    }
  }

  lemma {:induction false} StepKeepsInv(w: World, provider: ProviderId, answers: Answers)
    requires Inv(w)
    ensures Inv(Next(w, Step(provider, answers)))
  {
    if w.up && provider in w.publishers {
      HolderKeepsInv(w, provider, answers);
    }
  }

  lemma {:induction false} FinishKeepsInv(
      w: World, e: OutboxEntry, reviews: seq<RemoteReview>, comments: map<nat, seq<RemoteComment>>)
    requires Inv(w)
    ensures Inv(Next(w, Finish(e, reviews, comments)))
  {
    var v := Next(w, Finish(e, reviews, comments));
    if w.up && e in w.reconcilers {
      assert ReconcilerInv(w, e);
      if v.t.outbox == w.t.outbox && v.shown == w.shown {
        FinishChangesNothing(w, e, reviews, comments);
        SameOutbox(w, v);
      } else {
        ConfirmKeepsInv(w, e, reviews, comments);
      }
    }
  }

  lemma {:induction false} FinishChangesNothing(
      w: World, e: OutboxEntry, reviews: seq<RemoteReview>, comments: map<nat, seq<RemoteComment>>)
    requires w.up && e in w.reconcilers && ReconcilerInv(w, e)
    requires var v := Next(w, Finish(e, reviews, comments)); v.t.outbox == w.t.outbox && v.shown == w.shown
    ensures var v := Next(w, Finish(e, reviews, comments));
      v.t == w.t && v.sends == w.sends && v.publishers == w.publishers && v.reconcilers <= w.reconcilers && v.up
  {}

  lemma {:induction false} OnlyMatchIsFirst(
      e: OutboxEntry, reviews: seq<RemoteReview>, comments: map<nat, seq<RemoteComment>>, marked: bool, i: nat)
    requires OnlyMatch(e, reviews, comments, marked, i)
    ensures FirstMatch(e, reviews, comments, marked) == i
  {}

  /** What a reconciliation with one match makes of the entry. */
  ghost predicate Confirming(w: World, e: OutboxEntry, settled: OutboxEntry, v: World) {
    && settled.state.Confirmed? && settled.prepared == e.prepared
    && e.prepared.payload.id in w.t.outbox && w.t.outbox[e.prepared.payload.id].state.UnknownOutcome?
    && w.t.TransitionError(settled, Some(ProviderOf(e.prepared))).None?
    && v.t == w.t.Transition(settled, Some(ProviderOf(e.prepared))).0
    && Backed(v, settled)
    && v == w.(t := v.t, shown := v.shown, reconcilers := v.reconcilers)
    && v.reconcilers <= w.reconcilers
    && forall o :: o in w.shown && o != e.prepared.payload.id ==> o in v.shown && v.shown[o] == w.shown[o]
  }

  /** A reconciliation that writes has one matching review, and the write is a legal move. */
  lemma {:induction false} ConfirmIsMove(
      w: World, e: OutboxEntry, reviews: seq<RemoteReview>, comments: map<nat, seq<RemoteComment>>)
    returns (settled: OutboxEntry)
    requires w.t.OutboxValid() && ReconcilerInv(w, e)
    requires FinishReconcile(w, e, reviews, comments).t.outbox != w.t.outbox
      || FinishReconcile(w, e, reviews, comments).shown != w.shown
    ensures Confirming(w, e, settled, FinishReconcile(w, e, reviews, comments))
  {
    var marked := RulesOf(ProviderOf(e.prepared)).marksReviews;
    var i := ConfirmedByOnlyMatch(e, reviews, comments, marked);
    OnlyMatchIsFirst(e, reviews, comments, marked, i);
    settled := Settled(e, Matching(e, reviews, comments, marked).value);
    assert w.t.TransitionError(settled, Some(ProviderOf(e.prepared))).None?;
    SettlesUnknown(w, e, settled);
  }

  /** Only an operation that is still UnknownOutcome can be confirmed. */
  lemma {:induction false} SettlesUnknown(w: World, e: OutboxEntry, settled: OutboxEntry)
    requires w.t.OutboxValid() && ReconcilerInv(w, e) && settled.state.Confirmed? && settled.prepared == e.prepared
    requires w.t.TransitionError(settled, Some(ProviderOf(e.prepared))).None?
    ensures w.t.outbox[e.prepared.payload.id].state.UnknownOutcome?
  {
    assert w.t.EntryValid(e.prepared.payload.id);
  }

  lemma {:induction false} ConfirmKeepsInv(
      w: World, e: OutboxEntry, reviews: seq<RemoteReview>, comments: map<nat, seq<RemoteComment>>)
    requires Inv(w) && w.up && e in w.reconcilers && ReconcilerInv(w, e)
    requires FinishReconcile(w, e, reviews, comments).t.outbox != w.t.outbox
      || FinishReconcile(w, e, reviews, comments).shown != w.shown
    ensures Inv(FinishReconcile(w, e, reviews, comments))
  {
    var v := FinishReconcile(w, e, reviews, comments);
    var settled := ConfirmIsMove(w, e, reviews, comments);
    MoveToConfirmed(w, v, settled);
  }

  lemma {:induction false} MoveToConfirmed(w: World, v: World, settled: OutboxEntry)
    requires Inv(w) && w.up && settled.state.Confirmed?
    requires settled.prepared.payload.id in w.t.outbox
      && w.t.outbox[settled.prepared.payload.id].prepared == settled.prepared
    requires w.t.outbox[settled.prepared.payload.id].state.UnknownOutcome?
    requires w.t.TransitionError(settled, Some(ProviderOf(settled.prepared))).None?
    requires v == w.(
      t := w.t.Transition(settled, Some(ProviderOf(settled.prepared))).0,
      shown := v.shown,
      reconcilers := v.reconcilers)
    requires Backed(v, settled) && v.reconcilers <= w.reconcilers
    requires forall o :: o in w.shown && o != settled.prepared.payload.id ==> o in v.shown && v.shown[o] == w.shown[o]
    ensures Inv(v)
  {
    var op := settled.prepared.payload.id;
    assert w.t.EntryValid(op);
    TransitionKeepsValid(w.t, settled, Some(ProviderOf(settled.prepared)));
    assert RowChanged(w.t, v.t, op);
    OneUnresolvedKept(w.t, v.t, op);
    SendsKept(w, v, op);
    ReconcilersKept(w, v, op);
    ShownKept(w, v, op);
    UnknownHasNoPublisher(w, op);
    OthersKept(w, v, op);
  }

  lemma {:induction false} UnknownHasNoPublisher(w: World, op: OperationId)
    requires PublishersInv(w) && op in w.t.outbox && w.t.outbox[op].state.UnknownOutcome?
    ensures forall q :: q in w.publishers ==> w.publishers[q].p.payload.id != op
  {
    forall q | q in w.publishers ensures w.publishers[q].p.payload.id != op {
      assert PublisherInv(w, q, w.publishers[q]);
    }
  }

  lemma {:induction false} RecoverOneKeepsInv(w: World, op: OperationId)
    requires Inv(w)
    ensures Inv(Next(w, RecoverOne(op)))
  {
    var v := Next(w, RecoverOne(op));
    if v != w {
      assert w.t.EntryValid(op);
      var e := Recovered(w.t.outbox[op]);
      TransitionKeepsValid(w.t, e, None);
      OneUnresolvedKept(w.t, v.t, op);
      SendsKept(w, v, op);
      ShownKept(w, v, op);
      ReconcilersKept(w, v, op);
    }
  }

  lemma {:induction false} UiKeepsValid(t: Tables, a: Action)
    requires t.Valid() && (a.Save? || a.Discard? || a.Put? || a.Reopen?)
    ensures UiTables(t, a).Valid() && UiTables(t, a).outbox == t.outbox
  {
    match a
    case Save(d) => SaveDraftKeepsValid(t, d);
    case Discard(id, version) => DiscardDraftKeepsValid(t, id, version);
    case Put(s, now, rowid) => if t.FreshRowid(rowid) { PutSnapshotKeepsValid(t, s, now, rowid); }
    case Reopen(id, now) => TouchKeepsValid(t, id, now);
  }

  lemma {:induction false} UiKeepsInv(w: World, a: Action)
    requires Inv(w) && (a.Save? || a.Discard? || a.Put? || a.Reopen?)
    ensures Inv(Next(w, a))
  {
    UiKeepsValid(w.t, a);
    SameOutbox(w, Next(w, a));
  }

  lemma {:induction false} NextKeepsInv(w: World, a: Action)
    requires Inv(w)
    ensures Inv(Next(w, a))
  {
    match a
    case Prepare(p) => PrepareKeepsInv(w, p);
    case Enter(p) => EnterKeepsInv(w, p);
    case Step(provider, answers) => StepKeepsInv(w, provider, answers);
    case Finish(e, reviews, comments) => FinishKeepsInv(w, e, reviews, comments);
    case RecoverOne(op) => RecoverOneKeepsInv(w, op);
    case Read(op) => ReadKeepsInv(w, op);
    case Opened => OpenedKeepsInv(w);
    case Leave(provider, panics) => LeaveKeepsInv(w, provider, panics);
    case GiveUp(e) => GiveUpKeepsInv(w, e);
    case Crash => CrashKeepsInv(w);
    case _ => UiKeepsInv(w, a);
  }

  // Threads end; nothing that is stored changes.

  lemma {:induction false} LeaveKeepsInv(w: World, provider: ProviderId, panics: bool)
    requires Inv(w)
    ensures Inv(Next(w, Leave(provider, panics)))
  {
    if provider in w.publishers {
      RemovedKeepsInv(w, provider);
      var removed := w.(publishers := w.publishers - {provider});
      SameOutbox(removed, Next(w, Leave(provider, panics)));
    }
  }

  lemma {:induction false} GiveUpKeepsInv(w: World, e: OutboxEntry)
    requires Inv(w)
    ensures Inv(Next(w, GiveUp(e)))
  {
    SameOutbox(w, Next(w, GiveUp(e)));
  }

  lemma {:induction false} CrashKeepsInv(w: World)
    requires Inv(w)
    ensures Inv(Next(w, Crash))
  {
    SameOutbox(w, Next(w, Crash));
  }

  lemma {:induction false} OpenedKeepsInv(w: World)
    requires Inv(w)
    ensures Inv(Next(w, Opened))
  {
    PruneKeepsValid(w.t, KEEP_RECENT);
    SameOutbox(w, Next(w, Opened));
  }

  lemma {:induction false} ReadKeepsInv(w: World, op: OperationId)
    requires Inv(w)
    ensures Inv(Next(w, Read(op)))
  {
    var v := Next(w, Read(op));
    if v != w {
      assert w.t.EntryValid(op);
      SendsSame(w, v);
      ShownSame(w, v);
      forall q | q in v.publishers ensures PublisherInv(v, q, v.publishers[q]) {
        PublisherSame(w, v, q, w.publishers[q]);
      }
      forall e | e in v.reconcilers ensures ReconcilerInv(v, e) {
        if e in w.reconcilers {
          ReconcilerSame(w, v, e);
        }
      }
    }
  }

  lemma {:induction false} RunKeepsInv(w: World, actions: seq<Action>)
    requires Inv(w)
    ensures Inv(Run(w, actions))
  {
    if actions != [] {
      RunKeepsInv(w, actions[..|actions| - 1]);
      NextKeepsInv(Run(w, actions[..|actions| - 1]), actions[|actions| - 1]);
    }
  }
}

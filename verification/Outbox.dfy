/**
 Sending a prepared review once and settling an unknown outcome
 (crates/adapters/src/outbox.rs). A publication is a sequence of steps; each
 makes at most one access to the store, so a machine may let other threads run
 between any two of them. `Outbox.Publish` is the same sequence without
 interruption.
 */
module Outbox {
  import opened Wrappers
  import opened Review
  import opened Tables
  import opened Store

  datatype Rules = Rules(id: ProviderId, marksReviews: bool)

  datatype SendOutcome = Accepted(response: RemoteReview) | Refused(code: nat) | Lost(reason: string)

  /** What the remote says to each call of one publication; `None` is a failed call. */
  datatype Answers = Answers(
    current: Option<RemoteTarget>,
    reviews: Option<seq<RemoteReview>>,
    again: Option<RemoteTarget>,
    outcome: SendOutcome,
    comments: Option<seq<RemoteComment>>)

  datatype PublishError =
    | Differs          // not the prepared review, or not Prepared any more
    | PrUnresolved     // the PR has another operation whose result is unresolved
    | RemoteFailed
    | TextMoved        // the saved text is newer or already published
    | PrChanged
    | StoreFailed(error: StoreError)

  type Published = Result<OutboxEntry, PublishError>

  /** How far a publication has come. Up to `Ready` nothing is sent; `Durable` has stored InFlight. */
  datatype Pc = Begun | Clear | Current | Saved | Ready | Durable | Answered {
    function Left(): nat {
      match this
      case Begun => 6 case Clear => 5 case Current => 4 case Saved => 3
      case Ready => 2 case Durable => 1 case Answered => 0
    }

    predicate BeforeSend() {
      Left() >= 2
    }
  }

  datatype Publisher = Publisher(p: PreparedReview, entry: OutboxEntry, pc: Pc)

  datatype Progress =
    | Returned(result: Published, tables: Tables)
    | Going(publisher: Publisher, tables: Tables, sent: bool)

  function Begin(p: PreparedReview, rules: Rules, t: Tables): Result<Publisher, PublishError> {
    if p.payload.id !in t.outbox then Err(StoreFailed(NoOperation))
    else
      var entry := t.outbox[p.payload.id];
      if !entry.state.Prepared? || entry.prepared.fingerprint != p.fingerprint || !p.Verify(rules.id)
      then Err(Differs)
      else Ok(Publisher(p, entry, Begun))
  }

  /** Another operation on the same PR and account may have been sent. */
  predicate OtherUnresolved(t: Tables, p: Payload) {
    exists op :: op in t.outbox && BlocksPr(t.outbox[op], p)
  }

  predicate BlocksPr(e: OutboxEntry, p: Payload) {
    e.prepared.payload.id != p.id && SamePr(e.prepared.payload.target, p.target) && e.state.Unresolved()
  }

  /** Every previewed text is still the stored, unpublished text. */
  predicate TextsAreStored(t: Tables, p: Payload) {
    forall i :: 0 <= i < |p.comments| ==> TextIsStored(t, p.snapshot, p.comments[i])
  }

  predicate TextIsStored(t: Tables, snapshot: SnapshotId, c: PreparedComment) {
    exists id :: id in t.drafts && IsStoredText(t.drafts[id], snapshot, c)
  }

  predicate IsStoredText(d: Draft, snapshot: SnapshotId, c: PreparedComment) {
    d.snapshot == snapshot && IsTextOf(c, d) && !d.published && d.IsSaved()
  }

  function Ids(reviews: seq<RemoteReview>): set<nat> {
    set i | 0 <= i < |reviews| && reviews[i].id.Some? :: reviews[i].id.value
  }

  function Rejection(e: OutboxEntry, why: string): OutboxEntry {
    e.(state := Rejected, diagnostic := Some(why))
  }

  /** The entry after the remote's answer to the send. */
  function Judge(e: OutboxEntry, p: PreparedReview, rules: Rules, a: Answers): OutboxEntry {
    match a.outcome
    case Refused(code) => Rejection(e, "Provider refused this request; drafts remain")
    case Lost(reason) => e.(state := UnknownOutcome, diagnostic := Some(reason))
    case Accepted(response) =>
      var named := e.(remoteId := response.id);
      if response.id.Some? && a.comments.Some? && MatchesReview(p, response, a.comments.value, rules.marksReviews)
      then named.(state := Confirmed, diagnostic := None)
      else named.(state := UnknownOutcome, diagnostic := Some("the review or comment could not be fully verified"))
  }

  function WriteEntry(e: OutboxEntry, rules: Rules, t: Tables): (Tables, Published) {
    var (u, done) := t.Transition(e, Some(rules.id));
    (u, if done.Ok? then Ok(e) else Err(StoreFailed(done.error)))
  }

  /** One step of a publication that has begun. */
  function Advance(w: Publisher, rules: Rules, t: Tables, a: Answers): Progress {
    var p := w.p;
    match w.pc
    case Begun =>
      if OtherUnresolved(t, p.payload) then Returned(Err(PrUnresolved), t)
      else Going(w.(pc := Clear), t, false)
    case Clear =>
      if a.current.None? then Returned(Err(RemoteFailed), t)
      else if a.current.value != p.payload.target || !a.current.value.open || a.current.value.pendingReview then
        var (u, r) := WriteEntry(Rejection(w.entry, "the PR no longer matches the preview"), rules, t);
        Returned(r, u)
      else Going(w.(pc := Current), t, false)
    case Current =>
      if !TextsAreStored(t, p.payload) then Returned(Err(TextMoved), t)
      else Going(w.(pc := Saved), t, false)
    case Saved =>
      if a.reviews.None? || a.again.None? then Returned(Err(RemoteFailed), t)
      else if a.again.value != p.payload.target then Returned(Err(PrChanged), t)
      else Going(w.(pc := Ready, entry := w.entry.(baseline := Ids(a.reviews.value))), t, false)
    case Ready =>
      var e := w.entry.(state := InFlight);
      var (u, r) := WriteEntry(e, rules, t);
      if r.Err? then Returned(r, u) else Going(w.(pc := Durable, entry := e), u, false)
    case Durable =>
      Going(w.(pc := Answered, entry := Judge(w.entry, p, rules, a)), t, true)
    case Answered =>
      var (u, r) := WriteEntry(w.entry, rules, t);
      Returned(r, u)
  }

  /** A publication that nothing interrupts: the tables it leaves, its result, and whether it sent. */
  function RunAlone(w: Publisher, rules: Rules, t: Tables, a: Answers): (Tables, Published, bool)
    decreases w.pc.Left()
  {
    match Advance(w, rules, t, a)
    case Returned(r, u) => (u, r, false)
    case Going(v, u, sent) =>
      var (end, r, later) := RunAlone(v, rules, u, a);
      (end, r, sent || later)
  }

  function PublishAlone(p: PreparedReview, rules: Rules, t: Tables, a: Answers): (Tables, Published, bool) {
    var begun := Begin(p, rules, t);
    if begun.Err? then (t, Err(begun.error), false) else RunAlone(begun.value, rules, t, a)
  }

  // ----- reconciling -----

  /** A review this operation may be: its known id, or one that was not there before the send. */
  predicate Candidate(e: OutboxEntry, id: nat) {
    if e.remoteId.Some? then e.remoteId.value == id else id !in e.baseline
  }

  predicate IsMatch(e: OutboxEntry, r: RemoteReview, comments: map<nat, seq<RemoteComment>>, marked: bool) {
    && r.id.Some? && Candidate(e, r.id.value)
    && r.id.value in comments
    && MatchesReview(e.prepared, r, comments[r.id.value], marked)
  }

  /** A failed comment read fails the whole reconciliation. */
  predicate NeedsComments(e: OutboxEntry, r: RemoteReview, marked: bool) {
    r.id.Some? && Candidate(e, r.id.value) && MatchesMetadata(e.prepared, r, marked)
  }

  /** The ids of the matching reviews, or `None` when a read failed. */
  function Matching(e: OutboxEntry, reviews: seq<RemoteReview>, comments: map<nat, seq<RemoteComment>>, marked: bool)
    : Option<seq<nat>>
  {
    if reviews == [] then Some([])
    else
      var before := Matching(e, reviews[..|reviews| - 1], comments, marked);
      var r := reviews[|reviews| - 1];
      if before.None? then None
      else if !NeedsComments(e, r, marked) then before
      else if r.id.value !in comments then None
      else if IsMatch(e, r, comments, marked) then Some(before.value + [r.id.value])
      else before
  }

  /** What reconciliation stores: one match confirms, none or several change nothing. */
  function Settled(e: OutboxEntry, matches: seq<nat>): OutboxEntry {
    if |matches| == 1
    then e.(state := Confirmed, remoteId := Some(matches[0]), diagnostic := None)
    else e
  }

  /** The store is written only to confirm. `e` is the entry as it was read before the remote calls. */
  function Settle(e: OutboxEntry, rules: Rules, t: Tables, matches: seq<nat>): (Tables, Published) {
    if |matches| == 1 then WriteEntry(Settled(e, matches), rules, t) else (t, Ok(e))
  }

  /** The last review adds its id if it matches. */
  lemma {:induction false} MatchingLast(
      e: OutboxEntry, reviews: seq<RemoteReview>, comments: map<nat, seq<RemoteComment>>, marked: bool)
    requires reviews != [] && Matching(e, reviews, comments, marked).Some?
    ensures var front, last := Matching(e, reviews[..|reviews| - 1], comments, marked), reviews[|reviews| - 1];
      && front.Some?
      && Matching(e, reviews, comments, marked).value
         == front.value + if IsMatch(e, last, comments, marked) then [last.id.value] else []
  {}

  lemma {:induction false} FrontMatch(
      e: OutboxEntry, reviews: seq<RemoteReview>, comments: map<nat, seq<RemoteComment>>, marked: bool, j: nat)
    requires j < |reviews| - 1
    ensures IsMatch(e, reviews[..|reviews| - 1][j], comments, marked) <==> IsMatch(e, reviews[j], comments, marked)
  {
    assert reviews[..|reviews| - 1][j] == reviews[j];
  }

  lemma {:induction false} OnlyMatchStays(
      e: OutboxEntry, reviews: seq<RemoteReview>, comments: map<nat, seq<RemoteComment>>, marked: bool, i: nat)
    requires i < |reviews| - 1 && !IsMatch(e, reviews[|reviews| - 1], comments, marked)
    ensures OnlyMatch(e, reviews[..|reviews| - 1], comments, marked, i) <==> OnlyMatch(e, reviews, comments, marked, i)
  {
    var front := reviews[..|reviews| - 1];
    FrontMatch(e, reviews, comments, marked, i);
    if OnlyMatch(e, front, comments, marked, i) {
      forall j | 0 <= j < |reviews| && j != i ensures !IsMatch(e, reviews[j], comments, marked) {
        if j < |front| {
          FrontMatch(e, reviews, comments, marked, j);
        }
      }
    }
    if OnlyMatch(e, reviews, comments, marked, i) {
      forall j | 0 <= j < |front| && j != i ensures !IsMatch(e, front[j], comments, marked) {
        FrontMatch(e, reviews, comments, marked, j);
      }
    }
  }

  predicate NoMatch(e: OutboxEntry, reviews: seq<RemoteReview>, comments: map<nat, seq<RemoteComment>>, marked: bool) {
    forall j :: 0 <= j < |reviews| ==> !IsMatch(e, reviews[j], comments, marked)
  }

  lemma {:induction false} LastIsOnlyMatch(
      e: OutboxEntry, reviews: seq<RemoteReview>, comments: map<nat, seq<RemoteComment>>, marked: bool)
    requires reviews != [] && IsMatch(e, reviews[|reviews| - 1], comments, marked)
    ensures OnlyMatch(e, reviews, comments, marked, |reviews| - 1)
      <==> NoMatch(e, reviews[..|reviews| - 1], comments, marked)
  {
    var front := reviews[..|reviews| - 1];
    forall j | 0 <= j < |front|
      ensures IsMatch(e, front[j], comments, marked) <==> IsMatch(e, reviews[j], comments, marked)
    {
      FrontMatch(e, reviews, comments, marked, j);
    }
  }

  lemma {:induction false} NoMatchGrows(
      e: OutboxEntry, reviews: seq<RemoteReview>, comments: map<nat, seq<RemoteComment>>, marked: bool)
    requires reviews != []
    ensures NoMatch(e, reviews, comments, marked)
      <==>
      NoMatch(e, reviews[..|reviews| - 1], comments, marked) && !IsMatch(e, reviews[|reviews| - 1], comments, marked)
  {
    var front := reviews[..|reviews| - 1];
    forall j | 0 <= j < |front|
      ensures IsMatch(e, front[j], comments, marked) <==> IsMatch(e, reviews[j], comments, marked)
    {
      FrontMatch(e, reviews, comments, marked, j);
    }
  }

  lemma {:induction false} NoneMatch(
      e: OutboxEntry, reviews: seq<RemoteReview>, comments: map<nat, seq<RemoteComment>>, marked: bool)
    requires Matching(e, reviews, comments, marked).Some?
    ensures Matching(e, reviews, comments, marked) == Some([]) <==> NoMatch(e, reviews, comments, marked)
  {
    if reviews != [] {
      MatchingLast(e, reviews, comments, marked);
      NoneMatch(e, reviews[..|reviews| - 1], comments, marked);
      NoMatchGrows(e, reviews, comments, marked);
    }
  }

  /** A confirmation stands on exactly one matching review of the remote's list ... */
  lemma {:induction false} ConfirmedByOnlyMatch(
      e: OutboxEntry, reviews: seq<RemoteReview>, comments: map<nat, seq<RemoteComment>>, marked: bool)
    returns (i: nat)
    requires Matching(e, reviews, comments, marked).Some? && |Matching(e, reviews, comments, marked).value| == 1
    ensures OnlyMatch(e, reviews, comments, marked, i)
    ensures reviews[i].id == Some(Matching(e, reviews, comments, marked).value[0])
  {
    var front := reviews[..|reviews| - 1];
    MatchingLast(e, reviews, comments, marked);
    if IsMatch(e, reviews[|reviews| - 1], comments, marked) {
      i := |reviews| - 1;
      NoneMatch(e, front, comments, marked);
      LastIsOnlyMatch(e, reviews, comments, marked);
    } else {
      i := ConfirmedByOnlyMatch(e, front, comments, marked);
      OnlyMatchStays(e, reviews, comments, marked, i);
    }
  }

  /** ... and an only match does confirm. */
  lemma {:induction false} OnlyMatchConfirms(
      e: OutboxEntry, reviews: seq<RemoteReview>, comments: map<nat, seq<RemoteComment>>, marked: bool, i: nat)
    requires Matching(e, reviews, comments, marked).Some? && OnlyMatch(e, reviews, comments, marked, i)
    ensures Matching(e, reviews, comments, marked) == Some([reviews[i].id.value])
  {
    var front := reviews[..|reviews| - 1];
    MatchingLast(e, reviews, comments, marked);
    if i == |front| {
      LastIsOnlyMatch(e, reviews, comments, marked);
      NoneMatch(e, front, comments, marked);
      assert [] + [reviews[i].id.value] == [reviews[i].id.value];
    } else {
      OnlyMatchStays(e, reviews, comments, marked, i);
      OnlyMatchConfirms(e, front, comments, marked, i);
    }
  }

  predicate OnlyMatch(
      e: OutboxEntry, reviews: seq<RemoteReview>, comments: map<nat, seq<RemoteComment>>, marked: bool, i: int) {
    && 0 <= i < |reviews| && IsMatch(e, reviews[i], comments, marked)
    && forall j :: 0 <= j < |reviews| && j != i ==> !IsMatch(e, reviews[j], comments, marked)
  }

  // ----- the sequential code -----

  lemma {:induction false} AnsweredRuns(p: PreparedReview, entry: OutboxEntry, rules: Rules, t: Tables, a: Answers)
    ensures RunAlone(Publisher(p, entry, Answered), rules, t, a)
      == (var (u, r) := WriteEntry(entry, rules, t); (u, r, false))
  {}

  lemma {:induction false} DurableRuns(p: PreparedReview, entry: OutboxEntry, rules: Rules, t: Tables, a: Answers)
    ensures RunAlone(Publisher(p, entry, Durable), rules, t, a)
      == (var (u, r) := WriteEntry(Judge(entry, p, rules, a), rules, t); (u, r, true))
  {
    AnsweredRuns(p, Judge(entry, p, rules, a), rules, t, a);
  }

  /** The operation is stored as InFlight, sent, and what the remote answers is judged and stored. */
  lemma {:induction false} ReadyRuns(p: PreparedReview, baselined: OutboxEntry, rules: Rules, t: Tables, a: Answers)
    ensures var entry := baselined.(state := InFlight);
      var (u, stored) := WriteEntry(entry, rules, t);
      RunAlone(Publisher(p, baselined, Ready), rules, t, a) ==
        if stored.Err? then (u, stored, false)
        else (var (v, r) := WriteEntry(Judge(entry, p, rules, a), rules, u); (v, r, true))
  {
    var entry := baselined.(state := InFlight);
    DurableRuns(p, entry, rules, WriteEntry(entry, rules, t).0, a);
  }

  class Outbox {
    const store: Store
    const rules: Rules

    constructor (store: Store, rules: Rules)
      ensures this.store == store && this.rules == rules
    {
      this.store, this.rules := store, rules;
    }

    /** The caller holds the gate. `sent` tells whether the remote was asked to post the review. */
    method Publish(p: PreparedReview, a: Answers) returns (r: Published, sent: bool)
      requires store.Contents().Valid()
      modifies store
      ensures (store.Contents(), r, sent) == PublishAlone(p, rules, old(store.Contents()), a)
    {
      sent := false;
      ghost var t := store.Contents();
      if p.payload.id !in store.outbox { return Err(StoreFailed(NoOperation)), false; }
      var entry := store.outbox[p.payload.id];
      if !entry.state.Prepared? || entry.prepared.fingerprint != p.fingerprint || !p.Verify(rules.id) {
        return Err(Differs), false;
      }
      if exists op :: op in store.outbox && BlocksPr(store.outbox[op], p.payload) {
        return Err(PrUnresolved), false;
      }
      assert PublishAlone(p, rules, t, a) == RunAlone(Publisher(p, entry, Clear), rules, t, a);
      if a.current.None? { return Err(RemoteFailed), false; }
      var current := a.current.value;
      if current != p.payload.target || !current.open || current.pendingReview {
        entry := Rejection(entry, "the PR no longer matches the preview");
        var rejected := store.Transition(entry, Some(rules.id));
        if rejected.Err? { return Err(StoreFailed(rejected.error)), false; }
        return Ok(entry), false;
      }
      assert PublishAlone(p, rules, t, a) == RunAlone(Publisher(p, entry, Current), rules, t, a);
      var same := TextsUnchanged(p.payload);
      if !same { return Err(TextMoved), false; }
      assert PublishAlone(p, rules, t, a) == RunAlone(Publisher(p, entry, Saved), rules, t, a);
      if a.reviews.None? || a.again.None? { return Err(RemoteFailed), false; }
      entry := entry.(baseline := Ids(a.reviews.value));
      if a.again.value != p.payload.target { return Err(PrChanged), false; }
      assert PublishAlone(p, rules, t, a) == RunAlone(Publisher(p, entry, Ready), rules, t, a);
      assert t.EntryValid(p.payload.id);
      r, sent := Send(p, entry, a);
    }

    /** Preview approval excludes later edits: each previewed text must still be the stored one. */
    method TextsUnchanged(p: Payload) returns (same: bool)
      ensures same == TextsAreStored(store.Contents(), p)
    {
      var i := 0;
      while i < |p.comments|
        invariant 0 <= i <= |p.comments|
        invariant forall j :: 0 <= j < i ==> TextIsStored(store.Contents(), p.snapshot, p.comments[j])
      {
        if !exists id :: id in store.drafts && IsStoredText(store.drafts[id], p.snapshot, p.comments[i]) {
          assert !TextIsStored(store.Contents(), p.snapshot, p.comments[i]);
          return false;
        }
        i := i + 1;
      }
      return true;
    }

    /** InFlight is stored before the remote is asked, and the answer after it. */
    method Send(p: PreparedReview, baselined: OutboxEntry, a: Answers) returns (r: Published, sent: bool)
      requires store.Contents().Valid()
      requires baselined.prepared.fingerprint == Digest(baselined.prepared.payload)
      modifies store
      ensures (store.Contents(), r, sent) == RunAlone(Publisher(p, baselined, Ready), rules, old(store.Contents()), a)
    {
      ghost var t := store.Contents();
      var entry := baselined.(state := InFlight);
      ReadyRuns(p, baselined, rules, t, a);
      var stored := store.Transition(entry, Some(rules.id));
      if stored.Err? { return Err(StoreFailed(stored.error)), false; }
      TransitionKeepsValid(t, entry, Some(rules.id));
      entry := Judge(entry, p, rules, a);
      var judged := store.Transition(entry, Some(rules.id));
      if judged.Err? { return Err(StoreFailed(judged.error)), true; }
      return Ok(entry), true;
    }

    /** `account` is the remote's current account and `reviews` its list, `None` when a call failed. */
    method Reconcile(
      id: OperationId, account: Option<string>, reviews: Option<seq<RemoteReview>>,
      comments: map<nat, seq<RemoteComment>>)
      returns (r: Published)
      requires store.Contents().Valid()
      modifies store
      ensures id !in old(store.outbox) ==> r.Err?
      ensures id in old(store.outbox) && !old(store.outbox)[id].state.UnknownOutcome? ==>
        r == Ok(old(store.outbox)[id]) && store.Contents() == old(store.Contents())
      ensures var t := old(store.Contents());
        if id in t.outbox && t.outbox[id].state.UnknownOutcome?
          && account == Some(t.outbox[id].prepared.payload.target.account)
           && reviews.Some? && Matching(t.outbox[id], reviews.value, comments, rules.marksReviews).Some?
        then (store.Contents(), r)
          == Settle(t.outbox[id], rules, t, Matching(t.outbox[id], reviews.value, comments, rules.marksReviews).value)
        else store.Contents() == t
    {
      if id !in store.outbox { return Err(StoreFailed(NoOperation)); }
      var e := store.outbox[id];
      if !e.state.UnknownOutcome? { return Ok(e); }
      if account.None? { return Err(RemoteFailed); }
      if account.value != e.prepared.payload.target.account { return Err(Differs); }
      if reviews.None? { return Err(RemoteFailed); }
      var matches: seq<nat> := [];
      var i := 0;
      while i < |reviews.value|
        invariant 0 <= i <= |reviews.value|
        invariant Matching(e, reviews.value[..i], comments, rules.marksReviews) == Some(matches)
      {
        assert reviews.value[..i + 1][..i] == reviews.value[..i];
        var review := reviews.value[i];
        if NeedsComments(e, review, rules.marksReviews) {
          if review.id.value !in comments {
            FailedReadFails(e, reviews.value, comments, rules.marksReviews, i);
            return Err(RemoteFailed);
          }
          if MatchesReview(e.prepared, review, comments[review.id.value], rules.marksReviews) {
            matches := matches + [review.id.value];
          }
        }
        i := i + 1;
      }
      assert reviews.value[..i] == reviews.value;
      if |matches| == 1 {
        e := e.(state := Confirmed, remoteId := Some(matches[0]), diagnostic := None);
        var done := store.Transition(e, Some(rules.id));
        if done.Err? { return Err(StoreFailed(done.error)); }
      }
      return Ok(e);
    }
  }

  lemma {:induction false} FailedReadFails(
      e: OutboxEntry, reviews: seq<RemoteReview>, comments: map<nat, seq<RemoteComment>>, marked: bool, i: nat)
    requires i < |reviews| && NeedsComments(e, reviews[i], marked) && reviews[i].id.value !in comments
    ensures Matching(e, reviews, comments, marked).None?
  {
    if i < |reviews| - 1 {
      FailedReadFails(e, reviews[..|reviews| - 1], comments, marked, i);
    }
  }

  // ----- when a publication sends, and what it then reports -----

  /** Another operation of this pull request and account may have been sent. */
  ghost predicate IsBlocked(t: Tables, p: Payload) {
    exists op :: op in t.outbox && IsInTheWay(t.outbox[op], p)
  }

  predicate IsInTheWay(e: OutboxEntry, p: Payload) {
    var target := e.prepared.payload.target;
    && e.prepared.payload.id != p.id && e.state in {InFlight, UnknownOutcome}
    && target.provider == p.target.provider && target.repository == p.target.repository
    && target.pr == p.target.pr && target.account == p.target.account
  }

  /** The row of the comment's draft holds the text that was previewed, not yet published. */
  predicate IsStillStored(t: Tables, p: Payload, c: PreparedComment) {
    && c.draft in t.drafts && t.drafts[c.draft].snapshot == p.snapshot
    && t.drafts[c.draft].version == c.version && t.drafts[c.draft].body == c.body && !t.drafts[c.draft].published
  }

  /** The operation is the one that was previewed, and still waits. */
  predicate IsWaiting(t: Tables, p: PreparedReview, rules: Rules) {
    && p.payload.id in t.outbox && t.outbox[p.payload.id].state == Prepared && t.outbox[p.payload.id].prepared == p
    && p.payload.target.provider == rules.id
  }

  /** The remote still shows the pull request of the preview, open and without a pending review. */
  predicate IsUnmoved(p: Payload, a: Answers) {
    a.current == Some(p.target) && p.target.open && !p.target.pendingReview
  }

  lemma {:induction false} BlockedExactly(t: Tables, p: Payload)
    ensures OtherUnresolved(t, p) <==> IsBlocked(t, p)
  {
    forall op | op in t.outbox ensures BlocksPr(t.outbox[op], p) <==> IsInTheWay(t.outbox[op], p) {}
    if IsBlocked(t, p) {
      var op :| op in t.outbox && IsInTheWay(t.outbox[op], p);
      assert BlocksPr(t.outbox[op], p);
    }
    if OtherUnresolved(t, p) {
      var op :| op in t.outbox && BlocksPr(t.outbox[op], p);
      assert IsInTheWay(t.outbox[op], p);
    }
  }

  lemma {:induction false} StoredTextExactly(t: Tables, p: Payload, c: PreparedComment)
    requires t.DraftsValid()
    ensures TextIsStored(t, p.snapshot, c) <==> IsStillStored(t, p, c)
  {
    if TextIsStored(t, p.snapshot, c) {
      var id :| id in t.drafts && IsStoredText(t.drafts[id], p.snapshot, c);
      assert t.DraftValid(id);
    }
    if IsStillStored(t, p, c) {
      assert t.DraftValid(c.draft);
      assert IsStoredText(t.drafts[c.draft], p.snapshot, c);
    }
  }

  lemma {:induction false} TextsExactly(t: Tables, p: Payload)
    requires t.DraftsValid()
    ensures TextsAreStored(t, p) <==> forall i :: 0 <= i < |p.comments| ==> IsStillStored(t, p, p.comments[i])
  {
    forall i | 0 <= i < |p.comments|
      ensures TextIsStored(t, p.snapshot, p.comments[i]) <==> IsStillStored(t, p, p.comments[i])
    {
      StoredTextExactly(t, p, p.comments[i]);
    }
  }

  /** Everything that must hold before the remote is asked to post the review. */
  ghost predicate MaySend(t: Tables, p: PreparedReview, rules: Rules, a: Answers) {
    && IsWaiting(t, p, rules) && !IsBlocked(t, p.payload) && IsUnmoved(p.payload, a)
    && (forall i :: 0 <= i < |p.payload.comments| ==> IsStillStored(t, p.payload, p.payload.comments[i]))
    && a.reviews.Some? && a.again == Some(p.payload.target)
  }

  // One step at a time, as `RunAlone` goes.

  lemma {:induction false} BegunRuns(p: PreparedReview, e: OutboxEntry, rules: Rules, t: Tables, a: Answers)
    ensures RunAlone(Publisher(p, e, Begun), rules, t, a) ==
      if OtherUnresolved(t, p.payload) then (t, Err(PrUnresolved), false)
      else RunAlone(Publisher(p, e, Clear), rules, t, a)
  {}

  lemma {:induction false} ClearRuns(p: PreparedReview, e: OutboxEntry, rules: Rules, t: Tables, a: Answers)
    ensures RunAlone(Publisher(p, e, Clear), rules, t, a) ==
      if a.current.None? then (t, Err(RemoteFailed), false)
      else if IsUnmoved(p.payload, a) then RunAlone(Publisher(p, e, Current), rules, t, a)
      else
        var (u, r) := WriteEntry(Rejection(e, "the PR no longer matches the preview"), rules, t);
        (u, r, false)
  {}

  lemma {:induction false} CurrentRuns(p: PreparedReview, e: OutboxEntry, rules: Rules, t: Tables, a: Answers)
    ensures RunAlone(Publisher(p, e, Current), rules, t, a) ==
      if TextsAreStored(t, p.payload) then RunAlone(Publisher(p, e, Saved), rules, t, a)
      else (t, Err(TextMoved), false)
  {}

  lemma {:induction false} SavedRuns(p: PreparedReview, e: OutboxEntry, rules: Rules, t: Tables, a: Answers)
    ensures RunAlone(Publisher(p, e, Saved), rules, t, a) ==
      if a.reviews.None? || a.again.None? then (t, Err(RemoteFailed), false)
      else if a.again.value != p.payload.target then (t, Err(PrChanged), false)
      else RunAlone(Publisher(p, e.(baseline := Ids(a.reviews.value)), Ready), rules, t, a)
  {}

  lemma {:induction false} WaitingBegins(p: PreparedReview, rules: Rules, t: Tables)
    requires t.OutboxValid()
    ensures IsWaiting(t, p, rules) <==> Begin(p, rules, t).Ok?
    ensures IsWaiting(t, p, rules) ==> Begin(p, rules, t).value == Publisher(p, t.outbox[p.payload.id], Begun)
  {
    if p.payload.id in t.outbox {
      assert t.EntryValid(p.payload.id);
    }
  }

  /** What the entry says after the remote was asked. */
  ghost predicate IsOutcome(e: OutboxEntry, before: OutboxEntry, rules: Rules, a: Answers) {
    && e.prepared == before.prepared
    && (e.state == Rejected <==> a.outcome.Refused?)
    && (e.state == Confirmed <==>
          && a.outcome.Accepted? && a.outcome.response.id.Some? && a.comments.Some?
          && IsOurs(e.prepared, a.outcome.response, a.comments.value, rules.marksReviews))
    && e.state in {Rejected, Confirmed, UnknownOutcome}
    && (e.diagnostic.None? <==> e.state == Confirmed) && (a.outcome.Lost? ==> e.diagnostic == Some(a.outcome.reason))
    && e.remoteId == (if a.outcome.Accepted? then a.outcome.response.id else before.remoteId)
    && (a.reviews.Some? ==> forall id :: id in e.baseline <==> IsListed(a.reviews.value, id))
  }

  predicate IsListed(reviews: seq<RemoteReview>, id: nat) {
    exists i :: 0 <= i < |reviews| && reviews[i].id == Some(id)
  }

  lemma {:induction false} JudgedExactly(e: OutboxEntry, rules: Rules, a: Answers)
    requires a.reviews.Some? && e.baseline == Ids(a.reviews.value)
    ensures IsOutcome(Judge(e, e.prepared, rules, a), e, rules, a)
  {
    if a.outcome.Accepted? && a.comments.Some? {
      MatchesExactly(e.prepared, a.outcome.response, a.comments.value, rules.marksReviews);
    }
  }

  /** Nothing but the operation's row changes, and the drafts a confirmation publishes. */
  predicate IsStoredAs(t: Tables, u: Tables, e: OutboxEntry) {
    && u.outbox == t.outbox[e.prepared.payload.id := e] && u.snapshots == t.snapshots && u.drafts.Keys == t.drafts.Keys
    && forall id :: id in t.drafts ==>
         u.drafts[id] == if e.state == Confirmed && HasText(e.prepared.payload.comments, t.drafts[id])
                         then t.drafts[id].(published := true) else t.drafts[id]
  }

  lemma {:induction false} WaitingIsRejected(p: PreparedReview, rules: Rules, t: Tables, why: string)
    requires t.OutboxValid() && IsWaiting(t, p, rules)
    ensures var (u, r) := WriteEntry(Rejection(t.outbox[p.payload.id], why), rules, t);
      r.Ok? && r.value.state == Rejected && r.value.prepared == p && IsStoredAs(t, u, r.value)
  {
    assert t.EntryValid(p.payload.id);
    MovedExactly(t, Rejection(t.outbox[p.payload.id], why), Some(rules.id));
  }

  lemma {:induction false} ReadyIsSent(p: PreparedReview, baselined: OutboxEntry, rules: Rules, t: Tables, a: Answers)
    requires t.OutboxValid() && IsWaiting(t, p, rules) && a.reviews.Some?
    requires baselined == t.outbox[p.payload.id].(baseline := Ids(a.reviews.value))
    ensures var (u, r, sent) := RunAlone(Publisher(p, baselined, Ready), rules, t, a);
      && sent && r.Ok? && IsOutcome(r.value, t.outbox[p.payload.id], rules, a) && IsStoredAs(t, u, r.value)
  {
    assert t.EntryValid(p.payload.id);
    var entry := baselined.(state := InFlight);
    var v := WriteEntry(entry, rules, t).0;
    ReadyRuns(p, baselined, rules, t, a);
    MovedExactly(t, entry, Some(rules.id));
    JudgedExactly(entry, rules, a);
    assert v == t.(outbox := t.outbox[p.payload.id := entry]);
    assert v.OutboxValid() by {
      EntryPut(t, v, p.payload.id);
    }
    MovedExactly(v, Judge(entry, p, rules, a), Some(rules.id));
  }

  /**
   The result of a publication. It sends exactly if nothing has moved; then its entry says what the
   remote answered. Without a send it is rejected exactly if the pull request no longer matches, and
   otherwise fails and stores nothing.
   */
  lemma {:induction false} PublishedExactly(p: PreparedReview, rules: Rules, t: Tables, a: Answers)
    requires t.Valid()
    ensures var (u, r, sent) := PublishAlone(p, rules, t, a);
      && (sent <==> MaySend(t, p, rules, a))
      && (sent ==> r.Ok? && IsOutcome(r.value, t.outbox[p.payload.id], rules, a) && IsStoredAs(t, u, r.value))
      && (!sent ==>
            if IsWaiting(t, p, rules) && !IsBlocked(t, p.payload) && a.current.Some? && !IsUnmoved(p.payload, a)
            then r.Ok? && r.value.state == Rejected && r.value.prepared == p && IsStoredAs(t, u, r.value)
            else r.Err? && u == t)
  {
    WaitingBegins(p, rules, t);
    if IsWaiting(t, p, rules) {
      var e := t.outbox[p.payload.id];
      BlockedExactly(t, p.payload);
      TextsExactly(t, p.payload);
      BegunRuns(p, e, rules, t, a);
      ClearRuns(p, e, rules, t, a);
      CurrentRuns(p, e, rules, t, a);
      SavedRuns(p, e, rules, t, a);
      WaitingIsRejected(p, rules, t, "the PR no longer matches the preview");
      if a.reviews.Some? {
        ReadyIsSent(p, e.(baseline := Ids(a.reviews.value)), rules, t, a);
      }
    }
  }

  // ----- what a reconciliation settles -----

  /** A review that this operation may have sent: its known id, or one that was not there before. */
  predicate MayBeOurs(e: OutboxEntry, r: RemoteReview) {
    r.id.Some? && if e.remoteId.Some? then r.id == e.remoteId else r.id.value !in e.baseline
  }

  /** The review looks like the preview, as far as the list of reviews tells. */
  predicate LooksOurs(e: OutboxEntry, r: RemoteReview, marked: bool) {
    var p := e.prepared;
    && (marked ==> r.fingerprint == Some(p.fingerprint))
    && r.commit == Some(p.payload.target.head) && r.login == Some(p.payload.target.account)
    && r.state == Some(match p.payload.verdict
                       case Approve => "APPROVED"
                       case RequestChanges => "CHANGES_REQUESTED"
                       case Comment => "COMMENTED")
    && (r.body == Some(p.payload.summary) || (r.body.None? && p.payload.summary == ""))
  }

  /** It is the preview, by the comments that were read of it. */
  ghost predicate IsSent(e: OutboxEntry, r: RemoteReview, comments: map<nat, seq<RemoteComment>>, marked: bool) {
    && MayBeOurs(e, r) && r.id.value in comments
    && IsOurs(e.prepared, r, comments[r.id.value], marked)
  }

  lemma {:induction false} MatchIsSent(
      e: OutboxEntry, r: RemoteReview, comments: map<nat, seq<RemoteComment>>, marked: bool)
    ensures IsMatch(e, r, comments, marked) <==> IsSent(e, r, comments, marked)
    ensures NeedsComments(e, r, marked) <==> MayBeOurs(e, r) && LooksOurs(e, r, marked)
  {
    if r.id.Some? && r.id.value in comments {
      MatchesExactly(e.prepared, r, comments[r.id.value], marked);
    }
  }

  /** The list fails exactly if the comments of a review that looks like ours were not read. */
  lemma {:induction false} ReadFailsExactly(
      e: OutboxEntry, reviews: seq<RemoteReview>, comments: map<nat, seq<RemoteComment>>, marked: bool)
    ensures Matching(e, reviews, comments, marked).None? <==>
      exists i :: 0 <= i < |reviews| && MayBeOurs(e, reviews[i]) && LooksOurs(e, reviews[i], marked)
        && reviews[i].id.value !in comments
  {
    if reviews != [] {
      var n := |reviews| - 1;
      var front := reviews[..n];
      ReadFailsExactly(e, front, comments, marked);
      MatchIsSent(e, reviews[n], comments, marked);
      forall i | 0 <= i < n ensures front[i] == reviews[i] {}
      if Matching(e, front, comments, marked).None? {
        var i :| 0 <= i < n && MayBeOurs(e, front[i]) && LooksOurs(e, front[i], marked)
          && front[i].id.value !in comments;
        assert reviews[i] == front[i];
      }
    }
  }

  /** One review of the list, and no other, is the one that was sent. */
  ghost predicate IsOnlySent(
      e: OutboxEntry, reviews: seq<RemoteReview>, comments: map<nat, seq<RemoteComment>>, marked: bool, i: nat) {
    && i < |reviews| && IsSent(e, reviews[i], comments, marked)
    && forall j :: 0 <= j < |reviews| && j != i ==> !IsSent(e, reviews[j], comments, marked)
  }

  lemma {:induction false} OnlySentIsMatch(
      e: OutboxEntry, reviews: seq<RemoteReview>, comments: map<nat, seq<RemoteComment>>, marked: bool, i: nat)
    ensures IsOnlySent(e, reviews, comments, marked, i) <==> OnlyMatch(e, reviews, comments, marked, i)
  {
    forall j | 0 <= j < |reviews|
      ensures IsMatch(e, reviews[j], comments, marked) <==> IsSent(e, reviews[j], comments, marked)
    {
      MatchIsSent(e, reviews[j], comments, marked);
    }
  }

  /**
   An unknown outcome is settled exactly if one review alone is the one that was sent: it is then
   stored as confirmed with that review's id, and otherwise nothing changes.
   */
  lemma {:induction false} ReconciledExactly(
      e: OutboxEntry, rules: Rules, t: Tables, reviews: seq<RemoteReview>, comments: map<nat, seq<RemoteComment>>)
    requires t.OutboxValid() && e.prepared.payload.id in t.outbox && t.outbox[e.prepared.payload.id] == e
    requires e.state.UnknownOutcome? && rules.id == e.prepared.payload.target.provider
    requires Matching(e, reviews, comments, rules.marksReviews).Some?
    ensures var (u, r) := Settle(e, rules, t, Matching(e, reviews, comments, rules.marksReviews).value);
      && (forall i: nat :: IsOnlySent(e, reviews, comments, rules.marksReviews, i) ==>
            && r == Ok(e.(state := Confirmed, remoteId := reviews[i].id, diagnostic := None))
            && IsStoredAs(t, u, r.value))
      && ((forall i: nat :: !IsOnlySent(e, reviews, comments, rules.marksReviews, i)) ==> r == Ok(e) && u == t)
  {
    var marked := rules.marksReviews;
    var matches := Matching(e, reviews, comments, marked).value;
    assert t.EntryValid(e.prepared.payload.id);
    MovedExactly(t, Settled(e, matches), Some(rules.id));
    forall i: nat | IsOnlySent(e, reviews, comments, marked, i) ensures matches == [reviews[i].id.value] {
      OnlySentIsMatch(e, reviews, comments, marked, i);
      OnlyMatchConfirms(e, reviews, comments, marked, i);
    }
    if |matches| == 1 {
      var i := ConfirmedByOnlyMatch(e, reviews, comments, marked);
      OnlySentIsMatch(e, reviews, comments, marked, i);
    }
  }
}

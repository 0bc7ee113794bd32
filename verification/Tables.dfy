/**
 The durable tables of the review store and what each transaction does to them
 (crates/adapters/src/store.rs, crates/adapters/src/schema.sql). Each function
 gives the tables after the transaction and what the caller is told; a refused
 transaction leaves the tables as they were.
 */
module Tables {
  import opened Collections
  import opened Wrappers
  import opened Review

  const MAX_BODY: nat := 1024 * 1024
  const KEEP_RECENT: nat := 50

  datatype StoreError =
    | BadDraft            // version or size outside its limits
    | NoSnapshot
    | NoFile
    | NotEligible
    | IdentityRewritten   // another anchor, or already published
    | Stale
    | TextDiffers
    | NotByHand           // only confirmed evidence marks a draft published
    | DraftGone
    | BadIdentity
    | BadFingerprint
    | DuplicateOperation
    | NoOperation
    | PayloadChanged
    | BadMove
    | NoEvidence

  type Saved = Result<nat, StoreError>
  type Done = Result<(), StoreError>

  datatype SnapshotRow = SnapshotRow(snapshot: Snapshot, updatedAt: nat, rowid: nat) {
    /** The order prune reads snapshots in: newest first. */
    predicate NewerThan(other: SnapshotRow) {
      updatedAt > other.updatedAt || (updatedAt == other.updatedAt && rowid > other.rowid)
    }
  }

  /** Whether a confirmed review carried exactly this draft's stored text. */
  predicate Carries(comments: seq<PreparedComment>, d: Draft) {
    exists i :: 0 <= i < |comments| && IsTextOf(comments[i], d)
  }

  predicate IsTextOf(c: PreparedComment, d: Draft) {
    c.draft == d.id && c.version == d.version && c.body == d.body
  }

  function MarkPublished(drafts: map<DraftId, Draft>, comments: seq<PreparedComment>): map<DraftId, Draft> {
    map id | id in drafts ::
      if Carries(comments, drafts[id]) then drafts[id].(published := true) else drafts[id]
  }

  predicate IsEvidence(e: OutboxEntry, d: Draft) {
    e.state.Confirmed? && e.remoteId.Some? && Carries(e.prepared.payload.comments, d)
  }

  /** Why a write over a stored draft is refused. */
  function SaveConflict(stored: Draft, d: Draft): Option<StoreError> {
    if stored.snapshot != d.snapshot || stored.anchor != d.anchor || stored.published then Some(IdentityRewritten)
    else if stored.version > d.version then Some(Stale)
    else if stored.version == d.version && stored.body != d.body then Some(TextDiffers)
    else None
  }

  /** What reopening does to an operation whose send may have started. */
  function Recovered(e: OutboxEntry): OutboxEntry {
    if e.state.InFlight?
    then e.(state := UnknownOutcome, diagnostic := Some("the process stopped after sending became possible"))
    else e
  }

  datatype Tables = Tables(
    snapshots: map<SnapshotId, SnapshotRow>,
    drafts: map<DraftId, Draft>,
    outbox: map<OperationId, OutboxEntry>)
  {
    /** SQLite gives a new row a rowid that no other row has. */
    predicate FreshRowid(rowid: nat) {
      forall id :: id in snapshots ==> snapshots[id].rowid != rowid
    }

    function PutSnapshot(s: Snapshot, now: nat, rowid: nat): (Tables, Done)
      requires FreshRowid(rowid)
    {
      if !s.VerifyIdentity() then (this, Err(BadIdentity))
      else
        var kept := if s.id in snapshots then snapshots[s.id].rowid else rowid;
        (this.(snapshots := snapshots[s.id := SnapshotRow(s, now, kept)]), Ok(()))
    }

    /** Reading a saved snapshot again refreshes its place in the recency order. */
    function Touch(id: SnapshotId, now: nat): Tables {
      if id in snapshots then this.(snapshots := snapshots[id := snapshots[id].(updatedAt := now)]) else this
    }

    function SaveDraft(d: Draft): (Tables, Saved) {
      var error := SaveError(d);
      if error.Some? then (this, Err(error.value))
      else (this.(drafts := drafts[d.id := d.(savedVersion := d.version)]), Ok(d.version))
    }

    function SaveError(d: Draft): Option<StoreError> {
      if d.version == 0 || d.version > I64_MAX || |d.body| > MAX_BODY then Some(BadDraft)
      else if d.snapshot !in snapshots then Some(NoSnapshot)
      else if d.anchor.file !in snapshots[d.snapshot].snapshot.patch.files then Some(NoFile)
      else if !snapshots[d.snapshot].snapshot.patch.Admits(d.anchor, d.fileLevel) then Some(NotEligible)
      else
        var conflict := if d.id in drafts then SaveConflict(drafts[d.id], d) else None;
        if conflict.Some? then conflict
        else if d.published then Some(NotByHand)
        else None
    }

    function DiscardDraft(id: DraftId, version: nat): (Tables, Done) {
      if id in drafts && drafts[id].version == version && !drafts[id].published
      then (this.(drafts := drafts - {id}), Ok(()))
      else (this, Err(DraftGone))
    }

    function InsertPrepared(p: PreparedReview, rules: ProviderId): (Tables, Done) {
      if !p.Verify(rules) then (this, Err(BadFingerprint))
      else if p.payload.id in outbox then (this, Err(DuplicateOperation))
      else (this.(outbox := outbox[p.payload.id := OutboxEntry(p, Prepared, {}, None, None)]), Ok(()))
    }

    /** `rules` is `None` for the moves of recovery, which leave the stored review as it is. */
    function Transition(e: OutboxEntry, rules: Option<ProviderId>): (Tables, Done) {
      var error := TransitionError(e, rules);
      if error.Some? then (this, Err(error.value))
      else
        var moved := this.(outbox := outbox[e.prepared.payload.id := e]);
        if e.state.Confirmed?
        then (moved.(drafts := MarkPublished(drafts, e.prepared.payload.comments)), Ok(()))
        else (moved, Ok(()))
    }

    function TransitionError(e: OutboxEntry, rules: Option<ProviderId>): Option<StoreError> {
      var id := e.prepared.payload.id;
      if id !in outbox then Some(NoOperation)
      else if outbox[id].prepared.fingerprint != e.prepared.fingerprint
           || (rules.Some? && !e.prepared.Verify(rules.value)) then Some(PayloadChanged)
      else if !outbox[id].state.CanTransition(e.state) then Some(BadMove)
      else if e.state.Confirmed? && e.remoteId.None? then Some(NoEvidence)
      else None
    }

    /** All the moves of recovery together. */
    function Recover(): Tables {
      this.(outbox := map id | id in outbox :: Recovered(outbox[id]))
    }

    /** The snapshots strictly newer than `id`. */
    function Newer(id: SnapshotId): set<SnapshotId>
      requires id in snapshots
    {
      set other | other in snapshots && snapshots[other].NewerThan(snapshots[id])
    }

    predicate HasUnpublished(id: SnapshotId) {
      exists d :: d in drafts && drafts[d].snapshot == id && !drafts[d].published
    }

    predicate HasPending(id: SnapshotId) {
      exists op :: op in outbox && outbox[op].prepared.payload.snapshot == id && outbox[op].state.Pending()
    }

    predicate Doomed(id: SnapshotId, keep: nat)
      requires id in snapshots
    {
      |Newer(id)| >= keep && !HasUnpublished(id) && !HasPending(id)
    }

    function Prune(keep: nat): Tables {
      this.(
        drafts := map d | d in drafts && !(drafts[d].snapshot in snapshots && Doomed(drafts[d].snapshot, keep)) ::
          drafts[d],
        snapshots := map id | id in snapshots && !Doomed(id, keep) :: snapshots[id])
    }

    // ----- what every transaction keeps -----

    ghost predicate SnapshotsValid() {
      forall id :: id in snapshots ==> snapshots[id].snapshot.id == id && snapshots[id].snapshot.VerifyIdentity()
    }

    /** So NewerThan orders the rows, and "fewer than keep newer ones" is SQL's LIMIT. */
    ghost predicate DistinctRowids() {
      forall a, b :: a in snapshots && b in snapshots && a != b ==> snapshots[a].rowid != snapshots[b].rowid
    }

    /** Drafts refer to a stored snapshot that admits their anchor, and rows are saved rows. */
    ghost predicate DraftsValid() {
      forall id :: id in drafts ==> DraftValid(id)
    }

    ghost predicate DraftValid(id: DraftId)
      requires id in drafts
    {
      var d := drafts[id];
      && d.id == id && d.IsSaved() && 0 < d.version <= I64_MAX && |d.body| <= MAX_BODY
      && d.snapshot in snapshots
      && d.snapshot.of.Admits(d.anchor, d.fileLevel)
    }

    ghost predicate OutboxValid() {
      forall id :: id in outbox ==> EntryValid(id)
    }

    ghost predicate EntryValid(id: OperationId)
      requires id in outbox
    {
      var e := outbox[id];
      && e.prepared.payload.id == id
      && e.prepared.fingerprint == Digest(e.prepared.payload)
      && (e.state.Confirmed? ==> e.remoteId.Some?)
      && (e.state.Pending() ==> e.prepared.payload.snapshot in snapshots)
    }

    /** A published draft is backed by a confirmed review that carried exactly its stored text. */
    ghost predicate PublishedValid() {
      forall id :: id in drafts && drafts[id].published ==> HasEvidence(drafts[id])
    }

    ghost predicate HasEvidence(d: Draft) {
      exists op :: op in outbox && IsEvidence(outbox[op], d)
    }

    ghost predicate Valid() {
      SnapshotsValid() && DistinctRowids() && DraftsValid() && OutboxValid() && PublishedValid()
    }
  }

  // ----- each transaction keeps Valid -----

  /** Evidence survives while confirmed entries stay; new published rows need their own. */
  lemma {:induction false} EvidenceKept(t: Tables, u: Tables)
    requires t.PublishedValid()
    requires forall op :: op in t.outbox && t.outbox[op].state.Confirmed? ==>
      op in u.outbox && u.outbox[op] == t.outbox[op]
    requires forall id :: id in u.drafts && u.drafts[id].published ==> id in t.drafts && t.drafts[id] == u.drafts[id]
    ensures u.PublishedValid()
  {
    forall id | id in u.drafts && u.drafts[id].published
      ensures u.HasEvidence(u.drafts[id])
    {
      var op :| op in t.outbox && IsEvidence(t.outbox[op], t.drafts[id]);
      assert op in u.outbox && IsEvidence(u.outbox[op], u.drafts[id]);
    }
  }

  /** A transaction that only forgets drafts, or adds and refreshes snapshots. */
  lemma {:induction false} RowsKept(t: Tables, u: Tables)
    requires t.Valid() && u.SnapshotsValid() && u.DistinctRowids() && t.snapshots.Keys <= u.snapshots.Keys
    requires u.outbox == t.outbox && forall id :: id in u.drafts ==> id in t.drafts && u.drafts[id] == t.drafts[id]
    ensures u.Valid()
  {
    forall id | id in u.drafts ensures u.DraftValid(id) {
      assert t.DraftValid(id);
    }
    forall op | op in u.outbox ensures u.EntryValid(op) {
      assert t.EntryValid(op);
    }
    EvidenceKept(t, u);
  }

  lemma {:induction false} PutSnapshotKeepsValid(t: Tables, s: Snapshot, now: nat, rowid: nat)
    requires t.Valid() && t.FreshRowid(rowid)
    ensures t.PutSnapshot(s, now, rowid).0.Valid()
  {
    RowsKept(t, t.PutSnapshot(s, now, rowid).0);
  }

  lemma {:induction false} TouchKeepsValid(t: Tables, id: SnapshotId, now: nat)
    requires t.Valid()
    ensures t.Touch(id, now).Valid()
  {
    RowsKept(t, t.Touch(id, now));
  }

  lemma {:induction false} SaveDraftKeepsValid(t: Tables, d: Draft)
    requires t.Valid()
    ensures t.SaveDraft(d).0.Valid()
  {
    var u := t.SaveDraft(d).0;
    if t.SaveError(d).None? {
      assert t.snapshots[d.snapshot].snapshot.patch == d.snapshot.of;
      assert u.DraftValid(d.id);
      assert forall id :: id in t.drafts && id != d.id ==> t.DraftValid(id) ==> u.DraftValid(id);
      assert forall op :: op in t.outbox ==> t.EntryValid(op) ==> u.EntryValid(op);
      EvidenceKept(t, u);
    }
  }

  lemma {:induction false} DiscardDraftKeepsValid(t: Tables, id: DraftId, version: nat)
    requires t.Valid()
    ensures t.DiscardDraft(id, version).0.Valid()
  {
    RowsKept(t, t.DiscardDraft(id, version).0);
  }

  /** Another entry in the outbox, or a moved one, does not touch the others. */
  lemma {:induction false} EntryPut(t: Tables, u: Tables, op: OperationId)
    requires t.OutboxValid() && u.snapshots == t.snapshots
    requires op in u.outbox && u.outbox == t.outbox[op := u.outbox[op]] && u.EntryValid(op)
    ensures u.OutboxValid()
  {
    forall o | o in u.outbox && o != op ensures u.EntryValid(o) {
      assert t.EntryValid(o);
    }
  }

  lemma {:induction false} InsertPreparedKeepsValid(t: Tables, p: PreparedReview, rules: ProviderId)
    requires t.Valid() && p.payload.snapshot in t.snapshots
    ensures t.InsertPrepared(p, rules).0.Valid()
  {
    var u := t.InsertPrepared(p, rules).0;
    if u != t {
      EntryPut(t, u, p.payload.id);
      forall d | d in u.drafts ensures u.DraftValid(d) {
        assert t.DraftValid(d);
      }
      EvidenceKept(t, u);
    }
  }

  /** A draft published after a move has its evidence: the old one, or the entry just confirmed. */
  lemma {:induction false} MovedDraftHasEvidence(t: Tables, e: OutboxEntry, rules: Option<ProviderId>, id: DraftId)
    requires t.PublishedValid() && t.TransitionError(e, rules).None?
    requires id in t.drafts && t.Transition(e, rules).0.drafts[id].published
    ensures t.Transition(e, rules).0.HasEvidence(t.Transition(e, rules).0.drafts[id])
  {
    var u := t.Transition(e, rules).0;
    var op, d := e.prepared.payload.id, t.drafts[id];
    if d.published {
      var o :| o in t.outbox && IsEvidence(t.outbox[o], d);
      CarriesIgnoresMark(t.outbox[o].prepared.payload.comments, d, u.drafts[id]);
      assert o in u.outbox && IsEvidence(u.outbox[o], u.drafts[id]);
    } else {
      CarriesIgnoresMark(e.prepared.payload.comments, d, u.drafts[id]);
      assert op in u.outbox && IsEvidence(u.outbox[op], u.drafts[id]);
    }
  }

  lemma {:induction false} MoveKeepsOutbox(t: Tables, e: OutboxEntry, rules: Option<ProviderId>)
    requires t.OutboxValid() && e.prepared.fingerprint == Digest(e.prepared.payload)
      && t.TransitionError(e, rules).None?
    ensures t.Transition(e, rules).0.OutboxValid()
  {
    var u, op := t.Transition(e, rules).0, e.prepared.payload.id;
    assert t.EntryValid(op);
    assert u.EntryValid(op);
    EntryPut(t, u, op);
  }

  lemma {:induction false} MoveKeepsDrafts(t: Tables, e: OutboxEntry, rules: Option<ProviderId>)
    requires t.DraftsValid() && t.TransitionError(e, rules).None?
    ensures t.Transition(e, rules).0.DraftsValid()
  {
    var u := t.Transition(e, rules).0;
    forall d | d in u.drafts ensures u.DraftValid(d) {
      assert t.DraftValid(d);
    }
  }

  /** A move within the lifecycle keeps Valid: a newly published draft gets its evidence with the move. */
  lemma {:induction false} TransitionKeepsValid(t: Tables, e: OutboxEntry, rules: Option<ProviderId>)
    requires t.Valid() && e.prepared.fingerprint == Digest(e.prepared.payload)
    ensures t.Transition(e, rules).0.Valid()
  {
    var u := t.Transition(e, rules).0;
    if t.TransitionError(e, rules).None? {
      MoveKeepsOutbox(t, e, rules);
      MoveKeepsDrafts(t, e, rules);
      forall id | id in u.drafts && u.drafts[id].published
        ensures u.HasEvidence(u.drafts[id])
      {
        MovedDraftHasEvidence(t, e, rules, id);
      }
    }
  }

  lemma {:induction false} CarriesIgnoresMark(comments: seq<PreparedComment>, d: Draft, marked: Draft)
    requires marked == d || marked == d.(published := true)
    ensures Carries(comments, d) == Carries(comments, marked)
  {
    assert forall c :: IsTextOf(c, d) == IsTextOf(c, marked);
  }

  lemma {:induction false} PruneKeepsValid(t: Tables, keep: nat)
    requires t.Valid()
    ensures t.Prune(keep).Valid()
  {
    var u := t.Prune(keep);
    assert forall d :: d in u.drafts ==> t.DraftValid(d) ==> u.DraftValid(d);
    forall op | op in u.outbox
      ensures u.EntryValid(op)
    {
      assert t.EntryValid(op);
      if t.outbox[op].state.Pending() {
        assert t.HasPending(t.outbox[op].prepared.payload.snapshot);
      }
    }
    EvidenceKept(t, u);
  }

  predicate IsUnsettled(e: OutboxEntry) {
    e.state in {Prepared, InFlight, UnknownOutcome}
  }

  /** The snapshots updated later, or in the same second but with a higher row id. */
  ghost function Ahead(t: Tables, id: SnapshotId): set<SnapshotId>
    requires id in t.snapshots
  {
    set other | other in t.snapshots &&
      (t.snapshots[other].updatedAt > t.snapshots[id].updatedAt
      || (t.snapshots[other].updatedAt == t.snapshots[id].updatedAt
          && t.snapshots[other].rowid > t.snapshots[id].rowid))
  }

  lemma {:induction false} NewerIsAhead(t: Tables, id: SnapshotId)
    requires id in t.snapshots
    ensures t.Newer(id) == Ahead(t, id)
  {
  }

  /**
   A snapshot is forgotten exactly if at least `keep` are ahead of it, no draft of it is unpublished
   and no operation on it is unsettled; its drafts are forgotten exactly with it. Nothing else changes.
   */
  lemma {:induction false} PrunedExactly(t: Tables, keep: nat)
    requires t.Valid()
    ensures var u := t.Prune(keep);
      && (forall id :: id in t.snapshots ==>
            (id !in u.snapshots <==>
              && |Ahead(t, id)| >= keep
              && (forall d :: d in t.drafts && t.drafts[d].snapshot == id ==> t.drafts[d].published)
              && (forall op :: op in t.outbox && t.outbox[op].prepared.payload.snapshot == id ==>
                    !IsUnsettled(t.outbox[op]))))
      && (forall d :: d in t.drafts ==> (d !in u.drafts <==> t.drafts[d].snapshot !in u.snapshots))
      && (forall id :: id in u.snapshots ==> id in t.snapshots && u.snapshots[id] == t.snapshots[id])
      && (forall d :: d in u.drafts ==> d in t.drafts && u.drafts[d] == t.drafts[d])
      && u.outbox == t.outbox
  {
    forall id | id in t.snapshots
      ensures id !in t.Prune(keep).snapshots <==>
        && |Ahead(t, id)| >= keep
        && (forall d :: d in t.drafts && t.drafts[d].snapshot == id ==> t.drafts[d].published)
        && (forall op :: op in t.outbox && t.outbox[op].prepared.payload.snapshot == id ==>
              !IsUnsettled(t.outbox[op]))
    {
      NewerIsAhead(t, id);
    }
    forall d | d in t.drafts ensures t.drafts[d].snapshot in t.snapshots {
      assert t.DraftValid(d);
    }
  }

  /** Pruning touches only published drafts of forgotten snapshots; unresolved work keeps its snapshot. */
  lemma {:induction false} PruneKeepsWork(t: Tables, keep: nat)
    requires t.Valid()
    ensures forall id :: id in t.drafts && !t.drafts[id].published ==>
      && id in t.Prune(keep).drafts && t.Prune(keep).drafts[id] == t.drafts[id]
      && t.drafts[id].snapshot in t.Prune(keep).snapshots
    ensures forall op :: op in t.outbox && IsUnsettled(t.outbox[op]) ==>
      t.outbox[op].prepared.payload.snapshot in t.Prune(keep).snapshots
    ensures t.Prune(keep).outbox == t.outbox
    ensures forall id :: id in t.snapshots && |Ahead(t, id)| < keep ==>
      && id in t.Prune(keep).snapshots
      && forall d :: d in t.drafts && t.drafts[d].snapshot == id ==> d in t.Prune(keep).drafts
  {
    forall id | id in t.snapshots ensures t.Newer(id) == Ahead(t, id) {
      NewerIsAhead(t, id);
    }
    forall id | id in t.drafts && !t.drafts[id].published
      ensures id in t.Prune(keep).drafts && t.drafts[id].snapshot in t.Prune(keep).snapshots
    {
      assert t.DraftValid(id);
      assert t.HasUnpublished(t.drafts[id].snapshot);
    }
    forall op | op in t.outbox && IsUnsettled(t.outbox[op])
      ensures t.outbox[op].prepared.payload.snapshot in t.Prune(keep).snapshots
    {
      assert t.EntryValid(op);
      assert t.HasPending(t.outbox[op].prepared.payload.snapshot);
    }
  }

  /** Only exact stored text is ever marked published, and marking changes nothing else. */
  lemma {:induction false} OnlyCarriedTextIsPublished(t: Tables, e: OutboxEntry, rules: Option<ProviderId>, id: DraftId)
    requires id in t.drafts && t.drafts[id].id == id
    ensures id in t.Transition(e, rules).0.drafts
    ensures var after := t.Transition(e, rules).0.drafts[id];
      && (after == t.drafts[id] || after == t.drafts[id].(published := true))
      && (after != t.drafts[id] ==>
        && t.Transition(e, rules).1.Ok? && e.state.Confirmed?
        && exists i :: 0 <= i < |e.prepared.payload.comments|
             && e.prepared.payload.comments[i].draft == id
             && e.prepared.payload.comments[i].version == t.drafts[id].version
             && e.prepared.payload.comments[i].body == t.drafts[id].body)
  {
    var u := t.Transition(e, rules).0;
    if u.drafts[id] != t.drafts[id] {
      var i :| 0 <= i < |e.prepared.payload.comments| && IsTextOf(e.prepared.payload.comments[i], t.drafts[id]);
      assert e.prepared.payload.comments[i].draft == id;
    }
  }

  // ----- what each transaction does, on the fields -----

  /** A draft may be stored at its place in its review's patch. */
  predicate FitsPatch(t: Tables, d: Draft) {
    && d.snapshot in t.snapshots
    && var patch := t.snapshots[d.snapshot].snapshot.patch;
      d.anchor.file in patch.files && (d.fileLevel || d.anchor in patch.eligible)
  }

  /** A row gives way to a later text of the same draft, or to its own text again, until it is published. */
  predicate GivesWay(row: Draft, d: Draft) {
    && !row.published && row.snapshot == d.snapshot && row.anchor == d.anchor
    && (row.version < d.version || (row.version == d.version && row.body == d.body))
  }

  /** Exactly the saves that are taken, and what is then stored. */
  lemma {:induction false} SavedExactly(t: Tables, d: Draft)
    ensures t.SaveDraft(d).1.Ok? <==>
      && 1 <= d.version < 0x8000_0000_0000_0000 && |d.body| <= 1_048_576 && !d.published
      && FitsPatch(t, d) && (d.id in t.drafts ==> GivesWay(t.drafts[d.id], d))
    ensures t.SaveDraft(d).1.Ok? ==>
      && t.SaveDraft(d).1.value == d.version
      && t.SaveDraft(d).0 == t.(drafts := t.drafts[d.id := d.(savedVersion := d.version)])
    ensures t.SaveDraft(d).1.Err? ==> t.SaveDraft(d).0 == t
  {
  }

  /** Exactly the moves of an operation that are taken, and what is then stored. */
  lemma {:induction false} MovedExactly(t: Tables, e: OutboxEntry, rules: Option<ProviderId>)
    requires t.OutboxValid()
    ensures t.Transition(e, rules).1.Ok? <==>
      && e.prepared.payload.id in t.outbox
      && var stored := t.outbox[e.prepared.payload.id];
      && stored.prepared.fingerprint == e.prepared.fingerprint
      && (rules.Some? ==>
            rules.value == e.prepared.payload.target.provider && e.prepared.fingerprint.of == e.prepared.payload)
      && (match stored.state
          case Prepared => e.state in {InFlight, Rejected}
          case InFlight => e.state in {Confirmed, Rejected, UnknownOutcome}
          case UnknownOutcome => e.state == Confirmed
          case _ => false)
      && (e.state == Confirmed ==> e.remoteId.Some?)
    ensures var (u, done) := t.Transition(e, rules); done.Err? ==> u == t
    ensures var (u, done) := t.Transition(e, rules); done.Ok? ==>
      && u.outbox == t.outbox[e.prepared.payload.id := e] && u.snapshots == t.snapshots
      && u.drafts.Keys == t.drafts.Keys
      && forall id :: id in t.drafts ==>
           u.drafts[id] == if e.state == Confirmed && HasText(e.prepared.payload.comments, t.drafts[id])
                           then t.drafts[id].(published := true) else t.drafts[id]
  {
    var u := t.Transition(e, rules).0;
    var comments := e.prepared.payload.comments;
    forall id | id in t.drafts ensures Carries(comments, t.drafts[id]) <==> HasText(comments, t.drafts[id]) {
      CarriesIsText(comments, t.drafts[id]);
    }
  }

  /** One of the comments is exactly this text of this draft. */
  predicate HasText(comments: seq<PreparedComment>, d: Draft) {
    exists i :: 0 <= i < |comments| &&
      comments[i].draft == d.id && comments[i].version == d.version && comments[i].body == d.body
  }

  lemma {:induction false} CarriesIsText(comments: seq<PreparedComment>, d: Draft)
    ensures Carries(comments, d) <==> HasText(comments, d)
  {
    if HasText(comments, d) {
      var i :| 0 <= i < |comments| &&
        comments[i].draft == d.id && comments[i].version == d.version && comments[i].body == d.body;
      assert IsTextOf(comments[i], d);
    }
    if Carries(comments, d) {
      var i :| 0 <= i < |comments| && IsTextOf(comments[i], d);
      assert comments[i].draft == d.id;
    }
  }

  /** Opening turns every send that may have started into an unknown outcome, and nothing else. */
  lemma {:induction false} RecoveredExactly(t: Tables)
    ensures var u := t.Recover();
      && u.drafts == t.drafts && u.snapshots == t.snapshots && u.outbox.Keys == t.outbox.Keys
      && forall op :: op in t.outbox ==>
           if t.outbox[op].state == InFlight then
             && u.outbox[op] == t.outbox[op].(state := UnknownOutcome, diagnostic := u.outbox[op].diagnostic)
             && u.outbox[op].diagnostic.Some?
           else u.outbox[op] == t.outbox[op]
  {
  }

  /** A snapshot read later than all others were stored or read is the last one that pruning would forget. */
  lemma {:induction false} TouchedExactly(t: Tables, id: SnapshotId, now: nat)
    requires id in t.snapshots
    ensures var u := t.Touch(id, now);
      && u.drafts == t.drafts && u.outbox == t.outbox
      && u.snapshots == t.snapshots[id := SnapshotRow(t.snapshots[id].snapshot, now, t.snapshots[id].rowid)]
      && ((forall other :: other in t.snapshots && other != id ==> t.snapshots[other].updatedAt < now) ==>
            && |Ahead(u, id)| == 0
            && forall keep: nat :: keep > 0 ==> id in u.Prune(keep).snapshots)
  {
    var u := t.Touch(id, now);
    NewerIsAhead(u, id);
    if forall other :: other in t.snapshots && other != id ==> t.snapshots[other].updatedAt < now {
      assert Ahead(u, id) == {};
    }
  }

  /** A review is prepared once, as its fingerprint says and for the provider that will check it. */
  lemma {:induction false} PreparedExactly(t: Tables, p: PreparedReview, rules: ProviderId)
    ensures var (u, done) := t.InsertPrepared(p, rules);
      && (done.Ok? <==>
            p.payload.target.provider == rules && p.fingerprint.of == p.payload && p.payload.id !in t.outbox)
      && u == if done.Ok? then t.(outbox := t.outbox[p.payload.id := OutboxEntry(p, Prepared, {}, None, None)]) else t
  {
  }

  /** A snapshot whose id is its content is stored as the newest and keeps the row it had. */
  lemma {:induction false} PutExactly(t: Tables, s: Snapshot, now: nat, rowid: nat)
    requires t.FreshRowid(rowid)
    ensures var (u, done) := t.PutSnapshot(s, now, rowid);
      && (done.Ok? <==> s.id.of == s.patch)
      && u.drafts == t.drafts && u.outbox == t.outbox
      && (done.Err? ==> u == t)
      && (done.Ok? ==>
            && u.snapshots.Keys == t.snapshots.Keys + {s.id}
            && (forall id :: id in t.snapshots && id != s.id ==> u.snapshots[id] == t.snapshots[id])
            && u.snapshots[s.id].snapshot == s && u.snapshots[s.id].updatedAt == now
            && u.snapshots[s.id].rowid == if s.id in t.snapshots then t.snapshots[s.id].rowid else rowid)
  {
  }

  /** A discard deletes that version of that draft, and only before it is published. */
  lemma {:induction false} DiscardedExactly(t: Tables, id: DraftId, version: nat)
    ensures var (u, done) := t.DiscardDraft(id, version);
      && (done.Ok? <==> id in t.drafts && t.drafts[id].version == version && !t.drafts[id].published)
      && u.outbox == t.outbox && u.snapshots == t.snapshots
      && (forall d :: d in u.drafts <==> d in t.drafts && !(done.Ok? && d == id))
      && (forall d :: d in u.drafts ==> u.drafts[d] == t.drafts[d])
  {
  }

  // ----- the rank of a snapshot among the newest -----

  ghost function Recent(t: Tables, keep: nat): set<SnapshotId> {
    set id | id in t.snapshots && |Ahead(t, id)| < keep
  }

  lemma {:induction false} OldestOf(t: Tables, ids: set<SnapshotId>) returns (oldest: SnapshotId)
    requires t.DistinctRowids() && ids <= t.snapshots.Keys && ids != {}
    ensures oldest in ids
    ensures forall id :: id in ids && id != oldest ==> t.snapshots[id].NewerThan(t.snapshots[oldest])
    decreases ids
  {
    oldest :| oldest in ids;
    if ids != {oldest} {
      var o := OldestOf(t, ids - {oldest});
      if t.snapshots[oldest].NewerThan(t.snapshots[o]) { oldest := o; }
    }
  }

  lemma {:induction false} NewestOf(t: Tables, ids: set<SnapshotId>) returns (newest: SnapshotId)
    requires t.DistinctRowids() && ids <= t.snapshots.Keys && ids != {}
    ensures newest in ids
    ensures forall id :: id in ids && id != newest ==> t.snapshots[newest].NewerThan(t.snapshots[id])
    decreases ids
  {
    newest :| newest in ids;
    if ids != {newest} {
      var n := NewestOf(t, ids - {newest});
      if t.snapshots[n].NewerThan(t.snapshots[newest]) { newest := n; }
    }
  }

  lemma {:induction false} RecentAreFew(t: Tables, keep: nat)
    requires t.DistinctRowids()
    ensures |Recent(t, keep)| <= keep
  {
    var s := Recent(t, keep);
    if |s| > keep {
      var o := OldestOf(t, s);
      NewerIsAhead(t, o);
      assert s - {o} <= t.Newer(o);
      SubsetSize(s - {o}, t.Newer(o));
    }
  }

  lemma {:induction false} NewerThanRest(t: Tables, keep: nat, n: SnapshotId)
    requires n in t.snapshots && n !in Recent(t, keep)
    requires forall id :: id in t.snapshots && id !in Recent(t, keep) && id != n ==>
      t.snapshots[n].NewerThan(t.snapshots[id])
    ensures |Recent(t, keep)| >= keep
  {
    forall id | id in t.Newer(n) ensures id in Recent(t, keep) {
      assert t.snapshots[id].NewerThan(t.snapshots[n]);
    }
    NewerIsAhead(t, n);
    SubsetSize(t.Newer(n), Recent(t, keep));
  }

  lemma {:induction false} RecentAreEnough(t: Tables, keep: nat)
    requires t.DistinctRowids()
    ensures |Recent(t, keep)| >= keep || Recent(t, keep) == t.snapshots.Keys
  {
    var rest := t.snapshots.Keys - Recent(t, keep);
    if rest == {} {
      forall id | id in t.snapshots ensures id in Recent(t, keep) {
        assert id !in rest;
      }
    } else {
      var n := NewestOf(t, rest);
      NewerThanRest(t, keep, n);
    }
  }

  lemma {:induction false} NewerIsRecent(t: Tables, keep: nat, a: SnapshotId, b: SnapshotId)
    requires a in Recent(t, keep) && b in Ahead(t, a)
    ensures b in Recent(t, keep)
  {
    assert Ahead(t, b) <= Ahead(t, a);
    SubsetSize(Ahead(t, b), Ahead(t, a));
  }

  /** The snapshots that prune may not forget for age alone are exactly `keep` of them, or all. */
  lemma {:induction false} RecentIsLimit(t: Tables, keep: nat)
    requires t.Valid()
    ensures |Recent(t, keep)| == if |t.snapshots| < keep then |t.snapshots| else keep
    ensures forall a, b :: a in Recent(t, keep) && b in Ahead(t, a) ==> b in Recent(t, keep)
  {
    RecentAreFew(t, keep);
    RecentAreEnough(t, keep);
    assert |t.snapshots.Keys| == |t.snapshots|;
    SubsetSize(Recent(t, keep), t.snapshots.Keys);
    forall a, b | a in Recent(t, keep) && b in Ahead(t, a) ensures b in Recent(t, keep) {
      NewerIsRecent(t, keep, a, b);
    }
  }
}

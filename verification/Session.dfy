/**
 The window's own copy of the drafts (crates/core/src/session.rs) and its
 agreement with the store while saves are reordered, lost, or acknowledged late
 (crates/adapters/src/store.rs, crates/ui/src/app/review_flow.rs).
 */
module Session {
  import opened Wrappers
  import opened Review
  import opened Tables
  import Outbox

  datatype Edit = Unchanged | Changed(draft: Draft) | Overflow

  /** An edit of unpublished text makes the next version. */
  function EditDraft(d: Draft, body: string): Edit {
    if d.published || d.body == body then Unchanged
    else if d.version + 1 > U64_MAX then Overflow
    else Changed(d.(body := body, version := d.version + 1))
  }

  /** An acknowledgement of another draft's future is ignored, and an old one takes nothing back. */
  function AcknowledgeSave(d: Draft, version: nat): Draft {
    if version <= d.version && version > d.savedVersion then d.(savedVersion := version) else d
  }

  datatype Event =
    | EditEvent(id: DraftId, body: string)
    | SavedEvent(id: DraftId, version: nat)
    | StoreFailed(message: string)

  datatype Effect = PersistDraft(draft: Draft)

  function Reduced(drafts: map<DraftId, Draft>, e: Event): map<DraftId, Draft> {
    match e
    case EditEvent(id, body) =>
      if id in drafts && EditDraft(drafts[id], body).Changed?
      then drafts[id := EditDraft(drafts[id], body).draft] else drafts
    case SavedEvent(id, version) =>
      if id in drafts then drafts[id := AcknowledgeSave(drafts[id], version)] else drafts
    case StoreFailed(_) => drafts
  }

  function Effects(drafts: map<DraftId, Draft>, e: Event): seq<Effect> {
    if e.EditEvent? && e.id in drafts && EditDraft(drafts[e.id], e.body).Changed?
    then [PersistDraft(EditDraft(drafts[e.id], e.body).draft)] else []
  }

  class Session {
    var drafts: map<DraftId, Draft>
    var lastError: Option<string>

    constructor ()
      ensures drafts == map[] && lastError == None
    {
      drafts, lastError := map[], None;
    }

    method Reduce(e: Event) returns (effects: seq<Effect>)
      modifies this
      ensures drafts == Reduced(old(drafts), e) && effects == Effects(old(drafts), e)
      ensures lastError != old(lastError) ==>
        e.StoreFailed? || (e.EditEvent? && e.id in old(drafts) && EditDraft(old(drafts)[e.id], e.body).Overflow?)
    {
      effects := [];
      match e
      case EditEvent(id, body) =>
        if id in drafts {
          match EditDraft(drafts[id], body)
          case Changed(d) =>
            drafts := drafts[id := d];
            effects := [PersistDraft(d)];
          case Unchanged =>
          case Overflow => lastError := Some("draft revision overflow");
        }
      case SavedEvent(id, version) =>
        if id in drafts { drafts := drafts[id := AcknowledgeSave(drafts[id], version)]; }
      case StoreFailed(message) => lastError := Some(message);
    }
  }

  /**
   An edit of an unpublished draft's text carries that text under the next version, on screen and to
   the store alike; nothing else changes anything, short of the last version.
   */
  lemma {:induction false} EditExactly(drafts: map<DraftId, Draft>, id: DraftId, body: string)
    ensures var e := EditEvent(id, body);
      if id in drafts && !drafts[id].published && drafts[id].body != body && drafts[id].version < U64_MAX then
        var was := drafts[id];
        var now := was.(body := body, version := was.version + 1);
        Reduced(drafts, e) == drafts[id := now] && Effects(drafts, e) == [PersistDraft(now)]
      else Reduced(drafts, e) == drafts && Effects(drafts, e) == []
  {
  }

  /** An answer moves the saved version up to the answered one, never down and never past the draft's own. */
  lemma {:induction false} SavedExactly(drafts: map<DraftId, Draft>, id: DraftId, version: nat)
    ensures var after := Reduced(drafts, SavedEvent(id, version));
      && after.Keys == drafts.Keys && (forall k :: k in drafts && k != id ==> after[k] == drafts[k])
      && (id in drafts ==>
            var was, saved := drafts[id], after[id].savedVersion;
            && after[id].(savedVersion := was.savedVersion) == was
            && (saved == was.savedVersion || was.savedVersion < saved == version <= was.version)
            && (saved == was.savedVersion ==> version <= was.savedVersion || version > was.version))
  {
  }

  function Reduction(drafts: map<DraftId, Draft>, events: seq<Event>): map<DraftId, Draft> {
    if events == [] then drafts else Reduced(Reduction(drafts, events[..|events| - 1]), events[|events| - 1])
  }

  /** A store that writes what an event's effects carry. */
  function Written(stored: map<DraftId, Draft>, effects: seq<Effect>): map<DraftId, Draft> {
    if effects == [] then stored else stored[effects[0].draft.id := effects[0].draft]
  }

  function Persisted(drafts: map<DraftId, Draft>, events: seq<Event>): map<DraftId, Draft> {
    if events == [] then drafts
    else
      var front, last := events[..|events| - 1], events[|events| - 1];
      Written(Persisted(drafts, front), Effects(Reduction(drafts, front), last))
  }

  /** The same drafts, but for what is known to be saved. */
  predicate SameTexts(session: map<DraftId, Draft>, stored: map<DraftId, Draft>) {
    && session.Keys == stored.Keys
    && forall id :: id in session ==>
         session[id].id == id && stored[id] == session[id].(savedVersion := stored[id].savedVersion)
  }

  /** No edit is kept from the store: what the effects carried is each draft as the session has it. */
  lemma {:induction false} EveryEditIsPersisted(drafts: map<DraftId, Draft>, events: seq<Event>)
    requires forall id :: id in drafts ==> drafts[id].id == id
    ensures SameTexts(Reduction(drafts, events), Persisted(drafts, events))
  {
    if events != [] {
      var front, last := events[..|events| - 1], events[|events| - 1];
      EveryEditIsPersisted(drafts, front);
      EventIsPersisted(Reduction(drafts, front), Persisted(drafts, front), last);
    }
  }

  lemma {:induction false} EventIsPersisted(session: map<DraftId, Draft>, stored: map<DraftId, Draft>, e: Event)
    requires SameTexts(session, stored)
    ensures SameTexts(Reduced(session, e), Written(stored, Effects(session, e)))
  {
    match e
    case EditEvent(id, body) => EditExactly(session, id, body);
    case SavedEvent(id, version) => SavedExactly(session, id, version);
    case StoreFailed(_) =>
  }

  // ----- the window and the store -----

  /** Opening a review: asked for, then its rows read in the background, then shown. */
  datatype Opening =
    | Idle
    | Asked(snapshot: SnapshotId)
    | Answered(rows: map<DraftId, Draft>)
  {
    function Rows(): map<DraftId, Draft> {
      if Answered? then rows else map[]
    }
  }

  /**
   `saves` are writes that may still reach the store, in any order and more than once. The window
   waits for the answer to the newest write of a draft only (`waiting`, `answers`). `gone` are the
   drafts whose row a discard deleted and of which the window has not heard.

   The rest only records what happened. `stale` are the drafts on screen that had been overtaken when
   they were put there, `checked` the publications that found their texts stored, `confirmed` those
   the provider confirmed, `deleted` the drafts whose row was ever deleted, and `misled` the drafts on
   screen that were marked published while the store did not have that version as published.
   */
  datatype Sync = Sync(
    t: Tables,
    ui: map<DraftId, Draft>,
    saves: set<Draft>,
    waiting: map<DraftId, Draft>,
    answers: map<DraftId, nat>,
    discards: set<(DraftId, nat)>,
    gone: set<DraftId>,
    opening: Opening,
    offered: Opening,
    stale: set<DraftId>,
    checked: set<Payload>,
    confirmed: set<Payload>,
    deleted: set<DraftId>,
    misled: set<DraftId>)

  datatype Action =
    | Create(draft: Draft, text: string)     // a first comment text on a selected range
    | Type(id: DraftId, text: string)
    | Retry(id: DraftId)                     // save again what is not saved
    | RunSave(save: Draft)
    | DropSave(save: Draft)                  // a write ends, or never takes place
    | Deliver(id: DraftId)                   // the answer to a write reaches the window
    | AskDiscard(id: DraftId)
    | RunDiscard(id: DraftId, version: nat)
    | EndDiscard(id: DraftId)                // the window hears that the draft is deleted
    | Check(p: Payload)                      // a publication finds its texts stored
    | Confirm(p: Payload)
    | ShowPublished(p: Payload)              // the window hears of a confirmation
    | Put(s: Snapshot, now: nat, rowid: nat)
    | Open(snapshot: SnapshotId)
    | ReadRows(now: nat)
    | Install                                // the rows that were read replace the screen
    | Offer                                  // they wait as a new revision instead
    | Accept
    | Restart                                // the process dies and opens the store again

  predicate Fresh(s: Sync, id: DraftId) {
    && id !in s.ui && id !in s.t.drafts && id !in s.answers && id !in s.deleted
    && id !in s.opening.Rows() && id !in s.offered.Rows()
    && forall d :: d in s.saves ==> d.id != id
  }

  predicate AllSaved(s: Sync) {
    forall id :: id in s.ui ==> s.ui[id].IsSaved()
  }

  /** A save of the draft on screen begins; what an older one answers is no longer heard. */
  function Saving(s: Sync, d: Draft): Sync {
    s.(ui := s.ui[d.id := d], saves := s.saves + {d}, waiting := s.waiting[d.id := d], answers := s.answers - {d.id})
  }

  /** `d` is no later text than the one on screen. */
  predicate NotNewer(d: Draft, shown: Draft) {
    d.version < shown.version || (d.version == shown.version && d.body == shown.body)
  }

  /**
   Whether a row that was read may be put on screen: it is still the stored one, and no write that
   the store would take is under way for a later text.
   */
  predicate Current(s: Sync, row: Draft) {
    && row.id in s.t.drafts && s.t.drafts[row.id].version == row.version && s.t.drafts[row.id].body == row.body
    && forall d :: d in s.saves && d.id == row.id ==> NotNewer(d, row) || s.t.SaveError(d).Some?
  }

  function Overtaken(s: Sync, rows: map<DraftId, Draft>): set<DraftId> {
    set id | id in rows && !Current(s, rows[id])
  }

  function PutOnScreen(s: Sync, rows: map<DraftId, Draft>): Sync {
    s.(ui := rows, offered := Idle, stale := Overtaken(s, rows), misled := {})
  }

  function StoredRows(t: Tables, snapshot: SnapshotId): map<DraftId, Draft> {
    map id | id in t.drafts && t.drafts[id].snapshot == snapshot :: t.drafts[id]
  }

  /** Whether the window marks this draft when it hears that `p` was confirmed; the text is not compared. */
  predicate IsMarked(d: Draft, p: Payload) {
    d.snapshot == p.snapshot && exists i :: 0 <= i < |p.comments| && IsVersionOf(p.comments[i], d)
  }

  predicate IsVersionOf(c: PreparedComment, d: Draft) {
    c.draft == d.id && c.version == d.version
  }

  function Marked(d: Draft, p: Payload): Draft {
    if IsMarked(d, p) then d.(published := true) else d
  }

  /** The store has this version of the draft as published. */
  predicate PublishedRow(t: Tables, id: DraftId, version: nat) {
    id in t.drafts && t.drafts[id].published && t.drafts[id].version == version
  }

  /** The drafts on screen whose mark the store does not back, once `p` is shown as confirmed. */
  function Misled(s: Sync, p: Payload): set<DraftId> {
    set id | id in s.misled + s.ui.Keys &&
      if id in s.ui && IsMarked(s.ui[id], p) then !PublishedRow(s.t, id, s.ui[id].version) else id in s.misled
  }

  function MarkScreen(s: Sync, p: Payload): Sync {
    s.(ui := map id | id in s.ui :: Marked(s.ui[id], p), misled := Misled(s, p))
  }

  function Next(s: Sync, a: Action): Sync {
    match a
    case Create(d, text) =>
      if Fresh(s, d.id) && d.version == 0 && d.savedVersion == 0 && d.body == "" && EditDraft(d, text).Changed?
      then Saving(s, EditDraft(d, text).draft) else s
    case Type(id, text) =>
      if id in s.ui && EditDraft(s.ui[id], text).Changed? then Saving(s, EditDraft(s.ui[id], text).draft) else s
    case Retry(id) => if id in s.ui && !s.ui[id].IsSaved() then Saving(s, s.ui[id]) else s
    case RunSave(d) =>
      if d in s.saves && s.t.SaveDraft(d).1.Ok? then
        var heard := d.id in s.waiting && s.waiting[d.id] == d;
        s.(t := s.t.SaveDraft(d).0, answers := if heard then s.answers[d.id := d.version] else s.answers)
      else s
    case DropSave(d) => s.(saves := s.saves - {d})
    case Deliver(id) =>
      if id in s.answers && id in s.ui
      then s.(ui := Reduced(s.ui, SavedEvent(id, s.answers[id])), answers := s.answers - {id}) else s
    case AskDiscard(id) =>
      if id in s.ui && s.ui[id].IsSaved() then s.(discards := s.discards + {(id, s.ui[id].version)}) else s
    case RunDiscard(id, version) =>
      if (id, version) in s.discards && s.t.DiscardDraft(id, version).1.Ok?
      then s.(t := s.t.DiscardDraft(id, version).0, gone := s.gone + {id}, deleted := s.deleted + {id}) else s
    case EndDiscard(id) => if id in s.gone then s.(ui := s.ui - {id}, gone := s.gone - {id}) else s
    case Check(p) => if Outbox.TextsAreStored(s.t, p) then s.(checked := s.checked + {p}) else s
    case Confirm(p) =>
      if p in s.checked
      then s.(t := s.t.(drafts := MarkPublished(s.t.drafts, p.comments)), confirmed := s.confirmed + {p}) else s
    case ShowPublished(p) => if p in s.confirmed then MarkScreen(s, p) else s
    case Put(snapshot, now, rowid) =>
      if s.t.FreshRowid(rowid) then s.(t := s.t.PutSnapshot(snapshot, now, rowid).0) else s
    case Open(snapshot) => if AllSaved(s) then s.(opening := Asked(snapshot)) else s
    case ReadRows(now) =>
      if s.opening.Asked? then
        var t := s.t.Touch(s.opening.snapshot, now);
        s.(t := t, opening := Answered(StoredRows(t, s.opening.snapshot)))
      else s
    case Install => if s.opening.Answered? then PutOnScreen(s, s.opening.rows).(opening := Idle) else s
    case Offer => if s.opening.Answered? then s.(opening := Idle, offered := s.opening) else s
    case Accept => if s.offered.Answered? && AllSaved(s) then PutOnScreen(s, s.offered.rows) else s
    case Restart =>
      var t := s.t.Recover().Prune(KEEP_RECENT);
      Closed(t, s.checked, s.confirmed, s.deleted + (s.t.drafts.Keys - t.drafts.Keys))
  }

  /** A store with nothing on screen. */
  function Closed(t: Tables, checked: set<Payload>, confirmed: set<Payload>, deleted: set<DraftId>): Sync {
    Sync(t, map[], {}, map[], map[], {}, {}, Idle, Idle, {}, checked, confirmed, deleted, {})
  }

  function Run(s: Sync, actions: seq<Action>): Sync {
    if actions == [] then s else Next(Run(s, actions[..|actions| - 1]), actions[|actions| - 1])
  }

  ghost predicate StoreInv(t: Tables) {
    t.SnapshotsValid() && t.DraftsValid()
  }

  /** A store opened with nothing on screen; what earlier processes published is in it. */
  ghost predicate Opened(s: Sync) {
    StoreInv(s.t) && EvidenceInv(s) && s == Closed(s.t, s.checked, s.confirmed, s.deleted)
  }

  /**
   Unless the row was deleted, a text that was found stored is still there or was replaced by a later
   version, and once its publication is confirmed it is published.
   */
  ghost predicate EvidenceInv(s: Sync) {
    && s.confirmed <= s.checked
    && forall p :: p in s.checked ==> forall i :: 0 <= i < |p.comments| ==> Evident(s, p, p.comments[i])
  }

  ghost predicate Evident(s: Sync, p: Payload, c: PreparedComment) {
    c.draft !in s.deleted ==>
      && c.draft in s.t.drafts && c.version <= s.t.drafts[c.draft].version
      && (c.version == s.t.drafts[c.draft].version ==>
            c.body == s.t.drafts[c.draft].body && (p in s.confirmed ==> s.t.drafts[c.draft].published))
  }

  // ----- what every action keeps -----

  ghost predicate Live(s: Sync, id: DraftId) {
    id in s.ui && id !in s.gone && id !in s.stale
  }

  /** The screen is never behind the store or behind a write the store would take. */
  ghost predicate ShownInv(s: Sync, id: DraftId)
    requires id in s.ui
  {
    var shown := s.ui[id];
    && shown.id == id && shown.savedVersion <= shown.version
    && (shown.savedVersion > 0 || shown.IsSaved() ==> ReachedStore(s, id, shown.savedVersion))
    && (id in s.t.drafts ==> NotNewer(s.t.drafts[id], shown))
    && (id in s.answers && s.answers[id] <= shown.version ==> ReachedStore(s, id, s.answers[id]))
    && forall d :: d in s.saves && d.id == id ==> NotNewer(d, shown) || Refused(s.t, d)
  }

  ghost predicate ReachedStore(s: Sync, id: DraftId, version: nat) {
    id in s.t.drafts && version <= s.t.drafts[id].version
  }

  /** A write over a stored row that the store refuses. */
  ghost predicate Refused(t: Tables, d: Draft) {
    d.id in t.drafts && t.SaveError(d).Some?
  }

  ghost predicate RowsInv(rows: map<DraftId, Draft>) {
    forall id :: id in rows ==> rows[id].id == id && rows[id].IsSaved()
  }

  ghost predicate ScreenInv(s: Sync) {
    forall id :: id in s.ui ==> s.ui[id].id == id && (Live(s, id) ==> ShownInv(s, id))
  }

  ghost predicate Inv(s: Sync) {
    StoreInv(s.t) && RowsInv(s.opening.Rows()) && RowsInv(s.offered.Rows()) && ScreenInv(s)
  }

  lemma {:induction false} OpenedIsValid(s: Sync)
    requires Opened(s)
    ensures Inv(s)
  {
  }

  // Each transaction keeps the rows valid.

  lemma {:induction false} SaveKeepsStore(t: Tables, d: Draft)
    requires StoreInv(t)
    ensures StoreInv(t.SaveDraft(d).0)
  {
    var u := t.SaveDraft(d).0;
    if t.SaveError(d).None? {
      assert t.snapshots[d.snapshot].snapshot.patch == d.snapshot.of;
      assert u.DraftValid(d.id);
      assert forall id :: id in t.drafts && id != d.id ==> t.DraftValid(id) ==> u.DraftValid(id);
    }
  }

  lemma {:induction false} PutKeepsStore(t: Tables, snapshot: Snapshot, now: nat, rowid: nat)
    requires StoreInv(t) && t.FreshRowid(rowid)
    ensures StoreInv(t.PutSnapshot(snapshot, now, rowid).0)
  {
    var u := t.PutSnapshot(snapshot, now, rowid).0;
    assert forall id :: id in t.drafts ==> t.DraftValid(id) ==> u.DraftValid(id);
  }

  lemma {:induction false} TouchKeepsStore(t: Tables, snapshot: SnapshotId, now: nat)
    requires StoreInv(t)
    ensures StoreInv(t.Touch(snapshot, now))
  {
    var u := t.Touch(snapshot, now);
    assert forall id :: id in t.drafts ==> t.DraftValid(id) ==> u.DraftValid(id);
  }

  lemma {:induction false} DiscardKeepsStore(t: Tables, id: DraftId, version: nat)
    requires StoreInv(t)
    ensures StoreInv(t.DiscardDraft(id, version).0)
  {
    var u := t.DiscardDraft(id, version).0;
    assert forall d :: d in u.drafts ==> t.DraftValid(d) ==> u.DraftValid(d);
  }

  lemma {:induction false} MarkKeepsStore(t: Tables, comments: seq<PreparedComment>)
    requires StoreInv(t)
    ensures StoreInv(t.(drafts := MarkPublished(t.drafts, comments)))
  {
    var u := t.(drafts := MarkPublished(t.drafts, comments));
    assert forall d :: d in u.drafts ==> t.DraftValid(d) ==> u.DraftValid(d);
  }

  lemma {:induction false} ReopenKeepsStore(t: Tables)
    requires StoreInv(t)
    ensures StoreInv(t.Recover().Prune(KEEP_RECENT))
  {
    var u := t.Recover().Prune(KEEP_RECENT);
    assert forall d :: d in u.drafts ==> t.DraftValid(d) ==> u.DraftValid(d);
  }

  lemma {:induction false} StoreKept(s: Sync, a: Action)
    requires StoreInv(s.t)
    ensures StoreInv(Next(s, a).t)
  {
    match a
    case RunSave(d) => SaveKeepsStore(s.t, d);
    case RunDiscard(id, version) => DiscardKeepsStore(s.t, id, version);
    case Confirm(p) => MarkKeepsStore(s.t, p.comments);
    case Put(snapshot, now, rowid) => if s.t.FreshRowid(rowid) { PutKeepsStore(s.t, snapshot, now, rowid); }
    case ReadRows(now) => if s.opening.Asked? { TouchKeepsStore(s.t, s.opening.snapshot, now); }
    case Restart => ReopenKeepsStore(s.t);
    case _ => OthersKeepStore(s, a);
  }

  lemma {:induction false} OthersKeepStore(s: Sync, a: Action)
    requires !a.RunSave? && !a.RunDiscard? && !a.Confirm? && !a.Put? && !a.ReadRows? && !a.Restart?
    ensures Next(s, a).t == s.t
  {
  }

  // What the store would refuse stays refused while the row is there.

  lemma {:induction false} SaveKeepsRefusal(t: Tables, e: Draft, d: Draft)
    requires t.SaveError(e).None? && Refused(t, d)
    ensures Refused(t.SaveDraft(e).0, d)
  {
  }

  lemma {:induction false} MarkKeepsRefusal(t: Tables, comments: seq<PreparedComment>, d: Draft)
    requires Refused(t, d)
    ensures Refused(t.(drafts := MarkPublished(t.drafts, comments)), d)
  {
  }

  lemma {:induction false} SnapshotsKeepRefusal(t: Tables, u: Tables, d: Draft)
    requires StoreInv(t) && u.SnapshotsValid() && u.drafts == t.drafts && t.snapshots.Keys <= u.snapshots.Keys
    requires Refused(t, d)
    ensures Refused(u, d)
  {
    assert t.DraftValid(d.id);
    if d.snapshot in t.snapshots {
      assert t.snapshots[d.snapshot].snapshot.patch == u.snapshots[d.snapshot].snapshot.patch;
    }
  }

  // What every action keeps of a draft on screen.

  ghost predicate SameRow(t: Tables, u: Tables, id: DraftId) {
    && (id in u.drafts <==> id in t.drafts)
    && (id in t.drafts ==> u.drafts[id].version == t.drafts[id].version && u.drafts[id].body == t.drafts[id].body)
  }

  lemma {:induction false} ShownKept(s: Sync, v: Sync, id: DraftId)
    requires id in s.ui && id in v.ui && ShownInv(s, id)
    requires v.ui[id] == s.ui[id] || v.ui[id] == s.ui[id].(published := true)
    requires SameRow(s.t, v.t, id)
    requires id in v.answers ==> id in s.answers && v.answers[id] == s.answers[id]
    requires forall d :: d in v.saves && d.id == id ==> d in s.saves && (Refused(s.t, d) ==> Refused(v.t, d))
    ensures ShownInv(v, id)
  {
  }

  /** A new text is newer than all that is stored or under way; saving it again changes nothing. */
  lemma {:induction false} SavingKeepsShown(s: Sync, d: Draft, id: DraftId)
    requires id in s.ui && s.ui[id].id == id && ShownInv(s, id)
    requires d == s.ui[id] || (d.id == id && EditDraft(s.ui[id], d.body) == Changed(d))
    ensures ShownInv(Saving(s, d), id)
  {
  }

  lemma {:induction false} CreatedIsShown(s: Sync, d: Draft)
    requires Fresh(s, d.id) && d.version == 1 && d.savedVersion == 0
    ensures ShownInv(Saving(s, d), d.id)
  {
  }

  lemma {:induction false} SavingOtherKeepsShown(s: Sync, d: Draft, id: DraftId)
    requires id in s.ui && id != d.id && ShownInv(s, id)
    ensures ShownInv(Saving(s, d), id)
  {
    ShownKept(s, Saving(s, d), id);
  }

  lemma {:induction false} RunSaveKeepsShown(s: Sync, d: Draft, id: DraftId)
    requires id in s.ui && ShownInv(s, id)
    ensures ShownInv(Next(s, RunSave(d)), id)
  {
    var v := Next(s, RunSave(d));
    if v != s {
      if d.id != id {
        assert forall e :: e in s.saves && e.id == id && Refused(s.t, e) ==> Refused(v.t, e);
        ShownKept(s, v, id);
      } else {
        assert NotNewer(d, s.ui[id]);
        forall e | e in s.saves && e.id == id && Refused(s.t, e) ensures Refused(v.t, e) {
          SaveKeepsRefusal(s.t, d, e);
        }
      }
    }
  }

  lemma {:induction false} DeliverKeepsShown(s: Sync, heard: DraftId, id: DraftId)
    requires id in s.ui && ShownInv(s, id)
    ensures ShownInv(Next(s, Deliver(heard)), id)
  {
    if heard != id { ShownKept(s, Next(s, Deliver(heard)), id); }
  }

  lemma {:induction false} RunDiscardKeepsShown(s: Sync, other: DraftId, version: nat, id: DraftId)
    requires id in s.ui && ShownInv(s, id)
    ensures var v := Next(s, RunDiscard(other, version)); id in v.gone || ShownInv(v, id)
  {
    var v := Next(s, RunDiscard(other, version));
    if v != s && other != id {
      assert forall e :: e in s.saves && e.id == id && Refused(s.t, e) ==> Refused(v.t, e);
      ShownKept(s, v, id);
    }
  }

  lemma {:induction false} ConfirmKeepsShown(s: Sync, p: Payload, id: DraftId)
    requires id in s.ui && ShownInv(s, id)
    ensures ShownInv(Next(s, Confirm(p)), id)
  {
    var v := Next(s, Confirm(p));
    forall e | e in s.saves && e.id == id && Refused(s.t, e) ensures Refused(v.t, e) {
      MarkKeepsRefusal(s.t, p.comments, e);
    }
    ShownKept(s, v, id);
  }

  lemma {:induction false} SnapshotsKeepShown(s: Sync, v: Sync, id: DraftId)
    requires StoreInv(s.t) && id in s.ui && ShownInv(s, id)
    requires v.ui == s.ui && v.saves == s.saves && v.answers == s.answers
    requires v.t.SnapshotsValid() && v.t.drafts == s.t.drafts && s.t.snapshots.Keys <= v.t.snapshots.Keys
    ensures ShownInv(v, id)
  {
    forall e | e in s.saves && e.id == id && Refused(s.t, e) ensures Refused(v.t, e) {
      SnapshotsKeepRefusal(s.t, v.t, e);
    }
    ShownKept(s, v, id);
  }

  lemma {:induction false} CurrentIsShown(s: Sync, rows: map<DraftId, Draft>, id: DraftId)
    requires RowsInv(rows) && id in rows && Current(s, rows[id])
    ensures ShownInv(PutOnScreen(s, rows), id)
  {
  }

  // The same for the whole screen.

  lemma {:induction false} SavingKeepsScreen(s: Sync, d: Draft)
    requires ScreenInv(s)
    requires
      || (d.id in s.ui && d == s.ui[d.id])
      || (d.id in s.ui && EditDraft(s.ui[d.id], d.body) == Changed(d))
      || (Fresh(s, d.id) && d.version == 1 && d.savedVersion == 0)
    ensures ScreenInv(Saving(s, d))
  {
    var v := Saving(s, d);
    forall id | id in v.ui && Live(v, id) ensures ShownInv(v, id) {
      if id != d.id {
        SavingOtherKeepsShown(s, d, id);
      } else if d.id in s.ui {
        SavingKeepsShown(s, d, id);
      } else {
        CreatedIsShown(s, d);
      }
    }
  }

  lemma {:induction false} RunSaveKeepsScreen(s: Sync, d: Draft)
    requires ScreenInv(s)
    ensures ScreenInv(Next(s, RunSave(d)))
  {
    forall id | Live(s, id) ensures ShownInv(Next(s, RunSave(d)), id) {
      RunSaveKeepsShown(s, d, id);
    }
  }

  lemma {:induction false} DeliverKeepsScreen(s: Sync, heard: DraftId)
    requires ScreenInv(s)
    ensures ScreenInv(Next(s, Deliver(heard)))
  {
    forall id | Live(s, id) ensures ShownInv(Next(s, Deliver(heard)), id) {
      DeliverKeepsShown(s, heard, id);
    }
  }

  lemma {:induction false} RunDiscardKeepsScreen(s: Sync, other: DraftId, version: nat)
    requires ScreenInv(s)
    ensures ScreenInv(Next(s, RunDiscard(other, version)))
  {
    var v := Next(s, RunDiscard(other, version));
    forall id | Live(v, id) ensures ShownInv(v, id) {
      RunDiscardKeepsShown(s, other, version, id);
    }
  }

  lemma {:induction false} ConfirmKeepsScreen(s: Sync, p: Payload)
    requires ScreenInv(s)
    ensures ScreenInv(Next(s, Confirm(p)))
  {
    forall id | Live(s, id) ensures ShownInv(Next(s, Confirm(p)), id) {
      ConfirmKeepsShown(s, p, id);
    }
  }

  lemma {:induction false} SnapshotsKeepScreen(s: Sync, v: Sync)
    requires StoreInv(s.t) && ScreenInv(s)
    requires v.ui == s.ui && v.saves == s.saves && v.answers == s.answers && v.gone == s.gone && v.stale == s.stale
    requires v.t.SnapshotsValid() && v.t.drafts == s.t.drafts && s.t.snapshots.Keys <= v.t.snapshots.Keys
    ensures ScreenInv(v)
  {
    forall id | Live(s, id) ensures ShownInv(v, id) {
      SnapshotsKeepShown(s, v, id);
    }
  }

  lemma {:induction false} PutKeepsScreen(s: Sync, snapshot: Snapshot, now: nat, rowid: nat)
    requires Inv(s)
    ensures ScreenInv(Next(s, Put(snapshot, now, rowid)))
  {
    if s.t.FreshRowid(rowid) {
      PutKeepsStore(s.t, snapshot, now, rowid);
      SnapshotsKeepScreen(s, Next(s, Put(snapshot, now, rowid)));
    }
  }

  lemma {:induction false} ReadKeepsScreen(s: Sync, now: nat)
    requires Inv(s)
    ensures ScreenInv(Next(s, ReadRows(now)))
  {
    if s.opening.Asked? {
      TouchKeepsStore(s.t, s.opening.snapshot, now);
      SnapshotsKeepScreen(s, Next(s, ReadRows(now)));
    }
  }

  lemma {:induction false} QueueKeepsScreen(s: Sync, v: Sync)
    requires ScreenInv(s) && v.t == s.t && v.stale == s.stale && v.answers == s.answers && v.saves <= s.saves
    requires v.ui.Keys <= s.ui.Keys && s.gone - v.gone !! v.ui.Keys
    requires forall id :: id in v.ui ==> v.ui[id] == s.ui[id] || v.ui[id] == s.ui[id].(published := true)
    ensures ScreenInv(v)
  {
    forall id | Live(v, id) ensures ShownInv(v, id) {
      assert id !in s.gone - v.gone;
      ShownKept(s, v, id);
    }
  }

  lemma {:induction false} RowsKeepScreen(s: Sync, rows: map<DraftId, Draft>)
    requires RowsInv(rows)
    ensures ScreenInv(PutOnScreen(s, rows))
  {
    var v := PutOnScreen(s, rows);
    forall id | id in v.ui && Live(v, id) ensures ShownInv(v, id) {
      CurrentIsShown(s, rows, id);
    }
  }

  lemma {:induction false} TypingKeepsScreen(s: Sync, a: Action)
    requires ScreenInv(s) && (a.Create? || a.Type? || a.Retry?)
    ensures ScreenInv(Next(s, a))
  {
    if Next(s, a) != s {
      match a
      case Create(d, text) => SavingKeepsScreen(s, EditDraft(d, text).draft);
      case Type(id, text) => SavingKeepsScreen(s, EditDraft(s.ui[id], text).draft);
      case Retry(id) => SavingKeepsScreen(s, s.ui[id]);
    }
  }

  lemma {:induction false} QueueStepKeepsScreen(s: Sync, a: Action)
    requires ScreenInv(s)
    requires a.DropSave? || a.AskDiscard? || a.EndDiscard? || a.ShowPublished? || a.Check? || a.Open? || a.Offer?
    ensures ScreenInv(Next(s, a))
  {
    QueueKeepsScreen(s, Next(s, a));
  }

  lemma {:induction false} RowsStepKeepsScreen(s: Sync, a: Action)
    requires Inv(s) && (a.Install? || a.Accept?)
    ensures ScreenInv(Next(s, a))
  {
    RowsKeepScreen(s, s.opening.Rows());
    RowsKeepScreen(s, s.offered.Rows());
  }

  lemma {:induction false} NextKeepsScreen(s: Sync, a: Action)
    requires Inv(s)
    ensures ScreenInv(Next(s, a))
  {
    match a
    case RunSave(d) => RunSaveKeepsScreen(s, d);
    case Deliver(heard) => DeliverKeepsScreen(s, heard);
    case RunDiscard(other, version) => RunDiscardKeepsScreen(s, other, version);
    case Confirm(p) => ConfirmKeepsScreen(s, p);
    case Put(snapshot, now, rowid) => PutKeepsScreen(s, snapshot, now, rowid);
    case ReadRows(now) => ReadKeepsScreen(s, now);
    case Restart =>
    case _ =>
      if a.Create? || a.Type? || a.Retry? {
        TypingKeepsScreen(s, a);
      } else if a.Install? || a.Accept? {
        RowsStepKeepsScreen(s, a);
      } else {
        QueueStepKeepsScreen(s, a);
      }
  }

  lemma {:induction false} RowsKept(s: Sync, a: Action)
    requires StoreInv(s.t) && RowsInv(s.opening.Rows()) && RowsInv(s.offered.Rows())
    ensures RowsInv(Next(s, a).opening.Rows()) && RowsInv(Next(s, a).offered.Rows())
  {
    if a.ReadRows? && s.opening.Asked? {
      TouchKeepsStore(s.t, s.opening.snapshot, a.now);
      StoredRowsAreRows(s.t.Touch(s.opening.snapshot, a.now), s.opening.snapshot);
    }
  }

  lemma {:induction false} StoredRowsAreRows(t: Tables, snapshot: SnapshotId)
    requires StoreInv(t)
    ensures RowsInv(StoredRows(t, snapshot))
  {
    assert forall id :: id in StoredRows(t, snapshot) ==> t.DraftValid(id);
  }

  lemma {:induction false} NextKeepsInv(s: Sync, a: Action)
    requires Inv(s)
    ensures Inv(Next(s, a))
  {
    StoreKept(s, a);
    RowsKept(s, a);
    NextKeepsScreen(s, a);
  }

  lemma {:induction false} RunKeepsInv(s: Sync, actions: seq<Action>)
    requires Inv(s)
    ensures Inv(Run(s, actions))
  {
    if actions != [] {
      RunKeepsInv(s, actions[..|actions| - 1]);
      NextKeepsInv(Run(s, actions[..|actions| - 1]), actions[|actions| - 1]);
    }
  }

  // ----- what the window shows -----

  ghost predicate StoredAsShown(s: Sync, id: DraftId)
    requires id in s.ui
  {
    id in s.t.drafts && s.t.drafts[id].version == s.ui[id].version && s.t.drafts[id].body == s.ui[id].body
  }

  /** Unless the window has yet to hear that a discard deleted it, a draft shown as saved is stored. */
  ghost predicate Agrees(s: Sync, id: DraftId) {
    id in s.ui && s.ui[id].IsSaved() && id !in s.gone ==> StoredAsShown(s, id)
  }

  /**
   Whatever order saves, answers, discards and openings take effect in: a draft that the window
   shows as saved is stored with exactly its version and its text, unless it had been overtaken when
   it was put on screen.
   */
  lemma {:induction false} ShownAsSavedIsStored(s: Sync, actions: seq<Action>, id: DraftId)
    requires Opened(s) && id !in Run(s, actions).stale
    ensures Agrees(Run(s, actions), id)
  {
    OpenedIsValid(s);
    RunKeepsInv(s, actions);
  }

  predicate ChangesScreen(a: Action) {
    a.Install? || a.Accept?
  }

  predicate KeepsScreen(actions: seq<Action>) {
    forall i :: 0 <= i < |actions| ==> !ChangesScreen(actions[i])
  }

  lemma {:induction false} StaleIsSetOnScreen(s: Sync, actions: seq<Action>)
    requires KeepsScreen(actions)
    ensures Run(s, actions).stale <= s.stale
  {
    if actions != [] {
      var last := actions[|actions| - 1];
      assert !ChangesScreen(last);
      StaleIsSetOnScreen(s, actions[..|actions| - 1]);
    }
  }

  /** The rows that an action puts on screen. */
  function Incoming(s: Sync, a: Action): map<DraftId, Draft> {
    if a.Install? then s.opening.Rows()
    else if a.Accept? && AllSaved(s) then s.offered.Rows()
    else map[]
  }

  /** A draft that was overtaken is shown as saved while the store has, or soon takes, another text. */
  lemma {:induction false} OvertakenDisagrees(s: Sync, a: Action, id: DraftId)
    requires Inv(s) && id in Incoming(s, a) && id !in s.gone && !Current(s, Incoming(s, a)[id])
    ensures exists later :: KeepsScreen(later) && !Agrees(Run(Next(s, a), later), id)
  {
    var v, row := Next(s, a), Incoming(s, a)[id];
    if id in s.t.drafts && s.t.drafts[id].version == row.version && s.t.drafts[id].body == row.body {
      var d :| d in s.saves && d.id == id && !NotNewer(d, row) && s.t.SaveError(d).None?;
      var later := [RunSave(d)];
      assert later[..0] == [];
      assert Run(v, later) == Next(v, RunSave(d));
      assert KeepsScreen(later) && !Agrees(Run(v, later), id);
    } else {
      assert Run(v, []) == v;
      assert KeepsScreen([]) && !Agrees(Run(v, []), id);
    }
  }

  /**
   Rows are put on screen some time after they were read. A draft among them agrees with the store,
   from then on and whatever happens, exactly if its row is still the stored one and no write of a
   later text that the store would take is under way.
   */
  lemma {:induction false} InstalledAgreesExactly(s: Sync, actions: seq<Action>, a: Action, id: DraftId)
    requires Opened(s)
    requires id in Incoming(Run(s, actions), a) && id !in Run(s, actions).gone
    ensures var v := Run(s, actions);
      Current(v, Incoming(v, a)[id]) <==>
      forall later :: KeepsScreen(later) ==> Agrees(Run(Next(v, a), later), id)
  {
    var v := Run(s, actions);
    OpenedIsValid(s);
    RunKeepsInv(s, actions);
    if Current(v, Incoming(v, a)[id]) {
      forall later | KeepsScreen(later) ensures Agrees(Run(Next(v, a), later), id) {
        NextKeepsInv(v, a);
        RunKeepsInv(Next(v, a), later);
        StaleIsSetOnScreen(Next(v, a), later);
      }
    } else {
      OvertakenDisagrees(v, a, id);
    }
  }

  /** Open the review of a stored draft. */
  function OpenReview(stored: Draft, now: nat): seq<Action> {
    [Open(stored.snapshot), ReadRows(now), Install]
  }

  /** Open it again, and type before the answer is shown. */
  function TypeWhileOpening(stored: Draft, edited: Draft, now: nat): seq<Action> {
    [Open(stored.snapshot), ReadRows(now), Type(stored.id, edited.body), Install, RunSave(edited)]
  }

  function Edited(d: Draft, text: string): Draft {
    d.(body := text, version := d.version + 1)
  }

  lemma {:induction false} RunSplit(s: Sync, first: seq<Action>, second: seq<Action>)
    ensures Run(s, first + second) == Run(Run(s, first), second)
  {
    if second == [] {
      assert first + second == first;
    } else {
      var n := |second| - 1;
      RunSplit(s, first, second[..n]);
      RunThen(s, first + second[..n], second[n]);
      assert first + second == first + second[..n] + [second[n]];
    }
  }

  lemma {:induction false} RunThen(s: Sync, actions: seq<Action>, a: Action)
    ensures Run(s, actions + [a]) == Next(Run(s, actions), a)
  {
    assert (actions + [a])[..|actions|] == actions;
  }

  lemma {:induction false} RunOne(s: Sync, a: Action)
    ensures Run(s, [a]) == Next(s, a)
  {
    assert [a][..0] == [];
  }

  lemma {:induction false} RunTwo(s: Sync, a: Action, b: Action)
    ensures Run(s, [a, b]) == Next(Next(s, a), b)
  {
    assert [a, b] == [a] + [b];
    RunSplit(s, [a], [b]);
    RunOne(s, a);
    RunOne(Next(s, a), b);
  }

  lemma {:induction false} AskedRows(s: Sync, snapshot: SnapshotId, now: nat)
    requires AllSaved(s)
    ensures var t := s.t.Touch(snapshot, now);
      Run(s, [Open(snapshot), ReadRows(now)]) == s.(t := t, opening := Answered(StoredRows(t, snapshot)))
  {
    RunTwo(s, Open(snapshot), ReadRows(now));
  }

  lemma {:induction false} OpeningShowsRows(s: Sync, stored: Draft, now: nat)
    requires AllSaved(s)
    ensures var v := Run(s, OpenReview(stored, now));
      && v.ui == StoredRows(s.t, stored.snapshot) && v.t == s.t.Touch(stored.snapshot, now)
      && v.gone == s.gone && v.saves == s.saves && v.checked == s.checked && v.stale == Overtaken(v, v.ui)
  {
    var asked := [Open(stored.snapshot), ReadRows(now)];
    assert OpenReview(stored, now) == asked + [Install];
    RunSplit(s, asked, [Install]);
    AskedRows(s, stored.snapshot, now);
    RunOne(Run(s, asked), Install);
  }

  /** Typing takes effect, and the answer undoes it on screen but not in the writes under way. */
  lemma {:induction false} TypedThenInstalled(s: Sync, edited: Draft)
    requires s.opening.Answered? && edited.id in s.ui && EditDraft(s.ui[edited.id], edited.body) == Changed(edited)
    ensures var v := Run(s, [Type(edited.id, edited.body), Install]);
      v.ui == s.opening.rows && v.gone == s.gone && v.t == s.t && edited in v.saves
  {
    RunTwo(s, Type(edited.id, edited.body), Install);
  }

  /** The state just before the save runs: the rows are back on screen, the save is under way. */
  lemma {:induction false} TypingIsUndone(s: Sync, stored: Draft, edited: Draft, now: nat) returns (v: Sync)
    requires AllSaved(s) && s.ui == StoredRows(s.t, stored.snapshot) && stored.id in s.ui && s.ui[stored.id] == stored
    requires EditDraft(stored, edited.body) == Changed(edited)
    ensures Run(s, TypeWhileOpening(stored, edited, now)) == Next(v, RunSave(edited))
    ensures v.ui == s.ui && v.gone == s.gone && edited in v.saves && v.t == s.t.Touch(stored.snapshot, now)
  {
    var asked, typed := [Open(stored.snapshot), ReadRows(now)], [Type(edited.id, edited.body), Install];
    AskedRows(s, stored.snapshot, now);
    TypedThenInstalled(Run(s, asked), edited);
    v := Run(Run(s, asked), typed);
    RunSplit(s, asked, typed);
    RunSplit(s, asked + typed, [RunSave(edited)]);
    RunOne(v, RunSave(edited));
    assert TypeWhileOpening(stored, edited, now) == asked + typed + [RunSave(edited)];
  }

  lemma {:induction false} EditedIsTaken(t: Tables, id: DraftId, text: string, now: nat)
    requires StoreInv(t) && id in t.drafts && !t.drafts[id].published
    requires t.drafts[id].version < I64_MAX && |text| <= MAX_BODY
    ensures t.Touch(t.drafts[id].snapshot, now).SaveError(Edited(t.drafts[id], text)).None?
  {
    assert t.DraftValid(id);
  }

  /**
   A run in which the window ends up showing the old text as saved while the store holds the new
   one: the review is open, it is opened again, and the text typed after its rows were read is
   replaced by them before the save runs.
   */
  lemma {:induction false} TypingWhileOpeningDisagrees(s: Sync, id: DraftId, text: string, now: nat)
    requires Opened(s) && id in s.t.drafts && !s.t.drafts[id].published
    requires s.t.drafts[id].version < I64_MAX && text != s.t.drafts[id].body && |text| <= MAX_BODY
    ensures var stored := s.t.drafts[id];
      var v := Run(Run(s, OpenReview(stored, now)), TypeWhileOpening(stored, Edited(stored, text), now));
      && id in v.ui && v.ui[id].IsSaved() && id !in v.gone && v.ui[id] == stored
      && id in v.t.drafts && v.t.drafts[id].version == stored.version + 1 && v.t.drafts[id].body == text
  {
    var stored := s.t.drafts[id];
    var open := Run(s, OpenReview(stored, now));
    OpenedIsValid(s);
    OpeningShowsRows(s, stored, now);
    RunKeepsInv(s, OpenReview(stored, now));
    assert s.t.DraftValid(id);
    EditedIsTaken(open.t, id, text, now);
    var v := TypingIsUndone(open, stored, Edited(stored, text), now);
  }

  // ----- what the window comes to when nothing gets in its way -----

  /** A text that the store takes is stored, and shown as saved once the answer is heard. */
  lemma {:induction false} TypedIsSaved(s: Sync, id: DraftId, text: string)
    requires id in s.ui && s.ui[id].id == id && !s.ui[id].published && s.ui[id].body != text
    requires s.ui[id].savedVersion <= s.ui[id].version < U64_MAX && s.t.SaveError(Edited(s.ui[id], text)).None?
    ensures var v, was := Run(s, [Type(id, text), RunSave(Edited(s.ui[id], text))] + [Deliver(id)]), s.ui[id];
      var now := was.(body := text, version := was.version + 1, savedVersion := was.version + 1);
      v.ui == s.ui[id := now] && v.t == s.t.(drafts := s.t.drafts[id := now])
  {
    var d := Edited(s.ui[id], text);
    RunTwo(s, Type(id, text), RunSave(d));
    RunSplit(s, [Type(id, text), RunSave(d)], [Deliver(id)]);
    var v := TypedIsStored(s, id, text);
    RunOne(v, Deliver(id));
    assert s.ui[id := d][id := d.(savedVersion := d.version)] == s.ui[id := d.(savedVersion := d.version)];
  }

  lemma {:induction false} TypedIsStored(s: Sync, id: DraftId, text: string) returns (v: Sync)
    requires id in s.ui && s.ui[id].id == id && !s.ui[id].published && s.ui[id].body != text
    requires s.ui[id].version < U64_MAX && s.t.SaveError(Edited(s.ui[id], text)).None?
    ensures var d := Edited(s.ui[id], text);
      && v == Next(Next(s, Type(id, text)), RunSave(d))
      && v.ui == s.ui[id := d] && v.t == s.t.(drafts := s.t.drafts[id := d.(savedVersion := d.version)])
      && id in v.answers && v.answers[id] == d.version
  {
    var d := Edited(s.ui[id], text);
    var typed := Next(s, Type(id, text));
    assert typed == Saving(s, d);
    v := Next(typed, RunSave(d));
  }

  /** An opening shows the stored rows of its snapshot, at once or after a new revision was offered. */
  lemma {:induction false} OpenedIsShown(s: Sync, snapshot: SnapshotId, now: nat, offered: bool)
    requires AllSaved(s)
    ensures var rest := if offered then [Offer, Accept] else [Install];
      var v := Run(s, [Open(snapshot), ReadRows(now)] + rest);
      && (forall id :: id in v.ui <==> id in s.t.drafts && s.t.drafts[id].snapshot == snapshot)
      && (forall id :: id in v.ui ==> v.ui[id] == s.t.drafts[id])
      && v.t.drafts == s.t.drafts
  {
    AskedRows(s, snapshot, now);
    var asked := Run(s, [Open(snapshot), ReadRows(now)]);
    AnswerIsShown(asked, offered);
    RunSplit(s, [Open(snapshot), ReadRows(now)], if offered then [Offer, Accept] else [Install]);
  }

  lemma {:induction false} AnswerIsShown(s: Sync, offered: bool)
    requires s.opening.Answered? && AllSaved(s)
    ensures var v := Run(s, if offered then [Offer, Accept] else [Install]);
      v.ui == s.opening.rows && v.t == s.t
  {
    if offered {
      RunTwo(s, Offer, Accept);
    } else {
      RunOne(s, Install);
    }
  }
}

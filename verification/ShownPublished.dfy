/**
 The drafts that the window shows as published (`mark_confirmed_drafts_published` in
 crates/ui/src/app/review_flow.rs) and the rows the store marked when it confirmed the
 publication (crates/adapters/src/store.rs). The window compares versions only.
 */
module ShownPublished {
  import opened Wrappers
  import opened Review
  import opened Tables
  import opened Session
  import Outbox

  /** The row is published with the version and the text of `d`. */
  ghost predicate PublishedAs(t: Tables, id: DraftId, d: Draft) {
    PublishedRow(t, id, d.version) && t.drafts[id].body == d.body
  }

  /** Published rows were read from the store, which never changes them. */
  ghost predicate ReadInv(t: Tables, rows: map<DraftId, Draft>) {
    forall id :: id in rows && rows[id].published ==> PublishedAs(t, id, rows[id])
  }

  ghost predicate HistoryInv(s: Sync) {
    EvidenceInv(s) && s.gone <= s.deleted && s.misled <= s.deleted + s.stale
  }

  ghost predicate MarkedInv(s: Sync) {
    forall id :: Live(s, id) && id !in s.misled && s.ui[id].published ==> PublishedAs(s.t, id, s.ui[id])
  }

  ghost predicate MarksInv(s: Sync) {
    && HistoryInv(s) && MarkedInv(s)
    && ReadInv(s.t, s.opening.Rows()) && ReadInv(s.t, s.offered.Rows())
  }

  // ----- what transactions keep of the rows -----

  /** Rows that are not deleted only get later versions, and published ones stay. */
  ghost predicate Grows(t: Tables, u: Tables, deleted: set<DraftId>) {
    forall id :: id in t.drafts && id !in deleted ==> RowGrows(t, u, id)
  }

  ghost predicate RowGrows(t: Tables, u: Tables, id: DraftId)
    requires id in t.drafts
  {
    && id in u.drafts && NotNewer(t.drafts[id], u.drafts[id])
    && (t.drafts[id].published ==> PublishedAs(u, id, t.drafts[id]))
  }

  ghost predicate KeepsPublished(t: Tables, u: Tables) {
    forall id :: id in t.drafts && t.drafts[id].published ==> PublishedAs(u, id, t.drafts[id])
  }

  ghost predicate StepGrows(s: Sync, v: Sync) {
    Grows(s.t, v.t, v.deleted) && s.deleted <= v.deleted
  }

  lemma {:induction false} RunSaveGrows(s: Sync, d: Draft)
    requires StoreInv(s.t)
    ensures var v := Next(s, RunSave(d)); StepGrows(s, v) && KeepsPublished(s.t, v.t)
  {
    forall id | id in s.t.drafts ensures RowGrows(s.t, Next(s, RunSave(d)).t, id) {
      assert s.t.DraftValid(id);
    }
  }

  lemma {:induction false} ConfirmGrows(s: Sync, p: Payload)
    requires StoreInv(s.t)
    ensures var v := Next(s, Confirm(p)); StepGrows(s, v) && KeepsPublished(s.t, v.t)
  {
    forall id | id in s.t.drafts ensures RowGrows(s.t, Next(s, Confirm(p)).t, id) {
      assert s.t.DraftValid(id);
    }
  }

  lemma {:induction false} RunDiscardGrows(s: Sync, gone: DraftId, version: nat)
    requires StoreInv(s.t)
    ensures var v := Next(s, RunDiscard(gone, version)); StepGrows(s, v) && KeepsPublished(s.t, v.t)
  {
    var v := Next(s, RunDiscard(gone, version));
    forall id | id in s.t.drafts && (id !in v.deleted || s.t.drafts[id].published) ensures RowGrows(s.t, v.t, id) {
      assert s.t.DraftValid(id);
    }
  }

  lemma {:induction false} RestartGrows(s: Sync)
    requires StoreInv(s.t)
    ensures StepGrows(s, Next(s, Restart))
  {
    var v := Next(s, Restart);
    forall id | id in s.t.drafts && id !in v.deleted ensures RowGrows(s.t, v.t, id) {
      assert id !in s.t.drafts.Keys - v.t.drafts.Keys;
    }
  }

  lemma {:induction false} OthersKeepRows(s: Sync, a: Action)
    requires !a.RunSave? && !a.RunDiscard? && !a.Confirm? && !a.Restart?
    ensures Next(s, a).t.drafts == s.t.drafts && Next(s, a).deleted == s.deleted
  {
  }

  lemma {:induction false} SameRowsGrow(s: Sync, v: Sync)
    requires v.t.drafts == s.t.drafts && v.deleted == s.deleted
    ensures StepGrows(s, v) && KeepsPublished(s.t, v.t)
  {
    forall id | id in s.t.drafts ensures RowGrows(s.t, v.t, id) {}
  }

  lemma {:induction false} NextGrows(s: Sync, a: Action)
    requires StoreInv(s.t)
    ensures StepGrows(s, Next(s, a))
    ensures !a.Restart? ==> KeepsPublished(s.t, Next(s, a).t)
  {
    match a
    case RunSave(d) => RunSaveGrows(s, d);
    case RunDiscard(id, version) => RunDiscardGrows(s, id, version);
    case Confirm(p) => ConfirmGrows(s, p);
    case Restart => RestartGrows(s);
    case _ =>
      OthersKeepRows(s, a);
      SameRowsGrow(s, Next(s, a));
  }

  // ----- what every action keeps -----

  lemma {:induction false} EvidentStays(s: Sync, v: Sync, p: Payload, c: PreparedComment)
    requires Evident(s, p, c) && StepGrows(s, v)
    requires p in v.confirmed ==> p in s.confirmed
    ensures Evident(v, p, c)
  {
    if c.draft !in v.deleted {
      assert RowGrows(s.t, v.t, c.draft);
    }
  }

  lemma {:induction false} EvidenceKept(s: Sync, v: Sync)
    requires EvidenceInv(s) && StepGrows(s, v)
    requires v.checked == s.checked && v.confirmed == s.confirmed
    ensures EvidenceInv(v)
  {
    forall p, i | p in v.checked && 0 <= i < |p.comments| ensures Evident(v, p, p.comments[i]) {
      EvidentStays(s, v, p, p.comments[i]);
    }
  }

  lemma {:induction false} CheckedIsEvident(s: Sync, p: Payload, i: nat)
    requires StoreInv(s.t) && Outbox.TextsAreStored(s.t, p) && i < |p.comments| && p !in s.confirmed
    ensures Evident(s, p, p.comments[i])
  {
    assert Outbox.TextIsStored(s.t, p.snapshot, p.comments[i]);
    var id :| id in s.t.drafts && Outbox.IsStoredText(s.t.drafts[id], p.snapshot, p.comments[i]);
    assert s.t.DraftValid(id);
  }

  lemma {:induction false} CheckKeepsEvidence(s: Sync, p: Payload)
    requires StoreInv(s.t) && EvidenceInv(s)
    ensures EvidenceInv(Next(s, Check(p)))
  {
    var v := Next(s, Check(p));
    if v != s && p !in s.checked {
      forall q, i | q in v.checked && 0 <= i < |q.comments| ensures Evident(v, q, q.comments[i]) {
        if q == p {
          CheckedIsEvident(v, p, i);
        } else {
          assert Evident(s, q, q.comments[i]);
        }
      }
    }
  }

  /** The transaction that confirms marks the rows that still hold the text. */
  lemma {:induction false} ConfirmedIsEvident(s: Sync, p: Payload, i: nat)
    requires StoreInv(s.t) && EvidenceInv(s) && p in s.checked && i < |p.comments|
    ensures Evident(Next(s, Confirm(p)), p, p.comments[i])
  {
    var c := p.comments[i];
    assert Evident(s, p, c);
    if c.draft !in s.deleted && c.version == s.t.drafts[c.draft].version {
      assert s.t.DraftValid(c.draft);
      assert IsTextOf(p.comments[i], s.t.drafts[c.draft]);
    }
  }

  lemma {:induction false} ConfirmKeepsEvidence(s: Sync, p: Payload)
    requires StoreInv(s.t) && EvidenceInv(s)
    ensures EvidenceInv(Next(s, Confirm(p)))
  {
    var v := Next(s, Confirm(p));
    if p in s.checked {
      ConfirmGrows(s, p);
      forall q, i | q in v.checked && 0 <= i < |q.comments| ensures Evident(v, q, q.comments[i]) {
        if q == p {
          ConfirmedIsEvident(s, p, i);
        } else {
          EvidentStays(s, v, q, q.comments[i]);
        }
      }
    }
  }

  lemma {:induction false} NextKeepsEvidence(s: Sync, a: Action)
    requires StoreInv(s.t) && EvidenceInv(s)
    ensures EvidenceInv(Next(s, a))
  {
    match a
    case Check(p) => CheckKeepsEvidence(s, p);
    case Confirm(p) => ConfirmKeepsEvidence(s, p);
    case _ => OthersKeepEvidence(s, a);
  }

  lemma {:induction false} OthersKeepEvidence(s: Sync, a: Action)
    requires StoreInv(s.t) && EvidenceInv(s) && !a.Check? && !a.Confirm?
    ensures EvidenceInv(Next(s, a))
  {
    NextGrows(s, a);
    OthersKeepRecords(s, a);
    EvidenceKept(s, Next(s, a));
  }

  lemma {:induction false} OthersKeepRecords(s: Sync, a: Action)
    requires !a.Check? && !a.Confirm?
    ensures Next(s, a).checked == s.checked && Next(s, a).confirmed == s.confirmed
  {
  }

  /** A draft on screen that is confirmed and whose row was never deleted is a published row. */
  lemma {:induction false} ConfirmedIsPublished(s: Sync, p: Payload, id: DraftId)
    requires Inv(s) && EvidenceInv(s) && p in s.confirmed
    requires Live(s, id) && IsMarked(s.ui[id], p) && id !in s.deleted
    ensures PublishedRow(s.t, id, s.ui[id].version)
  {
    assert ShownInv(s, id);
    var i :| 0 <= i < |p.comments| && IsVersionOf(p.comments[i], s.ui[id]);
    assert Evident(s, p, p.comments[i]);
  }

  lemma {:induction false} ShowKeepsHistory(s: Sync, p: Payload)
    requires Inv(s) && HistoryInv(s)
    ensures HistoryInv(Next(s, ShowPublished(p)))
  {
    if p in s.confirmed {
      forall id | id in Misled(s, p) ensures id in s.deleted + s.stale {
        if id !in s.deleted + s.stale {
          ConfirmedIsPublished(s, p, id);
        }
      }
    }
  }

  lemma {:induction false} NextKeepsHistory(s: Sync, a: Action)
    requires Inv(s) && HistoryInv(s)
    ensures HistoryInv(Next(s, a))
  {
    if a.ShowPublished? {
      ShowKeepsHistory(s, a.p);
    } else {
      NextKeepsEvidence(s, a);
      NextGrows(s, a);
    }
  }

  lemma {:induction false} ReadKept(t: Tables, u: Tables, rows: map<DraftId, Draft>)
    requires ReadInv(t, rows) && KeepsPublished(t, u)
    ensures ReadInv(u, rows)
  {
    forall id | id in rows && rows[id].published ensures PublishedAs(u, id, rows[id]) {
      assert PublishedAs(t, id, rows[id]);
      assert PublishedAs(u, id, t.drafts[id]);
    }
  }

  lemma {:induction false} StoredRowsAreStored(t: Tables, snapshot: SnapshotId)
    requires StoreInv(t)
    ensures ReadInv(t, StoredRows(t, snapshot))
  {
    var rows := StoredRows(t, snapshot);
    forall id | id in rows && rows[id].published ensures PublishedAs(t, id, rows[id]) {
      assert t.DraftValid(id);
    }
  }

  lemma {:induction false} ReadRowsKeepRead(s: Sync, now: nat)
    requires StoreInv(s.t) && ReadInv(s.t, s.opening.Rows()) && ReadInv(s.t, s.offered.Rows())
    ensures var v := Next(s, ReadRows(now)); ReadInv(v.t, v.opening.Rows()) && ReadInv(v.t, v.offered.Rows())
  {
    if s.opening.Asked? {
      StoreKept(s, ReadRows(now));
      StoredRowsAreStored(Next(s, ReadRows(now)).t, s.opening.snapshot);
    }
  }

  lemma {:induction false} OpeningsOnlyMove(s: Sync, a: Action)
    requires !a.ReadRows?
    ensures var v := Next(s, a);
      && v.opening.Rows() in {map[], s.opening.Rows()}
      && v.offered.Rows() in {map[], s.offered.Rows(), s.opening.Rows()}
  {
  }

  lemma {:induction false} NextKeepsRead(s: Sync, a: Action)
    requires Inv(s) && MarksInv(s)
    ensures ReadInv(Next(s, a).t, Next(s, a).opening.Rows()) && ReadInv(Next(s, a).t, Next(s, a).offered.Rows())
  {
    if a.ReadRows? {
      ReadRowsKeepRead(s, a.now);
    } else if !a.Restart? {
      NextGrows(s, a);
      OpeningsOnlyMove(s, a);
      ReadKept(s.t, Next(s, a).t, s.opening.Rows());
      ReadKept(s.t, Next(s, a).t, s.offered.Rows());
    }
  }

  /** A draft keeps its mark and its row. */
  lemma {:induction false} MarkedStays(s: Sync, v: Sync, id: DraftId)
    requires MarkedInv(s) && KeepsPublished(s.t, v.t) && Live(s, id) && id !in s.misled && id in v.ui
    requires v.ui[id].published ==> s.ui[id].published
    requires v.ui[id].id == s.ui[id].id && v.ui[id].version == s.ui[id].version && v.ui[id].body == s.ui[id].body
    ensures v.ui[id].published ==> PublishedAs(v.t, id, v.ui[id])
  {
    if v.ui[id].published {
      assert PublishedAs(s.t, id, s.ui[id]);
      assert PublishedAs(v.t, id, s.t.drafts[id]);
    }
  }

  lemma {:induction false} ShowKeepsMarked(s: Sync, p: Payload)
    requires Inv(s) && MarkedInv(s)
    ensures MarkedInv(Next(s, ShowPublished(p)))
  {
    var v := Next(s, ShowPublished(p));
    forall id | Live(v, id) && id !in v.misled && v.ui[id].published ensures PublishedAs(v.t, id, v.ui[id]) {
      assert Live(s, id) && ShownInv(s, id);
      if p in s.confirmed && IsMarked(s.ui[id], p) {
        assert id !in Misled(s, p);
      }
    }
  }

  lemma {:induction false} RowsKeepMarked(s: Sync, rows: map<DraftId, Draft>)
    requires RowsInv(rows) && ReadInv(s.t, rows)
    ensures MarkedInv(PutOnScreen(s, rows))
  {
  }

  /** The drafts whose text an action may change: typed text is never published. */
  lemma {:induction false} SavingKeepsMarked(s: Sync, d: Draft)
    requires MarkedInv(s) && (!d.published || (d.id in s.ui && d == s.ui[d.id]))
    ensures MarkedInv(Saving(s, d))
  {
    var v := Saving(s, d);
    forall id | Live(v, id) && id !in v.misled && v.ui[id].published ensures PublishedAs(v.t, id, v.ui[id]) {
      assert Live(s, id) && v.ui[id] == s.ui[id];
    }
  }

  lemma {:induction false} TypingKeepsMarked(s: Sync, a: Action)
    requires Inv(s) && MarkedInv(s) && (a.Create? || a.Type? || a.Retry?)
    ensures MarkedInv(Next(s, a))
  {
    if Next(s, a) != s {
      match a
      case Create(d, text) => SavingKeepsMarked(s, EditDraft(d, text).draft);
      case Type(id, text) => SavingKeepsMarked(s, EditDraft(s.ui[id], text).draft);
      case Retry(id) => SavingKeepsMarked(s, s.ui[id]);
    }
  }

  lemma {:induction false} QueueKeepsMarked(s: Sync, v: Sync)
    requires MarkedInv(s) && KeepsPublished(s.t, v.t)
    requires v.ui == s.ui && v.stale == s.stale && v.misled == s.misled && s.gone <= v.gone
    ensures MarkedInv(v)
  {
    forall id | Live(v, id) && id !in v.misled && v.ui[id].published ensures PublishedAs(v.t, id, v.ui[id]) {
      MarkedStays(s, v, id);
    }
  }

  lemma {:induction false} DeliverKeepsMarked(s: Sync, heard: DraftId)
    requires MarkedInv(s)
    ensures MarkedInv(Next(s, Deliver(heard)))
  {
    var v := Next(s, Deliver(heard));
    forall id | Live(v, id) && id !in v.misled && v.ui[id].published ensures PublishedAs(v.t, id, v.ui[id]) {
      MarkedStays(s, v, id);
    }
  }

  lemma {:induction false} EndDiscardKeepsMarked(s: Sync, heard: DraftId)
    requires MarkedInv(s)
    ensures MarkedInv(Next(s, EndDiscard(heard)))
  {
  }

  lemma {:induction false} OthersKeepScreen(s: Sync, a: Action)
    requires !a.Create? && !a.Type? && !a.Retry? && !a.Deliver? && !a.EndDiscard?
    requires !a.ShowPublished? && !a.Install? && !a.Accept? && !a.Restart?
    ensures var v := Next(s, a); v.ui == s.ui && v.stale == s.stale && v.misled == s.misled && s.gone <= v.gone
  {
  }

  lemma {:induction false} OthersKeepMarked(s: Sync, a: Action)
    requires StoreInv(s.t) && MarkedInv(s)
    requires !a.Create? && !a.Type? && !a.Retry? && !a.ShowPublished? && !a.Install? && !a.Accept? && !a.Restart?
    ensures MarkedInv(Next(s, a))
  {
    match a
    case Deliver(heard) => DeliverKeepsMarked(s, heard);
    case EndDiscard(heard) => EndDiscardKeepsMarked(s, heard);
    case _ =>
      NextGrows(s, a);
      OthersKeepScreen(s, a);
      QueueKeepsMarked(s, Next(s, a));
  }

  lemma {:induction false} NextKeepsMarked(s: Sync, a: Action)
    requires Inv(s) && MarksInv(s)
    ensures MarkedInv(Next(s, a))
  {
    match a
    case ShowPublished(p) => ShowKeepsMarked(s, p);
    case Install => RowsKeepMarked(s, s.opening.Rows());
    case Accept => RowsKeepMarked(s, s.offered.Rows());
    case Restart =>
    case _ => if a.Create? || a.Type? || a.Retry? { TypingKeepsMarked(s, a); } else { OthersKeepMarked(s, a); }
  }

  lemma {:induction false} NextKeepsMarks(s: Sync, a: Action)
    requires Inv(s) && MarksInv(s)
    ensures MarksInv(Next(s, a))
  {
    NextKeepsHistory(s, a);
    NextKeepsMarked(s, a);
    NextKeepsRead(s, a);
  }

  lemma {:induction false} RunKeepsMarks(s: Sync, actions: seq<Action>)
    requires Inv(s) && MarksInv(s)
    ensures Inv(Run(s, actions)) && MarksInv(Run(s, actions))
  {
    RunKeepsInv(s, actions);
    if actions != [] {
      var front := actions[..|actions| - 1];
      RunKeepsMarks(s, front);
      NextKeepsMarks(Run(s, front), actions[|actions| - 1]);
    }
  }

  // ----- what the window shows -----

  /** A draft shown as published, and not yet known to be deleted, is published with what is shown. */
  ghost predicate MarkAgrees(s: Sync, id: DraftId) {
    id in s.ui && s.ui[id].published && id !in s.gone ==> PublishedAs(s.t, id, s.ui[id])
  }

  /**
   In every run, a draft that was current when it was put on screen and whose row was never deleted
   is shown as published only if the store has it published, with the version and the text shown.
   */
  lemma {:induction false} ShownAsPublishedIsPublished(s: Sync, actions: seq<Action>, id: DraftId)
    requires Opened(s)
    requires var v := Run(s, actions); id !in v.stale && id !in v.deleted
    ensures MarkAgrees(Run(s, actions), id)
  {
    OpenedIsValid(s);
    RunKeepsMarks(s, actions);
  }

  // A mark that the store backs is kept while the screen is.

  ghost predicate OffScreen(s: Sync, id: DraftId) {
    id !in s.ui && (id in s.t.drafts || id in s.deleted)
  }

  ghost predicate Backed(s: Sync, id: DraftId) {
    Live(s, id) && s.ui[id].published && id !in s.misled
  }

  lemma {:induction false} OffScreenStays(s: Sync, a: Action, id: DraftId)
    requires Inv(s) && OffScreen(s, id) && !ChangesScreen(a)
    ensures OffScreen(Next(s, a), id)
  {
    NextGrows(s, a);
    if id in s.t.drafts && id !in Next(s, a).deleted {
      assert RowGrows(s.t, Next(s, a).t, id);
    }
    NotPutOnScreen(s, a, id);
  }

  lemma {:induction false} NotPutOnScreen(s: Sync, a: Action, id: DraftId)
    requires ScreenInv(s) && OffScreen(s, id) && !ChangesScreen(a)
    ensures id !in Next(s, a).ui
  {
  }

  lemma {:induction false} BackedStays(s: Sync, a: Action, id: DraftId)
    requires Inv(s) && MarksInv(s) && Backed(s, id) && !ChangesScreen(a)
    ensures Backed(Next(s, a), id) || OffScreen(Next(s, a), id)
  {
    assert PublishedAs(s.t, id, s.ui[id]);
    if a.Restart? {
      NextGrows(s, a);
      if id !in Next(s, a).deleted {
        assert RowGrows(s.t, Next(s, a).t, id);
      }
    } else if a.ShowPublished? {
      assert id !in Misled(s, a.p);
    } else {
      PublishedIsLeft(s, a, id);
    }
  }

  /** Published text is not edited, and its row not discarded. */
  lemma {:induction false} PublishedIsLeft(s: Sync, a: Action, id: DraftId)
    requires ScreenInv(s) && Backed(s, id) && PublishedRow(s.t, id, s.ui[id].version)
    requires !ChangesScreen(a) && !a.Restart? && !a.ShowPublished?
    ensures Backed(Next(s, a), id)
  {
  }

  lemma {:induction false} BackedForGood(s: Sync, actions: seq<Action>, id: DraftId)
    requires Inv(s) && MarksInv(s) && Backed(s, id) && KeepsScreen(actions)
    ensures Backed(Run(s, actions), id) || OffScreen(Run(s, actions), id)
  {
    if actions != [] {
      var front, last := actions[..|actions| - 1], actions[|actions| - 1];
      assert !ChangesScreen(last);
      BackedForGood(s, front, id);
      RunKeepsMarks(s, front);
      if Backed(Run(s, front), id) {
        BackedStays(Run(s, front), last, id);
      } else {
        OffScreenStays(Run(s, front), last, id);
      }
    }
  }

  /**
   When the window marks a draft that was current when it was put on screen, the mark agrees with the
   store, from then on and whatever happens, exactly if the store has that version published.
   */
  lemma {:induction false} MarkAgreesExactly(s: Sync, actions: seq<Action>, p: Payload, id: DraftId)
    requires Opened(s)
    requires var v := Run(s, actions); Live(v, id) && !v.ui[id].published && p in v.confirmed && IsMarked(v.ui[id], p)
    ensures var v := Run(s, actions);
      PublishedRow(v.t, id, v.ui[id].version) <==>
      forall later :: KeepsScreen(later) ==> MarkAgrees(Run(Next(v, ShowPublished(p)), later), id)
  {
    var v := Run(s, actions);
    var u := Next(v, ShowPublished(p));
    OpenedIsValid(s);
    RunKeepsMarks(s, actions);
    if PublishedRow(v.t, id, v.ui[id].version) {
      NextKeepsInv(v, ShowPublished(p));
      NextKeepsMarks(v, ShowPublished(p));
      assert id !in Misled(v, p);
      forall later | KeepsScreen(later) ensures MarkAgrees(Run(u, later), id) {
        BackedForGood(u, later, id);
        RunKeepsMarks(u, later);
      }
    } else {
      assert Run(u, []) == u;
      assert KeepsScreen([]) && !MarkAgrees(Run(u, []), id);
    }
  }

  // ----- a run in which the mark is wrong -----

  /** What the run below needs to know of the draft, its row and the writes under way. */
  ghost predicate Stage(s: Sync, of: Draft, shown: Option<Draft>, row: Option<Draft>, saves: set<Draft>) {
    && (if shown.Some? then of.id in s.ui && s.ui[of.id] == shown.value else of.id !in s.ui)
    && (if row.Some? then of.id in s.t.drafts && s.t.drafts[of.id] == row.value else of.id !in s.t.drafts)
    && s.saves == saves && s.gone == {} && s.t.SnapshotsValid() && of.snapshot in s.t.snapshots
    && forall id :: id in s.ui && id != of.id ==> s.ui[id].IsSaved()
  }

  /** A stored draft, and a text and a version that its review can store over it. */
  predicate CanEdit(d: Draft, version: nat, text: string) {
    && !d.published && 0 < version <= I64_MAX && |text| <= MAX_BODY
    && d.snapshot.of.Admits(d.anchor, d.fileLevel)
  }

  function SavedRow(d: Draft): Draft {
    d.(savedVersion := d.version)
  }

  lemma {:induction false} WriteIsTaken(
      s: Sync, of: Draft, shown: Option<Draft>, row: Option<Draft>, saves: set<Draft>, d: Draft)
    requires Stage(s, of, shown, row, saves) && d in saves && CanEdit(d, d.version, d.body)
    requires d.id == of.id && d.snapshot == of.snapshot
    requires row.Some? ==> row.value.snapshot == d.snapshot && row.value.anchor == d.anchor && !row.value.published
    requires row.Some? ==> row.value.version < d.version
    ensures Stage(Next(s, RunSave(d)), of, shown, Some(SavedRow(d)), saves)
    ensures s.waiting == Next(s, RunSave(d)).waiting
    ensures d.id in s.waiting && s.waiting[d.id] == d ==>
      d.id in Next(s, RunSave(d)).answers && Next(s, RunSave(d)).answers[d.id] == d.version
  {
    assert s.t.snapshots[d.snapshot].snapshot.patch == d.snapshot.of;
  }

  /** Two texts are typed. */
  function TypeTwice(id: DraftId, first: string, second: string): seq<Action> {
    [Type(id, first), Type(id, second)]
  }

  lemma {:induction false} Typed(
      s: Sync, of: Draft, shown: Draft, row: Option<Draft>, saves: set<Draft>, text: string)
    requires Stage(s, of, Some(shown), row, saves) && shown.id == of.id
    requires !shown.published && shown.version < U64_MAX && text != shown.body
    ensures var v, d := Next(s, Type(of.id, text)), Edited(shown, text);
      && Stage(v, of, Some(d), row, saves + {d}) && of.id in v.waiting && v.waiting[of.id] == d
      && v.checked == s.checked && v.stale == s.stale
  {
  }

  lemma {:induction false} TypedTwice(s: Sync, of: Draft, first: string, second: string)
    requires Stage(s, of, Some(of), Some(of), {}) && !of.published && of.version + 2 <= U64_MAX
    requires first != of.body && second != first
    ensures var v, d1 := Run(s, TypeTwice(of.id, first, second)), Edited(of, first);
      && Stage(v, of, Some(Edited(d1, second)), Some(of), {d1, Edited(d1, second)})
      && of.id in v.waiting && v.waiting[of.id] == Edited(d1, second)
  {
    var d1 := Edited(of, first);
    RunTwo(s, Type(of.id, first), Type(of.id, second));
    Typed(s, of, of, Some(of), {}, first);
    Typed(Next(s, Type(of.id, first)), of, d1, Some(of), {} + {d1}, second);
    assert {} + {d1} + {Edited(d1, second)} == {d1, Edited(d1, second)};
  }

  /** The second one is saved and the answer heard. */
  function SaveLast(d: Draft): seq<Action> {
    [RunSave(d), Deliver(d.id)] + [DropSave(d)]
  }

  lemma {:induction false} SavedLast(s: Sync, of: Draft, first: Draft, last: Draft)
    requires Stage(s, of, Some(last), Some(of), {first, last}) && of.id in s.waiting && s.waiting[of.id] == last
    requires first != last && CanEdit(last, last.version, last.body) && !of.published
    requires last == of.(body := last.body, version := last.version) && of.version < last.version
      && of.savedVersion < last.version
    ensures Stage(Run(s, SaveLast(last)), of, Some(SavedRow(last)), Some(SavedRow(last)), {first})
  {
    RunSplit(s, [RunSave(last), Deliver(last.id)], [DropSave(last)]);
    RunTwo(s, RunSave(last), Deliver(last.id));
    RunOne(Run(s, [RunSave(last), Deliver(last.id)]), DropSave(last));
    WriteIsTaken(s, of, Some(last), Some(of), {first, last}, last);
  }

  /** A publication finds it stored. */
  function CheckThenDiscard(p: Payload, d: Draft): seq<Action> {
    [Check(p), AskDiscard(d.id)] + Discard(d)
  }

  /** It is discarded all the same, and the window hears of that. */
  function Discard(d: Draft): seq<Action> {
    [RunDiscard(d.id, d.version), EndDiscard(d.id)]
  }

  lemma {:induction false} Discarded(s: Sync, of: Draft, d: Draft, saves: set<Draft>)
    requires Stage(s, of, Some(d), Some(d), saves) && d.id == of.id && !d.published && (d.id, d.version) in s.discards
    ensures Stage(Run(s, Discard(d)), of, None, None, saves) && Run(s, Discard(d)).checked == s.checked
  {
    RunTwo(s, RunDiscard(d.id, d.version), EndDiscard(d.id));
  }

  lemma {:induction false} CheckedThenDiscarded(s: Sync, of: Draft, d: Draft, saves: set<Draft>, p: Payload)
    requires Stage(s, of, Some(d), Some(d), saves) && d.id == of.id && d.IsSaved() && !d.published
    requires p.snapshot == d.snapshot && |p.comments| == 1 && IsTextOf(p.comments[0], d)
    ensures var v := Run(s, CheckThenDiscard(p, d)); Stage(v, of, None, None, saves) && p in v.checked
  {
    RunSplit(s, [Check(p), AskDiscard(d.id)], Discard(d));
    RunTwo(s, Check(p), AskDiscard(d.id));
    assert Outbox.IsStoredText(s.t.drafts[d.id], p.snapshot, p.comments[0]);
    assert Outbox.TextIsStored(s.t, p.snapshot, p.comments[0]);
    Discarded(Next(Next(s, Check(p)), AskDiscard(d.id)), of, d, saves);
  }

  /** The older write brings the row back, and the review is opened again. */
  function Revive(first: Draft, now: nat): seq<Action> {
    [RunSave(first)] + OpenReview(first, now)
  }

  lemma {:induction false} Revived(s: Sync, of: Draft, first: Draft, p: Payload, now: nat)
    requires Inv(s) && Stage(s, of, None, None, {first}) && CanEdit(first, first.version, first.body) && p in s.checked
    requires first.id == of.id && first.snapshot == of.snapshot
    ensures var v, row := Run(s, Revive(first, now)), SavedRow(first);
      Stage(v, of, Some(row), Some(row), {first}) && p in v.checked && of.id !in v.stale
  {
    var u := Next(s, RunSave(first));
    WriteIsTaken(s, of, None, None, {first}, first);
    RunSplit(s, [RunSave(first)], OpenReview(first, now));
    RunOne(s, RunSave(first));
    OpeningShowsRows(u, first, now);
    NextKeepsInv(s, RunSave(first));
    RowsAreSaved(u.t, first.snapshot);
  }

  lemma {:induction false} RowsAreSaved(t: Tables, snapshot: SnapshotId)
    requires StoreInv(t)
    ensures forall id :: id in StoredRows(t, snapshot) ==> StoredRows(t, snapshot)[id].IsSaved()
  {
    forall id | id in StoredRows(t, snapshot) ensures t.drafts[id].IsSaved() {
      assert t.DraftValid(id);
    }
  }

  lemma {:induction false} Retyped(s: Sync, of: Draft, row: Draft, d: Draft, p: Payload, saves: set<Draft>)
    requires Stage(s, of, Some(row), Some(row), saves) && row.id == of.id && row.snapshot == of.snapshot
    requires EditDraft(row, d.body) == Changed(d) && CanEdit(d, d.version, d.body) && p in s.checked
    ensures var v := Run(s, [Type(d.id, d.body), RunSave(d)]);
      Stage(v, of, Some(d), Some(SavedRow(d)), saves + {d}) && p in v.checked && v.stale == s.stale
  {
    var u := Next(s, Type(d.id, d.body));
    RunTwo(s, Type(d.id, d.body), RunSave(d));
    Typed(s, of, row, Some(row), saves, d.body);
    WriteIsTaken(u, of, Some(d), Some(row), saves + {d}, d);
  }

  lemma {:induction false} HeardWrongly(s: Sync, of: Draft, d: Draft, p: Payload, saves: set<Draft>)
    requires Stage(s, of, Some(d), Some(SavedRow(d)), saves) && d.id == of.id && !d.published && p in s.checked
    requires p.snapshot == d.snapshot && |p.comments| == 1 && IsVersionOf(p.comments[0], d)
      && p.comments[0].body != d.body
    ensures var v := Run(s, [Confirm(p), ShowPublished(p)]);
      && d.id in v.ui && v.ui[d.id] == d.(published := true) && v.gone == {} && v.stale == s.stale
      && d.id in v.t.drafts && v.t.drafts[d.id] == SavedRow(d)
  {
    RunTwo(s, Confirm(p), ShowPublished(p));
    assert !Carries(p.comments, SavedRow(d));
  }

  lemma {:induction false} OpensAtStage(s: Sync, id: DraftId, now: nat)
    requires Opened(s) && id in s.t.drafts
    ensures Stage(Run(s, OpenReview(s.t.drafts[id], now)), s.t.drafts[id], Some(s.t.drafts[id]),
      Some(s.t.drafts[id]), {})
  {
    var stored := s.t.drafts[id];
    assert s.t.DraftValid(id);
    OpenedIsValid(s);
    OpeningShowsRows(s, stored, now);
    RunKeepsInv(s, OpenReview(stored, now));
    RowsAreSaved(s.t, stored.snapshot);
  }

  function TypeAndSave(stored: Draft, first: string, sent: string): seq<Action> {
    TypeTwice(stored.id, first, sent) + SaveLast(Edited(Edited(stored, first), sent))
  }

  lemma {:induction false} TypedAndSaved(s: Sync, of: Draft, first: string, sent: string)
    requires Stage(s, of, Some(of), Some(of), {}) && CanEdit(of, of.version + 2, sent) && of.IsSaved()
    requires first != of.body && sent != first
    ensures var d1 := Edited(of, first); var d2 := SavedRow(Edited(d1, sent));
      Stage(Run(s, TypeAndSave(of, first, sent)), of, Some(d2), Some(d2), {d1})
  {
    var d1 := Edited(of, first);
    var d2 := Edited(d1, sent);
    RunSplit(s, TypeTwice(of.id, first, sent), SaveLast(d2));
    TypedTwice(s, of, first, sent);
    SavedLast(Run(s, TypeTwice(of.id, first, sent)), of, d1, d2);
  }

  /** Another text gets the version of the discarded one, and the window hears that it was published. */
  function Replace(row: Draft, other: string, p: Payload): seq<Action> {
    var d := Edited(row, other);
    [Type(d.id, other), RunSave(d)] + [Confirm(p), ShowPublished(p)]
  }

  lemma {:induction false} Replaced(s: Sync, of: Draft, row: Draft, other: string, p: Payload, saves: set<Draft>)
    requires Stage(s, of, Some(row), Some(row), saves) && row.id == of.id && row.snapshot == of.snapshot
    requires CanEdit(row, row.version + 1, other) && other != row.body && p in s.checked
    requires p.snapshot == row.snapshot && |p.comments| == 1
    requires IsVersionOf(p.comments[0], Edited(row, other)) && p.comments[0].body != other
    ensures var v, d := Run(s, Replace(row, other, p)), Edited(row, other);
      && of.id in v.ui && v.ui[of.id] == d.(published := true) && v.gone == {} && v.stale == s.stale
      && of.id in v.t.drafts && v.t.drafts[of.id] == SavedRow(d)
  {
    var d := Edited(row, other);
    RunSplit(s, [Type(d.id, other), RunSave(d)], [Confirm(p), ShowPublished(p)]);
    Retyped(s, of, row, d, p, saves);
    HeardWrongly(Run(s, [Type(d.id, other), RunSave(d)]), of, d, p, saves + {d});
  }

  /**
   The review is open. `first` and then `sent` are typed; the second is saved, and a publication finds
   it stored. It is discarded before the provider confirms it, and the write of the first, late,
   brings the row back. Opened again and edited, the draft gets the version of the text that was sent.
   */
  function MisleadingRun(stored: Draft, first: string, sent: string, other: string, p: Payload, now: nat): seq<Action> {
    var d1 := Edited(stored, first);
    OpenReview(stored, now) + TypeAndSave(stored, first, sent)
      + CheckThenDiscard(p, SavedRow(Edited(d1, sent))) + Revive(d1, now) + Replace(SavedRow(d1), other, p)
  }

  /** In the end the draft is shown as published, with a text that was neither sent nor published. */
  lemma {:induction false} MarkMisleads(
      s: Sync, id: DraftId, first: string, sent: string, other: string, p: Payload, now: nat)
    requires Opened(s) && id in s.t.drafts && !s.t.drafts[id].published && s.t.drafts[id].version + 2 <= I64_MAX
    requires |first| <= MAX_BODY && |sent| <= MAX_BODY && |other| <= MAX_BODY
    requires first != s.t.drafts[id].body && sent != first && other != first && other != sent
    requires p.snapshot == s.t.drafts[id].snapshot && |p.comments| == 1
    requires p.comments[0].draft == id && p.comments[0].version == s.t.drafts[id].version + 2
      && p.comments[0].body == sent
    ensures var v := Run(s, MisleadingRun(s.t.drafts[id], first, sent, other, p, now));
      && Live(v, id) && v.ui[id].published && v.ui[id].body == other
      && id in v.t.drafts && !v.t.drafts[id].published && v.t.drafts[id].body == other
  {
    var stored := s.t.drafts[id];
    var d1 := Edited(stored, first);
    var d2 := SavedRow(Edited(d1, sent));
    assert s.t.DraftValid(id);
    var a, b, c, d := OpenReview(stored, now), TypeAndSave(stored, first, sent), CheckThenDiscard(p, d2),
      Revive(d1, now);
    OpensAtStage(s, id, now);
    RunSplit(s, a, b);
    TypedAndSaved(Run(s, a), stored, first, sent);
    RunSplit(s, a + b, c);
    CheckedThenDiscarded(Run(s, a + b), stored, d2, {d1}, p);
    RunSplit(s, a + b + c, d);
    OpenedIsValid(s);
    RunKeepsInv(s, a + b + c);
    Revived(Run(s, a + b + c), stored, d1, p, now);
    RunSplit(s, a + b + c + d, Replace(SavedRow(d1), other, p));
    Replaced(Run(s, a + b + c + d), stored, SavedRow(d1), other, p, {d1});
  }
}

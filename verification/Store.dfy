/**
 The review store as one object whose methods run one transaction each
 (crates/adapters/src/store.rs). The three fields stand for the SQLite tables;
 every method is proved against the table function of the same name.
 */
module Store {
  import opened Wrappers
  import opened Review
  import opened Tables

  class Store {
    var snapshots: map<SnapshotId, SnapshotRow>
    var drafts: map<DraftId, Draft>
    var outbox: map<OperationId, OutboxEntry>

    /** What is on disk. */
    function Contents(): Tables
      reads this
    {
      Tables(snapshots, drafts, outbox)
    }

    constructor ()
      ensures Contents() == Tables(map[], map[], map[])
    {
      snapshots, drafts, outbox := map[], map[], map[];
    }

    /** Opening a store recovers interrupted sends, then forgets old reviews. */
    method Open()
      requires Contents().Valid()
      modifies this
      ensures Contents() == old(Contents()).Recover().Prune(50)
      ensures Contents().Valid()
    {
      RecoverInflight();
      RecoverKeepsValid(old(Contents()));
      Prune(KEEP_RECENT);
      PruneKeepsValid(old(Contents()).Recover(), KEEP_RECENT);
    }

    method SaveDraft(d: Draft) returns (r: Saved)
      modifies this`drafts
      ensures (Contents(), r) == old(Contents()).SaveDraft(d)
    {
      if d.version == 0 || d.version > I64_MAX || |d.body| > MAX_BODY { return Err(BadDraft); }
      if d.snapshot !in snapshots { return Err(NoSnapshot); }
      var patch := snapshots[d.snapshot].snapshot.patch;
      if d.anchor.file !in patch.files { return Err(NoFile); }
      if !d.fileLevel && d.anchor !in patch.eligible { return Err(NotEligible); }
      if d.id in drafts {
        var p := drafts[d.id];
        if p.snapshot != d.snapshot || p.anchor != d.anchor || p.published { return Err(IdentityRewritten); }
        if p.version > d.version { return Err(Stale); }
        if p.version == d.version && p.body != d.body { return Err(TextDiffers); }
      }
      if d.published { return Err(NotByHand); }
      drafts := drafts[d.id := d.(savedVersion := d.version)];
      return Ok(d.version);
    }

    method DiscardDraft(id: DraftId, version: nat) returns (r: Done)
      modifies this`drafts
      ensures (Contents(), r) == old(Contents()).DiscardDraft(id, version)
    {
      if id in drafts && drafts[id].version == version && !drafts[id].published {
        drafts := drafts - {id};
        return Ok(());
      }
      return Err(DraftGone);
    }

    method InsertPrepared(p: PreparedReview, rules: ProviderId) returns (r: Done)
      modifies this`outbox
      ensures (Contents(), r) == old(Contents()).InsertPrepared(p, rules)
    {
      if !p.Verify(rules) { return Err(BadFingerprint); }
      if p.payload.id in outbox { return Err(DuplicateOperation); }
      outbox := outbox[p.payload.id := OutboxEntry(p, Prepared, {}, None, None)];
      return Ok(());
    }

    /** The stored row moves and, with a confirmation, the carried drafts are marked one by one. */
    method Transition(e: OutboxEntry, rules: Option<ProviderId>) returns (r: Done)
      requires Contents().DraftsValid()
      modifies this`drafts, this`outbox
      ensures (Contents(), r) == old(Contents()).Transition(e, rules)
    {
      var id := e.prepared.payload.id;
      if id !in outbox { return Err(NoOperation); }
      var stored := outbox[id];
      if stored.prepared.fingerprint != e.prepared.fingerprint
         || (rules.Some? && !e.prepared.Verify(rules.value)) { return Err(PayloadChanged); }
      if !stored.state.CanTransition(e.state) { return Err(BadMove); }
      if e.state.Confirmed? {
        if e.remoteId.None? { return Err(NoEvidence); }
        var comments := e.prepared.payload.comments;
        ghost var before := drafts;
        assert forall d :: d in before ==> Contents().DraftValid(d);
        var i := 0;
        while i < |comments|
          invariant 0 <= i <= |comments|
          invariant drafts == MarkPublished(before, comments[..i])
          invariant snapshots == old(snapshots) && outbox == old(outbox)
        {
          var c := comments[i];
          MarkOneMore(before, comments, i);
          if c.draft in drafts {
            var d := drafts[c.draft];
            if d.version == c.version && d.body == c.body {
              drafts := drafts[d.id := d.(published := true)];
            }
          }
          i := i + 1;
        }
        assert comments[..i] == comments;
      }
      outbox := outbox[id := e];
      return Ok(());
    }

    method RecoverInflight()
      requires Contents().Valid()
      modifies this`outbox, this`drafts
      ensures Contents() == old(Contents()).Recover()
    {
      var todo := outbox.Keys;
      ghost var t := Contents();
      while todo != {}
        invariant todo <= t.outbox.Keys
        invariant outbox == RecoveredBut(t.outbox, todo)
        invariant drafts == t.drafts && snapshots == t.snapshots
      {
        var id :| id in todo;
        var e := outbox[id];
        assert t.EntryValid(id);
        RecoverOneMore(t.outbox, todo, id);
        if e.state.InFlight? {
          var r := Transition(Recovered(e), None);
          assert r.Ok?;
        }
        todo := todo - {id};
      }
    }

    /** `keep` of the newest snapshots stay, and so does any older one with work left in it. */
    method Prune(keep: nat)
      modifies this`drafts, this`snapshots
      ensures Contents() == old(Contents()).Prune(keep)
    {
      var doomed := set id | id in snapshots && Contents().Doomed(id, keep);
      drafts := map d | d in drafts && drafts[d].snapshot !in doomed :: drafts[d];
      snapshots := map id | id in snapshots && id !in doomed :: snapshots[id];
    }
  }

  /** The outbox with all entries recovered but those in `todo`. */
  ghost function RecoveredBut(
      outbox: map<OperationId, OutboxEntry>, todo: set<OperationId>): map<OperationId, OutboxEntry> {
    map id | id in outbox :: if id in todo then outbox[id] else Recovered(outbox[id])
  }

  lemma {:induction false} RecoverOneMore(
      outbox: map<OperationId, OutboxEntry>, todo: set<OperationId>, id: OperationId)
    requires id in todo && id in outbox
    ensures RecoveredBut(outbox, todo - {id}) == RecoveredBut(outbox, todo)[id := Recovered(outbox[id])]
    ensures RecoveredBut(outbox, todo)[id] == outbox[id]
    ensures !outbox[id].state.InFlight? ==> RecoveredBut(outbox, todo - {id}) == RecoveredBut(outbox, todo)
  {}

  /** Marking in turn is marking at once: a mark never changes what a later comment looks at. */
  lemma {:induction false} MarkOneMore(drafts: map<DraftId, Draft>, comments: seq<PreparedComment>, i: nat)
    requires i < |comments|
    requires forall id :: id in drafts ==> drafts[id].id == id
    ensures forall id :: id in drafts ==>
      Carries(comments[..i + 1], drafts[id])
        == (Carries(comments[..i], drafts[id]) || IsTextOf(comments[i], drafts[id]))
  {
    forall id | id in drafts
      ensures Carries(comments[..i + 1], drafts[id])
        == (Carries(comments[..i], drafts[id]) || IsTextOf(comments[i], drafts[id]))
    {
      var more, less := comments[..i + 1], comments[..i];
      assert forall j :: 0 <= j < |less| ==> more[j] == less[j];
      assert more[i] == comments[i];
      if Carries(less, drafts[id]) {
        var j :| 0 <= j < |less| && IsTextOf(less[j], drafts[id]);
        assert IsTextOf(more[j], drafts[id]);
      }
      if IsTextOf(comments[i], drafts[id]) { assert IsTextOf(more[i], drafts[id]); }
    }
  }

  /** Recovery changes only InFlight entries, so no draft becomes published by it. */
  lemma {:induction false} RecoverKeepsValid(t: Tables)
    requires t.Valid()
    ensures t.Recover().Valid()
    ensures forall id :: id in t.outbox ==> !t.Recover().outbox[id].state.InFlight?
  {
    var u := t.Recover();
    assert forall op :: op in t.outbox ==> t.EntryValid(op) ==> u.EntryValid(op);
    assert forall d :: d in t.drafts ==> t.DraftValid(d) ==> u.DraftValid(d);
    EvidenceKept(t, u);
  }
}

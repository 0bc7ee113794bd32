/**
 What holds in every run of the publication machine, whatever the threads, the
 remote and the crashes do.
 */
module Safety {
  import opened Wrappers
  import opened Review
  import opened Tables
  import opened Outbox
  import opened Publication

  lemma {:induction false} StartIsValid()
    ensures Inv(Start)
  {}

  /** A review is sent at most once, and the stored operation it belongs to is no longer Prepared. */
  lemma {:induction false} SentAtMostOnce(actions: seq<Action>)
    ensures var w := Run(Start, actions);
      && (forall i, j :: 0 <= i < j < |w.sends| ==> w.sends[i].payload.id != w.sends[j].payload.id)
      && (forall i :: 0 <= i < |w.sends| ==>
            && w.sends[i].payload.id in w.t.outbox
            && w.t.outbox[w.sends[i].payload.id].prepared == w.sends[i]
            && !w.t.outbox[w.sends[i].payload.id].state.Prepared?)
  {
    StartIsValid();
    RunKeepsInv(Start, actions);
    var w := Run(Start, actions);
    assert forall p :: SendValid(w, p) ==>
      p.payload.id in w.t.outbox && w.t.outbox[p.payload.id].prepared == p && !w.t.outbox[p.payload.id].state.Prepared?;
  }

  /** A publication of `op` is at the point where it asks the remote. */
  ghost predicate AboutToSend(w: World, op: OperationId) {
    exists provider :: provider in w.publishers && IsDurable(w.publishers[provider], op)
  }

  predicate IsDurable(pub: Publisher, op: OperationId) {
    pub.pc.Durable? && pub.p.payload.id == op
  }

  /** Between `w` and `v` the remote was asked to publish `p`, whose InFlight row was already stored. */
  ghost predicate IsSend(w: World, v: World, p: PreparedReview) {
    var op := p.payload.id;
    && v.sends == w.sends + [p] && AboutToSend(w, op)
    && op in w.t.outbox && w.t.outbox[op].prepared == p && w.t.outbox[op].state.InFlight?
  }

  /** The remote is asked only for a review whose InFlight row is already stored. */
  lemma {:induction false} DurableBeforeSend(actions: seq<Action>, a: Action)
    ensures var w, v := Run(Start, actions), Run(Start, actions + [a]);
      v.sends == w.sends || exists p :: IsSend(w, v, p)
  {
    StartIsValid();
    RunKeepsInv(Start, actions);
    assert (actions + [a])[..|actions|] == actions;
    SendingStep(Run(Start, actions), a);
  }

  lemma {:induction false} SendingStep(w: World, a: Action)
    requires Inv(w)
    ensures Next(w, a).sends == w.sends || exists p :: IsSend(w, Next(w, a), p)
  {
    if a.Step? && w.up && a.provider in w.publishers {
      HolderSends(w, a.provider, a.answers);
    } else {
      OnlyStepsSend(w, a);
    }
  }

  lemma {:induction false} OnlyStepsSend(w: World, a: Action)
    requires !(a.Step? && w.up && a.provider in w.publishers)
    ensures Next(w, a).sends == w.sends
  {}

  lemma {:induction false} HolderSends(w: World, provider: ProviderId, answers: Answers)
    requires PublishersInv(w) && provider in w.publishers
    ensures var v := StepPublisher(w, provider, answers);
      v.sends == w.sends || IsSend(w, v, w.publishers[provider].p)
  {
    assert PublisherInv(w, provider, w.publishers[provider]);
    var v, pub := StepPublisher(w, provider, answers), w.publishers[provider];
    if v.sends != w.sends {
      assert IsDurable(pub, pub.p.payload.id);
    }
  }

  // ----- a rejected send was refused -----

  /** The provider's refusal is what the publication is about to store. */
  ghost predicate HoldsRefusal(w: World, pub: Publisher) {
    pub.pc.Answered? && pub.entry.state.Rejected? ==> pub.p.payload.id in w.refused
  }

  ghost predicate RefusedInv(w: World) {
    && (forall q :: q in w.publishers ==> HoldsRefusal(w, w.publishers[q]))
    && forall op :: op in w.t.outbox && w.t.outbox[op].state.Rejected? && Sent(w.sends, op) ==> op in w.refused
  }

  /** A publication stores a rejection before it sends, or after the answer it holds. */
  ghost predicate Rejects(w: World, provider: ProviderId, op: OperationId) {
    && provider in w.publishers && w.publishers[provider].p.payload.id == op
    && (w.publishers[provider].pc.BeforeSend()
        || (w.publishers[provider].pc.Answered? && w.publishers[provider].entry.state.Rejected?))
  }

  lemma {:induction false} OnlyDurableSends(w: World, provider: ProviderId, answers: Answers)
    requires provider in w.publishers && !w.publishers[provider].pc.Durable?
    ensures StepPublisher(w, provider, answers).sends == w.sends
  {
  }

  lemma {:induction false} DurableStoresNothing(w: World, provider: ProviderId, answers: Answers)
    requires provider in w.publishers && w.publishers[provider].pc.Durable?
    ensures StepPublisher(w, provider, answers).t == w.t
  {
  }

  lemma {:induction false} AnsweredStoresEntry(w: World, provider: ProviderId, answers: Answers)
    requires provider in w.publishers && w.publishers[provider].pc.Answered?
    ensures var u := StepPublisher(w, provider, answers).t;
      var e := w.publishers[provider].entry;
      u == w.t || u.outbox == w.t.outbox[e.prepared.payload.id := e]
  {
  }

  lemma {:induction false} StepRejects(w: World, provider: ProviderId, answers: Answers, op: OperationId)
    requires provider in w.publishers && PublisherInv(w, provider, w.publishers[provider])
    requires op in w.t.outbox && !w.t.outbox[op].state.Rejected?
    requires var v := StepPublisher(w, provider, answers); op in v.t.outbox && v.t.outbox[op].state.Rejected?
    ensures Rejects(w, provider, op) && StepPublisher(w, provider, answers).sends == w.sends
  {
    var moved := HolderWritesOwnRow(w, provider, answers);
    var pc := w.publishers[provider].pc;
    if pc.Durable? {
      DurableStoresNothing(w, provider, answers);
    } else {
      OnlyDurableSends(w, provider, answers);
      if pc.Answered? {
        AnsweredStoresEntry(w, provider, answers);
      }
    }
  }

  lemma {:induction false} FinishRejectsNone(
      w: World, e: OutboxEntry, reviews: seq<RemoteReview>, comments: map<nat, seq<RemoteComment>>, op: OperationId)
    requires var v := FinishReconcile(w, e, reviews, comments); op in v.t.outbox && v.t.outbox[op].state.Rejected?
    ensures op in w.t.outbox && w.t.outbox[op].state.Rejected?
  {
  }

  lemma {:induction false} RecoverRejectsNone(w: World, one: OperationId, op: OperationId)
    requires var v := Next(w, RecoverOne(one)); op in v.t.outbox && v.t.outbox[op].state.Rejected?
    ensures op in w.t.outbox && w.t.outbox[op].state.Rejected?
  {
  }

  lemma {:induction false} UiRejectsNone(w: World, a: Action, op: OperationId)
    requires !a.Step? && !a.Finish? && !a.RecoverOne?
    requires op in Next(w, a).t.outbox && Next(w, a).t.outbox[op].state.Rejected?
    ensures op in w.t.outbox && w.t.outbox[op].state.Rejected?
  {
  }

  lemma {:induction false} OnlyStepsReject(w: World, a: Action, op: OperationId)
    requires op in Next(w, a).t.outbox && Next(w, a).t.outbox[op].state.Rejected?
    requires !(a.Step? && w.up && a.provider in w.publishers)
    ensures op in w.t.outbox && w.t.outbox[op].state.Rejected?
  {
    match a
    case Step(_, _) =>
    case Finish(e, reviews, comments) =>
      if w.up && e in w.reconcilers { FinishRejectsNone(w, e, reviews, comments, op); }
    case RecoverOne(one) => RecoverRejectsNone(w, one, op);
    case _ => UiRejectsNone(w, a, op);
  }

  /** What a send leaves in the publication's hands is the answer. */
  lemma {:induction false} SendHoldsRefusal(w: World, provider: ProviderId, answers: Answers)
    requires provider in w.publishers && PublisherInv(w, provider, w.publishers[provider])
    requires HoldsRefusal(w, w.publishers[provider])
    requires provider in StepPublisher(w, provider, answers).publishers
    ensures HoldsRefusal(StepPublisher(w, provider, answers), StepPublisher(w, provider, answers).publishers[provider])
  {
    var pub := w.publishers[provider];
    if pub.pc.Durable? {
      RefusedExactly(pub.entry, pub.p, RulesOf(provider), answers);
    }
  }

  lemma {:induction false} RefusedExactly(e: OutboxEntry, p: PreparedReview, rules: Rules, a: Answers)
    ensures Judge(e, p, rules, a).state.Rejected? <==> a.outcome.Refused?
  {
  }

  lemma {:induction false} RefusedGrows(w: World, a: Action)
    ensures w.refused <= Next(w, a).refused
  {
  }

  lemma {:induction false} NextKeepsHolders(w: World, a: Action)
    requires Inv(w) && RefusedInv(w)
    ensures forall q :: q in Next(w, a).publishers ==> HoldsRefusal(Next(w, a), Next(w, a).publishers[q])
  {
    var v := Next(w, a);
    RefusedGrows(w, a);
    forall q | q in v.publishers ensures HoldsRefusal(v, v.publishers[q]) {
      if a.Step? && a.provider == q {
        if w.up && q in w.publishers {
          assert PublisherInv(w, q, w.publishers[q]);
          SendHoldsRefusal(w, q, a.answers);
        }
      } else {
        OthersStay(w, a, q);
      }
    }
  }

  lemma {:induction false} NextKeepsRows(w: World, a: Action, op: OperationId)
    requires Inv(w) && RefusedInv(w)
    requires op in Next(w, a).t.outbox && Next(w, a).t.outbox[op].state.Rejected? && Sent(Next(w, a).sends, op)
    ensures op in Next(w, a).refused
  {
    RefusedGrows(w, a);
    if a.Step? && w.up && a.provider in w.publishers {
      assert PublisherInv(w, a.provider, w.publishers[a.provider]);
      StepKeepsRows(w, a.provider, a.answers, op);
    } else {
      OnlyStepsReject(w, a, op);
      OnlyStepsSend(w, a);
    }
  }

  lemma {:induction false} StepKeepsRows(w: World, provider: ProviderId, answers: Answers, op: OperationId)
    requires Inv(w) && RefusedInv(w) && provider in w.publishers && PublisherInv(w, provider, w.publishers[provider])
    requires var v := StepPublisher(w, provider, answers);
      op in v.t.outbox && v.t.outbox[op].state.Rejected? && Sent(v.sends, op)
    ensures op in w.refused
  {
    var v := StepPublisher(w, provider, answers);
    var moved := HolderWritesOwnRow(w, provider, answers);
    if w.t.outbox[op].state.Rejected? {
      SendsNoRejected(w, provider, answers, op);
    } else {
      StepRejects(w, provider, answers, op);
      RejectsSentRefused(w, provider, op);
    }
  }

  lemma {:induction false} SendsNoRejected(w: World, provider: ProviderId, answers: Answers, op: OperationId)
    requires PublishersInv(w) && provider in w.publishers && op in w.t.outbox && w.t.outbox[op].state.Rejected?
    ensures Sent(StepPublisher(w, provider, answers).sends, op) ==> Sent(w.sends, op)
  {
    HolderSends(w, provider, answers);
    if StepPublisher(w, provider, answers).sends != w.sends {
      AppendedSend(w.sends, w.publishers[provider].p, op);
    }
  }

  lemma {:induction false} RejectsSentRefused(w: World, provider: ProviderId, op: OperationId)
    requires SendsInv(w) && RefusedInv(w) && Rejects(w, provider, op) && Sent(w.sends, op)
    requires PublisherInv(w, provider, w.publishers[provider])
    ensures op in w.refused
  {
    assert HoldsRefusal(w, w.publishers[provider]);
    if w.publishers[provider].pc.BeforeSend() {
      NotSentWhilePrepared(w, op);
    }
  }

  lemma {:induction false} RunKeepsRefusals(actions: seq<Action>)
    ensures Inv(Run(Start, actions)) && RefusedInv(Run(Start, actions))
  {
    StartIsValid();
    RunKeepsInv(Start, actions);
    if actions != [] {
      var front, a := actions[..|actions| - 1], actions[|actions| - 1];
      RunKeepsRefusals(front);
      NextKeepsHolders(Run(Start, front), a);
      forall op | op in Run(Start, actions).t.outbox && Run(Start, actions).t.outbox[op].state.Rejected?
        && Sent(Run(Start, actions).sends, op)
        ensures op in Run(Start, actions).refused
      {
        NextKeepsRows(Run(Start, front), a, op);
      }
    }
  }

  /** In every run, an operation that was sent and is stored as rejected was refused by the provider. */
  lemma {:induction false} RejectedWasRefused(actions: seq<Action>, op: OperationId)
    requires var w := Run(Start, actions);
      && op in w.t.outbox && w.t.outbox[op].state == Rejected
      && exists i :: 0 <= i < |w.sends| && w.sends[i].payload.id == op
    ensures op in Run(Start, actions).refused
  {
    RunKeepsRefusals(actions);
  }

  /** The record of refusals grows exactly when the remote is asked and refuses. */
  lemma {:induction false} RefusalIsRecorded(w: World, provider: ProviderId, answers: Answers)
    requires w.up && provider in w.publishers
    ensures var v, p := Next(w, Step(provider, answers)), w.publishers[provider].p;
      v.refused ==
        if v.sends == w.sends + [p] && answers.outcome.Refused? then w.refused + {p.payload.id} else w.refused
  {
  }

  lemma {:induction false} OnlyStepsRecord(w: World, a: Action)
    requires !a.Step?
    ensures Next(w, a).refused == w.refused
  {
  }

  /** At most one operation of a PR and account is ever InFlight or UnknownOutcome. */
  lemma {:induction false} OneUnresolvedPerPr(actions: seq<Action>, a: OperationId, b: OperationId)
    requires var t := Run(Start, actions).t;
      && a in t.outbox && b in t.outbox
      && t.outbox[a].state in {InFlight, UnknownOutcome} && t.outbox[b].state in {InFlight, UnknownOutcome}
      && var left, right := t.outbox[a].prepared.payload.target, t.outbox[b].prepared.payload.target;
        && left.provider == right.provider && left.repository == right.repository
        && left.pr == right.pr && left.account == right.account
    ensures a == b
  {
    StartIsValid();
    RunKeepsInv(Start, actions);
  }

  // ----- operations over time -----

  /** Rows are never deleted, their review never changes, and they move only along the lifecycle. */
  ghost predicate RowMoved(t: Tables, u: Tables, op: OperationId)
    requires op in t.outbox
  {
    && op in u.outbox && u.outbox[op].prepared == t.outbox[op].prepared
    && (u.outbox[op].state == t.outbox[op].state || t.outbox[op].state.CanTransition(u.outbox[op].state))
  }

  /** A step of a publication writes nothing, or moves its own row. */
  lemma {:induction false} HolderWritesOwnRow(w: World, provider: ProviderId, answers: Answers) returns (e: OutboxEntry)
    requires provider in w.publishers && PublisherInv(w, provider, w.publishers[provider])
    ensures e.prepared == w.publishers[provider].p
    ensures var u := StepPublisher(w, provider, answers).t;
      u == w.t || (w.t.TransitionError(e, Some(provider)).None? && u == w.t.Transition(e, Some(provider)).0)
  {
    var pub := w.publishers[provider];
    e := match pub.pc
      case Clear => Rejection(pub.entry, "the PR no longer matches the preview")
      case Ready => pub.entry.(state := InFlight)
      case _ => pub.entry;
  }

  /** So does the end of a reconciliation. */
  lemma {:induction false} FinishWritesOwnRow(
      w: World, e: OutboxEntry, reviews: seq<RemoteReview>, comments: map<nat, seq<RemoteComment>>)
    returns (settled: OutboxEntry)
    ensures settled.prepared == e.prepared
    ensures var rules, u := Some(ProviderOf(e.prepared)), FinishReconcile(w, e, reviews, comments).t;
      u == w.t || (w.t.TransitionError(settled, rules).None? && u == w.t.Transition(settled, rules).0)
  {
    var matches := Matching(e, reviews, comments, RulesOf(ProviderOf(e.prepared)).marksReviews);
    settled := if matches.Some? then Settled(e, matches.value) else e;
  }

  /** Every action leaves the tables alone or runs one transaction on them. */
  ghost predicate IsTransaction(t: Tables, a: Action, u: Tables) {
    || u == t || u == UiTables(t, a)
    || (a.Prepare? && u == t.InsertPrepared(a.p, ProviderOf(a.p)).0)
    || (a.Opened? && u == t.Prune(KEEP_RECENT))
    || exists e, rules :: IsMove(t, e, rules, u)
  }

  ghost predicate IsMove(t: Tables, e: OutboxEntry, rules: Option<ProviderId>, u: Tables) {
    && t.TransitionError(e, rules).None? && u == t.Transition(e, rules).0
    && t.outbox[e.prepared.payload.id].prepared == e.prepared
  }

  lemma {:induction false} StepIsTransaction(w: World, provider: ProviderId, answers: Answers)
    requires Inv(w)
    ensures IsTransaction(w.t, Step(provider, answers), Next(w, Step(provider, answers)).t)
  {
    if w.up && provider in w.publishers {
      assert PublisherInv(w, provider, w.publishers[provider]);
      var e := HolderWritesOwnRow(w, provider, answers);
      var u := Next(w, Step(provider, answers)).t;
      assert u == w.t || IsMove(w.t, e, Some(provider), u);
    }
  }

  lemma {:induction false} FinishIsTransaction(
      w: World, e: OutboxEntry, reviews: seq<RemoteReview>, comments: map<nat, seq<RemoteComment>>)
    requires Inv(w)
    ensures IsTransaction(w.t, Finish(e, reviews, comments), Next(w, Finish(e, reviews, comments)).t)
  {
    if w.up && e in w.reconcilers {
      assert ReconcilerInv(w, e);
      var settled := FinishWritesOwnRow(w, e, reviews, comments);
      var u := Next(w, Finish(e, reviews, comments)).t;
      assert u == w.t || IsMove(w.t, settled, Some(ProviderOf(e.prepared)), u);
    }
  }

  lemma {:induction false} RecoverIsTransaction(w: World, op: OperationId)
    requires Inv(w)
    ensures IsTransaction(w.t, RecoverOne(op), Next(w, RecoverOne(op)).t)
  {
    var u := Next(w, RecoverOne(op)).t;
    if u != w.t {
      assert w.t.EntryValid(op);
      assert IsMove(w.t, Recovered(w.t.outbox[op]), None, u);
    }
  }

  lemma {:induction false} NextIsTransaction(w: World, a: Action)
    requires Inv(w)
    ensures IsTransaction(w.t, a, Next(w, a).t)
  {
    match a
    case Step(provider, answers) => StepIsTransaction(w, provider, answers);
    case Finish(e, reviews, comments) => FinishIsTransaction(w, e, reviews, comments);
    case RecoverOne(op) => RecoverIsTransaction(w, op);
    case _ =>
  }

  lemma {:induction false} StepMovesRow(w: World, a: Action, op: OperationId)
    requires Inv(w) && op in w.t.outbox
    ensures RowMoved(w.t, Next(w, a).t, op)
  {
    NextIsTransaction(w, a);
    TransactionMovesRow(w.t, a, Next(w, a).t, op);
  }

  lemma {:induction false} TransactionMovesRow(t: Tables, a: Action, u: Tables, op: OperationId)
    requires IsTransaction(t, a, u) && op in t.outbox
    ensures RowMoved(t, u, op)
  {
    if e, rules :| IsMove(t, e, rules, u) {
      assert u.outbox == t.outbox[e.prepared.payload.id := e];
    }
  }

  /** How far an operation is from having to be resolved; a move never goes back. */
  function Rank(s: OutboxState): nat {
    match s
    case Prepared => 0 case InFlight => 1 case UnknownOutcome => 2 case Confirmed => 3 case Rejected => 3
  }

  lemma {:induction false} OperationsOnlyAdvance(w: World, actions: seq<Action>, op: OperationId)
    requires Inv(w) && op in w.t.outbox
    ensures var u := Run(w, actions).t;
      && op in u.outbox && u.outbox[op].prepared == w.t.outbox[op].prepared
      && Rank(u.outbox[op].state) >= Rank(w.t.outbox[op].state)
      && (w.t.outbox[op].state.Confirmed? || w.t.outbox[op].state.Rejected?
        ==> u.outbox[op].state == w.t.outbox[op].state)
      && (w.t.outbox[op].state.UnknownOutcome? ==> !u.outbox[op].state.Rejected?)
  {
    if actions != [] {
      var front := actions[..|actions| - 1];
      OperationsOnlyAdvance(w, front, op);
      RunKeepsInv(w, front);
      StepMovesRow(Run(w, front), actions[|actions| - 1], op);
    }
  }

  /** Only a review that is still Prepared can come to be about to be sent. */
  lemma {:induction false} DurableWasPrepared(w: World, provider: ProviderId, answers: Answers, op: OperationId)
    requires provider in w.publishers && PublisherInv(w, provider, w.publishers[provider])
    requires var v := StepPublisher(w, provider, answers);
      provider in v.publishers && IsDurable(v.publishers[provider], op)
    ensures op in w.t.outbox && w.t.outbox[op].state.Prepared?
  {
  }

  /** An operation that has left Prepared and is not about to be sent. */
  ghost predicate CannotSend(w: World, op: OperationId) {
    op in w.t.outbox && !w.t.outbox[op].state.Prepared? && !AboutToSend(w, op)
  }

  /** The other publications stay as they are; one that enters is at its beginning. */
  lemma {:induction false} OthersStay(w: World, a: Action, q: ProviderId)
    requires q in Next(w, a).publishers && !(a.Step? && a.provider == q)
    ensures (q in w.publishers && Next(w, a).publishers[q] == w.publishers[q]) || Next(w, a).publishers[q].pc.Begun?
  {
    if a.Step? && w.up && a.provider in w.publishers {
      OthersStayAtStep(w, a.provider, a.answers, q);
    }
  }

  lemma {:induction false} OthersStayAtStep(w: World, provider: ProviderId, answers: Answers, q: ProviderId)
    requires provider in w.publishers && q in StepPublisher(w, provider, answers).publishers && q != provider
    ensures q in w.publishers && StepPublisher(w, provider, answers).publishers[q] == w.publishers[q]
  {
  }

  lemma {:induction false} StepStartsNoSend(w: World, a: Action, op: OperationId)
    requires Inv(w) && CannotSend(w, op)
    ensures !AboutToSend(Next(w, a), op)
  {
    var v := Next(w, a);
    forall q | q in v.publishers ensures !IsDurable(v.publishers[q], op) {
      if a.Step? && a.provider == q {
        OwnStepStartsNoSend(w, q, a.answers, op);
      } else {
        OthersStay(w, a, q);
      }
    }
  }

  lemma {:induction false} OwnStepStartsNoSend(w: World, q: ProviderId, answers: Answers, op: OperationId)
    requires PublishersInv(w) && CannotSend(w, op) && q in Next(w, Step(q, answers)).publishers
    ensures !IsDurable(Next(w, Step(q, answers)).publishers[q], op)
  {
    if w.up && q in w.publishers {
      assert PublisherInv(w, q, w.publishers[q]);
      if IsDurable(StepPublisher(w, q, answers).publishers[q], op) {
        DurableWasPrepared(w, q, answers, op);
      }
    }
  }

  lemma {:induction false} StepKeepsCannotSend(w: World, a: Action, op: OperationId)
    requires Inv(w) && CannotSend(w, op)
    ensures CannotSend(Next(w, a), op)
  {
    StepMovesRow(w, a, op);
    StepStartsNoSend(w, a, op);
  }

  lemma {:induction false} StepSendsOther(w: World, a: Action, op: OperationId)
    requires Inv(w) && CannotSend(w, op)
    ensures Sent(Next(w, a).sends, op) == Sent(w.sends, op)
  {
    SendingStep(w, a);
    if Next(w, a).sends != w.sends {
      var p :| IsSend(w, Next(w, a), p);
      assert p.payload.id != op;
      AppendedSend(w.sends, p, op);
    }
  }

  /**
   No route sends again: once an operation has left Prepared, and unless a publication is just about
   to send it, nothing sends it any more. That holds of every operation that is unresolved or
   settled, and of one in flight whose publication was answered, failed or panicked.
   */
  lemma {:induction false} NoResend(w: World, actions: seq<Action>, op: OperationId)
    requires Inv(w) && CannotSend(w, op)
    ensures CannotSend(Run(w, actions), op) && Sent(Run(w, actions).sends, op) == Sent(w.sends, op)
  {
    if actions != [] {
      var front, a := actions[..|actions| - 1], actions[|actions| - 1];
      NoResend(w, front, op);
      RunKeepsInv(w, front);
      StepKeepsCannotSend(Run(w, front), a, op);
      StepSendsOther(Run(w, front), a, op);
    }
  }

  /** Later states of the lifecycle are never about to be sent. */
  lemma {:induction false} SettledCannotSend(w: World, op: OperationId)
    requires Inv(w) && op in w.t.outbox && Rank(w.t.outbox[op].state) >= 2
    ensures CannotSend(w, op)
  {
    forall q | q in w.publishers ensures !IsDurable(w.publishers[q], op) {
      assert PublisherInv(w, q, w.publishers[q]);
    }
  }

  lemma {:induction false} AppendedSend(sends: seq<PreparedReview>, p: PreparedReview, op: OperationId)
    requires p.payload.id != op
    ensures Sent(sends + [p], op) == Sent(sends, op)
  {
    if Sent(sends, op) {
      var i :| 0 <= i < |sends| && sends[i].payload.id == op;
      assert (sends + [p])[i].payload.id == op;
    }
  }

  // ----- drafts over time -----

  /** Operation `op` carried the text of draft `id` as its comment `i`, which the provider showed as comment `j`. */
  ghost predicate WasShown(w: World, id: DraftId, op: OperationId, i: nat, j: nat)
    requires id in w.t.drafts
  {
    && op in w.t.outbox && w.t.outbox[op].state.Confirmed? && op in w.shown
    && w.t.outbox[op].remoteId.Some? && w.shown[op].review.id == w.t.outbox[op].remoteId
    && var comments := w.t.outbox[op].prepared.payload.comments;
    && i < |comments| && comments[i].draft == id
    && comments[i].version == w.t.drafts[id].version && comments[i].body == w.t.drafts[id].body
    && j < |w.shown[op].comments| && w.shown[op].comments[j].body == Some(w.t.drafts[id].body)
  }

  lemma {:induction false} EvidenceWasShown(w: World, id: DraftId, op: OperationId) returns (i: nat, j: nat)
    requires ShownInv(w) && w.t.OutboxValid() && id in w.t.drafts && w.t.drafts[id].id == id
    requires op in w.t.outbox && IsEvidence(w.t.outbox[op], w.t.drafts[id])
    ensures WasShown(w, id, op, i, j)
  {
    var e := w.t.outbox[op];
    assert w.t.EntryValid(op);
    assert Backed(w, e);
    i :| 0 <= i < |e.prepared.payload.comments| && IsTextOf(e.prepared.payload.comments[i], w.t.drafts[id]);
    j := MatchedCommentIsShown(e.prepared, w.shown[op].review, w.shown[op].comments,
      RulesOf(ProviderOf(e.prepared)).marksReviews, i);
  }

  /**
   A published draft is backed by a confirmed operation whose payload carried its exact text, and
   the provider showed a review with the recorded id that holds this text as one of its comments.
   */
  lemma {:induction false} PublishedWasShown(
      actions: seq<Action>, id: DraftId) returns (op: OperationId, i: nat, j: nat)
    requires var t := Run(Start, actions).t; id in t.drafts && t.drafts[id].published
    ensures WasShown(Run(Start, actions), id, op, i, j)
  {
    StartIsValid();
    RunKeepsInv(Start, actions);
    var w := Run(Start, actions);
    assert w.t.DraftValid(id) && w.t.HasEvidence(w.t.drafts[id]);
    op :| op in w.t.outbox && IsEvidence(w.t.outbox[op], w.t.drafts[id]);
    i, j := EvidenceWasShown(w, id, op);
  }

  /** What one action may do to a stored draft. */
  ghost predicate DraftStep(t: Tables, a: Action, u: Tables, id: DraftId)
    requires id in t.drafts
  {
    var d := t.drafts[id];
    if id !in u.drafts then d.published || (a.Discard? && a.id == id && a.version == d.version)
    else
      && (d.published ==> u.drafts[id] == d)
      && u.drafts[id].version >= d.version
      && (u.drafts[id].version == d.version ==> u.drafts[id].body == d.body)
      && u.drafts[id].snapshot == d.snapshot && u.drafts[id].anchor == d.anchor
  }

  lemma {:induction false} MoveKeepsDraft(t: Tables, e: OutboxEntry, rules: Option<ProviderId>, id: DraftId, a: Action)
    requires t.DraftsValid() && id in t.drafts
    ensures DraftStep(t, a, t.Transition(e, rules).0, id)
  {
    assert t.DraftValid(id);
    OnlyCarriedTextIsPublished(t, e, rules, id);
  }

  lemma {:induction false} UiKeepsDraft(t: Tables, a: Action, id: DraftId)
    requires t.DraftsValid() && id in t.drafts
    ensures DraftStep(t, a, UiTables(t, a), id)
  {
    assert t.DraftValid(id);
  }

  lemma {:induction false} StepKeepsDraft(w: World, a: Action, id: DraftId)
    requires Inv(w) && id in w.t.drafts
    ensures DraftStep(w.t, a, Next(w, a).t, id)
  {
    NextIsTransaction(w, a);
    TransactionKeepsDraft(w.t, a, Next(w, a).t, id);
  }

  lemma {:induction false} TransactionKeepsDraft(t: Tables, a: Action, u: Tables, id: DraftId)
    requires IsTransaction(t, a, u) && t.Valid() && id in t.drafts
    ensures DraftStep(t, a, u, id)
  {
    UiKeepsDraft(t, a, id);
    if e, rules :| IsMove(t, e, rules, u) {
      MoveKeepsDraft(t, e, rules, id, a);
    } else if a.Opened? {
      PruneKeepsWork(t, KEEP_RECENT);
    }
  }

  /** The draft's row is there in every state of the run. */
  ghost predicate PresentThroughout(w: World, actions: seq<Action>, id: DraftId) {
    forall k :: 0 <= k <= |actions| ==> id in Run(w, actions[..k]).t.drafts
  }

  lemma {:induction false} PresentInFront(w: World, actions: seq<Action>, id: DraftId)
    requires actions != [] && PresentThroughout(w, actions, id)
    ensures PresentThroughout(w, actions[..|actions| - 1], id)
    ensures id in w.t.drafts && id in Run(w, actions[..|actions| - 1]).t.drafts && id in Run(w, actions).t.drafts
  {
    var front := actions[..|actions| - 1];
    forall k | 0 <= k <= |front| ensures id in Run(w, front[..k]).t.drafts {
      assert front[..k] == actions[..k];
    }
    assert actions[..0] == [] && actions[..|front|] == front && actions[..|actions|] == actions;
  }

  /**
   While a draft stays stored, its version never decreases, each version has one body, its place
   never changes, and from the moment it is published the whole row never changes.
   */
  lemma {:induction false} StoredDraftHistory(w: World, actions: seq<Action>, id: DraftId)
    requires Inv(w) && PresentThroughout(w, actions, id)
    ensures id in w.t.drafts && id in Run(w, actions).t.drafts
    ensures var d, later := w.t.drafts[id], Run(w, actions).t.drafts[id];
      && later.version >= d.version && (later.version == d.version ==> later.body == d.body)
      && later.snapshot == d.snapshot && later.anchor == d.anchor
      && (d.published ==> later == d)
  {
    if actions != [] {
      var front := actions[..|actions| - 1];
      PresentInFront(w, actions, id);
      StoredDraftHistory(w, front, id);
      RunKeepsInv(w, front);
      StepKeepsDraft(Run(w, front), actions[|actions| - 1], id);
    } else {
      assert actions[..0] == [];
    }
  }

  predicate Discards(actions: seq<Action>, id: DraftId) {
    exists k :: 0 <= k < |actions| && actions[k].Discard? && actions[k].id == id
  }

  /** An unpublished draft disappears only by discarding it: crashes, reopening and pruning keep it. */
  lemma {:induction false} UnpublishedDraftIsKept(w: World, actions: seq<Action>, id: DraftId)
    requires Inv(w) && id in w.t.drafts && !Discards(actions, id)
    ensures || id in Run(w, actions).t.drafts
            || exists k :: 0 <= k <= |actions| && PublishedAt(w, actions, k, id)
  {
    if actions != [] {
      var n := |actions| - 1;
      var front, a := actions[..n], actions[n];
      assert forall k :: 0 <= k < n ==> front[k] == actions[k];
      UnpublishedDraftIsKept(w, front, id);
      if id in Run(w, front).t.drafts {
        RunKeepsInv(w, front);
        StepKeepsDraft(Run(w, front), a, id);
        if id !in Run(w, actions).t.drafts { assert PublishedAt(w, actions, n, id); }
      } else {
        var k :| 0 <= k <= n && PublishedAt(w, front, k, id);
        assert front[..k] == actions[..k];
        assert PublishedAt(w, actions, k, id);
      }
    }
  }

  ghost predicate PublishedAt(w: World, actions: seq<Action>, k: nat, id: DraftId)
    requires k <= |actions|
  {
    var t := Run(w, actions[..k]).t;
    id in t.drafts && t.drafts[id].published
  }

  // ----- the sequential code is a run -----

  function Steps(provider: ProviderId, answers: Answers, n: nat): seq<Action> {
    seq(n, _ => Step(provider, answers))
  }

  lemma {:induction false} RunSplit(w: World, first: seq<Action>, second: seq<Action>)
    ensures Run(w, first + second) == Run(Run(w, first), second)
  {
    if second == [] {
      assert first + second == first;
    } else {
      var n := |second| - 1;
      RunSplit(w, first, second[..n]);
      assert (first + second)[..|first| + n] == first + second[..n];
      assert (first + second)[|first| + n] == second[n];
    }
  }

  lemma {:induction false} IdleSteps(w: World, provider: ProviderId, answers: Answers, n: nat)
    requires provider !in w.publishers
    ensures Run(w, Steps(provider, answers, n)) == w
  {
    if n > 0 {
      assert Steps(provider, answers, n)[..n - 1] == Steps(provider, answers, n - 1);
      IdleSteps(w, provider, answers, n - 1);
    }
  }

  lemma {:induction false} HolderRunsAlone(w: World, provider: ProviderId, answers: Answers, n: nat)
    requires w.up && provider in w.publishers && n > w.publishers[provider].pc.Left()
    ensures var (t, _, sent) := RunAlone(w.publishers[provider], RulesOf(provider), w.t, answers);
      && Run(w, Steps(provider, answers, n)).t == t
      && (Run(w, Steps(provider, answers, n)).sends == if sent then w.sends + [w.publishers[provider].p] else w.sends)
    decreases w.publishers[provider].pc.Left()
  {
    var v := StepPublisher(w, provider, answers);
    FirstStep(w, provider, answers, n);
    match Advance(w.publishers[provider], RulesOf(provider), w.t, answers)
    case Returned(_, _) => IdleSteps(v, provider, answers, n - 1);
    case Going(next, _, sent) =>
      StepGoesOn(w.publishers[provider], RulesOf(provider), w.t, answers);
      HolderRunsAlone(v, provider, answers, n - 1);
      if sent { LastStepSendsNothing(v, provider, answers); }
  }

  lemma {:induction false} StepGoesOn(pub: Publisher, rules: Rules, t: Tables, a: Answers)
    ensures var step := Advance(pub, rules, t, a);
      step.Going? ==>
        && step.publisher.pc.Left() == pub.pc.Left() - 1 && step.publisher.p == pub.p
        && (step.sent ==> step.publisher.pc.Answered?)
  {}

  lemma {:induction false} FirstStep(w: World, provider: ProviderId, answers: Answers, n: nat)
    requires w.up && provider in w.publishers && n > 0
    ensures Run(w, Steps(provider, answers, n))
      == Run(StepPublisher(w, provider, answers), Steps(provider, answers, n - 1))
  {
    var first := [Step(provider, answers)];
    assert Steps(provider, answers, n) == first + Steps(provider, answers, n - 1);
    RunSplit(w, first, Steps(provider, answers, n - 1));
    assert first[..0] == [];
    assert Run(w, first) == Next(Run(w, []), first[0]);
  }

  lemma {:induction false} LastStepSendsNothing(w: World, provider: ProviderId, answers: Answers)
    requires provider in w.publishers && w.publishers[provider].pc.Answered?
    ensures !RunAlone(w.publishers[provider], RulesOf(provider), w.t, answers).2
  {}

  /** `Outbox.Publish` does what the machine does when it enters the gate and nothing comes between. */
  lemma {:induction false} PublishAloneIsARun(w: World, p: PreparedReview, answers: Answers)
    requires w.up && ProviderOf(p) !in w.publishers && ProviderOf(p) !in w.poisoned
    ensures var (t, _, sent) := PublishAlone(p, RulesOf(ProviderOf(p)), w.t, answers);
      var v := Run(w, [Enter(p)] + Steps(ProviderOf(p), answers, 7));
      v.t == t && v.sends == (if sent then w.sends + [p] else w.sends)
  {
    var provider := ProviderOf(p);
    RunSplit(w, [Enter(p)], Steps(provider, answers, 7));
    assert [Enter(p)][..0] == [];
    var v := Run(w, [Enter(p)]);
    assert v == Next(w, Enter(p));
    if provider in v.publishers {
      HolderRunsAlone(v, provider, answers, 7);
    } else {
      IdleSteps(v, provider, answers, 7);
    }
  }

  /** The tables once `p` is prepared. */
  function WithPrepared(t: Tables, p: PreparedReview): Tables {
    t.(outbox := t.outbox[p.payload.id := OutboxEntry(p, Prepared, {}, None, None)])
  }

  /** Nothing keeps the review from being prepared and sent. */
  ghost predicate IsReady(w: World, p: PreparedReview, a: Answers) {
    && w.up && w.t.Valid() && ProviderOf(p) !in w.publishers && ProviderOf(p) !in w.poisoned
    && p.payload.snapshot in w.t.snapshots && p.fingerprint.of == p.payload && p.payload.id !in w.t.outbox
    && !IsBlocked(w.t, p.payload) && IsUnmoved(p.payload, a)
    && (forall i :: 0 <= i < |p.payload.comments| ==> IsStillStored(w.t, p.payload, p.payload.comments[i]))
    && a.reviews.Some? && a.again == Some(p.payload.target)
  }

  lemma {:induction false} PreparedMaySend(w: World, p: PreparedReview, a: Answers)
    requires IsReady(w, p, a)
    ensures Next(w, Prepare(p)) == w.(t := WithPrepared(w.t, p))
    ensures WithPrepared(w.t, p).Valid() && MaySend(WithPrepared(w.t, p), p, RulesOf(ProviderOf(p)), a)
  {
    PreparedExactly(w.t, p, ProviderOf(p));
    InsertPreparedKeepsValid(w.t, p, ProviderOf(p));
    var t := WithPrepared(w.t, p);
    forall op | op in t.outbox ensures !IsInTheWay(t.outbox[op], p.payload) {
      assert op != p.payload.id ==> op in w.t.outbox && t.outbox[op] == w.t.outbox[op];
    }
    forall i | 0 <= i < |p.payload.comments| ensures IsStillStored(t, p.payload, p.payload.comments[i]) {
      assert IsStillStored(w.t, p.payload, p.payload.comments[i]);
    }
  }

  /**
   And so, from any such state, a review that the provider shows as it was sent is sent once more,
   confirmed under its id, and exactly the texts it carries are marked.
   */
  lemma {:induction false} ReviewGetsThrough(w: World, p: PreparedReview, a: Answers)
    requires IsReady(w, p, a)
    requires a.outcome.Accepted? && a.outcome.response.id.Some? && a.comments.Some?
    requires IsOurs(p, a.outcome.response, a.comments.value, RulesOf(ProviderOf(p)).marksReviews)
    ensures var v := Run(w, [Prepare(p)] + ([Enter(p)] + Steps(ProviderOf(p), a, 7)));
      && v.sends == w.sends + [p]
      && p.payload.id in v.t.outbox && v.t.outbox[p.payload.id].state == Confirmed
      && v.t.outbox[p.payload.id].remoteId == a.outcome.response.id
      && v.t.drafts.Keys == w.t.drafts.Keys
      && forall id :: id in w.t.drafts ==>
           v.t.drafts[id] == if HasText(p.payload.comments, w.t.drafts[id])
                             then w.t.drafts[id].(published := true) else w.t.drafts[id]
  {
    var prepared := Next(w, Prepare(p));
    PreparedMaySend(w, p, a);
    RunSplit(w, [Prepare(p)], [Enter(p)] + Steps(ProviderOf(p), a, 7));
    RunOne(w, Prepare(p));
    PublishAloneIsARun(prepared, p, a);
    PublishedExactly(p, RulesOf(ProviderOf(p)), prepared.t, a);
  }

  /** A reconciliation that nothing interrupts stores what the sequential code stores. */
  lemma {:induction false} ReconcileIsARun(
      w: World, op: OperationId, reviews: seq<RemoteReview>, comments: map<nat, seq<RemoteComment>>)
    requires w.up && op in w.t.outbox && w.t.outbox[op].state == UnknownOutcome
    ensures var e, v := w.t.outbox[op], Run(w, [Read(op), Finish(w.t.outbox[op], reviews, comments)]);
      var matches := Matching(e, reviews, comments, RulesOf(ProviderOf(e.prepared)).marksReviews);
      v.t == if matches.None? then w.t else Settle(e, RulesOf(ProviderOf(e.prepared)), w.t, matches.value).0
  {
    var e := w.t.outbox[op];
    var first, second := [Read(op)], [Finish(e, reviews, comments)];
    assert [Read(op), Finish(e, reviews, comments)] == first + second;
    RunSplit(w, first, second);
    RunOne(w, Read(op));
    RunOne(Next(w, Read(op)), second[0]);
  }

  function Recoveries(ops: seq<OperationId>): seq<Action> {
    seq(|ops|, i requires 0 <= i < |ops| => RecoverOne(ops[i]))
  }

  /** These operations, and no others, are recovered. */
  ghost predicate HasRecovered(w: World, v: World, ops: seq<OperationId>) {
    && v == w.(t := w.t.(outbox := v.t.outbox)) && v.t.outbox.Keys == w.t.outbox.Keys
    && forall op :: op in w.t.outbox ==>
         v.t.outbox[op] == if op in ops then Recovered(w.t.outbox[op]) else w.t.outbox[op]
  }

  lemma {:induction false} RecoveriesRun(w: World, ops: seq<OperationId>)
    requires w.t.Valid() && !w.up
    ensures HasRecovered(w, Run(w, Recoveries(ops)), ops)
  {
    if ops != [] {
      var front, last := ops[..|ops| - 1], ops[|ops| - 1];
      assert Recoveries(ops)[..|ops| - 1] == Recoveries(front);
      RecoveriesRun(w, front);
      RecoversOne(w, Run(w, Recoveries(front)), front, last);
      assert ops == front + [last];
    }
  }

  lemma {:induction false} RecoversOne(w: World, v: World, ops: seq<OperationId>, op: OperationId)
    requires w.t.Valid() && !w.up && HasRecovered(w, v, ops)
    ensures HasRecovered(w, Next(v, RecoverOne(op)), ops + [op])
  {
    if op in w.t.outbox && v.t.outbox[op].state.InFlight? {
      assert w.t.EntryValid(op);
      RowRecovers(v, op);
    } else {
      assert Next(v, RecoverOne(op)) == v;
    }
  }

  lemma {:induction false} RowRecovers(v: World, op: OperationId)
    requires !v.up && op in v.t.outbox && v.t.outbox[op].state.InFlight? && v.t.outbox[op].prepared.payload.id == op
    ensures Next(v, RecoverOne(op)) == v.(t := v.t.(outbox := v.t.outbox[op := Recovered(v.t.outbox[op])]))
  {
  }

  /** Dying and opening again, whatever the order of the recoveries, is what `Store.Open` does. */
  lemma {:induction false} ReopenIsARun(w: World, ops: seq<OperationId>)
    requires w.t.Valid() && forall op :: op in w.t.outbox ==> op in ops
    ensures var v := Run(w, [Crash] + Recoveries(ops) + [Opened]);
      v.up && v.t == w.t.Recover().Prune(50) && v.publishers == map[] && v.reconcilers == {} && v.poisoned == {}
  {
    var down := Next(w, Crash);
    var recovered := Run(down, Recoveries(ops));
    ReopenRuns(w, ops);
    RecoveriesRun(down, ops);
    RecoveredOpens(w.t, recovered);
  }

  lemma {:induction false} ReopenRuns(w: World, ops: seq<OperationId>)
    ensures Run(w, [Crash] + Recoveries(ops) + [Opened]) == Next(Run(Next(w, Crash), Recoveries(ops)), Opened)
  {
    RunSplit(w, [Crash] + Recoveries(ops), [Opened]);
    RunSplit(w, [Crash], Recoveries(ops));
    RunOne(w, Crash);
    RunOne(Run(Next(w, Crash), Recoveries(ops)), Opened);
  }

  lemma {:induction false} RunOne(w: World, a: Action)
    ensures Run(w, [a]) == Next(w, a)
  {
    assert [a][..0] == [];
  }

  lemma {:induction false} RecoveredOpens(t: Tables, v: World)
    requires !v.up && v.t == t.(outbox := v.t.outbox) && v.t.outbox.Keys == t.outbox.Keys
    requires forall op :: op in t.outbox ==> v.t.outbox[op] == Recovered(t.outbox[op])
    ensures Next(v, Opened) == v.(t := t.Recover().Prune(50), up := true)
  {
    assert v.t == t.Recover();
  }
}

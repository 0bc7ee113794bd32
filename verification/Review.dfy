/**
 Drafts, frozen review payloads and the outbox lifecycle
 (crates/core/src/review.rs, crates/core/src/domain.rs), and the comparison of
 a sent review with what the provider shows (crates/adapters/src/outbox.rs).
 */
module Review {
  import opened Collections
  import opened Wrappers

  datatype DraftId = DraftId(text: string)
  datatype OperationId = OperationId(text: string)
  datatype ProviderId = ProviderId(text: string)

  const U64_MAX: nat := 0xFFFF_FFFF_FFFF_FFFF
  const I64_MAX: nat := 0x7FFF_FFFF_FFFF_FFFF

  datatype Side = Left | Right {
    function Api(): string {
      match this
      case Left => "LEFT"
      case Right => "RIGHT"
    }
  }

  /** The source lines a draft is attached to; a saved draft never moves. */
  datatype Anchor = Anchor(file: string, side: Side, startLine: nat, line: nat)

  /** A frozen patch; `eligible` lists the ranges a line comment may cover. */
  datatype Patch = Patch(origin: string, files: set<string>, eligible: set<Anchor>) {
    /** Whether a comment with this anchor can be stored. */
    predicate Admits(a: Anchor, fileLevel: bool) {
      a.file in files && (fileLevel || a in eligible)
    }
  }

  /** A SHA-256 digest of the patch, taken to be injective: an id names one patch. */
  datatype SnapshotId = PatchDigest(of: Patch)

  datatype Snapshot = Snapshot(id: SnapshotId, patch: Patch) {
    predicate VerifyIdentity() {
      id == PatchDigest(patch)
    }
  }

  datatype Draft = Draft(
    id: DraftId,
    snapshot: SnapshotId,
    anchor: Anchor,
    fileLevel: bool,
    body: string,
    version: nat,
    savedVersion: nat,
    published: bool)
  {
    predicate IsSaved() {
      version == savedVersion
    }
  }

  datatype PreparedComment = PreparedComment(
    draft: DraftId,
    version: nat,
    path: string,
    body: string,
    side: Side,
    startLine: nat,
    line: nat)

  /** `details` stands for the target fields that are only ever compared as a whole. */
  datatype RemoteTarget = RemoteTarget(
    provider: ProviderId,
    repository: string,
    account: string,
    pr: nat,
    head: string,
    open: bool,
    pendingReview: bool,
    details: string)

  datatype Verdict = Approve | RequestChanges | Comment {
    function RemoteState(): string {
      match this
      case Approve => "APPROVED"
      case RequestChanges => "CHANGES_REQUESTED"
      case Comment => "COMMENTED"
    }
  }

  /** What a preview freezes. */
  datatype Payload = Payload(
    id: OperationId,
    snapshot: SnapshotId,
    target: RemoteTarget,
    verdict: Verdict,
    summary: string,
    comments: seq<PreparedComment>)

  /** A SHA-256 digest of the payload, taken to be injective: equal fingerprints mean equal payloads. */
  datatype Fingerprint = Digest(of: Payload)

  datatype PreparedReview = PreparedReview(payload: Payload, fingerprint: Fingerprint) {
    predicate Verify(rules: ProviderId) {
      rules == payload.target.provider && fingerprint == Digest(payload)
    }
  }

  datatype OutboxState = Prepared | InFlight | Confirmed | Rejected | UnknownOutcome {
    predicate CanTransition(to: OutboxState) {
      || (this == Prepared && to == InFlight)
      || (this == Prepared && to == Rejected)
      || (this == InFlight && to == Confirmed)
      || (this == InFlight && to == Rejected)
      || (this == InFlight && to == UnknownOutcome)
      || (this == UnknownOutcome && to == Confirmed)
    }

    /** The outcome of a possible send is not known. */
    predicate Unresolved() {
      InFlight? || UnknownOutcome?
    }

    /** States in which pruning must keep the reviewed snapshot. */
    predicate Pending() {
      Prepared? || Unresolved()
    }
  }

  datatype OutboxEntry = OutboxEntry(
    prepared: PreparedReview,
    state: OutboxState,
    baseline: set<nat>,
    remoteId: Option<nat>,
    diagnostic: Option<string>)

  predicate SamePr(a: RemoteTarget, b: RemoteTarget) {
    a.provider == b.provider && a.repository == b.repository && a.pr == b.pr && a.account == b.account
  }

  // ----- matching a sent review with the provider's answer -----

  /** A review as the provider reports it; a missing or ill-typed JSON field is `None`. */
  datatype RemoteReview = RemoteReview(
    id: Option<nat>,
    fingerprint: Option<Fingerprint>,
    commit: Option<string>,
    state: Option<string>,
    body: Option<string>,
    login: Option<string>)

  datatype RemoteComment = RemoteComment(
    path: Option<string>,
    body: Option<string>,
    side: Option<string>,
    startSide: Option<string>,
    startLine: Option<nat>,
    originalStartLine: Option<nat>,
    line: Option<nat>,
    originalLine: Option<nat>)

  datatype CommentKey = CommentKey(path: string, body: string, side: string, startLine: nat, line: nat)

  predicate MatchesMetadata(p: PreparedReview, r: RemoteReview, marked: bool) {
    && (marked ==> r.fingerprint == Some(p.fingerprint))
    && r.commit == Some(p.payload.target.head)
    && r.state == Some(p.payload.verdict.RemoteState())
    && (if r.body.Some? then r.body.value else "") == p.payload.summary
    && r.login == Some(p.payload.target.account)
  }

  function OrElse<T>(first: Option<T>, second: Option<T>): Option<T> {
    if first.Some? then first else second
  }

  function KeyOf(c: RemoteComment): Option<CommentKey> {
    var line := OrElse(c.line, c.originalLine);
    if line.None? || c.side.None? || c.path.None? || c.body.None? then None
    else
      var start := OrElse(OrElse(c.startLine, c.originalStartLine), line).value;
      if c.startSide.Some? && c.startSide != c.side then None
      else Some(CommentKey(c.path.value, c.body.value, c.side.value, start, line.value))
  }

  function ExpectedKey(c: PreparedComment): CommentKey {
    CommentKey(c.path, c.body, c.side.Api(), c.startLine, c.line)
  }

  function ExpectedKeys(comments: seq<PreparedComment>): seq<CommentKey> {
    seq(|comments|, i requires 0 <= i < |comments| => ExpectedKey(comments[i]))
  }

  /** The keys of all comments, or `None` when one of them has no key. */
  function ActualKeys(comments: seq<RemoteComment>): (keys: Option<seq<CommentKey>>)
    ensures keys.Some? ==> |keys.value| == |comments|
    ensures keys.Some? <==> forall i :: 0 <= i < |comments| ==> KeyOf(comments[i]).Some?
    ensures keys.Some? ==> forall i :: 0 <= i < |comments| ==> Some(keys.value[i]) == KeyOf(comments[i])
  {
    if comments == [] then Some([])
    else
      var rest := ActualKeys(comments[..|comments| - 1]);
      var last := KeyOf(comments[|comments| - 1]);
      if rest.None? || last.None? then None else Some(rest.value + [last.value])
  }

  /** The source sorts both key lists and compares them, which is equality as multisets. */
  predicate MatchesReview(p: PreparedReview, r: RemoteReview, comments: seq<RemoteComment>, marked: bool) {
    && MatchesMetadata(p, r, marked)
    && |comments| == |p.payload.comments|
    && ActualKeys(comments).Some?
    && multiset(ActualKeys(comments).value) == multiset(ExpectedKeys(p.payload.comments))
  }

  /** The provider shows a comment of the preview: same file, text, side and lines. */
  predicate Shows(c: RemoteComment, e: PreparedComment) {
    && c.path == Some(e.path) && c.body == Some(e.body)
    && c.side == Some(if e.side.Left? then "LEFT" else "RIGHT")
    && (c.startSide.Some? ==> c.startSide == c.side)
    && (if c.line.Some? then c.line else c.originalLine) == Some(e.line)
    && e.startLine ==
      if c.startLine.Some? then c.startLine.value
      else if c.originalStartLine.Some? then c.originalStartLine.value
      else e.line
  }

  lemma {:induction false} KeyShows(c: RemoteComment, e: PreparedComment)
    ensures KeyOf(c) == Some(ExpectedKey(e)) <==> Shows(c, e)
  {
    var side := e.side.Api();
    assert side == if e.side.Left? then "LEFT" else "RIGHT";
  }

  /** A match shows every comment of the preview at its place with its exact text. */
  lemma {:induction false} MatchedCommentIsShown(
      p: PreparedReview, r: RemoteReview, comments: seq<RemoteComment>, marked: bool, i: nat)
    returns (j: nat)
    requires MatchesReview(p, r, comments, marked) && i < |p.payload.comments|
    ensures j < |comments| && Shows(comments[j], p.payload.comments[i])
  {
    var order := ReorderingOf(ActualKeys(comments).value, ExpectedKeys(p.payload.comments));
    j := order[i];
    KeyShows(comments[j], p.payload.comments[i]);
  }

  /** The remote comments are those of the preview, in whatever order. */
  ghost predicate AreShown(comments: seq<RemoteComment>, expected: seq<PreparedComment>) {
    exists order: seq<nat> :: AreShownAs(comments, expected, order)
  }

  ghost predicate AreShownAs(comments: seq<RemoteComment>, expected: seq<PreparedComment>, order: seq<nat>) {
    && |order| == |expected| == |comments|
    && (forall i :: 0 <= i < |order| ==> order[i] < |comments|)
    && (forall i, j :: 0 <= i < j < |order| ==> order[i] != order[j])
    && forall i :: 0 <= i < |order| ==> Shows(comments[order[i]], expected[i])
  }

  lemma {:induction false} SameKeysAreShown(comments: seq<RemoteComment>, expected: seq<PreparedComment>)
    requires ActualKeys(comments).Some? && multiset(ActualKeys(comments).value) == multiset(ExpectedKeys(expected))
    ensures AreShown(comments, expected)
  {
    var order := ReorderingOf(ActualKeys(comments).value, ExpectedKeys(expected));
    forall i | 0 <= i < |order| ensures Shows(comments[order[i]], expected[i]) {
      KeyShows(comments[order[i]], expected[i]);
    }
    assert AreShownAs(comments, expected, order);
  }

  lemma {:induction false} ShownHaveSameKeys(
      comments: seq<RemoteComment>, expected: seq<PreparedComment>, order: seq<nat>)
    requires AreShownAs(comments, expected, order)
    ensures ActualKeys(comments).Some? && multiset(ActualKeys(comments).value) == multiset(ExpectedKeys(expected))
  {
    forall i | 0 <= i < |comments| ensures KeyOf(comments[i]).Some? {
      var k := PlaceOf(order, i);
      KeyShows(comments[i], expected[k]);
    }
    forall i | 0 <= i < |order| ensures ActualKeys(comments).value[order[i]] == ExpectedKeys(expected)[i] {
      KeyShows(comments[order[i]], expected[i]);
    }
    ReorderingIsSame(ActualKeys(comments).value, ExpectedKeys(expected), order);
  }

  /** The review on the provider's side is the one that was previewed, field by field. */
  ghost predicate IsOurs(p: PreparedReview, r: RemoteReview, comments: seq<RemoteComment>, marked: bool) {
    && (marked ==> r.fingerprint == Some(p.fingerprint))
    && r.commit == Some(p.payload.target.head) && r.login == Some(p.payload.target.account)
    && r.state == Some(match p.payload.verdict
                       case Approve => "APPROVED"
                       case RequestChanges => "CHANGES_REQUESTED"
                       case Comment => "COMMENTED")
    && (r.body == Some(p.payload.summary) || (r.body.None? && p.payload.summary == ""))
    && AreShown(comments, p.payload.comments)
  }

  lemma {:induction false} MatchesExactly(
      p: PreparedReview, r: RemoteReview, comments: seq<RemoteComment>, marked: bool)
    ensures MatchesReview(p, r, comments, marked) <==> IsOurs(p, r, comments, marked)
  {
    if MatchesReview(p, r, comments, marked) {
      SameKeysAreShown(comments, p.payload.comments);
    }
    if IsOurs(p, r, comments, marked) {
      var order: seq<nat> :| AreShownAs(comments, p.payload.comments, order);
      ShownHaveSameKeys(comments, p.payload.comments, order);
    }
  }
}

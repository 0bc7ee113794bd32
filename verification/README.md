# A verified model of diffz's cores

diffz is a review tool for local and hosted changes. This project models the parts
of it whose correctness is not visible from any one function, and proves what they
promise: a review is never sent twice, text is never marked published unless the
provider shows it, one window runs on a state directory, and so on.

| file | models |
|---|---|
| `Wrappers.dfy`, `Collections.dfy`, `Text.dfy` | optional values and results; sizes of sets; texts as bytes and which of them are UTF-8 |
| `Review.dfy` | drafts, snapshots, prepared reviews, outbox states, and when a remote review is the one that was sent |
| `Tables.dfy`, `Store.dfy` | the durable tables as values, each transaction as a function on them, and the class that updates them |
| `Outbox.dfy` | publishing and reconciling as the code runs them when nothing interrupts |
| `Publication.dfy`, `Safety.dfy` | publishing with any interleaving, crash and reopening, and what every run promises |
| `Session.dfy`, `ShownPublished.dfy` | the window's own drafts: what it shows as saved and as published, and what is stored |
| `Releases.dfy`, `Members.dfy`, `WorkerPool.dfy` | the release timeline, the commits each step adds, and the pool of threads that reads them |
| `HeightIndex.dfy` | the binary indexed tree of row heights |
| `Handoff.dfy`, `Frames.dfy` | handing a request to the running window, and the one frame that carries it |
| `Calendar.dfy` | day counts to dates, and the short time text |
| `WireProxy.dfy` | the shared token bucket and the pumps of the cache proxy |
| `Timings.dfy`, `Unblocks.dfy` | the sweep over Cargo unit spans, the cycle check and the gating path |
| `Base64Url.dfy`, `Compare.dfy`, `Trails.dfy`, `Launch.dfy` | base64url, percent coding and compare addresses, Trail addresses, and the command line, each with what it prints read back |
| `FileTree.dfy`, `FileTreeRows.dfy` | the path-compressed tree of changed files, and what its rows are by the entries |

Protocols are state machines: `Next` gives the state after one action, an action that
is not possible changes nothing, and a run is any sequence of actions. A theorem about
runs therefore covers every interleaving, lost message and crash. Code that works by
changing things in place is a class or a method with loops, tied by its `ensures` to a
function; the lemmas then speak about the function. `PublishAloneIsARun` ties the
sequential `Publish` to the machine.

Six properties turned out to hold only under a condition. Each has a lemma that gives the
condition exactly, and a lemma with an input that fails:

* A draft that the window shows as saved is stored with that text, unless it had been
  overtaken when it was put on screen. Opening a review checks once that everything is
  saved (crates/ui/src/app/source.rs:94), reads the rows in the background, and shows
  them later; text typed or discarded in between is then undone on screen but not in the
  store (`TypingWhileOpeningDisagrees`). What is shown agrees from then on exactly if
  the row is still the stored one and no write of a later text that the store would take
  is under way (`InstalledAgreesExactly`).
* A draft shown as published is published in the store with that version and text, if it
  was current when it was put on screen and its row was never deleted
  (`ShownAsPublishedIsPublished`). The window compares only versions when it hears of a
  confirmation (crates/ui/src/app/review_flow.rs:331-348), and a discard gives versions
  free: if an older write, already begun, brings the row back, another text can get the
  version that was sent (`MarkMisleads`). A mark agrees from then on exactly if the store
  has that version published (`MarkAgreesExactly`).
* The first-parent path starts at a commit whose first parent is outside the range
  exactly if the first parents above the head do not run into a cycle (`PathIsComplete`,
  with the input of `CyclicPathIsCut`).
* Rows of the file tree name their files unless the folder before a leading slash is
  open, some folder below it has two of the entries, and another entry below it is
  elsewhere (`RowsFitExactly`, with the input of `LeadingSlashIsMisread`): the parent path
  is then empty, which the code takes for the root. Only a direct caller of
  `FileTree::new` can pass such entries. The window lists the paths of a `RepoPath`
  (crates/ui/src/file_browser.rs:52), which has no leading slash and no empty part
  (crates/core/src/domain.rs:226-236), so of every tree it shows `RowsFit` holds.
* The launch arguments are read back as they were meant unless the child's parsers
  disagree with the request, or the theme's absolute path is not UTF-8
  (`LaunchIsReadBack`, with the input of `OddThemeIsNotReadBack`: a theme "t" found in a
  directory whose name is not UTF-8).
* Two sides that GitHub accepts one by one need not split back once they are joined
  (`GithubReopensExactly`, with the input of `SidesMayNotSplitBack`). The program does not
  hold such a pair: its sides come from a compare that was accepted as a whole, which
  always splits back (`GithubReopens`), or from a release step, which is never direct on
  GitHub (crates/ui/src/app/source.rs:548-565).

Notes on the reading of the source:

* `u8::from_str_radix` takes a plus sign, so `%+F` decodes (crates/adapters/src/github.rs:231-236); `parse::<u64>` does too.
* `OutboxState::can_transition` has six moves and no way out of Confirmed or Rejected (crates/core/src/review.rs:205-215).
* A fingerprint and a snapshot id are the values they digest, that is, digests do not collide.
* Sorting both lists of comment keys and comparing them is comparing them as multisets.

`{:induction false}` on a lemma says that its own body is its proof.

## Model

| member | source | states |
|---|---|---|
| Review.MatchedCommentIsShown | crates/adapters/src/outbox.rs:178-220 | if a remote review matches, every comment of the payload is among the comments the remote shows: path, body, side and lines |
| Review.MatchesExactly | crates/adapters/src/outbox.rs:178-220 | a remote review matches exactly if commit, account, marker, verdict and summary are those of the payload and its comments can be put in an order in which each shows one of ours |
| Tables.PutSnapshotKeepsValid | crates/adapters/src/store.rs:144-156 | storing a snapshot keeps the tables consistent |
| Tables.SaveDraftKeepsValid | crates/adapters/src/store.rs:212-256 | saving a draft, accepted or refused, keeps the tables consistent |
| Tables.DiscardDraftKeepsValid | crates/adapters/src/store.rs:257-266 | discarding a draft keeps the tables consistent |
| Tables.InsertPreparedKeepsValid | crates/adapters/src/store.rs:359-379 | an inserted review verifies, is Prepared and keeps the tables consistent |
| Tables.TransitionKeepsValid | crates/adapters/src/store.rs:396-447 | a transition keeps the tables consistent: every published draft has a confirmed operation with a remote id that carries its exact version and body |
| Tables.PruneKeepsValid | crates/adapters/src/store.rs:109-138 | pruning keeps the tables consistent |
| Tables.PruneKeepsWork | crates/adapters/src/store.rs:109-138 | pruning deletes no unpublished draft, no snapshot of an unsettled operation and no snapshot with fewer than `keep` of a later update, or of the same and a larger rowid, before it |
| Tables.PrunedExactly | crates/adapters/src/store.rs:109-138 | a snapshot goes exactly if at least `keep` others have a larger `updated_at`, or the same and a larger rowid, no draft of it is unpublished and no operation on it is Prepared, InFlight or UnknownOutcome; its drafts go exactly with it, and nothing else changes |
| Tables.TouchedExactly | crates/adapters/src/store.rs:324-330 | reading a snapshot later than all others puts it before all others, so pruning keeps it |
| Tables.OnlyCarriedTextIsPublished | crates/adapters/src/store.rs:421-444 | a transition changes a draft only by publishing it, and only where the confirmed payload carries its version and body |
| Tables.PutExactly | crates/adapters/src/store.rs:144-156 | a snapshot is stored exactly if its id is its content, as updated now, and keeps the rowid it had |
| Tables.SavedExactly | crates/adapters/src/store.rs:212-256 | a draft is saved exactly if its version and size are in range, its place is in a stored patch, it is not published, and a stored row of that id is unpublished, of the same place, and older or equal |
| Tables.DiscardedExactly | crates/adapters/src/store.rs:257-266 | a draft is deleted exactly if that version of it is stored and unpublished |
| Tables.PreparedExactly | crates/adapters/src/store.rs:359-379 | a review is inserted exactly if it verifies for the provider and its operation is new |
| Tables.MovedExactly | crates/adapters/src/store.rs:396-447 | an operation moves exactly along the six moves, with its own review, and into Confirmed only with a remote id; the drafts marked are exactly those whose version and body it carries |
| Tables.RecoveredExactly | crates/adapters/src/store.rs:448-457 | recovery makes every InFlight entry an UnknownOutcome with a diagnostic and changes nothing else |
| Tables.RecentIsLimit | crates/adapters/src/store.rs:109-138 | in consistent tables exactly `keep` snapshots, or all, have fewer than `keep` before them by `updated_at` and then rowid |
| Store.Store.Open | crates/adapters/src/store.rs:80-108 | opening recovers what was in flight, then prunes to 50 snapshots, as `RecoveredExactly` and `PrunedExactly` say |
| Store.Store.SaveDraft | crates/adapters/src/store.rs:212-256 | the tables and the result are those of the specification, errors included |
| Store.Store.DiscardDraft | crates/adapters/src/store.rs:257-266 | only that version of that unpublished draft is deleted |
| Store.Store.InsertPrepared | crates/adapters/src/store.rs:359-379 | a review that does not verify is refused; otherwise it is stored as Prepared |
| Store.Store.Transition | crates/adapters/src/store.rs:396-447 | checks and write of one transition, with the loop that publishes the carried drafts |
| Store.Store.RecoverInflight | crates/adapters/src/store.rs:448-457 | every InFlight entry becomes UnknownOutcome through the store's own transition |
| Store.Store.Prune | crates/adapters/src/store.rs:109-138 | the tables are those of the specification, which `PrunedExactly` gives on the fields |
| Store.RecoverKeepsValid | crates/adapters/src/store.rs:448-457 | recovery keeps the tables consistent and leaves nothing in flight |
| Outbox.Outbox.Publish | crates/adapters/src/outbox.rs:30-120 | tables, result and whether the remote was asked are those of the publication that runs alone, which `PublishedExactly` gives on the fields |
| Outbox.PublishedExactly | crates/adapters/src/outbox.rs:30-120 | a review is sent exactly if its row is Prepared, nothing unresolved is on its PR, the target is unmoved, every text is stored, and the remote reviews were read; then it is Rejected exactly if the provider refused, Confirmed exactly if it accepted with an id and comments that match, and UnknownOutcome otherwise. Without a send it is Rejected exactly if the PR moved, and otherwise nothing is stored |
| Outbox.Outbox.TextsUnchanged | crates/adapters/src/outbox.rs:58-72 | true exactly if every comment's draft is stored with its version and body |
| Outbox.Outbox.Send | crates/adapters/src/outbox.rs:83-119 | InFlight is stored first, then one send, then what the answer means, as `PublishedExactly` says |
| Outbox.Outbox.Reconcile | crates/adapters/src/outbox.rs:121-161 | another account or a failed read changes nothing; otherwise the store is left as one settled list of matches says |
| Outbox.NoneMatch | crates/adapters/src/outbox.rs:133-152 | the list of matches is empty exactly if no review matches |
| Outbox.ConfirmedByOnlyMatch | crates/adapters/src/outbox.rs:133-158 | a confirmation stands on exactly one matching review, whose id is recorded |
| Outbox.OnlyMatchConfirms | crates/adapters/src/outbox.rs:133-158 | an only match does confirm |
| Outbox.ReconciledExactly | crates/adapters/src/outbox.rs:121-161 | an unknown outcome becomes Confirmed exactly if one review alone, not in the baseline, is the one that was sent; otherwise nothing changes |
| Outbox.FailedReadFails | crates/adapters/src/outbox.rs:145-148 | if a candidate's comments cannot be read, the whole reconciliation fails |
| Outbox.ReadFailsExactly | crates/adapters/src/outbox.rs:133-152 | it fails exactly if the comments of a review that may be ours were not read |
| Publication.NextKeepsInv | crates/adapters/src/outbox.rs:30-161 | every action of prepare, publish, reconcile, save, discard, crash and reopen keeps the protocol's invariant |
| Publication.SendIsFirst | crates/adapters/src/outbox.rs:32-86 | a send records a review that was not sent before |
| Publication.ConfirmIsMove | crates/adapters/src/outbox.rs:153-160 | a reconciliation that writes moves an UnknownOutcome operation to Confirmed on its only matching review |
| Safety.SentAtMostOnce | crates/adapters/src/outbox.rs:30-119 | in every run each operation is sent at most once, as it is stored |
| Safety.DurableBeforeSend | crates/adapters/src/outbox.rs:83-86 | the remote is asked only while the operation's InFlight row is already stored |
| Safety.RejectedWasRefused | crates/adapters/src/outbox.rs:87-119 | in every run an operation that was sent and is stored as Rejected was refused by the provider |
| Safety.RefusalIsRecorded | crates/adapters/src/outbox.rs:87-92 | a refusal is recorded exactly when the remote is asked and refuses |
| Safety.OneUnresolvedPerPr | crates/adapters/src/outbox.rs:42-49 | in every run at most one operation of a PR and account is InFlight or UnknownOutcome |
| Safety.OperationsOnlyAdvance | crates/core/src/review.rs:205-215 | over any stretch of a run an operation keeps its review and only moves forward in its lifecycle |
| Safety.NoResend | crates/adapters/src/outbox.rs:30-119 | once an operation has left Prepared, and unless a publication is at the point of asking the remote for it, no continuation sends it: also not when it is in flight and its publication was answered, failed or panicked |
| Safety.SettledCannotSend | crates/adapters/src/outbox.rs:30-119 | no publication is at that point for an operation that is unresolved after a reopening, or settled |
| Safety.PublishedWasShown | crates/adapters/src/outbox.rs:97-119 | a published draft's exact text was shown by the provider in the review whose id its confirmed operation records |
| Safety.StoredDraftHistory | crates/adapters/src/store.rs:212-266 | while a draft exists its version never decreases, one version has one body, and published text never changes |
| Safety.UnpublishedDraftIsKept | crates/adapters/src/store.rs:109-138 | an unpublished draft disappears only by discarding it: crashes, reopening and pruning keep it |
| Safety.PublishAloneIsARun | crates/adapters/src/outbox.rs:30-120 | what the sequential publication does is a run of the machine |
| Safety.ReviewGetsThrough | crates/adapters/src/outbox.rs:30-120 | from any state in which nothing is in its way, a review that the provider then shows as it was sent is sent once more and confirmed under its id, and exactly the texts it carries are marked published |
| Safety.ReconcileIsARun | crates/adapters/src/outbox.rs:121-161 | so is what the sequential reconciliation stores |
| Safety.ReopenIsARun | crates/adapters/src/store.rs:80-108 | dying and opening again, in whatever order the rows are recovered, is what `Store.Open` does |
| Session.Session.Reduce | crates/core/src/session.rs:46-103 | the drafts and effects are those of the specification, and an error is recorded only for an overflow or a failed store |
| Session.EditExactly | crates/core/src/session.rs:61-72 | an edit of an unpublished draft's text carries the new body and the next version, on screen and in its effect; every other edit changes nothing |
| Session.EveryEditIsPersisted | crates/core/src/session.rs:46-103 | over any events, a store that writes every effect has each draft as the session has it, but for what is known to be saved |
| Session.SavedExactly | crates/core/src/session.rs:73-78 | an answer raises the saved version to the answered one, never lowers it and never passes the draft's own |
| Session.NextKeepsInv | crates/core/src/session.rs:61-120 | edits, writes in any order, late or unheard answers, discards, openings whose rows were read earlier, and reopening never leave the screen behind the store for a draft that was current when shown |
| Session.ShownAsSavedIsStored | crates/core/src/session.rs:107-120 | in every run a draft shown as saved is stored with exactly its version and text, unless the window has yet to hear of its discard or it had been overtaken when it was put on screen |
| Session.InstalledAgreesExactly | crates/ui/src/app/source.rs:87-165 | a draft put on screen agrees with the store, from then on and whatever happens, exactly if its row is still stored as it was read and no write of a later text that the store would take is under way |
| Session.TypingWhileOpeningDisagrees | crates/ui/src/app/source.rs:94-153 | a run in which text typed during an opening ends up stored while the window shows the old text as saved |
| Session.TypedIsSaved | crates/ui/src/app/review_flow.rs:206-240 | in any state, a text that the store takes is stored under the next version, and shown as saved once the answer is heard |
| Session.OpenedIsShown | crates/ui/src/app/source.rs:87-165 | an opening with everything saved shows exactly the stored rows of its snapshot, at once or when an offered revision is accepted |
| ShownPublished.NextKeepsMarks | crates/ui/src/app/review_flow.rs:331-348 | texts found stored, confirmations, marks and rows stay in agreement at every step, for what was never deleted |
| ShownPublished.ShownAsPublishedIsPublished | crates/ui/src/app/review_flow.rs:331-348 | in every run a draft that was current when put on screen, whose row was never deleted, is shown as published only if the store has it published with the version and text shown |
| ShownPublished.MarkAgreesExactly | crates/ui/src/app/review_flow.rs:331-348 | a mark set on a current draft agrees with the store, from then on and whatever happens, exactly if the store has that version published |
| ShownPublished.MarkMisleads | crates/ui/src/app/review_flow.rs:331-348 | a run in which a draft brought back after its discard is marked published with a text that was never sent |
| Releases.Steps | crates/adapters/src/releases.rs:27-89 | the loops compute the timeline of the specification |
| Releases.FirstParents | crates/adapters/src/releases.rs:34-37 | a later entry for a commit replaces an earlier one |
| Releases.FollowPath | crates/adapters/src/releases.rs:38-44 | the path from the oldest commit reached to the head; it ends on cyclic parents too |
| Releases.PathExactly | crates/adapters/src/releases.rs:34-44 | the path is empty exactly if the head is not listed; otherwise each commit on it is the first parent of the next by its last entry, it ends at the head, and unless the guard stops it it starts where no listed first parent is left |
| Releases.PlaceTags | crates/adapters/src/releases.rs:45-64 | the tags kept, in the order of the path |
| Releases.MarksExactly | crates/adapters/src/releases.rs:45-64 | a place on the path has a mark exactly if a tag lies at its commit and the commit does not come again, under the name of the first released tag there, or else the first listed |
| Releases.CutAtTags | crates/adapters/src/releases.rs:65-88 | the steps between the kept tags, and the names folded into the first |
| Releases.PathIsComplete | crates/adapters/src/releases.rs:38-44 | the path starts at a commit whose first parent is outside the range exactly if no commit above the head comes back to itself by first parents |
| Releases.CyclicPathIsCut | crates/adapters/src/releases.rs:38-44 | two commits that name each other: the guard stops the path inside the range |
| Releases.ChoiceIsFirst | crates/adapters/src/releases.rs:51-62 | the tag chosen at a commit is the first released one, or else the first listed |
| Releases.TimelineIsChain | crates/adapters/src/releases.rs:69-88 | the steps are an unbroken chain from the base to the head |
| Releases.TimelineAdvances | crates/adapters/src/releases.rs:63-88 | the ends of the steps advance strictly along the path |
| Releases.TaggedStepEndsAtTag | crates/adapters/src/releases.rs:51-77 | a tagged step ends at the commit its tag was chosen at |
| Releases.NoTagIsLost | crates/adapters/src/releases.rs:63-88 | folded and kept names together are exactly the chosen tags in path order; there are at most 31 steps, and folding happens only at the limit |
| Releases.TimelineExists | crates/adapters/src/releases.rs:51-88 | there are steps exactly if some tag lies on the path |
| Members.Search | crates/adapters/src/releases.rs:103-112 | the search ends on any graph, finds no commit twice, and adds exactly what is reached and was not seen |
| Members.Members | crates/adapters/src/releases.rs:94-115 | list i is exactly what step i's end reaches and no earlier one does, without duplicates |
| Members.ReadingsAgree | crates/adapters/src/github.rs:1009-1026 | the first parents that the path is read from are among the parents that the search reads, and for the same commits |
| Members.EdgesExactly | crates/adapters/src/releases.rs:94-102 | the search goes from a commit to exactly the valid parents of its last entry |
| Members.FirstParentExactly | crates/adapters/src/github.rs:1009-1026 | and the path to the first parent of that entry, where it is valid |
| Members.ListsPartitionReachable | crates/adapters/src/releases.rs:94-115 | for any commits the provider lists, with the steps of their timeline, every commit reachable from the head is in exactly one list, and no other commit is in any |
| WorkerPool.BoundedIsSequential | crates/adapters/src/releases.rs:127-164 | for every schedule without a panic the answer is that of a left-to-right loop, the error of the first failing item included |
| WorkerPool.NeverShort | crates/adapters/src/releases.rs:127-164 | even with panics, a successful answer is complete and in order |
| WorkerPool.PoolEnds | crates/adapters/src/releases.rs:131-158 | the threads always end: each action uses up a finite budget, and one is possible while a thread runs |
| WorkerPool.FourThreads | crates/adapters/src/releases.rs:131-133 | there are as many threads as items, and at most four |
| WorkerPool.SortedIsPermutation | crates/adapters/src/releases.rs:159-159 | sorting by index keeps exactly the results and puts them in ascending order |
| HeightIndex.LowBitMask | crates/core/src/height_index.rs:23-31 | on words of any width `i & (!i + 1)`, bit by bit, is the power of two that the loops of the tree go by, and its sum does not overflow |
| HeightIndex.HeightIndex.constructor | crates/core/src/height_index.rs:8-22 | every row has the estimate, or 20 where that is not a positive number, and every cell its block's sum |
| HeightIndex.HeightIndex.Set | crates/core/src/height_index.rs:23-31 | one height changes and every cell again holds the sum of its block |
| HeightIndex.HeightIndex.Update | crates/core/src/height_index.rs:32-38 | refused, with nothing changed, exactly for a row out of range or a height that is not positive |
| HeightIndex.HeightIndex.PrefixSum | crates/core/src/height_index.rs:39-47 | the plain sum of the first heights |
| HeightIndex.HeightIndex.Total | crates/core/src/height_index.rs:48-50 | the plain sum of all heights |
| HeightIndex.HeightIndex.Locate | crates/core/src/height_index.rs:51-79 | the row whose span holds the height and the offset in it; heights out of range clamp to the ends |
| HeightIndex.HeightIndex.Descend | crates/core/src/height_index.rs:60-72 | the bitwise descent finds the last prefix that is at most the height |
| HeightIndex.RowIsUnique | crates/core/src/height_index.rs:51-79 | no height is in two rows |
| Handoff.NextKeepsLocks | crates/adapters/src/handoff.rs:177-446 | every step keeps the locks with the processes whose stage says they hold them |
| Handoff.OneWindowOneLauncher | crates/adapters/src/handoff.rs:297-336 | one process at a time is the window, and one at a time may start one |
| Handoff.LaunchAfterRelease | crates/adapters/src/handoff.rs:297-358 | when a window is launched, every window that an earlier launch saw has ended |
| Handoff.LaunchesAtMostOnce | crates/adapters/src/handoff.rs:297-336 | an invocation launches at most once, and never after its request was acknowledged |
| Handoff.AcknowledgedByWindow | crates/adapters/src/handoff.rs:404-446 | a request is acknowledged by the process that holds the writer lock |
| Handoff.RequestIsTaken | crates/adapters/src/handoff.rs:228-253 | in any state, an invocation that finds a listening window is acknowledged in three steps; its token goes along exactly if it fits |
| Handoff.LaunchSucceeds | crates/adapters/src/handoff.rs:297-358 | in any state without a window and with both locks free, an invocation starts a window that has its token, whatever socket file was left behind |
| Handoff.WindowOpensAndCloses | crates/adapters/src/handoff.rs:384-454 | a window started while the writer lock is free listens and holds the lock; when it closes, lock and socket file are gone |
| Handoff.TokenLeavesOnce | crates/adapters/src/handoff.rs:228-253 | an activation token leaves each owner at most once, and after a frame nobody holds or sends it again |
| Frames.Frame | crates/adapters/src/handoff.rs:127-149 | the request is sent whole; the token is dropped exactly where both do not fit, and the frame fails exactly where the request does not |
| Frames.AdmittedExactly | crates/adapters/src/handoff.rs:20-27 | a token is taken along exactly if it has 1 to 4096 bytes and none of them is zero |
| Frames.ReadLine | crates/adapters/src/handoff.rs:113-122 | the first line within the limit, or an error if there is none |
| Frames.Exchange | crates/adapters/src/handoff.rs:113-149 | what is read from a frame, whatever follows it, is the message that was framed |
| Calendar.CivilIsValid | crates/core/src/timefmt.rs:15-26 | every day count gives a valid Gregorian date |
| Calendar.CivilDayAfter | crates/core/src/timefmt.rs:15-26 | the next day count gives the next day of the calendar |
| Calendar.CivilIsCounted | crates/core/src/timefmt.rs:15-26 | the arithmetic gives the date found by counting days from 1970-01-01 |
| Calendar.CivilIsInverse | crates/core/src/timefmt.rs:15-26 | counting the days up to the date gives the day count back |
| Calendar.EveryDateIsCivil | crates/core/src/timefmt.rs:15-26 | every date from 1970 on is the date of its day count |
| Calendar.FitsMachineWords | crates/core/src/timefmt.rs:15-26 | for every 64-bit second count no sum overflows and no difference goes below zero |
| Calendar.TextIsTheMinute | crates/core/src/timefmt.rs:3-11 | two times show the same text exactly if they are in the same minute |
| Calendar.TextShowsTime | crates/core/src/timefmt.rs:3-11 | the text is at least 16 bytes and reads, at fixed places from its end, as the year, month and day counted from 1970-01-01 and the hour and minute of that day, with "-", "-", " " and ":" between; a year beyond four digits has no leading zero |
| WireProxy.DownlinkLimiter.constructor | scripts/cache-wire-proxy.py:30-36 | the bucket starts full, with at most 64 KiB of burst |
| WireProxy.DownlinkLimiter.Refill | scripts/cache-wire-proxy.py:42-45 | the state is that of the specification |
| WireProxy.DownlinkLimiter.TryAcquire | scripts/cache-wire-proxy.py:47-61 | one turn of the waiting loop: all of the capped request, or nothing |
| WireProxy.DownlinkLimiter.Refund | scripts/cache-wire-proxy.py:63-69 | what was not sent comes back, up to the capacity |
| WireProxy.Capacity | scripts/cache-wire-proxy.py:31-33 | the burst is what the rate gives in a hundredth of a second, at least one byte and at most one chunk, and none exactly if nothing is limited |
| WireProxy.DelayIsEnough | scripts/cache-wire-proxy.py:54-60 | a refused request is granted once the computed delay has passed |
| WireProxy.DelayIsLeast | scripts/cache-wire-proxy.py:54-60 | and not before |
| WireProxy.AcquireTakesGrant | scripts/cache-wire-proxy.py:47-61 | the request, capped by the capacity, is granted exactly if the bucket holds it; a grant takes exactly its size, a refusal nothing |
| WireProxy.RefundGives | scripts/cache-wire-proxy.py:63-69 | a refund raises the level to the smaller of the capacity and the level plus the amount |
| WireProxy.TokensStayBounded | scripts/cache-wire-proxy.py:42-69 | in every run the tokens stay between none and the capacity |
| WireProxy.OutputIsPrefix | scripts/cache-wire-proxy.py:306-356 | in every run a pump's output is a prefix of its input, all of it if the target was half-closed |
| WireProxy.CopyCompletes | scripts/cache-wire-proxy.py:306-356 | from any state, whatever the other pumps are doing, a pump at the head of its loop can copy any further input whole and then half-close the target |
| WireProxy.UnsentIsGivenBack | scripts/cache-wire-proxy.py:330-356 | what a granted download does not send comes back whole, up to the capacity, whether the send was short, would block or failed |
| WireProxy.RateIsKept | scripts/cache-wire-proxy.py:306-356 | in any stretch of any run the downloads send at most the burst, what was granted before, and the rate times its length |
| WireProxy.RateIsKeptFromStart | scripts/cache-wire-proxy.py:306-356 | since its start the proxy has sent at most the burst and the rate times the time it has run |
| WireProxy.CountersAreExact | scripts/cache-wire-proxy.py:349-363 | the counters and the sends not recorded yet add up to the bytes accepted |
| Timings.Events | scripts/analyze-cargo-timings.py:86-89 | the units that start and that end at each time |
| Timings.Sweep | scripts/analyze-cargo-timings.py:86-105 | `covered` is the length of the union of the spans, and each unit's exclusive time is the time only it is active |
| Timings.Apply | scripts/analyze-cargo-timings.py:101-104 | the events of one time; removing a unit always finds it, zero-length units included |
| Timings.ExclusiveWithinCovered | scripts/analyze-cargo-timings.py:93-105 | the exclusive times add up to at most the covered time, and that to at most the span |
| Unblocks.Predecessors | scripts/analyze-cargo-timings.py:107-115 | the incoming edges of every unit in the order of the units, which `EdgesExactly` gives on the fields, or an error exactly if a metadata edge has no frontend section |
| Unblocks.EdgesExactly | scripts/analyze-cargo-timings.py:107-115 | an edge into a unit is recorded exactly for a unit that unblocks it, with its start plus its duration, or that unblocks it after its frontend, with its start plus that |
| Unblocks.CountUnits | scripts/analyze-cargo-timings.py:121-132 | the counting pass visits every unit exactly if the recorded edges have no cycle |
| Unblocks.CountDown | scripts/analyze-cargo-timings.py:127-130 | no count goes below zero, and a unit becomes ready once |
| Unblocks.Greatest | scripts/analyze-cargo-timings.py:147-147 | the edge chosen is the greatest by release, then parent, then kind |
| Unblocks.Final | scripts/analyze-cargo-timings.py:134-134 | no unit ends later |
| Unblocks.FinalIsFirst | scripts/analyze-cargo-timings.py:134-134 | it is the first of those that end last |
| Unblocks.GatingIsCritical | scripts/analyze-cargo-timings.py:134-156 | along a gating path each unit was let go last by the one before it, over complete and metadata releases alike; it starts at a unit that waits for nobody |
| Unblocks.WalkBack | scripts/analyze-cargo-timings.py:134-156 | on any input the walk ends; its path follows, by the greatest recorded edge of each unit, from a unit without predecessors to the last one, and each error names a real fault |
| Unblocks.Gate | scripts/analyze-cargo-timings.py:107-156 | timings are accepted exactly if no unit is released, by start plus duration or frontend, more than 30 ticks after its start or by itself, and there is no cycle; the path returned is critical, and the walk's own checks never fire |
| Base64Url.DecodeLoop | crates/adapters/src/entire.rs:284-309 | accepts exactly the canonical texts and gives their bytes |
| Base64Url.DecodeEncode | crates/adapters/src/entire.rs:284-309 | every byte string has a canonical text that decodes to it |
| Base64Url.EncodeDecode | crates/adapters/src/entire.rs:284-309 | every canonical text is the text of what it decodes to |
| Base64Url.DigitsExactly | crates/adapters/src/entire.rs:284-309 | the digits are the letters of table 2 of RFC 4648, and no others |
| Base64Url.GroupExactly | crates/adapters/src/entire.rs:284-309 | each four digits are the same 24-bit number as their three bytes |
| Base64Url.LastGroupExactly | crates/adapters/src/entire.rs:284-309 | one or two bytes left over are two or three digits with zero bits at the bottom |
| Compare.DecodePath | crates/adapters/src/github.rs:225-243 | the loop decodes, and refuses a bad escape or bytes that are not UTF-8 |
| Compare.DecodedExactly | crates/adapters/src/github.rs:225-243 | a text decodes exactly if it can be cut into bytes that are no percent sign and into escapes of two hexadecimal digits, or a plus sign and one |
| Text.Utf8Exactly | crates/adapters/src/github.rs:225-243 | the check for UTF-8 accepts exactly the sequences of characters as section 3 of RFC 3629 encodes them |
| Compare.EncodePath | crates/adapters/src/github.rs:294-308 | the loop encodes |
| Compare.EncodedExactly | crates/adapters/src/github.rs:294-308 | a byte stays as it is or becomes a percent sign and two upper-case digits |
| Compare.DecodedEncoded | crates/adapters/src/github.rs:225-308 | decoding undoes encoding for every text |
| Compare.SplitsBackExactly | crates/adapters/src/github.rs:176-184 | for any two sides, exactly when their join splits back into them and the directness |
| Compare.RefNamesSplitBack | crates/adapters/src/github.rs:209-223 | two names that `git check-ref-format` allows always split back |
| Compare.RefNameExactly | crates/adapters/src/github.rs:209-223 | the rules for a ref name, letter by letter |
| Compare.SideExactly | crates/adapters/src/github.rs:186-223 | a side is a ref name, or an owner, the first colon and a ref name |
| Compare.GithubExactly | crates/adapters/src/github.rs:175-207 | an address opens a compare exactly if it decodes to its base, dots and head, both are sides, and no earlier dots split it |
| Compare.SidesMayNotSplitBack | crates/adapters/src/github.rs:176-196 | two sides that are accepted one by one and whose join means another compare; the program never holds them |
| Compare.GithubReopens | crates/adapters/src/github.rs:175-207 | the printed address of an accepted compare opens the same compare |
| Compare.GithubReopensExactly | crates/adapters/src/github.rs:1331-1345 | for any two accepted sides, exactly when the printed address opens them again |
| Compare.ParseGitlab | crates/adapters/src/gitlab.rs:134-246 | an address opens a compare exactly if every parameter is allowed and: in the query form the last `from` is the base, the last `to` the head, and the last `straight` is "true" exactly for a direct one; in the path form the decoded tail is base, dots and head, and `straight` does not say otherwise. The first error is that of the specification |
| Compare.QueryExactly | crates/adapters/src/gitlab.rs:193-243 | the query form, without naming the function that reads it |
| Compare.PathExactly | crates/adapters/src/gitlab.rs:157-192 | the path form |
| Compare.NumberExactly | crates/adapters/src/gitlab.rs:193-243 | a project parameter is a number below 2^64 in digits, with or without a plus sign |
| Compare.GitlabReopens | crates/adapters/src/gitlab.rs:1098-1110 | the printed address of a compare from either form opens the same refs |
| Trails.NumberReads | crates/adapters/src/entire.rs:142-155 | an accepted number is read back from its plain decimal form, which still has at most ten digits |
| Trails.TrailReopens | crates/adapters/src/entire.rs:49-125 | the printed address of an accepted Trail keeps its forge, project and selection |
| Trails.ParseExactly | crates/adapters/src/entire.rs:49-96 | an address is read exactly if its parts are those of a Trail: forge, project in lower case, and a project's Trail, its change, or a repository's Trail |
| Trails.PrintedIsTrail | crates/adapters/src/entire.rs:97-125 | the parts that are printed are again those of that Trail |
| Launch.Parse | crates/app/src/main.rs:101-232 | the loop over the arguments gives the options of the specification, the first error included |
| Launch.ReadsWords | crates/app/src/main.rs:101-200 | an operand is read as the value of its option whatever it looks like |
| Launch.ParsedExactly | crates/app/src/main.rs:101-232 | a command line is accepted exactly if each argument can be taken, at most one names what to open, a probe comes with its output and a report can be encoded; switches count wherever they stand, and of each option the last value |
| Launch.AcceptedIsItems | crates/app/src/main.rs:116-205 | every accepted command line is made of options, operands and lone arguments |
| Launch.LaunchIsReadBack | crates/app/src/main.rs:354-413 | exactly when the printed arguments open the same request with the same state, flags, font and theme |
| Launch.PrintsExactly | crates/app/src/main.rs:354-413 | there are such arguments for every request except a remote address of another provider that is no compare |
| Launch.OddThemeIsNotReadBack | crates/app/src/main.rs:354-413 | an absolute theme path for which they do not, whatever the rest is |
| FileTree.Rows | crates/core/src/file_tree.rs:39-70 | the loops build the tree of the matching entries and list its rows |
| FileTree.Flatten | crates/core/src/file_tree.rs:72-135 | appends exactly the rows of the specification |
| FileTree.RowsAreMatches | crates/core/src/file_tree.rs:39-135 | with every folder open the file rows are exactly the matching entries, each once |
| FileTree.CollapsedIsCut | crates/core/src/file_tree.rs:110-123 | without a query, collapsing folders removes exactly the rows strictly below them |
| FileTree.RowsFit | crates/core/src/file_tree.rs:72-135 | for relative paths, the only ones the window lists, every row's path is the path of the folder row above it, its prefix and its label |
| FileTree.RowsFitExactly | crates/core/src/file_tree.rs:39-135 | for any entries and any query, exactly when that holds, by what the matching entries are |
| FileTree.LeadingSlashIsMisread | crates/core/src/file_tree.rs:82-87 | entries for which it does not hold; only a direct caller of `FileTree::new` can pass them, the window never does |
| FileTree.InsertKeepsGood | crates/core/src/file_tree.rs:51-58 | inserting keeps the maps sorted and every file where its path says |
| FileTree.InsertAdds | crates/core/src/file_tree.rs:51-58 | inserting adds the entry and keeps the others |
| FileTreeRows.RowsAreOrdered | crates/core/src/file_tree.rs:72-135 | with every folder open the file rows come folders first, then by name, then by id, at every level |
| FileTreeRows.LessExactly | crates/core/src/file_tree.rs:18-23 | names are in order by the first character in which they differ, a shorter one first |
| FileTreeRows.FolderRowsExactly | crates/core/src/file_tree.rs:72-123 | for relative paths, with every folder open, a folder has a row exactly if more than one entry is below it and not all of them in one subfolder; a row is as deep as there are such folders above it |
| FileTreeRows.ShownAreRows | crates/core/src/file_tree.rs:97-135 | a file's row has one name and its old path, a folder's is open exactly with a query or if it is not collapsed |
| FileTreeRows.QueryShowsAll | crates/core/src/file_tree.rs:110-123 | with a query collapsing hides nothing |

## Left out

- Views, settings, hidden recents and blame in the store; SQLite errors, compression and VACUUM.
- Building a review from drafts: preparing takes any review that verifies, which includes those the window builds.
- Publications may stop at any step, which covers every error return and panic; reading the baseline and the target a second time are one step, as nothing is written between them.
- Reconciliation in the machine does not read the account first; `Outbox.Outbox.Reconcile` does. A reconciliation that stops there is one that gives up.
- An opening in the window is also refused while a discard or a publication is under way and while the view is unsaved (crates/ui/src/app/source.rs:94); the model refuses it only for unsaved drafts, so it has those runs too.
- Retrieving releases from the providers, and the text of the folded warning.
- WorkerPool counts items without the counter's width; a counter that wraps needs more items than a machine can hold.
- Rounding in the height index: heights are reals, and not-a-number, infinite and negative inputs are a separate case.
- Handoff: refusals, timeouts and input errors end the process, and a state directory too long for a socket address is left out. The instant in which a probe holds the writer lock shows only as an opening that fails.
- Frames models JSON as a faithful codec, and the write permissions as part of the request.
- The proxy's sockets, threads and connection setup; an upload is not limited, so only its prefix and its counters are stated.
- Reading Cargo's HTML, the sections and concurrency summaries, and the check that the concurrency samples cover the units. Times are whole ticks, and the tolerance of 0.03 seconds is 30 of them.
- Splitting a URL: scheme, host, owner, project and relative segments. Compare starts from the last part of the path and the decoded query.
- The URL checks before a Trail's path is split, and its host, which is not printed back.
- `--help`, `--version` and making paths absolute; the printer takes absolute paths.
- Lower-casing for the query of the file tree: which entries match is a parameter. The nested maps are built as values, so building them in place is not captured.

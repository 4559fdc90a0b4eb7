# Exp2Res: a verified model

Exp2Res turns work logs into evidence-linked claims and publishes them as
managed sets of files. This project models its hard parts in Dafny and proves
what they promise. `dafny verify dfyconfig.toml` checks everything.

| file | what it models |
|---|---|
| `Basics.dfy` | optional values and texts |
| `Disk.dfy`, `Directory.dfy`, `ManagedSet.dfy` | one managed parent directory: names, inodes, unsynced changes, what a crash may leave, the primitives with their faults, and what makes a set complete |
| `Publish.dfy` | publication of one set: candidate, set-aside, swap, restoration, settlement |
| `Tidy.dfy`, `PassStates.dfy`, `Reconcile.dfy` | the start-up pass: what it owes, every state it can be in, and the pass itself (sweep, promote, prune, report) |
| `Recovery.dfy` | publication, crash and start-up together |
| `Removal.dfy` | removal of selected sets with its account |
| `Reader.dfy` | the reader that works beside publishers |
| `Preflight.dfy`, `Telemetry.dfy`, `Invocation.dfy`, `Stage.dfy` | cost checks, run and call rows with their transactions, one invocation, a whole stage |
| `Ordering.dfy`, `Utf8.dfy`, `Sorting.dfy` | the ID order, the UTF-8 bytes it is the order of, and stable sorting |
| `EvidenceMap.dfy`, `ExportGraph.dfy`, `Agreement.dfy` | evidence-map validators, the export loaders, and their agreement |
| `Lineage.dfy`, `LineagePlan.dfy` | correction chains, their roots, and the planning contexts |
| `Supersession.dfy`, `Correction.dfy` | ordered supersession and the correction transaction |
| `Canonical.dfy`, `Markdown.dfy`, `Records.dfy`, `Temporal.dfy`, `RenderOrder.dfy` | canonical JSON, Markdown escaping, record scanning, temporal intervals, render order |

## How to read the model

- **Faults.** Every directory operation and every transaction asks an oracle: it
  may fail or be interrupted before or after it takes effect. The answers to
  "is this still the locked workspace" are an oracle too, asked where the source
  asks. Theorems quantify over all oracles; "without faults" (`Calm`) is stated
  separately.
- **Crashes.** A directory keeps the set of listings a crash may leave: between
  two syncs any choice of the changes may be lost. A set directory that was not
  synced comes back as any plain tree. A ghost `history` holds every state that
  ever existed, so a statement about its elements is a statement about a crash at
  any point. A sync that fails may or may not have taken effect; on a parent without
  `syncs` every sync of the listing fails without effect.
- **SHA-256** is injective: a digest is the value it was taken of.
- **Sets and dictionaries.** Where the source iterates in name order or in row
  order and the result does not depend on it, the model iterates in any order, and
  the contract holds for all of them.
- **Validated outputs.** A provider, its clock, its backoff and the contract
  validator are functions of the attempt or round number.

## Where code and documentation disagree

**An unflushed swap.** `spec/13-pipeline-specification.md:797` has the next writer
reconcile what it observes without assuming whether an unflushed rename survived a
crash. The code (`exp2res/exports/managed.py:876-889`) does assume it: when the flush
after the swap fails or is interrupted, the next pass finds a complete set at the
final name beside a complete rollback and removes the rollback without flushing the
parent first. A crash during that removal can bring back the listing from before the
swap, with the final name absent and the rollback half removed.
`Recovery.UnflushedSwapIsLost` runs the pass on this input and returns the state and
what the crash leaves of it, although nothing failed and nothing was reported.
`Recovery.ReconcileSwap` is the exact condition there: the pass loses the set in some
crash if and only if the swap it found was not flushed. For every other directory the
condition is `Lasting`: where it holds, no run of the pass loses the set
(`Reconcile.Reconcile`); where it does not, a run without faults does, if at most one ID
has rollbacks, and so does, from every directory, a run in which only the syncs of the
parent fail. With rollbacks of several IDs, the sync that follows one ID may save
another, depending on the order they are taken in.
What is in sight is never lost (`PassStates.SightKept`), and a pass over what a crash
left is always safe (`Recovery.SettledLasts`, `Recovery.RecoveryIsCrashSafe`).

**A counted retry.** `spec/15-llm-contracts.md:567` and `:582` say a retry counter rises
only before another attempt. The code (`exp2res/llm/adapter.py:345-360`) counts the
retry first and then gives up if the backoff would end at or past the deadline, and the
check at `:317-320` can cut off a retry already counted in the same way.
`Invocation.CountsExactUnlessCutOff` is the exact condition, on the request alone, and
`Invocation.LateRetryIsCounted` a request that fails it.

## Model

| member | source | states |
|---|---|---|
| `Publish.PublishSet` | exp2res/exports/managed.py:1613-1780 | with no rollback of its ID in sight and two new names: in every state of every run, from the one it found on, normal, failing, interrupted or replaced, if no crash could lose what stood at the final name before (at its name or under one rollback, whatever else of the ID a crash may bring back), any crash leaves the old or the new tree there, or an absent final name with exactly one rollback holding the old tree, and older candidates stay as plain as they were; on success exactly the members given stand there with the manifest returned, which is the one built of them for this graph, flushed, and every other name is as it was; after a failure that is a report the candidate is gone or named; without faults it succeeds exactly when nothing or a set of the same production stood there, and reuses exactly a set of the same sources, rendering and member bytes, whenever that was written, leaving its inode in place; if one operation fails, and nothing else does, the old or the new tree still stands at the final name when it returns, wherever one stood |
| `Publish.ProtectedMeansRecoverable` | exp2res/exports/managed.py:1685-1764 | the invariant kept in every intermediate state implies the crash promise for every choice of unsynced directory changes a crash may lose |
| `Publish.ProtectedThroughout` | exp2res/exports/managed.py:1676-1780 | the same for every state since the run began |
| `Publish.SafeBeforeIffFirm` | exp2res/exports/managed.py:1613-1780 | the durability hypothesis of `PublishSet` is exact: no crash before the run loses the entry at the final name if and only if it holds (distinct trees assumed distinguishable) |
| `Publish.Run` | exp2res/exports/managed.py:1676-1780 | the run behind `PublishSet`, from any entry and beside any older candidate: candidate first, swap second, and the candidate cleaned up exactly when it was not yet published |
| `Publish.BuildCandidate` | exp2res/exports/managed.py:1461-1505 | a candidate with a new name is built without touching the final name or any rollback, whatever older candidates a crash may bring back; on success it is the whole set, flushed, and the only new entry; on failure it is removed or reported |
| `Publish.WriteMembers` | exp2res/exports/managed.py:1491-1496 | on success the candidate holds exactly the members and the manifest; in every state on the way it is a plain tree, the listing is unchanged and the crash promise holds |
| `Publish.SealCandidate` | exp2res/exports/managed.py:1497-1502 | the candidate is accepted only if it reads back as the manifest just built, and then it is flushed before anything points at it |
| `Publish.CandidateCleanup` | exp2res/exports/managed.py:1417-1433 | removing a candidate never disturbs the published set in any state; without a refusal the candidate is gone, an incomplete report names exactly it, and no other name changes |
| `Publish.CleanOrReport` | exp2res/exports/managed.py:1436-1458 | the original failure stays, or a louder one of the cleanup replaces it; a candidate left behind by a report is named in one; an interrupt never becomes a mere report; no other name changes |
| `Publish.Judge` | exp2res/exports/managed.py:1688-1698 | what stands at the final name is refused, vacant, current or stale, with the manifest it was read from; without faults a refusal means exactly an unreplaceable set |
| `Publish.Reuse` | exp2res/exports/managed.py:1699-1708 | reuse publishes nothing: the candidate goes and the listing is flushed without it |
| `Publish.MoveAside` | exp2res/exports/managed.py:1710-1731 | on success the prior set is at its rollback name, flushed; otherwise the handler has run; in every state a crash leaves the prior tree under one of its two names; where one operation fails and no other, the listing is what it was |
| `Publish.UndoAside` | exp2res/exports/managed.py:1721-1731 | the handler of a failed set-aside always ends in a failure, keeps the candidate ready and keeps the prior tree under one of its two names in every crash outcome; undisturbed it gives the prior set its name back; where the binding is found gone after the move, the move stands and both places are reported for good |
| `Publish.PutInPlace` | exp2res/exports/managed.py:1732-1750 | on success the candidate is at the final name and nothing else moved; otherwise it is unpublished; every crash outcome shows the old or the new set; without faults it succeeds; where one operation fails and no other, the prior set is given its name back or the candidate has it |
| `Publish.Restore` | exp2res/exports/managed.py:1737-1750 | the restoration ends in a failure and leaves the candidate unpublished, and every crash outcome on the way still holds the prior tree; undisturbed it gives the prior set its name back under the original error, and where only its own rename fails, the report names the rollback |
| `Publish.Settle` | exp2res/exports/managed.py:1752-1763 | on success only the new set is left for this ID, flushed, and the listing lost exactly the rollback; no step before that gives up both copies |
| `Publish.Revalidate` | exp2res/exports/managed.py:1765-1776 | success is claimed only for the set read back from the final name that agrees with the graph |
| `Publish.Supplant` | exp2res/exports/managed.py:1710-1776 | the portable replacement of a stale set keeps the crash promise throughout and, without faults, succeeds |
| `Publish.Install` | exp2res/exports/managed.py:1732-1780 | from the set-aside to the revalidated set: the new listing differs from the old one in this ID's entry only |
| `ManagedSet.CompleteSetIsItsManifest` | exp2res/exports/managed.py:721-766 | a set that passes inspection is exactly the set its manifest names, so two such sets with one manifest hold the same bytes |
| `ManagedSet.BuiltSetIsComplete` | exp2res/exports/managed.py:294-325 | a freshly built manifest over the required members passes its own inspection and matches the graph |
| `ManagedSet.InspectMeans` | exp2res/exports/managed.py:721-766 | inspection finds exactly the sets: some members of the required names, as files, and a manifest of their kind, entity and digests |
| `ManagedSet.MatchingMeans` | exp2res/exports/managed.py:1508-1544 | a manifest matches the graph exactly when a publication of the graph would build it but for digests and instant, and matches the production exactly when it does but for sources and rendering too |
| `ManagedSet.CompleteSetNames` | exp2res/exports/managed.py:63-75 | the names in a complete set of either kind |
| `Disk.SurvivorsKeepAnySubsequence` | exp2res/exports/managed.py:569-600 | the crash model: after any run of directory changes on a flushed directory, the listings `Change` keeps as survivors are exactly what keeping any choice of the changes, in order, and losing the others makes of it |
| `Disk.AllChangesInSight` | exp2res/exports/managed.py:569-600 | what processes see after such a run has all of the changes |
| `Disk.SafeMeans` | exp2res/exports/managed.py:603-620 | a plain tree is a directory in which nothing at any depth is anything but a file or a directory |
| `Directory.Parent.RemoveTree` | exp2res/exports/managed.py:622-675 | every state of a removal only takes files of that tree away; the entry goes last, once it is empty; without faults it succeeds exactly on a plain tree; each unlink is preceded by a confirmed binding |
| `Directory.NoChangeOnceReplaced` | exp2res/exports/managed.py:1639-1674 | once the binding fails for good, nothing is written, moved aside, swapped in, promoted, unlinked or removed any more: the one rename left is the one that undoes a rename made before |
| `Directory.Parent.Rename` | exp2res/exports/managed.py:578-600 | a rename takes effect only from a real directory to a free name, a reported success took effect, and none is made, except to undo one, unless the binding has just been confirmed |
| `Directory.Parent.InspectSet` | exp2res/exports/managed.py:721-766 | inspection yields a manifest only when the whole set agrees with it; a failed read never does |
| `Directory.Parent.WriteFile` | exp2res/exports/managed.py:512-539 | an exclusive write leaves the directory unchanged, with a torn file, or with the whole data; success means the data, not flushed |
| `Reconcile.Reconcile` | exp2res/exports/managed.py:837-895 | from any directory, whatever is still unflushed: however the pass fails or stops, every state it was in is one of `PassStates`, an ID with a complete set in sight keeps one in sight, and no crash, from the state it found on, loses the last one where `Lasting` held. Exactly so: in a run without faults, where at most one ID has rollbacks, and from every directory in a run in which nothing but each sync of the parent fails, a crash in some state of the run loses the set if `Lasting` did not hold. Without faults the outcome and the report are exactly those `Tidied` and `Residuals` describe name by name, whatever was promoted or pruned is flushed, so that a crash leaves the listing in sight, and the pass may run again |
| `Reconcile.ReconcileTwice` | exp2res/exports/managed.py:837-895 | two real passes, one after the other, without faults: the second changes nothing in sight and reports the same, whatever the first left unflushed |
| `Reconcile.RecoverAfterCrash` | exp2res/exports/managed.py:837-895 | started on what a crash during a publication left, a pass without faults ends with the complete old or new set at the final name (absent or new if there was none), no candidate of that ID, and every remaining rollback in its report |
| `Reconcile.SweepCandidates` | exp2res/exports/managed.py:844-851 | no name but a candidate changes, nothing is flushed, and every state is one of `PassStates`; without faults exactly the plain candidates go and exactly the others are reported |
| `Reconcile.ReconcileEntity` | exp2res/exports/managed.py:856-894 | one ID: no other name changes and every state is one of `PassStates`; without faults its slots end as `SlotsTidied` says (the only complete rollback of a free name promoted, complete rollbacks beside a complete set pruned) and the rest is reported; if the pass has synced nothing before, some state of the turn, in sight the one it ends in, was reached without a sync |
| `Reconcile.PromoteSole` | exp2res/exports/managed.py:858-875 | exactly one rollback and a free final name: it is only ever moved there when complete; without faults it is promoted when complete and reported otherwise |
| `Reconcile.PruneSiblings` | exp2res/exports/managed.py:881-894 | rollbacks go only when complete and beside a complete final set, which is never touched, flushed or not, and they go before the one sync: whatever was unflushed still is when the last of them is gone; without faults a pruning that removed any is flushed |
| `Reconcile.RefuseIfReplaced` | exp2res/exports/managed.py:810-824 | a report made after the binding failed also goes through the channel nothing withdraws |
| `Tidy.TidyTwice` | exp2res/exports/managed.py:844-895 | the specification of a pass is idempotent: what it leaves needs no work and is reported the same |
| `Tidy.RecoveryAfterCrash` | exp2res/exports/managed.py:837-895 | every recoverable tree tidies to the old or the new set |
| `PassStates.PassIsDurableIffLasting` | exp2res/exports/managed.py:837-895 | about the states of `PassStates`: no crash in any of them, with or without syncs, loses the last complete set of an ID if and only if every listing a crash could leave when the pass began holds a flushed complete set of the ID that is not about to be removed, and still does after the pending promotion |
| `PassStates.PiledLoses` | exp2res/exports/managed.py:837-895 | where everything to be removed is gone, everything to be promoted is promoted and nothing was flushed on the way, a crash loses each set that did not last; `Reconcile.Reconcile` is shown to visit such a state |
| `PassStates.SightKept` | exp2res/exports/managed.py:837-895 | from any directory: an ID with a complete set in sight has one in sight in every state of every pass |
| `PassStates.NothingElseTouched` | exp2res/exports/managed.py:837-895 | in every state of every pass a name that is neither removed nor promoted holds the tree it held |
| `Recovery.SettledLasts` | exp2res/exports/managed.py:837-895 | after a crash, when nothing is unflushed, every complete set in sight lasts |
| `Recovery.SwapLastsIffFlushed` | exp2res/exports/managed.py:881-894 | where a publication stopped between its swap and the removal of its rollback, the set lasts exactly when every listing a crash can leave holds the new set at the final name |
| `Recovery.ReconcileSwap` | exp2res/exports/managed.py:837-895 | the same of the pass itself: a run on such a directory in which nothing fails, or nothing but each sync, has a state from which a crash loses the set if and only if the swap it found was not flushed |
| `Recovery.UnflushedSwapIsLost` | exp2res/exports/managed.py:837-895 | the failing input, run: every crash of an unflushed swap still leaves the old or the new set; the pass on it, in which nothing fails and which reports nothing, visits a state from which a crash leaves neither, and returns that state and that image |
| `Recovery.RecoveryIsCrashSafe` | exp2res/exports/managed.py:837-895 | a pass over what a crash left may itself fail and crash anywhere: what that leaves is as recoverable as what it found |
| `Recovery.ThroughCrashes` | exp2res/exports/managed.py:837-895 | so after any number of crashed passes |
| `Recovery.PublishCrashRecover` | exp2res/exports/managed.py:1613-1780 | publish, crash anywhere from the start of the run on, any number of passes that crash anywhere, then one pass without faults: the old or the new set stands whole, no candidate of the ID is left and every rollback left is reported |
| `Recovery.Mount` | exp2res/exports/managed.py:837-843 | a directory as it comes back after a crash: the tree left, nothing unflushed |
| `Removal.RemoveManagedSets` | exp2res/exports/managed.py:1005-1111 | every selected ID is exactly one of removed in the ledger, reported residual, or absent at the start; the ledger holds only removals no crash can undo; nothing else is touched |
| `Removal.VisitAll` | exp2res/exports/managed.py:1065-1090 | the three-way account of the visited IDs, everything not visited being residual once the binding fails; without faults exactly what each entry's kind says |
| `Removal.RemoveEntry` | exp2res/exports/managed.py:678-708 | nothing but the entry changes; without faults a plain file or a plain tree goes and a special entry stays |
| `Reader.ReadCurrent` | exp2res/exports/managed.py:1366-1414 | under any interleaving the entry is identified first and again after every other observation: `Changed` exactly when the two differ, and every other verdict rests on evidence observed in between (a manifest and all its members matched twice, or the observation that showed a defect); a current verdict returns exactly the bytes of the one manifest read, which is the one a publication of the graph builds of them but for the instant; over a directory that does not change the verdict is the one that the fault-free inspection gives |
| `Reader.InspectMoving` | exp2res/exports/managed.py:721-766 | one pathname read after another: an accepted manifest was held by the final entry at one observation of this inspection and every member's digest was matched at a later one; a refusal names the observation that spoke against the set |
| `Reader.ReadMembers` | exp2res/exports/managed.py:1400-1411 | stops at the first member that fails or differs, names that observation, and otherwise has matched every digest |
| `Reader.CurrentIsOnePublishedSet` | exp2res/exports/managed.py:1389-1414 | beside a publisher the returned bytes are the members of one single published set, never a mix |
| `Reader.PublisherShowsWholeSets` | exp2res/exports/managed.py:1613-1780 | a world that only ever shows states of one publication, whatever fails in it, shows the old or the new set at the final name, whole |
| `Reader.ReadBesidePublisher` | exp2res/exports/managed.py:1326-1414 | so a reader beside a publisher, in a world of any states of the publication including the one it found, returns the members of the old set or of the new one, as published, or none |
| `Preflight.PreflightMeans` | exp2res/llm/preflight.py:104-190 | a call is refused with the code of the first of twelve checks that fails, and fits if none does; tokens are bytes over three rounded up, the invocation maximum is twice the attempt cap times (input tokens times input price plus output tokens times output price) per million, and the run maximum is that times the planned calls |
| `Preflight.InvocationCostBound` | exp2res/llm/preflight.py:162-190 | an invocation of at most twice the attempt cap, each attempt within the estimated tokens, is billed at most the maximum the check computed |
| `Preflight.StageCostBound` | exp2res/llm/preflight.py:162-190 | a stage whose calls each passed the check on their own size is billed less than the run ceiling, although their sizes differ |
| `Preflight.CostMonotone` | exp2res/llm/preflight.py:162-173 | cost never falls when tokens rise |
| `Telemetry.Session.Transact` | exp2res/llm/adapter.py:65-74 | a transaction takes effect as a whole or not at all; an interrupt may land on either side of it |
| `Invocation.InvokeContract` | exp2res/llm/adapter.py:95-490 | at most twice the attempt cap of attempts, none started at or past the deadline and each billed what the provider bills it, and none where the capability check or preflight refuses; in every durable state business data has changed only where the run is finished; a validated output is what the validator of the last round made of the message the runner delivered on the last attempt, committed with its call; a refused creation changes nothing; where no transaction fails and nothing interrupts the service, a refused call breaks its run with the code, and otherwise the outcome, the attempts and the counters are those of `CourseOf`, a function of runner, clock, backoff and validator |
| `Invocation.RunRounds` | exp2res/llm/adapter.py:294-468 | nested retry loops terminate within their bounds, every ending leaves the rows it should, and without faults the ending is the one of `CourseOf` |
| `Invocation.OneRound` | exp2res/llm/adapter.py:313-399 | one validation round: transport, then judgement; only the first may be repeated; without faults it goes as `RoundsOf` says |
| `Invocation.RunRound` | exp2res/llm/adapter.py:314-364 | at most the attempt cap of attempts, each counted exactly once when it is repeated; a success is the answer to the last attempt; without faults it goes as `RoundOf` says |
| `Invocation.RetriesRunOut` | exp2res/llm/adapter.py:314-364 | while there is time, a failure that may be retried is, up to the attempt cap and no further, and the last failure is the outcome |
| `Invocation.MessagesDecide` | exp2res/llm/adapter.py:294-399 | in good time, a first message that arrives after k retries decides the call unless it is invalid; then the message that arrives after m retries of the second round does, as the validator takes it in that round, with k + m + 2 attempts and one schema retry counted; a second invalid message ends the call |
| `Invocation.CountsExactUnlessCutOff` | exp2res/llm/adapter.py:314-399 | the retry counters count exactly the repeated attempts if and only if the request is not `CutOff`, a condition on clock, backoffs and answers alone: the first attempt is in time, and some attempt that calls for a retry or for the revision is followed by a backoff that ends, or a start that comes, at or past the deadline |
| `Invocation.CountsExactInTime` | exp2res/llm/adapter.py:314-399 | in particular, with every reading and the end of every backoff before the deadline the counters are exact |
| `Invocation.LateIffCut` | exp2res/llm/adapter.py:314-399 | from any attempt of any round on, the course is late exactly when it is cut off there or at a later attempt |
| `Invocation.LateRetryIsCounted` | exp2res/llm/adapter.py:345-360 | the witness: a cut-off request with one attempt, one counted retry, none made |
| `Invocation.TryOnce` | exp2res/llm/adapter.py:316-364 | no attempt starts at or past the deadline, every attempt made is recorded with its start, and without faults of its own the turn ends exactly as the deadline, the runner's answer and the retry rule say |
| `Invocation.AfterFailure` | exp2res/llm/adapter.py:339-364 | where a classified failure leads: cancellation, the end, or a retry if one is allowed |
| `Invocation.Retry` | exp2res/llm/adapter.py:345-360 | an allowed retry is counted whatever follows, and made exactly when its backoff ends before the deadline |
| `Invocation.Judge` | exp2res/llm/adapter.py:366-399 | a delivered message is completed, refused with its own code, or earns the one revision, with exactly the counters its attempts warrant |
| `Invocation.Complete` | exp2res/llm/adapter.py:404-467 | business data, call and run commit as one; when they cannot, the response stays paid for and the run is broken |
| `Invocation.Fail` | exp2res/llm/adapter.py:273-292 | a terminal failure writes both rows in one transaction or neither |
| `Invocation.RecordCancelled` | exp2res/llm/adapter.py:480-490 | an interrupt anywhere ends in cancelled rows or the rows as they were, never in new business data |
| `Invocation.CreatedIsOpened` | exp2res/llm/adapter.py:213-247 | the rows are created exactly when a first call finds a new run ID or a later one its run running with exactly the calls before it, and then they are a running run and a fresh call, and nothing else |
| `Stage.RunCompleteStage` | exp2res/pipeline/orchestration.py:219-314 | on every exit path and in every durable state the business replacement stands exactly when the run is finished; the committer, which records every call made to it, is called at most once, only after all calls validated and resolved, with result i from the message call i's own runner delivered on the last of its recorded attempts; call i has its own input, provider and deadline and the row i + 1, whose retries are the attempts it repeated; where the capability check refuses, no call makes an attempt, nothing is committed and the run breaks with that code; where no transaction fails and nothing interrupts the service, a stage with a new run ID whose calls are not refused and whose first messages arrive in time, validate and resolve ends as its commit decides on their results, and otherwise as `StageOf` says |
| `Stage.StageEnds` | exp2res/pipeline/orchestration.py:219-314 | without faults a stage with a new run ID whose calls all validate and resolve ends as its commit decides, with result i at place i, and otherwise its first call without a result ends it |
| `Stage.RunEmptyStage` | exp2res/pipeline/orchestration.py:174-217 | an empty plan finishes its run without outputs and never commits |
| `Stage.RunCall` | exp2res/pipeline/orchestration.py:221-265 | a call yields the resolution of what its own validator made of a message its own runner delivered, or the run is abandoned with business data unchanged; without faults exactly as its course and its resolver say |
| `Stage.Swap` | exp2res/pipeline/orchestration.py:267-298 | the committer is called exactly once, with the results of all calls; its replacement is committed together with the finished run in one transaction, or nothing is |
| `Stage.CancelStage` | exp2res/pipeline/orchestration.py:299-312 | an interrupt closes an open run and never undoes or repeats a committed swap |
| `Stage.Abandon` | exp2res/pipeline/orchestration.py:252-265 | a failure closes a run that is still open and leaves business data alone |
| `Stage.StageStaysUnderCeiling` | exp2res/pipeline/orchestration.py:162-162 | what a stage spends stays under the run ceiling whenever its attempts stay within their estimates |
| `Utf8.BeforeIsByteOrder` | exp2res/domain/canonical.py:13-33 | the ID order is the order of the UTF-8 bytes: where two encoded texts first differ the smaller byte decides, and a text comes before its extensions |
| `Ordering.AscendingUnique` | exp2res/domain/canonical.py:13-33 | a duplicate-free list in ID order is determined by its elements |
| `Ordering.Sorted` | exp2res/domain/canonical.py:30-33 | the ID order of a set: ascending, with exactly those elements |
| `EvidenceMap.ValidatePackMap` | exp2res/exports/companions.py:393-433 | accepts a bullet-pack map exactly when its rows are well shaped, in byte order and without repetition, and its links are the reachability closure of its rendered bullets: no claim, fact or evidence link missing or unused, and every edge its own |
| `EvidenceMap.ValidateAssessmentMap` | exp2res/exports/companions.py:319-337 | accepts an assessment map exactly when its rows are well shaped and in order and its links are the closure of its rendered claims |
| `EvidenceMap.ValidateFactClosure` | exp2res/exports/companions.py:273-296 | exactly: the linked facts are the reached ones, the linked evidence is theirs, and every fact names exactly the logs of its own evidence |
| `EvidenceMap.ReachFacts` | exp2res/exports/companions.py:264-270 | exactly the facts the claim links name, refused exactly when one is not linked |
| `EvidenceMap.CiteAll` | exp2res/exports/companions.py:411-427 | exactly what the bullets cite, refused exactly when one cites an unlinked row or other logs than its facts' |
| `EvidenceMap.BulletLogs` | exp2res/exports/companions.py:421-425 | exactly the union of the logs of the bullet's own facts |
| `ExportGraph.LoadPack` | exp2res/exports/branch.py:509-694 | over the rows modelled, loads exactly when, row by row, every bullet, every cited claim and every member of the anchor has a fact with a direct source in a kept log that no log corrects, bullets and cited claims are supported, the stored logs of a bullet are those its evidence comes from, and all reached facts are current and backed by stored evidence and logs; and then exactly the bullets, the cited members and the closure of what they reach, in ID order; a blocked verdict is given only over intact closures and an intact anchor |
| `ExportGraph.LoadAssessment` | exp2res/exports/graph.py:632-735 | over the rows modelled, loads exactly when there are members, each has a fact with a direct source, and all their facts are current and backed by stored evidence and logs; and then exactly the members and the closure of their facts, in ID order |
| `ExportGraph.CheckDirect` | exp2res/exports/graph.py:671-678 | accepts exactly the claims that each reach a direct source through their own facts |
| `ExportGraph.LoadRecords` | exp2res/exports/branch.py:616-650 | exactly the current, hydrating facts of the closure with all their source rows |
| `ExportGraph.LoadEvidence` | exp2res/exports/branch.py:652-662 | exactly the evidence of the source rows, refused exactly when one is missing |
| `ExportGraph.LoadRest` | exp2res/exports/branch.py:652-694 | the rest of the closure: evidence, logs and source selection |
| `ExportGraph.CheckAnchor` | exp2res/exports/branch.py:509-540 | accepts exactly a non-empty anchor all of whose members rest on current facts and each reach a retained record |
| `ExportGraph.CheckClosures` | exp2res/exports/branch.py:188-199 | accepts exactly the bullets whose stored logs equal the closure of their own facts |
| `ExportGraph.CheckGates` | exp2res/exports/branch.py:553-566 | accepts exactly supported bullets that reach a retained record |
| `ExportGraph.LoadClaims` | exp2res/exports/branch.py:572-592 | exactly the cited members in ID order, refused exactly when one is no member, unsupported or without a live chain |
| `ExportGraph.LinkLogs` | exp2res/storage/repository.py:1652-1682 | the logs of the loaded evidence links are the stored log closure of the facts |
| `Agreement.LoadedPackIsAccepted` | exp2res/exports/companions.py:587-631 | every graph the branch loader accepts builds a map its validator accepts |
| `Agreement.LoadedAssessmentIsAccepted` | exp2res/exports/companions.py:556-584 | every graph the assessment loader accepts builds a map its validator accepts |
| `Agreement.AcceptedPackIsTheLoadedOne` | exp2res/exports/companions.py:393-433 | over the bullets of an exportable branch, a map whose rows tell the truth about the store is accepted exactly when it is the one the loaded graph builds |
| `Agreement.AcceptedAssessmentIsTheLoadedOne` | exp2res/exports/companions.py:319-337 | the same agreement for an assessment |
| `Agreement.LoadedFactsClosed` | exp2res/exports/branch.py:677-694 | the fact and evidence half of the closure holds of every loaded graph |
| `Lineage.SnapshotRoots` | exp2res/pipeline/lineage.py:44-70 | the memoised walk terminates, succeeds exactly when no chain dangles and none runs in a circle, and gives each record the end of its chain |
| `Lineage.LineageRoot` | exp2res/storage/repository.py:82-103 | the store's one-record walk finds the root exactly when the chain has one, and the same root |
| `Lineage.RootedIsSound` | exp2res/pipeline/lineage.py:44-70 | where every chain ends, no chain dangles and none is circular |
| `Lineage.SoundIsRooted` | exp2res/pipeline/lineage.py:44-70 | where no chain dangles and none is circular, every chain ends |
| `Lineage.RootUnique` | exp2res/pipeline/lineage.py:44-70 | a record has at most one root, so memo and plain walk cannot disagree |
| `LineagePlan.PlanLineages` | exp2res/pipeline/lineage.py:73-164 | one context for each root record, oldest first, of all records whose chain ends there, root first and the others oldest first, the uncorrected ones with all their evidence and the corrected ones with all but manual claims; or, for a selected record, exactly the one context of that plan that holds it |
| `LineagePlan.PlanPartitions` | exp2res/pipeline/lineage.py:101-114 | every retained record is in exactly one context, once |
| `LineagePlan.LineageIsLive` | exp2res/pipeline/lineage.py:105-114 | every context keeps at least one undisplaced record |
| `LineagePlan.PlanUnique` | exp2res/pipeline/lineage.py:73-164 | the stored rows determine the plan, whatever order they are read in |
| `LineagePlan.BuildContext` | exp2res/pipeline/lineage.py:105-158 | root first, members oldest first, undisplaced records lend all evidence and displaced ones all but manual claims |
| `LineagePlan.GroupByRoot` | exp2res/pipeline/lineage.py:101-103 | one complete group per root and no empty one |
| `LineagePlan.OnlyContext` | exp2res/pipeline/lineage.py:161-163 | filtering by the selected root leaves exactly one context |
| `Supersession.Store.Mark` | exp2res/storage/repository.py:1439-1467 | supersedes exactly the listed rows, every other row staying as it is, or none if one is repeated, missing or already superseded; in dependency order every single update keeps the order |
| `Supersession.Store.SupersedeBranches` | exp2res/pipeline/branch_lifecycle.py:52-115 | supersedes exactly the named branches and the current bullets on them, and reports exactly those rows and their generations, each list in ID order; refused exactly when a name is not current or its snapshot is no longer on record, and then nothing changes; every update keeps the dependency order |
| `Supersession.Store.SupersedeDependentBranches` | exp2res/pipeline/branch_lifecycle.py:118-137 | exactly the current branches anchored to the given snapshots |
| `Supersession.Store.SupersedeCurrentBranches` | exp2res/pipeline/branch_lifecycle.py:140-149 | exactly the current branches, whatever they are anchored to |
| `Supersession.DependableMeans` | exp2res/pipeline/branch_lifecycle.py:52-115 | dependency order: each current claim and branch has a current snapshot, each current bullet a current branch |
| `Supersession.ChildlessMayGo` | exp2res/pipeline/branch_lifecycle.py:52-115 | rows may go, all or any part, once nothing current depends on them |
| `Supersession.BranchesChildless` | exp2res/pipeline/branch_lifecycle.py:104-107 | with their bullets gone nothing current hangs on the branches |
| `Correction.CaptureCorrection` | exp2res/services/correction.py:161-264 | one transaction: the correcting record goes in, with the ID and the evidence of the first of three draws whose IDs are unused; a current fact is superseded exactly when some evidence of it is of a record whose chain ends where that of the corrected record does, and so are all gaps, contradictions, snapshots and branches, and the claims and bullets under them; every other row stays as it is and each list of the report names exactly the rows gone; or nothing changes, wherever a database error or an interrupt lands, and the outcome tells which of the two the first of them was; an interrupt after the commit cancels only the report; every state on the way keeps the dependency order; undisturbed it succeeds exactly when a fresh ID is drawn and every current branch still has its snapshot on record |
| `Correction.SupersedeReading` | exp2res/services/correction.py:225-239 | facts, gaps, contradictions, branches with bullets, claims, snapshots, in that order, each step keeping the dependency order, until a stage is cut |
| `Correction.NothingCurrentRemains` | exp2res/services/correction.py:165-239 | no snapshot, claim, gap, contradiction, branch or bullet stays current, exactly when no claim or bullet was stranded under a superseded parent before |
| `Correction.DependableStrandsNone` | exp2res/pipeline/branch_lifecycle.py:52-115 | in a store in dependency order none is stranded |
| `Correction.DoomedIsChanged` | exp2res/services/correction.py:108-121 | the doomed rows are exactly the rows whose state changes, and facts outside the lineage are not among them |
| `Correction.ReportIsExact` | exp2res/services/correction.py:245-264 | every ID list of the result names exactly the superseded rows of its table |
| `Correction.Gather` | exp2res/services/correction.py:165-183 | exactly the current rows of each table, read before anything is written, each once |
| `Correction.InsertPair` | exp2res/services/correction.py:199-222 | record and evidence go in together exactly when every drawn ID is unused |
| `Correction.InsertWithRetry` | exp2res/services/writers.py:186-195 | three attempts: the draft inserted is the first of the three whose IDs are all unused, and none is when there is none |
| `Correction.CorrectionKeepsLineages` | exp2res/services/correction.py:199-222 | a correction lengthens one chain and leaves every other as it was; lineages stay sound |
| `Correction.ContextIsLineage` | exp2res/services/correction.py:165-166 | the first planned context holds exactly the records of the target's lineage |
| `Canonical.RoundTrip` | exp2res/domain/canonical.py:73-94 | a parser undoes the serializer on every structure, whatever follows the value |
| `Canonical.SameTextIffSameValue` | exp2res/domain/canonical.py:97-106 | two structures have the same canonical text exactly when they are the same value, dicts compared as maps |
| `Canonical.InsertionOrderIsInvisible` | exp2res/domain/canonical.py:86-91 | the order in which a dict was filled does not show |
| `Canonical.DictLayout` | exp2res/domain/canonical.py:86-91 | a dict is written as its fields, each once, in the order of the UTF-8 bytes of the keys, with commas between them |
| `Canonical.ListLayout` | exp2res/domain/canonical.py:84-85 | a list is written as its items in order with commas between them |
| `Canonical.EscapedIsLegal` | exp2res/domain/canonical.py:47-58 | every written string is legal under section 7 of RFC 8259 |
| `Canonical.ShortestSpelling` | exp2res/domain/canonical.py:36-58 | of all legal spellings of a character under section 7 of RFC 8259 the one written is the shortest, with lower-case hexadecimal digits |
| `Canonical.BodyReturns` | exp2res/domain/canonical.py:47-58 | every written string reads back |
| `Canonical.QuoteString` | exp2res/domain/canonical.py:47-58 | the loop writes the quoted form |
| `Canonical.IntReturns` | exp2res/domain/canonical.py:80-81 | every integer reads back, negative ones included |
| `Markdown.EscapeGeneratedReturns` | exp2res/exports/markdown.py:130-139 | a left-to-right decoder recovers the normalised text for any continuation indent and any normaliser |
| `Markdown.NewlinesMeans` | exp2res/exports/markdown.py:69-72 | each CR LF and each lone CR becomes one LF and nothing else changes |
| `Markdown.LineDecodes` | exp2res/exports/markdown.py:88-127 | every rendered logical line reads back as the line it renders |
| `Markdown.LineOpensNoBlock` | exp2res/exports/markdown.py:88-127 | no rendered logical line begins with a space, a block-opening character, or an ordered-list marker in the sense of section 5.2 of CommonMark 0.31 |
| `Markdown.EscapeLogicalLine` | exp2res/exports/markdown.py:88-127 | the loops compute the positional escape |
| `Markdown.NoRunReachesFence` | exp2res/exports/markdown.py:142-152 | in the rendered source voice exactly two runs of backticks are as long as the fence, its first and its last line, and the excerpt stands unchanged between them |
| `Markdown.FenceLayout` | exp2res/exports/markdown.py:142-152 | the fence has three backticks, or more only because the excerpt holds a run of one less, and the closing fence begins a line, for which one LF is added exactly where the excerpt does not end one itself |
| `Markdown.LongestRunOccurs` | exp2res/exports/markdown.py:149-150 | the longest run counted does occur, so a fence of four or more is no longer than needed |
| `Records.ScanRecord` | exp2res/integrations/records.py:179-215 | the explicit stack counts every object whatever defects there are, refuses exactly when the payload-wide total passes the cap, and returns the first defect in document order |
| `Records.PushChildren` | exp2res/integrations/records.py:211-214 | pushed in reverse, the children are visited in document order |
| `Records.ParsePayload` | exp2res/integrations/records.py:309-342 | one counter through the payload: refused exactly when all decoded records together exceed the cap, otherwise every line that is not blank is one numbered record with its own verdict |
| `Records.PayloadRecords.Replay` | exp2res/integrations/records.py:272-307 | a replay that runs to its end yielded exactly the established boundaries, and any rewrite is reported |
| `Records.Establish` | exp2res/integrations/records.py:259-270 | boundaries are established exactly when the payload fits and did not move while it was read |
| `Temporal.ContainsIsInclusion` | exp2res/domain/temporal.py:70-94 | containment is inclusion of the instants of dense time, except that an empty interval contains nothing, not even itself |
| `Temporal.PlacementInterval` | exp2res/domain/temporal.py:50-67 | the interval of a placement holds exactly the instants it leaves possible: the instant, a stretch of 1, 7, 31, 92 or 366 days, the range, or all time |
| `Temporal.ContainsPossible` | exp2res/domain/temporal.py:70-94 | containment of the intervals of two placements is inclusion of what they leave possible |
| `Temporal.ShapesAccepted` | exp2res/domain/models.py:269-301 | only a range has an end, after its start, and only "unknown" has no start |
| `Temporal.SpansBelowWidth` | exp2res/domain/enums.py:20-27 | a placement spans every distance below its width and no other but 0 |
| `Temporal.GoverningMeans` | exp2res/domain/temporal.py:104-127 | exactly: the record leaves every instant of the candidate possible, and a record with a start and no end vouches for a candidate with an end only before the moment it was recorded |
| `Temporal.GoverningIsContainment` | exp2res/domain/temporal.py:104-127 | governing containment implies plain containment |
| `Temporal.StrengthExceedsSupport` | exp2res/domain/temporal.py:147-177 | the one-pass loop is true exactly when the candidate is sharper than every support: some distance lies between two instants of the support but not of the candidate, or both span the same distances and only the support is an approximation |
| `Temporal.SupportIsPreorder` | exp2res/domain/temporal.py:180-192 | support between placements is reflexive and transitive |
| `Temporal.CheckPlacement` | exp2res/domain/temporal.py:180-192 | exactly: the candidate leaves possible every instant the support does and is not the sharper of the two |
| `Temporal.UnknownIsSupportedBy` | exp2res/domain/temporal.py:130-133 | "unknown" is supported by everything except an open approximate range |
| `RenderOrder.RenderOrderIgnoresInput` | exp2res/exports/branch.py:262-304 | the render order, or the refusal, is the same for every permutation of the bullets |
| `RenderOrder.RenderOrderIsTotal` | exp2res/exports/branch.py:262-304 | refused exactly when two bullets would render the same logical text, otherwise all bullets by section, then by the earliest requirement met, then by the UTF-8 bytes of the text |
| `RenderOrder.RenderBulletPack` | exp2res/exports/bullet_pack.py:34-65 | the loops emit title, then each section with its heading and items |
| `RenderOrder.GroupTexts` | exp2res/exports/bullet_pack.py:44-48 | each section collects exactly its own texts, in order |
| `RenderOrder.PackKeepsRenderOrder` | exp2res/exports/bullet_pack.py:44-65 | the pack shows every bullet exactly once and in render order, the order the evidence map lists them in |

## Left out

- `exp2res/cli.py`, `exp2res/__main__.py`, prompts, envelopes, signal handling: user interface. Interrupts are oracle answers here.
- File modes, ownership, symbolic links, no-follow opens and inode identity checks: an entry is a plain file, a plain directory or special, and "still the locked workspace" is an oracle.
- Creation of `out/` and the two managed parents (`managed.py:769-791`): the parents exist; `OutRoot` stands for their reports.
- The random nonces of candidates and rollbacks: a publication draws two names no listing holds and an unused inode.
- LoadPack: leaves out the refusals of one row or one list around the closure it loads: batch and generation checks, the vacancy, render order (`RenderOrder.dfy`), the snapshot's aggregate and narrative, its gap and contradiction references, counterevidence references and the supplemental closure.
- LoadAssessment: leaves out the snapshot's aggregate and narrative, its gap and contradiction references, counterevidence references and the supplemental closure.
- CaptureCorrection: an error or an interrupt lands between the stages of the transaction, not between the rows one stage updates; a rollback undoes either.
- `publish_assessment`, `publish_branch` and `_remove_stale_same_view` (`managed.py:1558-1595`, `:1783-1888`): the wrappers around `_publish_set`; stale sets of other IDs are removed by `_remove_managed_sets`.
- `remove_all_managed_output_entries` (`managed.py:1239-1294`): the same account as `RemoveManagedSets` over a listing.
- Manifest fields beyond kind, entity, production IDs, identity, source IDs, render hash, digests and instant: per-field validation.
- `llm/sandbox.py`, `llm/codex.py`, `llm/claude.py`, `llm/runner.py`: process and provider I/O; a runner is an oracle.
- The credential scan in preflight (`preflight.py:52-101`): its answer is an input.
- Metadata, durations, hashes and timestamps of run and call rows: carried along, never decided on.
- Decimal prices: exact reals, so rounding of a product is not modelled.
- `load_supplemental_closure` and counterevidence, gap and contradiction references (`graph.py:393-515`, `branch.py:594-612`, `:696-754`): a second, one-level closure of the same shape as the one modelled.
- The snapshot integrity half (`graph.py:359-380`), generation checks (`branch.py:89-139`) and the vacancy: gates on single rows; the allowlist verdict on the anchor is an input.
- `validate_experience_fact_sources`: an arbitrary predicate on facts, so the agreement holds for every meaning of it.
- Exported texts in the evidence maps: IDs only; texts and their order are in `Markdown.dfy` and `RenderOrder.dfy`.
- After-commit removal of superseded sets and the pending-residual report of a correction: see `Removal.dfy`; the transaction is what is modelled here.
- The per-branch reports of a swap (name, vacancy, scope): their lookup can refuse the swap and is modelled, their text is not.
- Datetimes in canonical JSON: they print as strings, so equal bytes would not mean equal values; floats and other unsupported types raise.
- Undecodable file names and lone surrogates: texts are sequences of Unicode scalar values; their UTF-8 bytes (`Utf8.dfy`) matter for order only.
- Unicode normalisation: an arbitrary function applied before escaping.
- `section_heading` spelling and the final join of pack lines: presentation.
- Injectivity of `source_voice_fence`: false, since an excerpt with and without its final newline fences to the same bytes.
- Record salvage, source contracts and the single-record form of `PayloadRecords`: the single form is a payload of one line that is never read again.
- `domain/verification.py`, `domain/calibration.py`, `scripts/`, `examples/`: short case analysis and tooling, only easy members.

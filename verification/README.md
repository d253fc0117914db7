# Proofs about transaction submission

`sui-effect` sends signed bytes to an unreliable network and promises to say "applied", "never applied" or
"unknown" without lying: across retries, crashes, stale nodes, concurrent senders and a journal kept in a
key-value store without compare-and-set. This project models that machinery in Dafny and proves the promises, for
every input, every run and every interleaving the model has.

`dafny verify dfyconfig.toml` checks everything.

| file | what it models |
|---|---|
| `Domain.dfy` | digests, pinned references, expirations, signed bytes, journal entries |
| `Chain.dfy` | the chain: a transaction executes once, in its window, consuming every pinned version; epochs, time and checkpoints advance |
| `Reconcile.dfy` | `recover` and what it reads: evidence from pinned objects, the closed-then-miss rounds, the node's history |
| `Submit.dfy` | the submission machine over a moving chain: sends, replies, journal writes, interrupts and crashes |
| `Calls.dfy` | what a whole call does, from what it was answered: how often it sends and asks, what it writes and returns |
| `Submission.dfy` | the code of `submit`, `resubmit`, `reconcile` and `reconcileAll` as it runs, proved to do just that and to be runs of that machine |
| `MarkerProtocol.dfy` | the durable journal's settled markers, one key-value call at a time, any number of operations interleaved |
| `Journal.dfy` | the in-memory and the durable journal, and `pruneSettled` |
| `Registry.dfy`, `SenderLocks.dfy` | the reference-counted lock registry, as a value and as the shared map the program has; the runs that use it, the in-flight counters |
| `Paging.dfy` | one page of a filtered ledger listing, following pages, tailing |
| `BatchRead.dfy` | `getObjects` |
| `FoldPlan.dfy`, `FoldRecipe.dfy` | planning coin folds, and what a fold transaction does to a coin ledger |
| `Signers.dfy`, `MultiSig.dfy`, `SessionWindow.dfy` | signers built from signers, multisigs, and the validity window of a run |
| `U64.dfy` | the checked `u64` codec |
| `Lists.dfy` | cutting a sequence into groups |

Reads are modelled as truthful but possibly stale: what a node answers is true of some state the chain was in, and
a lookup may miss or fail. What a theorem needs beyond that is in its statement. Where a promise holds only under
a condition there is a lemma with a concrete input that breaks it and one with the exact condition:

- `Tx.submit` is for bytes never sent before. `Submit.SecondSubmitCanLie` gives, for every number of earlier sends,
  a history in which a further `submit` records "not applied" of a transaction on chain;
  `Submit.RefusalsAreTrueIffNothingWasSent` says that what a refused submit records is true, whatever the bytes, the
  configuration and the history, exactly when nothing was sent before.
- The evidence of the pinned references depends on their order when one of their reads fails
  (`Reconcile.FailedReadHidesAConsumer`), because the loop stops there; `Reconcile.OrderIsIrrelevant` says it does so
  exactly when some read failed and some reference is conclusive.
- Two puts with one stamp: the two journals may list them in different orders
  (`Journal.EqualStampsListDifferently`); `Journal.SameListingIffOldestFirst` says the listings are one sequence
  exactly when the puts that still stand unresolved were made oldest first.
- A settled marker over an unresolved entry is reachable, by a crash between two key-value calls while another
  writer is at work (`MarkerProtocol.CrashWindowHidesAnEntry`); `MarkerProtocol.HiddenEntriesAreAlwaysOwed` says
  that whenever it happens some operation still owes the clear, and `MarkerProtocol.OneWriterNeverHides` that one
  writer at a time never gets there.

Where code and documentation differ the code is followed: `journalRefused` runs outside the uninterruptible region
(`src/services/Tx.ts:2140-2144`), so a refusal may be interrupted before its record, and the model lets it be.

## Model

| member | source | states |
|---|---|---|
| Chain.RunIsOk | src/services/Tx.ts:2825-2842 | every state of every run keeps the chain's invariant: digests execute once, an object version is consumed by one transaction only and is older than the live one |
| Chain.RunExtends | src/services/Tx.ts:2797-2842 | what has executed stays, in order, and no epoch, time or newest version goes back |
| Chain.ConsumedShutsOut | src/services/Tx.ts:2592-2633 | once another transaction has consumed a pinned version the bytes are on chain in no state from there on |
| Chain.ClosedWindowShutsOut | src/services/Tx.ts:2653-2672 | bytes not on chain when their window has closed are never on chain |
| Reconcile.GatherEvidence | src/services/Tx.ts:2592-2633 | the loop over pinned references answers the first conclusive one, remembering only the first inconclusive |
| Reconcile.VerdictIsWhatWasRead | src/services/Tx.ts:2529-2633 | exactly when one pinned reference proves us applied, another a consumer, nothing, or fails, from the versions and effects read |
| Reconcile.EvidenceNamesItsObject | src/services/Tx.ts:2592-2633 | the evidence names the object that decided it, or the first that could not be read |
| Reconcile.OursIsApplied | src/services/Tx.ts:2592-2633 | an object that names our digest as its last mutation means we are on chain, however stale the read |
| Reconcile.OtherIsNeverApplied | src/services/Tx.ts:2529-2633 | a consumer that took exactly the pinned version means our digest is on chain in no state of the run, and in no continuation |
| Reconcile.EvidenceFindsConclusive | src/services/Tx.ts:2592-2633 | the evidence is that of the first reference that is conclusive or whose reads failed; an inconclusive one never hides it, before or after |
| Reconcile.VerdictsAgree | src/services/Tx.ts:2592-2633 | no two pinned references give conflicting verdicts |
| Reconcile.OrderIsIrrelevant | src/services/Tx.ts:2592-2633 | the class of the evidence is the same for every order of the references exactly when no read of theirs failed or none is conclusive |
| Reconcile.FailedReadHidesAConsumer | src/services/Tx.ts:2592-2633 | a failing read and a consumer, in both orders: no evidence in one, `inputConsumed` in the other |
| Reconcile.CoveredHoldsWindow | src/services/Tx.ts:2744-2788 | a history read that covers the window, on a node that prunes forward, means the earlier misses were on a node that held it |
| Reconcile.FreshMissIsNeverApplied | src/services/Tx.ts:3027-3066 | a miss on an index that reaches the closed window, and still holds it, means never applied |
| Reconcile.ConsumedEvidenceIsSound | src/services/Tx.ts:3046-3070 | `inputConsumed` is true of every continuation, whatever else was stale, pruned or missing |
| Reconcile.ExpiryIsWhatTheClockShows | src/services/Tx.ts:2653-2672 | exactly when a clock shows the window closed, by its epoch or past the margin, and when it cannot tell |
| Reconcile.HistoryIsWhatTheNodeSays | src/services/Tx.ts:2744-2788 | exactly when a node holds the history back to the window, and when it cannot be asked |
| Reconcile.AnswerIsWhatWasRead | src/services/Tx.ts:2961-3083 | exactly when each answer is given: a transaction found by any lookup that was made, with its status; `expired` when both rounds closed and missed, no reference was ours or failed and the history holds; `inputConsumed` when a consumer decided and nothing was found, failed or expired before it; unknown otherwise |
| Reconcile.ReconcileIsHonest | src/services/Tx.ts:2961-3083 | every answer of a reconcile is true of the chain, `NotApplied` of the whole run it is asked about |
| Reconcile.MissThenClosedIsNotEvidence | src/services/Tx.ts:2653-2672 | a run in which a miss followed by a closed window is followed by finding the transaction on chain |
| Reconcile.LaggingIndexIsNotEvidence | src/services/Tx.ts:3027-3066 | a run in which both rounds miss on an index behind the epoch the node reports: the answer is `expired` and the transaction is on chain |
| Submit.AnswerIsHonest | src/services/Tx.ts:2961-3083 | what a reconcile round can answer is true now, and a `NotApplied` is true of every continuation |
| Submit.EventKeepsInv | src/services/Tx.ts:2047-2168 | every step of the machine, the chain's and the process's, keeps the invariant |
| Submit.HistoryKeepsInv | src/services/Tx.ts:2047-2168 | so does every history, with crashes and interrupts anywhere |
| Submit.OutcomesAreHonest | src/domain/errors.ts:639-664 | success and execution failure are on chain with that status, an outcome classed not applied is not on chain; a transport error means exactly one send ever, refused; no call sends more than its attempts |
| Submit.JournalTellsTheTruth | src/services/Tx.ts:2092-2119 | wherever the process is stopped, a digest ever sent has an entry and a terminal entry states the truth |
| Submit.SettledStaysSettled | src/services/Tx.ts:3587-3628 | a terminal entry is never replaced, and its digest never sent again, by `resubmit`, `reconcile` and `reconcileAll`, nor by anything once the bytes were sent |
| Submit.AnswersReachTheJournal | src/services/Tx.ts:2092-2119 | in every history without a death or a failed journal call, a terminal answer of an execute or of a reconcile round is in the journal, as that answer, at every later point; until its record nothing but the chain has moved. A plain reconcile counts when it holds the digest unresolved |
| Submit.RefusalsAreTrueIffNothingWasSent | src/services/Tx.ts:2131-2144 | for every number of earlier sends: what refused submits record is true in all histories exactly when that number is zero |
| Submit.SecondSubmitCanLie | src/services/Tx.ts:2131-2144 | for every number of earlier sends above zero, a history in which a further submit of the same bytes records a falsehood |
| Submit.OnlySubmitSendsForeignBytes | src/services/Tx.ts:3611-3628 | bytes of another chain are sent by nothing but a first submit, in any history |
| Submit.ClosedWindowSendsNothing | src/services/Tx.ts:3611-3628 | a re-send whose clock finds the window closed, or the bytes another chain's, sends nothing until the next call |
| Calls.SendsAtLeastOnce | src/services/Tx.ts:2047-2101 | a call that sends sends: with its signed entry written the bytes go out at least once, and at most `max(resubmitAttempts, 1)` times |
| Calls.SendsThenAsks | src/services/Tx.ts:2120-2160 | after a last reply that is not terminal, and not the refusal of a first send, the chain is asked before the call returns and its answer is the outcome |
| Calls.ResubmitsSend | src/services/Tx.ts:3587-3628 | what `resubmit` finds unsettled it sends, in an open window of this chain; in a closed one it sends nothing and asks the chain |
| Calls.SettledIsAnswered | src/services/Tx.ts:3587-3605 | what the journal has settled is never sent, keeps its entry and is answered: `NotApplied` from the entry, the others by asking the chain |
| Calls.UnknownEntriesAreSentAgain | src/services/Tx.ts:3662-3702 | `reconcileAll({ resubmit: true })` sends what one round left unknown, in an open window of this chain |
| Submission.HistoriesAreTraces | src/services/Tx.ts:2047-2168 | what the program does in any history does not depend on where the chain moves in between |
| Submission.RanIsATrace | src/services/Tx.ts:2047-2168 | what the code below does, step by step and answer by answer, is a trace of the submission machine |
| Submission.CallsAreHonest | src/services/Tx.ts:2047-2168 | what the code below returns is honest about the chain of every history it is the program of |
| Submission.Submission.Attempts | src/services/Tx.ts:2056-2101 | the bytes are sent at least once and at most `max(resubmitAttempts, 1)` times; every reply before the last is retryable, and a retryable last one means the attempts are used up |
| Submission.Submission.AskRounds | src/services/Tx.ts:2364-2413 | at least one round is asked, and up to the re-checks more, going on exactly while the answer is unknown |
| Submission.Submission.AfterReply | src/services/Tx.ts:2131-2160 | a refusal is taken at its word, and recorded, only on the first send of a first submit; everything else asks the chain at least once, a lock conflict up to three times more, and the outcome and the entry are those of the last answer |
| Submission.Submission.Write | src/services/Tx.ts:1844-1857 | one journal write of this entry: the entry afterwards is the new one unless the write was lost |
| Submission.Submission.CheckWindow | src/services/Tx.ts:3611-3622 | closed exactly when the bytes name another chain or the clock shows their window closed; a clock that cannot be read closes nothing |
| Submission.Submission.Resend | src/services/Tx.ts:3611-3628 | with the window closed, or the bytes another chain's, the chain is asked and nothing sent; otherwise the bytes are sent |
| Submission.Submission.AskAndRecord | src/services/Tx.ts:2872-2913 | one round, whose answer is the outcome; recorded when it is terminal, the journal answers and holds the digest unresolved, and nothing is written otherwise |
| Submission.Submission.SettleAndRecord | src/services/Tx.ts:2364-2413 | the chain is asked until it has an answer or no rounds are left, and the entry afterwards is the record of the last answer, unless its write was lost |
| Submission.Submission.SendBytes | src/services/Tx.ts:2047-2168 | the signed entry is written first, and a failed write sends nothing; then the attempts, the record of a terminal reply, and what follows any other |
| Submission.Submission.Submit | src/services/Tx.ts:2047-2168 | a first submit is such a send, a run of the machine from its call to its outcome |
| Submission.Submission.Resubmit | src/services/Tx.ts:3587-3628 | an unreadable journal fails and sends nothing; an unsettled or missing entry is sent again; a `NotApplied` is answered from its entry, other settled ones by asking the chain, neither sent nor changed |
| Submission.Submission.Reconcile | src/services/Tx.ts:2872-2913 | one round, its answer the outcome; nothing is sent, and a terminal answer is the entry afterwards when the digest was held unresolved and the journal answers |
| Submission.Submission.SettleEntry | src/services/Tx.ts:3662-3702 | one round settles the entry and is recorded; still unknown, and only then, its bytes are sent again when that was asked for |
| Submission.Submission.ResendAndReport | src/services/Tx.ts:3675-3698 | a re-send's outcome, except that one that failed before sending, or was refused, is reported unknown |
| MarkerProtocol.CallKeepsDebt | src/services/JournalKeyValueStore.ts:85-143 | one key-value call, whatever becomes of it, leaves every hidden entry owed |
| MarkerProtocol.HiddenEntriesAreAlwaysOwed | src/services/JournalKeyValueStore.ts:85-159 | in every interleaving, a marker over an unresolved entry implies some operation still owes a clear |
| MarkerProtocol.CompletedRunsHideNothing | src/services/JournalKeyValueStore.ts:240-258 | once all operations have completed a marker implies a terminal entry, and a listing is exactly the unresolved entries |
| MarkerProtocol.OneWriterNeverHides | src/services/JournalKeyValueStore.ts:240-258 | with one writer at a time nothing is hidden at any step, so a crash anywhere hides nothing |
| MarkerProtocol.CrashWindowHidesAnEntry | src/services/JournalKeyValueStore.ts:121-136 | a run of two writers, one dying between its calls, that leaves an unresolved entry hidden |
| Journal.MemoryJournal.Put | src/services/Journal.ts:45-64 | a put moves its digest to the end and leaves the others in order |
| Journal.MemoryJournal.Get | src/services/Journal.ts:45-64 | the entry with that digest, if there is one |
| Journal.MemoryJournal.ListUnresolved | src/services/Journal.ts:45-64 | the listing is the unresolved entries in insertion order |
| Journal.DurableJournal.ClearMarker | src/services/JournalKeyValueStore.ts:85-90 | does to the store exactly what the protocol's clear does, call by call, with every failure |
| Journal.DurableJournal.SettleMarker | src/services/JournalKeyValueStore.ts:121-136 | does to the store exactly what the protocol's settle does, re-read and take-back included |
| Journal.DurableJournal.Put | src/services/JournalKeyValueStore.ts:240-252 | a put is the protocol's put operation, and succeeds exactly when that completes |
| Journal.DurableJournal.Get | src/services/JournalKeyValueStore.ts:253-255 | the stored entry, whatever its marker says |
| Journal.DurableJournal.ReadUnmarked | src/services/JournalKeyValueStore.ts:145-159 | the stored entry, read exactly when its one read is answered; a terminal entry found unmarked is healed, best effort, and marked when nothing fails |
| Journal.DurableJournal.ListUnresolved | src/services/JournalKeyValueStore.ts:145-159 | a successful listing is exactly the unmarked unresolved entries, oldest first, each once; without failures it succeeds and leaves every terminal entry marked, and whatever fails it heals only terminal ones |
| Journal.PutAloneStores | src/services/JournalKeyValueStore.ts:240-252 | a put that nothing disturbs stores its entry, marks it exactly when it is terminal, and touches no other digest |
| Journal.HealAloneMarks | src/services/JournalKeyValueStore.ts:145-159 | a heal that nothing disturbs marks its entry exactly when it is terminal, and changes nothing else |
| Journal.OldestFirstIsUnique | src/services/JournalKeyValueStore.ts:61-65 | sorting by stamp leaves one possible listing |
| Journal.InsertOldestFirst | src/services/JournalKeyValueStore.ts:64-65 | sorting keeps every entry and puts the oldest first |
| Journal.JournalsAgree | src/services/JournalKeyValueStore.ts:240-252 | after any puts both journals hold the same entries, and a marker is there exactly over a terminal one |
| Journal.SameAnswers | src/services/Journal.ts:45-64 | after any puts both journals give the same answer for every digest |
| Journal.SameListingIffOldestFirst | src/services/JournalKeyValueStore.ts:145-159 | the two listings are one sequence exactly when the unresolved puts that nothing replaced were made oldest first |
| Journal.SameListing | src/services/JournalKeyValueStore.ts:61-65 | with increasing stamps they always are |
| Journal.EqualStampsListDifferently | src/services/JournalKeyValueStore.ts:61-65 | two puts the journals list in different orders |
| Journal.Replay | src/services/Journal.ts:45-64 | the two classes, given the same puts and no failures, end with the same listing |
| Journal.PruneSettled | src/services/JournalKeyValueStore.ts:297-329 | deletes exactly the settled entries recorded before the cutoff and counts them; a failed prune has deleted nothing else |
| Registry.AcquireShares | src/services/Tx.ts:711-734 | users of one address share one semaphore, fresh only when none uses the address |
| Registry.ReleaseDrops | src/services/Tx.ts:711-734 | a release drops the entry exactly when its user was the last, and frees no one else's semaphore |
| Registry.AcquireCounts | src/services/Tx.ts:711-734 | the references of the registry value change as those of the shared map do when one is taken |
| Registry.ReleaseCounts | src/services/Tx.ts:711-734 | and when one is dropped |
| Registry.SharedRegistry.AcquireEntry | src/services/Tx.ts:711-734 | the shared map's entry is found or made, and counted once more, the others unchanged |
| Registry.SharedRegistry.ReleaseEntry | src/services/Tx.ts:711-734 | it is counted once less and leaves the map exactly with its last reference |
| SenderLocks.LockOrderIsGlobal | src/services/Tx.ts:3393-3409 | equal addresses collapse to one lock, two parties' locks are taken in one order whoever sends and whoever pays, and a drained payer is among them |
| SenderLocks.LocksAreThePartys | src/services/Tx.ts:3393-3409 | a run locks its sender always, its payer exactly when someone else pays with coins, and no one else; a `tx.gas` run drains for whoever pays, and no other run drains |
| SenderLocks.HistoryKeepsInv | src/services/Tx.ts:3487-3550 | every history of any runs, failures and interrupts included, keeps references, holders and counters in agreement |
| SenderLocks.RegistryIsOneLockPerAddress | src/services/Tx.ts:694-762 | an entry exists exactly while someone references it, counts holders and waiters, and is the one semaphore they all have |
| SenderLocks.RunsNeverOverlap | src/services/Tx.ts:3530-3546 | two runs that lock one address are never both between their build and their release |
| SenderLocks.DrainedRunsSeeNoneInFlight | src/services/Tx.ts:3464-3469 | a run that is to drain a payer whose lock it takes builds, registers and finishes under its locks only while no other run that takes that lock is in flight on the payer, and none is while it still holds the lock; every counter is the number of runs registered |
| SenderLocks.BuiltRunsAreCovered | src/services/Tx.ts:3530-3546 | from build to settlement a run whose bytes keep the locks holds them all, and any other lets go of them only once registered on every address its bytes are on |
| SenderLocks.NeverDeadlocked | src/services/Tx.ts:3487-3550 | in every reachable state with an unfinished run some unfinished run can step |
| SenderLocks.EveryStepIsProgress | src/services/Tx.ts:3487-3550 | every step of a run, failures included, brings it closer to its end, and no other run's step moves it back, so no run goes on for ever |
| Paging.ListAffectedDigests | src/services/Sui.ts:361-414 | a page is the first fifty digests the node sent; it says there is more exactly when the look-ahead or the end says so; its cursor has been passed by exactly its digests |
| Paging.PagesAreTheListing | src/services/Sui.ts:161-177 | following pages to the end yields every match after the start, once and in order |
| Paging.UnfoldEnds | src/services/Sui.ts:161-177 | an unfold has no more pages than entries, because every continued page moves the cursor |
| Paging.DescendingPagesAreTheListing | src/services/Sui.ts:361-414 | a descending listing yields the matches below its start, newest first and once each, as its first page's ledger had them, however the ledger grows |
| Paging.StepIsExact | src/services/Sui.ts:244-262 | one poll emits its page's items, which are exactly the matches between its cursors; a page that says more moves the cursor, a final one leaves no match past it, and the next poll waits exactly after a final one |
| Paging.EmptyPageMovesToTheHead | src/services/Sui.ts:244-262 | an empty final page, after waiting, moves the cursor to the head read before it |
| Paging.TailIsExact | src/services/Sui.ts:223-263 | after any number of polls the items are exactly the matches between the first cursor and the last |
| Paging.CaughtUpTailIsComplete | src/services/Sui.ts:223-263 | after a final page the items are every match from the first cursor to the end of the ledger that page was read from |
| Paging.UncaughtTailMoves | src/services/Sui.ts:223-263 | polls that say more move the cursor each time, so a tail catches up within as many polls as the ledger has entries |
| Paging.HeadAheadSkipsAMatch | src/services/Sui.ts:244-262 | a head ahead of the ledger the page came from loses a match for good |
| BatchRead.Deduplicate | src/services/Sui.ts:1169-1177 | each distinct id once, as first spelled, in order |
| BatchRead.ItemIsWhatWasSaid | src/services/Sui.ts:1198-1226 | what is given for a position is what the node said there: the object decoded, an object that could not be, or why there is none |
| BatchRead.FetchPage | src/services/Sui.ts:1180-1232 | a chunk is read exactly when every position answers for its id; then the entries are the node's items |
| BatchRead.Collect | src/services/Sui.ts:1247-1250 | the answers are those before and those of the page |
| BatchRead.InOrder | src/services/Sui.ts:1252-1264 | an answer for every id in the caller's order, or no read |
| BatchRead.AskedExactlyOnce | src/services/Sui.ts:1169-1245 | each distinct id is at one position of one request, nothing else is asked, no request is longer than fifty and only the last is shorter |
| BatchRead.AnswersAreUnique | src/services/Sui.ts:1246-1262 | the node's answer for an id is one item, wherever the caller repeats the id |
| BatchRead.GetObjects | src/services/Sui.ts:1161-1265 | the read succeeds exactly when every request is answered in line; then each position holds the node's answer for its id |
| FoldPlan.Chunk | src/services/Fold.ts:109-113 | the loop cuts the coins into consecutive groups |
| FoldPlan.ClampIsAsRequested | src/services/Fold.ts:152-155 | the clamp is what was asked for within 1 and 500, and 500 when nothing was |
| FoldPlan.EstimateGrowsByTheCoin | src/services/Fold.ts:97 | the estimate is 10,000 units for none and 1,000 more for each coin, at the gas price |
| FoldPlan.SuiIsPlannedFirst | src/services/Fold.ts:163-164 | every SUI group is planned before any other |
| FoldPlan.PlanKeepsSuiFirst | src/services/Fold.ts:163-164 | and so its batches come first in the plan |
| Lists.ChunksPartition | src/services/Fold.ts:109-113 | the groups are the items in order, none empty or too long, only the last short |
| FoldPlan.SortedIsSorted | src/services/Fold.ts:175-177 | the sort is largest first and keeps every coin |
| FoldPlan.FullGroupSumsDescend | src/services/Fold.ts:173-195 | sums of full groups never increase after the sort |
| FoldPlan.PlanFold | src/services/Fold.ts:143-201 | the nested loops compute the greedy plan |
| FoldPlan.DecisionIsSound | src/services/Fold.ts:178-195 | one decision keeps every coin, keeps a projection that is not negative so, folds only what the coins or the projection pay for and skips only what neither could |
| FoldPlan.PlanIsSolvent | src/services/Fold.ts:166-195 | with charges at most the estimates, before each batch the projection is not negative, the real balance is not below it, and the batch is covered |
| FoldPlan.ProjectionIsTheEstimatedBalance | src/services/Fold.ts:166-195 | the projection before each batch is exactly the balance there would be if every earlier batch were charged its estimate |
| FoldPlan.FullSizeGroupsFallInOrder | src/services/Fold.ts:178-195 | full SUI groups are decided in the order foldedCoins, addressBalance, skipped |
| FoldPlan.PlanKeepsEveryCoin | src/services/Fold.ts:173-200 | batches and skipped coins are a permutation of the coins read; no batch is empty or over the clamp |
| FoldRecipe.CommandsFold | src/services/Fold.ts:224-257 | merging and depositing consumes each remaining coin once and credits what they held |
| FoldRecipe.Fold | src/services/Fold.ts:224-257 | the transaction written stays within the protocol's limits, pays gas as the batch says, deposits last, and on every ledger holding the coins consumes each once, credits their sum to their type's balance and takes the gas from the SUI balance |
| FoldRecipe.GasIsPaidInSui | src/services/Fold.ts:224-257 | what a fold adds and takes, coin type by coin type |
| MultiSig.OnlyMemberOrderVerifies | src/services/MultiSigSigner.ts:36-44 | of all orders the same signatures can be combined in, the chain accepts member order and no other |
| MultiSig.TotalIsTheBitmapsWeight | src/services/MultiSigSigner.ts:99-105 | the weight added up signer by signer is the weight of the bitmap's members |
| MultiSig.Make | src/services/MultiSigSigner.ts:79-137 | the signer is made exactly for distinct members at or above the threshold, and holds the same signers in member order |
| MultiSig.Choose | src/services/MultiSigSigner.ts:83-98 | the loop ends with every signer's own member exactly when all are members and no two are one |
| MultiSig.SignTransaction | src/services/MultiSigSigner.ts:128-133 | the members' signatures are combined in the order the signer holds them |
| MultiSig.AcceptedInEveryOrder | src/services/MultiSigSigner.ts:106-133 | whatever order acceptable signers come in, the n-th signature is under the key of the n-th set bit and the chain accepts |
| MultiSig.SameForEveryOrder | src/services/MultiSigSigner.ts:106-107 | every permutation of the signers makes the same signer |
| MultiSig.AcceptableInEveryOrder | src/services/MultiSigSigner.ts:79-105 | whether it is made does not depend on the order |
| Signers.EarliestIsLeast | src/services/MultiSigSigner.ts:25-29 | the least of the bounds that exist, and none exactly when none exists |
| Signers.MaxEpochIsTheEarliestProof | src/services/MultiSigSigner.ts:123-127 | a signer's `maxEpoch` is the earliest proof anywhere in its tree of members and aliases |
| Signers.SignsIffEveryProofCovers | src/services/ZkLoginSigner.ts:128-140 | no signer under the tree refuses bytes exactly when none begins after a proof's last epoch |
| SessionWindow.BoundIsTheEarliestProof | src/services/Tx.ts:3424-3426 | the session bound is the earliest proof of the signer and of a paying sponsor |
| SessionWindow.WindowFitsEverySigner | src/services/Tx.ts:1392-1438 | a window is built exactly when no proof has passed and the nonce is a u32; it starts now, is at most two epochs, ends by every proof, and no signer refuses it |
| SessionWindow.WindowIsOfThisChain | src/services/Tx.ts:1392-1438 | the window names the chain it was built on and ends `validFor` after the chain time |
| SessionWindow.OtherDefaults | src/services/Tx.ts:1392-1438 | the current-epoch default is built exactly when no proof on the bytes has passed and is signed by the signer; without a default nothing expires |
| SessionWindow.UnclampedWindowOutlivesTheProof | src/services/ZkLoginSigner.ts:146-166 | without the bound a proof's last epoch gives bytes its signer signs and that are still valid an epoch after it |
| SessionWindow.AliasKeepsTheSession | src/services/MultiSigSigner.ts:177-190 | an alias changes the address signed as and nothing the window depends on |
| U64.DecimalIsTheOnlySpelling | src/domain/schemas.ts:987-1003 | a plain decimal is the one way to write its number |
| U64.TextIsReadExactly | src/domain/schemas.ts:994-1003 | a string reads as a number exactly when, trimmed, it is that number's decimal and below 2^64 |
| U64.RoundTrips | src/domain/schemas.ts:1015-1043 | what is encoded is read back, what was read is encoded as it was written, and encoding fails exactly outside the range |
| U64.NumbersReadAsTheirText | src/domain/schemas.ts:994-999 | a whole number reads as its decimal string does exactly up to the largest safe integer |

## Left out

- The SDK, its gRPC, JSON-RPC and GraphQL transports, proxies and abortable clients: only their answers appear, as inputs.
- Error mapping, retry schedules, jitter, timeouts, spans, metrics and logs. A read is answered, missed or failed; a timeout is a retryable reply.
- Cryptography, BCS, base58 and digest computation: digests, ids and addresses are injective names, and a signature verifies under its own key only. The SDK's `combinePartialSignatures` and the chain's bitmap check are modelled from `src/services/MultiSigSigner.ts:36-44`.
- `submitVia`: whether a third party's answer is true is not decided by this code.
- `awaitVisible` and the wording of errors: they do not change an outcome.
- Reconcile.ReconcileIsHonest: for `expired` it assumes what the documentation asks of a deployment, one node, or one whose index reaches the epoch it reports in at least one of the two rounds and that prunes forward only; a load balancer over unequal nodes and `expiryEvidence: "never"` are outside. `Receiving` references that are never received are outside too.
- Submit.OutcomesAreHonest: a `JournalError` speaks about its own call only, so it is judged where nothing was sent before. Calls for one digest are taken one at a time, and `submit` is called on bytes never sent before; what happens otherwise is `Submit.SecondSubmitCanLie`.
- Submit.SettledStaysSettled: a first `submit` of never-sent bytes over a terminal entry, which the code accepts, writes over it; from the moment of its signed write on the lemma does not apply until the bytes were sent.
- Paging.UnfoldEnds: that the watermark has moved when the node stops at a scan limit is the node's promise (`Paging.NodeAnswers`), not proved; a node that stops without moving would be asked the same page again.
- Submission.Submission.SettleEntry: one listed entry; the loop over the listing only repeats it for independent digests.
- Entries that do not decode are failed reads, and the key prefix and the marker's tag value are not modelled.
- Journal.PruneSettled: runs alone; a prune racing a put of the same digest is documented as outside the guarantee, and so are 0.4 and 0.5 writers over one store.
- Journal.DurableJournal.ListUnresolved: reads one entry after another, where the source reads up to eight at once.
- BatchRead.GetObjects: asks chunk after chunk and stops at the first failure, where the source has up to four in flight.
- Whether built bytes keep the locks (`keepsSenderLock`) is an input of the lock model, and so is the policy: `never` is a run without locks, `always` one without a drain whose bytes keep them.
- SenderLocks.NeverDeadlocked: some unfinished run can always step; fairness between waiters is not modelled, nor is the semaphore's queue order. The in-flight semaphore is a counter, and the sets of runs beside the counts are bookkeeping the program does not have.
- FoldPlan.PlanFold: the coins, balances and gas price are what the node reported when asked, and a `NaN` clamp is not modelled. Gas of `auto` batches is chosen by the SDK's resolver, so solvency covers SUI batches.
- Running a plan (`foldCoins`): a loop of runs over `FoldPlan` and `FoldRecipe`.
- Paging.TailIsExact: one append-only ledger behind one node, as documented; several nodes are outside.
- SessionWindow.WindowFitsEverySigner: the epoch is a number; a node that reports something else is a failed read. Alias membership is a chain read of its own.
- `SubmitConfig` merging, accessors of `Executed` and `Simulation`, the key and keychain services: single-branch facts.

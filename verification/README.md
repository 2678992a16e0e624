# Lore: a verified model of its protocols and algorithms

Lore is a version-control system whose client keeps credentials in a shared file, serves its
repository as a FUSE filesystem and reads and writes through its own I/O, thread and retry layers.
This project models the parts of it whose correctness rests on interleavings, accounting or
arithmetic, and proves what they promise for every input and every run.

| file | models |
|---|---|
| `TokenMap.dfy` | the nested token lists and the finite map they stand for |
| `TokenStore.dfy` | one process's token store: cached map, shared file, every operation on them |
| `RefreshProtocol.dfy` | any number of processes refreshing, storing and removing tokens of one file, step by step, with cancellations and crashes |
| `StoreRuns.dfy` | the store's calls as runs of that protocol |
| `Dispatch.dfy`, `Session.dfy` | every FUSE request as a machine, and a session as all of them with their workers, the lookups counted and the references held |
| `DispatchReplies.dfy` | the parts of the dispatcher that send and give back, in the form of the source |
| `InterruptSlots.dfy` | in-flight slots, with single loads, stores and notifications interleaved |
| `ThreadBudget.dfy` | apportioning threads to pools, and the pools of a process |
| `BatchGet.dfy` | batched reads with resends, and the retry waiter they use |
| `Histogram.dfy` | log2 latency histograms against the samples behind them |
| `MountTable.dfy` | finding a mount in `/proc/self/mountinfo` |
| `VectoredIo.dfy` | scatter and gather reads and writes over short transfers |
| `DirStream.dfy` | a directory listing resolved a chunk at a time |
| `ErrorForwarding.dfy` | an error and its trace along a chain of forwards |
| `Wrappers.dfy`, `Sums.dfy`, `Collections.dfy` | options and results; sums, sequences and multisets |

`dafny verify dfyconfig.toml` checks everything.

## What the environment may do

- Processes, tasks and handlers interleave at every step the model names, under sequential
  consistency. Cancellations and crashes fall between any two steps of a token store operation.
- A write of the token file happens as a whole or not at all, and a stored file loads again.
- Logins and rotations bring refresh tokens never seen before (`RefreshProtocol.FreshChange`,
  `RefreshProtocol.FreshAnswer`); the theorems on single flight also take that no replaced token is
  stored again (`RefreshProtocol.NoReuse`).
- The FUSE provider keeps the contract of the `Filesystem` trait (`lore-fuse/src/filesystem.rs:77-87`
  and `119-124`): `WouldFetch` comes only from forms that have changed, written and counted nothing,
  and an interrupted lookup counts nothing.
- The batch service answers some of a request's keys with what the table holds and returns the rest
  (`BatchGet.Honest`).
- The kernel may cut any read or write short or fail it.

## Where the code and what is written about it differ

- Token removal. Storing trims trailing slashes from an endpoint, `remove_user_token_where` does
  not. What was stored is removed by the same argument exactly when it has no trailing slash
  (`TokenStore.StoredThenRemoved`; `https://auth/` is not, `TokenStore.StoredThenKept`).
- A refresh token that does not open. `refresh_user_token` has taken it out of the cached map by then
  and leaves it out, while the file keeps it. The cached map is changed by a call that presents nothing
  exactly when the entry's token opens and is the expired one and its refresh token does not open
  (the last clause of `TokenStore.Store.RefreshUserToken`, and `TokenStore.DropsUnopened`).
- Stray wakeups. A slot's guard is said to resolve only while its own request is targeted. A request
  that no INTERRUPT has found may resolve exactly when a handler has found an earlier request in its
  slot and has yet to notify it (`InterruptSlots.StrayWakeupIff`; a run with a single handler is
  `InterruptSlots.StrayWakeup`).
- Lost interrupts. A stored interruption is said to be found by a waiter that registers later. It may be
  lost, its waiter left with no handler about to notify it, exactly when the waiter has not registered
  and a handler that found an earlier request in the slot has yet to store that one's unique
  (`InterruptSlots.LostIff`; a run is `InterruptSlots.OverlapLosesAnInterrupt`). None is lost when handlers
  do not overlap (`InterruptSlots.NoLostInterrupt`).
- Thresholds. `at_least_ns` is said to be exact for powers of two. It is exact for every histogram
  exactly when the threshold is a power of two from 2 to 2^31 (`Histogram.AtLeastIsExactOnlyAtThresholds`);
  1 and 2^32 and above are powers of two for which it is not (`Histogram.PowersThatAreNoThresholds`).
- Percentiles. The estimate lies above the true sample exactly when that sample is below 2^32
  (`Histogram.PercentileEstimate`).
- Directory listings. A `next` dropped before it answered loses the rest of the directory exactly when
  no entry was at hand and the walk had entries left (`DirStream.Stream.NextDropped`); a directory of 257
  entries whose last is never listed is `DirStream.LosesTheLastEntry`.

## Model

| member | source | states |
|---|---|---|
| `TokenMap.FindRefines` | lore-credential/src/token_store.rs:1179-1192 | the nested search finds what the map of endpoint and user holds |
| `TokenMap.PutRefines` | lore-credential/src/token_store.rs:573-644 | storing keeps endpoints distinct, users distinct within each and no endpoint empty, and is the map update at one key, `Keep` preserving refresh token, deadline and scope |
| `TokenMap.StoredEntry` | lore-credential/src/token_store.rs:596-618 | field by field, what is in the stored entry of its own and what of the one it replaces |
| `TokenMap.StripRefines` | lore-credential/src/token_store.rs:765-828 | removing a user under an auth URL keeps the same shape and removes exactly that user's keys there |
| `TokenMap.StripAllRefines` | lore-credential/src/token_store.rs:835-870 | removing everything under an auth URL keeps the same shape and removes exactly those keys |
| `TokenMap.CoversUrlAndResources` | lore-credential/src/token_store.rs:734-752 | a logout covers the URL, its 32-digit repository ids and its `urc-` resources, and nothing else |
| `TokenMap.StrippedIsTheirEntry` | lore-credential/src/token_store.rs:787-800 | it returns the user's entry at the URL itself, if there is one |
| `StoreRuns.TokensAre` | lore-credential/src/token_store.rs:835-870 | what removing everything returns are the entries at the URL itself |
| `TokenMap.RemoveWhereRefines` | lore-credential/src/token_store.rs:929-972 | a conditional removal keeps the same shape and removes at most the one key, when its token meets the condition |
| `TokenMap.SetRefines` | lore-credential/src/token_store.rs:1059-1176 | changing the found entry in place is the map update at its key |
| `TokenMap.Trimmed` | lore-credential/src/token_store.rs:573-644 | the argument less its trailing slashes: a prefix, nothing but slashes cut off, none left at the end |
| `TokenStore.Store.Reload` | lore-credential/src/token_store.rs:337-341 | a mutation starts from the file, or from the cached map where the file does not load |
| `TokenStore.Store.WriteFile` | lore-credential/src/token_store.rs:383-414 | the file is replaced as a whole or left alone |
| `TokenStore.Store.StoreIdentityToken` | lore-credential/src/token_store.rs:573-644 | the cached map becomes the reloaded one with the token put, the file follows when its write succeeds |
| `TokenStore.Store.MatchingIndices` | lore-credential/src/token_store.rs:765-828 | exactly the positions of the endpoints under the auth URL, ascending |
| `TokenStore.Store.StripDescending` | lore-credential/src/token_store.rs:765-828 | removing at descending indices is the order-preserving filter, and reports whether anything went |
| `TokenStore.Store.RemoveUserTokens` | lore-credential/src/token_store.rs:765-828 | new cache, file and returned tokens, the file written only when something was removed |
| `TokenStore.Store.RemoveAllTokens` | lore-credential/src/token_store.rs:835-870 | new cache, file and returned tokens, the file written exactly when an endpoint matched |
| `TokenStore.Store.RemoveUserTokenWhere` | lore-credential/src/token_store.rs:929-972 | new cache, file and result, the file written exactly when a token met the condition |
| `TokenStore.Store.RefreshUserToken` | lore-credential/src/token_store.rs:1059-1176 | exactly when a refresh token is presented and which; the file, the cached map and the result for every answer, failed write, failed seal and value that does not open; field by field what each answer makes of the entry, and each outcome's result |
| `TokenStore.AnsweredLeaves` | lore-credential/src/token_store.rs:1114-1170 | an accepted answer's token, domains and deadline, its refresh token and scope where given; an unsent one's entry unchanged; any other's without its refresh token |
| `TokenStore.StoredThenRemoved` | lore-credential/src/token_store.rs:929-972 | a stored entry is gone after a removal with the same endpoint exactly when that endpoint has no trailing slash |
| `TokenStore.StoredThenKept` | lore-credential/src/token_store.rs:929-972 | an entry stored under an endpoint with a trailing slash that its removal leaves |
| `TokenStore.UnopenedIsDropped` | lore-credential/src/token_store.rs:1090-1095 | the cached map that a refresh token which does not open leaves is another map, without it |
| `TokenStore.DropsUnopened` | lore-credential/src/token_store.rs:1090-1095 | a store whose file keeps a refresh token that its cached map has lost |
| `RefreshProtocol.RunInv` | lore-credential/src/token_store.rs:1046-1176 | the invariant of every reachable state of every run |
| `RefreshProtocol.PresentedTwiceOnlyRearmed` | lore-credential/src/token_store.rs:1046-1176 | two presentations of one refresh token are separated by an answer that left it in force and a successful write of that answer |
| `RefreshProtocol.SpentNeverPresentedAgain` | lore-credential/src/token_store.rs:1046-1176 | after a refusal, a failure, a rotation, another identity's answer, a failed write or an abandoned operation it is never presented again |
| `RefreshProtocol.OutIsNotInFile` | lore-credential/src/token_store.rs:1090-1105 | while a refresh token is out or spent the file does not hold it |
| `RefreshProtocol.EntryNeverVanishes` | lore-credential/src/token_store.rs:1107-1114 | the entry of a grant that is out stays in the cached map, so the vanished-entry error is never returned |
| `RefreshProtocol.RunFlight` | lore-credential/src/token_store.rs:1075-1092 | no reachable log presents or accepts for a token already replaced, and neither the file nor a lock holder's map holds one |
| `RefreshProtocol.OneGrantPerExpiredToken` | lore-credential/src/token_store.rs:1075-1092 | after an accepted grant for an endpoint, identity and expired token there is no other presentation or acceptance for them |
| `RefreshProtocol.LaterCallerGetsTheStoredToken` | lore-credential/src/token_store.rs:1075-1092 | a later caller with that expired token presents nothing and is given the token in the file, another one, or that there is none exactly when the file has no entry |
| `StoreRuns.RefreshCallIsARun` | lore-credential/src/token_store.rs:1059-1176 | every call of `refresh_user_token`, whatever opens, writes and seals fail, is a run of the protocol between the maps of the lists it reloads, writes and caches, with a presentation logged exactly when it makes one |
| `StoreRuns.WritesRefines` | lore-credential/src/token_store.rs:765-972 | a removal writes the file exactly when some key leaves the map |
| `StoreRuns.ChangeCallIsARun` | lore-credential/src/token_store.rs:573-972 | every store and removal is a run of the protocol between the maps of its lists |
| `Dispatch.AfterGood` | lore-fuse/src/dispatch.rs:237-695 | every event of a request keeps its sends, its answer and its changes in step with where it stands |
| `Dispatch.AfterBalances` | lore-fuse/src/dispatch.rs:140-176 | every event moves lookups between counted, given back, taken and pending without losing or inventing one |
| `Dispatch.ReferencedAppend` | lore-fuse/src/codec/dirent.rs:106-119 | a record adds its node to those a page hands over, unless it is `.` or `..` or has none |
| `Dispatch.ReferencedCounts` | lore-fuse/src/codec/dirent.rs:106-119 | a page hands over each node once for every record that names it, node 0 never |
| `Dispatch.ForgetsCount` | lore-fuse/src/dispatch.rs:237-695 | a FORGET gives up as many references as it says, a BATCH_FORGET those of all its entries |
| `Dispatch.DispatchCourse` | lore-fuse/src/dispatch.rs:237-695 | which requests are raced, run on the worker, answered at once or not answered |
| `Dispatch.LocalFormsDefer` | lore-fuse/src/dispatch.rs:237-695 | which local forms go to a task of their own when they need a fetch |
| `Dispatch.ChangeIsMadeByTheAnswer` | lore-fuse/src/dispatch.rs:1117-1209 | a change is made by the form that answers, never by a fetch |
| `Session.RunInv` | lore-fuse/src/session.rs:221-262 | the invariant of every reachable state of a session |
| `Session.OneReplyPerRequest` | lore-fuse/src/dispatch.rs:237-695 | no request is answered twice, and one that is over was answered once unless it is a FORGET, a BATCH_FORGET or an INTERRUPT that found its target |
| `Session.RepliesAreOfTheirKind` | lore-fuse/src/dispatch.rs:237-695 | over every run, the replies each kind of request can have: the errors made up by the dispatcher, `EINTR` only for raced requests, and how many lookups a success hands over |
| `Session.WorkersGoOn` | lore-fuse/src/session.rs:221-262 | without a shutdown and a broken reply no worker stops |
| `Session.BrokenReplyStopsItsWorker` | lore-fuse/src/session.rs:258-260 | a worker whose reply broke is stopped for good |
| `Session.TurnsAreBounded` | lore-fuse/src/session.rs:205-288 | over every run, whatever the other requests do, a request's events other than rows are paid for by its progress |
| `Session.EveryRunAnswers` | lore-fuse/src/dispatch.rs:237-695 | in every run a request takes at most eight events besides rows, and has none left exactly when it is over, answered exactly once unless it is one that is not answered at all |
| `Session.PermitsFollow` | lore-fuse/src/dispatch.rs:76-117 | the map of deferred requests changes only where a request registers, is removed or is found in it by an INTERRUPT |
| `Session.FoundInSlotOrMap` | lore-fuse/src/dispatch.rs:455-462 | an INTERRUPT finds its target exactly in a slot or in that map |
| `Session.RankFalls` | lore-fuse/src/dispatch.rs:237-695 | every event of a request but a listed row brings it nearer its end |
| `Session.NothingSetsBack` | lore-fuse/src/session.rs:205-288 | no step of another request or worker sets a request back |
| `Session.LookupsConserved` | lore-fuse/src/dispatch.rs:140-176 | without a transport error, lookups counted less those forgotten or given back are the kernel's references and those under way |
| `Session.LookupsAgreeAtRest` | lore-fuse/src/dispatch.rs:370-410 | when every request is over the provider's count and the kernel's references are equal |
| `Session.ChangeMadeOnce` | lore-fuse/src/dispatch.rs:464-689 | a write other than FSYNC is made at most once, exactly once on success and never on `EINTR` |
| `Session.InterruptDuringCompletion` | lore-fuse/src/dispatch.rs:1117-1209 | an INTERRUPT during a completion finds it, and every course of events open to the write is open as before, with the same replies, changes and lookups |
| `DispatchReplies.DeferredInterrupts.Register` | lore-fuse/src/dispatch.rs:93-98 | in any reachable session, the map of deferred requests after the request's registration |
| `DispatchReplies.DeferredInterrupts.Remove` | lore-fuse/src/dispatch.rs:100-102 | in any reachable session, the map of deferred requests after the request's removal |
| `DispatchReplies.DeferredInterrupts.Wake` | lore-fuse/src/dispatch.rs:104-116 | for an INTERRUPT that found no slot, in any reachable session: whether it finds its target, and the map after it did or did not |
| `DispatchReplies.Desk.GiveBackRecords` | lore-fuse/src/dispatch.rs:172-176 | exactly the lookups of a page are given back: of each node as many as records name it, `.` and `..` apart |
| `DispatchReplies.Desk.FinishReply` | lore-fuse/src/dispatch.rs:140-151 | one reply, whose entry's lookup the kernel takes when it is sent and the provider gets back when it is aborted |
| `DispatchReplies.Desk.FinishDirectoryPlus` | lore-fuse/src/dispatch.rs:155-166 | the same for a whole page |
| `DispatchReplies.Desk.ReplyListing` | lore-fuse/src/dispatch.rs:1214-1244 | one reply for a complete, failed or interrupted listing, and the lookups taken and given back, which are those of the request machine for any listing, on its worker or its task |
| `DispatchReplies.ListingEnds` | lore-fuse/src/dispatch.rs:370-410 | the reply and the lookups of a listing from the end of its race to its delivery |
| `InterruptSlots.InFlightSlots.constructor` | lore-fuse/src/interrupt.rs:40-44 | every slot starts idle |
| `InterruptSlots.InFlightSlots.Begin` | lore-fuse/src/interrupt.rs:48-52 | the slots of any state become those after its worker's step |
| `InterruptSlots.InFlightSlots.Drop` | lore-fuse/src/interrupt.rs:98-102 | the slots of any state become those after its worker's step |
| `InterruptSlots.InFlightSlots.Interrupt` | lore-fuse/src/interrupt.rs:60-72 | the first slot that holds a nonzero unique is flagged and notified, and none otherwise; the slots of any state become those after an uninterrupted handler |
| `InterruptSlots.InterruptIsARun` | lore-fuse/src/interrupt.rs:60-72 | that handler is a run of its own single loads, store and notification |
| `InterruptSlots.LostIff` | lore-fuse/src/interrupt.rs:60-95 | a stored interruption may be lost exactly when the waiter has not registered and a handler that found an earlier request in the slot has yet to store it |
| `InterruptSlots.StrayWakeupIff` | lore-fuse/src/interrupt.rs:75-95 | a request no INTERRUPT has found may resolve exactly when a handler has found an earlier one in its slot and has yet to notify it |
| `InterruptSlots.ResolvedOnlyThroughAMatch` | lore-fuse/src/interrupt.rs:83-95 | a request resolves only through a handler that found a request, and by the stored unique only if it was this one |
| `InterruptSlots.NoLostInterrupt` | lore-fuse/src/interrupt.rs:60-95 | with handlers that do not overlap no waiter is left waiting unnotified |
| `InterruptSlots.OverlapLosesAnInterrupt` | lore-fuse/src/interrupt.rs:60-72 | a run of two overlapping handlers after which an interrupted request waits with no handler left to notify it |
| `InterruptSlots.StrayWakeup` | lore-fuse/src/interrupt.rs:75-77 | a run that resolves a request no INTERRUPT named |
| `ThreadBudget.EnoughRemainders` | lore-base/src/runtime.rs:850-858 | there are at least as many nonzero remainders as threads left to give |
| `ThreadBudget.ReducedLevels` | lore-base/src/runtime.rs:838-849 | taking from the largest pools reaches the limit or the minimum everywhere, and only levels pools down |
| `ThreadBudget.ToppedFairly` | lore-base/src/runtime.rs:850-858 | topping up gives the largest remainders one thread each and reaches the limit |
| `ThreadBudget.Reduce` | lore-base/src/runtime.rs:838-849 | the in-place loop and its running sum |
| `ThreadBudget.TopUp` | lore-base/src/runtime.rs:850-858 | the in-place loop and its running sum |
| `ThreadBudget.ApportionThreadCounts` | lore-base/src/runtime.rs:824-861 | exactly the limit, or the minimum everywhere where the minima exceed it; every pool between the minimum and the larger of its ideal and one over the minimum; the extra to the largest remainders, of equal ones to the last |
| `ThreadBudget.ApportionedIsUnique` | lore-base/src/runtime.rs:824-861 | these promises leave no choice, ties included |
| `ThreadBudget.TieGoesToTheLast` | lore-base/src/runtime.rs:850-858 | a tie between worker and io threads |
| `ThreadBudget.ProportionalWhenNoFloorBinds` | lore-base/src/runtime.rs:830-858 | when every share reaches the minimum each pool gets its floored share or one more, largest remainders first |
| `ThreadBudget.ThreadsForConnections` | lore-base/src/runtime.rs:896-909 | opened connections move threads between core and net without changing their sum, served ones add them, within the default and half |
| `ThreadBudget.ApplyThreadLimit` | lore-base/src/runtime.rs:877-882 | no limit grants what was asked |
| `ThreadBudget.CoreThreadCounts` | lore-base/src/runtime.rs:1136-1147 | configured sizes come before those the process asks for and are apportioned with the rest |
| `ThreadBudget.ProcessThreads` | lore-base/src/runtime.rs:1136-1151 | with default settings the threads of both runtimes and the syscall pool add up to the budget, at most the limit or the minima; without a limit each pool's size from the processors, the I/O request, the net request and the connections |
| `RetryWaiter.NextInterval` | lore-base/src/retry.rs:38-46 | an interval exactly while fewer than the limit were taken |
| `RetryWaiter.NthInterval` | lore-base/src/retry.rs:38-46 | the nth interval is the first doubled n times, at most the maximum, and there are exactly limit of them |
| `BatchGet.Split` | lore-aws/src/dynamodb.rs:820-841 | chunks of 1 to 100 keys from the end, as few as possible, that hold exactly the keys |
| `BatchGet.JoinAccounts` | lore-aws/src/dynamodb.rs:807-894 | joining one task keeps answered and outstanding keys together all the keys |
| `BatchGet.JoinResends` | lore-aws/src/dynamodb.rs:807-894 | a resend keeps the bound on requests and leaves fewer resends |
| `BatchGet.JoinAll` | lore-aws/src/dynamodb.rs:845-894 | the joining loop: the same for any tasks it starts with |
| `BatchGet.BatchGetChunks` | lore-aws/src/dynamodb.rs:807-930 | exactly the stored items or an error, for any order of completion, in at most ceil(n/100) * (1 + limit) requests of 1 to 100 keys; keys left over only after one chunk's own `1 + limit` requests, each of what the one before left, and any other error only for a request that failed so |
| `Histogram.OpcodeMetrics.Record` | lore-fuse/src/metrics.rs:27-36 | counters, buckets and maximum stay those of all the samples |
| `Histogram.OpcodeMetrics.Snapshot` | lore-fuse/src/metrics.rs:38-53 | a snapshot's count, maximum and percentiles are those of all the samples |
| `Histogram.BucketAtLeast` | lore-fuse/src/metrics.rs:58-65 | a sample is in bucket k or above exactly when it is 2^k or more |
| `Histogram.CountIsSize` | lore-fuse/src/metrics.rs:156-158 | the buckets add up to the number of samples |
| `Histogram.PercentileNs` | lore-fuse/src/metrics.rs:75-89 | the upper edge of the first bucket up to which there are enough samples for the percentile, or of the last one |
| `Histogram.TargetIsNearestRank` | lore-fuse/src/metrics.rs:79-80 | the target is the least rank that is at least the percentile's share of the samples |
| `Histogram.PercentileFindsTheBucket` | lore-fuse/src/metrics.rs:75-89 | the estimate is the edge of the bucket of the sample at the nearest rank, the least that is enough, of the sorted samples |
| `Histogram.PercentileEstimate` | lore-fuse/src/metrics.rs:69-89 | at most twice the true sample, and above it exactly below 2^32 |
| `Histogram.WindowIsTheSamplesBetween` | lore-fuse/src/metrics.rs:143-154 | a later histogram less an earlier one is that of the samples between, and a sum that of all |
| `Histogram.AtLeastIsExactOnlyAtThresholds` | lore-fuse/src/metrics.rs:165-174 | exact for every histogram exactly at powers of two from 2 to 2^31 |
| `Histogram.PowersThatAreNoThresholds` | lore-fuse/src/metrics.rs:165-174 | 1 and every power of two from 2^32 miss a sample of their own value |
| `MountTable.MountinfoEscaped` | lore-fuse/src/mount.rs:455-465 | the loop escapes byte by byte |
| `MountTable.EscapeRoundTrip` | lore-fuse/src/mount.rs:453-465 | reading the octal escapes back gives the bytes |
| `MountTable.EscapeInjective` | lore-fuse/src/mount.rs:453-465 | different sources are written differently |
| `MountTable.EscapedOnlyWhereNeeded` | lore-fuse/src/mount.rs:453-465 | a source is written as it is exactly when it holds no space, tab, newline or backslash |
| `MountTable.EscapedIsOneField` | lore-fuse/src/mount.rs:453-465 | an escaped source holds no space, tab or newline |
| `MountTable.SplitJoin` | lore-fuse/src/mount.rs:442-451 | splitting undoes joining |
| `MountTable.RenderSeparates` | lore-fuse/src/mount.rs:442-451 | the first separator of a line is the one after its optional fields |
| `MountTable.ListsExactlyTheMounted` | lore-fuse/src/mount.rs:439-451 | a table lists a source exactly when it holds a mount of it |
| `VectoredIo.GatherIovecs` | lore-io/src/psync.rs:936-960 | the iovecs for the bytes after the skipped ones |
| `VectoredIo.Gathered` | lore-io/src/psync.rs:936-963 | at most 1024 iovecs, in bounds, that address the next bytes in order and are none only when none are left |
| `VectoredIo.Scattered` | lore-io/src/psync.rs:936-977 | filling them replaces exactly those bytes and no segment's size |
| `VectoredIo.ReadVectored` | lore-io/src/psync.rs:936-977 | one read: its bytes, and nothing read only past the end |
| `VectoredIo.ReadExactVectoredAt` | lore-io/src/file.rs:229-255 | the segments hold the file's bytes after any short reads, or the file was too short, or the system failed |
| `VectoredIo.WriteVectored` | lore-io/src/psync.rs:980-1023 | one write: a stretch of the buffers and nothing else changed |
| `VectoredIo.WriteAllVectoredAt` | lore-io/src/file.rs:259-282 | a prefix of the buffers has reached the file, all of it exactly on success, and nothing else has changed |
| `VectoredIo.WriteThenRead` | lore-io/src/file.rs:229-282 | reading back what was written gives every segment |
| `DirStream.ReadChunk` | lore-io/src/dir.rs:128-137 | the next entries, at most a chunk, and the walk unless its end was seen |
| `DirStream.Resolve` | lore-io/src/dir.rs:151-167 | a link is described by its target, any other name by its own stat |
| `DirStream.Stream.constructor` | lore-io/src/dir.rs:68-84 | a new stream has the whole walk before it |
| `DirStream.Stream.Next` | lore-io/src/dir.rs:100-115 | the walk's entries one by one, errors included, at most a chunk held, then nothing for ever |
| `DirStream.Stream.NextDropped` | lore-io/src/dir.rs:100-115 | a dropped `next` loses entries exactly when none was at hand and the walk had some left |
| `DirStream.LosesTheLastEntry` | lore-io/src/dir.rs:100-115 | a directory of one entry more than a chunk whose last entry is never listed |
| `DirStream.Stream.Drain` | lore-storage/src/local/fan_out.rs:273-290 | a consumer to the end sees exactly what remained, in one dispatch for each full chunk and one more |
| `ErrorForwarding.PushKeepsTheLast` | lore-error-set/src/traced.rs:54-60 | pushing onto the last sixteen of a history gives the last sixteen of the longer one, and overflow exactly past sixteen |
| `ErrorForwarding.TraceStack.Push` | lore-error-set/src/traced.rs:54-60 | the trace stays that of everything pushed |
| `ErrorForwarding.ChainMeaning` | lore-error-set/src/ext.rs:520-550 | along any chain: the error and code unchanged while declared, else `Internal` with code -1 around the error itself; the trace; the set it ends in |
| `ErrorForwarding.StrictChainPreserves` | lore-error-set/src/ext.rs:394-424 | along strict forwards neither the error nor its code changes |

## Left out

- Sealing, the keyring and the fallback key file: a sealed value is the value, and whether it opens or seals is a parameter.
- Writes of the token file that are cut short: a write succeeds as a whole or leaves the file, and the failure to load a truncated file is not modelled.
- Locking itself: the file lock excludes, and a crash releases it.
- `split_remote_resource`, audience matching and the resource tokens: they rest on URL parsing.
- The FUSE wire format, INIT negotiation and the transport: a decoded request, a page of records and the outcome of a send are data.
- Session.Stray: the session takes the slots' races as any late wakeup of a racing request, and the release of a slot as one step with the end of its race; `InterruptSlots` has the detail.
- The provider behind the dispatcher: any that keeps the trait's contract.
- Memory orderings weaker than sequential consistency.
- Counter widths: histogram counters, ranks and offsets are unbounded, so overflow of 64-bit arithmetic is not modelled.
- Thread totals under custom runtime settings: the core and net runtimes are then sized from different requests.
- RetryWaiter.NthInterval: states the base intervals; jitter moves each and never their number. A waiter is a value, as the source hands it from task to task.
- `query_paginated`, the other DynamoDB, S3 and Consul clients: network plumbing.
- BatchGet.BatchGetChunks: models one table and abstract keys; telemetry is left out.
- Mounting, unmounting and the kernel's own choice of escapes: a table is rendered with the escapes `mountinfo_escaped` documents, and no field before the separator is `-`.
- VectoredIo.ReadExactVectoredAt: buffers are values rather than memory updated in place, as they move through the driver by value; the portable and io_uring drivers are not modelled.
- VectoredIo.WriteAllVectoredAt: the file is a value before and after, and no one else writes it meanwhile.
- The Windows directory search and directories that cannot be opened.
- `forward_with`, `into_matched` and the matched enums: the same forwards with a lazy context or a narrower type.

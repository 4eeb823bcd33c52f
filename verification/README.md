# Powehi client protocols, verified

Powehi is an end-to-end encrypted messenger. Its browser client keeps several promises by careful ordering of
asynchronous steps rather than by any single function. This project models that ordering in Dafny and proves the
promises over every interleaving, every sequence of operations and every input.

## Components

| file | what it models |
|---|---|
| `Persistence.dfy` | the MLS state persistence protocol around the crypto worker: flush chain, write chain, generation counters, reset epoch, timeouts that abandon but do not cancel. Every synchronous section between two awaits is one step. Stale-write safety |
| `Identities.dfy` | the worker's contexts, one per identity: a handle is minted once, a dropped context never comes back |
| `FlushOrder.dfy` | the order of the flush chain: in every run a body whose caller still waits is the chain's front |
| `Release.dfy` | persist before release: crash safety, and finality of the compensating abort |
| `LateLanding.dfy` | exactly which pending flushes can still become durable |
| `Unsaved.dfy` | exactly when a caller can be released with nothing saved |
| `Abandonment.dfy` | runs that show what the premises are for |
| `Answers.dfy` | what each caller is told: exactly one thing, decided by its own flush, and never nothing |
| `Lifecycle.dfy` | what clearing, importing, resetting and registering do to everything that follows |
| `CryptoModule.dfy` | the wrapper's module-level variables, the worker, the row and the timers as a class that performs any schedule |
| `Delivery.dfy` | the deferred queue: two caps, eviction between senders, hand-over order |
| `PollLoop.dfy` | the polling effect: runs started and cancelled by group switches, polls in flight across a switch, one shared slot, cursor and queue |
| `Retry.dfy` | the deferred queue over the life of an effect run |
| `Resume.dfy` | the resume cursor against the server's log: no gap, across group switches |
| `RateLimit.dfy` | the sliding-window limiter with pruning and sweeping |
| `TimedDelivery.dfy` | the polling effect with its clock and limiter |
| `Progress.dfy` | deferral terminates: a poll after a silent window shortens the queue |
| `MessageHook.dfy` | the message hook's refs as a class that performs any schedule |
| `Limiter.dfy` | the FIFO concurrency limiter with abort |
| `CommitLock.dfy` | the per-group commit lock whose idle entries are evicted and recreated |
| `LockHistory.dfy` | what the events decide: who enters, in which order, who never does, and which entry is forgotten |
| `MessageTable.dfy` | the messages table as the application sees it, and its operations |
| `EncryptedDb.dfy` | the encrypted table as a class, refining `MessageTable` |
| `ScheduledSend.dfy` | firing and cancelling scheduled messages from several tabs, and what a transmission carries |
| `Sendable.dfy` | exactly which scheduled messages can still be sent or cancelled, and with what content |
| `FieldEncoding.dfy` | base64url (sections 4 and 5 of RFC 4648) and the IV-then-ciphertext frame |
| `TextEncoding.dfy` | the browser's text codec between UTF-16 and UTF-8 (section 3 of RFC 3629) |
| `Helpers.dfy` | shared definitions |

The step systems share one shape: a `State`, an `Event`, `Enabled`, a step function, `Valid` for event sequences that
can happen, and `Run`. Invariants are proved move by move and then carried over every run by induction. The classes
carry the fields the client updates in place; each of their methods is tied to one step.

## Premises

- The worker keeps one context per identity, and an export covers a single one: it reads that identity's context at some
  moment after it was requested, fails if there is none, and echoes the requested generation. An identity init and an
  import add a context under a new handle beside the others; only a session clear drops contexts
  (crates/client/powehi-crypto-wasm/src/wasm_exports.rs:80-82, 613-638, 1918-1945, 2074-2092, 3651-3653).
- A rejected write changes nothing. A write without an identity row resolves and stores nothing
  (app/src/db/encrypted-db.ts:571-575).
- The clock does not go backwards and does not read before 1970, so a time of expiry that has not passed is not zero.
- The server returns pages in strict (created_at, id) order after the cursor, and envelope ids are unique
  (app/src/api/messages.ts:116-125).
- Decrypting an encrypted field returns the original value, and a ciphertext is never the empty string.
- A scheduled message's id is new when the message is composed, and no other writer stores a row under it once its row
  is gone. A tab lists it for firing only once it is due (app/src/components/ChatLayout.tsx:9905-9909).

## Where the code and its comments differ

- The comment on `doFlush` says a skipped flush is safe because its caller has already seen a timeout. That is true in
  every run in which no import and no reset is abandoned by its timeout (`ReleasedWrote`). Otherwise it can fail:
  `UnsavedExactlyWhen` gives the exact condition on the state, and `AbandonedImportLoses` and `AbandonedResetLoses` are
  runs in which a caller that never timed out is released with nothing saved.
- Persist before release is a promise per identity, since there is one row and an export covers one identity. Within the
  premises of crash safety a released call is in the row if and only if the row's export is of its identity
  (`CrashSafety`), hence always where all flushes are of one identity (`OneIdentityIsSaved`). `InitDisplaces` is a run in
  which the first flush of a newly minted identity takes the row from a released call of the old one.
- The comment on the compensating abort says that, even if the second flush fails, its later number supersedes the
  abandoned first flush. Issuing a number supersedes nothing. `OpenAbortExactlyWhen` gives the exact condition under
  which the first flush can still reach the row, `FailedSecondFlushIsNotFinal` is a run in which it does, and
  `AbortIsFinal` proves the claim when the second flush succeeds.
- The comment on the expiry check says an expired message is not sent at all. The check precedes encryption and the
  request. `LateExactlyWhen` says that a checked message can be sent expired within a given time exactly if it expires
  within that time; so with no bound on the request's delay the check protects no message that has a time to live
  (`LateExactlyWhenDated`). `CanLeaveLate` is a run.
- `decryptField` is described as the inverse of `encryptField`. The text codec around it replaces lone surrogates and
  drops a leading byte order mark; `FieldRoundTrip` says that exactly the texts with neither come back unchanged.

## Model

| member | source | states |
|---|---|---|
| `Persistence.StaleWritesNeverLand` | app/src/hooks/useCryptoWorker.ts:246-350 | in every interleaving from a fresh session, abandoned flushes, imports and resets included: generations made durable strictly increase within an epoch, no two attempts of an epoch share a number, issued is never below current, and no attempt issued before a reset becomes durable after it |
| `Persistence.StepInv` | app/src/hooks/useCryptoWorker.ts:246-350 | every step keeps the generation bookkeeping's invariant: numbering, occupancy of the write chain, and which attempt the row holds |
| `Persistence.RunInv` | app/src/hooks/useCryptoWorker.ts:246-350 | that invariant holds after every run |
| `Identities.StepMinting` | crates/client/powehi-crypto-wasm/src/wasm_exports.rs:613-638 | every step keeps every context, call and flush at an identity that was already minted |
| `Identities.GoneStaysGone` | crates/client/powehi-crypto-wasm/src/wasm_exports.rs:80-82 | a context that a session clear dropped is never in the worker again |
| `Identities.ContextGrows` | crates/client/powehi-crypto-wasm/src/wasm_exports.rs:1918-1945 | unless the session is cleared, a context only grows, whatever other identities are minted or imported |
| `FlushOrder.RunLined` | app/src/hooks/useCryptoWorker.ts:361-368 | in every run a body whose caller still waits for it is the front of the flush chain; entries behind it wait, and each call is in the chain once |
| `FlushOrder.StepLined` | app/src/hooks/useCryptoWorker.ts:361-575 | every step keeps the flush chain in order |
| `Release.ReleasedWrote` | app/src/hooks/useCryptoWorker.ts:333-563 | over every run with any number of epochs, imports and resets, none of them abandoned by its timeout: every caller released, and every compensating abort reported durable, had its own flush written, never skipped |
| `Release.SupersededExactlyWhen` | app/src/hooks/useCryptoWorker.ts:341-345 | over every run, the flush a call waits for is superseded at its check, unless it or a later export is already durable, if and only if an abandoned import with such a number or an abandoned reset took effect since |
| `Release.ReleasedIsCovered` | app/src/hooks/useCryptoWorker.ts:333-563 | from any reachable state, if no abandoned import or reset takes effect, a released caller has its flush or a later one durable |
| `Release.CrashSafety` | app/src/hooks/useCryptoWorker.ts:333-563 | from any reachable state with an identity row, through any run that does not clear the session or rewrite the row, with flushes, inits, imports and resets of any number of identities and epochs finishing late in any order but no abandoned import or reset taking effect: the row holds every released call's flush or a later one, and the call's mutation is in it, at every moment, if and only if that one is of the call's identity, that is, unless a flush of another identity became durable since |
| `Release.OneIdentityIsSaved` | app/src/hooks/useCryptoWorker.ts:333-563 | where all flushes of such a run are of one identity, every call begun in it and released is in the row at every moment |
| `Abandonment.InitDisplaces` | app/src/hooks/useCryptoWorker.ts:402-420 | a run within the premises of crash safety in which the first flush of a minted identity replaces the row, and a released call of the old identity is no longer in it |
| `Release.AbortIsFinal` | app/src/hooks/useCryptoWorker.ts:451-559 | after a staged removal whose persist failed, once the compensating abort took effect and the second flush succeeded with no abandoned import or reset taking effect meanwhile: whatever happens afterwards, nothing exported before the abort becomes durable or is in the row |
| `Release.AbortIsSaved` | app/src/hooks/useCryptoWorker.ts:451-559 | where the row exists and the session is not cleared meanwhile, the row then holds the second flush or a later one, and the abort if and only if that one is of the removal's identity |
| `Release.StepBacked` | app/src/hooks/useCryptoWorker.ts:333-563 | every step other than the late effect of an abandoned import or reset keeps every waited-for flush in the epoch and above the mark, or already durable |
| `Release.StepStretch` | app/src/hooks/useCryptoWorker.ts:333-350 | every step that does not clear the session or rewrite the row keeps the row at the latest durable export, every export faithful to its identity's context, and the exports of each identity growing |
| `LateLanding.LandsExactlyWhen` | app/src/hooks/useCryptoWorker.ts:297-350 | in every reachable state and for every flush, abandoned or not: some continuation makes it durable, and leaves it in the row where a row exists, if and only if it is being written, or is unwritten, not superseded, with no queued reset ahead of it, no durable write about to pass it, and its context still there if it is yet to be read; otherwise no continuation makes it durable |
| `LateLanding.OpenAbortExactlyWhen` | app/src/hooks/useCryptoWorker.ts:507-557 | that condition for the abandoned first flush of a removal whose compensating abort was not made durable |
| `LateLanding.StepShaped` | app/src/hooks/useCryptoWorker.ts:297-304 | every step keeps the write chain holding each exported flush once, all but its front waiting |
| `Unsaved.UnsavedExactlyWhen` | app/src/hooks/useCryptoWorker.ts:333-368 | in every reachable state, a call that waits for its flush can be released with neither that flush nor a later one durable if and only if none is durable yet and the flush was skipped, or is unwritten, not yet without its context, and superseded, behind a queued reset, or within reach of an abandoned import |
| `Abandonment.AbandonedImportLoses` | app/src/hooks/useCryptoWorker.ts:422-449 | a run in which the late bump of a timed-out import makes a live flush skip and its caller is released unsaved |
| `Abandonment.AbandonedResetLoses` | app/src/hooks/useCryptoWorker.ts:402-420 | a run in which the late epoch flip of a timed-out identity init makes a live flush skip and its caller is released unsaved |
| `Abandonment.MissingRowLoses` | app/src/db/encrypted-db.ts:571-575 | a run in which there is no identity row, the write resolves and nothing is stored |
| `Abandonment.FailedSecondFlushIsNotFinal` | app/src/hooks/useCryptoWorker.ts:507-557 | a run in which the second flush fails and the abandoned first flush then stores the staged removal |
| `Answers.AnsweredOnce` | app/src/hooks/useCryptoWorker.ts:361-575 | over every run of a session, everything finishing and timing out in any order: each caller is told at most one thing; it has a result exactly if its body settled, before any timeout of its, with its own flush not failed; only imports and clears end without a flush, and only if their own work was done |
| `Answers.SettlesExactly` | app/src/hooks/useCryptoWorker.ts:361-563 | when a flush has settled, its caller gets the result if and only if the flush did not fail; a failed one starts the compensating abort if and only if the call staged a removal, and otherwise rejects the caller |
| `Answers.ReleasedExactlyWhen` | app/src/hooks/useCryptoWorker.ts:361-563 | over every run, a call that waits for its flush and is not given up on by its timeout goes on waiting until the flush has settled, and is then released if it wrote or was skipped, undone if it was a failed removal, rejected otherwise |
| `Answers.OutcomeExactlyWhen` | app/src/hooks/useCryptoWorker.ts:333-350 | over every run, a flush has failed, was skipped or has written exactly if its export or write failed, its check found it superseded, or its write resolved, and only one of these ever happens to it |
| `Answers.TimesOutExactly` | app/src/hooks/useCryptoWorker.ts:178-199 | every case of a timeout on the chain: an error for the caller, except that a removal goes on to its abort; what the body has under way is left alone and the chain moves on |
| `Answers.UndoneExactly` | app/src/hooks/useCryptoWorker.ts:531-558 | a removal counts as undone for good exactly if the flush after its abort did not fail |
| `Answers.NeverHangs` | app/src/hooks/useCryptoWorker.ts:178-199 | in every state of every session, each caller that has not been told anything is told something after some steps of the client's own timers and chain, even if the worker and the database never answer again |
| `Answers.CallsAreBegun` | app/src/hooks/useCryptoWorker.ts:389-575 | there is exactly one call per invocation, of its kind and on the identity it names |
| `Lifecycle.ClearedForGood` | crates/client/powehi-crypto-wasm/src/wasm_exports.rs:3651-3653 | once a session clear took effect, no context that existed or was minted before is ever in the worker again |
| `Lifecycle.MutationStays` | crates/client/powehi-crypto-wasm/src/wasm_exports.rs:1918-1945 | what the worker did for a call is in its identity's context until the session is cleared |
| `Lifecycle.ImportedStays` | crates/client/powehi-crypto-wasm/src/wasm_exports.rs:2074-2092 | an import adds exactly the imported content as a new context beside the others, and it stays part of it until the session is cleared |
| `Lifecycle.AbortReachesRow` | app/src/hooks/useCryptoWorker.ts:507-559 | from the moment the compensating abort takes effect, through any run in which the session is not cleared and no abandoned import or reset takes effect and whose second flush succeeds: the abort is in the row if and only if the row's export is of the removal's identity |
| `Lifecycle.ImportNeverRollsBack` | app/src/hooks/useCryptoWorker.ts:422-449 | an import, however long it runs and whatever happens meanwhile, is accepted if and only if its generation is not below the durable mark at its start, hence never older than a state made durable before it started |
| `Lifecycle.NumbersFromOne` | app/src/hooks/useCryptoWorker.ts:246-252 | after a reset, until the next one or an import, the flushes of the new epoch are numbered one, two, three, ... in issue order |
| `Lifecycle.RegistersEmpty` | app/src/db/encrypted-db.ts:535-538 | registration leaves a row without a provider state, and it has none until the next write becomes durable |
| `CryptoModule.Wrapper.Serve` | app/src/hooks/useCryptoWorker.ts:178-575 | the object performs any schedule from any reachable state: stale writes never land, and under the premises of crash safety whatever was released is in the row if and only if the row's export is of its identity |
| `CryptoModule.Wrapper.ServeSession` | app/src/hooks/useCryptoWorker.ts:178-575 | the object performs any whole session: every caller is told at most one thing, and where no import or reset is abandoned every released caller was released on a flush that wrote |
| `CryptoModule.Wrapper.PerformAll` | app/src/hooks/useCryptoWorker.ts:178-575 | any valid schedule of events, performed one after another, is the run of the step system |
| `CryptoModule.Wrapper.BumpCurrentGeneration` | app/src/hooks/useCryptoWorker.ts:264-267 | raises the durable mark, never lowers it, keeps the issued counter at or above it, and keeps the invariant |
| `CryptoModule.Wrapper.IssueFlush` | app/src/hooks/useCryptoWorker.ts:333-337 | numbers a new attempt from the issued counter, records its epoch, keeps the invariant |
| `CryptoModule.Wrapper.StartFront` | app/src/hooks/useCryptoWorker.ts:402-575 | the front of the flush chain starts the body of its method class |
| `CryptoModule.Wrapper.TimeOutFront` | app/src/hooks/useCryptoWorker.ts:178-199 | a timeout frees the chain and answers the caller while the body runs on |
| `CryptoModule.Wrapper.SettleFront` | app/src/hooks/useCryptoWorker.ts:361-563 | a settled body frees the chain; its caller is released if and only if its flush did not fail, and compensated if and only if it failed and the call staged a removal |
| `CryptoModule.Wrapper.FinishImport` | app/src/hooks/useCryptoWorker.ts:422-449 | a returned import raises the mark to the imported generation |
| `CryptoModule.Wrapper.ResetGeneration` | app/src/hooks/useCryptoWorker.ts:246-252 | the queued reset zeroes both counters and opens a new epoch, keeping the invariant |
| `CryptoModule.Wrapper.CheckSuperseded` | app/src/hooks/useCryptoWorker.ts:341-345 | the front write is skipped if and only if its epoch is over or its number is not above the mark |
| `CryptoModule.Wrapper.FinishFrontWrite` | app/src/hooks/useCryptoWorker.ts:346-349 | a durable write raises the mark to its number and frees the write chain, keeping the invariant |
| `PollLoop.DeliveryIsOrdered` | app/src/hooks/useMessages.ts:715-790 | in every run with the latest effect run uncancelled: what was handed over is a subsequence of server order; handed over, deferred and still to be handled are together in server order; deferred Commits stay within 16 and others within 500; every fetched Application or Commit of the group, and nothing else, is in exactly one of handed over, deferred, refused, evicted or still to be handled; and the cursor is the (created_at, id) of the last fetched envelope, or none if there is none |
| `PollLoop.RefinesPlainFold` | app/src/hooks/useMessages.ts:1224-1319 | with no cap hit, in every run the processed log is a prefix of the in-group stream, so if the stream was sent consistently each Application is received in the epoch it was sent in |
| `PollLoop.PollsDoNotOverlap` | app/src/hooks/useMessages.ts:1224-1338 | for every sequence of group switches, two polls of one effect run are never in flight together, nor two polls of uncancelled runs, an uncancelled run's poll holds the slot, and a held slot is freed only by a poll of the run that holds it |
| `PollLoop.CancelledNeverWrites` | app/src/hooks/useMessages.ts:1227-1250 | whatever happens after its cancellation, a run never again changes the cursor or the deferred queue, and the slot only if it holds it itself, by freeing it; its poll in flight is over at its next step |
| `PollLoop.PollStartsExactlyWhen` | app/src/hooks/useMessages.ts:1224-1232 | over every sequence of group switches, a run's timer starts a poll, from the cursor and holding the slot, if and only if the run is not cancelled and no poll in flight holds the slot for its group; so the slot is never leaked |
| `Resume.NoGap` | app/src/hooks/useMessages.ts:1250-1299 | from the moment a run starts, whatever older polls are in flight: for any server log in which each page is where the log goes on after the cursor asked with, what the run received is exactly the joined pages and is the log from its first envelope without a gap; it is the whole log once a page was all that lay after its cursor; and with nothing refused or evicted what was handed over is where the group's own part of the log begins |
| `Resume.LiveExactlyWhen` | app/src/hooks/useMessages.ts:467-488 | the effect polls for the group it was last started for, unless it was stopped since |
| `PollLoop.NextInv` | app/src/hooks/useMessages.ts:467-1348 | every event keeps the slot and delivery invariants |
| `PollLoop.RunInv` | app/src/hooks/useMessages.ts:467-1348 | both invariants hold after every run |
| `PollLoop.NextSlotted` | app/src/hooks/useMessages.ts:1224-1348 | every event keeps the slot invariant |
| `Retry.ApplicationsAreNotLost` | app/src/hooks/useMessages.ts:935-956 | over the life of an effect run, whatever pages arrive and however polls interleave: an Application once deferred is at every later moment handed over, deferred or about to be handled, never refused |
| `Retry.PollIsTick` | app/src/hooks/useMessages.ts:1224-1321 | a page fetched by the live run and all its work, interleaved with anything that leaves the run live, is one tick of the delivery loop |
| `Retry.EmptyPollLeavesSuffix` | app/src/hooks/useMessages.ts:1307-1319 | a poll of a run that fetched nothing new hands over a prefix of the old queue and leaves exactly the rest deferred |
| `TimedDelivery.HandOverRate` | app/src/hooks/useMessages.ts:586-607 | in every session, through every group switch, deferral and retry, any 101 envelopes of one sender handed to MLS span at least ten seconds |
| `TimedDelivery.HandedOverExactlyWhen` | app/src/hooks/useMessages.ts:586-598 | in every session, the next in-group envelope, with nothing deferred, is handed over if and only if fewer than 100 of its sender's were handed over within the last ten seconds |
| `Progress.QueueShrinks` | app/src/hooks/useMessages.ts:674-679 | a poll of the live run that fetched nothing new, started when the sender at the head of the queue has had nothing handed over for ten seconds, and worked to its end with anything in between that leaves the run live, hands over a non-empty prefix of the queue and leaves exactly the rest |
| `Delivery.HandleCapped` | app/src/hooks/useMessages.ts:539-584 | handling an envelope keeps both caps and keeps the queue in-group |
| `Delivery.HandleKeepsOrder` | app/src/hooks/useMessages.ts:715-790 | handling an envelope keeps handed over, deferred and remaining work together in server order, and hands over only when nothing is deferred |
| `Delivery.HandleConserves` | app/src/hooks/useMessages.ts:715-790 | handling an envelope changes no envelope's being accounted for exactly once, and with nothing lost the line is unchanged |
| `Delivery.EvictionChoice` | app/src/hooks/useMessages.ts:716-789 | every case of deferring a Commit: with fewer than 16 it is appended; with the pool full it is refused if and only if its sender already holds 4 or no sender holds more than it does; otherwise it replaces the oldest Commit whose sender holds most, every older one being of the arrival's sender or of one that holds fewer, and the rest keep their order |
| `Delivery.RefusedExactlyWhen` | app/src/hooks/useMessages.ts:715-956 | an Application or Commit of the group is refused if and only if it cannot be handed over at once and 500 others are deferred already, or, for a Commit, the pool of 16 is full and its sender has no claim in it |
| `Delivery.DedupeKeepsFirst` | app/src/hooks/useMessages.ts:1309-1315 | the dedupe leaves exactly the first envelope of each id, in order |
| `Delivery.NewcomerAdmitted` | app/src/hooks/useMessages.ts:737-788 | a sender with no queued Commit is always admitted |
| `Delivery.EvictionEvens` | app/src/hooks/useMessages.ts:737-788 | with the pool full, no deferral increases the sum over senders of the square of how many Commits each has queued |
| `Delivery.SquaresBySender` | app/src/hooks/useMessages.ts:752-763 | the number of pairs of entries with one sender is the sum over the senders of their squared counts |
| `Delivery.RetryLeavesSuffix` | app/src/hooks/useMessages.ts:1307-1319 | retrying a capped queue from empty splits it into handed over and still deferred, losing nothing |
| `Delivery.DeferredApplicationSurvives` | app/src/hooks/useMessages.ts:935-956 | a deferred Application is still handed over or deferred after any one tick |
| `Delivery.PrefixIsReceived` | app/src/hooks/useMessages.ts:641-956 | every prefix of a consistently sent stream is received without a message falling outside its epoch |
| `Delivery.AscendingSubset` | app/src/hooks/useMessages.ts:1296-1319 | what is in server order and was delivered is a subsequence of what was delivered |
| `RateLimit.ForgettingIsInvisible` | app/src/hooks/useMessages.ts:586-607 | over every sequence of questions and sweeps, the pruned and swept limiter answers as one that keeps full history |
| `RateLimit.AdmissionRate` | app/src/hooks/useMessages.ts:507-535 | for every bound, that many admissions of one sender plus one more span at least ten seconds (101 decrypts, 21 reactions) |
| `RateLimit.AdmittedExactlyWhen` | app/src/hooks/useMessages.ts:507-535 | after every sequence of questions and sweeps, a sender is admitted if and only if fewer than the bound of its admissions lie within the last ten seconds |
| `RateLimit.Limiter.Within` | app/src/hooks/useMessages.ts:586-598 | prunes the sender's entry, admits below the bound, records only admissions |
| `RateLimit.Limiter.SweepStale` | app/src/hooks/useMessages.ts:600-607 | drops exactly the senders with nothing in the last ten seconds and leaves the others as they are |
| `MessageHook.PerSenderCounts` | app/src/hooks/useMessages.ts:752-755 | exact counts for exactly the senders present, in order of first appearance |
| `MessageHook.EvictSender` | app/src/hooks/useMessages.ts:756-763 | the first sender with the most entries, other than the arrival's and holding more, or none |
| `MessageHook.MergeById` | app/src/hooks/useMessages.ts:1309-1315 | the first envelope of each id, in order |
| `MessageHook.FindCommit` | app/src/hooks/useMessages.ts:771-773 | the position of the sender's oldest queued Commit, or the length |
| `MessageHook.Hook.RunEffect` | app/src/hooks/useMessages.ts:480-488 | cancels the previous run, takes a new token, resets cursor and queue |
| `MessageHook.Hook.Cleanup` | app/src/hooks/useMessages.ts:1345-1348 | cancels the latest run and nothing else |
| `MessageHook.Hook.ClaimSlot` | app/src/hooks/useMessages.ts:1224-1232 | claims the slot unless cancelled or held for the same group, and fetches from the current cursor |
| `MessageHook.Hook.ReleaseSlot` | app/src/hooks/useMessages.ts:1324-1338 | frees the slot only if group and run both match |
| `MessageHook.Hook.OnPage` | app/src/hooks/useMessages.ts:1250-1315 | a cancelled run's page is dropped; otherwise the cursor becomes exactly the last envelope's (created_at, id) and the drained queue precedes the page |
| `MessageHook.Hook.DeferOwnCommit` | app/src/hooks/useMessages.ts:716-789 | the Commit deferral, cap, fairness cap and eviction, as `DeferCommit` |
| `MessageHook.Hook.ProcessEnvelope` | app/src/hooks/useMessages.ts:642-790 | skips other groups and kinds; the sender's budget is asked for and spent only when nothing is deferred |
| `MessageHook.Hook.ProcessNext` | app/src/hooks/useMessages.ts:1316-1321 | one turn of the processing loop; on its end, the sweep of both rate maps and the release of the slot |
| `MessageHook.Hook.PerformAll` | app/src/hooks/useMessages.ts:467-1348 | the object performs any schedule of timed events, its limiter answering by itself, as the run of the timed step system |
| `MessageHook.Hook.Serve` | app/src/hooks/useMessages.ts:467-1348 | over any whole session of the object, what it handed to MLS is a subsequence of server order ahead of what is deferred, the cursor is that of the last fetched envelope, and any 101 hand-overs of one sender span at least ten seconds |
| `Limiter.Create` | app/src/lib/concurrencyLimiter.ts:25-28 | refuses a bound below one, else gives a limiter satisfying the invariant |
| `Limiter.Fifo` | app/src/lib/concurrencyLimiter.ts:25-66 | in every interleaving of calls, completions and aborts, from the events alone: held slots never exceed the bound, a waiter implies all are held, what entered followed by what waits is every call in call order except exactly those made with an aborted signal or aborted while they waited, and the slots are held by exactly the calls that entered and have not settled |
| `Limiter.AbortedNeverEnters` | app/src/lib/concurrencyLimiter.ts:40-60 | once a call was made with an aborted signal, or its signal aborted while it waited, it is never again waiting, entered or holding a slot |
| `Limiter.StepInv` | app/src/lib/concurrencyLimiter.ts:30-65 | every call, completion and abort keeps that invariant |
| `Limiter.WaitingNotEntered` | app/src/lib/concurrencyLimiter.ts:47-52 | a waiting call has not entered, holds no slot and waits once |
| `Limiter.SurvivorsAbort` | app/src/lib/concurrencyLimiter.ts:54-59 | aborting a waiter removes exactly it from the call order |
| `Limiter.Slots.constructor` | app/src/lib/concurrencyLimiter.ts:25-28 | a new limiter is idle |
| `Limiter.Slots.Limit` | app/src/lib/concurrencyLimiter.ts:39-62 | an aborted call never queues; otherwise it takes a free slot or queues last |
| `Limiter.Slots.Release` | app/src/lib/concurrencyLimiter.ts:30-37 | a completion hands its slot to the first waiter |
| `Limiter.Slots.OnAbort` | app/src/lib/concurrencyLimiter.ts:54-60 | afterwards the call does not wait, every other waiter does as before, and nothing entered or left a slot |
| `CommitLock.LockIsExclusiveAndBounded` | app/src/lib/mlsCommitLock.ts:78-134 | in every run at most one locked section per group is inside, across eviction and recreation of its entry, and the table never exceeds 128 or, if that is more, any number that bounds the groups busy at once throughout the run |
| `LockHistory.HistoryDecides` | app/src/lib/mlsCommitLock.ts:112-134 | over every run, from the events alone: one section per acquisition, on its own group; it is rejected if and only if begun with an aborted signal or aborted while it waited, and then never waits, enters or is inside; it is inside if and only if it entered and has not settled; its count is given back if and only if its finalizer ran |
| `LockHistory.GroupFifo` | app/src/lib/mlsCommitLock.ts:94-129 | sections of a group enter in the order they were asked for, across eviction and recreation of the group's entry, except those rejected |
| `LockHistory.EvictionIsLru` | app/src/lib/mlsCommitLock.ts:78-92 | over every run, an entry is forgotten only by an acquisition of an untracked group with 128 or more tracked, alone, and it is idle and no idle group was acquired or finalized less recently |
| `LockHistory.GrowsExactlyWhen` | app/src/lib/mlsCommitLock.ts:78-101 | an untracked group's acquisition grows the table if and only if fewer than 128 groups are tracked or none of them is idle |
| `CommitLock.Exclusion` | app/src/lib/mlsCommitLock.ts:112-134 | two sections inside for the same group are the same section, even if they were given different entries |
| `CommitLock.IdleEntryHasIdleLimiter` | app/src/lib/mlsCommitLock.ts:78-92 | an entry with a zero count has a limiter with no holder and no waiter |
| `CommitLock.BusyEntryStays` | app/src/lib/mlsCommitLock.ts:78-92 | no step removes an entry with outstanding work |
| `CommitLock.StepInv` | app/src/lib/mlsCommitLock.ts:78-134 | every step keeps the lock invariant |
| `CommitLock.StepBounded` | app/src/lib/mlsCommitLock.ts:78-101 | every step keeps the bound on the table |
| `CommitLock.EntryForInv` | app/src/lib/mlsCommitLock.ts:94-101 | the entry handed out is tracked and is the group's own |
| `CommitLock.Oldest` | app/src/lib/mlsCommitLock.ts:80-87 | the first idle entry with the least last use, or none exactly when every entry is busy |
| `CommitLock.LockTable.constructor` | app/src/lib/mlsCommitLock.ts:76-76 | the empty table satisfies the invariant |
| `CommitLock.LockTable.EvictIdleLruIfAtCapacity` | app/src/lib/mlsCommitLock.ts:78-92 | at capacity removes the least recently used idle entry, and nothing if every entry is busy |
| `CommitLock.LockTable.EntryNumberFor` | app/src/lib/mlsCommitLock.ts:94-101 | the tracked entry, or a new one after making room |
| `CommitLock.LockTable.WithMlsCommitLock` | app/src/lib/mlsCommitLock.ts:112-129 | counts the call in and passes it to the entry's limiter, keeping the invariant |
| `CommitLock.LockTable.GiveBack` | app/src/lib/mlsCommitLock.ts:130-133 | counts a settled or aborted call out, keeping the invariant |
| `CommitLock.LockTable.Release` | app/src/lib/mlsCommitLock.ts:129-130 | a settled section's slot passes to the next of its group, keeping the invariant |
| `CommitLock.LockTable.OnAbort` | app/src/lib/mlsCommitLock.ts:130-130 | an aborted signal reaches the group's limiter, keeping the invariant |
| `CommitLock.LockTable.PerformAll` | app/src/lib/mlsCommitLock.ts:78-134 | the object performs any schedule as the run of the step system |
| `MessageTable.ReplayIsTransparent` | app/src/db/encrypted-db.ts:134-314 | inserting any number of repeated creates of stored rows anywhere in any sequence of operations leaves the same rows with the same ten preserved properties |
| `MessageTable.ReadBack` | app/src/db/encrypted-db.ts:134-412 | a created message, read back after any operations it outlives: each property is the one last set, each sender's reaction is its last, its readers are all reported |
| `MessageTable.LastSetDecides` | app/src/db/encrypted-db.ts:134-314 | over any operations that keep a row, each property is what the last operation that sets it set it to: a create for the content, and for a preserved property only the operation made for it |
| `MessageTable.StaysExactlyWhen` | app/src/db/encrypted-db.ts:330-412 | a stored row stays through any operations if and only if no purge comes at or after its deadline and no claim or cancel while it is scheduled |
| `MessageTable.CreatedExactlyWhen` | app/src/db/encrypted-db.ts:134-140 | only a create stores a row that was not there, and it stores all of it |
| `MessageTable.ReplayAgrees` | app/src/db/encrypted-db.ts:134-161 | a repeated create changes no preserved property of any row |
| `MessageTable.StepAgrees` | app/src/db/encrypted-db.ts:173-412 | every operation reads only preserved properties, so it keeps agreement |
| `MessageTable.ReactionsAreNotLost` | app/src/db/encrypted-db.ts:211-244 | after any sequence of operations that keeps the row, a sender has a reaction exactly if the last delta for that emoji and sender added it, or there was none and it had it before |
| `MessageTable.DeltaMember` | app/src/db/encrypted-db.ts:228-240 | one delta changes exactly its own emoji and sender |
| `MessageTable.DeltaKeepsRest` | app/src/db/encrypted-db.ts:228-240 | a delta leaves every other emoji and the order of the other senders as they were; a new sender comes last |
| `MessageTable.ReactionsStayTidy` | app/src/db/encrypted-db.ts:226-240 | over any operations that keep the row, no sender is listed twice under an emoji and no emoji without a sender is left |
| `MessageTable.ReadersAccumulate` | app/src/db/encrypted-db.ts:279-294 | after any sequence of operations that keeps the row, its readers are the old ones and every reported one |
| `MessageTable.ReadersAppend` | app/src/db/encrypted-db.ts:283-292 | a read receipt leaves the readers stored so far where they are, appends the new ones, and lists none twice |
| `MessageTable.ShowsWhatIsStored` | app/src/db/encrypted-db.ts:219-228 | the reactions and readers of a row are what its stored text says, and a missing, empty or unparsable text says nothing |
| `EncryptedDb.FieldEncryptor.EncryptDbField` | app/src/db/encryption.ts:78-91 | some output of the encryption, possibly new on every call, that is not empty and decrypts to the value |
| `EncryptedDb.EncRow` | app/src/db/encrypted-db.ts:50-64 | decrypting the result gives the row, whatever ciphertexts were returned, and every text in the seven secret properties is an output of the encryption |
| `EncryptedDb.DecRow` | app/src/db/encrypted-db.ts:66-80 | decrypts exactly the sensitive text properties |
| `EncryptedDb.DecryptMerge` | app/src/db/encrypted-db.ts:141-159 | merging stored rows without decrypting them commutes with decryption |
| `EncryptedDb.EncryptedPowehiDb.PutMessage` | app/src/db/encrypted-db.ts:134-161 | decrypted: a new message is stored whole, a replay takes the ten mutable properties from the stored row and everything else from the new one, and no other row changes |
| `EncryptedDb.EncryptedPowehiDb.GetMessage` | app/src/db/encrypted-db.ts:163-166 | the plain row, or none if it is not stored |
| `EncryptedDb.EncryptedPowehiDb.MarkMessageEdited` | app/src/db/encrypted-db.ts:173-176 | refines the plain edit; the stored row then has the new text |
| `EncryptedDb.EncryptedPowehiDb.MarkMessageDeleted` | app/src/db/encrypted-db.ts:182-184 | refines the plain tombstone; the stored row then has the time of deletion |
| `EncryptedDb.EncryptedPowehiDb.MarkMessageReactionDelta` | app/src/db/encrypted-db.ts:211-244 | refines the plain delta, and leaves the stored rows untouched if the row is missing or the reaction is already as asked |
| `EncryptedDb.EncryptedPowehiDb.MarkMessagePoll` | app/src/db/encrypted-db.ts:253-256 | refines the plain poll update; the stored row then has the poll given |
| `EncryptedDb.EncryptedPowehiDb.MarkMessageDelivered` | app/src/db/encrypted-db.ts:263-265 | refines the plain delivered mark; the stored row is then delivered |
| `EncryptedDb.EncryptedPowehiDb.MarkMessageRead` | app/src/db/encrypted-db.ts:279-294 | refines the plain union of readers |
| `EncryptedDb.EncryptedPowehiDb.MarkMessageStarred` | app/src/db/encrypted-db.ts:302-304 | refines the plain star; the stored row then has the value given |
| `EncryptedDb.EncryptedPowehiDb.ClearMessageScheduled` | app/src/db/encrypted-db.ts:312-314 | refines the plain clearing of the schedule |
| `EncryptedDb.EncryptedPowehiDb.DeleteMessage` | app/src/db/encrypted-db.ts:330-334 | removes a stored row exactly if it is still scheduled |
| `EncryptedDb.EncryptedPowehiDb.ClaimScheduledFire` | app/src/db/encrypted-db.ts:379-387 | returns and removes the plain row exactly if it is still scheduled; afterwards it is not |
| `EncryptedDb.EncryptedPowehiDb.PurgeExpiredMessages` | app/src/db/encrypted-db.ts:405-412 | removes exactly the rows whose deadline is now or earlier and returns their number |
| `EncryptedDb.EncryptedPowehiDb.ApplyAll` | app/src/db/encrypted-db.ts:134-412 | for every sequence of operations, decrypting the stored rows gives the table the same operations build without encryption, and every property of a row that outlives them is the one last set |
| `EncryptedDb.EncryptedPowehiDb.CreateAndRead` | app/src/db/encrypted-db.ts:134-412 | a message put, then any operations it outlives, then read: every property is the one last set, its reactions each sender's last, its readers all reported |
| `ScheduledSend.SentAtMostOnce` | app/src/components/ChatLayout.tsx:9924-10015 | across any number of tabs and any interleaving: a scheduled message is sent at most once, never after a cancel's delete found it scheduled, only when due and after a check that it had not expired, to its own group with its current text, and with times to live, both or neither, exactly if it was composed with one: 1 <= payload ttl, the remaining time rounded <= server ttl, the least option covering it <= the option it was composed with |
| `ScheduledSend.TtlBounds` | app/src/components/ChatLayout.tsx:9979-10000 | the server's ttl is the least of 300, 3600, 86400 and 604800 seconds covering a payload ttl of at least one second, and never above the composed option |
| `ScheduledSend.CanLeaveLate` | app/src/components/ChatLayout.tsx:9962-10015 | a run in which a message decided in time leaves after its expiry |
| `ScheduledSend.LateExactlyWhen` | app/src/components/ChatLayout.tsx:9962-10015 | for every process that passed its checks and every deadline, some continuation sends its row expired by then if and only if the row expires by then |
| `ScheduledSend.LateExactlyWhenDated` | app/src/components/ChatLayout.tsx:9962-10015 | in every run, with no bound on the delay, a checked message can be sent expired if and only if it was composed with a time to live |
| `ScheduledSend.FireScheduled` | app/src/components/ChatLayout.tsx:9925-10015 | one uninterrupted sweep sends exactly the listed rows that are scheduled, in their group and alive, each once and in list order, each carrying its row's group, current text, rounded remaining time and covering retention; and removes every scheduled row it lists |
| `ScheduledSend.Assemble` | app/src/components/ChatLayout.tsx:9958-10003 | the text is the edited one if any; both times to live are absent exactly if the row has no expiry; otherwise the payload's is the remaining seconds rounded and at least one, and the server's the least option covering it |
| `ScheduledSend.FindOption` | app/src/components/ChatLayout.tsx:9993-9999 | the least option at or above the ttl, or the greatest |
| `ScheduledSend.TransmitCarries` | app/src/components/ChatLayout.tsx:9958-10003 | the same for what the step system sends |
| `ScheduledSend.GoingExactly` | app/src/components/ChatLayout.tsx:9924-10015 | the items that go are exactly the first listings of scheduled, in-group, living rows whose send succeeds, in list order |
| `ScheduledSend.GoesOnce` | app/src/components/ChatLayout.tsx:9924-10015 | no row goes twice in a sweep |
| `ScheduledSend.CancelledNeverSent` | app/src/db/encrypted-db.ts:330-334 | once a cancel's delete found the message scheduled, it is never again stored, held by a tab or sent |
| `Sendable.SendableExactlyWhen` | app/src/components/ChatLayout.tsx:9899-10015 | in every run, a composed message not yet sent can still be sent if and only if it is stored, scheduled and alive when due, or claimed for its own group and alive, or past its checks; so a wrong-group claim, an expiry, a cancel or a failure is final |
| `Sendable.CancellableExactlyWhen` | app/src/db/encrypted-db.ts:330-387 | a composed message can still be cancelled if and only if it is stored and scheduled |
| `Sendable.FailedIsFinal` | app/src/components/ChatLayout.tsx:10049-10058 | a message whose encryption or send failed after the claim is never sent |
| `Sendable.SentAsClaimed` | app/src/db/encrypted-db.ts:379-387 | a claim takes the message out of the table, and whatever is sent of it later is the row stored at the claim, to the group it was claimed for |
| `Sendable.ComposeStores` | app/src/hooks/usePersistentMessages.ts:435-466 | the row is stored due and expiring as composed, everything else as given |
| `Sendable.SentAsComposed` | app/src/hooks/usePersistentMessages.ts:435-466 | a message no operation touches in between leaves, if at all, when due, with the text it was composed with and the time that remains of its own |
| `ScheduledSend.StoreKeeps` | app/src/db/encrypted-db.ts:134-314 | no ordinary operation schedules a row, changes a scheduled row's expiry or brings a removed one back |
| `ScheduledSend.NextInv` | app/src/components/ChatLayout.tsx:9924-10015 | every step keeps a scheduled message in one place and dated as composed |
| `FieldEncoding.DecodeEncode` | app/src/db/encryption.ts:21-40 | for every byte sequence, decoding the unpadded base64url encoding returns it |
| `FieldEncoding.EncodeIsTheNumber` | app/src/db/encryption.ts:21-28 | the encoding's digits in RFC 4648's alphabet are the number the bytes spell in base 256, written in base 64 and filled with zero bits |
| `FieldEncoding.EncodeIsDigits` | app/src/db/encryption.ts:27-27 | the encoding has no padding and no `+` or `/`, and its exact length |
| `FieldEncoding.AtobBtoa` | app/src/db/encryption.ts:27-34 | the padded standard form round-trips |
| `FieldEncoding.UnframeFrame` | app/src/db/encryption.ts:85-111 | the frame is the IV followed by the ciphertext; unframing recovers exactly both, and rejects a frame too short for IV and tag |
| `FieldEncoding.FieldRoundTrip` | app/src/db/encryption.ts:78-117 | for every text and IV, decrypting an encrypted field gives the text with lone surrogates replaced and a leading byte order mark dropped, so the text itself if and only if it has neither |
| `FieldEncoding.DecryptsOnlyAuthentic` | app/src/db/encryption.ts:101-117 | every stored text, whoever wrote it, is refused if it does not decode, has fewer than 28 bytes or is not authenticated, and otherwise gives the text of exactly what the cipher opens |
| `FieldEncoding.AlphabetIsStandard` | app/src/db/encryption.ts:27-27 | the digits are RFC 4648's URL-safe alphabet in its order |
| `TextEncoding.TextRoundTrip` | app/src/db/encryption.ts:80-116 | that law for the text codec alone, for every sequence of code units |
| `TextEncoding.RepairedExactly` | app/src/db/encryption.ts:80-84 | replacing lone surrogates keeps the length and every other unit, puts U+FFFD for them, and changes exactly the texts that have one |
| `TextEncoding.Utf8IsStandard` | app/src/db/encryption.ts:80-84 | every scalar value takes the bytes of RFC 3629's table, and their free bits spell it |
| `TextEncoding.PairsInOrder` | app/src/db/encryption.ts:80-84 | surrogate pairs count the values beyond the basic plane in order, from the first to the last |
| `FieldEncoding.Uint8ToBase64url` | app/src/db/encryption.ts:21-28 | the loop and replacements compute the encoding |
| `FieldEncoding.Base64urlToUint8` | app/src/db/encryption.ts:30-40 | fails exactly when the text does not decode, else the decoded bytes in a new array |
| `FieldEncoding.Combine` | app/src/db/encryption.ts:85-88 | the IV followed by the ciphertext, in a new buffer |

## Left out

- CryptoModule.Wrapper.PerformAll: does not model the branches for identity and group arguments that are not strings; the worker call before them refuses such arguments.
- Release.CrashSafety: speaks of content only while the session is not cleared, which drops every context. Says nothing about the direct write in app/src/components/Login.tsx:479, which bypasses both chains.
- EncryptedDb.EncryptedPowehiDb.DeleteMessage: reads and deletes in one step here; the two-step interleaving of a cancel is modelled in `ScheduledSend`.
- EncryptedDb.EncryptedPowehiDb.PurgeExpiredMessages: the key query and the bulk delete are one step here.
- EncryptedDb.EncryptedPowehiDb.MarkMessageReactionDelta: reactions are a map, so the key order of the printed JSON is abstracted into the printer.
- MessageHook.Hook.ProcessEnvelope: ends at the hand-over; the worker call, its failures, acknowledgement and payload dispatch are not modelled, so handed over means attempted.
- ScheduledSend.FireScheduled: takes the candidate list as given; collecting it from the chat list, the in-memory set that skips redundant claims, and the row persisted under the server's id after a send are not modelled.
- TextEncoding.TextRoundTrip: the decoder is modelled as the standard's on what the encoder writes; the exact number of replacement characters for malformed bytes, which the authenticated cipher rules out, is not.
- The in-memory message arrays that `sendScheduled` and `fireScheduled` update for display.
- `addMessage`, group, identity, contact and status tables of the encrypted database.
- The welcome poller, invites, deep links and credentials: simpler copies or validators.
- Unread and mention counters, optimistic id backfill and poll votes.
- React components, styling, service worker, Tauri hooks, HTTP clients, and the internals of WASM, openmls, AES-GCM and Dexie.

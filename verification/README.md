# Dafny model of the worker's stateful protocols

This project models the worker's long-running protocols and proves what they keep over whole runs:

- **release**: the state file shared by the log reconciler, the batching scheduler with its per-job
  fallback and backoffs, the pipeline's tracker and the seed written at registration
  (`ReleaseStore`, `ReleaseWorld`, `Reconciler`, `Scheduler`, `ReleaseCycle`, `ReleaseBooks`, `Backoff`);
- **sortition**: the job watcher and the session watcher over a persistent cursor
  (`Cursor`, `JobLog`, `JobWatcher`, `SessionWatcher`);
- **pipeline**: any number of crashing attempts at one job over the retry record
  (`Checkpoint`, `Pipeline`, `JobHandler`), and streaming (`Stream`, `Inference`);
- **transactions**: nonce leases, the cross-class coordinator, the stuck-nonce tracker, broadcast,
  resend and wait, and blob submission with replacement
  (`Nonce`, `Coordinator`, `StuckNonce`, `Broadcast`, `BlobTx`).

Verify with `dafny verify dfyconfig.toml`.

## How it is modelled

Code that updates objects is a class with those fields; its methods are tied to functions on values, and
what the protocols promise is proved of those functions over every run. Concurrency is a step machine
whose steps are the atomic pieces (a locked section, a Lua script, a locked store operation, a chain
move). The methods `Others` stand for everyone else between two such pieces: their contract is the
model, and callers know nothing more. RPC and Redis answers are arbitrary, or a script parameter, within
what their contracts say; a few of these methods have a trivial body because only the contract matters.
What was answered is kept in ghost records that only the answering methods write: the release `Log`, the
watchers' ledgers and counts, the manager's `returned` and `seeding`, the coordinator's `entered`, the
node's `sent`, the handler's `faults`, the streamer's `sealer`. Claims about what the code did with an
answer are stated against them, on the fields answered.

Assumptions about the environment, each visible in a contract:

- blocks at or below a safe head are final, and log filters over them return every event in order;
- a job's worker never changes, Released, TimedOut and Resolved-with-zero-escrow are absorbing, a
  successful release leaves the job Released, chain time is monotone, and a completion event follows a
  transaction of the worker's key; what is marked eligible exists on-chain;
- claims about what one cycle leaves in the state file, the pause gate and the backoff spacing are about
  cycles run one after another with a working store (`quiet`, `reliable`); no-loss and what a cycle did
  to which job need neither;
- a request's capability mask and expiry never change; each job is submitted once (for the pass bound only);
- blob hash and keccak are uninterpreted; a handler without a checkpoint store is one whose reads miss
  and whose writes fail.

Where the code does not do what its comments or documentation say, the model follows the code:

- a straggler's ciphertext extends a tombstone that never had one (`TombstoneExtendedIff`);
- the one-ciphertext promise fails with failing ciphertext writes or expiry (`AlwaysConsistentIff`), and
  so does the pairing of blob and hash in completeJob (`AlwaysPairedIff`, `MismatchedCommit`);
- the backoff's overflow check misses some overflows of the 64-bit shift (`BackoffExactIff`,
  `UnnoticedOverflow`);
- Seed does not look at the legacy class (`SeedExclusiveIff`);
- FlushAll does not list the stats kind; no caller feeds stats to Add, so nothing is lost by it here
  (`Streams.ChunkStreamer.FlushAll`);
- the pipeline's comment says the reconciler later overwrites the local completion time of a pending
  job; AddEligible keeps the first one (`ReleaseStore.FileStore.AddEligible`);
- the resend's second nonce is the local counter's, not a fresh one from the chain;
- a watcher with no stored cursor scans from the first block while the chain is shorter than the
  look-back, but until a cursor is stored a later pass may seed one further on, and then the session
  watcher forgets requests a look-back had covered (`ForgottenRequest`; exactly then, `ForgetsIff`).
  The job watcher's claim starts at the first stored cursor.

## Model

| member | source | states |
|---|---|---|
| ReleaseWorlds.NoSettlementLost | internal/release/reconciler.go:73-187 | From an empty state file, after any interleaving of chain moves, reconciler, scheduler, tracker and seed, every completion event of this worker between the scan start and the cursor is pending or settled for good; pending ids are unique |
| ReleaseWorlds.InvRun | internal/release/store.go:418-570 | Every run keeps the no-loss invariant, the cursor never moves back, settled jobs stay settled and accounted jobs stay accounted |
| ReleaseWorlds.InvStep | internal/release/store.go:418-570 | Each single step keeps the invariant: unique pending ids that exist on-chain, cursor within the final blocks, no own event below it unaccounted |
| ReleaseWorlds.AccountedStays | internal/release/store.go:463-512 | No store operation or chain move takes an accounted job of this worker out of account |
| ReleaseWorlds.Shared.Remove | internal/release/store.go:463-485 | Only jobs settled for good or of another worker may be removed; what remains is exactly the rest, in order |
| ReleaseWorlds.Shared.SetReconcileBlock | internal/release/store.go:536-549 | The cursor is advanced only over blocks whose own events are all accounted for, with no gap below them |
| ReleaseWorlds.Shared.SeedReconcileBlock | internal/release/store.go:555-570 | A cursor is seeded only where none is stored, and only below the key's first transaction |
| ReleaseWorlds.Shared.ReleaseJobs | internal/release/scheduler.go:231-242 | The batch transaction names only jobs last read as this worker's and either completed and past the dispute window in force at the head read, or resolved with something in escrow; its reply, head time and what its jobs were read as are recorded, and its jobs as released exactly if it was Ok |
| ReleaseWorlds.Shared.ReleaseJob | internal/release/scheduler.go:468-485 | The same for the transaction of one job, which is recorded as reverted exactly if it was answered so |
| ReleaseBooks.BalancedNext | internal/release/scheduler.go:439-499 | Each outcome of the fallback keeps the books: the file is what is left of the cycle's start without the released and dropped jobs, and every charge has its backoff |
| ReleaseBooks.LoggedNext | internal/release/scheduler.go:439-499 | Each outcome keeps the agreement with what was replied: the jobs answered Ok are exactly the released ones, failed look-ups and reverts of single jobs are exactly the charged ones, and a pause is the last reply |
| ReleaseBooks.WitnessedBy | internal/release/scheduler.go:200-279 | So of the whole cycle: released exactly the jobs answered Ok; each charged job has one failed look-up or one revert of its own more, and every job whose own transaction reverted is charged; paused exactly if the last reply is a pause, whose jobs are not touched |
| ReleaseBooks.NothingRipeLeft | internal/release/scheduler.go:373-499 | After selection and fallback no candidate is left pending and uncharged that was last read as releasable or settled |
| ReleaseWorlds.LaterStep | internal/release/store.go:418-570 | No step moves the cursor back, unsettles a job, changes a worker or a final block |
| Reconcilers.Reconciler.Pass | internal/release/reconciler.go:73-187 | Whatever fails and whoever interleaves, the history stays a legal run; a pass fails only if a call failed, and one without error leaves every own event between the scan start and the safe head of the head it read pending, or its job released, timed out or resolved with nothing in escrow |
| Reconcilers.Reconciler.Chunk | internal/release/reconciler.go:124-176 | A chunk advances the cursor to its end only when every own event in it was accounted for; it fails only if a read or write failed, and then leaves the cursor where it was, if nobody else moves it meanwhile |
| Reconcilers.Reconciler.Consider | internal/release/reconciler.go:130-158 | After an event was read and stored without error its job is pending, or settled for good; with the file to itself, a job read as another worker's, released, timed out or resolved with nothing in escrow is not added, any other not yet there is appended with the completion time answered and no failures, and nothing else changes |
| Reconcilers.MarkEligible | internal/release/tracker.go:33-35 | A job marked by the pipeline is pending afterwards, unless the store failed |
| Reconcilers.FreshWorkerSafeHead | internal/cli/settlement.go:179-198 | The block returned is final and below every transaction of the worker's key; it is 0 exactly when the worker is registered, the safe head is 0 or the head younger than the confirmations, or the key had sent something by then; an error only after a failed call |
| Reconcilers.Register | internal/cli/settlement.go:179-245 | A cursor seeded by a registration has no completion event of this worker at or below it, however long the registration took; without failing calls and other writers it is seeded exactly when the registration was sent, none was stored, and the worker was unregistered, its key unused, and the chain longer than the confirmations, and then at the safe head |
| ReleaseStore.FileStore.AddEligible | internal/release/store.go:418-435 | Idempotent: a pending job keeps its place, its first timestamp and its failures; otherwise it is appended with none |
| ReleaseStore.FileStore.Pending | internal/release/store.go:441-460 | The snapshot is the pending set sorted by job id |
| ReleaseStore.FileStore.Remove | internal/release/store.go:463-485 | Exactly the named jobs leave; order and ids stay unique |
| ReleaseStore.FileStore.RecordFailure | internal/release/store.go:488-512 | One more failure and the new time on the job's first entry, everything else as it was; an unknown job changes nothing |
| ReleaseStore.FileStore.SetReconcileBlock | internal/release/store.go:536-549 | The cursor only moves forward; a backward move is refused without effect |
| ReleaseStore.FileStore.SeedReconcileBlock | internal/release/store.go:555-570 | Stores the block exactly where no cursor is stored |
| ReleaseStore.SortByIdSorts | internal/release/store.go:458-459 | Sorting orders by id and neither loses nor invents an entry |
| ReleaseStore.SettleHas | internal/release/store.go:463-512 | What a cycle leaves pending is exactly what was pending and is not gone |
| ReleaseStore.SettleRemove | internal/release/store.go:463-485 | Removals within a cycle accumulate, whatever was charged between |
| ReleaseStore.SettleFail | internal/release/store.go:488-512 | A charge within a cycle adds to what the cycle has done so far, and the failure count it starts from is the one the cycle began with |
| ReleaseStore.SettleUnique | internal/release/store.go:418-512 | No cycle makes an id pending twice |
| Schedulers.Scheduler.CollectCandidates | internal/release/scheduler.go:353-365 | The candidates are the first entries out of backoff, up to the batch cap, which acts as at least 1 |
| Schedulers.Scheduler.Judge | internal/release/scheduler.go:377-428 | By the fields answered: released exactly if this worker's and completed past its window or resolved with something in escrow; discarded exactly if another worker's, released, timed out or resolved with nothing in escrow, and then settled for good or foreign; unread exactly if the look-up failed; kept otherwise |
| Schedulers.Scheduler.Partition | internal/release/scheduler.go:373-431 | Every candidate is looked up exactly once and each bin holds exactly the candidates its answer puts there, in order |
| Schedulers.Scheduler.SelectAndDrop | internal/release/scheduler.go:200-229 | The discarded candidates, each last read as settled or another worker's, are removed and counted, what is left to send is exactly the releasable ones, and nothing else in the file moves; if every call went through and no candidate is to be waited for, none is left out |
| Schedulers.Scheduler.Send | internal/release/scheduler.go:231-261 | Batch success, batch pause and fallback keep the books and the agreement with the replies: released, dropped and charged jobs are distinct and counted apart; batchReverted says what the batch transaction was answered; with no failure the whole batch is released |
| Schedulers.Scheduler.PerJobFallback | internal/release/scheduler.go:439-499 | Each job of the reverted batch is released, dropped, charged once, or left with nothing to do about it, exactly as it was read and answered; a pause leaves the job that met it, and the rest, uncharged |
| Schedulers.Scheduler.TryOne | internal/release/scheduler.go:442-494 | By the fields answered: a transaction is sent exactly if the job is completed past its window or resolved with something in escrow, and always for a job of this worker; the job is dropped exactly if released or timed out, charged unread exactly if the look-up failed, and deferred otherwise; released exactly if the transaction was answered Ok, charged exactly if it reverted, left alone exactly if it met a pause; each with exactly its effect on the file |
| Schedulers.Scheduler.RecordPerJobFailure | internal/release/scheduler.go:501-523 | Run alone: the job's entry gets one more failure and the head time plus the backoff of that many failures, the base in seconds after its first; every other entry and every field else stays |
| Schedulers.Scheduler.ApplyPauseBackoff | internal/release/scheduler.go:286-290 | A pause is counted once and moves the gate to the head time plus the pause backoff |
| Schedulers.Scheduler.RunReleaseCycle | internal/release/scheduler.go:200-279 | A cycle partitions its candidates into released, dropped, charged and untouched; each released id was answered Ok, each dropped one last read as settled or another worker's, each charged one failed a look-up or had its transaction reverted in this cycle, and each counter counts its set; it is paused exactly if its last reply is a pause, and the jobs of that reply are untouched; unless it paused, no candidate last read as releasable or settled is left; if no call failed and no candidate is to be waited for, all candidates are released or dropped; on the fields answered: every id of every transaction had been read as this worker's and completed past its window or resolved with something in escrow when it was sent; a job of this worker last answered as submitted, acknowledged, disputed or completed inside its window is neither released, dropped nor charged; run alone without a pause, no candidate last answered as releasable stays pending unless charged and put off, and without a reverted batch none stays that was answered as another worker's, released, timed out or resolved with nothing in escrow |
| ReleaseBooks.AsAnswered | internal/release/scheduler.go:373-499 | Of any cycle, on the fields recorded: what was sent had been read as releasable and ours, and what was read as neither releasable nor settled was not touched |
| ReleaseBooks.LeftPending | internal/release/scheduler.go:200-279 | Of a cycle run alone without a pause, on the fields recorded: which candidates may still be in the file, and that those last read as releasable are there only charged and put off |
| Schedulers.Scheduler.RunOnce | internal/release/scheduler.go:305-331 | A cycle runs exactly when every read went through and the gate is open at the head it read, otherwise nothing in the file changes; run alone it is a fitting cycle and leaves exactly that cycle's file |
| Schedulers.Scheduler.Tick | internal/release/scheduler.go:120-184 | The periodic probe honours the same gate; it fires exactly when every read went through, the gate is open, and at least the threshold of entries have their backoff over or the interval since the last release is over; its cycle is as RunOnce's |
| ReleaseCycles.ReadySorted | internal/release/scheduler.go:554-563 | What the probe counts in the sorted snapshot is the number of entries in the file whose backoff is over |
| Schedulers.RunTimes | internal/release/scheduler.go:305-331 | k cycles in which no call failed and nobody was to be waited for, with the gate open at the start, run at the k heads read and leave the function Drained of the pending set: max(0, n - k * cap) of n due jobs |
| Schedulers.Scheduler.CalmIsFull | internal/release/scheduler.go:200-246 | A cycle in which no call failed and nobody was to be waited for leaves exactly FullCycle of the pending set and does not move the gate |
| Schedulers.Service | internal/release/scheduler.go:120-331 | Over any sequence of CLI cycles, probes and completed jobs: after the contract answered a pause, to a batch or in a fallback, nothing is sent and no cycle runs within its backoff; pauses answered, paused cycles and counted pauses agree; the jobs the contract released are those of the cycles, each of which leaves the state file as its history entry says |
| ReleaseCycles.PauseGate | internal/release/scheduler.go:269-290 | After a cycle that hit a pause at time t no later cycle runs before t plus the pause backoff, however many happenings lie between; a cycle of the scheduler hit one exactly if its last reply was a pause (WitnessedBy) |
| ReleaseCycles.BackoffSpacing | internal/release/scheduler.go:501-523 | Consecutive failures number i and i+1 of one pending job are at least the backoff of i apart, and the second is put off by the backoff of i+1, whatever happens to other jobs between |
| ReleaseCycles.ReturnsExactly | internal/release/scheduler.go:353-365 | A charged job is put off for exactly the backoff of its new failure count, in seconds from the head time of the charge, and from then on, whatever happened to other jobs, it is a candidate exactly when fewer than the batch cap of entries with smaller ids are out of backoff |
| ReleaseCycles.CandidateIff | internal/release/scheduler.go:353-365 | A job out of backoff is a candidate exactly when the number of entries out of backoff with a smaller id is below the batch cap, which acts as at least 1, however the file orders them |
| ReleaseCycles.FullCycleDrains | internal/release/scheduler.go:200-246 | A fully successful cycle over n due jobs leaves n minus the cap, and none invented |
| ReleaseCycles.DrainBound | internal/release/scheduler.go:200-246 | k fully successful cycles over n due jobs leave exactly max(0, n - k * cap) |
| ReleaseCycles.BinsAddUp | internal/release/scheduler.go:373-431 | Every candidate is in exactly one bin, the unread ones included |
| Backoffs.BackoffExactIff | internal/release/scheduler.go:567-582 | The delay is the designed one (the base, then doubled per failure up to the cap, constant from the 31st on) exactly when the product fits 63 bits or what the shift leaves is still taken for an overflow |
| Backoffs.FirstDelay | internal/release/scheduler.go:565-582 | The first failure waits exactly the base |
| Backoffs.NextDelay | internal/release/scheduler.go:565-582 | While the doubled base fits, each next failure waits twice the delay before it, or the cap |
| Backoffs.LastDelay | internal/release/scheduler.go:571-576 | From the 31st failure on the delay is constant |
| Backoffs.BackoffWithinCap | internal/release/scheduler.go:567-582 | Whatever the 64-bit shift leaves, the delay is positive and at most the cap |
| Backoffs.BackoffMonotone | internal/release/scheduler.go:567-582 | While the product fits, more failures never wait less |
| Backoffs.SmallBaseIsExact | internal/release/scheduler.go:567-582 | Bases below 2^33 ns never overflow unnoticed |
| Backoffs.DefaultsAreExact | internal/release/config.go:109-110 | With the default base and cap every attempt's delay is the designed one, although the shift overflows |
| Backoffs.UnnoticedOverflow | internal/release/scheduler.go:567-582 | A configuration accepted by validation whose 31st failure waits one second instead of the hour of its cap |
| JobWatchers.Lifetime | internal/sortition/job_watcher.go:158-354 | Over any passes and restarts the cursor never moves back; it starts where it was found stored, or at block 0 or the look-back behind the head read by the pass that first stored one; and every own event between there and the current cursor was served, answered as undecryptable with its session key, or given up after the limit of inactive reads in a row |
| JobWatchers.JobWatcher.RunOnce | internal/sortition/job_watcher.go:194-354 | One pass keeps that, whatever fails, and fails only if a call failed; with no read failing, capacity taken or session inactive it reaches the head read; in calm it is exactly the function Pass at that head |
| JobWatchers.JobWatcher.Serve | internal/sortition/job_watcher.go:218-345 | An own event is passed only when handed over with a free slot, the prompt hash and submit block answered for that job and the user and model answered for its session, none of which failed; when answered as undecryptable with the key just read for it; or when given up after the limit of inactive reads; each adding exactly that to the books. It stops only after a failed read, a taken capacity or an inactive session, and then hands nothing over and leaves the books as they were; the retry counter moves exactly as the odometer's digit |
| JobWatchers.Feed.HandleJobPayload | internal/sortition/job_watcher.go:294-345 | Only a job admitted, whose session key was read and decryptable, and with the answers read for that very job and session since, may be handed over |
| JobWatchers.JobWatcher.ScanChunk | internal/sortition/job_watcher.go:218-350 | A chunk moves the cursor to its end when all its events were passed, else to just below the block of the event it stopped at, else not at all |
| JobWatchers.JobWatcher.StopAndRetry | internal/sortition/job_watcher.go:146-152 | The cursor is stored one block below the event, never below where it was |
| JobLogs.NeverWedged | internal/sortition/job_watcher.go:231-283 | Passes whose head is beyond a block leave it behind exactly when there are more of them than the odometer of permanently inactive jobs owes |
| JobWatchers.Polls | internal/sortition/job_watcher.go:158-354 | n passes of one process in calm are the function Passes of the heads they read: a block is left behind after exactly as many stopping passes as the odometer owes, and one more |
| JobLogs.PassesStable | internal/sortition/job_watcher.go:194-216 | Blocks that become final later change nothing about passes already made |
| JobLogs.OneBlockBound | internal/sortition/job_watcher.go:231-260 | k permanently inactive sessions in one block, with fresh counters, are passed after L^k passes and no fewer |
| JobLogs.DebtAdds | internal/sortition/job_watcher.go:231-260 | Inactive sessions in different blocks delay independently: the counts add |
| JobLogs.DebtOfBlock | internal/sortition/job_watcher.go:231-260 | With fresh counters a block with k inactive sessions costs L^k - 1 stopping passes |
| JobLogs.OnePassLess | internal/sortition/job_watcher.go:231-260 | A pass either owes nothing and gets through, or stops and owes exactly one pass less |
| JobLogs.OwedLess | internal/sortition/job_watcher.go:231-350 | The same across passes: a pass beyond the target takes exactly one off what is owed |
| Cursors.CursorCell.GetOrSeed | internal/sortition/cursor.go:45-52 | A stored cursor is authoritative, 0 included; otherwise a chain longer than the look-back is entered that far behind the safe head and that is stored, and a shorter one from its first block with nothing stored |
| Cursors.CursorCell.Set | internal/sortition/cursor.go:74-85 | The block is stored, or nothing changes |
| SessionWatchers.SessionWatcher.RunOnce | internal/sortition/session_watcher.go:163-297 | After a look-back that succeeded at cursor c, every request above c minus the look-back up to the cursor is pending, or was read non-Open, past the expiry read, or beyond the worker's capabilities, or a claim was attempted; the claim starts again exactly when no cursor was stored, the head read exceeds the look-back and the seeding write succeeded; a pass fails only if a call failed; without failures and with capacity it keeps exactly requests read Open and not yet claimable; the pass is the function PassOf of what it was answered; it says full exactly when the capacity was found taken in this pass, stops short in look-back or discovery only after a failed call, and leaves the look-back done, at the cursor resumed at, when no call failed; request by request: one claimed in this pass has its mask known and within the worker's capabilities, or reading it failed in this pass; one dropped was read in this pass, and as non-Open, past its expiry, beyond the worker's capabilities, or claimed; one read and kept was Open, not expired when the pass began, and its mask within the capabilities or unreadable |
| SessionWatchers.SessionWatcher.Reseed | internal/sortition/session_watcher.go:302-328 | A look-back that succeeds extends what is remembered to `lookback` blocks behind the cursor, and a failing one loses nothing |
| SessionWatchers.SessionWatcher.Seed | internal/sortition/session_watcher.go:184-199 | A failing look-back is counted, and given up exactly at the tenth |
| SessionWatchers.SessionWatcher.Resume | internal/sortition/session_watcher.go:164-182 | The resume point is the cursor; a cursor is seeded in this pass, and the look-back made moot, exactly when none is stored, the head exceeds the look-back and the write succeeds |
| SessionWatchers.ForgetsIff | internal/sortition/session_watcher.go:163-297 | A pass that drops nothing forgets nothing it had, on any log, exactly unless it seeds a cursor: unless none was stored, the head read exceeds the look-back and the seeding write succeeded |
| SessionWatchers.ForgottenRequest | internal/sortition/session_watcher.go:163-199 | Two passes that forget a request after a look-back that succeeded: a short chain whose discovery fails, then a chain beyond the look-back |
| SessionWatchers.PassComposed | internal/sortition/session_watcher.go:163-297 | A pass is the composition of resume, look-back, discovery and evaluation, each as a function of its answers |
| SessionWatchers.SessionWatcher.Discover | internal/sortition/session_watcher.go:201-224 | Discovery ends at the safe head with every request on the way remembered, and never moves the cursor back |
| SessionWatchers.SessionWatcher.Evaluate | internal/sortition/session_watcher.go:226-294 | Each pending request is looked at until the capacity is found taken, and what stays was read Open and not claimable, or a read failed |
| SessionWatchers.SessionWatcher.EvaluateOne | internal/sortition/session_watcher.go:230-294 | A request leaves the pending set only when read non-Open, when the clock is past the expiry read, when the mask known is beyond the worker, or with a claim; it is claimed, and kept once read, only if the mask known is within the worker's capabilities or reading it just failed |
| SessionWatchers.SessionWatcher.RequiredCaps | internal/sortition/session_watcher.go:247-260 | The mask used is the one the chain told, cached or read now, and the empty one only where that read failed |
| SessionWatchers.ClaimFeed.ClaimSession | internal/sortition/session_watcher.go:271-291 | Only a request last read as Open, not past its expiry by the clock read, and as claimable by this worker is claimed, and only with a free slot |
| Pipeline.AllFromOneCiphertext | internal/pipeline/handler.go:839-1062 | If ciphertext writes succeed and the record lives, every terminal frame, blob and completeJob pair of any interleaving of crashing attempts derives from one ciphertext, and a stored hash is its blob hash |
| Pipeline.AlwaysConsistentIff | internal/pipeline/checkpoint.go:99-139 | The one-ciphertext promise holds of every run exactly in the environments where ciphertext writes succeed and the record does not expire |
| Pipeline.TwoAnswers | internal/pipeline/handler.go:839-900 | With failing writes or expiry there is a run that shows the consumer two different answers |
| Pipeline.MismatchedCommit | internal/pipeline/handler.go:941-1062 | For any two answers, with failing writes or expiry, there is a run whose completeJob pairs the blob of the first with the hash of the second |
| Pipeline.AlwaysPairedIff | internal/pipeline/handler.go:941-1062 | Every completeJob pair of every run names one ciphertext exactly if ciphertext writes succeed and the record does not expire, or the hash functions cannot tell a mixture of two answers from a ciphertext |
| Pipeline.PairedWithoutCollisions | internal/pipeline/handler.go:941-1062 | With hash functions free of collisions, exactly if ciphertext writes succeed and the record does not expire |
| Pipeline.MixturesStep | internal/pipeline/handler.go:839-1062 | In any environment each step keeps: a stored hash is the blob hash of some answer, and every completeJob pair the hashes of two answers, of one and the same if its blob hash is 0 |
| Pipeline.CanonicalStep | internal/pipeline/handler.go:839-1062 | Each step keeps: a stored hash is the blob hash of the stored ciphertext, every attempt agrees with the record, everything shown derives from it |
| Pipeline.NothingBeforeAck | internal/pipeline/handler.go:941-1009 | In every run, at every step, no terminal frame, blob submission or completeJob occurs before the acknowledgement is on-chain |
| Pipeline.AckKnownStep | internal/pipeline/handler.go:1516-1716 | Each step keeps: an attempt past the join, or with a confirmed or no watch past the broadcast, has its acknowledgement on-chain |
| Pipeline.SharedIsTheStore | internal/pipeline/checkpoint.go:99-139 | The machine's record is the checkpoint store's: each writing step has the effect of its script on the key, expiry is the key's, and no other step touches it |
| JobHandlers.JobHandler.ProcessJob | internal/pipeline/handler.go:765-1062 | processJob is a legal run of one attempt among the others; it delivers only after the acknowledgement, succeeds only after delivery, fails only if a call failed, inherits the one-ciphertext property; with no failing call it ends having shown, blobbed and committed one answer, unless the chain said it was complete already; the terminal frame is number n+1 after the n frames its own streamer numbered 1..n; a delivering attempt streams exactly if that is enabled and neither an answer nor a delivery was recorded, and none streams otherwise |
| JobHandlers.JobHandler.EnsureAcknowledged | internal/pipeline/handler.go:1537-1623 | The attempt proceeds only when acknowledged, or broadcast and watched, and stops only after a failed call |
| JobHandlers.JobHandler.ReconcileAckError | internal/pipeline/handler.go:1628-1646 | A failed acknowledgement is overruled only by seeing the event, and then it is on-chain |
| JobHandlers.JobHandler.AwaitAcknowledged | internal/pipeline/handler.go:1657-1716 | The join lets the attempt pass only with the acknowledgement on-chain, and keeps what it holds; an acknowledged job is stopped only if both the join and the recheck failed |
| JobHandlers.JobHandler.ReadCheckpoint | internal/pipeline/handler.go:1067-1081 | The attempt holds the record as it is, or a blank one if the read failed |
| JobHandlers.JobHandler.RunInferencePipeline | internal/pipeline/handler.go:1096-1399 | The frame count is the streamer's own, over deltas, statistics and audio; unless a frame was lost to encryption, the text it showed is the response that was encrypted into the ciphertext returned; it fails only if a call failed; deltas are streamed exactly if allowed and enabled |
| JobHandlers.JobHandler.PersistCiphertext | internal/pipeline/handler.go:909-935 | After a successful write the attempt holds the canonical ciphertext of the record, after a failed one its own |
| JobHandlers.JobHandler.PublishStage | internal/pipeline/handler.go:952-987 | The terminal frame carries the ciphertext held, numbered one after the chunks; it is shown, and the delivery recorded, unless an earlier delivery is recorded or a call failed |
| JobHandlers.JobHandler.EnsureBlobSubmitted | internal/pipeline/handler.go:1731-1795 | The hash committed is the cached one, or that of a blob of the ciphertext held which was submitted and mined; a new one is recorded unless a call failed; none only after a failed submission |
| JobHandlers.JobHandler.CompleteStage | internal/pipeline/handler.go:996-1059 | completeJob names that hash and the hash of the ciphertext held, and is on-chain or was answered as already complete; it fails only if refused, and leaves a tombstone unless a call failed |
| Checkpoints.CheckpointStore.SetCiphertextIfAbsent | internal/pipeline/checkpoint.go:162-205 | First writer wins: the canonical bytes are returned, set by this call exactly when none were there; empty, oversized and failed writes change nothing |
| Checkpoints.CheckpointStore.SetVersionedHash | internal/pipeline/checkpoint.go:215-230 | Writes the hash and refreshes the lifetime unless tombstoned; a zero hash or a Redis failure changes nothing |
| Checkpoints.CheckpointStore.MarkDelivered | internal/pipeline/checkpoint.go:234-245 | Marks delivery and refreshes the lifetime unless tombstoned |
| Checkpoints.CheckpointStore.Tombstone | internal/pipeline/checkpoint.go:293-301 | Marks the record and sets its lifetime to the tombstone's; nothing else of it changes |
| Checkpoints.FirstCiphertextIsCanonical | internal/pipeline/checkpoint.go:99-112 | While the record lives no sequence of later commands by anyone changes a stored ciphertext |
| Checkpoints.StragglersKeepTombstone | internal/pipeline/checkpoint.go:113-139 | With its ciphertext cached, no sequence of straggler commands moves a tombstone's expiry |
| Checkpoints.TombstoneExtendedIff | internal/pipeline/checkpoint.go:99-139 | A straggler extends a tombstone exactly when it stores a ciphertext the tombstone never had, and its full lifetime ends later |
| Checkpoints.TombstoneResurrected | internal/pipeline/checkpoint.go:99-139 | A concrete tombstone of 10 minutes that a late ciphertext turns back into two hours |
| Inference.RunInference | internal/pipeline/handler.go:1405-1480 | On success everything the model said was handed on and nothing is left buffered; if no frame was lost to encryption, the published frames flattened are exactly that, and their text is the response settled; frames are numbered 1..n and n is the count returned |
| Inference.GenerateStream | internal/ollama/client.go:448-508 | Success exactly when the stream reaches its done object without error and the answer is not empty; the answer is the concatenated content, and all deltas went to the streamer in order |
| Inference.OnLine | internal/ollama/client.go:465-507 | A line hands on its reasoning, if asked for, and then, after it, its content, adds the content to the answer and the reasoning's length to the count |
| Inference.TextSaidIsAnswer | internal/ollama/client.go:448-603 | The visible text of what was streamed is the answer, with or without reasoning around it, and the reasoning streamed is what the model thought if it was asked for, and none otherwise |
| Inference.SaidInOrder | internal/ollama/client.go:448-508 | Line by line: until an object is done, each adds its reasoning, if asked for, then its content; nothing after it is said or answered |
| Inference.CompletesIff | internal/ollama/client.go:448-508 | A stream completes exactly when some object is the first done one and no line up to it is malformed or an error |
| Streams.TokenCoalescer.Add | internal/pipeline/stream.go:78-92 | A batch comes out exactly when a threshold is met and is everything buffered; an empty delta does nothing |
| Streams.TokenCoalescer.Flush | internal/pipeline/stream.go:96-104 | Flush yields exactly what was buffered and leaves nothing |
| Streams.ChunkStreamer.Add | internal/pipeline/stream.go:215-227 | What came out followed by what is buffered is always what went in, across kinds; only the last kind buffers; a kind switch forces at most one frame |
| Streams.ChunkStreamer.FlushAll | internal/pipeline/stream.go:231-243 | Everything is then published exactly unless the last delta was of kind stats, the one kind it does not list |
| Streams.ChunkStreamer.PublishBytes | internal/pipeline/stream.go:297-307 | A whole payload follows everything buffered before it, and nothing stays buffered |
| Streams.ChunkStreamer.Publish | internal/pipeline/stream.go:332-372 | A frame is lost, without using a sequence number, exactly when its encryption failed; numbers stay 1..n |
| Streams.ChunkStreamer.FrameRate | internal/pipeline/stream.go:78-104 | With a monotone clock, n deltas over time T make at most n/maxTokens + T/maxInterval frames, plus one per kind switch, one per FlushAll and two per PublishBytes |
| Nonces.LeasesFromStart | internal/chain/nonce.go:41-108 | In every reachable state held nonces are pairwise distinct, outstanding counts them, a requested reset waits only for a lease, and while none is pending the nonces from the seed to the counter are exactly the held and the consumed ones |
| Nonces.NoReseedUnderLease | internal/chain/nonce.go:41-58 | While a lease is out the next nonce is the local counter's, fresh, whatever the chain would answer |
| Nonces.ConsumedStaysConsumed | internal/chain/nonce.go:63-84 | A nonce reported consumed is never leased again before a reseed, whatever follows |
| Nonces.ResetAppliedByLastReturn | internal/chain/nonce.go:94-108 | A requested reset is applied exactly when the last lease returns, in whatever order and with whatever report |
| Nonces.SafeRun | internal/chain/nonce.go:41-108 | Every run of leases, returns and resets keeps the lease invariant |
| Nonces.NonceManager.NextNonce | internal/chain/nonce.go:41-58 | An unseeded manager leases exactly the nonce the chain answered and has that for its seed, a seeded one leases its counter; either way the counter is then one more; a failed read leases nothing |
| Nonces.LeasesInOrder | internal/chain/nonce.go:41-58 | An unused manager whose read answers n leases n, n + 1, ... in order, as long as nothing comes back |
| Nonces.NonceManager.ReleaseNonce | internal/chain/nonce.go:63-84 | A return: consumed leaves the counter, an unused highest one takes it back, any other unused one requests a reset; a requested reset is applied with the last lease; how the lease came back is recorded |
| Nonces.LeftAlone | internal/chain/nonce.go:41-108 | Whatever goroutines do that hold none of some leases, those leases stay as they are, and while one of them is out the counter keeps its seed |
| Nonces.NonceManager.ResetNonce | internal/chain/nonce.go:94-99 | A reset is requested and applied at once only without leases |
| Coordinators.NeverBothClasses | internal/chain/subpool_coordinator.go:153-255 | In every interleaving the two classes are never both in flight and no channel is closed twice |
| Coordinators.NoLostWakeup | internal/chain/subpool_coordinator.go:153-193 | A caller holding an open channel waits on a non-empty other class; once that is empty it can wake, and its next check admits it |
| Coordinators.LateDoneHarmless | internal/chain/subpool_coordinator.go:217-255 | Ids are never reused, a late or repeated Done changes nothing, and freeing one id touches that id alone |
| Coordinators.SlotHeldUntilFreed | internal/chain/subpool_coordinator.go:153-255 | A slot is held from admission until its own token is freed, janitor passes apart |
| Coordinators.SeedExclusiveIff | internal/chain/subpool_coordinator.go:286-310 | Seeding keeps the classes exclusive exactly when there is nothing to seed or no legacy entry in flight |
| Coordinators.SeedSize | internal/chain/subpool_coordinator.go:286-310 | Seeding adds one blob entry per nonce of the gap |
| Coordinators.InvRun | internal/chain/subpool_coordinator.go:153-369 | Every interleaving of the two-step Enter, Done, eviction, cancellation and startup seed keeps the invariant |
| Coordinators.SubpoolCoordinator.TryEnter | internal/chain/subpool_coordinator.go:153-193 | Under the mutex: admission with a fresh id and the current time, the other entries untouched, noted under the caller's name, exactly when the other class is empty, else a snapshot of the current channel, noted as turned away |
| Coordinators.SubpoolCoordinator.EnterClass | internal/chain/subpool_coordinator.go:153-193 | A caller that gives up has been turned away, and on a channel still open gives up while the other class is in flight; one that enters holds the slot admitted under its name, alone in its class's favour |
| Coordinators.SubpoolCoordinator.SeedPending | internal/chain/subpool_coordinator.go:286-310 | Exactly one new entry per pending nonce, each at the current time, none if there is no gap, the others untouched, whatever is in flight; the coordinator stays valid exactly when there is nothing to seed or no legacy entry |
| Coordinators.SubpoolCoordinator.ReapStale | internal/chain/subpool_coordinator.go:331-369 | Exactly the entries whose time is before the cutoff go, the others stay as they were, and a class thereby emptied is announced |
| Coordinators.BroadcastToken.Done | internal/chain/subpool_coordinator.go:217-255 | The first Done releases the entry and announces an emptied class; later ones change nothing |
| StuckNonces.StuckNonceTracker.Record | internal/chain/stuck_nonce.go:77-91 | Record returns the length of the longest final run of records at that nonce since the last Clear with gaps within the lifetime, whatever was recorded elsewhere |
| StuckNonces.StuckNonceTracker.HitsAt | internal/chain/stuck_nonce.go:113-120 | A positive count is that run's length; zero means cleared or aged out |
| StuckNonces.StuckNonceTracker.Clear | internal/chain/stuck_nonce.go:178-187 | Clear empties every count and the replacement budget |
| StuckNonces.StuckNonceTracker.IncrementBumpAttemptsFor | internal/chain/stuck_nonce.go:164-173 | Counts one more attempt at the nonce; a first attempt at another nonce starts a new budget |
| StuckNonces.SweepAccurate | internal/chain/stuck_nonce.go:199-206 | Lazy eviction at any later time keeps every nonce's count accurate |
| StuckNonces.CountAccurate | internal/chain/stuck_nonce.go:77-91 | One more record continues or restarts the run, as the gap decides |
| StuckNonces.FinalRunUnique | internal/chain/stuck_nonce.go:77-91 | The run length is a function of the history |
| Broadcasts.ChainClient.BroadcastPreparedTx | internal/chain/client.go:433-555 | On every path each lease taken is returned to the manager once, consumed or not as the protocol demands, both outcomes of the resend included, and the slot the coordinator admitted is live afterwards exactly when a PendingTx owning it is returned; with a gas price the slot is asked for, and gone without only when turned away; a PendingTx is returned exactly when the transaction went out, whose nonce is returned as consumed; a lease that seeded the counter went out under exactly the nonce the chain answered |
| Broadcasts.ChainClient.SendUnderSlot | internal/chain/client.go:462-555 | From NextNonce to the deferred release: a nonce counts as sent exactly when the transaction went out, and is then returned as consumed; an unbuilt one is returned as unused |
| Broadcasts.ChainClient.Send | internal/chain/client.go:500-555 | Exactly one lease is left to return, with the verdict the protocol demands, and the other was returned as unused; a rejection that stands requests a reset, and an address-reserved one is recorded at its nonce |
| Broadcasts.ChainClient.ResendWithFreshNonce | internal/chain/client.go:561-589 | The second nonce differs from the stale one and the counter keeps its seed; success returns the stale lease as unused, failure returns the second as unused and keeps only the stale one |
| Broadcasts.PendingTx.Wait | internal/chain/client.go:353-358 | The first Wait frees the slot once, whatever the receipt; later ones change nothing and repeat the result |
| Broadcasts.PendingTx.AwaitMined | internal/chain/client.go:362-412 | A failed wait requests a nonce reset, a mined receipt clears the stuck counts, a revert does neither; the slot is freed in all cases |
| BlobTxs.BlobTxSubmitter.SubmitBlobTx | internal/blob/blob_tx.go:222-312 | Every exit leaves the lease returned once and the slot the coordinator admitted settled; the slot is asked for exactly when payload and tip are had; the lease comes back as consumed exactly when the transaction may have gone out; success exactly on a successful receipt; a lease that seeded the counter has exactly the nonce the chain answered |
| BlobTxs.BlobTxSubmitter.SubmitAndWait | internal/blob/blob_tx.go:322-403 | Success exactly when the send was accepted and the receipt is good, and then stuck counts and budget are cleared; a failed wait or rejection requests a reset; an address-reserved rejection is recorded, and a replacement sent exactly as that makes one due, otherwise none; the lease and the slot stay the caller's |
| BlobTxs.BlobTxSubmitter.HandleSendError | internal/blob/blob_tx.go:405-440 | A rejected send requests a nonce reset and touches no lease; an address-reserved one is recorded at the nonce and, by the run of records that makes, the next rung is sent and counted exactly if one is due and can be built; any other leaves tracker and node alone |
| BlobTxs.BlobTxSubmitter.MaybeSubmitReplacement | internal/blob/blob_tx.go:442-500 | A replacement is sent exactly when threshold, budget, ceiling and build allow, with tip and both fee caps exactly 2^k times theirs for the k-th at a nonce; what was sent under the running budget stays a ladder of at most min(MaxBumps, 8) rungs |
| BlobTxs.BlobTxSubmitter.SubmitReplacement | internal/blob/blob_tx.go:523-593 | The transaction sent is the next rung, and it is counted, also when the node refuses it; above the ceiling or unbuilt, nothing is sent or counted |

## Left out

- Coordinators.SubpoolCoordinator.EnterClass: bounds the number of wakeups by a patience parameter for the caller's context; fairness among waiters is not claimed.
- Coordinators.BroadcastToken.Done: the compare-and-swap and the locked release are one call here; they are two steps in the interleaved machine.
- Broadcasts.ChainClient.BroadcastPreparedTx: "consumed" means reported consumed; the resend hands a nonce back even on an ambiguous error, as the code does.
- BlobTxs.BlobTxSubmitter.MaybeSubmitReplacement: the fee ladder is about bumps of one nonce with no Clear or bump of another nonce between the decision and the attempt.
- JobHandlers.JobHandler.ProcessJob: deadline guards, receipts after the deadline and error frames appear only as failing steps.
- Inference.RunInference: prompt history, search augmentation, artifacts and speech jobs are not modelled; statistics and audio frames are arbitrary payloads after the answer.
- Schedulers.Scheduler.Partition: the warning about jobs disputed for long is not modelled.
- ReleaseStore.FileStore.AddEligible: file locking, temp files, identity and schema checks are one atomic step that may fail.
- JobWatchers.JobWatcher.Serve: the payload's timestamp and correlation id are not modelled; the session status and worker that GetSessionInfo also answers are unused there.
- Unsigned wrap-around of block numbers, nonces, sequence numbers and chain times: all are unbounded here; only the backoff's 64-bit shift is modelled with its wrap.
- Redis, RPC, contract bindings, ABI and hex encoding, signing and encryption are nondeterministic answers or uninterpreted.
- Error classification (nonce desync, pause reverts, session-not-active) is an arbitrary choice among its outcomes.
- Tickers, goroutine start and stop, metrics other than the pause count, logging and configuration parsing.
- The gas tip suggestion and the fee arithmetic other than the replacement ladder.
- Heartbeats, drain, registration beyond the cursor seed, and the HTTP and WebSocket surfaces.

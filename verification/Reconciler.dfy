/**
 The writers of the release state file besides the scheduler: the log reconciler
 (internal/release/reconciler.go), the pipeline's tracker (internal/release/tracker.go) and the
 cursor seeded at registration (internal/cli/settlement.go).
 */
module Reconcilers {
  import opened Common
  import opened ReleaseStore
  import opened ReleaseWorlds

  const DefaultChunkSize: nat := 5000

  class Reconciler {
    const sys: Shared
    const startBlock: nat
    const chunkSize: nat

    ghost predicate Configured() {
      sys.setup.origin == if startBlock > 0 then startBlock else 1
    }

    constructor (sys: Shared, startBlock: nat, chunkSize: nat)
      requires sys.setup.origin == if startBlock > 0 then startBlock else 1
      ensures Configured() && this.sys == sys
    {
      this.sys, this.startBlock, this.chunkSize := sys, startBlock, chunkSize;
    }

    /** One pass, however the others interleave and whatever fails: the history stays a legal run, and a
        pass without error has covered everything up to the safe head of the head it read. */
    method Pass() returns (ok: bool)
      requires sys.Valid() && Configured()
      modifies sys, sys.store
      ensures sys.Valid()
      ensures ok || sys.log.hitches > old(sys.log.hitches)
      ensures ok ==>
                && |sys.heads| == |old(sys.heads)| + 1
                && forall e :: e in sys.chain.events && e.worker == sys.setup.me && sys.setup.origin <= e.block
                               && e.block + sys.confirmations <= sys.heads[|sys.heads| - 1].0 ==>
                     || (exists i :: 0 <= i < |sys.store.snap.pending| && sys.store.snap.pending[i].id == e.job)
                     || (e.job in sys.chain.jobs
                         && var job := sys.chain.jobs[e.job];
                            job.state.Released? || job.state.TimedOut? || (job.state.Resolved? && job.escrow == 0))
    {
      hide Legal, Run, Later;
      ok := false;
      var startCursor := sys.GetReconcileBlock();
      if startCursor.None? {
        return;
      }
      var start := if startCursor.value == 0 && startBlock > 0 then startBlock else startCursor.value + 1;
      ghost var atRead := sys.Now();
      var head := sys.Head();
      LaterKeeps(atRead, sys.Now(), sys.setup.me);
      if head.None? {
        return;
      }
      if head.value.0 < sys.confirmations {
        ok := true;
        return;
      }
      var safe := head.value.0 - sys.confirmations;
      var chunk := if chunkSize == 0 then DefaultChunkSize else chunkSize;
      var lo := start;
      while lo <= safe
        invariant sys.Valid() && sys.log.hitches >= old(sys.log.hitches)
        invariant safe <= sys.chain.final && sys.heads == old(sys.heads) + [head.value]
        invariant lo <= sys.store.snap.cursor + 1 || lo <= sys.setup.origin
        decreases safe + 1 - lo
      {
        var hi := lo + chunk - 1;
        if hi > safe {
          hi := safe;
        }
        ghost var before := sys.Now();
        var done := Chunk(lo, hi);
        LaterKeeps(before, sys.Now(), sys.setup.me);
        if !done {
          return;
        }
        lo := hi + 1;
      }
      ok := true;
    }

    /** One chunk: on success every own event in it is pending or settled, and the cursor is at its end; it fails
        only if a call failed, and then leaves the cursor where it was. */
    method Chunk(lo: nat, hi: nat) returns (ok: bool)
      requires sys.Valid() && hi <= sys.chain.final
      requires lo <= sys.store.snap.cursor + 1 || lo <= sys.setup.origin
      modifies sys`chain, sys`steps, sys`log, sys.store
      ensures sys.Valid() && Later(old(sys.Now()), sys.Now(), sys.setup.me)
      ensures ok ==> sys.store.snap.cursor == hi
      ensures !ok && sys.quiet ==> sys.store.snap.cursor == old(sys.store.snap.cursor)
      ensures sys.log.hitches >= old(sys.log.hitches) && (ok || sys.log.hitches > old(sys.log.hitches))
    {
      hide Legal, Run, Inv, Later, Accounted;
      ghost var first := sys.Now();
      ok := false;
      var found := sys.FilterJobCompleted(lo, hi);
      if found.None? {
        return;
      }
      var events := found.value;
      ghost var filtered := sys.Now();
      LaterKeeps(first, filtered, sys.setup.me);
      LaterNow(filtered, sys.setup);
      var failed := false;
      for i := 0 to |events|
        invariant sys.Valid() && Later(filtered, sys.Now(), sys.setup.me)
        invariant sys.quiet ==> sys.store.snap.cursor == filtered.snap.cursor
        invariant sys.log.hitches >= old(sys.log.hitches) && (failed ==> sys.log.hitches > old(sys.log.hitches))
        invariant !failed ==> forall k :: 0 <= k < i ==> Accounted(sys.Now(), events[k].job)
      {
        ghost var before := sys.Now();
        LaterKeeps(filtered, before, sys.setup.me);
        assert events[i] in events;
        var read, stored := Consider(events[i]);
        LaterThenLater(filtered, before, sys.Now(), sys.setup.me);
        LaterKeeps(before, sys.Now(), sys.setup.me);
        if !stored {
          LaterThenLater(first, filtered, sys.Now(), sys.setup.me);
          return;
        }
        failed := failed || !read;
      }
      ghost var scanned := sys.Now();
      LaterThenLater(first, filtered, scanned, sys.setup.me);
      if failed {
        return;
      }
      LaterKeeps(first, scanned, sys.setup.me);
      LaterKeeps(filtered, scanned, sys.setup.me);
      ok := sys.SetReconcileBlock(lo, hi);
      LaterThenLater(first, scanned, sys.Now(), sys.setup.me);
    }

    /** One event of the chunk: unless a read or a write failed, its job is pending or settled after. With the file
        to itself, a job read as another worker's or settled is not added; any other is added once, with the time
        of completion the chain answered, and an entry already there stays as it was. */
    method Consider(e: Event) returns (read: bool, stored: bool)
      requires sys.Valid() && e in sys.chain.events && e.worker == sys.setup.me
      modifies sys`chain, sys`steps, sys`log, sys.store
      ensures sys.Valid() && Later(old(sys.Now()), sys.Now(), sys.setup.me)
      ensures read && stored ==> Accounted(sys.Now(), e.job)
      ensures sys.quiet ==> sys.store.snap.cursor == old(sys.store.snap.cursor)
      ensures sys.log.hitches == old(sys.log.hitches) + (if read then 0 else 1) + (if stored then 0 else 1)
      ensures read <==> e.job in sys.log.answers
      ensures sys.quiet && (!read || !stored) ==> sys.store.snap == old(sys.store.snap)
      ensures sys.quiet && read && stored ==>
                var job, pending := sys.log.answers[e.job], old(sys.store.snap.pending);
                var over := job.state.Released? || job.state.TimedOut? || (job.state.Resolved? && job.escrow == 0);
                sys.store.snap == old(sys.store.snap).(pending :=
                  if job.worker != sys.setup.me || over || (exists i :: 0 <= i < |pending| && pending[i].id == e.job) then pending
                  else pending + [PendingJob(e.job, job.completedAt, 0, 0)])
    {
      hide Legal, Run, Later;
      ghost var first := sys.Now();
      stored := true;
      var info := sys.GetJobState(e.job);
      ghost var seen := sys.Now();
      LaterKeeps(first, seen, sys.setup.me);
      read := info.Some?;
      if read && info.value.worker == sys.setup.me && !Over(info.value) {
        stored := sys.AddEligible(e.job, info.value.completedAt);
        LaterThenLater(first, seen, sys.Now(), sys.setup.me);
      }
    }
  }

  /** The pipeline's hook after completeJob. */
  method MarkEligible(sys: Shared, id: nat, completedAt: int) returns (ok: bool)
    requires sys.Valid() && id in sys.chain.jobs
    modifies sys, sys.store
    ensures sys.Valid() && (ok ==> Has(sys.store.snap.pending, id))
    ensures ok || sys.log.hitches > old(sys.log.hitches)
  {
    ok := sys.AddEligible(id, completedAt);
  }

  /** The safe head of a worker new to the chain: 0 exactly when it is registered, when the chain is no longer
      than the confirmations, or when its key had sent something by then. None is an error. */
  method FreshWorkerSafeHead(sys: Shared) returns (block: Option<nat>)
    requires sys.Valid()
    modifies sys, sys.store
    ensures sys.Valid() && Later(old(sys.Now()), sys.Now(), sys.setup.me)
    ensures sys.quiet ==> sys.store.snap == old(sys.store.snap)
    ensures sys.log.hitches >= old(sys.log.hitches) && old(sys.heads) <= sys.heads
    ensures block.None? <==> sys.log.hitches > old(sys.log.hitches)
    ensures block.Some? && block.value > 0 ==>
              block.value <= sys.chain.final && forall b :: b in sys.chain.used ==> b > block.value
    ensures block.Some? ==> sys.registered.Some?
    ensures block.Some? && sys.registered.value ==> block.value == 0
    ensures block.Some? && !sys.registered.value ==>
              && |sys.heads| == |old(sys.heads)| + 1
              && var head := sys.heads[|sys.heads| - 1].0;
                 if head < sys.confirmations then block.value == 0
                 else sys.nonce.Some? && block.value == if sys.nonce.value != 0 then 0 else head - sys.confirmations
  {
    hide Shared.Valid, Legal, Run, Inv, Accounted, Later;
    ghost var first := sys.Now();
    var registered := sys.IsWorkerRegistered();
    ghost var asked := sys.Now();
    if registered.None? {
      return None;
    }
    if registered.value {
      return Some(0);
    }
    var head := sys.Head();
    ghost var read := sys.Now();
    LaterThenLater(first, asked, read, sys.setup.me);
    if head.None? {
      return None;
    }
    if head.value.0 < sys.confirmations {
      return Some(0);
    }
    var safeHead := head.value.0 - sys.confirmations;
    var nonce := sys.NonceAt(safeHead);
    LaterThenLater(first, read, sys.Now(), sys.setup.me);
    LaterKeeps(read, sys.Now(), sys.setup.me);
    if nonce.None? {
      return None;
    }
    block := Some(if nonce.value != 0 then 0 else safeHead);
  }

  /** The block a registration may seed, by what was answered: that of a worker not registered, whose key had
      sent nothing by the safe head of a chain longer than the confirmations. */
  ghost predicate Seedable(sys: Shared)
    reads sys`registered, sys`nonce, sys`heads
  {
    && sys.registered == Some(false) && sys.nonce == Some(0)
    && sys.heads != [] && sys.heads[|sys.heads| - 1].0 > sys.confirmations
  }

  lemma SeedableMeans(sys: Shared)
    ensures Seedable(sys) <==> sys.registered == Some(false) && sys.nonce == Some(0)
                               && sys.heads != [] && sys.heads[|sys.heads| - 1].0 > sys.confirmations
  {
  }

  /** A block below every transaction of the key stays so once it is final. */
  lemma UsedAbove(a: World, b: World, me: nat, block: nat)
    requires Later(a, b, me) && block <= a.chain.final && forall x :: x in a.chain.used ==> x > block
    ensures block <= b.chain.final && forall x :: x in b.chain.used ==> x > block
  {
  }

  /** Registration: read the seed before the registration is sent, store it after it went through. The
      seeded cursor skips no own event, and a cursor already stored is left alone. With the file to itself and
      no failing call, it seeds exactly if the registration was sent, no cursor was stored, and the answers
      allow it, and then the safe head. */
  method Register(sys: Shared, sent: bool) returns (seeded: bool)
    requires sys.Valid()
    modifies sys, sys.store
    ensures sys.Valid() && Later(old(sys.Now()), sys.Now(), sys.setup.me)
    ensures seeded ==> forall e :: e in sys.chain.events && e.worker == sys.setup.me ==> e.block > sys.store.snap.cursor
    ensures seeded ==> sent && Seedable(sys) && sys.store.snap.cursor == sys.heads[|sys.heads| - 1].0 - sys.confirmations
    ensures sys.quiet && sys.log.hitches == old(sys.log.hitches) ==>
              (seeded <==> sent && old(sys.store.snap.cursor) == 0 && Seedable(sys))
    ensures sys.quiet ==> sys.store.snap == old(sys.store.snap).(cursor := sys.store.snap.cursor)
                          && (!seeded ==> sys.store.snap.cursor == old(sys.store.snap.cursor))
  {
    hide Shared.Valid, Legal, Run, Inv, Accounted, Later, Seedable;
    seeded := false;
    ghost var first := sys.Now();
    var block := FreshWorkerSafeHead(sys);
    ghost var read := sys.Now();
    SeedableMeans(sys);
    sys.Interleave();
    ghost var went := sys.Now();
    LaterThenLater(first, read, went, sys.setup.me);
    if sent && block.Some? && block.value != 0 {
      UsedAbove(read, went, sys.setup.me, block.value);
      var ok;
      seeded, ok := sys.SeedReconcileBlock(block.value);
      LaterThenLater(first, went, sys.Now(), sys.setup.me);
      if seeded {
        UsedAbove(went, sys.Now(), sys.setup.me, block.value);
        sys.EventsAbove(block.value);
      }
    }
  }
}

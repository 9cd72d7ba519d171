/**
 The release scheduler (internal/release/scheduler.go): selection, the batch, the per-job fallback,
 the pause back-off, and the two ways a cycle is started.
 */
module Schedulers {
  import opened Common
  import opened Backoffs
  import opened ReleaseStore
  import opened ReleaseWorlds
  import opened ReleaseCycles
  import opened ReleaseBooks

  class Scheduler {
    const sys: Shared
    const terms: Terms
    var pauseEvents: nat

    constructor (sys: Shared, terms: Terms)
      ensures this.sys == sys && this.terms == terms && pauseEvents == 0
    {
      this.sys, this.terms, this.pauseEvents := sys, terms, 0;
    }

    /** The claims about what a cycle leaves in the state file hold when it runs alone with a working store. */
    ghost predicate Alone() {
      sys.quiet && sys.store.reliable
    }

    method CollectCandidates(pending: seq<PendingJob>, now: int) returns (out: seq<PendingJob>)
      ensures out == Candidates(pending, now, Cap(terms))
    {
      out := [];
      for i := 0 to |pending|
        invariant |out| < Cap(terms)
        invariant out + Candidates(pending[i..], now, Cap(terms) - |out|) == Candidates(pending, now, Cap(terms))
      {
        assert pending[i..][1..] == pending[i + 1..];
        if pending[i].backoffUntil > now {
          continue;
        }
        out := out + [pending[i]];
        if |out| >= terms.maxBatch {
          return;
        }
      }
    }

    /** Which bin the chain's answer puts a job in; one that could not be looked up stays unread. */
    method Judge(id: nat, window: int, now: int) returns (v: Verdict)
      requires sys.Valid() && id in sys.chain.jobs && window == sys.Window() && now == sys.HeadTime()
      modifies sys`chain, sys`steps, sys`log, sys.store
      ensures sys.Valid() && Later(old(sys.Now()), sys.Now(), sys.setup.me)
      ensures sys.quiet ==> sys.store.snap == old(sys.store.snap)
      ensures Looked(old(sys.log), sys.log, id, v)
      ensures v == BinOf(sys.log.answers, id, sys.setup.me, window, now)
      ensures v.Discard? ==> Cleared(sys.chain, sys.setup.me, {id})
      ensures v.Release? ==> Ours(sys.chain, sys.setup.me, [id])
      ensures v.Unread? <==> id !in sys.log.answers
      ensures id in sys.log.answers ==>
                var job := sys.log.answers[id];
                && (v.Release? <==> && job.worker == sys.setup.me
                                    && (|| (job.state.Completed? && job.completedAt + window <= now)
                                        || (job.state.Resolved? && job.escrow > 0)))
                && (v.Discard? <==> || job.worker != sys.setup.me || job.state.Released? || job.state.TimedOut?
                                    || (job.state.Resolved? && job.escrow == 0))
    {
      ghost var before := sys.Now();
      var info := sys.GetJobState(id);
      LaterKeeps(before, sys.Now(), sys.setup.me);
      if info.None? {
        return Unread;
      }
      if info.value.worker != sys.setup.me {
        return Discard;
      }
      v := Keep;
      match info.value.state {
        case Completed =>
          if info.value.completedAt + window <= now {
            v := Release;
          }
        case Resolved =>
          v := if info.value.escrow > 0 then Release else Discard;
        case Released =>
          v := Discard;
        case TimedOut =>
          v := Discard;
        case _ =>
      }
    }

    /** Every candidate is looked up exactly once; the two bins are exactly those its answer puts there, and a
        discarded job is settled for good or another worker's. */
    method Partition(candidates: seq<PendingJob>, window: int, now: int) returns (batch: seq<nat>, drop: seq<nat>)
      requires sys.Valid() && Unique(candidates) && window == sys.Window() && now == sys.HeadTime()
      requires forall c :: c in candidates ==> c.id in sys.chain.jobs
      modifies sys`chain, sys`steps, sys`log, sys.store
      ensures sys.Valid() && Later(old(sys.Now()), sys.Now(), sys.setup.me)
      ensures sys.quiet ==> sys.store.snap == old(sys.store.snap)
      ensures batch == Picked(candidates, sys.log.answers, sys.setup.me, window, now, Release)
      ensures drop == Picked(candidates, sys.log.answers, sys.setup.me, window, now, Discard)
      ensures Cleared(sys.chain, sys.setup.me, SetOf(drop)) && Ours(sys.chain, sys.setup.me, batch)
      ensures Surveyed(old(sys.log), sys.log, candidates, sys.setup.me, window, now)
    {
      ghost var me := sys.setup.me;
      hide Shared.Valid, Legal, Run, Inv, Later, Moves, Sound, Unique, Picked, IdSeq, BinOf, Cleared, SetOf, Surveyed, Looked;
      hide Bin, Eligible, Over;
      batch, drop := [], [];
      ghost var first, start := sys.Now(), sys.log;
      sys.Still();
      SurveyedNone(sys.log, sys.chain, me, window, now, candidates[..0]);
      for i := 0 to |candidates|
        invariant sys.Valid() && Later(first, sys.Now(), me)
        invariant sys.quiet ==> sys.store.snap == old(sys.store.snap)
        invariant Surveyed(start, sys.log, candidates[..i], me, window, now)
        invariant batch == Picked(candidates[..i], sys.log.answers, me, window, now, Release)
        invariant drop == Picked(candidates[..i], sys.log.answers, me, window, now, Discard)
        invariant forall c :: c in candidates ==> c.id in sys.chain.jobs
        invariant Cleared(sys.chain, me, SetOf(drop)) && Ours(sys.chain, me, batch)
      {
        ghost var before, log := sys.Now(), sys.log;
        var id := candidates[i].id;
        assert candidates[i] in candidates;
        var v := Judge(id, window, now);
        LaterThenLater(first, before, sys.Now(), me);
        LaterKeeps(before, sys.Now(), me);
        SurveyedNext(candidates, i, start, log, sys.log, me, window, now, v);
        ClearedLater(before, sys.Now(), me, SetOf(drop));
        OursLater(before, sys.Now(), me, batch);
        if v.Release? {
          OursMore(sys.chain, me, batch, [id]);
          batch := batch + [id];
        } else if v.Discard? {
          ClearedMore(sys.chain, me, SetOf(drop), {id});
          SetOfNext(drop, id);
          drop := drop + [id];
        }
      }
      assert candidates[..|candidates|] == candidates;
    }

    method ApplyPauseBackoff(now: int) returns (nextAllowedAt: int)
      requires sys.Valid()
      modifies sys`chain, sys`steps, sys`log, sys.store, `pauseEvents
      ensures sys.Valid() && Later(old(sys.Now()), sys.Now(), sys.setup.me)
      ensures exists ok :: sys.log == Noted(old(sys.log), ok)
      ensures pauseEvents == old(pauseEvents) + 1 && nextAllowedAt == now + terms.pausedBackoff / 1_000_000_000
      ensures Alone() ==> sys.store.snap == old(sys.store.snap).(nextAllowed := nextAllowedAt)
    {
      pauseEvents := pauseEvents + 1;
      var ok := sys.SetNextAllowedAttempt(now + Seconds(terms.pausedBackoff));
      nextAllowedAt := now + Seconds(terms.pausedBackoff);
    }

    /** The failures recorded on the first entry of the job, 0 without one. */
    method FailCount(pending: seq<PendingJob>, id: nat) returns (n: nat)
      ensures n == FailCountOf(pending, id)
    {
      n := 0;
      for i := 0 to |pending|
        invariant FailCountOf(pending, id) == FailCountOf(pending[i..], id)
      {
        assert pending[i..][1..] == pending[i + 1..];
        if pending[i].id == id {
          return pending[i].failCount;
        }
      }
    }

    /** Charges the job one more failure and puts it off by the back-off for its new count: the base after its
        first failure. Run alone with a working store. */
    method RecordPerJobFailure(id: nat, now: int)
      requires sys.Valid()
      modifies sys`chain, sys`steps, sys`log, sys.store
      ensures sys.Valid() && Later(old(sys.Now()), sys.Now(), sys.setup.me)
      ensures sys.log == old(sys.log).(hitches := sys.log.hitches) && old(sys.log.hitches) <= sys.log.hitches
      ensures Alone() ==> sys.store.snap == Charge(terms, old(sys.store.snap), id, now)
      ensures Alone() ==>
                && |sys.store.snap.pending| == |old(sys.store.snap.pending)|
                && forall i :: 0 <= i < |sys.store.snap.pending| ==>
                     var e := old(sys.store.snap.pending)[i];
                     sys.store.snap.pending[i] ==
                       if e.id != id then e
                       else PendingJob(id, e.completedAt, e.failCount + 1,
                                       now + ComputeBackoff(terms.base, terms.max, e.failCount + 1) / 1_000_000_000)
      ensures Alone() && 0 < terms.base <= terms.max < 0x8000_0000_0000_0000 ==>
                forall i :: 0 <= i < |sys.store.snap.pending| && old(sys.store.snap.pending)[i].id == id
                            && old(sys.store.snap.pending)[i].failCount == 0 ==>
                  sys.store.snap.pending[i].backoffUntil == now + terms.base / 1_000_000_000
    {
      hide Legal, Run, Later, Moves, Sound, ComputeBackoff, Bumped, SortById, Unique, FailCountOf;
      ghost var first := sys.Now();
      var pending := sys.Pending();
      ghost var read := sys.Now();
      if pending.None? {
        return;
      }
      var failCount := FailCount(pending.value, id);
      sys.SnapshotKnown();
      FailCountSorted(read.snap.pending, id);
      if 0 < terms.base <= terms.max < Half() {
        FirstDelay(terms.base, terms.max, 1);
      }
      var until := now + Seconds(ComputeBackoff(terms.base, terms.max, failCount + 1));
      ChargedAt(read.snap.pending, id, until);
      var ok := sys.RecordFailure(id, until);
      LaterThenLater(first, read, sys.Now(), sys.setup.me);
    }

    /** One job of the fallback. It is released exactly if its transaction went through, charged exactly if it
        could not be read or its transaction reverted, and left alone if that met a pause or if it is read as
        neither releasable nor settled. */
    method TryOne(id: nat, window: int, now: int) returns (o: Outcome)
      requires sys.Valid() && window == sys.Window() && now == sys.HeadTime() && Ours(sys.chain, sys.setup.me, [id])
      modifies sys`chain, sys`steps, sys`log, sys.store
      ensures sys.Valid() && Later(old(sys.Now()), sys.Now(), sys.setup.me)
      ensures Told(old(sys.log), sys.log, id, now, o)
      ensures o.Freed? || o.Gone? ==> Cleared(sys.chain, sys.setup.me, {id})
      ensures o.Missed? <==> id !in sys.log.answers
      ensures id in sys.log.answers ==>
                var job := sys.log.answers[id];
                && job.worker == sys.setup.me
                && (o.Freed? || o.Refused? || o.PauseHit? <==>
                      || (job.state.Completed? && job.completedAt + window <= now)
                      || (job.state.Resolved? && job.escrow > 0))
                && (o.Gone? || o.DropFailed? <==> job.state.Released? || job.state.TimedOut?)
      ensures Alone() ==> !o.DropFailed? && sys.store.snap == Tried(terms, old(sys.store.snap), id, now, o)
    {
      hide Shared.Valid, Legal, Run, Inv, Later, Moves, Sound, Without, Charge, Eligible, PutOff;
      ghost var first := sys.Now();
      var info := sys.GetJobState(id);
      ghost var read := sys.Now();
      OursLater(first, read, sys.setup.me, [id]);
      assert id in [id] && id in sys.chain.jobs;
      if info.None? {
        RecordPerJobFailure(id, now);
        LaterThenLater(first, read, sys.Now(), sys.setup.me);
        return Missed;
      }
      var eligible := false;
      match info.value.state {
        case Completed =>
          eligible := info.value.completedAt + window <= now;
        case Resolved =>
          eligible := info.value.escrow > 0;
        case _ =>
      }
      if info.value.state.Released? || info.value.state.TimedOut? {
        var removed := sys.Remove({id});
        LaterThenLater(first, read, sys.Now(), sys.setup.me);
        ClearedLater(read, sys.Now(), sys.setup.me, {id});
        return if removed then Gone else DropFailed;
      }
      if !eligible {
        return Deferred;
      }
      o := ReleaseOne(id, now);
      LaterThenLater(first, read, sys.Now(), sys.setup.me);
    }

    /** The transaction for one job read as releasable. */
    method ReleaseOne(id: nat, now: int) returns (o: Outcome)
      requires sys.Valid() && now == sys.HeadTime()
      requires id in sys.log.answers && sys.log.answers[id].worker == sys.setup.me
      requires || (sys.log.answers[id].state.Completed? && sys.log.answers[id].completedAt + sys.Window() <= now)
               || (sys.log.answers[id].state.Resolved? && sys.log.answers[id].escrow > 0)
      modifies sys`chain, sys`steps, sys`log, sys.store
      ensures sys.Valid() && Later(old(sys.Now()), sys.Now(), sys.setup.me)
      ensures o.Freed? || o.Refused? || o.PauseHit?
      ensures Told(old(sys.log), sys.log, id, now, o) && sys.log.answers == old(sys.log.answers)
      ensures o.Freed? ==> Cleared(sys.chain, sys.setup.me, {id})
      ensures Alone() ==> sys.store.snap == Tried(terms, old(sys.store.snap), id, now, o)
    {
      hide Shared.Valid, Legal, Run, Inv, Later, Without, Charge;
      ghost var first := sys.Now();
      var sent := sys.ReleaseJob(id);
      ghost var after := sys.Now();
      if sent.Paused? {
        return PauseHit;
      }
      if sent.Reverted? {
        RecordPerJobFailure(id, now);
        LaterThenLater(first, after, sys.Now(), sys.setup.me);
        return Refused;
      }
      assert [id][0] == id && multiset([id]) == multiset{id};
      var removed := sys.Remove({id});
      LaterThenLater(first, after, sys.Now(), sys.setup.me);
      ClearedLater(after, sys.Now(), sys.setup.me, {id});
      o := Freed;
    }

    /** Each job on its own after the batch reverted, in the cycle that so far did c0 to the pending set p0.
        Every job is released, dropped, charged once, or left as it was, as it was read and answered; the job
        that met a pause is left as it was, and so is the rest. */
    method PerJobFallback(batch: seq<nat>, window: int, now: int, ghost p0: seq<PendingJob>, ghost c0: Cycle)
      returns (out: CycleResult, ghost c: Cycle)
      requires sys.Valid() && window == sys.Window() && now == sys.HeadTime() == c0.at
      requires Within(batch, 0, c0, c0) && Finished(c0.dropped, sys.log.answers, sys.setup.me)
      requires Cleared(sys.chain, sys.setup.me, c0.Gone()) && Ours(sys.chain, sys.setup.me, batch) && window == c0.window
      requires Alone() ==> Balanced(terms, p0, c0, sys.store.snap.pending) && AllIn(batch, p0)
      modifies sys`chain, sys`steps, sys`log, sys.store
      ensures sys.Valid() && Later(old(sys.Now()), sys.Now(), sys.setup.me)
      ensures out.released + out.failed + out.dropped <= |batch|
      ensures Steady(batch, |batch|, c0, c, out, sys.setup.me, old(sys.log), sys.log)
      ensures Cleared(sys.chain, sys.setup.me, c.Gone())
      ensures Alone() ==> sys.store.snap == old(sys.store.snap).(pending := sys.store.snap.pending)
                          && Going(terms, p0, window, batch, |batch|, c, sys.store.snap.pending, sys.log.answers)
    {
      hide Shared.Valid, Legal, Run, Inv, Later, Moves, Sound, Within, Balanced, Steady, Going, AllIn, Cleared, Finished, Ours;
      SteadyAtFirst(batch, c0, sys.setup.me, sys.log);
      GoingAtFirst(p0, window, batch, c0);
      ghost var first, log := sys.Now(), sys.log;
      sys.Still();
      out, c := NoResult, c0;
      for i := 0 to |batch|
        invariant sys.Valid() && Later(first, sys.Now(), sys.setup.me)
        invariant out.released + out.failed + out.dropped <= i && !out.paused
        invariant Steady(batch, i, c0, c, out, sys.setup.me, log, sys.log) && Cleared(sys.chain, sys.setup.me, c.Gone())
        invariant Ours(sys.chain, sys.setup.me, batch)
        invariant Alone() ==> sys.store.snap == first.snap.(pending := sys.store.snap.pending)
                              && Going(terms, p0, window, batch, i, c, sys.store.snap.pending, sys.log.answers)
      {
        ghost var before := sys.Now();
        out, c := FallbackStep(batch, i, window, now, out, p0, c0, c, log);
        LaterThenLater(first, before, sys.Now(), sys.setup.me);
        if out.paused {
          SteadyEnds(batch, i + 1, c0, c, out, sys.setup.me, log, sys.log);
          GoingStops(p0, window, batch, i + 1, c0, c, out, log);
          return;
        }
      }
    }

    lemma GoingAtFirst(p0: seq<PendingJob>, window: int, batch: seq<nat>, c0: Cycle)
      ensures Alone() && Balanced(terms, p0, c0, sys.store.snap.pending) && AllIn(batch, p0) ==>
                Going(terms, p0, window, batch, 0, c0, sys.store.snap.pending, sys.log.answers)
    {
    }

    /** Nothing is claimed of the jobs after the one that met a pause. */
    lemma GoingStops(p0: seq<PendingJob>, window: int, batch: seq<nat>, i: nat, c0: Cycle, c: Cycle, out: CycleResult, a: Log)
      requires Steady(batch, i, c0, c, out, sys.setup.me, a, sys.log) && out.paused
      requires Alone() ==> Going(terms, p0, window, batch, i, c, sys.store.snap.pending, sys.log.answers)
      ensures Alone() ==> Going(terms, p0, window, batch, |batch|, c, sys.store.snap.pending, sys.log.answers)
    {
    }

    /** One round of the fallback's loop. */
    method FallbackStep(batch: seq<nat>, i: nat, window: int, now: int, out: CycleResult, ghost p0: seq<PendingJob>,
                        ghost c0: Cycle, ghost c: Cycle, ghost first: Log)
      returns (out': CycleResult, ghost c': Cycle)
      requires sys.Valid() && window == sys.Window() && now == sys.HeadTime() == c0.at && i < |batch| && !out.paused
      requires Ours(sys.chain, sys.setup.me, batch) && window == c0.window
      requires Steady(batch, i, c0, c, out, sys.setup.me, first, sys.log) && Cleared(sys.chain, sys.setup.me, c.Gone())
      requires Alone() ==> Going(terms, p0, window, batch, i, c, sys.store.snap.pending, sys.log.answers)
      modifies sys`chain, sys`steps, sys`log, sys.store
      ensures sys.Valid() && Later(old(sys.Now()), sys.Now(), sys.setup.me)
      ensures out'.released + out'.failed + out'.dropped <= out.released + out.failed + out.dropped + 1
      ensures Steady(batch, i + 1, c0, c', out', sys.setup.me, first, sys.log)
      ensures Cleared(sys.chain, sys.setup.me, c'.Gone()) && Ours(sys.chain, sys.setup.me, batch)
      ensures Alone() ==> sys.store.snap == old(sys.store.snap).(pending := sys.store.snap.pending)
                          && Going(terms, p0, window, batch, i + 1, c', sys.store.snap.pending, sys.log.answers)
    {
      SteadyMeans(batch, i, c0, c, out, sys.setup.me, first, sys.log);
      hide Shared.Valid, Legal, Run, Inv, Later, Moves, Sound, Ripe, Steady, Going, Cleared, Tried, Within, Enter, Told, Count;
      hide Ours, Fair, Eligible, Over;
      ghost var before, log := sys.Now(), sys.log;
      OursAt(sys.chain, sys.setup.me, batch, i);
      var o := TryOne(batch[i], window, now);
      OursLater(before, sys.Now(), sys.setup.me, batch);
      FairBy(o, batch[i], sys.log.answers, sys.setup.me, window, now);
      out' := Count(out, o);
      CountsOne(out, o);
      c' := Enter(terms, p0, c, batch[i], o);
      ClearedLater(before, sys.Now(), sys.setup.me, c.Gone());
      ClearedNext(sys.chain, sys.setup.me, c, terms, p0, batch[i], o);
      SteadyNext(batch, i, c0, c, out, sys.setup.me, first, log, sys.log, terms, p0, o);
      if Alone() {
        GoingNext(terms, p0, window, batch, i, c0, c, before.snap, sys.store.snap, log.answers, sys.log.answers, o);
      }
    }

    /** Selects, looks up and discards: the discarded jobs are dropped, and what is left to send is exactly the
        candidates answered as releasable. If every look-up was answered, none with a job to wait for, and the
        store worked, no candidate is left out of both. */
    method SelectAndDrop(now: int, window: int, pending: seq<PendingJob>)
      returns (candidates: nat, batch: seq<nat>, dropped: nat, ghost gone: set<nat>)
      requires sys.Valid() && Unique(pending) && window == sys.Window() && now == sys.HeadTime()
      requires forall j :: j in pending ==> j.id in sys.chain.jobs
      modifies sys`chain, sys`steps, sys`log, sys.store
      ensures sys.Valid() && Later(old(sys.Now()), sys.Now(), sys.setup.me)
      ensures candidates == |Candidates(pending, now, Cap(terms))| && |batch| + dropped <= candidates && |gone| == dropped
      ensures Distinct(batch) && forall id :: id in batch ==> id in Ids(Candidates(pending, now, Cap(terms)))
      ensures forall id :: id in batch ==> id !in gone && BinOf(sys.log.answers, id, sys.setup.me, window, now) == Release
      ensures gone <= Ids(Candidates(pending, now, Cap(terms)))
      ensures Cleared(sys.chain, sys.setup.me, gone) && Finished(gone, sys.log.answers, sys.setup.me)
      ensures Ours(sys.chain, sys.setup.me, batch)
      ensures Read(old(sys.log), sys.log, batch)
      ensures sys.log.hitches == old(sys.log.hitches) && sys.log.waits == old(sys.log.waits) ==>
                gone + SetOf(batch) == Ids(Candidates(pending, now, Cap(terms)))
      ensures Alone() ==>
                && sys.store.snap == old(sys.store.snap).(pending := Settle(old(sys.store.snap.pending), gone, map[]))
                && forall id :: id in Ids(Candidates(pending, now, Cap(terms))) && id !in gone && id !in batch ==>
                     id in sys.log.answers ==> Bin(sys.log.answers[id], sys.setup.me, window, now) == Keep
    {
      hide Shared.Valid, Legal, Run, Inv, Later, Moves, Sound, Settle, Without, Unique, Picked, Candidates, Bin, IdSeq;
      hide Cleared, Surveyed, SetOf, Ids, Finished, Read, Ours;
      ghost var first := sys.Now();
      var found := CollectCandidates(pending, now);
      candidates := |found|;
      CandidatesFrom(pending, now, Cap(terms));
      var drop;
      batch, drop := Partition(found, window, now);
      ghost var split, log := sys.Now(), sys.log;
      BinsMean(old(sys.log), log, found, sys.setup.me, window, now);
      WithoutIsSettle(split.snap.pending, SetOf(drop));
      SettleNothing(split.snap.pending);
      dropped, gone := 0, {};
      assert |drop| == 0 ==> SetOf(drop) == {};
      ClearedNone(sys.chain, sys.setup.me, log.answers);
      if |drop| > 0 {
        var removed := sys.Remove(SetOf(drop));
        LaterThenLater(first, split, sys.Now(), sys.setup.me);
        ClearedLater(split, sys.Now(), sys.setup.me, SetOf(drop));
        OursLater(split, sys.Now(), sys.setup.me, batch);
        ReadThen(old(sys.log), log, batch, removed);
        if removed {
          dropped, gone := |drop|, SetOf(drop);
        } else {
          ClearedNone(sys.chain, sys.setup.me, log.answers);
        }
      }
    }

    method RecordAttempt(now: int)
      requires sys.Valid()
      modifies sys`chain, sys`steps, sys`log, sys.store
      ensures sys.Valid() && Later(old(sys.Now()), sys.Now(), sys.setup.me)
      ensures exists ok :: sys.log == Noted(old(sys.log), ok)
      ensures Alone() ==> sys.store.snap == old(sys.store.snap).(lastReleaseTs := now)
    {
      var ok := sys.SetLastReleaseTs(now);
    }

    /** The batch transaction, and the fallback if it reverted for another reason than a pause, in the cycle
        that so far did c0 to the pending set p0. */
    method Send(batch: seq<nat>, window: int, now: int, ghost p0: seq<PendingJob>, ghost c0: Cycle)
      returns (out: CycleResult, ghost c: Cycle)
      requires sys.Valid() && window == sys.Window() && now == sys.HeadTime() == c0.at
      requires Within(batch, 0, c0, c0) && Finished(c0.dropped, sys.log.answers, sys.setup.me)
      requires Cleared(sys.chain, sys.setup.me, c0.Gone()) && Ours(sys.chain, sys.setup.me, batch) && window == c0.window
      requires forall id :: id in batch ==> BinOf(sys.log.answers, id, sys.setup.me, window, now) == Release
      requires Alone() ==> Balanced(terms, p0, c0, sys.store.snap.pending) && AllIn(batch, p0)
      modifies sys`chain, sys`steps, sys`log, sys.store
      ensures sys.Valid() && Later(old(sys.Now()), sys.Now(), sys.setup.me)
      ensures out.released + out.failed + out.dropped <= |batch|
      ensures Steady(batch, |batch|, c0, c, out, sys.setup.me, old(sys.log), sys.log)
      ensures |sys.log.replies| > |old(sys.log.replies)| && sys.log.replies[|old(sys.log.replies)|].ids == batch
      ensures out.batchReverted <==> !sys.log.replies[|old(sys.log.replies)|].sent.Ok?
      ensures !out.batchReverted ==> sys.log.answers == old(sys.log.answers)
      ensures sys.log.hitches == old(sys.log.hitches) ==> c == c0.(freed := SetOf(batch))
      ensures Cleared(sys.chain, sys.setup.me, c.Gone())
      ensures Alone() ==> sys.store.snap == old(sys.store.snap).(pending := sys.store.snap.pending)
                          && Going(terms, p0, window, batch, |batch|, c, sys.store.snap.pending, sys.log.answers)
    {
      hide Shared.Valid, Legal, Run, Inv, Later, Moves, Sound, Without, PutOff, Balanced, Within, BinOf, AllIn, Ripe;
      hide Steady, Going, Finished, Cleared, SetOf, Ours, Releasable;
      BatchEligible(batch, sys.log.answers, sys.setup.me, window, now);
      ghost var first, log := sys.Now(), sys.log;
      var sent := sys.ReleaseJobs(batch);
      ghost var after := sys.Now();
      SentOnce(batch, c0, sys.setup.me, log, sent);
      ClearedLater(first, after, sys.setup.me, c0.Gone());
      OursLater(first, after, sys.setup.me, batch);
      out, c := NoResult, c0;
      if sent.Ok? {
        c := c0.(freed := SetOf(batch));
        BatchCleared(batch, after.chain, sys.setup.me);
        var removed := sys.Remove(SetOf(batch));
        LaterThenLater(first, after, sys.Now(), sys.setup.me);
        SentWell(batch, c0, sys.setup.me, log, after.chain, removed);
        ClearedLater(after, sys.Now(), sys.setup.me, c.Gone());
        if Alone() {
          GoingFreed(p0, window, batch, c0, after.snap.pending, sys.log.answers);
        }
        out := out.(released := |batch|);
      } else if sent.Paused? {
        out, c := out.(batchReverted := true, paused := true), c0.(paused := true);
        if Alone() {
          GoingPaused(p0, window, batch, c0, sys.store.snap.pending, sys.log.answers);
        }
      } else {
        out, c := PerJobFallback(batch, window, now, p0, c0);
        LaterThenLater(first, after, sys.Now(), sys.setup.me);
        SteadyAfter(batch, c0, c, out, sys.setup.me, log, sys.log);
        out := out.(batchReverted := true);
      }
    }

    lemma GoingFreed(p0: seq<PendingJob>, window: int, batch: seq<nat>, c0: Cycle, pending: seq<PendingJob>,
                     answers: map<nat, JobInfo>)
      requires Within(batch, 0, c0, c0) && Balanced(terms, p0, c0, pending) && AllIn(batch, p0)
      ensures Going(terms, p0, window, batch, |batch|, c0.(freed := SetOf(batch)), Without(pending, SetOf(batch)), answers)
    {
      WithinAll(batch, c0);
      BalancedGone(terms, p0, c0, pending, c0.(freed := SetOf(batch)), SetOf(batch));
      hide Balanced;
    }

    lemma GoingPaused(p0: seq<PendingJob>, window: int, batch: seq<nat>, c0: Cycle, pending: seq<PendingJob>,
                      answers: map<nat, JobInfo>)
      requires Balanced(terms, p0, c0, pending) && AllIn(batch, p0)
      ensures Going(terms, p0, window, batch, |batch|, c0.(paused := true), pending, answers)
    {
      assert c0.(paused := true).Gone() == c0.Gone();
    }

    lemma GoingNobody(p0: seq<PendingJob>, window: int, batch: seq<nat>, c: Cycle, pending: seq<PendingJob>,
                      answers: map<nat, JobInfo>)
      requires AllIn(batch, p0) && batch == [] && Balanced(terms, p0, c, pending)
      ensures Going(terms, p0, window, batch, |batch|, c, pending, answers)
    {
    }

    /** An empty batch is not sent. */
    method SendIfAny(batch: seq<nat>, window: int, now: int, ghost p0: seq<PendingJob>, ghost gone: set<nat>)
      returns (out: CycleResult, ghost c: Cycle)
      requires sys.Valid() && window == sys.Window() && now == sys.HeadTime()
      requires Distinct(batch) && forall id :: id in batch ==> id !in gone
      requires forall id :: id in batch ==> BinOf(sys.log.answers, id, sys.setup.me, window, now) == Release
      requires Finished(gone, sys.log.answers, sys.setup.me) && Cleared(sys.chain, sys.setup.me, gone)
      requires Ours(sys.chain, sys.setup.me, batch)
      requires Alone() ==> Balanced(terms, p0, Cycle(now, window, false, {}, gone, map[]), sys.store.snap.pending) && AllIn(batch, p0)
      modifies sys`chain, sys`steps, sys`log, sys.store
      ensures sys.Valid() && Later(old(sys.Now()), sys.Now(), sys.setup.me)
      ensures out.released + out.failed + out.dropped <= |batch|
      ensures c.at == now && c.window == window && Steady(batch, |batch|, Cycle(now, window, false, {}, gone, map[]), c, out, sys.setup.me, old(sys.log), sys.log)
      ensures !out.batchReverted ==> sys.log.answers == old(sys.log.answers)
      ensures out.batchReverted <==>
                |sys.log.replies| > |old(sys.log.replies)| && !sys.log.replies[|old(sys.log.replies)|].sent.Ok?
      ensures sys.log.hitches == old(sys.log.hitches) ==> c == Cycle(now, window, false, SetOf(batch), gone, map[])
      ensures Cleared(sys.chain, sys.setup.me, c.Gone())
      ensures Alone() ==> sys.store.snap == old(sys.store.snap).(pending := sys.store.snap.pending)
                          && Going(terms, p0, window, batch, |batch|, c, sys.store.snap.pending, sys.log.answers)
    {
      hide Shared.Valid, Legal, Run, Inv, Later, Moves, Sound, Balanced, Within, BinOf, AllIn, Going, Finished, Cleared, Distinct, Steady;
      hide Ours;
      out, c := NoResult, Cycle(now, window, false, {}, gone, map[]);
      assert c.Gone() == gone;
      WithinStart(batch, now, window, gone);
      if |batch| > 0 {
        out, c := Send(batch, window, now, p0, c);
        SteadyIs(batch, Cycle(now, window, false, {}, gone, map[]), c, out, sys.setup.me, old(sys.log), sys.log);
      } else {
        sys.Still();
        SteadyAtFirst(batch, c, sys.setup.me, sys.log);
        if Alone() {
          GoingNobody(p0, window, batch, c, sys.store.snap.pending, sys.log.answers);
        }
      }
    }

    /** The cycle up to its conclusion: who was released, dropped or charged. */
    method SelectAndSend(now: int, window: int, pending: seq<PendingJob>) returns (result: CycleResult, ghost c: Cycle)
      requires sys.Valid() && Unique(pending) && window == sys.Window() && now == sys.HeadTime()
      requires forall j :: j in pending ==> j.id in sys.chain.jobs
      requires Alone() ==> pending == SortById(sys.store.snap.pending)
      modifies sys`chain, sys`steps, sys`log, sys.store
      ensures sys.Valid() && Later(old(sys.Now()), sys.Now(), sys.setup.me)
      ensures result.candidates == |Candidates(pending, now, Cap(terms))|
      ensures result.released + result.failed + result.dropped <= result.candidates
      ensures c.at == now && c.window == window && !result.backoffActive && (c.paused <==> result.paused)
      ensures Settled(Ids(Candidates(pending, now, Cap(terms))), c, result, sys.setup.me, old(sys.log), sys.log)
      ensures Cleared(sys.chain, sys.setup.me, c.Gone())
      ensures Alone() && !result.paused ==> NoneRipe(Ids(Candidates(pending, now, Cap(terms))), c, sys.log.answers, window)
      ensures Alone() && !result.batchReverted ==>
                NoneOver(Ids(Candidates(pending, now, Cap(terms))), c, sys.log.answers, sys.setup.me)
      ensures Alone() ==>
                && sys.store.snap == old(sys.store.snap).(pending := sys.store.snap.pending)
                && Balanced(terms, old(sys.store.snap.pending), c, sys.store.snap.pending)
    {
      hide Shared.Valid, Legal, Run, Inv, Later, Moves, Sound, Settle, Unique, Candidates, Ids, PutOff, SortById, Distinct;
      hide Balanced, BinOf, NoneRipe, NoneOver, Cleared, AllIn, Finished, Read, Steady, Going, Settled, SetOf, Ours, Releasable;
      ghost var p0 := sys.store.snap.pending;
      sys.SnapshotKnown();
      var candidates, batch, dropped;
      ghost var gone;
      ghost var first := sys.Now();
      candidates, batch, dropped, gone := SelectAndDrop(now, window, pending);
      ghost var selected := sys.Now();
      BalancedAtFirst(terms, p0, now, window, gone);
      BatchEligible(batch, sys.log.answers, sys.setup.me, window, now);
      ghost var log := sys.log;
      ghost var ids := Ids(Candidates(pending, now, Cap(terms)));
      if Alone() {
        AllDueIn(p0, now, Cap(terms), batch);
      }
      result, c := SendIfAny(batch, window, now, p0, gone);
      LaterThenLater(first, selected, sys.Now(), sys.setup.me);
      CycleEnds(batch, ids, gone, c, result, candidates, sys.setup.me, old(sys.log), log, sys.log);
      if Alone() {
        AloneEnds(terms, p0, batch, ids, window, gone, c, sys.store.snap.pending, result, sys.setup.me, log, sys.log);
      }
      SettledStays(ids, c, result.(candidates := candidates, dropped := dropped + result.dropped, backoffActive := false), 0,
                   sys.setup.me, old(sys.log), sys.log, true);
      result := result.(candidates := candidates, dropped := dropped + result.dropped, backoffActive := false);
    }

    /** One cycle. Each candidate ends as exactly one of: released, dropped, charged with one failure, or left as
        it was, as Settled says; nothing else in the file moves. A pause is counted once, opens the gate's
        back-off, and charges nobody. */
    method RunReleaseCycle(now: int, window: int, pending: seq<PendingJob>) returns (result: CycleResult, ghost c: Cycle)
      requires sys.Valid() && Unique(pending) && window == sys.Window() && now == sys.HeadTime()
      requires forall j :: j in pending ==> j.id in sys.chain.jobs
      requires Alone() ==> pending == SortById(sys.store.snap.pending)
      modifies sys`chain, sys`steps, sys`log, sys.store, `pauseEvents
      ensures sys.Valid() && Later(old(sys.Now()), sys.Now(), sys.setup.me)
      ensures result.candidates == |Candidates(pending, now, Cap(terms))|
      ensures result.released + result.failed + result.dropped <= result.candidates
      ensures c.at == now && c.window == window && !result.backoffActive && (c.paused <==> result.paused)
      ensures pauseEvents == old(pauseEvents) + if result.paused then 1 else 0
      ensures result.paused ==> result.nextAllowedAt == now + terms.pausedBackoff / 1_000_000_000
      ensures Settled(Ids(Candidates(pending, now, Cap(terms))), c, result, sys.setup.me, old(sys.log), sys.log)
      ensures Cleared(sys.chain, sys.setup.me, c.Gone())
      ensures Alone() && !result.paused ==> NoneRipe(Ids(Candidates(pending, now, Cap(terms))), c, sys.log.answers, window)
      ensures Alone() ==> Accounts(terms, old(sys.store.snap), sys.store.snap, c)
      // on the fields answered: what is sent, what is left alone, and what does not stay
      ensures old(sys.log.replies) <= sys.log.replies
      ensures forall k, id :: |old(sys.log.replies)| <= k < |sys.log.replies| && id in sys.log.replies[k].ids ==>
                && id in sys.log.replies[k].read
                && var job := sys.log.replies[k].read[id];
                   && job.worker == sys.setup.me
                   && (|| (job.state.Completed? && job.completedAt + window <= now)
                       || (job.state.Resolved? && job.escrow > 0))
      ensures forall id :: id in sys.log.answers && sys.log.answers[id].worker == sys.setup.me ==>
                var job := sys.log.answers[id];
                (|| job.state.Submitted? || job.state.Acknowledged? || job.state.Disputed?
                 || (job.state.Completed? && job.completedAt + window > now)) ==>
                  id !in c.freed && id !in c.dropped && id !in c.failed
      ensures Alone() && !result.paused ==>
                forall e :: e in sys.store.snap.pending && e.id in Ids(Candidates(pending, now, Cap(terms)))
                            && e.id in sys.log.answers ==>
                  var job := sys.log.answers[e.id];
                  && ((|| (job.state.Completed? && job.completedAt + window <= now)
                       || (job.state.Resolved? && job.escrow > 0)) ==>
                        e.id in c.failed && e.backoffUntil == c.failed[e.id])
                  && (!result.batchReverted ==>
                        && job.worker == sys.setup.me && !job.state.Released? && !job.state.TimedOut?
                        && !(job.state.Resolved? && job.escrow == 0))
    {
      hide Shared.Valid, Legal, Run, Inv, Later, Moves, Sound, Candidates, Ids, Balanced, Accounts, Seconds, SortById, After;
      hide NoneRipe, NoneOver, Cleared, Settled;
      ghost var first := sys.Now();
      result, c := SelectAndSend(now, window, pending);
      ghost var tried, log, found := sys.Now(), sys.log, result;
      if result.paused {
        var until := ApplyPauseBackoff(now);
        result := result.(nextAllowedAt := until);
      } else {
        RecordAttempt(now);
      }
      ghost var ok :| sys.log == Noted(log, ok);
      SettledStays(Ids(Candidates(pending, now, Cap(terms))), c, found, result.nextAllowedAt, sys.setup.me, old(sys.log), log, ok);
      LaterThenLater(first, tried, sys.Now(), sys.setup.me);
      ClearedLater(tried, sys.Now(), sys.setup.me, c.Gone());
      AsAnswered(Ids(Candidates(pending, now, Cap(terms))), c, result, sys.setup.me, old(sys.log), sys.log);
      if Alone() {
        AccountsBy(terms, old(sys.store.snap), tried.snap, sys.store.snap, c);
        if !result.paused {
          LeftPending(terms, old(sys.store.snap), sys.store.snap, c, Ids(Candidates(pending, now, Cap(terms))),
                      sys.log.answers, sys.setup.me);
        }
      }
    }

    /** The contract's dispute window in seconds, or the configured override. */
    method DisputeWindow() returns (window: Option<int>)
      requires sys.Valid()
      modifies sys`chain, sys`steps, sys`log, sys`disputeWindow, sys.store
      ensures sys.Valid() && Later(old(sys.Now()), sys.Now(), sys.setup.me)
      ensures sys.quiet ==> sys.store.snap == old(sys.store.snap)
      ensures sys.log == Noted(old(sys.log), window.Some?) && (window.Some? ==> window.value == sys.Window())
      ensures sys.setup.windowOverride > 0 ==> window == Some(sys.setup.windowOverride / 1_000_000_000)
      ensures sys.setup.windowOverride <= 0 && window.Some? ==> window.value == sys.disputeWindow
    {
      if sys.setup.windowOverride > 0 {
        sys.Still();
        return Some(Seconds(sys.setup.windowOverride));
      }
      window := sys.GetDisputeWindow();
    }

    /** The candidates of a cycle at head time `at`. */
    ghost function Considered(s: Snapshot, at: int): set<nat> {
      Ids(Candidates(SortById(s.pending), at, Cap(terms)))
    }

    lemma Chosen(s: Snapshot, pending: seq<PendingJob>, at: int)
      ensures pending == SortById(s.pending) ==> Ids(Candidates(pending, at, Cap(terms))) == Considered(s, at)
    {
    }

    /** A cycle run alone with a working store is a fitting cycle of module ReleaseCycles, and the state file is
        what that cycle leaves. */
    ghost predicate Reported(before: Snapshot, after: Snapshot, c: Cycle) {
      Fits(terms, before, c) && Accounts(terms, before, after, c)
    }

    lemma ReportedNext(before: Snapshot, after: Snapshot, c: Cycle)
      requires Reported(before, after, c)
      ensures Fit(terms, before, Ran(c)) && Next(terms, before, Ran(c)) == after
    {
    }

    /** The CLI's cycle. None is an infrastructure error. It runs whenever every read goes through and the gate
        is open at the head time read. */
    method RunOnce() returns (result: Option<CycleResult>, ghost c: Option<Cycle>)
      requires sys.Valid()
      modifies sys, sys.store, `pauseEvents
      ensures sys.Valid() && old(sys.chain.time) <= sys.chain.time
      ensures old(sys.log.hitches) <= sys.log.hitches && old(sys.log.waits) <= sys.log.waits
      ensures c.Some? <==> result.Some? && !result.value.backoffActive
      ensures result.None? ==> sys.log.hitches > old(sys.log.hitches)
      ensures result.Some? ==> |sys.heads| == |old(sys.heads)| + 1 && old(sys.heads) <= sys.heads
      ensures result.Some? ==> old(sys.chain.time) <= sys.HeadTime()
      ensures result.Some? && result.value.backoffActive ==> sys.HeadTime() < result.value.nextAllowedAt
      ensures result.Some? && result.value.backoffActive && sys.quiet ==>
                result.value.nextAllowedAt == old(sys.store.snap.nextAllowed)
      ensures c.None? ==> sys.log == old(sys.log).(hitches := sys.log.hitches)
      ensures c.None? && sys.quiet ==> sys.store.snap == old(sys.store.snap)
      ensures pauseEvents == old(pauseEvents) + if c.Some? && c.value.paused then 1 else 0
      ensures c.Some? ==>
                && c.value.at == sys.HeadTime()
                && result.value.released + result.value.failed + result.value.dropped <= result.value.candidates
                && exists ids :: Settled(ids, c.value, result.value, sys.setup.me, old(sys.log), sys.log)
                                 && (sys.quiet ==> ids == Considered(old(sys.store.snap), c.value.at))
      ensures c.Some? && Alone() ==> Reported(old(sys.store.snap), sys.store.snap, c.value)
    {
      hide Shared.Valid, Legal, Run, Inv, Later, Moves, Sound, Candidates, Seconds, SortById, Accounts, Fits, Settled, Ids;
      hide NoneRipe, Cleared, Finished, Scheduler.Reported, Unique, Scheduler.Considered, Eligible, Over, Apply;
      c := None;
      ghost var first, log := sys.Now(), sys.log;
      var head := sys.Head();
      sys.LaterTime(first);
      if head.None? {
        return None, None;
      }
      var now := head.value.1;
      ghost var at := sys.Now();
      var nextAllowed := sys.GetNextAllowedAttempt();
      sys.LaterTime(at);
      if nextAllowed.None? {
        return None, None;
      }
      if now < nextAllowed.value {
        return Some(NoResult.(backoffActive := true, nextAllowedAt := nextAllowed.value)), None;
      }
      at := sys.Now();
      var window := DisputeWindow();
      sys.LaterTime(at);
      if window.None? {
        return None, None;
      }
      at := sys.Now();
      var pending := sys.Pending();
      sys.LaterTime(at);
      if pending.None? {
        return None, None;
      }
      ghost var before := sys.Now();
      sys.SnapshotKnown();
      var r;
      ghost var cycle;
      assert sys.log == log;
      r, cycle := RunReleaseCycle(now, window.value, pending.value);
      sys.LaterTime(before);
      result, c := Some(r), Some(cycle);
      ghost var ids := Ids(Candidates(pending.value, now, Cap(terms)));
      SettledMeans(ids, cycle, r, sys.setup.me, log, sys.log);
      assert Settled(ids, cycle, r, sys.setup.me, old(sys.log), sys.log);
      Chosen(before.snap, pending.value, now);
      if Alone() {
        ReportedBy(before.snap, sys.store.snap, ids, r, cycle, sys.setup.me, log, sys.log);
      }
    }

    lemma ReportedBy(before: Snapshot, after: Snapshot, ids: set<nat>, r: CycleResult, c: Cycle, me: nat, a: Log, b: Log)
      requires Unique(before.pending) && Accounts(terms, before, after, c) && c.at >= before.nextAllowed
      requires ids == Considered(before, c.at) && Settled(ids, c, r, me, a, b)
      ensures Reported(before, after, c)
    {
      hide Founded, Grounded, Heard, Eligible, Over;
      CandidatesAreDue(before.pending, c.at, Cap(terms));
      hide Ids, Candidates, SortById, Settle, PutOff, FailCountOf, Unique, Witnessed, Finished, Counts, Due;
    }

    /** If nothing failed and no candidate was to be waited for, the cycle was a full one. */
    lemma CalmIsFull(before: Snapshot, after: Snapshot, r: CycleResult, c: Cycle, me: nat, a: Log, b: Log)
      requires Reported(before, after, c) && Settled(Considered(before, c.at), c, r, me, a, b)
      requires b.hitches == a.hitches && b.waits == a.waits
      ensures after.pending == FullCycle(terms, before.pending, c.at) && after.nextAllowed == before.nextAllowed
    {
      hide Ids, Candidates, SortById, Settle, Without, PutOff, Witnessed, Finished, Counts, Fits, FullCycle, Founded, Grounded;
      CycleIsFull(terms, before, c);
    }

    method CountReady(pending: seq<PendingJob>, now: int) returns (n: nat)
      ensures n == Ready(pending, now)
    {
      n := 0;
      for i := 0 to |pending|
        invariant n + Ready(pending[i..], now) == Ready(pending, now)
      {
        assert pending[i..][1..] == pending[i + 1..];
        if pending[i].backoffUntil > now {
          continue;
        }
        n := n + 1;
      }
    }

    /** Whether the probe must run a cycle at head time `at`: enough jobs are out of backoff or the interval since
        the last release is over. */
    ghost predicate Triggered(s: Snapshot, at: int) {
      || |set e | e in s.pending && e.backoffUntil <= at| >= terms.batchThreshold
      || at - s.lastReleaseTs >= terms.interval / 1_000_000_000
    }

    lemma TriggeredIff(s: Snapshot, at: int)
      requires Unique(s.pending)
      ensures Triggered(s, at) <==>
                Ready(SortById(s.pending), at) >= terms.batchThreshold || at - s.lastReleaseTs >= Seconds(terms.interval)
    {
      ReadySorted(s.pending, at);
    }

    /** The periodic probe: the same gate, and then a cycle exactly if one is due. */
    method Tick() returns (ghost c: Option<Cycle>, ghost r: CycleResult)
      requires sys.Valid()
      modifies sys, sys.store, `pauseEvents
      ensures sys.Valid()
      ensures c.None? ==> sys.log == old(sys.log).(hitches := sys.log.hitches)
      ensures c.None? && sys.quiet ==> sys.store.snap == old(sys.store.snap)
      ensures c.None? && sys.quiet ==>
                || sys.log.hitches > old(sys.log.hitches)
                || sys.HeadTime() < old(sys.store.snap.nextAllowed)
                || !Triggered(old(sys.store.snap), sys.HeadTime())
      ensures c.Some? && sys.quiet ==> Triggered(old(sys.store.snap), c.value.at)
      ensures pauseEvents == old(pauseEvents) + if c.Some? && c.value.paused then 1 else 0
      ensures c.Some? ==>
                && c.value.at == sys.HeadTime()
                && exists ids :: Settled(ids, c.value, r, sys.setup.me, old(sys.log), sys.log)
                                 && (sys.quiet ==> ids == Considered(old(sys.store.snap), c.value.at))
      ensures c.Some? && Alone() ==> Reported(old(sys.store.snap), sys.store.snap, c.value)
    {
      hide Shared.Valid, Legal, Run, Inv, Later, Moves, Sound, Candidates, Seconds, SortById, Accounts, Fits, Settled, Ids, Ready;
      hide NoneRipe, Cleared, Finished, Scheduler.Reported, Unique, Scheduler.Considered, Scheduler.Triggered, Eligible, Over;
      c, r := None, NoResult;
      ghost var log := sys.log;
      var head := sys.Head();
      if head.None? {
        return;
      }
      var now := head.value.1;
      var nextAllowed := sys.GetNextAllowedAttempt();
      if nextAllowed.None? || now < nextAllowed.value {
        return;
      }
      var window := DisputeWindow();
      if window.None? {
        return;
      }
      var pending := sys.Pending();
      if pending.None? {
        return;
      }
      ghost var read := sys.Now();
      sys.SnapshotKnown();
      var lastReleaseTs := sys.GetLastReleaseTs();
      sys.StillKnown(read, pending.value);
      if lastReleaseTs.None? {
        return;
      }
      TriggeredIff(read.snap, now);
      var readyNow := CountReady(pending.value, now);
      var dueByTime := now - lastReleaseTs.value >= Seconds(terms.interval);
      if readyNow < terms.batchThreshold && !dueByTime {
        return;
      }
      ghost var before := sys.Now();
      var result;
      ghost var cycle;
      result, cycle := RunReleaseCycle(now, window.value, pending.value);
      c, r := Some(cycle), result;
      ghost var ids := Ids(Candidates(pending.value, now, Cap(terms)));
      assert Settled(ids, cycle, r, sys.setup.me, old(sys.log), sys.log);
      Chosen(before.snap, pending.value, now);
      if Alone() {
        ReportedBy(before.snap, sys.store.snap, ids, result, cycle, sys.setup.me, log, sys.log);
      }
    }
  }

  /** k cycles of the CLI, one after the other. If every call of theirs went through, no job they looked at was
      to be waited for, and the gate was open at the start, each of them ran, at the head time it read, and
      together they drained the backlog as Drained says: with all of n jobs out of backoff, max(0, n - k m)
      are left for the batch cap m. */
  method RunTimes(s: Scheduler, k: nat) returns (ghost times: seq<int>)
    requires s.sys.Valid() && s.Alone()
    modifies s, s.sys, s.sys.store
    ensures s.sys.Valid()
    ensures old(s.sys.log.hitches) <= s.sys.log.hitches && old(s.sys.log.waits) <= s.sys.log.waits
    ensures s.sys.log.hitches == old(s.sys.log.hitches) && s.sys.log.waits == old(s.sys.log.waits)
            && old(s.sys.store.snap.nextAllowed) <= old(s.sys.chain.time) ==>
              && TimesOf(old(s.sys.heads), s.sys.heads, times) && |times| == k
              && s.sys.store.snap.pending == Drained(s.terms, old(s.sys.store.snap.pending), times)
              && (AllDue(old(s.sys.store.snap.pending), old(s.sys.chain.time)) ==>
                    var n := |old(s.sys.store.snap.pending)|;
                    |s.sys.store.snap.pending| == if n <= k * Cap(s.terms) then 0 else n - k * Cap(s.terms))
  {
    hide Shared.Valid, Legal, Run, Inv, Later, Moves, Sound, Unique, Settled, Drained, FullCycle, AllDue, Scheduler.Reported;
    hide Scheduler.Considered;
    s.sys.SnapshotKnown();
    DrainedNone(s.terms, s.sys.store.snap.pending);
    times := [];
    ghost var first, from, log, heads := s.sys.store.snap, s.sys.chain.time, s.sys.log, s.sys.heads;
    for i := 0 to k
      invariant s.sys.Valid() && from <= s.sys.chain.time
      invariant log.hitches <= s.sys.log.hitches && log.waits <= s.sys.log.waits
      invariant s.sys.log.hitches == log.hitches && s.sys.log.waits == log.waits && first.nextAllowed <= from ==>
                  && TimesOf(heads, s.sys.heads, times) && |times| == i && (forall j :: 0 <= j < i ==> from <= times[j])
                  && s.sys.store.snap.pending == Drained(s.terms, first.pending, times)
                  && s.sys.store.snap.nextAllowed == first.nextAllowed
    {
      ghost var before, was := s.sys.store.snap, s.sys.log;
      var result;
      ghost var c;
      result, c := s.RunOnce();
      if s.sys.log.hitches == was.hitches && s.sys.log.waits == was.waits && c.Some? {
        s.CalmIsFull(before, s.sys.store.snap, result.value, c.value, s.sys.setup.me, was, s.sys.log);
        DrainedThen(s.terms, first.pending, times, c.value.at);
        times := times + [c.value.at];
      }
    }
    DrainedSize(s.terms, first.pending, from, times);
  }

  /** The times of the heads read since. */
  ghost predicate TimesOf(before: seq<(nat, int)>, after: seq<(nat, int)>, times: seq<int>) {
    && |after| == |before| + |times| && before <= after
    && forall i :: 0 <= i < |times| ==> times[i] == after[|before| + i].1
  }

  lemma DrainedNone(t: Terms, p: seq<PendingJob>)
    ensures Drained(t, p, []) == p
  {
  }

  lemma DrainedSize(t: Terms, p: seq<PendingJob>, from: int, times: seq<int>)
    requires Unique(p)
    ensures AllDue(p, from) && (forall j :: 0 <= j < |times| ==> from <= times[j]) ==>
              |Drained(t, p, times)| == if |p| <= |times| * Cap(t) then 0 else |p| - |times| * Cap(t)
  {
    if AllDue(p, from) && (forall j :: 0 <= j < |times| ==> from <= times[j]) {
      DrainBound(t, p, times);
    }
  }

  // ---------------------------------------------------------------- a worker's whole life

  datatype Act = Cli | Probe | Completed(id: nat, completedAt: int)

  /** The jobs the cycles of a history released. */
  function FreedIn(hs: seq<Happening>): multiset<nat> {
    if hs == [] then multiset{}
    else FreedIn(hs[..|hs| - 1]) + if hs[|hs| - 1].Ran? then multiset(hs[|hs| - 1].c.freed) else multiset{}
  }

  function PausedIn(rs: seq<Reply>): nat {
    if rs == [] then 0 else PausedIn(rs[..|rs| - 1]) + if rs[|rs| - 1].sent.Paused? then 1 else 0
  }

  /** From the n-th reply on: nothing is sent within p seconds of a pause, and `gate` keeps it so. */
  ghost predicate Gated(p: int, n: nat, rs: seq<Reply>, gate: int) {
    && (forall i, j :: n <= i < j < |rs| && rs[i].sent.Paused? ==> rs[j].at >= rs[i].at + p)
    && (forall i :: n <= i < |rs| && rs[i].sent.Paused? ==> gate >= rs[i].at + p)
  }

  /** A life from snapshot `first` and log a to snapshot `now` and log b: its history is one of module
      ReleaseCycles and leaves the state file as it is; the jobs the contract released are those of its
      cycles, and the pauses the contract answered are those of its paused cycles. */
  ghost predicate Life(t: Terms, first: Snapshot, a: Log, hs: seq<Happening>, now: Snapshot, b: Log) {
    && History(t, first, hs) && Leaves(t, first, hs) == now
    && b.released == a.released + FreedIn(hs)
    && a.replies <= b.replies && PausedIn(b.replies) == PausedIn(a.replies) + Pauses(hs)
    && (Sane(t) ==> Gated(Seconds(t.pausedBackoff), |a.replies|, b.replies, now.nextAllowed))
  }

  lemma {:induction false} PausedMore(c: Cycle, a: seq<Reply>, b: seq<Reply>)
    requires Heard(c, a, b)
    ensures PausedIn(b) == PausedIn(a) + if c.paused then 1 else 0
    decreases |b|
  {
    if |b| > |a| {
      var rest := b[..|b| - 1];
      assert Heard(c.(paused := false), a, rest);
      PausedMore(c.(paused := false), a, rest);
    } else {
      assert a == b;
    }
  }

  lemma GatedNext(p: int, n: nat, c: Cycle, a: seq<Reply>, b: seq<Reply>, gate: int)
    requires p >= 0 && n <= |a| && Gated(p, n, a, gate) && Heard(c, a, b) && c.at >= gate
    ensures Gated(p, n, b, if c.paused then c.at + p else gate)
  {
    assert forall i :: 0 <= i < |a| ==> b[i] == a[i];
  }

  lemma HistoryGrows(hs: seq<Happening>, h: Happening)
    ensures Pauses(hs + [h]) == Pauses(hs) + if h.Ran? && h.c.paused then 1 else 0
    ensures FreedIn(hs + [h]) == FreedIn(hs) + if h.Ran? then multiset(h.c.freed) else multiset{}
  {
    assert (hs + [h])[..|hs|] == hs;
  }

  lemma LifeRan(s: Scheduler, first: Snapshot, a: Log, hs: seq<Happening>, before: Snapshot, b: Log, after: Snapshot, d: Log,
                c: Cycle, ids: set<nat>, r: CycleResult, me: nat)
    requires Life(s.terms, first, a, hs, before, b) && s.Reported(before, after, c) && Settled(ids, c, r, me, b, d)
    ensures Life(s.terms, first, a, hs + [Ran(c)], after, d)
    ensures Pauses(hs + [Ran(c)]) == Pauses(hs) + if c.paused then 1 else 0
  {
    var t := s.terms;
    assert Heard(c, b.replies, d.replies) && d.released == b.released + multiset(c.freed);
    assert c.at >= before.nextAllowed && after.nextAllowed == if c.paused then c.at + Seconds(t.pausedBackoff) else before.nextAllowed;
    s.ReportedNext(before, after, c);
    hide Settled, Heard, History, Leaves, Fits, Accounts, Pauses, FreedIn, PausedIn, Gated, Next;
    HistoryThen(t, first, hs, Ran(c));
    HistoryGrows(hs, Ran(c));
    PausedMore(c, b.replies, d.replies);
    HeardMore(c, b.replies, d.replies);
    if Sane(t) {
      GatedNext(Seconds(t.pausedBackoff), |a.replies|, c, b.replies, d.replies, before.nextAllowed);
    }
  }

  lemma HeardMore(c: Cycle, a: seq<Reply>, b: seq<Reply>)
    requires Heard(c, a, b)
    ensures a <= b
  {
  }

  lemma LifeMarked(t: Terms, first: Snapshot, a: Log, hs: seq<Happening>, before: Snapshot, b: Log, id: nat, completedAt: int)
    requires Life(t, first, a, hs, before, b)
    ensures Life(t, first, a, hs + [Marked(id, completedAt)], before.(pending := Added(before.pending, id, completedAt)), b)
    ensures Pauses(hs + [Marked(id, completedAt)]) == Pauses(hs)
  {
    HistoryThen(t, first, hs, Marked(id, completedAt));
    HistoryGrows(hs, Marked(id, completedAt));
  }

  lemma LifeStays(t: Terms, first: Snapshot, a: Log, hs: seq<Happening>, now: Snapshot, b: Log, d: Log)
    requires Life(t, first, a, hs, now, b) && d == b.(hitches := d.hitches)
    ensures Life(t, first, a, hs, now, d)
  {
  }

  /** A worker's whole life with one state file: CLI cycles, probes and completed jobs, one after the other.
      After the contract answered a pause, to the batch or in the fallback, nothing is sent to it before the
      back-off is over, and no cycle runs; each pause it answered was counted once; and the jobs it released
      are those of the cycles, each cycle leaving the state file as its entry of the history says. */
  method Service(s: Scheduler, acts: seq<Act>) returns (ghost hs: seq<Happening>)
    requires s.sys.Valid() && s.Alone()
    modifies s, s.sys, s.sys.store
    ensures s.sys.Valid() && old(s.sys.log.replies) <= s.sys.log.replies
    ensures History(s.terms, old(s.sys.store.snap), hs)
    ensures Leaves(s.terms, old(s.sys.store.snap), hs) == s.sys.store.snap
    ensures s.sys.log.released == old(s.sys.log.released) + FreedIn(hs)
    ensures PausedIn(s.sys.log.replies) - PausedIn(old(s.sys.log.replies)) == Pauses(hs) == s.pauseEvents - old(s.pauseEvents)
    ensures Sane(s.terms) ==>
              forall i: nat, j: nat :: i < j < |hs| && hs[i].Ran? && hs[i].c.paused && hs[j].Ran? ==>
                hs[j].c.at >= hs[i].c.at + Seconds(s.terms.pausedBackoff)
    ensures Sane(s.terms) ==>
              var rs := s.sys.log.replies;
              forall i: nat, j: nat :: |old(s.sys.log.replies)| <= i < j < |rs| && rs[i].sent.Paused? ==>
                rs[j].at >= rs[i].at + Seconds(s.terms.pausedBackoff)
  {
    hs := [];
    ghost var first, log := s.sys.store.snap, s.sys.log;
    for k := 0 to |acts|
      invariant s.sys.Valid() && Life(s.terms, first, log, hs, s.sys.store.snap, s.sys.log)
      invariant s.pauseEvents == old(s.pauseEvents) + Pauses(hs)
    {
      hs := Serve(s, acts[k], first, log, hs);
    }
    if Sane(s.terms) {
      forall i: nat, j: nat | i < j < |hs| && hs[i].Ran? && hs[i].c.paused && hs[j].Ran?
        ensures hs[j].c.at >= hs[i].c.at + Seconds(s.terms.pausedBackoff)
      {
        PauseGate(s.terms, first, hs, i, j);
      }
    }
  }

  method Serve(s: Scheduler, act: Act, ghost first: Snapshot, ghost log: Log, ghost hs: seq<Happening>)
    returns (ghost hs': seq<Happening>)
    requires s.sys.Valid() && s.Alone() && Life(s.terms, first, log, hs, s.sys.store.snap, s.sys.log)
    modifies s, s.sys, s.sys.store
    ensures s.sys.Valid() && Life(s.terms, first, log, hs', s.sys.store.snap, s.sys.log)
    ensures s.pauseEvents - old(s.pauseEvents) == Pauses(hs') - Pauses(hs)
  {
    hide Shared.Valid, Legal, Run, Inv, Later, Moves, Sound, History, Leaves, Fits, Accounts, Next, Pauses, Life, Settled, s.Reported;
    hs' := hs;
    ghost var before, was := s.sys.store.snap, s.sys.log;
    ghost var c: Option<Cycle>, r;
    match act {
      case Cli =>
        var result;
        result, c := s.RunOnce();
        r := if result.Some? then result.value else NoResult;
      case Probe =>
        c, r := s.Tick();
      case Completed(id, completedAt) =>
        c, r := None, NoResult;
        if id in s.sys.chain.jobs {
          var ok := s.sys.AddEligible(id, completedAt);
          if ok {
            LifeMarked(s.terms, first, log, hs, before, was, id, completedAt);
            hs' := hs + [Marked(id, completedAt)];
          }
        }
    }
    if c.Some? {
      ghost var ids :| Settled(ids, c.value, r, s.sys.setup.me, was, s.sys.log);
      LifeRan(s, first, log, hs, before, was, s.sys.store.snap, s.sys.log, c.value, ids, r, s.sys.setup.me);
      hs' := hs + [Ran(c.value)];
    } else {
      LifeStays(s.terms, first, log, hs', s.sys.store.snap, was, s.sys.log);
    }
  }
}

/**
 The bookkeeping behind one release cycle: what the fallback does to one job, the running account of who
 was released, dropped or charged, how it agrees with what the contract replied, and what a finished
 cycle adds up to.
 */
module ReleaseBooks {
  import opened Common
  import opened ReleaseStore
  import opened ReleaseWorlds
  import opened ReleaseCycles
  import opened Backoffs

  datatype CycleResult = CycleResult(candidates: nat, released: nat, failed: nat, dropped: nat,
                                     paused: bool, batchReverted: bool, backoffActive: bool, nextAllowedAt: int)

  const NoResult := CycleResult(0, 0, 0, 0, false, false, false, 0)

  /** How the fallback left one job: released; found settled and dropped; found settled but not dropped; not
      to be released now; not read; its own transaction reverted; or its own transaction met a pause. */
  datatype Outcome = Freed | Gone | DropFailed | Deferred | Missed | Refused | PauseHit {
    predicate Charges() {
      Missed? || Refused?
    }
  }

  // ---------------------------------------------------------------- the fallback's outcomes

  function Charge(t: Terms, s: Snapshot, id: nat, now: int): Snapshot {
    s.(pending := Bumped(s.pending, id, PutOff(t, FailCountOf(s.pending, id) + 1, now)))
  }

  /** The state file after one job of the fallback. */
  function Tried(t: Terms, s: Snapshot, id: nat, now: int, o: Outcome): Snapshot {
    if o.Freed? || o.Gone? then s.(pending := Without(s.pending, {id}))
    else if o.Charges() then Charge(t, s, id, now)
    else s
  }

  /** The cycle so far, with one more job tried; p0 is the pending set the cycle started from. */
  function Enter(t: Terms, p0: seq<PendingJob>, c: Cycle, id: nat, o: Outcome): Cycle {
    match o
    case Freed => c.(freed := c.freed + {id})
    case Gone => c.(dropped := c.dropped + {id})
    case PauseHit => c.(paused := true)
    case _ => if o.Charges() then c.(failed := c.failed[id := PutOff(t, FailCountOf(p0, id) + 1, c.at)]) else c
  }

  /** The partial result of the fallback, with one more job tried. */
  function Count(out: CycleResult, o: Outcome): CycleResult {
    match o
    case Freed => out.(released := out.released + 1)
    case Gone => out.(dropped := out.dropped + 1)
    case PauseHit => out.(paused := true)
    case _ => if o.Charges() then out.(failed := out.failed + 1) else out
  }

  lemma CountsOne(out: CycleResult, o: Outcome)
    ensures var out' := Count(out, o);
            out'.released + out'.failed + out'.dropped <= out.released + out.failed + out.dropped + 1
  {
  }

  function ReplyOf(id: nat, at: int, o: Outcome, read: map<nat, JobInfo>): seq<Reply> {
    match o
    case Freed => [Reply([id], Sent.Ok, at, read)]
    case Refused => [Reply([id], Sent.Reverted, at, read)]
    case PauseHit => [Reply([id], Sent.Paused, at, read)]
    case _ => []
  }

  /** What was told while one job was tried: no job but this one was read, and it was released, refused, paused
      or not read exactly as its outcome says. */
  ghost predicate Told(a: Log, b: Log, id: nat, at: int, o: Outcome) {
    && b.answers - {id} == a.answers - {id}
    && b.replies == a.replies + ReplyOf(id, at, o, b.answers)
    && b.released == a.released + (if o.Freed? then multiset{id} else multiset{})
    && b.missed == a.missed + (if o.Missed? then multiset{id} else multiset{})
    && b.reverted == a.reverted + (if o.Refused? then multiset{id} else multiset{})
    && a.hitches <= b.hitches && a.waits <= b.waits
  }

  /** Each outcome has its ground in what the job was last read as. */
  ghost predicate Fair(o: Outcome, id: nat, answers: map<nat, JobInfo>, me: nat, window: int, now: int) {
    match o
    case Missed => id !in answers
    case Deferred => id in answers && !Ripe(answers[id], window, now)
    case Gone => id in answers && Over(answers[id])
    case DropFailed => id in answers && Over(answers[id])
    case _ => id in answers && answers[id].worker == me && Eligible(answers[id], window, now)
  }

  lemma FairBy(o: Outcome, id: nat, answers: map<nat, JobInfo>, me: nat, window: int, now: int)
    requires o.Missed? <==> id !in answers
    requires id in answers ==>
               && answers[id].worker == me
               && (o.Freed? || o.Refused? || o.PauseHit? <==>
                     || (answers[id].state.Completed? && answers[id].completedAt + window <= now)
                     || (answers[id].state.Resolved? && answers[id].escrow > 0))
               && (o.Gone? || o.DropFailed? <==> answers[id].state.Released? || answers[id].state.TimedOut?)
    ensures Fair(o, id, answers, me, window, now)
    ensures o.Deferred? ==> id in answers && !Ripe(answers[id], window, now)
  {
  }

  // ---------------------------------------------------------------- the books of a cycle

  /** The pending set is what the cycle leaves of p0, and every charge carries the back-off of the job's new
      failure count. */
  ghost predicate Balanced(t: Terms, p0: seq<PendingJob>, c: Cycle, pending: seq<PendingJob>) {
    && pending == Settle(p0, c.Gone(), c.failed)
    && forall id :: id in c.failed ==> c.failed[id] == PutOff(t, FailCountOf(p0, id) + 1, c.at)
  }

  lemma BalancedAtFirst(t: Terms, p0: seq<PendingJob>, now: int, window: int, dropped: set<nat>)
    ensures Balanced(t, p0, Cycle(now, window, false, {}, dropped, map[]), Settle(p0, dropped, map[]))
  {
    assert Cycle(now, window, false, {}, dropped, map[]).Gone() == dropped;
  }

  lemma BalancedGone(t: Terms, p0: seq<PendingJob>, c: Cycle, pending: seq<PendingJob>, d: Cycle, more: set<nat>)
    requires Balanced(t, p0, c, pending) && d.Gone() == c.Gone() + more && d.failed == c.failed && d.at == c.at
    ensures Balanced(t, p0, d, Without(pending, more))
  {
    hide Settle, Without, FailCountOf, PutOff;
    SettleRemove(p0, c.Gone(), c.failed, more);
  }

  lemma BalancedCharged(t: Terms, p0: seq<PendingJob>, c: Cycle, pending: seq<PendingJob>, id: nat)
    requires Balanced(t, p0, c, pending)
    requires Unique(p0) && Has(p0, id) && id !in c.Gone() && id !in c.failed
    ensures var until := PutOff(t, FailCountOf(p0, id) + 1, c.at);
            && PutOff(t, FailCountOf(pending, id) + 1, c.at) == until
            && Balanced(t, p0, c.(failed := c.failed[id := until]), Bumped(pending, id, until))
  {
    hide Settle, Bumped, Unique, Has, FailCountOf, PutOff;
    SettleFail(p0, c.Gone(), c.failed, id, PutOff(t, FailCountOf(p0, id) + 1, c.at));
  }

  lemma BalancedNext(t: Terms, p0: seq<PendingJob>, c: Cycle, s: Snapshot, s': Snapshot, id: nat, o: Outcome)
    requires Balanced(t, p0, c, s.pending)
    requires Unique(p0) && Has(p0, id) && id !in c.Gone() && id !in c.failed
    requires s' == Tried(t, s, id, c.at, o)
    ensures s' == s.(pending := s'.pending)
    ensures Balanced(t, p0, Enter(t, p0, c, id, o), s'.pending)
  {
    hide Unique, Has, Bumped, Without, PutOff, FailCountOf, Settle;
    if o.Charges() {
      hide Balanced;
      BalancedCharged(t, p0, c, s.pending, id);
    } else if o.Freed? || o.Gone? {
      assert Enter(t, p0, c, id, o).Gone() == c.Gone() + {id};
      hide Balanced;
      BalancedGone(t, p0, c, s.pending, Enter(t, p0, c, id, o), {id});
    }
  }

  /** What a cycle leaves in the state file. */
  ghost predicate Accounts(t: Terms, before: Snapshot, after: Snapshot, c: Cycle) {
    && after == After(t, before, c)
    && forall id :: id in c.failed ==> c.failed[id] == PutOff(t, FailCountOf(before.pending, id) + 1, c.at)
  }

  /** A cycle whose books balance, once the attempt or the pause is stamped. */
  lemma AccountsBy(t: Terms, before: Snapshot, mid: Snapshot, after: Snapshot, c: Cycle)
    requires Balanced(t, before.pending, c, mid.pending) && mid == before.(pending := mid.pending)
    requires after == if c.paused then mid.(nextAllowed := c.at + t.pausedBackoff / 1_000_000_000)
                      else mid.(lastReleaseTs := c.at)
    ensures Accounts(t, before, after, c)
  {
  }

  // ---------------------------------------------------------------- the counters

  /** The counters of a partial result count what became of the jobs since c0. */
  ghost predicate Counts(c0: Cycle, c: Cycle, out: CycleResult) {
    && |c.freed| == |c0.freed| + out.released
    && |c.dropped| == |c0.dropped| + out.dropped
    && |c.failed.Keys| == |c0.failed.Keys| + out.failed
    && (c.paused <==> c0.paused || out.paused)
  }

  lemma CountsNext(c0: Cycle, c: Cycle, out: CycleResult, t: Terms, p0: seq<PendingJob>, id: nat, o: Outcome)
    requires Counts(c0, c, out) && id !in c.Gone() && id !in c.failed
    ensures Counts(c0, Enter(t, p0, c, id, o), Count(out, o))
  {
    hide PutOff, FailCountOf;
    if o.Charges() {
      assert Enter(t, p0, c, id, o).failed.Keys == c.failed.Keys + {id};
    } else if o.Freed? {
      assert |c.freed + {id}| == |c.freed| + 1;
    } else if o.Gone? {
      assert |c.dropped + {id}| == |c.dropped| + 1;
    }
  }

  // ---------------------------------------------------------------- which jobs were touched

  /** Only jobs already tried are touched, and none twice. */
  ghost predicate Within(batch: seq<nat>, i: nat, c0: Cycle, c: Cycle) {
    && i <= |batch| && Distinct(batch) && (forall id :: id in batch ==> id !in c0.dropped)
    && c0 == Cycle(c.at, c.window, false, {}, c0.dropped, map[]) && c0.dropped <= c.dropped
    && c.freed !! c.dropped && c.Gone() !! c.failed.Keys
    && (forall k :: i <= k < |batch| ==> batch[k] !in c.Gone() && batch[k] !in c.failed)
    && (forall id :: id in c.Gone() && id !in c0.dropped ==> id in batch)
    && (forall id :: id in c.failed ==> id in batch)
  }

  lemma WithinStart(batch: seq<nat>, at: int, window: int, dropped: set<nat>)
    requires Distinct(batch) && forall id :: id in batch ==> id !in dropped
    ensures Within(batch, 0, Cycle(at, window, false, {}, dropped, map[]), Cycle(at, window, false, {}, dropped, map[]))
  {
  }

  lemma WithinNext(batch: seq<nat>, i: nat, c0: Cycle, c: Cycle, t: Terms, p0: seq<PendingJob>, o: Outcome)
    requires Within(batch, i, c0, c) && i < |batch|
    ensures batch[i] in batch && batch[i] !in c.Gone() && batch[i] !in c.failed
    ensures Within(batch, i + 1, c0, Enter(t, p0, c, batch[i], o))
  {
    hide PutOff, FailCountOf;
  }

  /** The whole batch released at once, or none of it on a pause. */
  lemma WithinAll(batch: seq<nat>, c0: Cycle)
    requires Within(batch, 0, c0, c0)
    ensures |SetOf(batch)| == |batch| && multiset(SetOf(batch)) == multiset(batch)
    ensures forall id :: id in SetOf(batch) <==> id in batch
    ensures Within(batch, |batch|, c0, c0.(freed := SetOf(batch)))
    ensures Within(batch, |batch|, c0, c0.(paused := true))
    ensures forall id :: id in batch ==> id !in c0.Gone() && id !in c0.failed
  {
    SetOfSize(batch);
    SetOfMultiset(batch);
  }

  lemma {:induction false} SetOfMultiset(ids: seq<nat>)
    requires Distinct(ids)
    ensures multiset(SetOf(ids)) == multiset(ids)
  {
    SetOfSize(ids);
    forall id ensures multiset(SetOf(ids))[id] == multiset(ids)[id] {
      DistinctOnce(ids, id);
    }
  }

  lemma {:induction false} DistinctOnce(ids: seq<nat>, id: nat)
    requires Distinct(ids)
    ensures multiset(ids)[id] == if id in ids then 1 else 0
  {
    if ids != [] {
      DistinctOnce(ids[1..], id);
      assert ids == [ids[0]] + ids[1..];
    }
  }

  /** Only jobs of the batch were looked up. */
  ghost predicate Untouched(batch: seq<nat>, before: map<nat, JobInfo>, after: map<nat, JobInfo>) {
    forall id :: id !in batch ==> (id in before <==> id in after) && (id in before ==> before[id] == after[id])
  }

  lemma SameBut(before: map<nat, JobInfo>, after: map<nat, JobInfo>, id: nat, other: nat)
    requires after - {id} == before - {id} && other != id
    ensures (other in before <==> other in after) && (other in before ==> before[other] == after[other])
  {
    assert other in before <==> other in before - {id};
    assert other in after <==> other in after - {id};
  }

  lemma UntouchedNext(batch: seq<nat>, first: map<nat, JobInfo>, before: map<nat, JobInfo>, after: map<nat, JobInfo>, i: nat)
    requires Untouched(batch, first, before) && i < |batch| && after - {batch[i]} == before - {batch[i]}
    ensures Untouched(batch, first, after)
  {
    forall id | id !in batch ensures (id in first <==> id in after) && (id in first ==> first[id] == after[id]) {
      SameBut(before, after, batch[i], id);
    }
  }

  /** Dropped jobs were last read as another worker's or settled. */
  ghost predicate Finished(dropped: set<nat>, answers: map<nat, JobInfo>, me: nat) {
    forall id :: id in dropped ==> id in answers && (answers[id].worker != me || Over(answers[id]))
  }

  lemma FinishedNext(c: Cycle, before: map<nat, JobInfo>, after: map<nat, JobInfo>, me: nat, t: Terms, p0: seq<PendingJob>,
                     id: nat, o: Outcome)
    requires Finished(c.dropped, before, me) && after - {id} == before - {id} && id !in c.dropped
    requires o.Gone? ==> id in after && Over(after[id])
    ensures Finished(Enter(t, p0, c, id, o).dropped, after, me)
  {
    hide PutOff, FailCountOf;
    forall other | other in c.dropped
      ensures other in after && (after[other].worker != me || Over(after[other]))
    {
      SameBut(before, after, id, other);
    }
  }

  /** A job there is something to do about: releasable, or settled on-chain. */
  predicate Ripe(info: JobInfo, window: int, now: int) {
    Eligible(info, window, now) || info.state.Released? || info.state.TimedOut?
  }

  /** Of the first i jobs, each is gone, charged, or was last read with nothing to do about it. */
  ghost predicate Tended(batch: seq<nat>, i: nat, c: Cycle, answers: map<nat, JobInfo>, window: int) {
    forall k :: 0 <= k < i && k < |batch| ==>
      batch[k] in c.Gone() || batch[k] in c.failed || (batch[k] in answers && !Ripe(answers[batch[k]], window, c.at))
  }

  lemma TendedNext(batch: seq<nat>, i: nat, c0: Cycle, c: Cycle, before: map<nat, JobInfo>, after: map<nat, JobInfo>,
                   window: int, t: Terms, p0: seq<PendingJob>, o: Outcome)
    requires Within(batch, i, c0, c) && i < |batch|
    requires Tended(batch, i, c, before, window) && after - {batch[i]} == before - {batch[i]}
    requires !o.DropFailed? && (o.Deferred? ==> batch[i] in after && !Ripe(after[batch[i]], window, c.at))
    ensures !o.PauseHit? ==> Tended(batch, i + 1, Enter(t, p0, c, batch[i], o), after, window)
  {
    hide PutOff, FailCountOf, Ripe;
    forall k | 0 <= k < i
      ensures batch[k] in c.Gone() || batch[k] in c.failed || (batch[k] in after && !Ripe(after[batch[k]], window, c.at))
    {
      SameBut(before, after, batch[i], batch[k]);
    }
  }

  lemma ClearedNext(chain: Chain, me: nat, c: Cycle, t: Terms, p0: seq<PendingJob>, id: nat, o: Outcome)
    requires Cleared(chain, me, c.Gone()) && (o.Freed? || o.Gone? ==> Cleared(chain, me, {id}))
    ensures Cleared(chain, me, Enter(t, p0, c, id, o).Gone())
  {
    hide PutOff, FailCountOf;
  }

  // ---------------------------------------------------------------- what the contract replied

  /** The replies from a to b are those of cycle c: all at its head time, a pause only as the last of them and
      exactly if the cycle is paused, and the jobs that met it neither released, dropped nor charged. */
  ghost predicate Heard(c: Cycle, a: seq<Reply>, b: seq<Reply>) {
    && a <= b
    && (forall k :: |a| <= k < |b| ==> b[k].at == c.at)
    && (forall k :: |a| <= k < |b| - 1 ==> !b[k].sent.Paused?)
    && (c.paused <==> |b| > |a| && b[|b| - 1].sent.Paused?)
    && (c.paused ==> forall id :: id in b[|b| - 1].ids ==> id !in c.Gone() && id !in c.failed)
  }

  lemma HeardNext(c: Cycle, a: seq<Reply>, b: seq<Reply>, t: Terms, p0: seq<PendingJob>, id: nat, o: Outcome,
                  read: map<nat, JobInfo>)
    requires Heard(c, a, b) && !c.paused && id !in c.Gone() && id !in c.failed
    ensures Heard(Enter(t, p0, c, id, o), a, b + ReplyOf(id, c.at, o, read))
  {
    hide PutOff, FailCountOf;
  }

  /** Every job of the transactions from a to b had last been read as ours and releasable when it was sent. */
  ghost predicate Grounded(c: Cycle, me: nat, a: seq<Reply>, b: seq<Reply>) {
    && |a| <= |b|
    && forall k :: |a| <= k < |b| ==> forall id :: id in b[k].ids ==>
         id in b[k].read && b[k].read[id].worker == me && Eligible(b[k].read[id], c.window, c.at)
  }

  lemma GroundedNext(c: Cycle, me: nat, a: seq<Reply>, b: seq<Reply>, t: Terms, p0: seq<PendingJob>, id: nat, o: Outcome,
                     read: map<nat, JobInfo>)
    requires Grounded(c, me, a, b) && Fair(o, id, read, me, c.window, c.at)
    ensures Grounded(Enter(t, p0, c, id, o), me, a, b + ReplyOf(id, c.at, o, read))
  {
    hide PutOff, FailCountOf, Eligible, Ripe;
    var b' := b + ReplyOf(id, c.at, o, read);
    assert forall k :: 0 <= k < |b| ==> b'[k] == b[k];
  }

  lemma GroundedBatch(c: Cycle, me: nat, a: Log, batch: seq<nat>, sent: Sent)
    requires Releasable(batch, a.answers, me, c.window, c.at)
    ensures Grounded(c, me, a.replies, Replied(a, batch, sent, c.at).replies)
  {
    hide Eligible;
  }

  lemma GroundedThen(c: Cycle, me: nat, a: seq<Reply>, b: seq<Reply>, d: seq<Reply>)
    requires Grounded(c, me, a, b) && Grounded(c, me, b, d) && b <= d
    ensures Grounded(c, me, a, d)
  {
    hide Eligible;
  }

  predicate Releasable(ids: seq<nat>, answers: map<nat, JobInfo>, me: nat, window: int, now: int) {
    forall id :: id in ids ==> id in answers && answers[id].worker == me && Eligible(answers[id], window, now)
  }

  /** The released were last read as ours and releasable; and so were the charged, unless that read failed. */
  ghost predicate Founded(c: Cycle, answers: map<nat, JobInfo>, me: nat) {
    && (forall id :: id in c.freed ==>
          id in answers && answers[id].worker == me && Eligible(answers[id], c.window, c.at))
    && (forall id :: id in c.failed && id in answers ==>
          answers[id].worker == me && Eligible(answers[id], c.window, c.at))
  }

  lemma FoundedNext(c: Cycle, before: map<nat, JobInfo>, after: map<nat, JobInfo>, me: nat, t: Terms, p0: seq<PendingJob>,
                    id: nat, o: Outcome)
    requires Founded(c, before, me) && after - {id} == before - {id} && id !in c.Gone() && id !in c.failed
    requires Fair(o, id, after, me, c.window, c.at)
    ensures Founded(Enter(t, p0, c, id, o), after, me)
  {
    hide PutOff, FailCountOf, Eligible, Ripe;
    forall other | other in c.freed || other in c.failed
      ensures (other in before <==> other in after) && (other in before ==> before[other] == after[other])
    {
      SameBut(before, after, id, other);
    }
  }

  lemma FoundedBatch(c0: Cycle, answers: map<nat, JobInfo>, me: nat, batch: seq<nat>)
    requires Releasable(batch, answers, me, c0.window, c0.at) && c0.freed == {} && c0.failed == map[]
    ensures Founded(c0.(freed := SetOf(batch)), answers, me) && Founded(c0.(paused := true), answers, me)
  {
    hide Eligible;
  }

  /** The jobs released and charged are those the log says were released, and not read or refused. */
  ghost predicate Logged(c: Cycle, a: Log, b: Log) {
    && b.released == a.released + multiset(c.freed)
    && b.missed + b.reverted == a.missed + a.reverted + multiset(c.failed.Keys)
    && a.missed <= b.missed && a.reverted <= b.reverted && a.hitches <= b.hitches && a.waits <= b.waits
    && Heard(c, a.replies, b.replies)
  }

  lemma OneMore(s: set<nat>, id: nat)
    requires id !in s
    ensures multiset(s + {id}) == multiset(s) + multiset{id}
  {
  }

  lemma Regroup(m: multiset<nat>, r: multiset<nat>, x: multiset<nat>, y: multiset<nat>)
    ensures (m + x) + (r + y) == (m + r) + (x + y) && m <= m + x && r <= r + y
  {
  }

  lemma OneCharged(failed: map<nat, int>, id: nat, until: int)
    requires id !in failed
    ensures multiset(failed[id := until].Keys) == multiset(failed.Keys) + multiset{id}
  {
    assert failed[id := until].Keys == failed.Keys + {id};
    OneMore(failed.Keys, id);
  }

  lemma LoggedNext(c: Cycle, a: Log, b: Log, b': Log, t: Terms, p0: seq<PendingJob>, id: nat, o: Outcome)
    requires Logged(c, a, b) && !c.paused && id !in c.Gone() && id !in c.failed && Told(b, b', id, c.at, o)
    ensures Logged(Enter(t, p0, c, id, o), a, b')
  {
    HeardNext(c, a.replies, b.replies, t, p0, id, o, b'.answers);
    hide PutOff, FailCountOf, Heard;
    var x := if o.Missed? then multiset{id} else multiset{};
    var y := if o.Refused? then multiset{id} else multiset{};
    Regroup(b.missed, b.reverted, x, y);
    match o
    case Freed => OneMore(c.freed, id);
    case Missed =>
      OneCharged(c.failed, id, PutOff(t, FailCountOf(p0, id) + 1, c.at));
      Join(a.missed + a.reverted, multiset(c.failed.Keys), x, y, multiset{id});
    case Refused =>
      OneCharged(c.failed, id, PutOff(t, FailCountOf(p0, id) + 1, c.at));
      Join(a.missed + a.reverted, multiset(c.failed.Keys), x, y, multiset{id});
    case _ =>
  }

  lemma Join(s: multiset<nat>, k: multiset<nat>, x: multiset<nat>, y: multiset<nat>, one: multiset<nat>)
    requires x + y == one
    ensures (s + k) + (x + y) == s + (k + one)
  {
  }

  lemma LoggedAtFirst(c: Cycle, a: Log)
    requires c.freed == {} && c.failed == map[] && !c.paused
    ensures Logged(c, a, a)
  {
    assert c.failed.Keys == {};
  }

  /** A batch transaction that went through, met a pause, or reverted and was followed by the fallback. */
  lemma LoggedBatch(c0: Cycle, a: Log, batch: seq<nat>, sent: Sent)
    requires Within(batch, 0, c0, c0)
    ensures sent.Ok? ==> Logged(c0.(freed := SetOf(batch)), a, Replied(a, batch, sent, c0.at))
    ensures sent.Paused? ==> Logged(c0.(paused := true), a, Replied(a, batch, sent, c0.at))
  {
    WithinAll(batch, c0);
    assert c0.failed.Keys == {};
  }

  lemma LoggedAfter(c: Cycle, a: Log, batch: seq<nat>, b: Log)
    requires Logged(c, Replied(a, batch, Sent.Reverted, c.at), b)
    ensures Logged(c, a, b) && |b.replies| > |a.replies| && b.replies[|a.replies|].sent.Reverted? && b.hitches > a.hitches
  {
  }

  // ---------------------------------------------------------------- the fallback, before job i

  ghost predicate AllIn(batch: seq<nat>, p0: seq<PendingJob>) {
    Unique(p0) && forall id :: id in batch ==> Has(p0, id)
  }

  lemma HasAt(batch: seq<nat>, i: nat, p0: seq<PendingJob>)
    requires AllIn(batch, p0) && i < |batch|
    ensures Unique(p0) && Has(p0, batch[i])
  {
  }

  lemma AllDueIn(p0: seq<PendingJob>, now: int, room: nat, batch: seq<nat>)
    requires Unique(p0) && forall id :: id in batch ==> id in Ids(Candidates(SortById(p0), now, room))
    ensures AllIn(batch, p0)
  {
    CandidatesAreDue(p0, now, room);
  }

  /** Where the fallback stands before job i, whoever else is at work: `a` is the log it started from. */
  ghost predicate Steady(batch: seq<nat>, i: nat, c0: Cycle, c: Cycle, out: CycleResult, me: nat, a: Log, b: Log) {
    && Within(batch, i, c0, c) && Counts(c0, c, out)
    && Logged(c, a, b) && Untouched(batch, a.answers, b.answers) && Finished(c.dropped, b.answers, me)
    && Founded(c, b.answers, me) && Grounded(c, me, a.replies, b.replies)
  }

  lemma SteadyAtFirst(batch: seq<nat>, c0: Cycle, me: nat, a: Log)
    requires Within(batch, 0, c0, c0) && Finished(c0.dropped, a.answers, me)
    ensures Steady(batch, 0, c0, c0, NoResult, me, a, a)
  {
    LoggedAtFirst(c0, a);
  }

  lemma SteadyNext(batch: seq<nat>, i: nat, c0: Cycle, c: Cycle, out: CycleResult, me: nat, a: Log, b: Log, b': Log,
                   t: Terms, p0: seq<PendingJob>, o: Outcome)
    requires Steady(batch, i, c0, c, out, me, a, b) && i < |batch| && !out.paused
    requires Told(b, b', batch[i], c.at, o) && Fair(o, batch[i], b'.answers, me, c.window, c.at)
    ensures Steady(batch, i + 1, c0, Enter(t, p0, c, batch[i], o), Count(out, o), me, a, b')
  {
    assert !c.paused && !c0.paused;
    assert b'.answers - {batch[i]} == b.answers - {batch[i]};
    assert b'.replies == b.replies + ReplyOf(batch[i], c.at, o, b'.answers);
    assert o.Gone? ==> batch[i] in b'.answers && Over(b'.answers[batch[i]]);
    hide Fair, Founded, Grounded, Within, Untouched, Logged, Counts, Finished, Told, Enter, Count;
    WithinNext(batch, i, c0, c, t, p0, o);
    CountsNext(c0, c, out, t, p0, batch[i], o);
    LoggedNext(c, a, b, b', t, p0, batch[i], o);
    UntouchedNext(batch, a.answers, b.answers, b'.answers, i);
    FinishedNext(c, b.answers, b'.answers, me, t, p0, batch[i], o);
    FoundedNext(c, b.answers, b'.answers, me, t, p0, batch[i], o);
    GroundedNext(c, me, a.replies, b.replies, t, p0, batch[i], o, b'.answers);
  }

  lemma SteadyIs(batch: seq<nat>, c0: Cycle, c: Cycle, out: CycleResult, me: nat, a: Log, b: Log)
    requires Steady(batch, |batch|, c0, c, out, me, a, b)
    ensures c.at == c0.at && c.window == c0.window
  {
  }

  lemma SteadyMeans(batch: seq<nat>, i: nat, c0: Cycle, c: Cycle, out: CycleResult, me: nat, a: Log, b: Log)
    requires Steady(batch, i, c0, c, out, me, a, b) && !out.paused
    ensures Within(batch, i, c0, c) && c.at == c0.at && c.window == c0.window && !c.paused && a.hitches <= b.hitches
    ensures Steady(batch, i, c0, c, out, me, a, b)
  {
  }

  lemma SteadyEnds(batch: seq<nat>, i: nat, c0: Cycle, c: Cycle, out: CycleResult, me: nat, a: Log, b: Log)
    requires Steady(batch, i, c0, c, out, me, a, b)
    ensures Steady(batch, |batch|, c0, c, out, me, a, b)
  {
  }

  /** The batch transaction alone: it went through, met a pause, or reverted, which releases nobody. */
  lemma SentOnce(batch: seq<nat>, c0: Cycle, me: nat, a: Log, sent: Sent)
    requires Within(batch, 0, c0, c0) && Finished(c0.dropped, a.answers, me)
    requires Releasable(batch, a.answers, me, c0.window, c0.at)
    ensures Finished(c0.dropped, Replied(a, batch, sent, c0.at).answers, me)
    ensures sent.Paused? ==>
              var out := NoResult.(batchReverted := true, paused := true);
              Steady(batch, |batch|, c0, c0.(paused := true), out, me, a, Replied(a, batch, sent, c0.at))
  {
    hide Finished, Releasable;
    LoggedBatch(c0, a, batch, sent);
    WithinAll(batch, c0);
    FoundedBatch(c0, a.answers, me, batch);
    GroundedBatch(c0.(paused := true), me, a, batch, sent);
    hide Logged, Within, Founded, Grounded;
  }

  lemma BatchCleared(batch: seq<nat>, chain: Chain, me: nat)
    requires forall id :: id in batch ==> Lookup(chain, id).state.Released?
    ensures Cleared(chain, me, SetOf(batch))
  {
    forall id | id in SetOf(batch) ensures Done(chain, id) {
      assert Lookup(chain, id).state.Released?;
    }
  }

  lemma SentWell(batch: seq<nat>, c0: Cycle, me: nat, a: Log, chain: Chain, removed: bool)
    requires Within(batch, 0, c0, c0) && Finished(c0.dropped, a.answers, me)
    requires Releasable(batch, a.answers, me, c0.window, c0.at)
    requires Cleared(chain, me, c0.Gone()) && forall id :: id in batch ==> Lookup(chain, id).state.Released?
    ensures var c := c0.(freed := SetOf(batch));
            && Cleared(chain, me, c.Gone())
            && Steady(batch, |batch|, c0, c, NoResult.(released := |batch|), me, a, Noted(Replied(a, batch, Sent.Ok, c0.at), removed))
  {
    hide Finished, Heard, Releasable;
    LoggedBatch(c0, a, batch, Sent.Ok);
    WithinAll(batch, c0);
    FoundedBatch(c0, a.answers, me, batch);
    GroundedBatch(c0.(freed := SetOf(batch)), me, a, batch, Sent.Ok);
    hide Within, SetOf, Founded, Grounded;
  }

  /** A reverted batch transaction and then the fallback. */
  lemma SteadyAfter(batch: seq<nat>, c0: Cycle, c: Cycle, out: CycleResult, me: nat, a: Log, b: Log)
    requires Steady(batch, |batch|, c0, c, out, me, Replied(a, batch, Sent.Reverted, c0.at), b)
    requires Releasable(batch, a.answers, me, c0.window, c0.at)
    ensures Steady(batch, |batch|, c0, c, out.(batchReverted := true), me, a, b)
    ensures |b.replies| > |a.replies| && b.replies[|a.replies|] == Reply(batch, Sent.Reverted, c0.at, a.answers)
    ensures b.hitches > a.hitches
  {
    hide Founded, Finished, Untouched, Releasable;
    var mid := Replied(a, batch, Sent.Reverted, c0.at);
    assert c.at == c0.at && c.window == c0.window && mid.replies <= b.replies && mid.answers == a.answers;
    LoggedAfter(c, a, batch, b);
    GroundedBatch(c, me, a, batch, Sent.Reverted);
    GroundedThen(c, me, a.replies, mid.replies, b.replies);
    hide Logged, Within, Grounded;
    assert mid.replies[|a.replies|] == Reply(batch, Sent.Reverted, c0.at, a.answers);
  }

  /** And when it runs alone with a working store. */
  ghost predicate Going(t: Terms, p0: seq<PendingJob>, window: int, batch: seq<nat>, i: nat, c: Cycle,
                        pending: seq<PendingJob>, answers: map<nat, JobInfo>)
  {
    AllIn(batch, p0) && Balanced(t, p0, c, pending) && (!c.paused ==> Tended(batch, i, c, answers, window))
  }

  lemma GoingNext(t: Terms, p0: seq<PendingJob>, window: int, batch: seq<nat>, i: nat, c0: Cycle, c: Cycle, s: Snapshot, s': Snapshot,
                  before: map<nat, JobInfo>, after: map<nat, JobInfo>, o: Outcome)
    requires Going(t, p0, window, batch, i, c, s.pending, before) && Within(batch, i, c0, c) && i < |batch| && !c.paused
    requires s' == Tried(t, s, batch[i], c.at, o) && !o.DropFailed? && after - {batch[i]} == before - {batch[i]}
    requires o.Deferred? ==> batch[i] in after && !Ripe(after[batch[i]], window, c.at)
    ensures s' == s.(pending := s'.pending)
    ensures Going(t, p0, window, batch, i + 1, Enter(t, p0, c, batch[i], o), s'.pending, after)
  {
    assert o.PauseHit? ==> Enter(t, p0, c, batch[i], o).paused;
    hide Within, Balanced, Tended, AllIn, Ripe, Tried, Enter;
    WithinNext(batch, i, c0, c, t, p0, o);
    HasAt(batch, i, p0);
    BalancedNext(t, p0, c, s, s', batch[i], o);
    TendedNext(batch, i, c0, c, before, after, window, t, p0, o);
  }

  // ---------------------------------------------------------------- the candidates after a cycle

  /** Released, dropped and charged candidates are different ones. */
  ghost predicate Split(ids: set<nat>, c: Cycle) {
    c.Gone() <= ids && c.failed.Keys <= ids && c.freed !! c.dropped && c.Gone() !! c.failed.Keys
  }

  lemma WithinSplits(batch: seq<nat>, c0: Cycle, c: Cycle, ids: set<nat>)
    requires Within(batch, |batch|, c0, c) && c0.dropped <= ids && forall id :: id in batch ==> id in ids
    ensures Split(ids, c)
  {
  }

  /** No candidate is left pending, uncharged, that was last read as releasable or settled. */
  ghost predicate NoneRipe(ids: set<nat>, c: Cycle, answers: map<nat, JobInfo>, window: int) {
    forall id :: id in ids && id in answers && Ripe(answers[id], window, c.at) ==> id in c.Gone() || id in c.failed
  }

  /** No candidate is left that was last read as another worker's or settled. */
  ghost predicate NoneOver(ids: set<nat>, c: Cycle, answers: map<nat, JobInfo>, me: nat) {
    forall id :: id in ids && id in answers && (answers[id].worker != me || Over(answers[id])) ==> id in c.dropped
  }

  lemma NothingOverLeft(ids: set<nat>, batch: seq<nat>, gone: set<nat>, c: Cycle, answers: map<nat, JobInfo>, me: nat, window: int)
    requires forall id :: id in ids && id !in gone && id !in batch ==> id in answers ==> Bin(answers[id], me, window, c.at) == Keep
    requires gone <= c.dropped && Releasable(batch, answers, me, window, c.at)
    ensures NoneOver(ids, c, answers, me)
  {
  }

  /** On the fields answered, of what a cycle run alone without a pause leaves in the file: a candidate last
      answered as this worker's and releasable stays only charged and put off; and without a reverted batch none
      stays that was last answered as another worker's, released, timed out, or resolved with nothing in escrow. */
  lemma LeftPending(t: Terms, before: Snapshot, after: Snapshot, c: Cycle, ids: set<nat>, answers: map<nat, JobInfo>, me: nat)
    requires Accounts(t, before, after, c) && NoneRipe(ids, c, answers, c.window)
    ensures forall e :: e in after.pending && e.id in ids && e.id in answers ==>
              var job := answers[e.id];
              && ((|| (job.state.Completed? && job.completedAt + c.window <= c.at)
                   || (job.state.Resolved? && job.escrow > 0)) ==>
                    e.id in c.failed && e.backoffUntil == c.failed[e.id])
              && (NoneOver(ids, c, answers, me) ==>
                    && job.worker == me && !job.state.Released? && !job.state.TimedOut?
                    && !(job.state.Resolved? && job.escrow == 0))
  {
    forall e | e in after.pending ensures e.id !in c.Gone() && (e.id in c.failed ==> e.backoffUntil == c.failed[e.id]) {
      SettledFrom(before.pending, c.Gone(), c.failed, e);
    }
  }

  lemma {:induction false} SettledFrom(p: seq<PendingJob>, gone: set<nat>, failed: map<nat, int>, e: PendingJob)
    requires e in Settle(p, gone, failed)
    ensures e.id !in gone && (e.id in failed ==> e.backoffUntil == failed[e.id])
  {
    if p[0].id in gone || e != Touch(p[0], failed) {
      SettledFrom(p[1..], gone, failed, e);
    }
  }

  lemma AloneEnds(t: Terms, p0: seq<PendingJob>, batch: seq<nat>, ids: set<nat>, window: int, gone: set<nat>, c: Cycle,
                  pending: seq<PendingJob>, out: CycleResult, me: nat, mid: Log, b: Log)
    requires Steady(batch, |batch|, Cycle(c.at, c.window, false, {}, gone, map[]), c, out, me, mid, b)
    requires Going(t, p0, window, batch, |batch|, c, pending, b.answers)
    requires forall id :: id in ids && id !in gone && id !in batch ==>
               id in mid.answers ==> Bin(mid.answers[id], me, window, c.at) == Keep
    requires Releasable(batch, mid.answers, me, window, c.at) && (!out.batchReverted ==> b.answers == mid.answers)
    ensures Balanced(t, p0, c, pending) && (!c.paused ==> NoneRipe(ids, c, b.answers, window))
    ensures !out.batchReverted ==> NoneOver(ids, c, b.answers, me)
  {
    hide Balanced, Logged, Finished, NoneRipe, NoneOver, Founded, Grounded, Counts, Releasable;
    if !out.batchReverted {
      NothingOverLeft(ids, batch, gone, c, mid.answers, me, window);
    }
    if !c.paused {
      NothingRipeLeft(ids, batch, Cycle(c.at, c.window, false, {}, gone, map[]), c, mid.answers, b.answers, me, window);
    }
  }

  lemma NothingRipeLeft(ids: set<nat>, batch: seq<nat>, c0: Cycle, c: Cycle,
                        before: map<nat, JobInfo>, after: map<nat, JobInfo>, me: nat, window: int)
    requires forall id :: id in ids && id !in c0.dropped && id !in batch ==> id in before ==> Bin(before[id], me, window, c.at) == Keep
    requires c0.dropped <= c.dropped && Untouched(batch, before, after) && Tended(batch, |batch|, c, after, window)
    ensures NoneRipe(ids, c, after, window)
  {
    forall id | id in ids && id in after && Ripe(after[id], window, c.at) ensures id in c.Gone() || id in c.failed {
      if id in batch {
        var k :| 0 <= k < |batch| && batch[k] == id;
      }
    }
  }

  /** What the log says of a whole cycle: the jobs answered Ok are those released; a charged job has one more
      failed look-up or one more reverted transaction of its own, and whoever's own transaction reverted is
      charged; the replies are the cycle's, and the first of them, the batch's, says whether it reverted. */
  ghost predicate Witnessed(c: Cycle, batchReverted: bool, a: Log, b: Log) {
    && b.released == a.released + multiset(c.freed)
    && (forall id :: id in c.failed ==> b.missed[id] + b.reverted[id] == a.missed[id] + a.reverted[id] + 1)
    && (forall id :: id !in c.failed ==> b.reverted[id] == a.reverted[id])
    && Heard(c, a.replies, b.replies) && a.hitches <= b.hitches && a.waits <= b.waits
    && (batchReverted <==> |b.replies| > |a.replies| && !b.replies[|a.replies|].sent.Ok?)
  }

  /** The partition read the candidates before; the jobs of the batch were read without failure. */
  lemma WitnessedBy(c: Cycle, batchReverted: bool, a: Log, mid: Log, b: Log)
    requires mid.replies == a.replies && mid.released == a.released && mid.reverted == a.reverted
    requires a.hitches <= mid.hitches && a.waits <= mid.waits
    requires forall id :: id in c.failed ==> mid.missed[id] == a.missed[id]
    requires Logged(c, mid, b)
    requires batchReverted <==> |b.replies| > |mid.replies| && !b.replies[|mid.replies|].sent.Ok?
    ensures Witnessed(c, batchReverted, a, b)
  {
    hide Heard;
    forall id
      ensures id in c.failed ==> b.missed[id] + b.reverted[id] == a.missed[id] + a.reverted[id] + 1
      ensures id !in c.failed ==> b.reverted[id] == a.reverted[id]
    {
      assert (b.missed + b.reverted)[id] == (mid.missed + mid.reverted + multiset(c.failed.Keys))[id];
      assert multiset(c.failed.Keys)[id] == if id in c.failed then 1 else 0;
      assert mid.missed[id] <= b.missed[id] && mid.reverted[id] <= b.reverted[id];
    }
  }

  /** Between the selection and the send: no reply yet, and no look-up of the batch failed. */
  ghost predicate Read(a: Log, b: Log, batch: seq<nat>) {
    && b.replies == a.replies && b.released == a.released && b.reverted == a.reverted
    && a.hitches <= b.hitches && a.waits <= b.waits
    && forall id :: id in batch ==> b.missed[id] == a.missed[id]
  }

  lemma ReadThen(a: Log, b: Log, batch: seq<nat>, ok: bool)
    requires Read(a, b, batch)
    ensures Read(a, Noted(b, ok), batch)
  {
  }

  lemma ClearedNone(chain: Chain, me: nat, answers: map<nat, JobInfo>)
    ensures Cleared(chain, me, {}) && Finished({}, answers, me)
  {
  }

  /** What one cycle over candidates `ids` comes to, between logs a and b: the released, the dropped and the
      charged are different candidates, borne out by what was read and replied, and counted; if every call
      went through and no candidate was to be waited for, all are released or dropped. */
  ghost predicate Settled(ids: set<nat>, c: Cycle, r: CycleResult, me: nat, a: Log, b: Log) {
    && Split(ids, c) && Witnessed(c, r.batchReverted, a, b) && Finished(c.dropped, b.answers, me)
    && Founded(c, b.answers, me) && Grounded(c, me, a.replies, b.replies)
    && Counts(Cycle(c.at, c.window, false, {}, {}, map[]), c, r)
    && (b.hitches == a.hitches && b.waits == a.waits ==> c.Gone() == ids && c.failed == map[] && !c.paused)
  }

  /** The fallback's partial result, merged into the cycle's. */
  lemma CountsMerged(gone: set<nat>, c: Cycle, out: CycleResult, n: nat)
    requires Counts(Cycle(c.at, c.window, false, {}, gone, map[]), c, out)
    ensures Counts(Cycle(c.at, c.window, false, {}, {}, map[]), c,
                   out.(candidates := n, dropped := |gone| + out.dropped, backoffActive := false))
  {
  }

  /** From what the selection dropped (`gone`) and what became of the batch since. */
  lemma CycleEnds(batch: seq<nat>, ids: set<nat>, gone: set<nat>, c: Cycle, out: CycleResult, n: nat, me: nat,
                  a: Log, mid: Log, b: Log)
    requires Read(a, mid, batch) && gone <= ids && forall id :: id in batch ==> id in ids
    requires mid.hitches == a.hitches && mid.waits == a.waits ==> gone + SetOf(batch) == ids
    requires b.hitches == mid.hitches ==> c == Cycle(c.at, c.window, false, SetOf(batch), gone, map[])
    requires Steady(batch, |batch|, Cycle(c.at, c.window, false, {}, gone, map[]), c, out, me, mid, b)
    requires out.batchReverted <==> |b.replies| > |mid.replies| && !b.replies[|mid.replies|].sent.Ok?
    ensures Settled(ids, c, out.(candidates := n, dropped := |gone| + out.dropped, backoffActive := false), me, a, b)
  {
    hide Untouched, Finished, Heard, Counts, Founded, Grounded;
    CountsMerged(gone, c, out, n);
    WithinSplits(batch, Cycle(c.at, c.window, false, {}, gone, map[]), c, ids);
    assert forall id :: id in c.failed ==> id in batch;
    hide Within, Split;
    WitnessedBy(c, out.batchReverted, a, mid, b);
    assert a.hitches <= mid.hitches <= b.hitches && a.waits <= mid.waits <= b.waits;
    hide Witnessed, SetOf, Logged;
  }

  /** On the fields answered: a transaction was sent only for jobs answered as this worker's, and completed and
      past their window or resolved with something in escrow; and a job of this worker last answered as
      anything but that or settled was neither released, dropped nor charged. */
  lemma AsAnswered(ids: set<nat>, c: Cycle, r: CycleResult, me: nat, a: Log, b: Log)
    requires Settled(ids, c, r, me, a, b)
    ensures a.replies <= b.replies
    ensures forall k, id :: |a.replies| <= k < |b.replies| && id in b.replies[k].ids ==>
              && b.replies[k].at == c.at && id in b.replies[k].read
              && var job := b.replies[k].read[id];
                 && job.worker == me
                 && (|| (job.state.Completed? && job.completedAt + c.window <= c.at)
                     || (job.state.Resolved? && job.escrow > 0))
    ensures forall id :: id in b.answers && b.answers[id].worker == me ==>
              var job := b.answers[id];
              (|| job.state.Submitted? || job.state.Acknowledged? || job.state.Disputed?
               || (job.state.Completed? && job.completedAt + c.window > c.at)) ==>
                id !in c.freed && id !in c.dropped && id !in c.failed
  {
    hide Counts, Split;
  }

  lemma SettledMeans(ids: set<nat>, c: Cycle, r: CycleResult, me: nat, a: Log, b: Log)
    requires Settled(ids, c, r, me, a, b)
    ensures a.hitches <= b.hitches && a.waits <= b.waits && (c.paused <==> r.paused)
  {
  }

  /** Stamping the attempt or the pause changes none of it. */
  lemma SettledStays(ids: set<nat>, c: Cycle, r: CycleResult, next: int, me: nat, a: Log, b: Log, ok: bool)
    requires Settled(ids, c, r, me, a, b)
    ensures Settled(ids, c, r, me, a, Noted(b, ok)) && Settled(ids, c, r.(nextAllowedAt := next), me, a, Noted(b, ok))
    ensures a.hitches <= b.hitches && a.waits <= b.waits && (c.paused <==> r.paused)
  {
    hide Split, Heard, Finished, Founded, Grounded;
  }

  // ---------------------------------------------------------------- the bins

  lemma BatchEligible(batch: seq<nat>, answers: map<nat, JobInfo>, me: nat, window: int, now: int)
    requires forall id :: id in batch ==> BinOf(answers, id, me, window, now) == Release
    ensures Releasable(batch, answers, me, window, now)
    ensures forall id :: id in batch ==>
              && id in answers && answers[id].worker == me
              && (|| (answers[id].state.Completed? && answers[id].completedAt + window <= now)
                  || (answers[id].state.Resolved? && answers[id].escrow > 0))
  {
  }

  /** The log after looking up jobs p, each once, with these answers. */
  ghost predicate Surveyed(a: Log, b: Log, p: seq<PendingJob>, me: nat, window: int, now: int) {
    b == a.(answers := b.answers,
            asked := a.asked + multiset(IdSeq(p)),
            missed := a.missed + multiset(Picked(p, b.answers, me, window, now, Unread)),
            hitches := a.hitches + |Picked(p, b.answers, me, window, now, Unread)|,
            waits := a.waits + |Picked(p, b.answers, me, window, now, Keep)|)
  }

  /** The log after one look-up that put the job in bin v. */
  ghost predicate Looked(a: Log, b: Log, id: nat, v: Verdict) {
    && b.answers - {id} == a.answers - {id}
    && b == a.(answers := b.answers, asked := a.asked + multiset{id},
               missed := a.missed + (if v.Unread? then multiset{id} else multiset{}),
               hitches := a.hitches + (if v.Unread? then 1 else 0),
               waits := a.waits + (if v.Keep? then 1 else 0))
  }

  lemma SurveyedNone(a: Log, chain: Chain, me: nat, window: int, now: int, p: seq<PendingJob>)
    requires p == []
    ensures Surveyed(a, a, p, me, window, now) && Cleared(chain, me, SetOf([]))
    ensures forall v :: Picked(p, a.answers, me, window, now, v) == []
  {
    assert IdSeq(p) == [];
  }

  lemma SurveyedNext(p: seq<PendingJob>, i: nat, first: Log, a: Log, b: Log, me: nat, window: int, now: int, v: Verdict)
    requires Unique(p) && i < |p| && Surveyed(first, a, p[..i], me, window, now)
    requires Looked(a, b, p[i].id, v) && v == BinOf(b.answers, p[i].id, me, window, now)
    ensures Surveyed(first, b, p[..i + 1], me, window, now)
    ensures forall w :: Picked(p[..i + 1], b.answers, me, window, now, w)
                        == Picked(p[..i], a.answers, me, window, now, w) + if v == w then [p[i].id] else []
  {
    hide BinOf, Picked, IdSeq;
    forall w ensures Picked(p[..i + 1], b.answers, me, window, now, w)
                     == Picked(p[..i], a.answers, me, window, now, w) + if v == w then [p[i].id] else []
    {
      PickedNext(p, i, a.answers, b.answers, me, window, now, w);
    }
    IdSeqNext(p, i);
  }

  lemma DiscardedFinished(drop: set<nat>, answers: map<nat, JobInfo>, me: nat, window: int, now: int)
    ensures (forall id :: id in drop ==> BinOf(answers, id, me, window, now) == Discard) ==> Finished(drop, answers, me)
  {
  }

  /** The two bins the code keeps, after every candidate was looked up. */
  lemma BinsMean(a: Log, b: Log, p: seq<PendingJob>, me: nat, window: int, now: int)
    requires Unique(p) && Surveyed(a, b, p, me, window, now)
    ensures var batch, drop := Picked(p, b.answers, me, window, now, Release), Picked(p, b.answers, me, window, now, Discard);
            && Distinct(batch) && |batch| + |drop| <= |p| && |SetOf(drop)| == |drop|
            && (forall id :: id in batch <==> id in Ids(p) && BinOf(b.answers, id, me, window, now) == Release)
            && (forall id :: id in SetOf(drop) <==> id in Ids(p) && BinOf(b.answers, id, me, window, now) == Discard)
            && Finished(SetOf(drop), b.answers, me) && Read(a, b, batch)
            && a.hitches <= b.hitches && a.waits <= b.waits
            && (b.hitches == a.hitches && b.waits == a.waits ==> SetOf(drop) + SetOf(batch) == Ids(p))
  {
    hide BinOf, Picked, Ids, IdSeq, SetOf;
    PickedFrom(p, b.answers, me, window, now, Release);
    PickedFrom(p, b.answers, me, window, now, Discard);
    PickedFrom(p, b.answers, me, window, now, Unread);
    BinsAddUp(p, b.answers, me, window, now);
    var drop := Picked(p, b.answers, me, window, now, Discard);
    SetOfSize(drop);
    DiscardedFinished(SetOf(drop), b.answers, me, window, now);
    hide Finished;
    if b.hitches == a.hitches && b.waits == a.waits {
      AllPicked(p, a, b, me, window, now);
    }
  }

  /** Nobody unread and nobody to wait for: every candidate is to be released or discarded. */
  lemma AllPicked(p: seq<PendingJob>, a: Log, b: Log, me: nat, window: int, now: int)
    requires Unique(p) && Surveyed(a, b, p, me, window, now) && b.hitches == a.hitches && b.waits == a.waits
    ensures SetOf(Picked(p, b.answers, me, window, now, Release)) + SetOf(Picked(p, b.answers, me, window, now, Discard)) == Ids(p)
  {
    forall v ensures forall id :: id in SetOf(Picked(p, b.answers, me, window, now, v)) <==>
                                   id in Ids(p) && BinOf(b.answers, id, me, window, now) == v
    {
      PickedFrom(p, b.answers, me, window, now, v);
      SetOfSize(Picked(p, b.answers, me, window, now, v));
    }
    hide Picked;
    assert Picked(p, b.answers, me, window, now, Unread) == [] && Picked(p, b.answers, me, window, now, Keep) == [];
    forall id | id in Ids(p)
      ensures id in SetOf(Picked(p, b.answers, me, window, now, Release)) + SetOf(Picked(p, b.answers, me, window, now, Discard))
    {
      assert id !in SetOf(Picked(p, b.answers, me, window, now, Keep));
      assert id !in SetOf(Picked(p, b.answers, me, window, now, Unread));
    }
  }

  lemma {:induction false} PickedSame(p: seq<PendingJob>, before: map<nat, JobInfo>, after: map<nat, JobInfo>,
                                      me: nat, window: int, now: int, v: Verdict)
    requires forall i :: 0 <= i < |p| ==> (p[i].id in before <==> p[i].id in after)
                                          && (p[i].id in before ==> before[p[i].id] == after[p[i].id])
    ensures Picked(p, before, me, window, now, v) == Picked(p, after, me, window, now, v)
  {
    if p != [] {
      assert forall i :: 0 <= i < |p[1..]| ==> p[1..][i] == p[i + 1];
      PickedSame(p[1..], before, after, me, window, now, v);
    }
  }

  lemma {:induction false} PickedSnoc(p: seq<PendingJob>, j: PendingJob, answers: map<nat, JobInfo>,
                                      me: nat, window: int, now: int, v: Verdict)
    ensures Picked(p + [j], answers, me, window, now, v)
            == Picked(p, answers, me, window, now, v)
               + if BinOf(answers, j.id, me, window, now) == v then [j.id] else []
  {
    var last := if BinOf(answers, j.id, me, window, now) == v then [j.id] else [];
    hide BinOf;
    if p == [] {
      assert ([] + [j])[1..] == [];
    } else {
      assert (p + [j])[0] == p[0] && (p + [j])[1..] == p[1..] + [j];
      var one := if BinOf(answers, p[0].id, me, window, now) == v then [p[0].id] else [];
      PickedSnoc(p[1..], j, answers, me, window, now, v);
      assert one + (Picked(p[1..], answers, me, window, now, v) + last) == (one + Picked(p[1..], answers, me, window, now, v)) + last;
    }
  }

  /** Reading the next candidate adds it to the bin its answer belongs to and moves nothing else. */
  lemma PickedNext(p: seq<PendingJob>, i: nat, before: map<nat, JobInfo>, after: map<nat, JobInfo>,
                   me: nat, window: int, now: int, v: Verdict)
    requires Unique(p) && i < |p| && after - {p[i].id} == before - {p[i].id}
    ensures Picked(p[..i + 1], after, me, window, now, v)
            == Picked(p[..i], before, me, window, now, v)
               + if BinOf(after, p[i].id, me, window, now) == v then [p[i].id] else []
  {
    assert forall id :: id != p[i].id ==> (id in before <==> id in before - {p[i].id}) && (id in after <==> id in after - {p[i].id});
    PickedSame(p[..i], before, after, me, window, now, v);
    PickedSnoc(p[..i], p[i], after, me, window, now, v);
    assert p[..i + 1] == p[..i] + [p[i]];
  }
}

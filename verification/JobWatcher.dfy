/**
 The job watcher (internal/sortition/job_watcher.go): a cursor-driven scan of the JobSubmitted log that
 stops and retries on transient failures and at capacity, and gives a job up only after its session was
 read inactive `limit` times in a row.
 */
module JobWatchers {
  import opened Common
  import opened Cursors
  import opened JobLogs

  const DefaultChunk: nat := 5000
  const DefaultRetryLimit: int := 10

  datatype KeyRead = Key | Inactive | Failed

  /** What the watcher asks of a job and of its session, and what it hands over from the answers. */
  datatype BlobInfo = BlobInfo(promptHash: nat, submitBlock: nat)

  datatype SessionInfo = SessionInfo(user: nat, modelID: nat)

  datatype JobPayload = JobPayload(job: nat, session: nat, consumer: nat, worker: nat, modelID: nat,
                                   promptHash: nat, submitBlock: nat)

  /** What became of the jobs: served, found undecryptable, or given up, with the number of times in a row
      the session had been read inactive. */
  datatype Ledger = Ledger(served: set<nat>, undecryptable: set<nat>, givenUp: map<nat, nat>)

  predicate Handled(l: Ledger, limit: nat, job: nat) {
    job in l.served || job in l.undecryptable || (job in l.givenUp && l.givenUp[job] >= limit)
  }

  ghost predicate Extends(l: Ledger, more: Ledger, limit: nat) {
    forall j :: Handled(l, limit, j) ==> Handled(more, limit, j)
  }

  /** Every own event in (low, high] was handled. */
  ghost predicate Covered(log: seq<JobEvent>, me: nat, l: Ledger, limit: nat, low: nat, high: nat) {
    forall e :: e in log && e.worker == me && low < e.block <= high ==> Handled(l, limit, e.job)
  }

  /** Of the events of a chunk, the first i that are ours were handled. */
  ghost predicate FirstHandled(evts: seq<JobEvent>, i: nat, me: nat, l: Ledger, limit: nat) {
    i <= |evts| && forall k :: 0 <= k < i ==> evts[k].worker != me || Handled(l, limit, evts[k].job)
  }

  lemma ExtendsThen(a: Ledger, b: Ledger, c: Ledger, limit: nat)
    requires Extends(a, b, limit) && Extends(b, c, limit)
    ensures Extends(a, c, limit)
  {
  }

  lemma FirstHandledNext(evts: seq<JobEvent>, i: nat, me: nat, l: Ledger, more: Ledger, limit: nat)
    requires FirstHandled(evts, i, me, l, limit) && Extends(l, more, limit) && i < |evts|
    ensures FirstHandled(evts, i, me, more, limit)
    ensures evts[i].worker != me || Handled(more, limit, evts[i].job) ==> FirstHandled(evts, i + 1, me, more, limit)
  {
  }

  /** New blocks are beyond what was covered. */
  lemma CoveredGrows(log: seq<JobEvent>, more: seq<JobEvent>, final: nat, me: nat, l: Ledger, limit: nat,
                     low: nat, high: nat)
    requires Covered(log, me, l, limit, low, high) && high <= final
    requires log <= more && forall i :: |log| <= i < |more| ==> more[i].block > final
    ensures Covered(more, me, l, limit, low, high)
  {
    forall e | e in more && e.worker == me && low < e.block <= high ensures Handled(l, limit, e.job) {
      var i :| 0 <= i < |more| && more[i] == e;
      assert e in log;
    }
  }

  lemma CoveredStays(log: seq<JobEvent>, me: nat, was: Ledger, now: Ledger, limit: nat, low: nat, high: nat)
    requires Covered(log, me, was, limit, low, high) && Extends(was, now, limit)
    ensures Covered(log, me, now, limit, low, high)
  {
  }

  /** The events before the one stopped at are all there is below its block. */
  lemma CoveredToStop(log: seq<JobEvent>, me: nat, was: Ledger, now: Ledger, limit: nat, low: nat,
                      lo: nat, hi: nat, i: nat)
    requires InOrder(log) && lo > 0 && i < |Between(log, lo, hi)|
    requires Covered(log, me, was, limit, low, lo - 1) && Extends(was, now, limit)
    requires FirstHandled(Between(log, lo, hi), i, me, now, limit)
    ensures var b := Between(log, lo, hi)[i].block; lo <= b <= hi && Covered(log, me, now, limit, low, b - 1)
  {
    var evts := Between(log, lo, hi);
    BetweenHas(log, lo, hi);
    assert evts[i] in evts;
    forall e | e in log && e.worker == me && low < e.block <= evts[i].block - 1 ensures Handled(now, limit, e.job) {
      if e.block >= lo {
        assert e in evts;
        var k :| 0 <= k < |evts| && evts[k] == e;
      }
    }
  }

  lemma CoveredToEnd(log: seq<JobEvent>, me: nat, was: Ledger, now: Ledger, limit: nat, low: nat, lo: nat, hi: nat)
    requires lo > 0 && Covered(log, me, was, limit, low, lo - 1) && Extends(was, now, limit)
    requires FirstHandled(Between(log, lo, hi), |Between(log, lo, hi)|, me, now, limit)
    ensures Covered(log, me, now, limit, low, hi)
  {
    var evts := Between(log, lo, hi);
    BetweenHas(log, lo, hi);
    forall e | e in log && e.worker == me && low < e.block <= hi ensures Handled(now, limit, e.job) {
      if e.block >= lo {
        assert e in evts;
        var k :| 0 <= k < |evts| && evts[k] == e;
      }
    }
  }

  /** The chain and the pipeline as the watcher meets them, over all its processes. `calm` says that
      capacity is free and that reads succeed, except that the sessions of the jobs in `dead` stay
      inactive for good. */
  class Feed {
    const me: nat
    const confirmations: nat
    const calm: bool
    const dead: set<nat>
    /** The log of the final blocks, in block order. */
    var log: seq<JobEvent>
    var final: nat
    /** How many times in a row a job's session has been read inactive. */
    ghost var streak: map<nat, nat>
    ghost var ledger: Ledger
    /** The safe heads answered so far. */
    ghost var heads: seq<nat>
    /** The last capacity check found a slot that no job has taken since. */
    ghost var admitted: bool
    /** The job and session whose key was read last, if that read gave a key; whether it could be decrypted; and
        what was answered on the job and on the session since. */
    ghost var keyed: Option<(nat, nat)>
    ghost var decrypts: bool
    ghost var blobInfo: Option<(nat, BlobInfo)>
    ghost var sessionInfo: Option<(nat, SessionInfo)>
    /** The jobs handed to the pipeline. */
    ghost var payloads: seq<JobPayload>
    /** How often a read failed, the capacity was taken, or a session was inactive. */
    ghost var hitches: nat

    ghost predicate Valid()
      reads `log, `final
    {
      InOrder(log) && forall e :: e in log ==> 0 < e.block <= final
    }

    constructor (me: nat, confirmations: nat, calm: bool, dead: set<nat>)
      ensures Valid() && this.me == me && log == [] && ledger == Ledger({}, {}, map[]) && streak == map[]
      ensures this.confirmations == confirmations && this.calm == calm && this.dead == dead
    {
      this.me, this.confirmations, this.calm, this.dead := me, confirmations, calm, dead;
      log, final, streak, ledger, heads, admitted := [], 0, map[], Ledger({}, {}, map[]), [], false;
      keyed, decrypts, blobInfo, sessionInfo, payloads, hitches := None, false, None, None, [], 0;
    }

    ghost method Hitch(smooth: bool)
      modifies `hitches
      ensures hitches == old(hitches) + if smooth then 0 else 1
    {
      hitches := hitches + if smooth then 0 else 1;
    }

    /** New final blocks; the contract is the model. */
    method Others()
      requires Valid()
      modifies `log, `final
      ensures Valid() && old(final) <= final
      ensures old(log) <= log && forall i :: |old(log)| <= i < |log| ==> log[i].block > old(final)
    {
    }

    /** The safe head. */
    method Head() returns (safeHead: Option<nat>)
      requires Valid()
      modifies `log, `final, `heads, `hitches
      ensures Valid() && old(final) <= final && (calm ==> safeHead.Some?)
      ensures old(log) <= log && forall i :: |old(log)| <= i < |log| ==> log[i].block > old(final)
      ensures safeHead.Some? ==> safeHead.value <= final
      ensures heads == if safeHead.Some? then old(heads) + [safeHead.value] else old(heads)
      ensures hitches == old(hitches) + if safeHead.Some? then 0 else 1
    {
      Others();
      var answered: bool, number: nat := *, *;
      var safe := if number > confirmations then number - confirmations else 0;
      safeHead := if answered || calm then Some(if safe <= final then safe else final) else None;
      heads := if safeHead.Some? then heads + [safeHead.value] else heads;
      Hitch(safeHead.Some?);
    }

    /** Filters over final blocks return every event in range, in order. */
    method FilterJobSubmitted(lo: nat, hi: nat) returns (events: Option<seq<JobEvent>>)
      requires hi <= final
      modifies `hitches
      ensures calm ==> events.Some?
      ensures hitches == old(hitches) + if events.Some? then 0 else 1
      ensures events.Some? ==> events.value == Between(log, lo, hi)
    {
      var answered: bool := *;
      events := if answered || calm then Some(Between(log, lo, hi)) else None;
      Hitch(events.Some?);
    }

    /** A free slot admits one job. */
    method AtCapacity() returns (full: bool)
      modifies `admitted, `hitches
      ensures calm ==> !full
      ensures admitted <==> !full
      ensures hitches == old(hitches) + if full then 1 else 0
    {
      full := *;
      full := full && !calm;
      admitted := !full;
      Hitch(!full);
    }

    /** For the session of the job. */
    method GetSessionEncWorkerKey(job: nat, session: nat) returns (r: KeyRead)
      modifies `streak, `keyed, `decrypts, `blobInfo, `sessionInfo, `hitches
      ensures keyed == if r.Key? then Some((job, session)) else None
      ensures !decrypts && blobInfo.None? && sessionInfo.None?
      ensures hitches == old(hitches) + if r.Key? then 0 else 1
      ensures calm ==> r == if job in dead then Inactive else Key
      ensures streak == match r
                        case Key => old(streak) - {job}
                        case Inactive => old(streak)[job := Count(old(streak), job) + 1]
                        case Failed => old(streak)
    {
      r := *;
      if calm {
        r := if job in dead then Inactive else Key;
      }
      streak := match r
                case Key => streak - {job}
                case Inactive => streak[job := Count(streak, job) + 1]
                case Failed => streak;
      keyed := if r.Key? then Some((job, session)) else None;
      decrypts, blobInfo, sessionInfo := false, None, None;
      Hitch(r.Key?);
    }

    /** Only a "no" to this question makes a job undecryptable; it is about the key just read for the job. */
    method CanDecrypt(job: nat, session: nat) returns (can: bool)
      requires keyed == Some((job, session))
      modifies `ledger, `decrypts
      ensures decrypts == can
      ensures ledger == if can then old(ledger)
                        else old(ledger).(undecryptable := old(ledger.undecryptable) + {job})
    {
      can := *;
      ledger := if can then ledger else ledger.(undecryptable := ledger.undecryptable + {job});
      decrypts := can;
    }

    method GetJobBlobInfo(job: nat) returns (info: Option<BlobInfo>)
      modifies `blobInfo, `hitches
      ensures calm ==> info.Some?
      ensures blobInfo == if info.Some? then Some((job, info.value)) else None
      ensures hitches == old(hitches) + if info.Some? then 0 else 1
    {
      var answer: BlobInfo := *;
      var answered: bool := *;
      info := if answered || calm then Some(answer) else None;
      blobInfo := if info.Some? then Some((job, info.value)) else None;
      Hitch(info.Some?);
    }

    method GetSessionInfo(session: nat) returns (info: Option<SessionInfo>)
      modifies `sessionInfo, `hitches
      ensures calm ==> info.Some?
      ensures sessionInfo == if info.Some? then Some((session, info.value)) else None
      ensures hitches == old(hitches) + if info.Some? then 0 else 1
    {
      var answer: SessionInfo := *;
      var answered: bool := *;
      info := if answered || calm then Some(answer) else None;
      sessionInfo := if info.Some? then Some((session, info.value)) else None;
      Hitch(info.Some?);
    }

    /** Handed to the pipeline; how that goes does not matter to the scan. The job was admitted, its session key
        read and decryptable, and both reads answered for it since. */
    method HandleJobPayload(p: JobPayload)
      requires admitted && keyed == Some((p.job, p.session)) && decrypts && p.worker == me
      requires blobInfo == Some((p.job, BlobInfo(p.promptHash, p.submitBlock)))
      requires sessionInfo == Some((p.session, SessionInfo(p.consumer, p.modelID)))
      modifies `ledger, `admitted, `payloads
      ensures !admitted && payloads == old(payloads) + [p]
      ensures ledger == old(ledger).(served := old(ledger.served) + {p.job})
    {
      ledger := ledger.(served := ledger.served + {p.job});
      payloads := payloads + [p];
      admitted := false;
    }

    /** The watcher notes that it drops a job, with the streak of inactive reads at that moment. */
    ghost method GiveUp(job: nat)
      modifies `ledger
      ensures ledger == old(ledger).(givenUp := old(ledger.givenUp)[job := Count(streak, job)])
    {
      ledger := ledger.(givenUp := ledger.givenUp[job := Count(streak, job)]);
    }
  }

  /** How the scan left one event. */
  datatype Outcome = Passed | Stop

  /** How a chunk ended: scanned to its end, stopped at an event, or failed. */
  datatype ChunkEnd = Scanned | Stopped | Error

  /** Nothing between the initial cursor and the current one was skipped silently. */
  ghost predicate NothingSkipped(feed: Feed, cell: CursorCell, limit: nat)
    reads feed, cell
  {
    cell.stored.Some? ==> Covered(feed.log, feed.me, feed.ledger, limit, cell.origin, cell.stored.value)
  }

  /** The counters count the latest inactive reads in a row. */
  predicate Tracks(retries: map<nat, nat>, streak: map<nat, nat>) {
    forall j :: j in retries ==> retries[j] <= Count(streak, j)
  }

  lemma CountersAfterRead(s: Setting, retries: map<nat, nat>, streak: map<nat, nat>, job: nat)
    requires Digits(s, retries) && Tracks(retries, streak)
    ensures Count(retries, job) + 1 < s.limit ==> Digits(s, retries[job := Count(retries, job) + 1])
    ensures Tracks(retries[job := Count(retries, job) + 1], streak[job := Count(streak, job) + 1])
    ensures Digits(s, retries - {job})
    ensures Tracks(retries - {job}, streak[job := Count(streak, job) + 1]) && Tracks(retries - {job}, streak - {job})
    ensures Count(streak[job := Count(streak, job) + 1], job) >= Count(retries, job) + 1
  {
  }

  /** In calm: the chunk did what Scan says. */
  ghost predicate ChunkIs(s: Setting, log: seq<JobEvent>, lo: nat, hi: nat, r0: map<nat, nat>, r: map<nat, nat>,
                          end: ChunkEnd, stored: Option<nat>)
  {
    var x := Scan(s, Between(log, lo, hi), r0);
    && r == x.0 && !end.Error? && (end.Stopped? <==> x.1.Some?)
    && (x.1.Some? ==> x.1.value > 0 && stored == Some(x.1.value - 1))
  }

  /** In calm: the pass did what Pass says. */
  ghost predicate PassIs(s: Setting, log: seq<JobEvent>, cursor: nat, head: nat, r0: map<nat, nat>, r: map<nat, nat>,
                         stored: Option<nat>)
  {
    stored.Some? && Pass(s, log, Progress(cursor, r0), head) == Progress(stored.value, r)
  }

  lemma PassIsPass(s: Setting, log: seq<JobEvent>, p: Progress, head: nat, r: map<nat, nat>, stored: Option<nat>)
    requires PassIs(s, log, p.cursor, head, p.retries, r, stored)
    ensures stored.Some? && Pass(s, log, p, head) == Progress(stored.value, r)
  {
  }

  lemma AfterChunk(s: Setting, log: seq<JobEvent>, cursor: nat, lo: nat, hi: nat, head: nat,
                   r0: map<nat, nat>, before: map<nat, nat>, r: map<nat, nat>, end: ChunkEnd, stored: Option<nat>)
    requires InOrder(log) && cursor < lo <= hi <= head
    requires AtBlock(s, log, cursor + 1, lo, head, r0, before) && ChunkIs(s, log, lo, hi, before, r, end, stored)
    ensures !end.Error?
    ensures end.Scanned? ==> AtBlock(s, log, cursor + 1, hi + 1, head, r0, r)
    ensures end.Stopped? ==> PassIs(s, log, cursor, head, r0, r, stored)
  {
    hide Scan, Between, AtBlock, InOrder;
    AtBlockNext(s, log, cursor + 1, lo, hi, head, r0, before);
  }

  lemma AfterAll(s: Setting, log: seq<JobEvent>, cursor: nat, head: nat, r0: map<nat, nat>, r: map<nat, nat>)
    requires cursor < head && AtBlock(s, log, cursor + 1, head + 1, head, r0, r)
    ensures PassIs(s, log, cursor, head, r0, r, Some(head))
  {
    hide Scan, Between, AtBlock;
    AtBlockLast(s, log, cursor + 1, head, r0, r);
  }

  class JobWatcher {
    const feed: Feed
    const cell: CursorCell
    const limit: int
    const chunk: nat
    const lookback: nat
    var retries: map<nat, nat>

    constructor (feed: Feed, cell: CursorCell, limit: int, chunk: nat, lookback: nat)
      requires feed.Valid() && cell.Valid() && (cell.stored.Some? ==> cell.stored.value <= feed.final)
      ensures Valid() && this.feed == feed && this.cell == cell && retries == map[]
      ensures this.limit == (if limit == 0 then DefaultRetryLimit else limit) && this.lookback == lookback
    {
      this.feed, this.cell := feed, cell;
      this.limit := if limit == 0 then DefaultRetryLimit else limit;
      this.chunk := if chunk == 0 then DefaultChunk else chunk;
      this.lookback := lookback;
      retries := map[];
    }

    /** The limit the comparison amounts to. */
    function Limit(): nat {
      if limit < 1 then 1 else limit
    }

    ghost function Here(): Setting {
      Setting(feed.me, Limit(), feed.dead)
    }

    ghost predicate Valid()
      reads this, feed, cell
    {
      && feed.Valid() && cell.Valid() && chunk > 0
      && Digits(Here(), retries)
      && Tracks(retries, feed.streak)
      && (cell.stored.Some? ==> cell.stored.value <= feed.final)
    }

    ghost predicate Calm() {
      feed.calm && cell.reliable
    }

    /** What a step over events keeps. */
    twostate predicate Kept()
      reads this, feed, cell
    {
      && Valid() && feed.log == old(feed.log) && feed.final == old(feed.final)
      && Extends(old(feed.ledger), feed.ledger, Limit())
    }

    /** The job of the event was handed to the pipeline, with what was answered on it and on its session, and no
        call failed. */
    twostate predicate HandedOver(ev: JobEvent)
      reads feed
    {
      && feed.hitches == old(feed.hitches)
      && feed.ledger == old(feed.ledger).(served := old(feed.ledger.served) + {ev.job})
      && feed.blobInfo.Some? && feed.sessionInfo.Some?
      && var blob, session := feed.blobInfo.value, feed.sessionInfo.value;
         && blob.0 == ev.job && session.0 == ev.session
         && feed.payloads == old(feed.payloads) + [JobPayload(ev.job, ev.session, session.1.user, feed.me, session.1.modelID,
                                                              blob.1.promptHash, blob.1.submitBlock)]
    }

    /** One event of the log. It is passed only when it is not ours or was handled; a give-up has seen the
        session inactive at every one of the last `limit` reads. A failed read leaves the books as they were and
        stops; a job is handed over only with the answers read for it. */
    method Serve(ev: JobEvent) returns (o: Outcome)
      requires Valid()
      modifies `retries, feed`streak, feed`ledger, feed`admitted, feed`keyed, feed`decrypts, feed`blobInfo,
               feed`sessionInfo, feed`payloads, feed`hitches
      ensures Kept()
      ensures o.Passed? ==> ev.worker != feed.me || Handled(feed.ledger, Limit(), ev.job)
      ensures old(feed.hitches) <= feed.hitches && (o.Stop? ==> feed.hitches > old(feed.hitches))
      ensures o.Stop? || ev.worker != feed.me ==> feed.ledger == old(feed.ledger) && feed.payloads == old(feed.payloads)
      ensures o.Passed? && ev.worker == feed.me ==>
                || HandedOver(ev)
                || (feed.ledger == old(feed.ledger).(undecryptable := old(feed.ledger.undecryptable) + {ev.job})
                    && feed.payloads == old(feed.payloads) && feed.hitches == old(feed.hitches)
                    && feed.keyed == Some((ev.job, ev.session)) && !feed.decrypts)
                || (feed.ledger == old(feed.ledger).(givenUp := old(feed.ledger.givenUp)[ev.job := Count(feed.streak, ev.job)])
                    && feed.payloads == old(feed.payloads) && Count(feed.streak, ev.job) >= Limit()
                    && feed.keyed.None?)
      ensures Calm() ==> Scan(Here(), [ev], old(retries)) == (retries, if o.Passed? then None else Some(ev.block))
    {
      hide Scan, Feed.Valid, InOrder, Digits, Tracks, Count;
      CountersAfterRead(Here(), retries, feed.streak, ev.job);
      ScanOne(Here(), ev, retries);
      if ev.worker != feed.me {
        return Passed;
      }
      var full := feed.AtCapacity();
      if full {
        return Stop;
      }
      var key := feed.GetSessionEncWorkerKey(ev.job, ev.session);
      if key.Inactive? {
        var attempts := Count(retries, ev.job) + 1;
        if attempts < limit {
          retries := retries[ev.job := attempts];
          return Stop;
        }
        retries := retries - {ev.job};
        feed.GiveUp(ev.job);
        return Passed;
      }
      if key.Failed? {
        return Stop;
      }
      retries := retries - {ev.job};
      o := ServeKeyed(ev);
    }

    /** The job of the event once the key of its session was read. */
    method ServeKeyed(ev: JobEvent) returns (o: Outcome)
      requires feed.admitted && feed.keyed == Some((ev.job, ev.session))
      modifies feed`ledger, feed`admitted, feed`decrypts, feed`blobInfo, feed`sessionInfo, feed`payloads, feed`hitches
      ensures Extends(old(feed.ledger), feed.ledger, Limit()) && (o.Passed? ==> Handled(feed.ledger, Limit(), ev.job))
      ensures old(feed.hitches) <= feed.hitches && (o.Stop? ==> feed.hitches > old(feed.hitches))
      ensures o.Stop? ==> feed.ledger == old(feed.ledger) && feed.payloads == old(feed.payloads)
      ensures o.Passed? ==>
                || HandedOver(ev)
                || (feed.ledger == old(feed.ledger).(undecryptable := old(feed.ledger.undecryptable) + {ev.job})
                    && feed.payloads == old(feed.payloads) && feed.hitches == old(feed.hitches) && !feed.decrypts)
      ensures feed.calm ==> o.Passed?
    {
      var can := feed.CanDecrypt(ev.job, ev.session);
      if !can {
        return Passed;
      }
      var blob := feed.GetJobBlobInfo(ev.job);
      if blob.None? {
        return Stop;
      }
      var session := feed.GetSessionInfo(ev.session);
      if session.None? {
        return Stop;
      }
      feed.HandleJobPayload(JobPayload(ev.job, ev.session, session.value.user, feed.me, session.value.modelID,
                                       blob.value.promptHash, blob.value.submitBlock));
      o := Passed;
    }

    /** Rescan from the event's block next time. */
    method StopAndRetry(ev: JobEvent, lo: nat, ghost from: nat) returns (ok: bool)
      requires cell.Valid() && from < lo <= ev.block && (cell.stored.Some? ==> cell.origin < lo)
      modifies cell
      ensures cell.Valid() && (cell.reliable ==> ok)
      ensures cell.stored == if ok then Some(ev.block - 1) else old(cell.stored)
      ensures cell.origin == if ok && old(cell.stored).None? then from else old(cell.origin)
      ensures cell.faults == old(cell.faults) + if ok then 0 else 1
    {
      var stopAt := lo - 1;
      if ev.block > 0 {
        stopAt := ev.block - 1;
      }
      ok := cell.Set(stopAt, from);
    }

    /** The events of a chunk, up to the one the pass has to stop at. */
    method ServeAll(evts: seq<JobEvent>) returns (stop: Option<nat>)
      requires Valid()
      modifies `retries, feed`streak, feed`ledger, feed`admitted, feed`keyed, feed`decrypts, feed`blobInfo,
               feed`sessionInfo, feed`payloads, feed`hitches
      ensures Kept() && (stop.Some? ==> stop.value < |evts|)
      ensures old(feed.hitches) <= feed.hitches && (stop.Some? ==> feed.hitches > old(feed.hitches))
      ensures FirstHandled(evts, if stop.Some? then stop.value else |evts|, feed.me, feed.ledger, Limit())
      ensures Calm() ==>
                Scan(Here(), evts, old(retries)) == (retries, if stop.Some? then Some(evts[stop.value].block) else None)
    {
      ghost var was := feed.ledger;
      assert Extends(was, was, Limit()) && FirstHandled(evts, 0, feed.me, was, Limit());
      hide Scan, Feed.Valid, Digits, Tracks, Handled, FirstHandled, Extends, OnTrack;
      OnTrackFirst(Here(), evts, retries);
      for i := 0 to |evts|
        invariant Kept() && FirstHandled(evts, i, feed.me, feed.ledger, Limit()) && old(feed.hitches) <= feed.hitches
        invariant Calm() ==> OnTrack(Here(), evts, i, old(retries), retries)
      {
        ghost var ledger := feed.ledger;
        if Calm() {
          OnTrackNext(Here(), evts, i, old(retries), retries);
        }
        var o := Serve(evts[i]);
        ExtendsThen(was, ledger, feed.ledger, Limit());
        FirstHandledNext(evts, i, feed.me, ledger, feed.ledger, Limit());
        if o.Stop? {
          return Some(i);
        }
      }
      if Calm() {
        OnTrackLast(Here(), evts, old(retries), retries);
      }
      stop := None;
    }

    method ScanChunk(lo: nat, hi: nat, ghost from: nat) returns (end: ChunkEnd)
      requires Valid() && from < lo <= hi <= feed.final
      requires NothingSkipped(feed, cell, Limit())
      requires if cell.stored.Some? then cell.stored.value == lo - 1 else from == lo - 1
      modifies `retries, feed`streak, feed`ledger, feed`admitted, feed`keyed, feed`decrypts, feed`blobInfo,
               feed`sessionInfo, feed`payloads, feed`hitches, cell
      ensures Kept() && NothingSkipped(feed, cell, Limit())
      ensures end.Scanned? ==> cell.stored == Some(hi)
      ensures end.Error? ==> cell.stored == old(cell.stored)
      ensures old(feed.hitches) <= feed.hitches && old(cell.faults) <= cell.faults
      ensures end.Stopped? ==> feed.hitches > old(feed.hitches)
      ensures end.Error? ==> feed.hitches > old(feed.hitches) || cell.faults > old(cell.faults)
      ensures end.Stopped? ==> cell.stored.Some? && lo - 1 <= cell.stored.value < hi
      ensures cell.origin == if old(cell.stored).None? && cell.stored.Some? then from else old(cell.origin)
      ensures Calm() ==> ChunkIs(Here(), feed.log, lo, hi, old(retries), retries, end, cell.stored)
    {
      ghost var log, was, low := feed.log, feed.ledger, if cell.stored.Some? then cell.origin else from;
      assert InOrder(log) && Extends(was, was, Limit()) && Covered(log, feed.me, was, Limit(), low, lo - 1);
      hide Scan, Between, Feed.Valid, InOrder, Digits, Tracks, Handled, Covered, FirstHandled, Extends;
      var found := feed.FilterJobSubmitted(lo, hi);
      if found.None? {
        CoveredStays(log, feed.me, was, was, Limit(), low, lo - 1);
        return Error;
      }
      var evts := found.value;
      var stop := ServeAll(evts);
      CoveredStays(log, feed.me, was, feed.ledger, Limit(), low, lo - 1);
      if stop.Some? {
        CoveredToStop(log, feed.me, was, feed.ledger, Limit(), low, lo, hi, stop.value);
        var stored := StopAndRetry(evts[stop.value], lo, from);
        return if stored then Stopped else Error;
      }
      CoveredToEnd(log, feed.me, was, feed.ledger, Limit(), low, lo, hi);
      var stored := cell.Set(hi, from);
      end := if stored then Scanned else Error;
    }

    /** Where a scan with no stored cursor starts, for this safe head. */
    function StartFor(head: nat): nat {
      if head <= lookback then 0 else head - lookback
    }

    /** One pass. Whatever fails, the cursor does not move back and nothing behind it was skipped silently;
        the first cursor stored goes back to the start for the head read. A pass fails only if a call failed,
        and with none failing and nothing to wait for it gets to the head; in calm, it is the function Pass
        of module JobLogs. */
    method RunOnce() returns (ok: bool)
      requires Valid() && NothingSkipped(feed, cell, Limit())
      modifies `retries, feed, cell
      ensures Valid() && NothingSkipped(feed, cell, Limit())
      ensures old(cell.stored).Some? ==>
                cell.stored.Some? && cell.stored.value >= old(cell.stored).value && cell.origin == old(cell.origin)
      ensures old(cell.stored).None? && cell.stored.Some? ==>
                feed.heads != [] && |feed.heads| == |old(feed.heads)| + 1
                && cell.origin == StartFor(feed.heads[|feed.heads| - 1])
      ensures !ok ==> feed.hitches > old(feed.hitches) || cell.faults > old(cell.faults)
      ensures ok && feed.hitches == old(feed.hitches) ==>
                feed.heads != [] && feed.heads[|feed.heads| - 1] <= if cell.stored.Some? then cell.stored.value else 0
      ensures old(feed.log) <= feed.log && Extends(old(feed.ledger), feed.ledger, Limit())
      ensures old(feed.heads) <= feed.heads && (ok || Calm() ==> |feed.heads| == |old(feed.heads)| + 1)
      ensures forall i :: |old(feed.log)| <= i < |feed.log| ==> feed.log[i].block > old(feed.final)
      ensures old(feed.final) <= feed.final
      ensures forall i :: |old(feed.heads)| <= i < |feed.heads| ==> feed.heads[i] <= feed.final
      ensures Calm() && old(cell.stored).Some? ==>
                ok && PassIs(Here(), feed.log, old(cell.stored).value, feed.heads[|feed.heads| - 1],
                             old(retries), retries, cell.stored)
    {
      ok := false;
      ghost var was, low, high := feed.ledger, cell.origin, if cell.stored.Some? then cell.stored.value else 0;
      assert Extends(was, was, Limit());
      ghost var oldLog, oldFinal := feed.log, feed.final;
      var head := feed.Head();
      if cell.stored.Some? {
        CoveredGrows(oldLog, feed.log, oldFinal, feed.me, was, Limit(), low, high);
      }
      if head.None? {
        return;
      }
      var resumed, seeded := cell.GetOrSeed(head.value, lookback);
      if resumed.None? {
        return;
      }
      var cursor := resumed.value;
      if head.value <= cursor {
        ok := true;
        return;
      }
      ok := ScanFrom(cursor, head.value);
    }

    method ScanFrom(cursor: nat, safeHead: nat) returns (ok: bool)
      requires Valid() && cursor < safeHead <= feed.final
      requires cell.stored.Some? ==> cell.stored.value == cursor
      requires NothingSkipped(feed, cell, Limit())
      modifies `retries, feed`streak, feed`ledger, feed`admitted, feed`keyed, feed`decrypts, feed`blobInfo,
               feed`sessionInfo, feed`payloads, feed`hitches, cell
      ensures Kept() && NothingSkipped(feed, cell, Limit())
      ensures old(cell.stored).Some? ==>
                cell.stored.Some? && cell.stored.value >= cursor && cell.origin == old(cell.origin)
      ensures old(cell.stored).None? && cell.stored.Some? ==> cell.origin == cursor
      ensures old(feed.hitches) <= feed.hitches
      ensures ok && feed.hitches == old(feed.hitches) ==> cell.stored == Some(safeHead)
      ensures !ok ==> feed.hitches > old(feed.hitches) || cell.faults > old(cell.faults)
      ensures Calm() ==> ok && PassIs(Here(), feed.log, cursor, safeHead, old(retries), retries, cell.stored)
    {
      ghost var log, was := feed.log, feed.ledger;
      assert InOrder(log) && Extends(was, was, Limit());
      assert AtBlock(Here(), log, cursor + 1, cursor + 1, safeHead, retries, retries);
      hide Scan, Between, Feed.Valid, InOrder, Digits, Tracks, Handled, Extends, AtBlock, NothingSkipped, PassIs, ChunkIs;
      var lo := cursor + 1;
      while lo <= safeHead
        invariant Kept() && NothingSkipped(feed, cell, Limit()) && cursor < lo <= safeHead + 1
        invariant if cell.stored.Some? then cell.stored.value == lo - 1 else lo == cursor + 1
        invariant old(cell.stored).Some? ==> cell.stored.Some? && cell.origin == old(cell.origin)
        invariant old(cell.stored).None? && cell.stored.Some? ==> cell.origin == cursor
        invariant lo > cursor + 1 ==> cell.stored.Some?
        invariant old(feed.hitches) <= feed.hitches && old(cell.faults) <= cell.faults
        invariant Calm() ==> AtBlock(Here(), log, cursor + 1, lo, safeHead, old(retries), retries)
        decreases safeHead + 1 - lo
      {
        var hi := lo + chunk - 1;
        if hi > safeHead {
          hi := safeHead;
        }
        ghost var ledger, before := feed.ledger, retries;
        var end := ScanChunk(lo, hi, cursor);
        ExtendsThen(was, ledger, feed.ledger, Limit());
        if Calm() {
          AfterChunk(Here(), log, cursor, lo, hi, safeHead, old(retries), before, retries, end, cell.stored);
        }
        if end.Error? {
          return false;
        }
        if end.Stopped? {
          return true;
        }
        lo := hi + 1;
      }
      if Calm() {
        AfterAll(Here(), log, cursor, safeHead, old(retries), retries);
      }
      ok := true;
    }
  }

  datatype Act = Poll | Restart

  /** A watcher's whole life: any number of passes and restarts, each restart losing the counters and keeping
      the cursor. The cursor never moves back; it starts where it was found stored, or at the start for the
      head read by the pass that first stored one; and every own event between there and where it is was
      handed to the sink, found undecryptable with its key, or given up after the limit of inactive reads in
      a row. */
  method Lifetime(feed: Feed, cell: CursorCell, limit: int, chunk: nat, lookback: nat, acts: seq<Act>)
    returns (ghost cursors: seq<nat>)
    requires feed.Valid() && (cell.stored.Some? ==> cell.origin == cell.stored.value <= feed.final)
    modifies feed, cell
    ensures |cursors| == |acts| && forall i, j :: 0 <= i < j < |cursors| ==> cursors[i] <= cursors[j]
    ensures cell.stored.Some? && acts != [] ==> cell.stored.value == cursors[|acts| - 1]
    ensures old(cell.stored).Some? ==> cell.stored.Some? && cell.origin == old(cell.stored).value
    ensures old(cell.stored).None? && cell.stored.Some? ==>
              exists k :: |old(feed.heads)| <= k < |feed.heads|
                          && cell.origin == if feed.heads[k] <= lookback then 0 else feed.heads[k] - lookback
    ensures var l := if limit == 0 then 10 else if limit < 1 then 1 else limit;
            cell.stored.Some? ==>
              forall e :: e in feed.log && e.worker == feed.me && cell.origin < e.block <= cell.stored.value ==>
                || e.job in feed.ledger.served
                || e.job in feed.ledger.undecryptable
                || (e.job in feed.ledger.givenUp && feed.ledger.givenUp[e.job] >= l)
  {
    cursors := [];
    var w := new JobWatcher(feed, cell, limit, chunk, lookback);
    ghost var l := w.Limit();
    for i := 0 to |acts|
      invariant w.feed == feed && w.cell == cell && w.Valid() && fresh(w) && w.Limit() == l
      invariant NothingSkipped(feed, cell, l) && w.lookback == lookback
      invariant old(feed.heads) <= feed.heads
      invariant old(cell.stored).Some? ==> cell.stored.Some? && cell.origin == old(cell.origin)
      invariant old(cell.stored).None? && cell.stored.Some? ==>
                  exists k :: |old(feed.heads)| <= k < |feed.heads| && cell.origin == w.StartFor(feed.heads[k])
      invariant |cursors| == i && forall j, k :: 0 <= j < k < |cursors| ==> cursors[j] <= cursors[k]
      invariant i > 0 ==> cursors[i - 1] == if cell.stored.Some? then cell.stored.value else 0
    {
      if acts[i].Restart? {
        w := new JobWatcher(feed, cell, limit, chunk, lookback);
      } else {
        ghost var heads := feed.heads;
        var ok := w.RunOnce();
        assert forall k :: 0 <= k < |heads| ==> feed.heads[k] == heads[k];
      }
      cursors := cursors + [if cell.stored.Some? then cell.stored.value else 0];
    }
  }

  /** In calm, n passes of one process do what Passes says of the heads they read. Hence a block is left
      behind after exactly as many passes as the odometer owes, and one more. */
  method Polls(w: JobWatcher, n: nat, ghost target: nat)
    requires w.Valid() && w.Calm() && w.cell.stored.Some? && NothingSkipped(w.feed, w.cell, w.Limit())
    modifies w`retries, w.feed, w.cell
    ensures w.Valid() && w.cell.stored.Some? && |w.feed.heads| == |old(w.feed.heads)| + n
    ensures var p := Progress(old(w.cell.stored).value, old(w.retries));
            var heads := w.feed.heads[|old(w.feed.heads)|..];
            && Passes(w.Here(), w.feed.log, p, heads) == Progress(w.cell.stored.value, w.retries)
            && (Once(w.feed.log) && (forall k :: 0 <= k < n ==> heads[k] >= target) ==>
                  (w.cell.stored.value >= target <==> n > Owed(w.Here(), w.feed.log, p, target)))
  {
    ghost var s, p := w.Here(), Progress(w.cell.stored.value, w.retries);
    ghost var heads: seq<nat> := [];
    assert Digits(s, w.retries) && Passes(s, w.feed.log, p, heads) == p;
    hide Pass, Passes, Handled, Covered, Extends, Tracks, NothingSkipped, Once, InOrder, Digits, Owed, PassIs;
    for i := 0 to n
      invariant w.Valid() && w.cell.stored.Some? && NothingSkipped(w.feed, w.cell, w.Limit())
      invariant |heads| == i && w.feed.heads == old(w.feed.heads) + heads
      invariant forall k :: 0 <= k < i ==> heads[k] <= w.feed.final
      invariant Passes(s, w.feed.log, p, heads) == Progress(w.cell.stored.value, w.retries)
    {
      ghost var log := w.feed.log;
      var ok := w.RunOnce();
      ghost var head := w.feed.heads[|w.feed.heads| - 1];
      ghost var more := w.feed.log[|log|..];
      assert w.feed.log == log + more;
      PassesStable(s, log, more, p, heads);
      PassesThen(s, w.feed.log, p, heads, head);
      PassIsPass(s, w.feed.log, Passes(s, log, p, heads), head, w.retries, w.cell.stored);
      assert w.feed.heads == old(w.feed.heads) + (heads + [head]);
      heads := heads + [head];
    }
    assert w.feed.heads[|old(w.feed.heads)|..] == heads;
    if Once(w.feed.log) && forall k :: 0 <= k < n ==> heads[k] >= target {
      NeverWedged(s, w.feed.log, p, target, heads);
    }
  }
}

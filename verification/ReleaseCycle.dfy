/**
 Release cycles as values: what a cycle selects, what it leaves in the state file, and what follows
 over whole runs of cycles (internal/release/scheduler.go).
 */
module ReleaseCycles {
  import opened Common
  import opened ReleaseStore
  import opened ReleaseWorlds
  import opened Backoffs

  /** Durations in nanoseconds, as configured. */
  datatype Terms = Terms(maxBatch: int, batchThreshold: int, interval: int, base: int, max: int, pausedBackoff: int)

  /** Config.Validate. */
  predicate Sane(t: Terms) {
    t.maxBatch >= 1 && t.batchThreshold >= 1 && t.interval > 0 && 0 < t.base <= t.max && t.pausedBackoff > 0
  }

  /** The cap is compared after a candidate has been appended. */
  function Cap(t: Terms): nat {
    if t.maxBatch < 1 then 1 else t.maxBatch
  }

  /** The first `room` entries out of backoff. */
  function Candidates(p: seq<PendingJob>, now: int, room: nat): seq<PendingJob> {
    if p == [] || room == 0 then []
    else if p[0].backoffUntil > now then Candidates(p[1..], now, room)
    else [p[0]] + Candidates(p[1..], now, room - 1)
  }

  /** How many jobs are out of backoff. */
  function Ready(p: seq<PendingJob>, now: int): nat {
    if p == [] then 0 else (if p[0].backoffUntil > now then 0 else 1) + Ready(p[1..], now)
  }

  /** That is the number of entries whose back-off is over. */
  lemma {:induction false} ReadyCounts(p: seq<PendingJob>, now: int)
    requires Unique(p)
    ensures Ready(p, now) == |set e | e in p && e.backoffUntil <= now|
  {
    if p != [] {
      ReadyCounts(p[1..], now);
      assert Ready(p, now) == (if p[0].backoffUntil > now then 0 else 1) + Ready(p[1..], now);
      hide Ready, Unique;
      var rest := set e | e in p[1..] && e.backoffUntil <= now;
      OneApart(p);
      assert (set e | e in p && e.backoffUntil <= now) == if p[0].backoffUntil > now then rest else rest + {p[0]};
    }
  }

  /** Sorted or not, in the store's snapshot. */
  lemma ReadySorted(p: seq<PendingJob>, now: int)
    requires Unique(p)
    ensures Ready(SortById(p), now) == |set e | e in p && e.backoffUntil <= now|
  {
    SortKeepsUnique(p);
    ReadyCounts(SortById(p), now);
    hide SortById, Ready, Unique;
    assert (set e | e in SortById(p) && e.backoffUntil <= now) == (set e | e in p && e.backoffUntil <= now);
  }

  function Ids(p: seq<PendingJob>): set<nat> {
    set i | 0 <= i < |p| :: p[i].id
  }

  function IdSeq(p: seq<PendingJob>): seq<nat> {
    seq(|p|, i requires 0 <= i < |p| => p[i].id)
  }

  lemma IdSeqNext(p: seq<PendingJob>, i: nat)
    requires i < |p|
    ensures multiset(IdSeq(p[..i + 1])) == multiset(IdSeq(p[..i])) + multiset{p[i].id}
  {
    assert IdSeq(p[..i + 1]) == IdSeq(p[..i]) + [p[i].id];
  }

  // ---------------------------------------------------------------- the bins

  function BinOf(answers: map<nat, JobInfo>, id: nat, me: nat, window: int, now: int): Verdict {
    if id in answers then Bin(answers[id], me, window, now) else Unread
  }

  /** The ids binned so, in order, given what the chain answered. */
  function Picked(p: seq<PendingJob>, answers: map<nat, JobInfo>, me: nat, window: int, now: int, v: Verdict): seq<nat> {
    if p == [] then []
    else
      var id := p[0].id;
      (if BinOf(answers, id, me, window, now) == v then [id] else [])
      + Picked(p[1..], answers, me, window, now, v)
  }

  predicate Distinct(ids: seq<nat>) {
    forall i, j :: 0 <= i < j < |ids| ==> ids[i] != ids[j]
  }

  lemma {:induction false} PickedFrom(p: seq<PendingJob>, answers: map<nat, JobInfo>, me: nat, window: int, now: int, v: Verdict)
    ensures var ids := Picked(p, answers, me, window, now, v);
            && (forall id :: id in ids <==> id in Ids(p) && BinOf(answers, id, me, window, now) == v)
            && (Unique(p) ==> Distinct(ids))
  {
    if p != [] {
      PickedFrom(p[1..], answers, me, window, now, v);
      IdsCons(p);
      assert Unique(p) ==> p[0].id !in Ids(p[1..]);
    }
  }

  lemma IdsCons(p: seq<PendingJob>)
    requires p != []
    ensures Ids(p) == {p[0].id} + Ids(p[1..])
  {
    forall id | id in Ids(p) ensures id in {p[0].id} + Ids(p[1..]) {
      var i :| 0 <= i < |p| && p[i].id == id;
      if i > 0 {
        assert p[1..][i - 1].id == id;
      }
    }
    forall id | id in Ids(p[1..]) ensures id in Ids(p) {
      var i :| 0 <= i < |p[1..]| && p[1..][i].id == id;
      assert p[i + 1].id == id;
    }
  }

  /** Every candidate is in exactly one bin. */
  lemma {:induction false} BinsAddUp(p: seq<PendingJob>, answers: map<nat, JobInfo>, me: nat, window: int, now: int)
    ensures |Picked(p, answers, me, window, now, Release)| + |Picked(p, answers, me, window, now, Discard)|
            + |Picked(p, answers, me, window, now, Keep)| + |Picked(p, answers, me, window, now, Unread)| == |p|
  {
    if p != [] {
      BinsAddUp(p[1..], answers, me, window, now);
    }
  }

  function SetOf(ids: seq<nat>): set<nat> {
    set i | 0 <= i < |ids| :: ids[i]
  }

  lemma SetOfNext(ids: seq<nat>, id: nat)
    ensures SetOf(ids + [id]) == SetOf(ids) + {id}
  {
    var more := ids + [id];
    assert more[|ids|] == id && forall i :: 0 <= i < |ids| ==> more[i] == ids[i];
  }

  lemma {:induction false} SetOfSize(ids: seq<nat>)
    requires Distinct(ids)
    ensures |SetOf(ids)| == |ids| && forall id :: id in SetOf(ids) <==> id in ids
  {
    if ids != [] {
      SetOfSize(ids[1..]);
      assert SetOf(ids) == {ids[0]} + SetOf(ids[1..]) by {
        forall id | id in ids ensures id in {ids[0]} + SetOf(ids[1..]) {
          var i :| 0 <= i < |ids| && ids[i] == id;
          if i > 0 {
            assert ids[1..][i - 1] == id;
          }
        }
      }
    }
  }

  // ---------------------------------------------------------------- selection

  lemma {:induction false} CandidatesFrom(p: seq<PendingJob>, now: int, room: nat)
    ensures var c := Candidates(p, now, room);
            && |c| <= room
            && (forall x :: x in c ==> x in p && x.backoffUntil <= now)
            && (Unique(p) ==> Unique(c))
  {
    if p != [] && room > 0 {
      if p[0].backoffUntil > now {
        CandidatesFrom(p[1..], now, room);
      } else {
        CandidatesFrom(p[1..], now, room - 1);
        var rest := Candidates(p[1..], now, room - 1);
        if Unique(p) {
          forall i | 0 <= i < |rest| ensures rest[i].id != p[0].id {
            assert rest[i] in p[1..];
          }
        }
      }
    }
  }

  /** How many jobs out of backoff have a smaller id. */
  function Ahead(p: seq<PendingJob>, now: int, id: nat): nat {
    if p == [] then 0
    else (if p[0].id < id && p[0].backoffUntil <= now then 1 else 0) + Ahead(p[1..], now, id)
  }

  lemma {:induction false} AheadCounts(p: seq<PendingJob>, now: int, id: nat)
    requires Unique(p)
    ensures Ahead(p, now, id) == |set e | e in p && e.id < id && e.backoffUntil <= now|
  {
    if p != [] {
      AheadCounts(p[1..], now, id);
      assert Ahead(p, now, id) == (if p[0].id < id && p[0].backoffUntil <= now then 1 else 0) + Ahead(p[1..], now, id);
      hide Ahead, Unique;
      var rest := set e | e in p[1..] && e.id < id && e.backoffUntil <= now;
      OneApart(p);
      assert (set e | e in p && e.id < id && e.backoffUntil <= now)
             == if p[0].id < id && p[0].backoffUntil <= now then rest + {p[0]} else rest;
    }
  }

  lemma OneApart(p: seq<PendingJob>)
    requires Unique(p) && p != []
    ensures p[0] !in p[1..] && forall e :: e in p <==> e == p[0] || e in p[1..]
  {
  }

  lemma {:induction false} AheadInsert(j: PendingJob, p: seq<PendingJob>, now: int, id: nat)
    ensures Ahead(Insert(j, p), now, id) == Ahead([j] + p, now, id)
  {
    assert ([j] + p)[1..] == p;
    if p != [] && j.id > p[0].id {
      AheadInsert(j, p[1..], now, id);
      assert ([j] + p[1..])[1..] == p[1..];
      assert Insert(j, p)[1..] == Insert(j, p[1..]);
    } else {
      assert Insert(j, p) == [j] + p;
    }
  }

  lemma {:induction false} AheadSorted(p: seq<PendingJob>, now: int, id: nat)
    ensures Ahead(SortById(p), now, id) == Ahead(p, now, id)
  {
    if p != [] {
      AheadSorted(p[1..], now, id);
      AheadInsert(p[0], SortById(p[1..]), now, id);
      assert ([p[0]] + SortById(p[1..]))[1..] == SortById(p[1..]);
    }
  }

  lemma {:induction false} NoneAhead(p: seq<PendingJob>, now: int, id: nat)
    requires forall i :: 0 <= i < |p| ==> p[i].id >= id
    ensures Ahead(p, now, id) == 0
  {
    if p != [] {
      NoneAhead(p[1..], now, id);
    }
  }

  lemma {:induction false} SelectedIffFewAhead(p: seq<PendingJob>, now: int, room: nat, e: PendingJob)
    requires Sorted(p) && Unique(p) && e in p && e.backoffUntil <= now
    ensures e in Candidates(p, now, room) <==> Ahead(p, now, e.id) < room
  {
    if e == p[0] {
      NoneAhead(p, now, e.id);
    } else {
      assert e in p[1..];
      if p[0].backoffUntil > now {
        SelectedIffFewAhead(p[1..], now, room, e);
      } else if room > 0 {
        SelectedIffFewAhead(p[1..], now, room - 1, e);
        var k :| 0 <= k < |p| && p[k] == e;
        assert p[0].id < e.id;
      }
    }
  }

  /** A job out of backoff is a candidate exactly when fewer than the batch cap of those with smaller
      ids are out of backoff, however the state file orders them. */
  lemma CandidateIff(t: Terms, p: seq<PendingJob>, now: int, e: PendingJob)
    requires Unique(p) && e in p && e.backoffUntil <= now
    ensures e in Candidates(SortById(p), now, Cap(t)) <==>
              |set x | x in p && x.id < e.id && x.backoffUntil <= now| < if t.maxBatch < 1 then 1 else t.maxBatch
  {
    AheadCounts(p, now, e.id);
    SortByIdSorts(p);
    SortKeepsUnique(p);
    AheadSorted(p, now, e.id);
    SelectedIffFewAhead(SortById(p), now, Cap(t), e);
  }

  lemma {:induction false} FailCountInsert(j: PendingJob, p: seq<PendingJob>, id: nat)
    requires forall x :: x in p ==> x.id != j.id
    ensures FailCountOf(Insert(j, p), id) == if j.id == id then j.failCount else FailCountOf(p, id)
  {
    if p != [] && j.id > p[0].id {
      FailCountInsert(j, p[1..], id);
      assert Insert(j, p)[1..] == Insert(j, p[1..]);
    } else {
      assert ([j] + p)[1..] == p;
    }
  }

  lemma {:induction false} FailCountSorted(p: seq<PendingJob>, id: nat)
    requires Unique(p)
    ensures FailCountOf(SortById(p), id) == FailCountOf(p, id)
  {
    if p != [] {
      FailCountSorted(p[1..], id);
      SortKeepsUnique(p[1..]);
      assert forall x :: x in p[1..] ==> x.id != p[0].id;
      FailCountInsert(p[0], SortById(p[1..]), id);
    }
  }

  // ---------------------------------------------------------------- whole cycles

  /** What one cycle did at head time `at`, with `window` for the dispute window: the jobs it released, those it dropped as having nothing to
      release, the failures it charged with the time each is put off to, and whether it ended on a pause. */
  datatype Cycle = Cycle(at: int, window: int, paused: bool, freed: set<nat>, dropped: set<nat>, failed: map<nat, int>) {
    function Gone(): set<nat> {
      freed + dropped
    }
  }

  ghost predicate Due(p: seq<PendingJob>, id: nat, now: int) {
    exists i :: 0 <= i < |p| && p[i].id == id && p[i].backoffUntil <= now
  }

  function PutOff(t: Terms, failures: nat, now: int): int {
    now + Seconds(ComputeBackoff(t.base, t.max, failures))
  }

  /** What Scheduler.RunOnce and Tick prove of every cycle that runs alone with a working store. */
  ghost predicate Fits(t: Terms, s: Snapshot, c: Cycle) {
    && c.at >= s.nextAllowed
    && c.freed !! c.dropped && c.Gone() !! c.failed.Keys
    && (forall id :: id in c.Gone() ==> Due(s.pending, id, c.at))
    && (forall id :: id in c.failed ==>
          Due(s.pending, id, c.at) && c.failed[id] == PutOff(t, FailCountOf(s.pending, id) + 1, c.at))
  }

  function After(t: Terms, s: Snapshot, c: Cycle): Snapshot {
    s.(pending := Settle(s.pending, c.Gone(), c.failed),
       lastReleaseTs := if c.paused then s.lastReleaseTs else c.at,
       nextAllowed := if c.paused then c.at + Seconds(t.pausedBackoff) else s.nextAllowed)
  }

  /** One entry of the state file's history: a job marked eligible, or a cycle. */
  datatype Happening = Marked(id: nat, completedAt: int) | Ran(c: Cycle)

  ghost predicate Fit(t: Terms, s: Snapshot, h: Happening) {
    h.Ran? ==> Fits(t, s, h.c)
  }

  function Next(t: Terms, s: Snapshot, h: Happening): Snapshot {
    match h
    case Marked(id, ts) => s.(pending := Added(s.pending, id, ts))
    case Ran(c) => After(t, s, c)
  }

  ghost predicate History(t: Terms, s: Snapshot, hs: seq<Happening>)
    decreases |hs|
  {
    hs != [] ==> Fit(t, s, hs[0]) && History(t, Next(t, s, hs[0]), hs[1..])
  }

  function Leaves(t: Terms, s: Snapshot, hs: seq<Happening>): Snapshot
    decreases |hs|
  {
    if hs == [] then s else Leaves(t, Next(t, s, hs[0]), hs[1..])
  }

  lemma {:induction false} HistoryThen(t: Terms, s: Snapshot, hs: seq<Happening>, h: Happening)
    requires History(t, s, hs) && Fit(t, Leaves(t, s, hs), h)
    ensures History(t, s, hs + [h]) && Leaves(t, s, hs + [h]) == Next(t, Leaves(t, s, hs), h)
    decreases |hs|
  {
    if hs == [] {
      assert ([] + [h])[1..] == [];
    } else {
      assert (hs + [h])[1..] == hs[1..] + [h];
      HistoryThen(t, Next(t, s, hs[0]), hs[1..], h);
    }
  }

  /** How many cycles ended on a pause. */
  function Pauses(hs: seq<Happening>): nat {
    if hs == [] then 0
    else Pauses(hs[..|hs| - 1]) + if hs[|hs| - 1].Ran? && hs[|hs| - 1].c.paused then 1 else 0
  }

  lemma {:induction false} GateHolds(t: Terms, s: Snapshot, hs: seq<Happening>, j: nat)
    requires Sane(t) && History(t, s, hs) && j < |hs| && hs[j].Ran?
    ensures hs[j].c.at >= s.nextAllowed
    decreases |hs|
  {
    if j > 0 {
      GateHolds(t, Next(t, s, hs[0]), hs[1..], j - 1);
    }
  }

  /** After a cycle that hit a pause, by the batch or in the fallback, no cycle runs before its back-off
      is over, however many run in between. */
  lemma {:induction false} PauseGate(t: Terms, s: Snapshot, hs: seq<Happening>, i: nat, j: nat)
    requires Sane(t) && History(t, s, hs) && i < j < |hs|
    requires hs[i].Ran? && hs[i].c.paused && hs[j].Ran?
    ensures hs[j].c.at >= hs[i].c.at + Seconds(t.pausedBackoff)
    decreases |hs|
  {
    if i == 0 {
      GateHolds(t, Next(t, s, hs[0]), hs[1..], j - 1);
    } else {
      PauseGate(t, Next(t, s, hs[0]), hs[1..], i - 1, j - 1);
    }
  }

  /** The entry of a job, which is in the file once. */
  ghost predicate EntryIs(p: seq<PendingJob>, id: nat, failures: nat, until: int) {
    Unique(p) && exists i :: 0 <= i < |p| && p[i].id == id && p[i].failCount == failures && p[i].backoffUntil == until
  }

  /** One charge on the entry of the job, which is in the file once, and none on the others. */
  lemma ChargedAt(p: seq<PendingJob>, id: nat, until: int)
    requires Unique(p)
    ensures |Bumped(p, id, until)| == |p|
    ensures forall i :: 0 <= i < |p| ==>
              Bumped(p, id, until)[i] == if p[i].id == id then PendingJob(id, p[i].completedAt, p[i].failCount + 1, until) else p[i]
    ensures forall i :: 0 <= i < |p| && p[i].id == id ==> FailCountOf(p, id) == p[i].failCount
  {
    hide Bumped, FailCountOf;
    if i: nat :| i < |p| && p[i].id == id {
      BumpedAt(p, i, id, until);
      EntryFailCount(p, i);
    } else {
      BumpedAbsent(p, id, until);
    }
  }

  lemma {:induction false} EntryFailCount(p: seq<PendingJob>, i: nat)
    requires Unique(p) && i < |p|
    ensures FailCountOf(p, p[i].id) == p[i].failCount
  {
    if i > 0 {
      EntryFailCount(p[1..], i - 1);
    }
  }

  lemma {:induction false} SettledEntry(p: seq<PendingJob>, gone: set<nat>, failed: map<nat, int>, i: nat)
    requires i < |p| && p[i].id !in gone
    ensures Touch(p[i], failed) in Settle(p, gone, failed)
  {
    if i > 0 {
      SettledEntry(p[1..], gone, failed, i - 1);
    }
  }

  /** A charge leaves the entry with one more failure and the new time. */
  lemma FailureRecorded(t: Terms, s: Snapshot, c: Cycle, id: nat)
    requires Unique(s.pending) && Fits(t, s, c) && id in c.failed
    ensures EntryIs(After(t, s, c).pending, id, FailCountOf(s.pending, id) + 1, c.failed[id])
  {
    var i :| 0 <= i < |s.pending| && s.pending[i].id == id;
    EntryFailCount(s.pending, i);
    SettledEntry(s.pending, c.Gone(), c.failed, i);
    SettleUnique(s.pending, c.Gone(), c.failed);
  }

  /** Marking jobs, and cycles that do not touch the job, leave its entry alone. */
  lemma EntryStays(t: Terms, s: Snapshot, h: Happening, id: nat, failures: nat, until: int)
    requires EntryIs(s.pending, id, failures, until)
    requires h.Ran? ==> id !in h.c.Gone() && id !in h.c.failed
    ensures EntryIs(Next(t, s, h).pending, id, failures, until)
  {
    var i :| 0 <= i < |s.pending| && s.pending[i].id == id && s.pending[i].failCount == failures && s.pending[i].backoffUntil == until;
    match h
    case Marked(other, ts) =>
      assert Next(t, s, h).pending[i] == s.pending[i];
    case Ran(c) =>
      SettledEntry(s.pending, c.Gone(), c.failed, i);
      SettleUnique(s.pending, c.Gone(), c.failed);
  }

  lemma {:induction false} EntryThroughout(t: Terms, s: Snapshot, hs: seq<Happening>, id: nat, failures: nat, until: int)
    requires EntryIs(s.pending, id, failures, until) && History(t, s, hs)
    requires forall h :: h in hs && h.Ran? ==> id !in h.c.Gone() && id !in h.c.failed
    ensures EntryIs(Leaves(t, s, hs).pending, id, failures, until)
    decreases |hs|
  {
    if hs != [] {
      EntryStays(t, s, hs[0], id, failures, until);
      EntryThroughout(t, Next(t, s, hs[0]), hs[1..], id, failures, until);
    }
  }

  /** Two failures in a row of one pending job, with anything happening to other jobs in between: the
      second is the next in number, and comes no sooner than the first one's delay. */
  lemma BackoffSpacing(t: Terms, s: Snapshot, first: Cycle, between: seq<Happening>, second: Cycle, id: nat)
    requires Unique(s.pending) && Fits(t, s, first) && id in first.failed
    requires History(t, After(t, s, first), between)
    requires forall h :: h in between && h.Ran? ==> id !in h.c.Gone() && id !in h.c.failed
    requires Fits(t, Leaves(t, After(t, s, first), between), second) && id in second.failed
    ensures var i := FailCountOf(s.pending, id) + 1;
            && FailCountOf(Leaves(t, After(t, s, first), between).pending, id) == i
            && second.at - first.at >= Seconds(ComputeBackoff(t.base, t.max, i))
            && second.failed[id] == PutOff(t, i + 1, second.at)
  {
    var s2 := Leaves(t, After(t, s, first), between);
    var n := FailCountOf(s.pending, id) + 1;
    FailureRecorded(t, s, first, id);
    EntryThroughout(t, After(t, s, first), between, id, n, first.failed[id]);
    EntryMeans(s2.pending, id, n, first.failed[id], second.at);
    FitsFailure(t, s, first, id);
    FitsFailure(t, s2, second, id);
    hide Fits, EntryIs, Due, Unique, Leaves, History, After, ComputeBackoff, FailCountOf, Seconds;
  }

  /** A charged job, with anything happening to other jobs since: it is put off for exactly the back-off of its
      new failure count from the head time of the charge on, and from then on it is a candidate whenever fewer
      than the batch cap of those with smaller ids are out of backoff. */
  lemma ReturnsExactly(t: Terms, s: Snapshot, first: Cycle, between: seq<Happening>, id: nat, at: int)
    requires Unique(s.pending) && Fits(t, s, first) && id in first.failed
    requires History(t, After(t, s, first), between)
    requires forall h :: h in between && h.Ran? ==> id !in h.c.Gone() && id !in h.c.failed
    ensures var p := Leaves(t, After(t, s, first), between).pending;
            var failures := FailCountOf(s.pending, id) + 1;
            var until := first.at + ComputeBackoff(t.base, t.max, failures) / 1_000_000_000;
            && (exists e :: e in p && e.id == id && e.failCount == failures && e.backoffUntil == until)
            && (id in Ids(Candidates(SortById(p), at, Cap(t))) <==>
                  && until <= at
                  && |set e | e in p && e.id < id && e.backoffUntil <= at| < if t.maxBatch < 1 then 1 else t.maxBatch)
  {
    var p := Leaves(t, After(t, s, first), between).pending;
    var failures := FailCountOf(s.pending, id) + 1;
    FailureRecorded(t, s, first, id);
    EntryThroughout(t, After(t, s, first), between, id, failures, first.failed[id]);
    FitsFailure(t, s, first, id);
    EntryReturns(t, p, id, failures, first.failed[id], at);
    hide Fits, EntryIs, Due, Unique, Leaves, History, After, ComputeBackoff, FailCountOf, Ids, Candidates, SortById;
  }

  lemma EntryReturns(t: Terms, p: seq<PendingJob>, id: nat, failures: nat, until: int, at: int)
    requires EntryIs(p, id, failures, until)
    ensures exists e :: e in p && e.id == id && e.failCount == failures && e.backoffUntil == until
    ensures id in Ids(Candidates(SortById(p), at, Cap(t))) <==>
              && until <= at
              && |set e | e in p && e.id < id && e.backoffUntil <= at| < if t.maxBatch < 1 then 1 else t.maxBatch
  {
    var i :| 0 <= i < |p| && p[i].id == id && p[i].failCount == failures && p[i].backoffUntil == until;
    var c := Candidates(SortById(p), at, Cap(t));
    CandidatesFrom(SortById(p), at, Cap(t));
    SortKeepsUnique(p);
    assert id in Ids(c) <==> p[i] in c by {
      forall k | 0 <= k < |c| && c[k].id == id ensures c[k] == p[i] {
        assert c[k] in p;
      }
    }
    if until <= at {
      CandidateIff(t, p, at, p[i]);
    }
  }

  lemma FitsFailure(t: Terms, s: Snapshot, c: Cycle, id: nat)
    requires Fits(t, s, c) && id in c.failed
    ensures Due(s.pending, id, c.at) && c.failed[id] == PutOff(t, FailCountOf(s.pending, id) + 1, c.at)
  {
  }

  lemma EntryMeans(p: seq<PendingJob>, id: nat, failures: nat, until: int, now: int)
    requires EntryIs(p, id, failures, until)
    ensures FailCountOf(p, id) == failures && (Due(p, id, now) ==> until <= now)
  {
    var i :| 0 <= i < |p| && p[i].id == id && p[i].failCount == failures && p[i].backoffUntil == until;
    EntryFailCount(p, i);
  }

  /** What the store's sorted snapshot makes a candidate is pending and out of backoff. */
  lemma CandidatesAreDue(p: seq<PendingJob>, now: int, room: nat)
    requires Unique(p)
    ensures forall id :: id in Ids(Candidates(SortById(p), now, room)) ==> Due(p, id, now) && Has(p, id)
  {
    CandidatesFrom(SortById(p), now, room);
    SortKeepsUnique(p);
    var c := Candidates(SortById(p), now, room);
    forall id | id in Ids(c) ensures Due(p, id, now) && Has(p, id) {
      var i :| 0 <= i < |c| && c[i].id == id;
      assert c[i] in p;
    }
  }

  // ---------------------------------------------------------------- draining

  /** A cycle in which everything it looked at was releasable or settled, and every call succeeded. */
  function FullCycle(t: Terms, p: seq<PendingJob>, now: int): seq<PendingJob> {
    Without(p, Ids(Candidates(SortById(p), now, Cap(t))))
  }

  /** A cycle that took all its candidates and charged none is full. */
  lemma CycleIsFull(t: Terms, s: Snapshot, c: Cycle)
    requires c.Gone() == Ids(Candidates(SortById(s.pending), c.at, Cap(t))) && c.failed == map[]
    ensures After(t, s, c).pending == FullCycle(t, s.pending, c.at)
  {
    WithoutIsSettle(s.pending, c.Gone());
  }

  function Drained(t: Terms, p: seq<PendingJob>, times: seq<int>): seq<PendingJob>
    decreases |times|
  {
    if times == [] then p else Drained(t, FullCycle(t, p, times[0]), times[1..])
  }

  lemma {:induction false} DrainedThen(t: Terms, p: seq<PendingJob>, times: seq<int>, at: int)
    ensures Drained(t, p, times + [at]) == FullCycle(t, Drained(t, p, times), at)
    decreases |times|
  {
    if times == [] {
      assert ([] + [at])[1..] == [];
    } else {
      assert (times + [at])[1..] == times[1..] + [at];
      DrainedThen(t, FullCycle(t, p, times[0]), times[1..], at);
    }
  }

  predicate AllDue(p: seq<PendingJob>, now: int) {
    forall i :: 0 <= i < |p| ==> p[i].backoffUntil <= now
  }

  lemma {:induction false} CandidatesOfDue(p: seq<PendingJob>, now: int, room: nat)
    requires AllDue(p, now)
    ensures |Candidates(p, now, room)| == if room <= |p| then room else |p|
  {
    if p != [] && room > 0 {
      CandidatesOfDue(p[1..], now, room - 1);
    }
  }

  lemma {:induction false} WithoutFrom(p: seq<PendingJob>, gone: set<nat>)
    ensures forall x :: x in Without(p, gone) ==> x in p
  {
    if p != [] {
      WithoutFrom(p[1..], gone);
    }
  }

  lemma {:induction false} WithoutSize(p: seq<PendingJob>, gone: set<nat>)
    requires Unique(p) && gone <= Ids(p)
    ensures |Without(p, gone)| == |p| - |gone|
  {
    hide Ids, Unique, Without;
    if p == [] {
      WithoutNone(gone);
    } else {
      HeadApart(p);
      WithoutHead(p, gone);
      var rest := gone - {p[0].id};
      WithoutSize(p[1..], rest);
      WithoutAbsent(p[1..], rest, p[0].id);
      if p[0].id in gone {
        assert gone == rest + {p[0].id};
      } else {
        assert gone == rest;
      }
    }
  }

  lemma WithoutNone(gone: set<nat>)
    requires gone <= Ids([])
    ensures Without([], gone) == [] && gone == {}
  {
  }

  lemma WithoutHead(p: seq<PendingJob>, gone: set<nat>)
    requires p != []
    ensures |Without(p, gone)| == (if p[0].id in gone then 0 else 1) + |Without(p[1..], gone)|
  {
  }

  lemma HeadApart(p: seq<PendingJob>)
    requires Unique(p) && p != []
    ensures Unique(p[1..]) && Ids(p) == {p[0].id} + Ids(p[1..]) && p[0].id !in Ids(p[1..])
  {
    IdsCons(p);
  }

  lemma {:induction false} WithoutAbsent(p: seq<PendingJob>, gone: set<nat>, id: nat)
    requires id !in Ids(p)
    ensures Without(p, gone + {id}) == Without(p, gone)
  {
    if p != [] {
      IdsCons(p);
      WithoutAbsent(p[1..], gone, id);
    }
  }

  lemma {:induction false} IdsSize(p: seq<PendingJob>)
    requires Unique(p)
    ensures |Ids(p)| == |p|
  {
    if p != [] {
      IdsSize(p[1..]);
      IdsCons(p);
      assert p[0].id !in Ids(p[1..]);
    }
  }

  lemma FullCycleDrains(t: Terms, p: seq<PendingJob>, now: int)
    requires Unique(p) && AllDue(p, now)
    ensures var q := FullCycle(t, p, now);
            && Unique(q) && |q| == (if |p| <= Cap(t) then 0 else |p| - Cap(t))
            && forall x :: x in q ==> x in p
  {
    var sorted := SortById(p);
    SortKeepsUnique(p);
    SortByIdSorts(p);
    assert |multiset(sorted)| == |multiset(p)|;
    var c := Candidates(sorted, now, Cap(t));
    assert AllDue(sorted, now) by {
      forall i | 0 <= i < |sorted| ensures sorted[i].backoffUntil <= now {
        assert sorted[i] in p;
      }
    }
    CandidatesOfDue(sorted, now, Cap(t));
    CandidatesFrom(sorted, now, Cap(t));
    IdsSize(c);
    forall id | id in Ids(c) ensures id in Ids(p) {
      var i :| 0 <= i < |c| && c[i].id == id;
      assert c[i] in sorted;
    }
    WithoutSize(p, Ids(c));
    WithoutFrom(p, Ids(c));
    WithoutIsSettle(p, Ids(c));
    SettleUnique(p, Ids(c), map[]);
  }

  /** With n jobs pending, all releasable and out of backoff, k fully successful cycles leave max(0, n - k m)
      for the batch cap m: the backlog is drained in ceil(n / m) cycles. */
  lemma {:induction false} DrainBound(t: Terms, p: seq<PendingJob>, times: seq<int>)
    requires Unique(p) && forall k :: 0 <= k < |times| ==> AllDue(p, times[k])
    ensures |Drained(t, p, times)| == if |p| <= |times| * Cap(t) then 0 else |p| - |times| * Cap(t)
    decreases |times|
  {
    if times != [] {
      FullCycleDrains(t, p, times[0]);
      var q := FullCycle(t, p, times[0]);
      forall k | 0 <= k < |times[1..]| ensures AllDue(q, times[1..][k]) {
        assert AllDue(p, times[k + 1]);
        forall i | 0 <= i < |q| ensures q[i].backoffUntil <= times[k + 1] {
          assert q[i] in p;
        }
      }
      DrainBound(t, q, times[1..]);
      assert |times| * Cap(t) == (|times| - 1) * Cap(t) + Cap(t);
    }
  }
}

/**
 The job watcher's view of the chain (internal/sortition/job_watcher.go): the JobSubmitted log, and a
 pass over it as a value. The per-job counters of inactive sessions behave as an odometer in base
 "retry limit", one digit per permanently inactive job of a block, which bounds how long a block can
 hold the watcher back.
 */
module JobLogs {
  import opened Common

  /** A JobSubmitted event. */
  datatype JobEvent = JobEvent(job: nat, session: nat, worker: nat, block: nat)

  predicate InOrder(log: seq<JobEvent>) {
    forall i, j :: 0 <= i < j < |log| ==> log[i].block <= log[j].block
  }

  /** What a filter over blocks lo..hi returns. */
  function Between(log: seq<JobEvent>, lo: nat, hi: nat): seq<JobEvent> {
    if log == [] then []
    else (if lo <= log[0].block <= hi then [log[0]] else []) + Between(log[1..], lo, hi)
  }

  lemma {:induction false} BetweenHas(log: seq<JobEvent>, lo: nat, hi: nat)
    ensures forall e :: e in Between(log, lo, hi) <==> e in log && lo <= e.block <= hi
    ensures InOrder(log) ==> InOrder(Between(log, lo, hi))
  {
    if log != [] {
      BetweenHas(log[1..], lo, hi);
      var rest := Between(log[1..], lo, hi);
      if InOrder(log) && lo <= log[0].block <= hi {
        forall i | 0 <= i < |rest| ensures log[0].block <= rest[i].block {
          assert rest[i] in log[1..];
        }
      }
    }
  }

  lemma {:induction false} BetweenNone(log: seq<JobEvent>, lo: nat, hi: nat)
    requires forall e :: e in log ==> !(lo <= e.block <= hi)
    ensures Between(log, lo, hi) == []
  {
    if log != [] {
      BetweenNone(log[1..], lo, hi);
    }
  }

  lemma {:induction false} BetweenSplit(log: seq<JobEvent>, lo: nat, mid: nat, hi: nat)
    requires InOrder(log) && lo <= mid <= hi
    ensures Between(log, lo, hi) == Between(log, lo, mid) + Between(log, mid + 1, hi)
  {
    if log != [] {
      var rest := log[1..];
      var left, right := Between(rest, lo, mid), Between(rest, mid + 1, hi);
      BetweenSplit(rest, lo, mid, hi);
      BetweenCons(log, lo, mid);
      BetweenCons(log, mid + 1, hi);
      BetweenCons(log, lo, hi);
      hide Between;
      if mid < log[0].block {
        assert forall e :: e in rest ==> e.block > mid;
        BetweenNone(rest, lo, mid);
        BetweenNone(log, lo, mid);
      } else {
        assert [log[0]] + (left + right) == ([log[0]] + left) + right;
      }
    }
  }

  lemma BetweenCons(log: seq<JobEvent>, lo: nat, hi: nat)
    requires log != []
    ensures Between(log, lo, hi) == (if lo <= log[0].block <= hi then [log[0]] else []) + Between(log[1..], lo, hi)
  {
  }

  /** Blocks already final are not filtered differently later. */
  lemma {:induction false} BetweenGrows(log: seq<JobEvent>, more: seq<JobEvent>, lo: nat, hi: nat)
    requires forall e :: e in more ==> e.block > hi
    ensures Between(log + more, lo, hi) == Between(log, lo, hi)
  {
    if log == [] {
      BetweenNone(more, lo, hi);
      assert log + more == more;
    } else {
      BetweenGrows(log[1..], more, lo, hi);
      assert (log + more)[1..] == log[1..] + more;
    }
  }

  // ---------------------------------------------------------------- one pass

  /** Us, the retry limit, and the jobs whose session is inactive for good. */
  datatype Setting = Setting(me: nat, limit: nat, dead: set<nat>)

  function Count(retries: map<nat, nat>, job: nat): nat {
    if job in retries then retries[job] else 0
  }

  /** The counters after a pass over the events when capacity is free and every other read succeeds, and
      the block it stopped at, if any. */
  function Scan(s: Setting, evs: seq<JobEvent>, retries: map<nat, nat>): (map<nat, nat>, Option<nat>)
    decreases |evs|
  {
    if evs == [] then (retries, None)
    else
      var e := evs[0];
      if e.worker != s.me then Scan(s, evs[1..], retries)
      else if e.job !in s.dead then Scan(s, evs[1..], retries - {e.job})
      else if Count(retries, e.job) + 1 < s.limit then (retries[e.job := Count(retries, e.job) + 1], Some(e.block))
      else Scan(s, evs[1..], retries - {e.job})
  }

  lemma ScanOne(s: Setting, e: JobEvent, retries: map<nat, nat>)
    ensures Scan(s, [e], retries) ==
            if e.worker != s.me then (retries, None)
            else if e.job in s.dead && Count(retries, e.job) + 1 < s.limit then
              (retries[e.job := Count(retries, e.job) + 1], Some(e.block))
            else (retries - {e.job}, None)
  {
    assert [e][1..] == [];
  }

  lemma {:induction false} ScanThen(s: Setting, a: seq<JobEvent>, b: seq<JobEvent>, retries: map<nat, nat>)
    ensures var first := Scan(s, a, retries);
            Scan(s, a + b, retries) == if first.1.Some? then first else Scan(s, b, first.0)
    decreases |a|
  {
    if a == [] {
      assert a + b == b;
    } else {
      assert (a + b)[1..] == a[1..] + b;
      ScanThen(s, a[1..], b, retries);
      ScanThen(s, a[1..], b, retries - {a[0].job});
    }
  }

  /** The pass over evts from counters r0 has come to event i with counters r. */
  ghost predicate OnTrack(s: Setting, evts: seq<JobEvent>, i: nat, r0: map<nat, nat>, r: map<nat, nat>) {
    i <= |evts| && Scan(s, evts, r0) == Scan(s, evts[i..], r)
  }

  lemma OnTrackFirst(s: Setting, evts: seq<JobEvent>, r0: map<nat, nat>)
    ensures OnTrack(s, evts, 0, r0, r0)
  {
    assert evts[0..] == evts;
  }

  lemma OnTrackNext(s: Setting, evts: seq<JobEvent>, i: nat, r0: map<nat, nat>, r: map<nat, nat>)
    requires OnTrack(s, evts, i, r0, r) && i < |evts|
    ensures var one := Scan(s, [evts[i]], r);
            && (one.1.None? ==> OnTrack(s, evts, i + 1, r0, one.0))
            && (one.1.Some? ==> Scan(s, evts, r0) == one)
  {
    assert evts[i..] == [evts[i]] + evts[i + 1..];
    ScanThen(s, [evts[i]], evts[i + 1..], r);
  }

  lemma OnTrackLast(s: Setting, evts: seq<JobEvent>, r0: map<nat, nat>, r: map<nat, nat>)
    requires OnTrack(s, evts, |evts|, r0, r)
    ensures Scan(s, evts, r0) == (r, None)
  {
    assert evts[|evts|..] == [];
  }

  /** The pass over blocks first..head from counters r0 has come to block lo with counters r. */
  ghost predicate AtBlock(s: Setting, log: seq<JobEvent>, first: nat, lo: nat, head: nat, r0: map<nat, nat>, r: map<nat, nat>) {
    Scan(s, Between(log, first, head), r0) == Scan(s, Between(log, lo, head), r)
  }

  lemma AtBlockNext(s: Setting, log: seq<JobEvent>, first: nat, lo: nat, hi: nat, head: nat, r0: map<nat, nat>, r: map<nat, nat>)
    requires InOrder(log) && lo <= hi <= head && AtBlock(s, log, first, lo, head, r0, r)
    ensures var chunk := Scan(s, Between(log, lo, hi), r);
            && (chunk.1.None? ==> AtBlock(s, log, first, hi + 1, head, r0, chunk.0))
            && (chunk.1.Some? ==> Scan(s, Between(log, first, head), r0) == chunk)
  {
    BetweenSplit(log, lo, hi, head);
    ScanThen(s, Between(log, lo, hi), Between(log, hi + 1, head), r);
  }

  lemma AtBlockLast(s: Setting, log: seq<JobEvent>, first: nat, head: nat, r0: map<nat, nat>, r: map<nat, nat>)
    requires AtBlock(s, log, first, head + 1, head, r0, r)
    ensures Scan(s, Between(log, first, head), r0) == (r, None)
  {
    BetweenNone(log, head + 1, head);
  }

  // ---------------------------------------------------------------- the odometer

  predicate Stuck(s: Setting, e: JobEvent) {
    e.worker == s.me && e.job in s.dead
  }

  function Pow(b: nat, k: nat): nat {
    if k == 0 then 1 else b * Pow(b, k - 1)
  }

  /** What a stuck job's digit still lacks to the retry limit, weighted by its place. */
  function Lacks(s: Setting, e: JobEvent, retries: map<nat, nat>, pos: nat): int {
    if Stuck(s, e) then (s.limit - 1 - Count(retries, e.job)) * Pow(s.limit, pos) else 0
  }

  /** The place of the event after the first. */
  function Here(s: Setting, evs: seq<JobEvent>, pos: nat): nat
    requires evs != []
  {
    if |evs| > 1 && evs[1].block == evs[0].block then pos + (if Stuck(s, evs[0]) then 1 else 0) else 0
  }

  /** How many more passes will stop among these events, the first of which has `pos` stuck jobs before it
      in its block: what each digit still lacks, weighted by its place in its block. */
  function Debt(s: Setting, evs: seq<JobEvent>, retries: map<nat, nat>, pos: nat): int
    decreases |evs|
  {
    if evs == [] then 0 else Lacks(s, evs[0], retries, pos) + Debt(s, evs[1..], retries, Here(s, evs, pos))
  }

  /** Each job was submitted once. */
  predicate Once(evs: seq<JobEvent>) {
    forall i, j :: 0 <= i < j < |evs| ==> evs[i].job != evs[j].job
  }

  /** The events from block b on: what is scanned again after a stop there. */
  function From(evs: seq<JobEvent>, b: nat): seq<JobEvent> {
    if evs == [] then [] else if evs[0].block >= b then evs else From(evs[1..], b)
  }

  predicate Digits(s: Setting, retries: map<nat, nat>) {
    forall j :: j in retries ==> retries[j] < s.limit
  }

  lemma {:induction false} DebtAgrees(s: Setting, evs: seq<JobEvent>, r: map<nat, nat>, q: map<nat, nat>, pos: nat)
    requires forall i :: 0 <= i < |evs| && Stuck(s, evs[i]) ==> Count(r, evs[i].job) == Count(q, evs[i].job)
    ensures Debt(s, evs, r, pos) == Debt(s, evs, q, pos)
    decreases |evs|
  {
    if evs != [] {
      DebtAgrees(s, evs[1..], r, q, Here(s, evs, pos));
    }
  }

  lemma {:induction false} ScanLeaves(s: Setting, evs: seq<JobEvent>, retries: map<nat, nat>, job: nat)
    requires forall i :: 0 <= i < |evs| ==> evs[i].job != job
    ensures Count(Scan(s, evs, retries).0, job) == Count(retries, job)
    decreases |evs|
  {
    if evs != [] {
      ScanLeaves(s, evs[1..], retries, job);
      ScanLeaves(s, evs[1..], retries - {evs[0].job}, job);
    }
  }

  lemma {:induction false} ScanStopsAt(s: Setting, evs: seq<JobEvent>, retries: map<nat, nat>)
    ensures Scan(s, evs, retries).1.Some? ==> exists i :: 0 <= i < |evs| && evs[i].block == Scan(s, evs, retries).1.value
    ensures s.limit >= 1 && Digits(s, retries) ==> Digits(s, Scan(s, evs, retries).0)
    decreases |evs|
  {
    if evs != [] {
      ScanStopsAt(s, evs[1..], retries);
      ScanStopsAt(s, evs[1..], retries - {evs[0].job});
      var r := Scan(s, evs, retries);
      if r.1.Some? && r.1.value != evs[0].block {
        var i :| 0 <= i < |evs[1..]| && evs[1..][i].block == r.1.value;
        assert evs[i + 1].block == r.1.value;
      }
    }
  }

  /** The place value a stop takes off: its own block's, or one when the stop is in a later block. */
  function Tick(s: Setting, evs: seq<JobEvent>, b: nat, pos: nat): int {
    if evs != [] && evs[0].block == b then Pow(s.limit, pos) else 1
  }

  /** A pass either owes nothing and gets through, or stops and owes exactly one less. */
  lemma {:induction false} OnePassLess(s: Setting, evs: seq<JobEvent>, retries: map<nat, nat>, pos: nat)
    requires s.limit >= 1 && Digits(s, retries) && InOrder(evs) && Once(evs)
    ensures var r := Scan(s, evs, retries);
            && (r.1.None? ==> Debt(s, evs, retries, pos) == 0)
            && (r.1.Some? ==>
                  Debt(s, From(evs, r.1.value), r.0, if evs != [] && evs[0].block == r.1.value then pos else 0)
                  == Debt(s, evs, retries, pos) - Tick(s, evs, r.1.value, pos))
    decreases |evs|
  {
    if evs != [] {
      var e, rest := evs[0], evs[1..];
      assert forall i :: 0 <= i < |rest| ==> rest[i] == evs[i + 1];
      if Stuck(s, e) && Count(retries, e.job) + 1 < s.limit {
        DebtAgrees(s, rest, retries, Scan(s, evs, retries).0, Here(s, evs, pos));
        Counted(s.limit, Count(retries, e.job), Pow(s.limit, pos));
      } else {
        PastFirst(s, evs, retries, pos);
      }
    }
  }

  /** The case of OnePassLess in which the first event does not stop the pass. */
  lemma {:induction false} PastFirst(s: Setting, evs: seq<JobEvent>, retries: map<nat, nat>, pos: nat)
    requires s.limit >= 1 && Digits(s, retries) && InOrder(evs) && Once(evs)
    requires evs != [] && !(Stuck(s, evs[0]) && Count(retries, evs[0].job) + 1 < s.limit)
    ensures var r := Scan(s, evs, retries);
            && (r.1.None? ==> Debt(s, evs, retries, pos) == 0)
            && (r.1.Some? ==>
                  Debt(s, From(evs, r.1.value), r.0, if evs[0].block == r.1.value then pos else 0)
                  == Debt(s, evs, retries, pos) - Tick(s, evs, r.1.value, pos))
    decreases |evs|, 0
  {
    var e, rest := evs[0], evs[1..];
    var next := if e.worker == s.me then retries - {e.job} else retries;
    var here := Here(s, evs, pos);
    assert forall i :: 0 <= i < |rest| ==> rest[i] == evs[i + 1];
    assert Scan(s, evs, retries) == Scan(s, rest, next);
    OnePassLess(s, rest, next, here);
    DebtAgrees(s, rest, retries, next, here);
    var r := Scan(s, rest, next);
    ScanStopsAt(s, rest, next);
    if Stuck(s, e) {
      assert Count(retries, e.job) == s.limit - 1;
      CarriedOver(s.limit, Pow(s.limit, pos));
    }
    if r.1.Some? {
      StopInRest(evs, r.1.value);
      ScanLeaves(s, rest, next, e.job);
    }
  }

  lemma Counted(limit: int, count: int, place: int)
    ensures (limit - 1 - (count + 1)) * place == (limit - 1 - count) * place - place
  {
  }

  lemma CarriedOver(limit: int, place: int)
    ensures (limit - 1 - 0) * place - limit * place == -place
    ensures (limit - 1 - (limit - 1)) * place == 0
  {
  }

  lemma StopInRest(evs: seq<JobEvent>, b: nat)
    requires InOrder(evs) && evs != [] && exists i :: 0 <= i < |evs[1..]| && evs[1..][i].block == b
    ensures b >= evs[1].block >= evs[0].block
    ensures b == evs[0].block ==> evs[1].block == b && From(evs, b) == evs && From(evs[1..], b) == evs[1..]
    ensures b > evs[0].block ==> From(evs, b) == From(evs[1..], b)
    ensures b == evs[1].block ==> From(evs[1..], b) == evs[1..]
  {
    var i :| 0 <= i < |evs[1..]| && evs[1..][i].block == b;
    assert evs[i + 1].block == b;
  }

  // ---------------------------------------------------------------- many passes

  /** What survives between passes. */
  datatype Progress = Progress(cursor: nat, retries: map<nat, nat>)

  function Pass(s: Setting, log: seq<JobEvent>, p: Progress, head: nat): Progress {
    if head <= p.cursor then p
    else
      var r := Scan(s, Between(log, p.cursor + 1, head), p.retries);
      Progress(if r.1.Some? && r.1.value > 0 then r.1.value - 1 else head, r.0)
  }

  function Passes(s: Setting, log: seq<JobEvent>, p: Progress, heads: seq<nat>): Progress
    decreases |heads|
  {
    if heads == [] then p else Passes(s, log, Pass(s, log, p, heads[0]), heads[1..])
  }

  /** The stops still to come before block `target` is behind. */
  function Owed(s: Setting, log: seq<JobEvent>, p: Progress, target: nat): int {
    if target <= p.cursor then -1 else Debt(s, Between(log, p.cursor + 1, target), p.retries, 0)
  }

  lemma {:induction false} OnceBetween(log: seq<JobEvent>, lo: nat, hi: nat)
    requires Once(log)
    ensures Once(Between(log, lo, hi))
  {
    if log != [] {
      OnceBetween(log[1..], lo, hi);
      BetweenHas(log[1..], lo, hi);
      assert forall e :: e in log[1..] ==> e.job != log[0].job;
    }
  }

  lemma {:induction false} FromBetween(log: seq<JobEvent>, lo: nat, b: nat, hi: nat)
    requires InOrder(log) && lo <= b
    ensures From(Between(log, lo, hi), b) == Between(log, b, hi)
  {
    if log != [] {
      FromBetween(log[1..], lo, b, hi);
      var rest := Between(log[1..], lo, hi);
      assert ([log[0]] + rest)[1..] == rest && [] + rest == rest;
      if log[0].block >= b {
        BetweenSame(log[1..], lo, b, hi);
      }
    }
  }

  lemma {:induction false} BetweenSame(log: seq<JobEvent>, lo: nat, b: nat, hi: nat)
    requires lo <= b && forall e :: e in log ==> e.block >= b
    ensures Between(log, lo, hi) == Between(log, b, hi)
  {
    if log != [] {
      BetweenSame(log[1..], lo, b, hi);
    }
  }

  lemma LacksNonNegative(s: Setting, e: JobEvent, retries: map<nat, nat>, pos: nat)
    requires s.limit >= 1 && Digits(s, retries)
    ensures Lacks(s, e, retries, pos) >= 0
  {
    Product(s.limit - 1 - Count(retries, e.job), Pow(s.limit, pos));
  }

  lemma Product(a: nat, b: nat)
    ensures a * b >= 0
  {
  }

  lemma {:induction false} DebtNonNegative(s: Setting, evs: seq<JobEvent>, retries: map<nat, nat>, pos: nat)
    requires s.limit >= 1 && Digits(s, retries)
    ensures Debt(s, evs, retries, pos) >= 0
    decreases |evs|
  {
    if evs != [] {
      DebtNonNegative(s, evs[1..], retries, Here(s, evs, pos));
      LacksNonNegative(s, evs[0], retries, pos);
      hide Lacks;
    }
  }

  lemma OwedLess(s: Setting, log: seq<JobEvent>, p: Progress, target: nat, head: nat)
    requires s.limit >= 1 && Digits(s, p.retries) && InOrder(log) && Once(log) && target <= head
    requires p.cursor < target
    ensures var p' := Pass(s, log, p, head);
            && Digits(s, p'.retries) && p'.cursor >= p.cursor
            && Owed(s, log, p', target) == Owed(s, log, p, target) - 1
  {
    hide Debt, Scan, Between, From, Once, InOrder, Digits;
    var lo := p.cursor + 1;
    var evs, later := Between(log, lo, target), Between(log, target + 1, head);
    BetweenSplit(log, lo, target, head);
    ScanThen(s, evs, later, p.retries);
    BetweenHas(log, lo, target);
    BetweenHas(log, target + 1, head);
    OnceBetween(log, lo, target);
    OnePassLess(s, evs, p.retries, 0);
    ScanStopsAt(s, evs, p.retries);
    var r := Scan(s, evs, p.retries);
    if r.1.Some? {
      var i :| 0 <= i < |evs| && evs[i].block == r.1.value;
      assert evs[i] in evs;
      FromBetween(log, lo, r.1.value, target);
    } else {
      ScanStopsAt(s, later, r.0);
      if Scan(s, later, r.0).1.Some? {
        var i :| 0 <= i < |later| && later[i].block == Scan(s, later, r.0).1.value;
        assert later[i] in later;
      }
    }
  }

  lemma PassKeeps(s: Setting, log: seq<JobEvent>, p: Progress, head: nat)
    requires s.limit >= 1 && Digits(s, p.retries)
    ensures var p' := Pass(s, log, p, head); Digits(s, p'.retries) && p'.cursor >= p.cursor
  {
    if head > p.cursor {
      var evs := Between(log, p.cursor + 1, head);
      ScanStopsAt(s, evs, p.retries);
      BetweenHas(log, p.cursor + 1, head);
      var r := Scan(s, evs, p.retries);
      if r.1.Some? {
        var i :| 0 <= i < |evs| && evs[i].block == r.1.value;
        assert evs[i] in evs;
      }
    }
  }

  /** The watcher cannot be wedged, and takes no longer than it must: however many jobs up to a block are
      stuck for good, passes whose head is beyond it leave it behind exactly when there are more of them
      than the odometer owes. */
  lemma {:induction false} NeverWedged(s: Setting, log: seq<JobEvent>, p: Progress, target: nat, heads: seq<nat>)
    requires s.limit >= 1 && Digits(s, p.retries) && InOrder(log) && Once(log)
    requires forall k :: 0 <= k < |heads| ==> heads[k] >= target
    ensures Passes(s, log, p, heads).cursor >= target <==> |heads| > Owed(s, log, p, target)
    decreases |heads|
  {
    if target > p.cursor {
      DebtNonNegative(s, Between(log, p.cursor + 1, target), p.retries, 0);
    }
    if heads != [] {
      PassKeeps(s, log, p, heads[0]);
      NeverWedged(s, log, Pass(s, log, p, heads[0]), target, heads[1..]);
      if target > p.cursor {
        OwedLess(s, log, p, target, heads[0]);
      }
    }
  }

  lemma {:induction false} PassesThen(s: Setting, log: seq<JobEvent>, p: Progress, heads: seq<nat>, head: nat)
    ensures Passes(s, log, p, heads + [head]) == Pass(s, log, Passes(s, log, p, heads), head)
    decreases |heads|
  {
    if heads == [] {
      assert ([] + [head])[1..] == [];
    } else {
      assert (heads + [head])[1..] == heads[1..] + [head];
      PassesThen(s, log, Pass(s, log, p, heads[0]), heads[1..], head);
    }
  }

  /** Blocks that become final later change no pass already made. */
  lemma {:induction false} PassesStable(s: Setting, log: seq<JobEvent>, more: seq<JobEvent>, p: Progress, heads: seq<nat>)
    requires forall e, k :: e in more && 0 <= k < |heads| ==> e.block > heads[k]
    ensures Passes(s, log + more, p, heads) == Passes(s, log, p, heads)
    decreases |heads|
  {
    if heads != [] {
      BetweenGrows(log, more, p.cursor + 1, heads[0]);
      PassesStable(s, log, more, Pass(s, log, p, heads[0]), heads[1..]);
    }
  }

  /** How many of the events are stuck. */
  function StuckCount(s: Setting, evs: seq<JobEvent>): nat {
    if evs == [] then 0 else (if Stuck(s, evs[0]) then 1 else 0) + StuckCount(s, evs[1..])
  }

  /** With fresh counters, k stuck jobs in one block owe L^k - 1 stops, so L^k passes get by. */
  lemma {:induction false} DebtOfBlock(s: Setting, evs: seq<JobEvent>, retries: map<nat, nat>, pos: nat)
    requires s.limit >= 1
    requires forall i :: 0 <= i < |evs| ==> evs[i].block == evs[0].block
    requires forall i :: 0 <= i < |evs| && Stuck(s, evs[i]) ==> Count(retries, evs[i].job) == 0
    ensures Debt(s, evs, retries, pos) == Pow(s.limit, pos + StuckCount(s, evs)) - Pow(s.limit, pos)
    decreases |evs|
  {
    if evs != [] {
      var rest := evs[1..];
      assert forall i :: 0 <= i < |rest| ==> rest[i] == evs[i + 1];
      if rest != [] {
        DebtOfBlock(s, rest, retries, pos + if Stuck(s, evs[0]) then 1 else 0);
      }
      if Stuck(s, evs[0]) {
        CarriedOver(s.limit, Pow(s.limit, pos));
        assert Pow(s.limit, pos + 1) == s.limit * Pow(s.limit, pos);
      }
    }
  }

  /** Blocks owe independently: their debts add. */
  lemma {:induction false} DebtAdds(s: Setting, a: seq<JobEvent>, b: seq<JobEvent>, retries: map<nat, nat>, pos: nat)
    requires a != [] && (b != [] ==> a[|a| - 1].block != b[0].block)
    ensures Debt(s, a + b, retries, pos) == Debt(s, a, retries, pos) + Debt(s, b, retries, 0)
    decreases |a|
  {
    assert (a + b)[1..] == a[1..] + b;
    if |a| > 1 {
      var here := Here(s, a, pos);
      assert a[1..][|a[1..]| - 1] == a[|a| - 1];
      DebtAdds(s, a[1..], b, retries, here);
    } else {
      assert a[1..] + b == b;
    }
  }

  lemma {:induction false} DebtFree(s: Setting, evs: seq<JobEvent>, retries: map<nat, nat>, pos: nat)
    requires forall i :: 0 <= i < |evs| ==> !Stuck(s, evs[i])
    ensures Debt(s, evs, retries, pos) == 0
    decreases |evs|
  {
    if evs != [] {
      DebtFree(s, evs[1..], retries, Here(s, evs, pos));
    }
  }

  lemma DebtSkips(s: Setting, a: seq<JobEvent>, b: seq<JobEvent>, retries: map<nat, nat>)
    requires forall e :: e in a ==> !Stuck(s, e)
    requires forall e, f :: e in a && f in b ==> e.block < f.block
    ensures Debt(s, a + b, retries, 0) == Debt(s, b, retries, 0)
  {
    hide Debt, Stuck;
    if a == [] {
      assert a + b == b;
    } else {
      assert a[|a| - 1] in a && (b != [] ==> b[0] in b);
      DebtAdds(s, a, b, retries, 0);
      DebtFree(s, a, retries, 0);
    }
  }

  lemma BlockOwes(s: Setting, log: seq<JobEvent>, cursor: nat, target: nat)
    requires s.limit >= 1 && InOrder(log) && cursor < target
    requires forall e :: e in log && cursor < e.block < target ==> !Stuck(s, e)
    ensures Debt(s, Between(log, cursor + 1, target), map[], 0)
            == Pow(s.limit, StuckCount(s, Between(log, target, target))) - 1
  {
    hide Debt, Between, StuckCount, InOrder, Stuck, Pow;
    var here := Between(log, target, target);
    BetweenHas(log, target, target);
    assert forall i :: 0 <= i < |here| ==> here[i] in here;
    DebtOfBlock(s, here, map[], 0);
    PowAtZero(s.limit);
    if cursor + 1 < target {
      var before := Between(log, cursor + 1, target - 1);
      BetweenSplit(log, cursor + 1, target - 1, target);
      BetweenHas(log, cursor + 1, target - 1);
      DebtSkips(s, before, here, map[]);
    }
  }

  lemma PowAtZero(b: nat)
    ensures Pow(b, 0) == 1
  {
  }

  /** k jobs stuck for good in one block, nothing stuck before it, fresh counters: L^k passes are enough,
      and no fewer are. */
  lemma OneBlockBound(s: Setting, log: seq<JobEvent>, cursor: nat, target: nat, heads: seq<nat>)
    requires s.limit >= 1 && InOrder(log) && Once(log) && cursor < target
    requires forall k :: 0 <= k < |heads| ==> heads[k] >= target
    requires forall e :: e in log && cursor < e.block < target ==> !Stuck(s, e)
    ensures var k := StuckCount(s, Between(log, target, target));
            Passes(s, log, Progress(cursor, map[]), heads).cursor >= target <==> |heads| >= Pow(s.limit, k)
  {
    hide Debt, Between, Passes, StuckCount, Pow, InOrder, Once, Stuck;
    BlockOwes(s, log, cursor, target);
    NeverWedged(s, log, Progress(cursor, map[]), target, heads);
  }
}

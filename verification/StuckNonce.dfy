/**
 Stuck-nonce tracking (internal/chain/stuck_nonce.go). Rejections are counted per
 nonce; entries that have aged out are evicted lazily, on whatever Record happens to
 come next. The tracker carries the history of its calls, and the counts are proved
 to be a function of that history alone: nobody can observe when eviction ran.
 */
module StuckNonces {

  datatype Entry = Entry(hits: nat, lastSeen: int)

  /** A Record reads the clock twice: `at` before the sweep, `seen` when it stamps the entry. */
  datatype Event = Recorded(n: nat, at: int, seen: int) | Cleared

  datatype Stamp = Stamp(at: int, seen: int)

  /** The records at n since the last Clear, oldest first. */
  function Stamps(h: seq<Event>, n: nat): seq<Stamp> {
    if h == [] then []
    else
      var e, before := h[|h| - 1], h[..|h| - 1];
      match e
      case Cleared => []
      case Recorded(m, at, seen) => if m == n then Stamps(before, n) + [Stamp(at, seen)] else Stamps(before, n)
  }

  /** The gap before record i is within the lifetime. */
  predicate Close(ts: seq<Stamp>, i: int, ttl: nat) {
    0 < i < |ts| && ts[i].at - ts[i - 1].seen <= ttl
  }

  /** k is the length of the longest final run of records with gaps within the lifetime. */
  ghost predicate FinalRun(ts: seq<Stamp>, k: nat, ttl: nat) {
    && k <= |ts|
    && (k == 0 <==> ts == [])
    && (forall i :: |ts| - k < i < |ts| ==> Close(ts, i, ttl))
    && (0 < k < |ts| ==> !Close(ts, |ts| - k, ttl))
  }

  lemma FinalRunUnique(ts: seq<Stamp>, k: nat, l: nat, ttl: nat)
    requires FinalRun(ts, k, ttl) && FinalRun(ts, l, ttl)
    ensures k == l
  {
    assert 0 < k < l ==> Close(ts, |ts| - k, ttl);
    assert 0 < l < k ==> Close(ts, |ts| - l, ttl);
  }

  lemma ExtendRun(ts: seq<Stamp>, k: nat, t: Stamp, ttl: nat)
    requires FinalRun(ts, k, ttl)
    ensures var near := ts != [] && t.at - ts[|ts| - 1].seen <= ttl;
            FinalRun(ts + [t], if near then k + 1 else 1, ttl)
  {
    var ts' := ts + [t];
    var near := ts != [] && t.at - ts[|ts| - 1].seen <= ttl;
    var k' := if near then k + 1 else 1;
    assert forall i :: i < |ts| ==> Close(ts', i, ttl) == Close(ts, i, ttl);
    if ts != [] {
      assert Close(ts', |ts|, ttl) == near;
    }
  }

  lemma {:induction false} AnyRun(ts: seq<Stamp>, ttl: nat)
    ensures exists k: nat :: FinalRun(ts, k, ttl)
  {
    if ts == [] {
      assert FinalRun(ts, 0, ttl);
    } else {
      AnyRun(ts[..|ts| - 1], ttl);
      var k: nat :| FinalRun(ts[..|ts| - 1], k, ttl);
      ExtendRun(ts[..|ts| - 1], k, ts[|ts| - 1], ttl);
      assert ts[..|ts| - 1] + [ts[|ts| - 1]] == ts;
    }
  }

  /** The map is accurate at n: an entry is the final run of its nonce; a nonce without one was
      cleared, or has aged out. */
  ghost predicate Accurate(entries: map<nat, Entry>, ts: seq<Stamp>, clock: int, ttl: nat, n: nat) {
    && (ts != [] ==> ts[|ts| - 1].seen <= clock)
    && (n in entries ==>
          && FinalRun(ts, entries[n].hits, ttl)
          && ts != [] && entries[n].lastSeen == ts[|ts| - 1].seen)
    && (n !in entries ==> ts == [] || ts[|ts| - 1].seen < clock - ttl)
  }

  function Fresh(entries: map<nat, Entry>, cutoff: int): map<nat, Entry> {
    map n | n in entries && entries[n].lastSeen >= cutoff :: entries[n]
  }

  /** Sweeping at a later time keeps every nonce accurate: this is where lateness is harmless. */
  lemma SweepAccurate(entries: map<nat, Entry>, ts: seq<Stamp>, clock: int, at: int, ttl: nat, n: nat)
    requires Accurate(entries, ts, clock, ttl, n) && clock <= at
    ensures Accurate(Fresh(entries, at - ttl), ts, at, ttl, n)
  {
  }

  /** One more record at n after a sweep continues or restarts the run, as the gap decides. */
  lemma CountAccurate(swept: map<nat, Entry>, ts: seq<Stamp>, at: int, seen: int, ttl: nat, n: nat)
    requires Accurate(swept, ts, at, ttl, n) && at <= seen
    requires forall m :: m in swept ==> swept[m].lastSeen >= at - ttl
    ensures var hits := if n in swept then swept[n].hits + 1 else 1;
            && FinalRun(ts + [Stamp(at, seen)], hits, ttl)
            && Accurate(swept[n := Entry(hits, seen)], ts + [Stamp(at, seen)], seen, ttl, n)
  {
    AnyRun(ts, ttl);
    var k: nat :| FinalRun(ts, k, ttl);
    if n in swept {
      FinalRunUnique(ts, k, swept[n].hits, ttl);
    }
    ExtendRun(ts, k, Stamp(at, seen), ttl);
  }

  class StuckNonceTracker {
    var entries: map<nat, Entry>
    var bumpAttempts: nat
    var lastBumpNonce: nat
    var hasLastBumpNonce: bool
    const entryTTL: nat
    // the calls so far and the monotone clock's latest reading
    ghost var history: seq<Event>
    var clock: int

    ghost predicate Valid()
      reads this
    {
      && (forall n: nat :: Accurate(entries, Stamps(history, n), clock, entryTTL, n))
      && (bumpAttempts > 0 ==> hasLastBumpNonce)
    }

    constructor (ttl: nat, now: int)
      ensures Valid() && entryTTL == ttl && history == [] && clock == now && bumpAttempts == 0
    {
      entries, bumpAttempts, lastBumpNonce, hasLastBumpNonce := map[], 0, 0, false;
      entryTTL := ttl;
      history, clock := [], now;
    }

    /** The latest call was a Record of this nonce. */
    ghost predicate JustRecorded(n: nat)
      reads this
    {
      history != [] && history[|history| - 1].Recorded? && history[|history| - 1].n == n
    }

    /** Drops every entry last seen before the cutoff, one map key at a time. */
    method ReapStale(now: int)
      modifies this`entries
      ensures entries == Fresh(old(entries), now - entryTTL)
    {
      var todo := entries.Keys;
      var cutoff := now - entryTTL;
      while todo != {}
        invariant todo <= old(entries).Keys
        invariant entries.Keys == set n | n in old(entries) && (n in todo || old(entries)[n].lastSeen >= cutoff)
        invariant forall n :: n in entries ==> entries[n] == old(entries)[n]
        decreases todo
      {
        var n :| n in todo;
        todo := todo - {n};
        if entries[n].lastSeen < cutoff {
          entries := entries - {n};
        }
      }
    }

    /** Record returns the length of the longest final run of Record(n) calls since the last Clear
        with consecutive gaps of at most entryTTL, whatever was recorded at other nonces in between. An entry
        goes on counting if it was seen within the lifetime, and every entry seen longer ago is dropped. */
    method Record(n: nat) returns (hits: nat, ghost at: int, ghost seen: int)
      requires Valid()
      modifies this
      ensures Valid() && old(clock) <= at <= seen
      ensures history == old(history) + [Recorded(n, at, seen)] && clock == seen
      ensures FinalRun(Stamps(history, n), hits, entryTTL)
      ensures hits == (if n in old(entries) && at - old(entries)[n].lastSeen <= entryTTL then old(entries)[n].hits + 1 else 1)
      ensures n in entries && entries[n] == Entry(hits, seen)
      ensures forall m :: m != n ==>
                && (m in entries <==> m in old(entries) && at - old(entries)[m].lastSeen <= entryTTL)
                && (m in entries ==> entries[m] == old(entries)[m])
      ensures bumpAttempts == old(bumpAttempts)
      ensures lastBumpNonce == old(lastBumpNonce) && hasLastBumpNonce == old(hasLastBumpNonce)
    {
      ghost var h := history;
      var now: int :| clock <= now;
      ReapStale(now);
      ghost var swept := entries;
      hits := if n in entries then entries[n].hits + 1 else 1;
      var stamp: int :| now <= stamp;
      at, seen := now, stamp;
      entries := entries[n := Entry(hits, stamp)];
      history := history + [Recorded(n, at, seen)];
      clock := stamp;
      assert history[..|history| - 1] == h;
      forall m: nat ensures Accurate(entries, Stamps(history, m), clock, entryTTL, m)
                    ensures m == n ==> FinalRun(Stamps(history, n), hits, entryTTL)
      {
        SweepAccurate(old(entries), Stamps(h, m), old(clock), at, entryTTL, m);
        if m == n {
          CountAccurate(swept, Stamps(h, n), at, seen, entryTTL, n);
        }
      }
    }

    method Clear()
      requires Valid()
      modifies this
      ensures Valid() && history == old(history) + [Cleared] && clock == old(clock)
      ensures entries == map[] && bumpAttempts == 0 && !hasLastBumpNonce
    {
      var todo := entries.Keys;
      while todo != {}
        invariant todo == entries.Keys
        invariant clock == old(clock) && history == old(history)
        decreases todo
      {
        var n :| n in todo;
        entries := entries - {n};
        todo := todo - {n};
      }
      bumpAttempts, hasLastBumpNonce, lastBumpNonce := 0, false, 0;
      history := history + [Cleared];
      assert forall n: nat :: Stamps(history, n) == [];
    }

    /** HitsAt evicts nothing, so it can report a run that has already aged out. */
    method HitsAt(n: nat) returns (hits: nat)
      requires Valid()
      ensures hits > 0 ==> FinalRun(Stamps(history, n), hits, entryTTL)
      ensures hits == 0 ==>
                var ts := Stamps(history, n); ts == [] || ts[|ts| - 1].seen < clock - entryTTL
    {
      assert Accurate(entries, Stamps(history, n), clock, entryTTL, n);
      hits := if n in entries then entries[n].hits else 0;
    }

    function BumpAttemptsUsedFor(n: nat): nat
      reads this
    {
      if !hasLastBumpNonce || lastBumpNonce != n then 0 else bumpAttempts
    }

    /** Counts a replacement attempt at n; a first attempt at another nonce starts a new budget. */
    method IncrementBumpAttemptsFor(n: nat)
      requires Valid()
      modifies this`bumpAttempts, this`lastBumpNonce, this`hasLastBumpNonce
      ensures Valid() && hasLastBumpNonce && lastBumpNonce == n
      ensures bumpAttempts == (if old(hasLastBumpNonce) && old(lastBumpNonce) == n then old(bumpAttempts) else 0) + 1
    {
      if !hasLastBumpNonce || lastBumpNonce != n {
        bumpAttempts := 0;
        lastBumpNonce := n;
        hasLastBumpNonce := true;
      }
      bumpAttempts := bumpAttempts + 1;
    }

    /** Any calls by the other goroutines sharing the key; the contract is the model. */
    method Others()
      requires Valid()
      modifies this
      ensures Valid() && clock >= old(clock)
    {
    }
  }
}

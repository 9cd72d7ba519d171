/**
 The session watcher (internal/sortition/session_watcher.go): discovery of session requests behind a
 persistent cursor, an in-memory pending set that a restart loses, and the look-back that rebuilds it.
 */
module SessionWatchers {
  import opened Common
  import opened Cursors

  const DefaultChunk: nat := 5000
  const ReseedMaxAttempts: nat := 10

  /** A SessionRequested event. */
  datatype Request = Request(id: nat, block: nat)

  /** What this process has been told about requests: those seen non-Open, the expiries and capability masks
      (sets of bits) read, the claims attempted, and the latest reading of the clock. */
  datatype Evidence = Evidence(notOpen: set<nat>, expiry: map<nat, nat>, caps: map<nat, set<nat>>,
                               attempted: set<nat>, clock: nat)

  const NoEvidence := Evidence({}, map[], map[], {}, 0)

  /** The clock has been read past the request's expiry. */
  predicate Expired(e: Evidence, id: nat) {
    id in e.expiry && e.clock > e.expiry[id]
  }

  /** The reasons to forget a request: seen non-Open, expired, beyond our capabilities, or a claim was
      attempted. */
  predicate Settled(e: Evidence, own: set<nat>, id: nat) {
    id in e.notOpen || Expired(e, id) || (id in e.caps && !(e.caps[id] <= own)) || id in e.attempted
  }

  predicate Grows(e: Evidence, more: Evidence) {
    && e.notOpen <= more.notOpen && e.attempted <= more.attempted && e.clock <= more.clock
    && (forall id :: id in e.expiry ==> id in more.expiry && more.expiry[id] == e.expiry[id])
    && (forall id :: id in e.caps ==> id in more.caps && more.caps[id] == e.caps[id])
  }

  /** A cached mask is the one the chain told. */
  predicate CapsKnown(pending: map<nat, Option<set<nat>>>, e: Evidence) {
    forall id :: id in pending && pending[id].Some? ==> id in e.caps && e.caps[id] == pending[id].value
  }

  /** No request of blocks (low, high] was forgotten. */
  ghost predicate Remembered(log: set<Request>, known: set<nat>, e: Evidence, own: set<nat>, low: nat, high: nat) {
    forall r :: r in log && low < r.block <= high ==> r.id in known || Settled(e, own, r.id)
  }

  lemma RememberedGrows(log: set<Request>, log': set<Request>, final: nat, known: set<nat>, e: Evidence,
                        own: set<nat>, low: nat, high: nat)
    requires Remembered(log, known, e, own, low, high) && high <= final
    requires forall r :: r in log' && r !in log ==> r.block > final
    ensures Remembered(log', known, e, own, low, high)
  {
  }

  lemma RememberedNothing(log: set<Request>, known: set<nat>, e: Evidence, own: set<nat>, at: nat)
    ensures Remembered(log, known, e, own, at, at)
  {
  }

  lemma GrowsAtFirst(e: Evidence)
    ensures Grows(e, e)
  {
  }

  lemma RememberedMore(log: set<Request>, known: set<nat>, known': set<nat>, e: Evidence, e': Evidence,
                       own: set<nat>, low: nat, high: nat)
    requires Remembered(log, known, e, own, low, high) && Grows(e, e')
    requires forall id :: id in known ==> id in known' || Settled(e', own, id)
    ensures Remembered(log, known', e', own, low, high)
  {
  }

  /** Adding what a filter over lo..hi returned extends the range, upwards or downwards. */
  lemma RememberedJoins(log: set<Request>, known: set<nat>, found: set<nat>, e: Evidence, own: set<nat>,
                        low: nat, mid: nat, high: nat)
    requires low <= mid <= high
    requires Remembered(log, known, e, own, low, mid)
    requires forall r :: r in log && mid < r.block <= high ==> r.id in found
    ensures Remembered(log, known + found, e, own, low, high)
  {
  }

  function IdsIn(log: set<Request>, lo: nat, hi: nat): set<nat> {
    set r | r in log && lo <= r.block <= hi :: r.id
  }

  lemma NoneIn(log: set<Request>, at: nat)
    ensures IdsIn(log, at + 1, at) == {}
  {
  }

  lemma IdsJoin(log: set<Request>, lo: nat, mid: nat, hi: nat)
    requires lo <= mid <= hi && mid > 0
    ensures IdsIn(log, lo, hi) == IdsIn(log, lo, mid - 1) + IdsIn(log, mid, hi)
  {
  }

  lemma SettledStays(e: Evidence, more: Evidence, own: set<nat>)
    requires Grows(e, more)
    ensures forall id :: Settled(e, own, id) ==> Settled(more, own, id)
  {
  }

  lemma InRange(log: set<Request>, lo: nat, hi: nat)
    ensures forall r :: r in log && lo <= r.block <= hi ==> r.id in IdsIn(log, lo, hi)
  {
  }

  lemma RememberedBehind(log: set<Request>, known: set<nat>, e: Evidence, own: set<nat>, low: nat, mid: nat, high: nat)
    requires Remembered(log, known, e, own, mid, high)
    requires forall r :: r in log && low < r.block <= mid ==> r.id in known
    ensures Remembered(log, known, e, own, low, high)
  {
  }

  // ---------------------------------------------------------------- one pass as a value

  /** The stored cursor, and what the process remembers. */
  datatype Mind = Mind(stored: Option<nat>, seeded: bool, tries: nat, pending: set<nat>)

  const Blank := Mind(None, false, 0, {})

  function Reached(m: Mind): nat {
    if m.stored.Some? then m.stored.value else 0
  }

  /** What the chain and the disk answer during a pass: the safe head, whether the cursor could be read and,
      if it had to be, seeded; how far the look-back and discovery got before a filter failed, and how far the
      cursor was stored; and which requests evaluation dropped. */
  datatype Answers = Answers(head: Option<nat>, cursorRead: bool, cursorSeeded: bool, lookedTo: nat,
                             addedTo: nat, storedTo: nat, dropped: set<nat>)

  /** The pass stores a cursor behind the safe head because none was stored. */
  predicate Seeds(lookback: nat, m: Mind, a: Answers) {
    m.stored.None? && a.head.Some? && a.head.value > lookback && a.cursorRead && a.cursorSeeded
  }

  /** Where the pass resumes, if it gets that far. */
  function ResumeAt(lookback: nat, m: Mind, a: Answers): Option<nat> {
    if a.head.None? || !a.cursorRead then None
    else if m.stored.Some? then m.stored
    else if a.head.value <= lookback then Some(0)
    else if a.cursorSeeded then Some(a.head.value - lookback)
    else None
  }

  function LookBackFrom(lookback: nat, cursor: nat): nat {
    if cursor > lookback then cursor - lookback + 1 else 1
  }

  function AfterResume(lookback: nat, m: Mind, a: Answers): Mind {
    if Seeds(lookback, m, a) then m.(stored := Some(a.head.value - lookback), seeded := true) else m
  }

  function AfterLookBack(lookback: nat, log: set<Request>, m: Mind, a: Answers, cursor: nat): Mind {
    if m.seeded then m
    else if lookback == 0 || cursor == 0 then m.(seeded := true)
    else
      var to := if a.lookedTo < cursor then a.lookedTo else cursor;
      var found := m.(pending := m.pending + IdsIn(log, LookBackFrom(lookback, cursor), to));
      if to == cursor then found.(seeded := true)
      else found.(tries := m.tries + 1, seeded := m.tries + 1 >= ReseedMaxAttempts)
  }

  function AfterDiscovery(log: set<Request>, m: Mind, a: Answers, cursor: nat): Mind {
    m.(stored := if a.storedTo > cursor then Some(a.storedTo) else m.stored,
       pending := m.pending + IdsIn(log, cursor + 1, a.addedTo))
  }

  function PassOf(lookback: nat, log: set<Request>, m: Mind, a: Answers): Mind {
    var at := ResumeAt(lookback, m, a);
    if at.None? then m
    else
      var found := AfterDiscovery(log, AfterLookBack(lookback, log, AfterResume(lookback, m, a), a, at.value), a, at.value);
      found.(pending := found.pending - a.dropped)
  }

  lemma ResumeMeans(lookback: nat, log: set<Request>, m: Mind, a: Answers)
    ensures ResumeAt(lookback, m, a).None? ==> PassOf(lookback, log, m, a) == m && Possible(lookback, m, a)
    ensures Seeds(lookback, m, a) ==> m.stored.None? && a.head.Some? && a.head.value > lookback
    ensures ResumeAt(lookback, m, a).Some? && m.stored.None? && a.head.Some? && a.head.value > lookback ==> Seeds(lookback, m, a)
  {
  }

  lemma ResumesSame(lookback: nat, m: Mind, r: Answers, a: Answers)
    requires a.head == r.head && a.cursorRead == r.cursorRead && a.cursorSeeded == r.cursorSeeded
    ensures ResumeAt(lookback, m, a) == ResumeAt(lookback, m, r) && (Seeds(lookback, m, a) <==> Seeds(lookback, m, r))
  {
  }

  lemma NoLookBack(lookback: nat, log: set<Request>, m: Mind, a: Answers, cursor: nat)
    ensures m.seeded ==> AfterLookBack(lookback, log, m, a, cursor) == m
  {
  }

  lemma PassComposed(lookback: nat, log: set<Request>, m: Mind, r: Answers, m1: Mind, m2: Mind, m3: Mind,
                     cursor: nat, to: nat, added: nat, stored: nat, dropped: set<nat>)
    requires ResumeAt(lookback, m, r) == Some(cursor) && r.head.Some? && m1 == AfterResume(lookback, m, r)
    requires m2 == AfterLookBack(lookback, log, m1, r.(lookedTo := to), cursor)
    requires cursor <= stored <= added && (added > cursor ==> added <= r.head.value)
    requires m3 == m2.(stored := if stored > cursor then Some(stored) else m2.stored,
                       pending := m2.pending + IdsIn(log, cursor + 1, added) - dropped)
    ensures var a := r.(lookedTo := to, addedTo := added, storedTo := stored, dropped := dropped);
            Possible(lookback, m, a) && PassOf(lookback, log, m, a) == m3
  {
    var a := r.(lookedTo := to, addedTo := added, storedTo := stored, dropped := dropped);
    assert AfterLookBack(lookback, log, m1, a, cursor) == m2;
  }

  /** Everything stored was added, and nothing beyond the head. */
  predicate Possible(lookback: nat, m: Mind, a: Answers) {
    var at := ResumeAt(lookback, m, a);
    at.Some? ==> at.value <= a.storedTo <= a.addedTo && (a.head.value > at.value ==> a.addedTo <= a.head.value)
  }

  /** Every request above `low`, up to the cursor, is remembered. */
  ghost predicate Holds(log: set<Request>, m: Mind, low: nat) {
    low <= Reached(m) && forall r :: r in log && low < r.block <= Reached(m) ==> r.id in m.pending
  }

  /** The pass keeps what it had, whatever the log and however far back that reaches. */
  ghost predicate KeepsMemory(lookback: nat, m: Mind, a: Answers) {
    forall log: set<Request>, low: nat :: Holds(log, m, low) ==> Holds(log, PassOf(lookback, log, m, a), low)
  }

  lemma SeedingForgets(lookback: nat, m: Mind, a: Answers)
    requires Possible(lookback, m, a) && Seeds(lookback, m, a) && a.dropped == {}
    ensures !KeepsMemory(lookback, m, a)
  {
    var id := NotIn(m.pending);
    var log := {Request(id, 1)};
    assert Holds(log, m, 0);
    var m' := PassOf(lookback, log, m, a);
    assert IdsIn(log, a.head.value - lookback + 1, a.addedTo) == {};
    assert Request(id, 1) in log && 1 <= Reached(m') && id !in m'.pending;
  }

  lemma OthersKeep(lookback: nat, m: Mind, a: Answers)
    requires Possible(lookback, m, a) && !Seeds(lookback, m, a) && a.dropped == {}
    ensures KeepsMemory(lookback, m, a)
  {
    forall log: set<Request>, low: nat | Holds(log, m, low) ensures Holds(log, PassOf(lookback, log, m, a), low) {
      var m' := PassOf(lookback, log, m, a);
      forall r | r in log && low < r.block <= Reached(m') ensures r.id in m'.pending {
      }
    }
  }

  lemma NotIn(s: set<nat>) returns (id: nat)
    ensures id !in s && forall x :: x in s ==> x < id
    decreases s
  {
    id := 0;
    if s != {} {
      var x :| x in s;
      var y := NotIn(s - {x});
      id := if x >= y then x + 1 else y;
      assert forall z :: z in s ==> z == x || z in s - {x};
    }
  }

  /** A pass that drops nothing forgets nothing it had, on any log, exactly unless it seeds a cursor: unless
      none was stored, the head it read exceeds the look-back, and the seeding write succeeded. */
  lemma ForgetsIff(lookback: nat, m: Mind, a: Answers)
    requires Possible(lookback, m, a) && a.dropped == {}
    ensures KeepsMemory(lookback, m, a) <==> !Seeds(lookback, m, a)
  {
    if Seeds(lookback, m, a) {
      SeedingForgets(lookback, m, a);
    } else {
      OthersKeep(lookback, m, a);
    }
  }

  /** A request forgotten after a look-back that succeeded. On a chain shorter than the look-back the first pass
      resumes at 0, its look-back is done, and its discovery fails, so nothing is stored. By the second the
      chain has outgrown the look-back, and the cursor is seeded above the request in block 5. */
  lemma ForgottenRequest()
    ensures var log, lookback := {Request(1, 5)}, 10;
            var first := Answers(Some(8), true, true, 0, 0, 0, {});
            var second := Answers(Some(20), true, true, 0, 20, 20, {});
            var m1 := PassOf(lookback, log, Blank, first);
            var m2 := PassOf(lookback, log, m1, second);
            && Possible(lookback, Blank, first) && Possible(lookback, m1, second)
            && m1.seeded && m1.tries == 0 && m1.stored.None?
            && m2.stored == Some(20) && m2.seeded && 1 !in m2.pending
  {
    var log := {Request(1, 5)};
    assert IdsIn(log, 1, 0) == {} && IdsIn(log, 11, 20) == {};
  }

  /** How often each request was read, its mask could not be read, and it was claimed. */
  datatype Counts = Counts(asked: multiset<nat>, maskless: multiset<nat>, claims: multiset<nat>)

  /** What the watcher knows at one moment, and what is pending. */
  datatype View = View(told: Evidence, open: set<nat>, counts: Counts, pending: set<nat>)

  /** From a to b: the mask the chain requires is known and the worker has it, or reading it failed. */
  predicate Fitting(own: set<nat>, a: View, b: View, id: nat) {
    (id in b.told.caps && b.told.caps[id] <= own) || b.counts.maskless[id] > a.counts.maskless[id]
  }

  /** From a to b: the request was claimed only if fitting; dropped only once read, and then as not Open, as
      expired, as requiring a mask the worker lacks, or with a claim; and kept after being read only if Open, not
      expired, fitting and not claimed. */
  predicate Fairly(own: set<nat>, a: View, b: View, id: nat) {
    && (b.counts.claims[id] > a.counts.claims[id] ==> Fitting(own, a, b, id))
    && (id in a.pending && id !in b.pending ==>
          && b.counts.asked[id] > a.counts.asked[id]
          && (|| id !in b.open
              || (id in b.told.expiry && b.told.clock > b.told.expiry[id])
              || (id in b.told.caps && !(b.told.caps[id] <= own))
              || b.counts.claims[id] > a.counts.claims[id]))
    && (id in b.pending && b.counts.asked[id] > a.counts.asked[id] ==>
          && id in b.open && Fitting(own, a, b, id)
          && id in b.told.expiry && b.told.expiry[id] >= a.told.clock
          && b.counts.claims[id] == a.counts.claims[id])
  }

  /** What was learnt and done from a to b is about one request. */
  ghost predicate OnlyAbout(a: View, b: View, id: nat) {
    && Grows(a.told, b.told)
    && a.counts.maskless <= b.counts.maskless && a.counts.claims <= b.counts.claims
    && (b.pending == a.pending || b.pending == a.pending - {id})
    && forall other :: other != id ==>
         && (other in b.open <==> other in a.open)
         && b.counts.asked[other] == a.counts.asked[other]
         && b.counts.claims[other] == a.counts.claims[other]
  }

  lemma GrowsThen(a: Evidence, b: Evidence, c: Evidence)
    requires Grows(a, b) && Grows(b, c)
    ensures Grows(a, c)
  {
  }

  lemma FairlyAtFirst(own: set<nat>, a: View)
    ensures forall id :: Fairly(own, a, a, id)
  {
  }

  lemma FairlyMeans(own: set<nat>, a: View, b: View, dropped: set<nat>)
    requires forall id :: Fairly(own, a, b, id)
    requires a.pending == b.pending + dropped && b.pending !! dropped
    ensures forall id :: b.counts.claims[id] > a.counts.claims[id] ==>
              (id in b.told.caps && b.told.caps[id] <= own) || b.counts.maskless[id] > a.counts.maskless[id]
    ensures forall id :: id in dropped ==>
              && b.counts.asked[id] > a.counts.asked[id]
              && (|| id !in b.open
                  || (id in b.told.expiry && b.told.clock > b.told.expiry[id])
                  || (id in b.told.caps && !(b.told.caps[id] <= own))
                  || b.counts.claims[id] > a.counts.claims[id])
    ensures forall id :: id in b.pending && b.counts.asked[id] > a.counts.asked[id] ==>
              && id in b.open && id in b.told.expiry && b.told.expiry[id] >= a.told.clock
              && ((id in b.told.caps && b.told.caps[id] <= own) || b.counts.maskless[id] > a.counts.maskless[id])
  {
    forall id
      ensures b.counts.claims[id] > a.counts.claims[id] ==>
                (id in b.told.caps && b.told.caps[id] <= own) || b.counts.maskless[id] > a.counts.maskless[id]
    {
      assert Fairly(own, a, b, id);
    }
    forall id | id in dropped
      ensures b.counts.asked[id] > a.counts.asked[id]
      ensures || id !in b.open
              || (id in b.told.expiry && b.told.clock > b.told.expiry[id])
              || (id in b.told.caps && !(b.told.caps[id] <= own))
              || b.counts.claims[id] > a.counts.claims[id]
    {
      assert Fairly(own, a, b, id);
    }
    forall id | id in b.pending && b.counts.asked[id] > a.counts.asked[id]
      ensures id in b.open && id in b.told.expiry && b.told.expiry[id] >= a.told.clock
      ensures (id in b.told.caps && b.told.caps[id] <= own) || b.counts.maskless[id] > a.counts.maskless[id]
    {
      assert Fairly(own, a, b, id);
    }
  }

  /** One more request looked at, for the first time. */
  lemma FairlyNext(own: set<nat>, first: View, a: View, b: View, id: nat)
    requires forall x :: Fairly(own, first, a, x)
    requires Fairly(own, a, b, id) && OnlyAbout(a, b, id) && id in a.pending
    requires a.counts.asked[id] == first.counts.asked[id] && a.counts.claims[id] == first.counts.claims[id]
    requires first.told.clock <= a.told.clock && first.counts.maskless <= a.counts.maskless
    ensures forall x :: Fairly(own, first, b, x)
    ensures first.told.clock <= b.told.clock && first.counts.maskless <= b.counts.maskless
  {
    forall x ensures Fairly(own, first, b, x) {
      assert Fairly(own, first, a, x);
    }
  }

  /** The chain as the watcher meets it. */
  class ClaimFeed {
    const confirmations: nat
    /** The requests of the final blocks. */
    var log: set<Request>
    var final: nat
    var told: Evidence
    /** The requests last read as Open, and as claimable by us. */
    ghost var open: set<nat>
    ghost var eligible: set<nat>
    /** How many calls failed, whether the last capacity check left a slot, and the safe heads answered. */
    ghost var failures: nat
    ghost var full: bool
    ghost var heads: seq<nat>
    /** How often the capacity was taken. */
    ghost var fulls: nat
    ghost var counts: Counts

    ghost predicate Valid()
      reads `log, `final
    {
      forall r :: r in log ==> r.block <= final
    }

    constructor (confirmations: nat)
      ensures Valid() && told == NoEvidence && log == {}
    {
      this.confirmations := confirmations;
      log, final, told, open, eligible := {}, 0, NoEvidence, {}, {};
      failures, full, heads, fulls, counts := 0, false, [], 0, Counts(multiset{}, multiset{}, multiset{});
    }

    /** New final blocks; the contract is the model. */
    method Others()
      requires Valid()
      modifies `log, `final
      ensures Valid() && old(final) <= final && old(log) <= log
      ensures forall r :: r in log && r !in old(log) ==> r.block > old(final)
    {
    }

    method Head() returns (safeHead: Option<nat>)
      requires Valid()
      modifies `log, `final, `heads, `failures
      ensures failures == old(failures) + if safeHead.None? then 1 else 0
      ensures Valid() && old(final) <= final && old(log) <= log
      ensures forall r :: r in log && r !in old(log) ==> r.block > old(final)
      ensures safeHead.Some? ==> safeHead.value <= final
      ensures heads == if safeHead.Some? then old(heads) + [safeHead.value] else old(heads)
    {
      Others();
      var answered: bool, number: nat := *, *;
      var safe := if number > confirmations then number - confirmations else 0;
      safeHead := if answered then Some(if safe <= final then safe else final) else None;
      heads := if safeHead.Some? then heads + [safeHead.value] else heads;
      failures := if safeHead.Some? then failures else failures + 1;
    }

    /** The ids requested in final blocks lo..hi. */
    method FilterSessionRequested(lo: nat, hi: nat) returns (ids: Option<set<nat>>)
      requires hi <= final
      modifies `failures
      ensures failures == old(failures) + if ids.None? then 1 else 0
      ensures ids.Some? ==> ids.value == IdsIn(log, lo, hi)
    {
      var answered: bool := *;
      ids := if answered then Some(IdsIn(log, lo, hi)) else None;
      failures := if answered then failures else failures + 1;
    }

    /** Status and expiry; status 0 is Open. A request's expiry never changes; the contract is the model. */
    method GetRequestInfo(id: nat) returns (info: Option<(nat, nat)>)
      modifies `told, `open, `failures, `counts
      ensures failures == old(failures) + if info.None? then 1 else 0
      ensures counts == if info.None? then old(counts) else old(counts).(asked := old(counts.asked) + multiset{id})
      ensures info.Some? && id in old(told.expiry) ==> info.value.1 == old(told.expiry)[id]
      ensures told == if info.None? then old(told)
                      else old(told).(expiry := old(told.expiry)[id := info.value.1],
                                      notOpen := old(told.notOpen) + if info.value.0 != 0 then {id} else {})
      ensures open == if info.None? then old(open) else if info.value.0 == 0 then old(open) + {id} else old(open) - {id}
    {
      info, failures := None, failures + 1;
    }

    /** The wall clock, which does not run back. */
    method Now() returns (now: nat)
      modifies `told
      ensures now >= old(told.clock) && told == old(told).(clock := now)
    {
      now :| now >= told.clock;
      told := told.(clock := now);
    }

    /** A request's mask never changes; the contract is the model. */
    method GetRequiredCapabilities(id: nat) returns (mask: Option<set<nat>>)
      modifies `told, `counts
      ensures counts == if mask.Some? then old(counts) else old(counts).(maskless := old(counts.maskless) + multiset{id})
      ensures mask.Some? && id in old(told.caps) ==> mask.value == old(told.caps)[id]
      ensures told == if mask.Some? then old(told).(caps := old(told.caps)[id := mask.value]) else old(told)
    {
      mask, counts := None, counts.(maskless := counts.maskless + multiset{id});
    }

    /** A free slot is for one claim. */
    method AtCapacity() returns (r: bool)
      modifies `full, `fulls
      ensures full == r && fulls == old(fulls) + if r then 1 else 0
    {
      r := *;
      full, fulls := r, fulls + if r then 1 else 0;
    }

    method EligibleNow(id: nat) returns (r: Option<bool>)
      modifies `eligible, `failures
      ensures failures == old(failures) + if r.None? then 1 else 0
      ensures eligible == match r
                          case None => old(eligible)
                          case Some(yes) => if yes then old(eligible) + {id} else old(eligible) - {id}
    {
      r := *;
      failures := if r.None? then failures + 1 else failures;
      eligible := match r
                  case None => eligible
                  case Some(yes) => if yes then eligible + {id} else eligible - {id};
    }

    /** Only a request last read as Open, as not expired by the clock read, and as claimable by this worker, may be
        claimed, and only in a slot found free since the last claim. */
    method ClaimSession(id: nat) returns (landed: bool)
      requires id in open && id in eligible && !full
      requires id in told.expiry && told.clock <= told.expiry[id]
      modifies `told, `full, `counts
      ensures full && counts == old(counts).(claims := old(counts.claims) + multiset{id})
      ensures told == old(told).(attempted := old(told.attempted) + {id})
    {
      landed, full := *, true;
      counts := counts.(claims := counts.claims + multiset{id});
      told := told.(attempted := told.attempted + {id});
    }
  }

  /** How the look-back of this process went: not run yet, moot because the cursor was seeded behind the safe
      head, done at a cursor, or given up. */
  datatype Seeding = Waiting | Fresh(at: nat) | LookedBack(at: nat) | GaveUp

  datatype Verdict = KeepIt | Forget | Full

  class SessionWatcher {
    const feed: ClaimFeed
    const cell: CursorCell
    const own: set<nat>
    const chunk: nat
    const lookback: nat
    var seeded: bool
    var reseedTries: nat
    var pending: map<nat, Option<set<nat>>>
    ghost var seeding: Seeding
    /** No request above this block, up to the cursor, is forgotten; None before the first cursor was read. */
    ghost var floor: Option<nat>

    constructor (feed: ClaimFeed, cell: CursorCell, own: set<nat>, chunk: nat, lookback: nat)
      requires feed.Valid() && cell.Valid() && (cell.stored.Some? ==> cell.stored.value <= feed.final)
      ensures Valid() && this.feed == feed && this.cell == cell && this.own == own && this.lookback == lookback
      ensures pending == map[] && seeding.Waiting? && floor.None?
    {
      this.feed, this.cell, this.own, this.lookback := feed, cell, own, lookback;
      this.chunk := if chunk == 0 then DefaultChunk else chunk;
      seeded, reseedTries, pending, seeding, floor := false, 0, map[], Waiting, None;
    }

    function Behind(cursor: nat): nat {
      if cursor > lookback then cursor - lookback else 0
    }

    function Position(): nat
      reads cell
    {
      if cell.stored.Some? then cell.stored.value else 0
    }

    ghost predicate Sound()
      reads this, feed, cell
    {
      && feed.Valid() && cell.Valid() && chunk > 0 && Position() <= feed.final
      && (seeded <==> !seeding.Waiting?)
      && (seeding.LookedBack? ==> floor.Some? && floor.value <= Behind(seeding.at))
      && (seeding.Fresh? ==> floor == Some(seeding.at) && cell.stored.Some?)
      && (seeding.GaveUp? ==> reseedTries >= ReseedMaxAttempts)
      && (seeded ==> floor.Some?)
      && CapsKnown(pending, feed.told)
    }

    ghost function MindNow(): Mind
      reads this, cell
    {
      Mind(cell.stored, seeded, reseedTries, pending.Keys)
    }

    /** Nothing is forgotten between the floor and the cursor. */
    ghost predicate Valid()
      reads this, feed, cell
    {
      Sound() && (floor.Some? ==> floor.value <= Position()
                                  && Remembered(feed.log, pending.Keys, feed.told, own, floor.value, Position()))
    }

    /** One pass: look-back, discovery, evaluation. No request is forgotten silently, whatever fails. After a
        look-back that succeeded, that reaches `lookback` blocks behind the cursor it ran at, until a pass seeds
        a cursor, which happens exactly when none was stored, the head read exceeds the look-back, and the
        write succeeded. The pass is PassOf for what it was answered: it stops short of the cursor in the
        look-back, or of the head in discovery, only after a failed call, and in evaluation only at a taken
        capacity; and a pass that resumes without failures leaves the look-back done. */
    method RunOnce() returns (ok: bool, full: bool, ghost a: Answers)
      requires Valid()
      modifies this, feed, cell
      ensures Valid() && Grows(old(feed.told), feed.told)
      ensures seeding.LookedBack? ==>
                forall r :: r in feed.log && 0 < r.block && seeding.at - lookback < r.block
                            && (cell.stored.Some? && r.block <= cell.stored.value) ==>
                  || r.id in pending || r.id in feed.told.notOpen || r.id in feed.told.attempted
                  || (r.id in feed.told.expiry && feed.told.clock > feed.told.expiry[r.id])
                  || (r.id in feed.told.caps && !(feed.told.caps[r.id] <= own))
      ensures feed.heads == if a.head.Some? then old(feed.heads) + [a.head.value] else old(feed.heads)
      ensures ok ==> a.head.Some? && Position() >= a.head.value
      ensures !ok ==> feed.failures > old(feed.failures) || cell.faults > old(cell.faults)
      ensures full <==> feed.fulls > old(feed.fulls)
      ensures feed.failures >= old(feed.failures) && cell.faults >= old(cell.faults)
      ensures var resumed := ResumeAt(lookback, old(MindNow()), a);
              resumed.Some? ==>
                && (feed.failures == old(feed.failures) ==> seeded && (old(seeded) || seeding.LookedBack? || seeding.Fresh?))
                && (seeding != old(seeding) && seeding.LookedBack? ==> seeding.at == resumed.value)
                && (!old(seeded) && !seeding.Fresh? && a.lookedTo < resumed.value ==> feed.failures > old(feed.failures))
                && (a.addedTo < a.head.value ==> feed.failures > old(feed.failures) || cell.faults > old(cell.faults))
                && (a.storedTo < a.addedTo ==> cell.faults > old(cell.faults))
      ensures ok && !full && feed.failures == old(feed.failures) ==>
                forall id :: id in pending ==>
                  id in feed.open && id !in feed.eligible && feed.counts.asked[id] > old(feed.counts.asked[id])
      ensures old(cell.stored).Some? ==> cell.stored.Some? && cell.stored.value >= old(cell.stored).value
      ensures old(seeded) && !seeding.Fresh? ==> seeding == old(seeding) && floor == old(floor)
      ensures seeding.Fresh? && old(cell.stored).None? <==>
                old(cell.stored).None? && a.head.Some? && a.head.value > lookback && cell.stored.Some?
      ensures Possible(lookback, old(MindNow()), a) && MindNow() == PassOf(lookback, feed.log, old(MindNow()), a)
      ensures forall id :: id in a.dropped ==> Settled(feed.told, own, id)
      // request by request: what is claimed, what is dropped, and what stays
      ensures forall id :: feed.counts.claims[id] > old(feed.counts.claims[id]) ==>
                || (id in feed.told.caps && feed.told.caps[id] <= own)
                || feed.counts.maskless[id] > old(feed.counts.maskless[id])
      ensures forall id :: id in a.dropped ==>
                && feed.counts.asked[id] > old(feed.counts.asked[id])
                && (|| id !in feed.open
                    || (id in feed.told.expiry && feed.told.clock > feed.told.expiry[id])
                    || (id in feed.told.caps && !(feed.told.caps[id] <= own))
                    || feed.counts.claims[id] > old(feed.counts.claims[id]))
      ensures forall id :: id in pending && feed.counts.asked[id] > old(feed.counts.asked[id]) ==>
                && id in feed.open && id in feed.told.expiry && feed.told.expiry[id] >= old(feed.told.clock)
                && (|| (id in feed.told.caps && feed.told.caps[id] <= own)
                    || feed.counts.maskless[id] > old(feed.counts.maskless[id]))
    {
      hide Remembered, Grows, ClaimFeed.Valid, CapsKnown, Settled, IdsIn, PassOf, Possible, ResumeAt, AfterResume, Seeds;
      hide AfterLookBack, Fairly;
      ok, full := false, false;
      GrowsAtFirst(feed.told);
      ghost var m := MindNow();
      var at, isFresh;
      at, isFresh, a := Resume();
      ResumeMeans(lookback, feed.log, m, a);
      if at.None? {
        NothingForgotten();
        return;
      }
      ok, full, a := RunFrom(at.value.0, at.value.1, m, a);
      NothingForgotten();
      FairlyMeans(own, Seen().(told := old(feed.told), open := old(feed.open), counts := old(feed.counts),
                               pending := pending.Keys + a.dropped), Seen(), a.dropped);
    }

    /** The three phases, from the cursor and with the answers r so far. */
    method RunFrom(cursor: nat, safeHead: nat, ghost m: Mind, ghost r: Answers) returns (ok: bool, full: bool, ghost a: Answers)
      requires Valid() && floor.Some? && floor.value <= cursor == Position()
      requires r.head == Some(safeHead) && safeHead <= feed.final
      requires ResumeAt(lookback, m, r) == Some(cursor) && MindNow() == AfterResume(lookback, m, r)
      modifies this, feed`told, feed`open, feed`eligible, feed`failures, feed`full, feed`fulls, feed`counts, cell
      ensures Valid() && Grows(old(feed.told), feed.told)
      ensures a.head == r.head && ResumeAt(lookback, m, a) == Some(cursor)
      ensures ok ==> Position() >= safeHead
      ensures !ok ==> feed.failures > old(feed.failures) || cell.faults > old(cell.faults)
      ensures full <==> feed.fulls > old(feed.fulls)
      ensures feed.failures >= old(feed.failures) && cell.faults >= old(cell.faults)
      ensures if old(seeded) then seeding == old(seeding) && floor == old(floor) else !seeding.Fresh?
      ensures seeding != old(seeding) && seeding.LookedBack? ==> seeding.at == cursor
      ensures feed.failures == old(feed.failures) ==> seeded && (old(seeded) || seeding.LookedBack?)
      ensures !old(seeded) && a.lookedTo < cursor ==> feed.failures > old(feed.failures)
      ensures a.addedTo < safeHead ==> feed.failures > old(feed.failures) || cell.faults > old(cell.faults)
      ensures a.storedTo < a.addedTo ==> cell.faults > old(cell.faults)
      ensures old(cell.stored).Some? ==> cell.stored.Some? && cell.stored.value >= old(cell.stored).value
      ensures ok && !full && feed.failures == old(feed.failures) ==>
                forall id :: id in pending ==>
                  id in feed.open && id !in feed.eligible && feed.counts.asked[id] > old(feed.counts.asked[id])
      ensures Possible(lookback, m, a) && MindNow() == PassOf(lookback, feed.log, m, a) && a.dropped !! pending.Keys
      ensures forall id :: id in a.dropped ==> Settled(feed.told, own, id)
      ensures forall id :: Fairly(own, Seen().(told := old(feed.told), open := old(feed.open), counts := old(feed.counts),
                                               pending := pending.Keys + a.dropped), Seen(), id)
    {
      hide Remembered, Grows, ClaimFeed.Valid, CapsKnown, Settled, IdsIn, PassOf, Possible, ResumeAt, AfterResume, Seeds;
      hide AfterLookBack, Fairly;
      full := false;
      GrowsAtFirst(feed.told);
      ghost var m1, to, added, stored := MindNow(), cursor, cursor, cursor;
      if !seeded {
        to := Seed(cursor);
      }
      NoLookBack(lookback, feed.log, m1, r.(lookedTo := to), cursor);
      NoneIn(feed.log, cursor);
      ghost var m2 := MindNow();
      ok := true;
      if safeHead > cursor {
        ok, added, stored := Discover(cursor, safeHead);
      }
      ghost var before := Seen();
      FairlyAtFirst(own, before);
      if ok {
        full := Evaluate();
      }
      ghost var dropped := before.pending - pending.Keys;
      assert before.pending - dropped == pending.Keys && pending.Keys + dropped == before.pending;
      PassComposed(lookback, feed.log, m, r, m1, m2, MindNow(), cursor, to, added, stored, dropped);
      a := r.(lookedTo := to, addedTo := added, storedTo := stored, dropped := dropped);
      ResumesSame(lookback, m, r, a);
    }

    lemma NothingForgotten()
      requires Valid()
      ensures seeding.LookedBack? ==>
                forall r :: r in feed.log && 0 < r.block && seeding.at - lookback < r.block
                            && (cell.stored.Some? && r.block <= cell.stored.value) ==>
                  || r.id in pending || r.id in feed.told.notOpen || r.id in feed.told.attempted
                  || (r.id in feed.told.expiry && feed.told.clock > feed.told.expiry[r.id])
                  || (r.id in feed.told.caps && !(feed.told.caps[r.id] <= own))
    {
    }

    /** The cursor to resume after and the safe head. A cursor seeded here makes the look-back moot. */
    method Resume() returns (at: Option<(nat, nat)>, isFresh: bool, ghost a: Answers)
      requires Valid()
      modifies `seeded, `seeding, `floor, feed`log, feed`final, feed`heads, feed`failures, cell
      ensures Valid()
      ensures feed.heads == if a.head.Some? then old(feed.heads) + [a.head.value] else old(feed.heads)
      ensures at.Some? ==> a.head.Some? && at.value.1 == a.head.value <= feed.final
      ensures at.Some? ==> floor.Some? && floor.value <= at.value.0 == Position()
      ensures at == match ResumeAt(lookback, old(MindNow()), a)
                    case None => None
                    case Some(cursor) => Some((cursor, a.head.value))
      ensures at.None? ==> MindNow() == old(MindNow())
      ensures at.None? ==> feed.failures > old(feed.failures) || cell.faults > old(cell.faults)
      ensures feed.failures >= old(feed.failures) && cell.faults >= old(cell.faults)
      ensures at.Some? ==> MindNow() == AfterResume(lookback, old(MindNow()), a)
      ensures a.lookedTo == a.addedTo == a.storedTo == 0 && a.dropped == {}
      ensures isFresh <==> Seeds(lookback, old(MindNow()), a)
      ensures if isFresh then seeding.Fresh? && floor == Some(Position()) && cell.stored.Some?
              else seeding == old(seeding) && cell.stored == old(cell.stored) && (old(floor).Some? ==> floor == old(floor))
    {
      hide Remembered, ClaimFeed.Valid, CapsKnown;
      ghost var log, final := feed.log, feed.final;
      isFresh, at := false, None;
      var head := feed.Head();
      a := Answers(head, false, false, 0, 0, 0, {});
      if floor.Some? {
        RememberedGrows(log, feed.log, final, pending.Keys, feed.told, own, floor.value, Position());
      }
      if head.None? {
        return;
      }
      var resumed, seededNow := cell.GetOrSeed(head.value, lookback);
      a := a.(cursorRead := resumed.Some?, cursorSeeded := resumed.Some?);
      if resumed.None? {
        return;
      }
      RememberedNothing(feed.log, pending.Keys, feed.told, own, resumed.value);
      isFresh := seededNow;
      if isFresh {
        seeded := true;
        seeding, floor := Fresh(resumed.value), Some(resumed.value);
      } else if floor.None? {
        floor := resumed;
      }
      at := Some((resumed.value, head.value));
    }

    /** Phase 0. A failing look-back means a failing filter, and is given up after ten. */
    method Seed(cursor: nat) returns (ghost to: nat)
      requires Valid() && !seeded && floor.Some? && cursor == Position()
      modifies `seeded, `reseedTries, `pending, `seeding, `floor, feed`failures
      ensures Valid() && floor.Some? && floor.value <= old(floor).value
      ensures seeding == Waiting || seeding == GaveUp || seeding == LookedBack(cursor)
      ensures reseedTries == old(reseedTries) + if seeding.LookedBack? then 0 else 1
      ensures !seeding.LookedBack? ==> (seeding.GaveUp? <==> reseedTries >= 10)
      ensures seeding.LookedBack? <==> feed.failures == old(feed.failures)
      ensures seeding.LookedBack? <==> to >= cursor
      ensures feed.failures >= old(feed.failures)
      ensures forall a: Answers :: a.lookedTo == to ==>
                MindNow() == AfterLookBack(lookback, feed.log, old(MindNow()), a, cursor)
    {
      hide Remembered, CapsKnown, ClaimFeed.Valid, IdsIn;
      var found;
      found, to := Reseed(cursor);
      if !found {
        reseedTries := reseedTries + 1;
        seeded := reseedTries >= ReseedMaxAttempts;
        seeding := if seeded then GaveUp else Waiting;
      } else {
        seeded := true;
        seeding := LookedBack(cursor);
      }
    }

    /** Adds whatever was requested in the last `lookback` blocks up to the cursor, which stays where it is. It
        fails exactly when a filter does, with the blocks up to `to` scanned. */
    method Reseed(cursor: nat) returns (ok: bool, ghost to: nat)
      requires Valid() && !seeded && floor.Some? && cursor == Position()
      modifies `pending, `floor, feed`failures
      ensures Valid() && floor.Some? && floor.value <= old(floor).value
      ensures feed.failures == old(feed.failures) + if ok then 0 else 1
      ensures ok ==> floor.value <= Behind(cursor)
      ensures (ok <==> to == cursor) && to <= cursor
      ensures if lookback == 0 || cursor == 0 then ok && pending.Keys == old(pending.Keys)
              else pending.Keys == old(pending.Keys) + IdsIn(feed.log, LookBackFrom(lookback, cursor), to)
    {
      hide Remembered, CapsKnown, ClaimFeed.Valid, IdsIn;
      to := cursor;
      if lookback == 0 || cursor == 0 {
        return true, to;
      }
      var lo := 1;
      if cursor > lookback {
        lo := cursor - lookback + 1;
      }
      var from := lo;
      NoneIn(feed.log, lo - 1);
      while from <= cursor
        invariant Valid() && floor == old(floor) && lo <= from <= cursor + 1 && feed.failures == old(feed.failures)
        invariant pending.Keys == old(pending.Keys) + IdsIn(feed.log, lo, from - 1)
        decreases cursor + 1 - from
      {
        var upTo := from + chunk - 1;
        if upTo > cursor {
          upTo := cursor;
        }
        var reqs := feed.FilterSessionRequested(from, upTo);
        if reqs.None? {
          return false, from - 1;
        }
        AddAll(reqs.value);
        IdsJoin(feed.log, lo, from, upTo);
        from := upTo + 1;
      }
      if lo - 1 < floor.value {
        InRange(feed.log, lo, cursor);
        RememberedBehind(feed.log, pending.Keys, feed.told, own, lo - 1, floor.value, Position());
        floor := Some(lo - 1);
      }
      ok := true;
    }

    /** The mask of a request found again is fetched again. */
    method AddAll(ids: set<nat>)
      requires Valid()
      modifies `pending
      ensures Valid() && pending.Keys == old(pending.Keys) + ids
      ensures forall id :: id in old(pending) && id !in ids ==> pending[id] == old(pending)[id]
    {
      pending := map id | id in pending.Keys + ids :: if id in ids then None else pending[id];
      ghost var known := old(pending.Keys);
      if floor.Some? {
        RememberedMore(feed.log, known, pending.Keys, feed.told, feed.told, own, floor.value, Position());
      }
    }

    /** Phase 1: blocks up to `added` are added and the cursor is stored up to `stored`, the safe head unless a
        filter or a write failed. */
    method Discover(cursor: nat, safeHead: nat) returns (ok: bool, ghost added: nat, ghost stored: nat)
      requires Valid() && floor.Some? && floor.value <= cursor < safeHead <= feed.final && cursor == Position()
      modifies `pending, feed`failures, cell
      ensures Valid() && cursor <= stored <= added <= safeHead
      ensures cell.stored == if stored > cursor then Some(stored) else old(cell.stored)
      ensures pending.Keys == old(pending.Keys) + IdsIn(feed.log, cursor + 1, added)
      ensures ok ==> stored == safeHead
      ensures stored < added ==> cell.faults > old(cell.faults)
      ensures feed.failures >= old(feed.failures) && cell.faults >= old(cell.faults)
      ensures if ok then feed.failures == old(feed.failures)
              else feed.failures > old(feed.failures) || cell.faults > old(cell.faults)
    {
      hide IdsIn, Remembered, CapsKnown, ClaimFeed.Valid;
      var lo := cursor + 1;
      NoneIn(feed.log, cursor);
      added, stored := cursor, cursor;
      while lo <= safeHead
        invariant Valid() && cursor < lo <= safeHead + 1
        invariant added == stored == Position() == lo - 1 && floor.value <= lo - 1
        invariant cell.stored == if stored > cursor then Some(stored) else old(cell.stored)
        invariant pending.Keys == old(pending.Keys) + IdsIn(feed.log, cursor + 1, added)
        invariant feed.failures == old(feed.failures) && cell.faults == old(cell.faults)
        decreases safeHead + 1 - lo
      {
        var hi := lo + chunk - 1;
        if hi > safeHead {
          hi := safeHead;
        }
        var read, written := DiscoverChunk(lo, hi);
        IdsJoin(feed.log, cursor + 1, lo, hi);
        added := if read then hi else added;
        stored := if written then hi else stored;
        if !written {
          return false, added, stored;
        }
        lo := hi + 1;
      }
      ok := true;
    }

    method DiscoverChunk(lo: nat, hi: nat) returns (read: bool, written: bool)
      requires Valid() && floor.Some? && floor.value <= Position() == lo - 1 < hi <= feed.final
      modifies `pending, feed`failures, cell
      ensures Valid() && (written ==> read)
      ensures cell.stored == if written then Some(hi) else old(cell.stored)
      ensures pending.Keys == if read then old(pending.Keys) + IdsIn(feed.log, lo, hi) else old(pending.Keys)
      ensures feed.failures == old(feed.failures) + if read then 0 else 1
      ensures cell.faults == old(cell.faults) + if read && !written then 1 else 0
    {
      hide Remembered, CapsKnown, ClaimFeed.Valid, IdsIn;
      read, written := false, false;
      var reqs := feed.FilterSessionRequested(lo, hi);
      if reqs.None? {
        return;
      }
      read := true;
      InRange(feed.log, lo, hi);
      AddAll(reqs.value);
      RememberedJoins(feed.log, pending.Keys, reqs.value, feed.told, own, floor.value, lo - 1, hi);
      assert pending.Keys + reqs.value == pending.Keys;
      written := cell.Set(hi, lo - 1);
    }

    /** Phase 2: every pending request is looked at once, until capacity runs out. With capacity and no failing
        read, what is still pending is exactly what was read Open and not yet claimable by us. */
    method Evaluate() returns (full: bool)
      requires Valid()
      modifies `pending, feed`told, feed`open, feed`eligible, feed`failures, feed`full, feed`fulls, feed`counts
      ensures Valid() && Grows(old(feed.told), feed.told) && pending.Keys <= old(pending.Keys)
      ensures feed.fulls >= old(feed.fulls) && (full <==> feed.fulls > old(feed.fulls))
      ensures feed.failures >= old(feed.failures)
      ensures forall id :: id in old(pending.Keys) && id !in pending ==> Settled(feed.told, own, id)
      ensures !full && feed.failures == old(feed.failures) ==>
                forall id :: id in pending ==> id in feed.open && id !in feed.eligible && feed.counts.asked[id] > old(feed.counts.asked[id])
      ensures forall id :: Fairly(own, old(Seen()), Seen(), id)
    {
      full := false;
      hide Fairly, Settled, Grows, Remembered, CapsKnown, ClaimFeed.Valid;
      FairlyAtFirst(own, Seen());
      GrowsAtFirst(feed.told);
      ghost var first := Seen();
      var keys := pending.Keys;
      while keys != {}
        invariant Valid() && Grows(old(feed.told), feed.told) && keys <= pending.Keys <= old(pending.Keys)
        invariant old(feed.failures) <= feed.failures && feed.fulls == old(feed.fulls)
        invariant forall id :: id in old(pending.Keys) && id !in pending ==> Settled(feed.told, own, id)
        invariant feed.failures == old(feed.failures) ==>
                    forall id :: id in pending && id !in keys ==> id in feed.open && id !in feed.eligible && feed.counts.asked[id] > old(feed.counts.asked[id])
        invariant forall id :: Fairly(own, old(Seen()), Seen(), id)
        invariant old(feed.told.clock) <= feed.told.clock && old(feed.counts.maskless) <= feed.counts.maskless
        invariant forall id :: id in keys ==> feed.counts.asked[id] == old(feed.counts.asked[id])
                                              && feed.counts.claims[id] == old(feed.counts.claims[id])
        decreases keys
      {
        var id :| id in keys;
        keys := keys - {id};
        ghost var before := Seen();
        full := EvaluateOne(id);
        SettledStays(before.told, feed.told, own);
        GrowsThen(first.told, before.told, feed.told);
        FairlyNext(own, first, before, Seen(), id);
        if full {
          break;
        }
      }
    }

    ghost function Seen(): View
      reads `pending, feed
    {
      View(feed.told, feed.open, feed.counts, pending.Keys)
    }

    /** One request: kept, or dropped for one of the four reasons. A request that requires a mask this worker is
        known to lack is neither claimed nor kept once it is read. */
    method EvaluateOne(id: nat) returns (full: bool)
      requires Valid() && id in pending
      modifies `pending, feed`told, feed`open, feed`eligible, feed`failures, feed`full, feed`fulls, feed`counts
      ensures Valid() && Grows(old(feed.told), feed.told)
      ensures pending.Keys == old(pending.Keys) || pending.Keys == old(pending.Keys) - {id}
      ensures id in pending || Settled(feed.told, own, id)
      ensures OnlyAbout(old(Seen()), Seen(), id) && feed.failures >= old(feed.failures)
      ensures forall other :: other != id ==> (other in feed.eligible <==> other in old(feed.eligible))
      ensures feed.fulls == old(feed.fulls) + if full then 1 else 0
      ensures !full && id in pending && feed.failures == old(feed.failures) ==> id in feed.open && id !in feed.eligible
      ensures Fairly(own, old(Seen()), Seen(), id)
      ensures id in pending && feed.failures == old(feed.failures) ==> feed.counts.asked[id] > old(feed.counts.asked[id])
    {
      hide Remembered, Settled, Grows, ClaimFeed.Valid;
      ghost var known, told := pending.Keys, feed.told;
      var verdict := Judge(id);
      if verdict.Forget? {
        pending := pending - {id};
      }
      if floor.Some? {
        RememberedMore(feed.log, known, pending.Keys, told, feed.told, own, floor.value, Position());
      }
      full := verdict.Full?;
    }

    /** The cached mask, or the one told now; an empty one where that read failed. */
    method RequiredCaps(id: nat) returns (caps: set<nat>)
      requires id in pending && CapsKnown(pending, feed.told)
      modifies `pending, feed`told, feed`counts
      ensures pending.Keys == old(pending.Keys) && CapsKnown(pending, feed.told) && Grows(old(feed.told), feed.told)
      ensures feed.told == old(feed.told).(caps := feed.told.caps)
      ensures || (feed.counts == old(feed.counts) && id in feed.told.caps && caps == feed.told.caps[id])
              || (feed.counts == old(feed.counts).(maskless := old(feed.counts.maskless) + multiset{id}) && caps == {})
    {
      if pending[id].Some? {
        return pending[id].value;
      }
      var fetched := feed.GetRequiredCapabilities(id);
      if fetched.Some? {
        pending := pending[id := fetched];
      }
      caps := if fetched.None? then {} else fetched.value;
    }

    method Judge(id: nat) returns (verdict: Verdict)
      requires id in pending && CapsKnown(pending, feed.told)
      modifies `pending, feed`told, feed`open, feed`eligible, feed`failures, feed`full, feed`fulls, feed`counts
      ensures pending.Keys == old(pending.Keys) && CapsKnown(pending, feed.told) && Grows(old(feed.told), feed.told)
      ensures verdict.Forget? ==> Settled(feed.told, own, id)
      ensures OnlyAbout(old(Seen()), Seen(), id) && feed.failures >= old(feed.failures)
      ensures forall other :: other != id ==> (other in feed.eligible <==> other in old(feed.eligible))
      ensures feed.fulls == old(feed.fulls) + if verdict.Full? then 1 else 0
      ensures verdict.KeepIt? && feed.failures == old(feed.failures) ==> id in feed.open && id !in feed.eligible
      ensures verdict.Forget? || verdict.Full? || feed.failures == old(feed.failures) ==>
                feed.counts.asked[id] > old(feed.counts.asked[id])
      ensures feed.counts.claims[id] > old(feed.counts.claims[id]) ==> verdict.Forget? && Fitting(own, old(Seen()), Seen(), id)
      ensures verdict.Forget? ==>
                || id !in feed.open
                || (id in feed.told.expiry && feed.told.clock > feed.told.expiry[id])
                || (id in feed.told.caps && !(feed.told.caps[id] <= own))
                || feed.counts.claims[id] > old(feed.counts.claims[id])
      ensures !verdict.Forget? && feed.counts.asked[id] > old(feed.counts.asked[id]) ==>
                && id in feed.open && Fitting(own, old(Seen()), Seen(), id)
                && id in feed.told.expiry && feed.told.expiry[id] >= old(feed.told.clock)
    {
      var info := feed.GetRequestInfo(id);
      if info.None? {
        return KeepIt;
      }
      if info.value.0 != 0 {
        return Forget;
      }
      var now := feed.Now();
      if now > info.value.1 {
        return Forget;
      }
      verdict := JudgeOpen(id);
    }

    /** A request just read as Open and not expired. */
    method JudgeOpen(id: nat) returns (verdict: Verdict)
      requires id in pending && CapsKnown(pending, feed.told)
      requires id in feed.open && id in feed.told.expiry && feed.told.clock <= feed.told.expiry[id]
      modifies `pending, feed`told, feed`eligible, feed`failures, feed`full, feed`fulls, feed`counts
      ensures pending.Keys == old(pending.Keys) && CapsKnown(pending, feed.told) && Grows(old(feed.told), feed.told)
      ensures feed.told == old(feed.told).(caps := feed.told.caps, attempted := feed.told.attempted)
      ensures feed.counts.asked == old(feed.counts.asked) && old(feed.counts.maskless) <= feed.counts.maskless
      ensures old(feed.failures) <= feed.failures
      ensures feed.counts.claims ==
                old(feed.counts.claims) + if feed.counts.claims[id] > old(feed.counts.claims[id]) then multiset{id} else multiset{}
      ensures forall other :: other != id ==> (other in feed.eligible <==> other in old(feed.eligible))
      ensures feed.fulls == old(feed.fulls) + if verdict.Full? then 1 else 0
      ensures feed.counts.claims[id] > old(feed.counts.claims[id]) ==> verdict.Forget? && id in feed.told.attempted
      ensures verdict.Forget? ==>
                || (id in feed.told.caps && !(feed.told.caps[id] <= own))
                || feed.counts.claims[id] > old(feed.counts.claims[id])
      ensures !verdict.Forget? || feed.counts.claims[id] > old(feed.counts.claims[id]) ==>
                || (id in feed.told.caps && feed.told.caps[id] <= own)
                || feed.counts.maskless[id] > old(feed.counts.maskless[id])
      ensures verdict.KeepIt? && feed.failures == old(feed.failures) ==> id !in feed.eligible
    {
      var caps := RequiredCaps(id);
      if !(caps <= own) {
        return Forget;
      }
      var full := feed.AtCapacity();
      if full {
        return Full;
      }
      var eligible := feed.EligibleNow(id);
      if eligible.Some? && eligible.value {
        var landed := feed.ClaimSession(id);
        return Forget;
      }
      verdict := KeepIt;
    }
  }
}

/**
 The nonce manager of one signing key (internal/chain/nonce.go): a counter seeded
 from the chain on first use, handed out as leases, and re-seeded only when no
 lease is out.

 `Counter` is the manager's four fields as a value. `Book` adds the history the
 claims are about: who holds which nonce, and what was reported consumed since the
 last seed. `Move` is one call by some goroutine; a run is any sequence of them.
 */
module Nonces {
  import opened Common

  datatype Counter = Counter(pending: nat, initialized: bool, outstanding: nat, resetPending: bool)

  const Unseeded := Counter(0, false, 0, false)

  /** A requested reset takes effect only once every lease has come back. */
  function Settle(c: Counter): Counter {
    if !c.resetPending || c.outstanding > 0 then c else Counter(0, false, c.outstanding, false)
  }

  /** The nonce handed out and the counter after it; None when the seeding read fails. */
  function Next(c: Counter, fetched: Option<nat>): Option<(nat, Counter)> {
    if !c.initialized && fetched.None? then None
    else
      var first := if c.initialized then c.pending else fetched.value;
      Some((first, Counter(first + 1, true, c.outstanding + 1, c.resetPending)))
  }

  function Release(c: Counter, nonce: nat, consumed: bool): Counter {
    var back := if c.outstanding > 0 then c.outstanding - 1 else 0;
    var c' :=
      if consumed then c.(outstanding := back)
      else if c.initialized && c.pending > 0 && nonce == c.pending - 1 then
        c.(outstanding := back, pending := c.pending - 1)
      else c.(outstanding := back, resetPending := true);
    Settle(c')
  }

  function Reset(c: Counter): Counter {
    Settle(c.(resetPending := true))
  }

  /** `held` maps a lease to its nonce; `spent` is what was reported consumed since the
      counter was last seeded, at `seed`. */
  datatype Book = Book(c: Counter, held: map<nat, nat>, spent: set<nat>, seed: nat)

  const Fresh := Book(Unseeded, map[], {}, 0)

  datatype Move =
    | Lease(id: nat, fetched: Option<nat>)
    | Return(id: nat, consumed: bool)
    | RequestReset

  /** Callers name each lease once and return it once, as the deferred ReleaseNonce does. */
  predicate Enabled(b: Book, m: Move) {
    match m
    case Lease(id, _) => id !in b.held
    case Return(id, _) => id in b.held
    case RequestReset => true
  }

  function Apply(b: Book, m: Move): Book
    requires Enabled(b, m)
  {
    match m
    case Lease(id, fetched) =>
      var r := Next(b.c, fetched);
      if r.None? then b
      else if b.c.initialized then b.(c := r.value.1, held := b.held[id := r.value.0])
      else Book(r.value.1, b.held[id := r.value.0], {}, r.value.0)
    case Return(id, consumed) =>
      b.(c := Release(b.c, b.held[id], consumed),
         spent := if consumed then b.spent + {b.held[id]} else b.spent,
         held := b.held - {id})
    case RequestReset => b.(c := Reset(b.c))
  }

  ghost predicate Legal(b: Book, moves: seq<Move>)
    decreases |moves|
  {
    moves != [] ==> Enabled(b, moves[0]) && Legal(Apply(b, moves[0]), moves[1..])
  }

  ghost function Run(b: Book, moves: seq<Move>): Book
    requires Legal(b, moves)
    decreases |moves|
  {
    if moves == [] then b else Run(Apply(b, moves[0]), moves[1..])
  }

  // ---------------------------------------------------------------- safety

  /** No two leases hold the same nonce. */
  predicate Distinct(held: map<nat, nat>) {
    forall i, j :: i in held && j in held && i != j ==> held[i] != held[j]
  }

  /** n is out on lease. */
  ghost predicate OnLease(b: Book, n: nat) {
    exists id :: id in b.held && b.held[id] == n
  }

  /** With no reset pending, everything between the seed and the counter is accounted for. */
  ghost predicate Gapless(b: Book) {
    b.c.initialized && !b.c.resetPending ==>
      forall n :: b.seed <= n < b.c.pending ==> n in b.spent || OnLease(b, n)
  }

  ghost predicate Safe(b: Book) {
    && b.c.outstanding == |b.held|
    && Distinct(b.held)
    // nothing out on lease was also reported consumed
    && (forall id :: id in b.held ==> b.held[id] !in b.spent)
    // a lease pins the seed it came from
    && (b.held != map[] ==> b.c.initialized)
    && (forall id :: id in b.held ==> b.seed <= b.held[id] < b.c.pending)
    && (b.c.initialized ==>
          b.seed <= b.c.pending && (forall n :: n in b.spent ==> b.seed <= n < b.c.pending))
    // a requested reset is applied by the time the last lease returns
    && (b.c.resetPending ==> b.held != map[])
    && Gapless(b)
  }

  lemma OneMore(held: map<nat, nat>, id: nat, n: nat)
    requires id !in held
    ensures var more := held[id := n];
            && |more| == |held| + 1 && more != map[] && more[id] == n
            && (forall i :: i in more <==> i in held || i == id)
            && (forall i :: i in held ==> more[i] == held[i])
  {
    var more := held[id := n];
    assert more.Keys == held.Keys + {id};
  }

  lemma NoGapAfterLease(b: Book, id: nat, fetched: Option<nat>)
    requires Safe(b) && Enabled(b, Lease(id, fetched))
    ensures Gapless(Apply(b, Lease(id, fetched)))
  {
    var b' := Apply(b, Lease(id, fetched));
    if b' != b && b'.c.initialized && !b'.c.resetPending {
      forall n | b'.seed <= n < b'.c.pending ensures n in b'.spent || OnLease(b', n) {
        if n == b'.c.pending - 1 {
          assert b'.held[id] == n;
        } else if n !in b.spent {
          var other :| other in b.held && b.held[other] == n;
          assert b'.held[other] == n;
        }
      }
    }
  }

  lemma SafeLease(b: Book, id: nat, fetched: Option<nat>)
    requires Safe(b) && Enabled(b, Lease(id, fetched))
    ensures Safe(Apply(b, Lease(id, fetched)))
  {
    NoGapAfterLease(b, id, fetched);
    hide Gapless;
    OneMore(b.held, id, if b.c.initialized then b.c.pending else if fetched.Some? then fetched.value else 0);
  }

  lemma OneFewer(held: map<nat, nat>, id: nat)
    requires id in held
    ensures var rest := held - {id};
            && |rest| == |held| - 1 && held != map[]
            && (rest == map[] <==> |held| == 1)
            && (forall i :: i in rest <==> i in held && i != id)
            && (forall i :: i in rest ==> rest[i] == held[i])
  {
    var rest := held - {id};
    assert rest.Keys == held.Keys - {id};
    assert rest == map[] <==> rest.Keys == {};
  }

  lemma SafeReturn(b: Book, id: nat, consumed: bool)
    requires Safe(b) && Enabled(b, Return(id, consumed))
    ensures Safe(Apply(b, Return(id, consumed)))
  {
    var b' := Apply(b, Return(id, consumed));
    NoGapAfterReturn(b, id, consumed);
    hide Gapless;
    OneFewer(b.held, id);
  }

  lemma NoGapAfterReturn(b: Book, id: nat, consumed: bool)
    requires Safe(b) && Enabled(b, Return(id, consumed))
    ensures Gapless(Apply(b, Return(id, consumed)))
  {
    var b' := Apply(b, Return(id, consumed));
    if b'.c.initialized && !b'.c.resetPending {
      forall n | b'.seed <= n < b'.c.pending ensures n in b'.spent || OnLease(b', n) {
        if n !in b'.spent {
          var other :| other in b.held && b.held[other] == n;
          assert other != id;
          assert b'.held[other] == n;
        }
      }
    }
  }

  lemma SafeStep(b: Book, m: Move)
    requires Safe(b) && Enabled(b, m)
    ensures Safe(Apply(b, m))
  {
    match m
    case Lease(id, fetched) => SafeLease(b, id, fetched);
    case Return(id, consumed) => SafeReturn(b, id, consumed);
    case RequestReset =>
      var b' := Apply(b, m);
      assert b'.held == b.held;
      assert b'.c.initialized ==> b'.c.resetPending;
  }

  /** Every run, of any number of goroutines, starting from an unused manager is safe. */
  lemma {:induction false} SafeRun(b: Book, moves: seq<Move>)
    requires Safe(b) && Legal(b, moves)
    ensures Safe(Run(b, moves))
    decreases |moves|
  {
    if moves != [] {
      SafeStep(b, moves[0]);
      SafeRun(Apply(b, moves[0]), moves[1..]);
    }
  }

  /** In every reachable state: held nonces are pairwise distinct and disjoint from the
      consumed ones, `outstanding` counts the leases, no reset waits on nothing, and while
      none is pending the nonces between seed and counter are exactly the held and the
      consumed ones. */
  lemma LeasesFromStart(moves: seq<Move>)
    requires Legal(Fresh, moves)
    ensures var b := Run(Fresh, moves);
            && b.c.outstanding == |b.held|
            && Distinct(b.held)
            && (b.c.resetPending ==> b.c.outstanding > 0)
            && (b.c.initialized && !b.c.resetPending ==>
                  forall n: nat :: b.seed <= n < b.c.pending <==> (n in b.spent || OnLease(b, n)))
  {
    SafeRun(Fresh, moves);
    var b := Run(Fresh, moves);
    assert b.held != map[] ==> |b.held.Keys| > 0;
  }

  /** While a lease is out the counter is never seeded again: the next nonce does not depend on
      what the chain would answer, it is the local counter's, and it is neither held nor spent. */
  lemma NoReseedUnderLease(moves: seq<Move>, id: nat, fetched: Option<nat>)
    requires Legal(Fresh, moves) && Run(Fresh, moves).held != map[]
    requires id !in Run(Fresh, moves).held
    ensures var b := Run(Fresh, moves); var b' := Apply(b, Lease(id, fetched));
            && b'.seed == b.seed && b'.spent == b.spent
            && id in b'.held && b'.held[id] == b.c.pending
            && b'.held[id] !in b.spent && !OnLease(b, b'.held[id])
  {
    SafeRun(Fresh, moves);
  }

  /** The counter stays seeded before every move of the run, so no move seeds it again. */
  ghost predicate KeepsSeed(b: Book, moves: seq<Move>)
    requires Legal(b, moves)
    decreases |moves|
  {
    moves != [] ==> b.c.initialized && KeepsSeed(Apply(b, moves[0]), moves[1..])
  }

  /** A nonce reported consumed is never leased again before the counter is re-seeded, whatever
      leases, returns and reset requests follow. */
  lemma {:induction false} ConsumedStaysConsumed(b: Book, moves: seq<Move>, n: nat)
    requires Safe(b) && Legal(b, moves) && KeepsSeed(b, moves) && n in b.spent
    ensures n in Run(b, moves).spent && !OnLease(Run(b, moves), n)
    decreases |moves|
  {
    if moves != [] {
      SafeStep(b, moves[0]);
      ConsumedStaysConsumed(Apply(b, moves[0]), moves[1..], n);
    }
  }

  /** A reset requested while `n` leases are out is applied exactly when the last one returns,
      whatever they report and in whatever order; no lease taken meanwhile sees a new seed. */
  lemma {:induction false} ResetAppliedByLastReturn(b: Book, moves: seq<Move>)
    requires Safe(b) && b.c.resetPending && Legal(b, moves)
    requires forall k :: 0 <= k < |moves| ==> moves[k].Return?
    ensures var b' := Run(b, moves);
            && (b'.held == map[] ==> !b'.c.initialized && !b'.c.resetPending)
            && (b'.held != map[] ==> b'.c.resetPending && b'.seed == b.seed)
    decreases |moves|
  {
    if moves != [] {
      var b1 := Apply(b, moves[0]);
      SafeStep(b, moves[0]);
      assert b1.held.Keys == b.held.Keys - {moves[0].id};
      assert |moves| > 1 ==> moves[1..][0].id in b1.held;
      if b1.held != map[] {
        assert b1.held.Keys != {};
        ResetAppliedByLastReturn(b1, moves[1..]);
      }
    }
  }

  /** Moves of goroutines that hold none of the leases in `mine`. */
  ghost predicate LeavesAlone(moves: seq<Move>, mine: set<nat>) {
    forall k :: 0 <= k < |moves| && !moves[k].RequestReset? ==> moves[k].id !in mine
  }

  /** Such moves change none of those leases; and while one of them is out, the counter keeps its seed. */
  lemma {:induction false} LeftAlone(b: Book, moves: seq<Move>, mine: set<nat>)
    requires Safe(b) && Legal(b, moves) && LeavesAlone(moves, mine)
    ensures var b' := Run(b, moves);
            && (forall id :: id in mine ==> (id in b'.held <==> id in b.held))
            && (forall id :: id in mine && id in b.held ==> b'.held[id] == b.held[id])
            && ((exists id :: id in mine && id in b.held) ==> b'.seed == b.seed)
    decreases |moves|
  {
    if moves != [] {
      SafeStep(b, moves[0]);
      assert forall k :: 0 <= k < |moves[1..]| ==> moves[1..][k] == moves[k + 1];
      LeftAlone(Apply(b, moves[0]), moves[1..], mine);
      LeftAloneStep(b, moves[0], mine);
    }
  }

  lemma LeftAloneStep(b: Book, m: Move, mine: set<nat>)
    requires Safe(b) && Enabled(b, m) && (!m.RequestReset? ==> m.id !in mine)
    ensures var b' := Apply(b, m);
            && (forall id :: id in mine ==> (id in b'.held <==> id in b.held))
            && (forall id :: id in mine && id in b.held ==> b'.held[id] == b.held[id])
            && ((exists id :: id in mine && id in b.held) ==> b'.seed == b.seed)
  {
  }

  /** Leases taken one after the other hold consecutive nonces: from the counter on if it is seeded, else from
      what the chain answered to the first of them. */
  lemma {:induction false} LeasesInOrder(b: Book, moves: seq<Move>, k: nat)
    requires Safe(b) && Legal(b, moves) && k < |moves|
    requires forall i :: 0 <= i < |moves| ==> moves[i].Lease?
    requires b.c.initialized || moves[0].fetched.Some?
    ensures var b' := Run(b, moves);
            var n := if b.c.initialized then b.c.pending else moves[0].fetched.value;
            && moves[k].id in b'.held && b'.held[moves[k].id] == n + k
            && b'.c.initialized && b'.c.pending == n + |moves| && b'.seed == (if b.c.initialized then b.seed else n)
    decreases |moves|
  {
    var b1 := Apply(b, moves[0]);
    SafeStep(b, moves[0]);
    if |moves| > 1 {
      LeasesInOrder(b1, moves[1..], if k > 0 then k - 1 else 0);
    }
    if k == 0 {
      assert moves == [moves[0]] + moves[1..];
      LeaseStays(b1, moves[1..], moves[0].id);
    }
  }

  /** Further leases take none away. */
  lemma {:induction false} LeaseStays(b: Book, moves: seq<Move>, id: nat)
    requires Legal(b, moves) && id in b.held && forall i :: 0 <= i < |moves| ==> moves[i].Lease?
    ensures id in Run(b, moves).held && Run(b, moves).held[id] == b.held[id]
    decreases |moves|
  {
    if moves != [] {
      assert forall i :: 0 <= i < |moves[1..]| ==> moves[1..][i] == moves[i + 1];
      LeaseStays(Apply(b, moves[0]), moves[1..], id);
    }
  }

  lemma HeldMeans(b: Book, id: nat)
    requires Safe(b) && id in b.held
    ensures b.c.initialized && b.c.outstanding > 0 && b.held[id] < b.c.pending
  {
    OneFewer(b.held, id);
  }

  lemma LeaseMeans(b: Book, id: nat, fetched: Option<nat>)
    requires Enabled(b, Lease(id, fetched))
    ensures var b' := Apply(b, Lease(id, fetched));
            if !b.c.initialized && fetched.None? then b' == b
            else
              var n := if b.c.initialized then b.c.pending else fetched.value;
              && b'.c == Counter(n + 1, true, b.c.outstanding + 1, b.c.resetPending)
              && b'.seed == (if b.c.initialized then b.seed else n) && id in b'.held && b'.held[id] == n
  {
  }

  // ---------------------------------------------------------------- the object

  /** How a lease was handed back. */
  datatype Report = Report(nonce: nat, consumed: bool)

  /** The manager itself. `book` and `returned` are history: the Go object has only the four fields. */
  class NonceManager {
    var pendingNonce: nat
    var initialized: bool
    var outstanding: nat
    var resetPending: bool
    ghost var book: Book
    /** What ReleaseNonce was told of each lease handed back since it was last taken. */
    ghost var returned: map<nat, Report>
    /** The leases that seeded the counter. */
    ghost var seeding: set<nat>

    ghost function State(): Counter
      reads this
    {
      Counter(pendingNonce, initialized, outstanding, resetPending)
    }

    ghost predicate Valid()
      reads this
    {
      book.c == State() && Safe(book)
    }

    constructor ()
      ensures Valid() && book == Fresh && returned == map[] && seeding == {} && !initialized
    {
      pendingNonce, initialized, outstanding, resetPending := 0, false, 0, false;
      book, returned, seeding := Fresh, map[], {};
    }

    /** NextNonce: `fetched` is what PendingNonceAt would answer, None an RPC error. An unseeded manager leases
        exactly the nonce answered and counts on from there; a seeded one leases its counter. */
    method NextNonce(fetched: Option<nat>, ghost id: nat) returns (nonce: Option<nat>)
      requires Valid() && Enabled(book, Lease(id, fetched))
      modifies this
      ensures Valid() && book == Apply(old(book), Lease(id, fetched))
      ensures nonce.None? <==> !old(initialized) && fetched.None?
      ensures nonce.Some? ==>
                && nonce.value == (if old(initialized) then old(pendingNonce) else fetched.value)
                && initialized && pendingNonce == nonce.value + 1
                && book.seed == (if old(initialized) then old(book.seed) else fetched.value)
                && outstanding == old(outstanding) + 1 && resetPending == old(resetPending)
      ensures seeding == if nonce.Some? && !old(initialized) then old(seeding) + {id}
                         else if nonce.Some? then old(seeding) - {id} else old(seeding)
      ensures nonce.Some? ==> id in book.held && book.held[id] == nonce.value
      ensures nonce.None? ==> book == old(book)
      ensures returned == if nonce.None? then old(returned) else old(returned) - {id}
    {
      hide Safe, Apply, Enabled;
      SafeStep(book, Lease(id, fetched));
      LeaseMeans(book, id, fetched);
      ghost var seeds := !initialized;
      ghost var next := Apply(book, Lease(id, fetched));
      if !initialized {
        if fetched.None? {
          return None;
        }
        pendingNonce := fetched.value;
        initialized := true;
      }
      nonce := Some(pendingNonce);
      pendingNonce := pendingNonce + 1;
      outstanding := outstanding + 1;
      book, returned := next, returned - {id};
      seeding := if seeds then seeding + {id} else seeding - {id};
    }

    /** An unused nonce is handed back if it was the highest, and asks for a reset otherwise; a reset asked for
        happens when the last lease is back. */
    method ReleaseNonce(nonce: nat, consumed: bool, ghost id: nat)
      requires Valid() && id in book.held && book.held[id] == nonce
      modifies this
      ensures Valid() && book == Apply(old(book), Return(id, consumed))
      ensures returned == old(returned)[id := Report(nonce, consumed)] && seeding == old(seeding)
      ensures outstanding == old(outstanding) - 1
      ensures var highest := nonce + 1 == old(pendingNonce);
              var reset := old(resetPending) || (!consumed && !highest);
              if reset && outstanding == 0 then !initialized && !resetPending
              else initialized && resetPending == reset
                   && pendingNonce == old(pendingNonce) - if !consumed && highest then 1 else 0
    {
      hide Safe;
      SafeStep(book, Return(id, consumed));
      HeldMeans(book, id);
      ghost var next := Apply(book, Return(id, consumed));
      if outstanding > 0 {
        outstanding := outstanding - 1;
      }
      if !consumed {
        if initialized && pendingNonce > 0 && nonce == pendingNonce - 1 {
          pendingNonce := pendingNonce - 1;
        } else {
          resetPending := true;
        }
      }
      ApplyPendingReset();
      book, returned := next, returned[id := Report(nonce, consumed)];
    }

    method ResetNonce()
      requires Valid()
      modifies this
      ensures Valid() && book == Apply(old(book), RequestReset) && returned == old(returned) && seeding == old(seeding)
      ensures outstanding == old(outstanding)
      ensures if outstanding == 0 then !initialized && !resetPending
              else initialized && resetPending && pendingNonce == old(pendingNonce)
    {
      SafeStep(book, RequestReset);
      assert outstanding > 0 ==> initialized by {
        assert |book.held| > 0 ==> book.held != map[];
      }
      hide Safe;
      ghost var next := Apply(book, RequestReset);
      resetPending := true;
      ApplyPendingReset();
      book := next;
    }

    method ApplyPendingReset()
      modifies this`pendingNonce, this`initialized, this`resetPending
      ensures State() == Settle(old(State()))
    {
      if !resetPending || outstanding > 0 {
        return;
      }
      initialized := false;
      pendingNonce := 0;
      resetPending := false;
    }

    /** Any number of calls by the other goroutines sharing the key. The contract is the whole
        model, a caller knows nothing else: they run legal moves that touch no lease in `mine`. */
    method Others(ghost mine: set<nat>)
      requires Valid()
      modifies this
      ensures Valid()
      ensures exists moves :: Legal(old(book), moves) && Run(old(book), moves) == book && LeavesAlone(moves, mine)
      ensures forall id :: id in mine ==> (id in returned <==> id in old(returned))
      ensures forall id :: id in mine && id in returned ==> returned[id] == old(returned)[id]
      ensures forall id :: id in mine ==> (id in seeding <==> id in old(seeding))
    {
      ghost var none: seq<Move> := [];
      assert Legal(book, none) && Run(book, none) == book;
    }
  }
}

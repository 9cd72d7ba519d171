/**
 Putting transactions on the wire: the prepared legacy transactions of
 internal/chain/client.go and the blob transactions of internal/blob/blob_tx.go, over the
 shared nonce manager, coordinator and stuck-nonce tracker.

 Replies of the RPC node are a parameter, so a contract speaks for every combination of them;
 `Interleave` stands before each step for whatever other goroutines do to the shared objects.
 A Go `defer` becomes an explicit release on every exit, in the deferred order.
 */
module Broadcasts {
  import opened Common
  import N = Nonces
  import C = Coordinators
  import S = StuckNonces

  /** The classes of SendTransaction outcome the code tells apart. Desync and Definite are the
      rejections that reset the nonce; only a Desync may be "address already reserved". */
  datatype SendReply = Accepted | Desync(reserved: bool) | Definite | Ambiguous

  predicate Rejected(r: SendReply) {
    r.Desync? || r.Definite?
  }

  datatype MinedReply = Mined | Reverted | WaitFailed

  /** Everything the node and the context answer during one broadcast. */
  datatype Script = Script(gasOk: bool, patience: nat, transactorOk: bool, fetched: Option<nat>,
                           buildOk: bool, ctxLive: bool, send: SendReply,
                           rebuildOk: bool, resendAccepted: bool)

  /** How a broadcast that obtained a nonce must hand it back (first), and the second nonce of a resend
      (second, if there is one): as consumed exactly if its transaction may be on the wire. */
  function HandBacks(e: Script): (bool, Option<bool>) {
    if !e.buildOk || !e.ctxLive then (false, None)
    else if e.send.Accepted? || e.send.Ambiguous? then (true, None)
    else if e.send.Definite? then (false, None)
    else (false, Some(e.rebuildOk && e.resendAccepted))
  }

  /** The manager was told exactly this of the lease: nothing, or its return as (not) consumed. */
  predicate ReturnedAs(returned: map<nat, N.Report>, id: nat, consumed: Option<bool>) {
    match consumed
    case None => id !in returned
    case Some(c) => id in returned && returned[id].consumed == c
  }

  /** The transaction goes out: at once, or on the resend after a desync. */
  predicate Sent(e: Script) {
    && e.buildOk && e.ctxLive
    && (e.send.Accepted? || (e.send.Desync? && e.rebuildOk && e.resendAccepted))
  }

  /** The objects one signing key shares. */
  class Key {
    const nonces: N.NonceManager
    const coord: C.SubpoolCoordinator
    const tracker: S.StuckNonceTracker

    ghost predicate Valid()
      reads this, nonces, coord, tracker
    {
      nonces.Valid() && coord.Valid() && tracker.Valid()
    }

    constructor (nonces: N.NonceManager, coord: C.SubpoolCoordinator, tracker: S.StuckNonceTracker)
      requires nonces.Valid() && coord.Valid() && tracker.Valid()
      ensures Valid() && this.nonces == nonces && this.coord == coord && this.tracker == tracker
    {
      this.nonces, this.coord, this.tracker := nonces, coord, tracker;
    }

    /** The leases out, by name. */
    ghost function Leases(): map<nat, nat>
      reads this, nonces
    {
      nonces.book.held
    }

    /** What the manager was told of the leases handed back. */
    ghost function Returned(): map<nat, N.Report>
      reads this, nonces
    {
      nonces.returned
    }

    /** The leases that seeded the counter. */
    ghost function Seeding(): set<nat>
      reads this, nonces
    {
      nonces.seeding
    }

    /** The counter's nonce, or the chain's answer if the counter is unseeded. */
    method Take(fetched: Option<nat>, ghost id: nat) returns (nonce: Option<nat>)
      requires Valid() && id !in Leases()
      modifies nonces
      ensures Valid() && Returned() == if nonce.None? then old(Returned()) else old(Returned()) - {id}
      ensures nonce.None? <==> !old(nonces.initialized) && fetched.None?
      ensures nonce.Some? ==>
                nonce.value == if old(nonces.initialized) then old(nonces.pendingNonce) else fetched.value
      ensures nonce.Some? ==> (id in Seeding() <==> !old(nonces.initialized))
      ensures forall other :: other != id ==> (other in Seeding() <==> other in old(Seeding()))
      ensures old(Leases()) != map[] ==> nonces.book.seed == old(nonces.book.seed)
      ensures nonce.None? ==> Leases() == old(Leases())
      ensures nonce.Some? ==> Leases() == old(Leases())[id := nonce.value]
      ensures forall other :: other in old(Leases()) ==> nonce.Some? && nonce.value != old(Leases())[other]
    {
      nonce := nonces.NextNonce(fetched, id);
    }

    method HandBack(nonce: nat, consumed: bool, ghost id: nat)
      requires Valid() && id in Leases() && Leases()[id] == nonce
      modifies nonces
      ensures Valid() && Leases() == old(Leases()) - {id}
      ensures Returned() == old(Returned())[id := N.Report(nonce, consumed)] && Seeding() == old(Seeding())
      ensures nonces.book.seed == old(nonces.book.seed)
      ensures consumed ==> nonce in nonces.book.spent
    {
      nonces.ReleaseNonce(nonce, consumed, id);
    }

    method RecordRejection(nonce: nat)
      requires Valid()
      modifies tracker
      ensures Valid() && tracker.JustRecorded(nonce)
    {
      var _, _, _ := tracker.Record(nonce);
    }

    method Reset()
      requires Valid()
      modifies nonces
      ensures Valid() && Leases() == old(Leases()) && Returned() == old(Returned()) && Seeding() == old(Seeding())
      ensures nonces.book.seed == old(nonces.book.seed)
      ensures nonces.book == N.Apply(old(nonces.book), N.RequestReset)
      ensures Leases() != map[] ==> nonces.resetPending
    {
      assert Leases() != map[] ==> |Leases()| > 0;
      nonces.ResetNonce();
    }

    /** Other goroutines run; they neither use the leases, nor settle the slots, nor enter under the names of
        this one. */
    method Interleave(ghost leases: set<nat>, ghost slots: set<nat>, ghost names: set<nat>)
      requires Valid() && slots <= coord.issued
      modifies nonces, coord, tracker
      ensures Valid() && old(coord.issued) <= coord.issued
      ensures forall id :: id in leases ==> (id in Leases() <==> id in old(Leases()))
      ensures forall id :: id in leases && id in Leases() ==> Leases()[id] == old(Leases())[id]
      ensures forall id :: id in leases ==> (id in Returned() <==> id in old(Returned()))
      ensures forall id :: id in leases && id in Returned() ==> Returned()[id] == old(Returned())[id]
      ensures forall id :: id in leases ==> (id in Seeding() <==> id in old(Seeding()))
      ensures (exists id :: id in leases && id in Leases()) ==> nonces.book.seed == old(nonces.book.seed)
      ensures forall id :: id in slots ==> (id in coord.live <==> id in old(coord.live))
      ensures forall id, k :: id in slots && id in C.In(coord.State(), k) ==> id in C.In(old(coord.State()), k)
      ensures forall s :: s in names ==>
                && (s in coord.entered <==> s in old(coord.entered))
                && (s in coord.turnedAway <==> s in old(coord.turnedAway))
      ensures forall s :: s in names && s in coord.entered ==> coord.entered[s] == old(coord.entered)[s]
    {
      ghost var book := nonces.book;
      nonces.Others(leases);
      ghost var moves :| N.Legal(book, moves) && N.Run(book, moves) == nonces.book && N.LeavesAlone(moves, leases);
      N.LeftAlone(book, moves, leases);
      coord.Others(slots, names);
      tracker.Others();
    }

    /** The slot admitted under this name, not settled yet. */
    ghost predicate Holding(slot: C.BroadcastToken, s: nat)
      reads slot, coord
    {
      slot.coord == coord && slot.Valid() && !slot.settled && s in coord.entered && coord.entered[s] == slot.entryID
    }

    /** Enter the class under a fresh name, or give up having been turned away. */
    method Enter(class_: C.TxClass, now: int, patience: nat, ghost s: nat) returns (slot: C.BroadcastToken?)
      requires Valid() && coord.Unnamed(s)
      modifies coord
      ensures Valid() && (slot != null ==> fresh(slot) && Holding(slot, s))
      ensures slot == null ==> s !in coord.entered && s in coord.turnedAway
    {
      hide N.Safe, C.Good, S.Accurate;
      var token, ch := coord.EnterClass(class_, now, patience, {}, s);
      slot := token;
    }

    /** Leave the slot for good. */
    method Leave(slot: C.BroadcastToken, ghost s: nat)
      requires Valid() && Holding(slot, s)
      modifies slot, coord
      ensures Valid() && s in coord.entered && coord.entered[s] !in coord.live
    {
      hide N.Safe, C.Good, S.Accurate;
      slot.Done();
    }

    /** The same while the caller holds a slot. */
    method InterleaveWith(slot: C.BroadcastToken, ghost leases: set<nat>, ghost s: nat)
      requires Valid() && Holding(slot, s)
      modifies nonces, coord, tracker
      ensures Valid() && Holding(slot, s)
      ensures forall id :: id in leases ==> (id in Leases() <==> id in old(Leases()))
      ensures forall id :: id in leases && id in Leases() ==> Leases()[id] == old(Leases())[id]
      ensures forall id :: id in leases ==> (id in Returned() <==> id in old(Returned()))
      ensures forall id :: id in leases && id in Returned() ==> Returned()[id] == old(Returned())[id]
      ensures forall id :: id in leases ==> (id in Seeding() <==> id in old(Seeding()))
      ensures (exists id :: id in leases && id in Leases()) ==> nonces.book.seed == old(nonces.book.seed)
    {
      hide N.Safe, C.Good, S.Accurate;
      Interleave(leases, {slot.entryID}, {s});
    }
  }

  /** A broadcast transaction whose receipt has not been observed; it owns the slot. */
  class PendingTx {
    const key: Key
    const nonce: nat
    const token: C.BroadcastToken
    var waited: bool
    var waitOk: bool

    ghost predicate Valid()
      reads this, key, key.nonces, key.coord, key.tracker, token, token.coord
    {
      key.Valid() && token.coord == key.coord && token.Valid() && (token.settled <==> waited)
    }

    constructor (key: Key, nonce: nat, token: C.BroadcastToken)
      ensures this.key == key && this.nonce == nonce && this.token == token && !waited
    {
      this.key, this.nonce, this.token, this.waited, this.waitOk := key, nonce, token, false, false;
    }

    /** The first Wait frees the slot whatever the receipt says; a later one changes nothing and
        repeats the first result. */
    method Wait(reply: MinedReply) returns (ok: bool)
      requires Valid()
      modifies this, token, key.nonces, key.coord, key.tracker
      ensures Valid() && waited && token.entryID !in key.coord.live
      ensures !old(waited) ==> ok == reply.Mined? && key.coord.live == old(key.coord.live) - {token.entryID}
      ensures !old(waited) ==> key.nonces.book == if reply.WaitFailed? then N.Apply(old(key.nonces.book), N.RequestReset)
                                                  else old(key.nonces.book)
      ensures !old(waited) && reply.Mined? ==> key.tracker.entries == map[]
      ensures old(waited) ==>
                && ok == old(waitOk) && unchanged(key.nonces) && unchanged(key.coord)
                && unchanged(key.tracker) && unchanged(token)
      ensures ok == waitOk
    {
      if !waited {
        waitOk := AwaitMined(reply);
        waited := true;
      }
      ok := waitOk;
    }

    method AwaitMined(reply: MinedReply) returns (ok: bool)
      requires key.Valid() && token.coord == key.coord && token.Valid() && !token.settled
      modifies token, key.nonces, key.coord, key.tracker
      ensures key.Valid() && token.Valid() && token.settled && ok == reply.Mined?
      ensures key.coord.live == old(key.coord.live) - {token.entryID}
      ensures key.nonces.book == if reply.WaitFailed? then N.Apply(old(key.nonces.book), N.RequestReset)
                                 else old(key.nonces.book)
      ensures reply.Mined? ==> key.tracker.entries == map[]
    {
      if reply.WaitFailed? {
        key.nonces.ResetNonce();
      } else if reply.Mined? {
        key.tracker.Clear();
      }
      token.Done();
      ok := reply.Mined?;
    }
  }

  class ChainClient {
    const key: Key

    constructor (key: Key)
      ensures this.key == key
    {
      this.key := key;
    }

    /** On every path: each lease taken was handed back once, and in the manner HandBacks demands; and the slot
        admitted, if one was, is still held exactly when a PendingTx is returned, which then owns it. `a` and
        `b` are fresh names for the two leases the call may take, `s` for its slot. With a gas price it asks
        for the slot, and goes without only if turned away; with slot, transactor and nonce the first lease
        is taken. A first lease that seeds the counter holds the nonce the chain answered. */
    method BroadcastPreparedTx(e: Script, now: int, ghost a: nat, ghost b: nat, ghost s: nat)
      returns (pending: PendingTx?)
      requires key.Valid() && a != b && Unused(a) && Unused(b) && key.coord.Unnamed(s)
      modifies key.nonces, key.coord, key.tracker
      ensures key.Valid() && a !in key.Leases() && b !in key.Leases()
      ensures s in key.coord.entered && key.coord.entered[s] in key.coord.live <==> pending != null
      ensures e.gasOk <==> s in key.coord.entered || s in key.coord.turnedAway
      ensures HandedBack(e, a, b)
      ensures a in key.Returned() ==> s in key.coord.entered && e.transactorOk
      ensures s in key.coord.entered && e.transactorOk && e.fetched.Some? ==> a in key.Returned()
      ensures a in key.Returned() ==>
                && (key.Returned()[a].consumed <==> e.buildOk && e.ctxLive && (e.send.Accepted? || e.send.Ambiguous?))
                && (b in key.Returned() <==> e.buildOk && e.ctxLive && e.send.Desync?)
                && (b in key.Returned() ==> (key.Returned()[b].consumed <==> e.rebuildOk && e.resendAccepted))
      ensures a in key.Returned() && a in key.Seeding() ==> e.fetched == Some(key.Returned()[a].nonce)
      ensures pending != null <==>
                a in key.Returned() && e.buildOk && e.ctxLive
                && (e.send.Accepted? || (e.send.Desync? && e.rebuildOk && e.resendAccepted))
      ensures pending != null ==>
                && fresh(pending) && pending.key == key && pending.Valid() && key.coord.entered[s] == pending.token.entryID
                && key.Returned()[if e.send.Desync? then b else a] == N.Report(pending.nonce, true)
                && pending.nonce in key.nonces.book.spent
    {
      hide N.Safe, C.Good, S.Accurate, HandBacks, Sent, ReturnedAs, ChainClient.HandedBack, Key.Valid;
      if !e.gasOk {
        NothingTaken(e, a, b);
        return null;
      }
      key.Interleave({a, b}, {}, {s});
      var slot := key.Enter(C.Legacy, now, e.patience, s);
      if slot == null {
        NothingTaken(e, a, b);
        return null;
      }
      key.InterleaveWith(slot, {a, b}, s);
      var nonce := None;
      NothingTaken(e, a, b);
      if e.transactorOk {
        nonce := SendUnderSlot(e, slot, a, b, s);
      }
      HandedBackMeans(e, a, b);
      if nonce.None? {
        key.Leave(slot, s);
        return null;
      }
      pending := new PendingTx(key, nonce.value, slot);
    }

    /** A name no lease has, and of which nothing was handed back. */
    ghost predicate Unused(id: nat)
      reads key, key.nonces
    {
      id !in key.Leases() && id !in key.Returned()
    }

    /** Both leases of a call that is over: none taken, or returned as the protocol demands, under distinct nonces. */
    ghost predicate HandedBack(e: Script, a: nat, b: nat)
      reads key, key.nonces
    {
      if a !in key.Returned() then b !in key.Returned()
      else
        && ReturnedAs(key.Returned(), a, Some(HandBacks(e).0))
        && ReturnedAs(key.Returned(), b, HandBacks(e).1)
        && (b in key.Returned() ==> key.Returned()[b].nonce != key.Returned()[a].nonce)
    }

    lemma NothingTaken(e: Script, a: nat, b: nat)
      ensures a !in key.Returned() && b !in key.Returned() ==> HandedBack(e, a, b)
    {
    }

    /** The reports, reply by reply. */
    lemma HandedBackMeans(e: Script, a: nat, b: nat)
      ensures HandedBack(e, a, b) && a in key.Returned() ==>
                && (key.Returned()[a].consumed <==> e.buildOk && e.ctxLive && (e.send.Accepted? || e.send.Ambiguous?))
                && (b in key.Returned() <==> e.buildOk && e.ctxLive && e.send.Desync?)
                && (b in key.Returned() ==> (key.Returned()[b].consumed <==> e.rebuildOk && e.resendAccepted))
      ensures Sent(e) <==>
                e.buildOk && e.ctxLive && (e.send.Accepted? || (e.send.Desync? && e.rebuildOk && e.resendAccepted))
    {
    }

    /** From NextNonce to the deferred ReleaseNonce; Some is the nonce of the transaction sent. */
    method SendUnderSlot(e: Script, slot: C.BroadcastToken, ghost a: nat, ghost b: nat, ghost s: nat)
      returns (sentNonce: Option<nat>)
      requires key.Valid() && a != b && Unused(a) && Unused(b)
      requires key.Holding(slot, s)
      modifies key.nonces, key.coord, key.tracker
      ensures key.Valid() && key.Holding(slot, s)
      ensures a !in key.Leases() && b !in key.Leases()
      ensures HandedBack(e, a, b) && (e.fetched.Some? ==> a in key.Returned())
      ensures a in key.Returned() && a in key.Seeding() ==> e.fetched == Some(key.Returned()[a].nonce)
      ensures sentNonce.Some? <==> a in key.Returned() && Sent(e)
      ensures sentNonce.Some? ==>
                && key.Returned()[if e.send.Desync? then b else a] == N.Report(sentNonce.value, true)
                && sentNonce.value in key.nonces.book.spent
    {
      hide N.Safe, C.Good, S.Accurate, Key.Valid, Key.Holding;
      var first := key.Take(e.fetched, a);
      if first.None? {
        return None;
      }
      key.InterleaveWith(slot, {a, b}, s);
      var nonce, nonceConsumed := first.value, false;
      ghost var lease := a;
      if e.buildOk && e.ctxLive {
        nonce, nonceConsumed, lease := Send(e, slot, nonce, a, b, s);
      }
      key.HandBack(nonce, nonceConsumed, lease);
      sentNonce := if Sent(e) then Some(nonce) else None;
    }

    /** SendTransaction, the retry, and the verdict on the nonce now owned: `lease` and `nonce`. The other of the
        two leases, if it was taken, has been handed back as the protocol demands. */
    method Send(e: Script, slot: C.BroadcastToken, first: nat, ghost a: nat, ghost b: nat, ghost s: nat)
      returns (nonce: nat, nonceConsumed: bool, ghost lease: nat)
      requires key.Valid() && a != b && Unused(b) && a !in key.Returned() && a in key.Leases() && key.Leases()[a] == first
      requires key.Holding(slot, s) && e.buildOk && e.ctxLive
      modifies key.nonces, key.coord, key.tracker
      ensures key.Valid() && key.Holding(slot, s)
      ensures lease == (if e.send.Desync? && Sent(e) then b else a)
      ensures a in key.Seeding() <==> a in old(key.Seeding())
      ensures lease in key.Leases() && key.Leases()[lease] == nonce && lease !in key.Returned()
      ensures forall id :: id in {a, b} && id != lease ==> id !in key.Leases()
      ensures if lease == a then nonce == first && nonceConsumed == HandBacks(e).0 && ReturnedAs(key.Returned(), b, HandBacks(e).1)
              else nonceConsumed && key.Returned()[a := N.Report(first, false)] == key.Returned()
      ensures b in key.Returned() ==> key.Returned()[b].nonce != first
      ensures lease == b ==> nonce != first
      ensures !Sent(e) && (e.send.Desync? || e.send.Definite?) ==> key.nonces.resetPending
      ensures !Sent(e) && e.send.Desync? && e.send.reserved ==> key.tracker.JustRecorded(nonce)
    {
      hide N.Safe, C.Good, S.Accurate;
      nonce, nonceConsumed, lease := first, false, a;
      var sendErr := e.send;
      if sendErr.Desync? {
        var retry;
        ghost var second;
        retry, second := ResendWithFreshNonce(e, slot, nonce, a, b, s);
        if retry.Some? {
          nonce, lease, sendErr := retry.value, b, Accepted;
        }
      }
      if sendErr.Accepted? {
        nonceConsumed := true;
      } else {
        if Rejected(sendErr) {
          key.Reset();
        } else {
          nonceConsumed := true;
        }
        if sendErr.Desync? && sendErr.reserved {
          key.RecordRejection(nonce);
        }
      }
    }

    /** One retry after a desync. The stale lease is still held, so the reset it asks for is deferred and the
        counter keeps its seed: the second nonce is the local counter's, not a fresh one from the chain, and
        differs from the stale one. On success the stale lease has been handed back as unused and the caller
        owns the new one; on failure the new one has, and the caller keeps the stale lease. */
    method ResendWithFreshNonce(e: Script, slot: C.BroadcastToken, staleNonce: nat, ghost a: nat, ghost b: nat, ghost s: nat)
      returns (retry: Option<nat>, ghost second: nat)
      requires key.Valid() && a != b && Unused(b)
      requires a in key.Leases() && key.Leases()[a] == staleNonce && a !in key.Returned()
      requires key.Holding(slot, s)
      modifies key.nonces, key.coord, key.tracker
      ensures key.Valid() && key.Holding(slot, s) && second != staleNonce
      ensures key.nonces.book.seed == old(key.nonces.book.seed) && (a in key.Seeding() <==> a in old(key.Seeding()))
      ensures retry == if e.rebuildOk && e.resendAccepted then Some(second) else None
      ensures retry.Some? ==>
                && a !in key.Leases() && a in key.Returned() && key.Returned()[a] == N.Report(staleNonce, false)
                && b in key.Leases() && key.Leases()[b] == second && b !in key.Returned()
      ensures retry.None? ==>
                && b !in key.Leases() && b in key.Returned() && key.Returned()[b] == N.Report(second, false)
                && a in key.Leases() && key.Leases()[a] == staleNonce && a !in key.Returned()
    {
      hide N.Safe, C.Good, S.Accurate;
      key.Reset();
      key.InterleaveWith(slot, {a, b}, s);
      var fresh_ := key.Take(None, b);
      second := fresh_.value;
      key.InterleaveWith(slot, {a, b}, s);
      if !e.rebuildOk || !e.resendAccepted {
        key.HandBack(fresh_.value, false, b);
        return None, second;
      }
      key.HandBack(staleNonce, false, a);
      return fresh_, second;
    }
  }
}

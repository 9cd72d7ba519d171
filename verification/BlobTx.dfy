/**
 Submission of one blob transaction (internal/blob/blob_tx.go): the slot, the nonce lease, the
 wait for the receipt, and the escalating replacement of a transaction stuck at a nonce.
 */
module BlobTxs {
  import opened Common
  import opened Broadcasts
  import N = Nonces
  import C = Coordinators
  import S = StuckNonces

  const DefaultBlobFeeCap: nat := 1_000_000_000
  const MaxAllowedBumpNumber: nat := 8

  datatype StuckConfig = StuckConfig(threshold: int, maxBumps: int, autoReplace: bool)

  /** What the node and the context answer to a replacement attempt. */
  datatype ReplaceScript = ReplaceScript(liveAtBuild: bool, encodeOk: bool, tip: Option<nat>, signOk: bool,
                                         liveAtSend: bool, accepted: bool)

  datatype BlobScript = BlobScript(encodeOk: bool, tipOk: bool, patience: nat, liveInSlot: bool,
                                   fetched: Option<nat>, signOk: bool, liveAtSend: bool,
                                   send: SendReply, mined: MinedReply, replace: ReplaceScript)

  /** A replacement transaction as it is sent: its nonce and three fees. */
  datatype Bump = Bump(nonce: nat, tip: nat, gasFeeCap: nat, blobFeeCap: nat)

  /** Nothing but the decision to replace stands between the attempt and the send. */
  predicate Sendable(e: ReplaceScript) {
    e.liveAtBuild && e.encodeOk && e.tip.Some? && e.signOk && e.liveAtSend
  }

  /** The node, as far as replacements go: `sent` lists them in order, the refused ones included. */
  class Backend {
    ghost var sent: seq<Bump>

    method SendReplacement(bump: Bump, accepted: bool) returns (ok: bool)
      modifies this
      ensures sent == old(sent) + [bump] && ok == accepted
    {
      sent := sent + [bump];
      ok := accepted;
    }

    /** What the other goroutines send; the contract is the model. */
    method Others()
      modifies this
      ensures old(sent) <= sent
    {
    }
  }

  /** The step-th replacement at the nonce: both fee caps at 2^step times their baseline. */
  predicate OnStep(bump: Bump, nonce: nat, step: nat, maxGasPrice: nat) {
    && bump.nonce == nonce
    && bump.gasFeeCap == maxGasPrice * Pow2(step)
    && bump.blobFeeCap == 1_000_000_000 * Pow2(step)
  }

  /** The n latest replacements are those of the budget now running at this nonce: each doubles both fee caps
      over the one before, and they stay within the budget and the safety ceiling. */
  ghost predicate Ladder(sent: seq<Bump>, nonce: nat, n: nat, maxGasPrice: nat, maxBumps: int) {
    && n <= |sent| && n <= MaxAllowedBumpNumber && (n > 0 ==> n <= maxBumps)
    && forall i :: |sent| - n <= i < |sent| ==> OnStep(sent[i], nonce, i - (|sent| - n) + 1, maxGasPrice)
  }

  lemma LadderNext(sent: seq<Bump>, nonce: nat, n: nat, maxGasPrice: nat, maxBumps: int, bump: Bump)
    requires Ladder(sent, nonce, n, maxGasPrice, maxBumps) && n < MaxAllowedBumpNumber && n < maxBumps
    requires OnStep(bump, nonce, n + 1, maxGasPrice)
    ensures Ladder(sent + [bump], nonce, n + 1, maxGasPrice, maxBumps)
  {
    hide OnStep;
    assert forall i :: |sent| - n <= i < |sent| ==> (sent + [bump])[i] == sent[i];
  }

  class BlobTxSubmitter {
    const key: Key
    const backend: Backend
    const maxGasPrice: nat
    const stuckCfg: StuckConfig

    constructor (key: Key, backend: Backend, maxGasPrice: nat, stuckCfg: StuckConfig)
      ensures this.key == key && this.backend == backend && this.maxGasPrice == maxGasPrice && this.stuckCfg == stuckCfg
    {
      this.key, this.backend, this.maxGasPrice, this.stuckCfg := key, backend, maxGasPrice, stuckCfg;
    }

    /** The replacements sent under the budget now running climb the ladder. */
    ghost predicate Climbing()
      reads key, key.tracker, backend
    {
      Ladder(backend.sent, key.tracker.lastBumpNonce, key.tracker.bumpAttempts, maxGasPrice, stuckCfg.maxBumps)
    }

    /** A replacement is due at this count of rejections: the threshold is met, replacement is on, and the
        budget and the ceiling allow one more after the `used` ones. */
    ghost predicate DueAt(hits: int, used: nat) {
      0 < stuckCfg.threshold <= hits && stuckCfg.autoReplace && used < stuckCfg.maxBumps && used < 8
    }

    /** The replacement after `used` ones: both caps and the suggested tip times 2^(used + 1). */
    function Rung(e: ReplaceScript, nonce: nat, used: nat): Bump
      requires e.tip.Some?
    {
      var multiplier := Pow2(used + 1);
      Bump(nonce, e.tip.value * multiplier, maxGasPrice * multiplier, 1_000_000_000 * multiplier)
    }

    /** What happens after `hits` rejections in a row: the next rung goes out and is counted, also when the node
        refuses it, exactly if one is due and can be built; otherwise nothing is sent or counted. */
    twostate predicate Replaced(e: ReplaceScript, nonce: nat, hits: int)
      reads key, key.tracker, backend
    {
      var used := old(key.tracker.BumpAttemptsUsedFor(nonce));
      if DueAt(hits, used) && Sendable(e)
      then backend.sent == old(backend.sent) + [Rung(e, nonce, used)] && key.tracker.BumpAttemptsUsedFor(nonce) == used + 1
      else backend.sent == old(backend.sent) && key.tracker.BumpAttemptsUsedFor(nonce) == used
    }

    /** SubmitBlobTx: every exit leaves the lease handed back and the slot admitted, if one was, settled. The
        nonce is reported consumed exactly when the transaction may have gone out, and the caller is told
        success exactly when a successful receipt was seen. `a` and `s` are fresh names for the lease and
        the slot; the slot is asked for once the payload and the tip are had, and gone without only if the
        caller was turned away. */
    method SubmitBlobTx(e: BlobScript, now: int, ghost a: nat, ghost s: nat) returns (ok: bool)
      requires key.Valid() && a !in key.Leases() && a !in key.Returned() && key.coord.Unnamed(s)
      modifies key.nonces, key.coord, key.tracker, backend
      ensures key.Valid() && a !in key.Leases()
      ensures s in key.coord.entered ==> key.coord.entered[s] !in key.coord.live
      ensures e.encodeOk && e.tipOk <==> s in key.coord.entered || s in key.coord.turnedAway
      ensures a in key.Returned() ==> key.Returned()[a].consumed == (e.signOk && e.liveAtSend)
      ensures a in key.Returned() ==> s in key.coord.entered && e.liveInSlot
      ensures a in key.Returned() && a in key.Seeding() ==> e.fetched == Some(key.Returned()[a].nonce)
      ensures s in key.coord.entered && e.liveInSlot && e.fetched.Some? ==> a in key.Returned()
      ensures ok <==> a in key.Returned() && e.signOk && e.liveAtSend && e.send.Accepted? && e.mined.Mined?
    {
      ok := false;
      if !e.encodeOk || !e.tipOk {
        return;
      }
      key.Interleave({a}, {}, {s});
      var slot := key.Enter(C.Blob, now, e.patience, s);
      if slot == null {
        return;
      }
      if e.liveInSlot {
        ok := SubmitUnderSlot(e, slot, a, s);
      }
      key.Leave(slot, s);
    }

    method SubmitUnderSlot(e: BlobScript, slot: C.BroadcastToken, ghost a: nat, ghost s: nat)
      returns (ok: bool)
      requires key.Valid() && a !in key.Leases() && a !in key.Returned() && key.Holding(slot, s)
      modifies key.nonces, key.coord, key.tracker, backend
      ensures key.Valid() && a !in key.Leases() && key.Holding(slot, s)
      ensures a in key.Returned() ==> key.Returned()[a].consumed == (e.signOk && e.liveAtSend)
      ensures e.fetched.Some? ==> a in key.Returned()
      ensures a in key.Returned() && a in key.Seeding() ==> e.fetched == Some(key.Returned()[a].nonce)
      ensures ok <==> a in key.Returned() && e.signOk && e.liveAtSend && e.send.Accepted? && e.mined.Mined?
    {
      hide N.Safe, C.Good, S.Accurate;
      ok := false;
      key.InterleaveWith(slot, {a}, s);
      var nonce := key.Take(e.fetched, a);
      if nonce.None? {
        return;
      }
      key.InterleaveWith(slot, {a}, s);
      backend.Others();
      var nonceConsumed := false;
      if e.signOk && e.liveAtSend {
        nonceConsumed := true;
        ok := SubmitAndWait(e, slot, nonce.value, a, s);
      }
      key.HandBack(nonce.value, nonceConsumed, a);
    }

    /** The send and the wait. An address-reserved rejection is recorded at the nonce, and a replacement sent, as
        Replaced says for the rejections in a row the tracker's history then shows. */
    method SubmitAndWait(e: BlobScript, slot: C.BroadcastToken, nonce: nat, ghost a: nat, ghost s: nat) returns (ok: bool)
      requires key.Valid() && a in key.Leases() && key.Leases()[a] == nonce && key.Holding(slot, s)
      modifies key.nonces, key.coord, key.tracker, backend
      ensures key.Valid() && key.Holding(slot, s)
      ensures a in key.Leases() && key.Leases()[a] == nonce && (a in key.Seeding() <==> a in old(key.Seeding()))
      ensures ok <==> e.send.Accepted? && e.mined.Mined?
      ensures ok ==> key.tracker.entries == map[] && key.tracker.bumpAttempts == 0
      ensures e.send.Desync? || e.send.Definite? || (e.send.Accepted? && e.mined.WaitFailed?) ==> key.nonces.resetPending
      ensures if e.send.Desync? && e.send.reserved then HitsRecorded(e.replace, nonce) else backend.sent == old(backend.sent)
    {
      hide N.Safe, C.Good, S.Accurate;
      if !e.send.Accepted? {
        HandleSendError(e.send, e.replace, nonce);
        return false;
      }
      key.InterleaveWith(slot, {a}, s);
      if e.mined.WaitFailed? {
        key.Reset();
      } else if e.mined.Mined? {
        key.tracker.Clear();
      }
      ok := e.mined.Mined?;
    }

    /** One more rejection was recorded at the nonce, and a replacement sent as that makes it due. The count is
        the final run of the nonce's records, which the history determines. */
    twostate predicate HitsRecorded(e: ReplaceScript, nonce: nat)
      reads key, key.tracker, backend
    {
      && key.tracker.JustRecorded(nonce)
      && |key.tracker.history| == |old(key.tracker.history)| + 1 && old(key.tracker.history) <= key.tracker.history
      && exists hits: nat ::
           S.FinalRun(S.Stamps(key.tracker.history, nonce), hits, key.tracker.entryTTL) && Replaced(e, nonce, hits)
    }

    method HandleSendError(send: SendReply, e: ReplaceScript, nonce: nat)
      requires key.Valid()
      modifies key.nonces, key.tracker, backend
      ensures key.Valid() && key.Leases() == old(key.Leases()) && key.Seeding() == old(key.Seeding())
      ensures key.nonces.book == if send.Desync? || send.Definite? then N.Apply(old(key.nonces.book), N.RequestReset)
                                 else old(key.nonces.book)
      ensures (send.Desync? || send.Definite?) && key.Leases() != map[] ==> key.nonces.resetPending
      ensures if send.Desync? && send.reserved then HitsRecorded(e, nonce) else unchanged(key.tracker) && unchanged(backend)
      ensures old(Climbing()) ==> Climbing()
    {
      if Rejected(send) {
        key.Reset();
      }
      if send.Desync? && send.reserved {
        var hits, _, _ := key.tracker.Record(nonce);
        MaybeSubmitReplacement(e, nonce, hits);
      }
    }

    /** The decision and the attempt, run without another bump or Clear in between. */
    method MaybeSubmitReplacement(e: ReplaceScript, nonce: nat, stuckHits: int)
      requires key.tracker.Valid()
      modifies key.tracker, backend
      ensures key.tracker.Valid()
      ensures key.tracker.history == old(key.tracker.history)
      ensures old(Climbing()) ==> Climbing()
      ensures Replaced(e, nonce, stuckHits)
    {
      if stuckCfg.threshold <= 0 || stuckHits < stuckCfg.threshold || !stuckCfg.autoReplace {
        return;
      }
      var bumpsUsed := key.tracker.BumpAttemptsUsedFor(nonce);
      if bumpsUsed >= stuckCfg.maxBumps {
        return;
      }
      var _ := SubmitReplacement(e, nonce, bumpsUsed + 1);
    }

    /** The replacement number `bumpNumber` at the nonce, unless it is above the ceiling or cannot be built. It is
        counted before it is sent: a refused one uses up budget too. */
    method SubmitReplacement(e: ReplaceScript, nonce: nat, bumpNumber: int) returns (ok: bool)
      requires key.tracker.Valid() && bumpNumber == key.tracker.BumpAttemptsUsedFor(nonce) + 1
      modifies key.tracker, backend
      ensures key.tracker.Valid() && key.tracker.history == old(key.tracker.history)
      ensures old(Climbing()) && bumpNumber <= stuckCfg.maxBumps ==> Climbing()
      ensures ok <==> bumpNumber <= MaxAllowedBumpNumber && Sendable(e) && e.accepted
      ensures if bumpNumber <= MaxAllowedBumpNumber && Sendable(e)
              then && backend.sent == old(backend.sent) + [Rung(e, nonce, bumpNumber - 1)]
                   && key.tracker.BumpAttemptsUsedFor(nonce) == bumpNumber
              else unchanged(backend) && unchanged(key.tracker)
    {
      hide S.Accurate;
      if bumpNumber < 1 || bumpNumber > MaxAllowedBumpNumber {
        return false;
      }
      if !e.liveAtBuild || !e.encodeOk || e.tip.None? || !e.signOk || !e.liveAtSend {
        return false;
      }
      var multiplier := Pow2(bumpNumber);
      var bump := Bump(nonce, e.tip.value * multiplier, maxGasPrice * multiplier, DefaultBlobFeeCap * multiplier);
      ghost var used, before := key.tracker.BumpAttemptsUsedFor(nonce), backend.sent;
      if Climbing() && bumpNumber <= stuckCfg.maxBumps {
        LadderAt(before, nonce, used);
        LadderNext(before, nonce, used, maxGasPrice, stuckCfg.maxBumps, bump);
      }
      key.tracker.IncrementBumpAttemptsFor(nonce);
      ok := backend.SendReplacement(bump, e.accepted);
    }

    /** At this nonce the ladder stands where its budget does: at the foot, if the budget is another nonce's. */
    lemma LadderAt(sent: seq<Bump>, nonce: nat, used: nat)
      requires Ladder(sent, key.tracker.lastBumpNonce, key.tracker.bumpAttempts, maxGasPrice, stuckCfg.maxBumps)
      requires used == key.tracker.BumpAttemptsUsedFor(nonce)
      ensures Ladder(sent, nonce, used, maxGasPrice, stuckCfg.maxBumps)
    {
    }
  }
}

/**
 processJob itself (internal/pipeline/handler.go), in its own imperative form, proved to be one
 attempt of the step machine of module Pipeline, with the other attempts running between its steps.
 */
module JobHandlers {
  import opened Common
  import opened Checkpoints
  import opened Pipeline
  import Streams
  import Inference

  /** Redis, the chain, the relay and the model, as one job sees them. `trace` is the run so far. Each call
      takes one step of the machine, with a reply of the environment's choice, and counts what went wrong:
      `faults` the calls that failed or were answered by a node that lags behind, `repeats` the completions
      answered as already there. `sealed` pairs each encrypted response with its ciphertext. */
  class World {
    const cfg: Config
    var st: Sys
    ghost var trace: seq<Step>
    ghost var faults: nat
    ghost var repeats: nat
    ghost var sealed: set<(string, Bytes)>

    ghost predicate Valid()
      reads `st, `trace
    {
      Legal(cfg, Start, trace) && Run(cfg, Start, trace) == st && AckKnown(st)
    }

    /** All else as it was: the attempt is now t, and `shown` was emitted. */
    ghost predicate Left(was: Sys, a: nat, t: Attempt, shown: seq<Emission>)
      reads this
    {
      st == Sys(st.record, was.acked, was.attempts[a := t], was.log + shown)
    }

    constructor (cfg: Config)
      ensures Valid() && this.cfg == cfg && st == Start && faults == repeats == 0
    {
      this.cfg := cfg;
      st := Start;
      trace, faults, repeats, sealed := [], 0, 0, {};
    }

    /** One atomic step, by the calls below only. */
    method Take(step: Step)
      requires Valid() && Enabled(cfg, st, step)
      modifies `st, `trace
      ensures Valid() && st == Apply(cfg, old(st), step)
    {
      Extend(cfg, Start, trace, step);
      AckKnownStep(cfg, st, step);
      st := Apply(cfg, st, step);
      trace := trace + [step];
    }

    // steps of the attempt that call nobody: it starts, ends stages 2-6, or skips what there is nothing to wait
    // for or what an earlier attempt did

    method Enter(a: nat)
      requires Valid() && a !in st.attempts
      modifies `st, `trace
      ensures Valid()
      ensures Left(old(st), a, NewAttempt, [])
    {
      Take(Begin(a));
    }

    method Conclude(a: nat, answer: Option<(Bytes, nat)>)
      requires Valid() && At(st, a, Infer) && (answer.Some? && answer.value.0 == "" ==> cfg.writeMayFail)
      modifies `st, `trace
      ensures Valid()
      ensures Left(old(st), a, if answer.None? then old(st).attempts[a].(pc := Over(false))
                               else old(st).attempts[a].(ciphertext := answer.value.0, chunkFrames := answer.value.1, pc := Cache), [])
    {
      Take(Inferred(a, answer));
    }

    method NothingToAwait(a: nat)
      requires Valid() && At(st, a, JoinAck) && st.attempts[a].watch.NoWatch?
      modifies `st, `trace
      ensures Valid() && st.acked
      ensures Left(old(st), a, old(st).attempts[a].(pc := Publish), [])
    {
      assert AckJustified(st.acked, st.attempts[a]);
      Take(Await(a, false));
    }

    method AlreadyDelivered(a: nat)
      requires Valid() && At(st, a, Publish) && st.attempts[a].ckpt.delivered
      modifies `st, `trace
      ensures Valid()
      ensures Left(old(st), a, old(st).attempts[a].(pc := Submit), [])
    {
      Take(PublishFrame(a, false));
    }

    method AlreadySubmitted(a: nat)
      requires Valid() && At(st, a, Submit) && st.attempts[a].ckpt.versionedHash != 0
      modifies `st, `trace
      ensures Valid()
      ensures Left(old(st), a, old(st).attempts[a].(versionedHash := old(st).attempts[a].ckpt.versionedHash, pc := Complete), [])
    {
      Take(SubmitBlob(a, NotSent));
    }

    /** Other attempts, this one's confirmation goroutine, and the environment; the contract is the
        model: a legal run in which attempt `a` takes no step, though its watch may resolve. (No run takes
        back an acknowledgement or a log entry.) */
    method Others(a: nat)
      requires Valid()
      modifies `st, `trace
      ensures Valid() && (a in st.attempts <==> a in old(st).attempts)
      ensures (old(st).acked ==> st.acked) && old(st).log <= st.log
      ensures a in st.attempts ==>
                var t, t' := old(st).attempts[a], st.attempts[a];
                t' == t.(watch := t'.watch) && (t'.watch == t.watch || (t.watch.Watching? && !t'.watch.NoWatch?))
    {
    }

    ghost method Fault(ok: bool)
      modifies `faults
      ensures faults == old(faults) + if ok then 0 else 1
    {
      faults := faults + if ok then 0 else 1;
    }

    /** The three places that look for the acknowledgement. */
    method HasJobAcknowledged(a: nat) returns (read: AckRead)
      requires Valid() && (At(st, a, CheckAck) || At(st, a, RecheckAck) || At(st, a, RejoinAck))
      modifies `st, `trace, `faults
      ensures Valid()
      ensures read.EventSeen? ==> st.acked
      ensures faults == old(faults) + if read.ReadFailed? || (read.NoEvent? && st.acked) then 1 else 0
      ensures Left(old(st), a, old(st).attempts[a].(pc := Onward(old(st).attempts[a].pc, read)), [])
    {
      hide World.Valid;
      read := *;
      if read.EventSeen? && !st.acked {
        read := NoEvent;
      }
      Fault(match read case ReadFailed => false case EventSeen => true case NoEvent => !st.acked);
      Look(a, read);
    }

    method Look(a: nat, read: AckRead)
      requires Valid() && (At(st, a, CheckAck) || At(st, a, RecheckAck) || At(st, a, RejoinAck))
      requires read.EventSeen? ==> st.acked
      modifies `st, `trace
      ensures Valid()
      ensures Left(old(st), a, old(st).attempts[a].(pc := Onward(old(st).attempts[a].pc, read)), [])
    {
      hide World.Valid;
      if At(st, a, CheckAck) {
        Take(HasAcknowledged(a, read));
      } else if At(st, a, RecheckAck) {
        Take(ReconcileAck(a, read));
      } else {
        Take(RecheckAwait(a, read));
      }
    }

    /** Blocking until it is mined, or only broadcast and watched from then on. */
    method AcknowledgeJob(a: nat, overlap: bool) returns (sent: bool)
      requires Valid() && At(st, a, SendAck)
      modifies `st, `trace, `faults
      ensures Valid() && (sent && !overlap ==> st.acked)
      ensures faults == old(faults) + if sent then 0 else 1
      ensures Left(old(st), a, if !sent then old(st).attempts[a].(pc := RecheckAck)
                               else if overlap then old(st).attempts[a].(pc := Pc.ReadCheckpoint, watch := Watching)
                               else old(st).attempts[a].(pc := Pc.ReadCheckpoint), [])
    {
      sent := *;
      sent := sent && (overlap || st.acked);
      Fault(sent);
      Take(Acknowledge(a, if !sent then AckError else if overlap then AckBroadcast else AckMined));
    }

    /** The join of a broadcast acknowledgement. */
    method AwaitConfirmed(a: nat) returns (confirmed: bool)
      requires Valid() && At(st, a, JoinAck) && !st.attempts[a].watch.NoWatch?
      modifies `st, `trace, `faults
      ensures Valid() && (confirmed ==> st.acked)
      ensures At(st, a, if confirmed then Publish else RejoinAck)
      ensures faults == old(faults) + if confirmed then 0 else 1
      ensures Left(old(st), a, old(st).attempts[a].(pc := if confirmed then Publish else RejoinAck), [])
    {
      var late: bool := *;
      late := late || st.attempts[a].watch.Watching?;
      confirmed := st.attempts[a].watch.Confirmed? && !late;
      assert AckJustified(st.acked, st.attempts[a]);
      Fault(confirmed);
      Take(Await(a, late));
    }

    method GetCheckpoint(a: nat) returns (ckpt: Option<Record>)
      requires Valid() && At(st, a, Pc.ReadCheckpoint)
      modifies `st, `trace, `faults
      ensures Valid() && (ckpt.Some? ==> ckpt.value == old(st).record)
      ensures faults == old(faults) + if ckpt.Some? then 0 else 1
      ensures var c := if ckpt.Some? then ckpt.value else Blank;
              Left(old(st), a, old(st).attempts[a].(ckpt := c, ciphertext := c.ciphertext, chunkFrames := 0,
                                                    pc := if c.ciphertext == "" then Infer else JoinAck), [])
      ensures st.record == old(st).record
    {
      var redisOk: bool := *;
      ckpt := if redisOk then Some(st.record) else None;
      Fault(redisOk);
      Take(Get(a, redisOk));
    }

    /** Stages 2 to 4, the history and the deadline: whatever can end the attempt before the model is asked. */
    method Prepare() returns (ok: bool)
      modifies `faults
      ensures faults == old(faults) + if ok then 0 else 1
    {
      ok := *;
      Fault(ok);
    }

    /** The model's streaming response body, or its batch answer. */
    method ModelLines() returns (lines: seq<Inference.Line>)
      modifies `faults
      ensures faults == old(faults) + if Inference.Completes(lines) && Inference.Answer(lines) != "" then 0 else 1
    {
      lines := *;
      Fault(Inference.Completes(lines) && Inference.Answer(lines) != "");
    }

    method BatchAnswer() returns (response: Option<string>)
      modifies `faults
      ensures faults == old(faults) + if response.Some? then 0 else 1
    {
      response := *;
      Fault(response.Some?);
    }

    /** Stage 6. */
    method EncryptResponse(response: string) returns (ciphertext: Option<Bytes>)
      modifies `faults, `sealed
      ensures faults == old(faults) + if ciphertext.Some? then 0 else 1
      ensures sealed == old(sealed) + if ciphertext.Some? then {(response, ciphertext.value)} else {}
      ensures ciphertext.Some? && ciphertext.value == "" ==> cfg.writeMayFail
    {
      ciphertext := *;
      if ciphertext == Some("") && !cfg.writeMayFail {
        ciphertext := None;
      }
      sealed := sealed + if ciphertext.Some? then {(response, ciphertext.value)} else {};
      Fault(ciphertext.Some?);
    }

    /** The canonical bytes, and whether they are the ones just offered. */
    method SetCiphertextIfAbsent(a: nat, ciphertext: Bytes) returns (reply: Option<(Bytes, bool)>)
      requires Valid() && At(st, a, Cache) && st.attempts[a].ciphertext == ciphertext
      requires ciphertext == "" ==> cfg.writeMayFail
      modifies `st, `trace, `faults
      ensures reply.Some? ==> ciphertext != "" && st.record.ciphertext != ""
                              && reply.value == (st.record.ciphertext, old(st).record.ciphertext == "")
      ensures reply.Some? && reply.value.1 ==> st.record.ciphertext == ciphertext
      ensures reply.None? ==> cfg.writeMayFail
      ensures Valid()
      ensures faults == old(faults) + if reply.Some? then 0 else 1
      ensures Left(old(st), a, old(st).attempts[a].(ciphertext := if reply.Some? then st.record.ciphertext else ciphertext,
                                                   pc := JoinAck), [])
    {
      var stored: bool := *;
      stored := ciphertext != "" && (stored || !cfg.writeMayFail);
      reply := if stored then Some((Put(st.record, ciphertext).ciphertext, st.record.ciphertext == "")) else None;
      Fault(stored);
      Take(PutAnswer(a, stored));
    }

    /** The signed terminal frame; it is not sent if signing failed. */
    method PublishTerminal(a: nat, ciphertext: Bytes, frameNo: nat) returns (signed: bool)
      requires Valid() && At(st, a, Publish) && !st.attempts[a].ckpt.delivered
      requires st.attempts[a].ciphertext == ciphertext && frameNo == st.attempts[a].chunkFrames + 1
      modifies `st, `trace, `faults
      ensures Valid()
      ensures faults == old(faults) + if signed then 0 else 1
      ensures Left(old(st), a, old(st).attempts[a].(pc := Mark), if signed then [Terminal(a, ciphertext, frameNo)] else [])
    {
      signed := *;
      Fault(signed);
      Take(PublishFrame(a, signed));
    }

    method MarkDelivered(a: nat) returns (redisOk: bool)
      requires Valid() && At(st, a, Mark)
      modifies `st, `trace, `faults
      ensures Valid()
      ensures faults == old(faults) + if redisOk then 0 else 1
      ensures Left(old(st), a, old(st).attempts[a].(pc := Submit), [])
      ensures st.record == if redisOk then old(st).record.(delivered := true) else old(st).record
    {
      redisOk := *;
      Fault(redisOk);
      Take(MarkIt(a, redisOk));
    }

    /** The hash of the blob, once it is mined. */
    method SubmitBlobTx(a: nat, ciphertext: Bytes) returns (hash: Option<nat>, ghost reply: SubmitReply)
      requires Valid() && At(st, a, Submit) && st.attempts[a].ciphertext == ciphertext && st.attempts[a].ckpt.versionedHash == 0
      modifies `st, `trace, `faults
      ensures (reply.BlobMined? <==> hash.Some?)
      ensures Valid() && (hash.Some? ==> hash.value == cfg.blobHash(ciphertext))
      ensures faults == old(faults) + if hash.Some? then 0 else 1
      ensures hash.Some? ==>
                Left(old(st), a, old(st).attempts[a].(versionedHash := hash.value, pc := Stamp), [BlobTx(a, ciphertext)])
      ensures hash.None? ==>
                Left(old(st), a, old(st).attempts[a].(pc := Over(false)), if reply.SentUnconfirmed? then [BlobTx(a, ciphertext)] else [])
    {
      var outcome: SubmitReply := *;
      reply := outcome;
      hash := match outcome
        case BlobMined => Some(cfg.blobHash(ciphertext))
        case SentUnconfirmed => None
        case NotSent => None
        case Gated => None;
      Fault(outcome.BlobMined?);
      Take(SubmitBlob(a, outcome));
    }

    method SetVersionedHash(a: nat, hash: nat) returns (redisOk: bool)
      requires Valid() && At(st, a, Stamp) && st.attempts[a].versionedHash == hash
      modifies `st, `trace, `faults
      ensures Valid()
      ensures faults == old(faults) + if redisOk then 0 else 1
      ensures Left(old(st), a, old(st).attempts[a].(pc := Complete), [])
      ensures st.record == if redisOk && hash != 0 then old(st).record.(versionedHash := hash) else old(st).record
    {
      redisOk := *;
      Fault(redisOk);
      Take(StampHash(a, redisOk));
    }

    /** The completion with the recheck behind a failed one; the reply says whether the job is complete. */
    method CompleteJobTx(a: nat, versionedHash: nat, ciphertextHash: nat) returns (complete: bool, ghost reply: CompleteReply)
      requires Valid() && At(st, a, Complete) && st.attempts[a].versionedHash == versionedHash
      requires ciphertextHash == cfg.keccak(st.attempts[a].ciphertext)
      modifies `st, `trace, `faults, `repeats
      ensures (reply.Refused? <==> !complete)
      ensures repeats == old(repeats) + if reply.AlreadyComplete? then 1 else 0
      ensures Valid() && faults == old(faults) + if complete then 0 else 1
      ensures Left(old(st), a, old(st).attempts[a].(pc := if complete then Bury else Over(false)),
                   if reply.AlreadyComplete? then [] else [CompleteJob(a, versionedHash, ciphertextHash)])
    {
      var outcome: CompleteReply := *;
      complete, reply := !outcome.Refused?, outcome;
      repeats := repeats + if outcome.AlreadyComplete? then 1 else 0;
      Fault(complete);
      Take(CompleteIt(a, outcome));
    }

    method Tombstone(a: nat) returns (redisOk: bool)
      requires Valid() && At(st, a, Bury)
      modifies `st, `trace, `faults
      ensures Valid()
      ensures faults == old(faults) + if redisOk then 0 else 1
      ensures Left(old(st), a, old(st).attempts[a].(pc := Over(true)), [])
      ensures st.record == if redisOk then old(st).record.(tombstoned := true) else old(st).record
    {
      redisOk := *;
      Fault(redisOk);
      Take(BuryIt(a, redisOk));
    }
  }

  /** Where a look at the chain sends the attempt. */
  function Onward(pc: Pc, read: AckRead): Pc {
    if read.EventSeen? then (if pc.RejoinAck? then Publish else Pc.ReadCheckpoint)
    else if pc.CheckAck? && read.NoEvent? then SendAck
    else Over(false)
  }

  /** The chunk frames published before the terminal one; none without a streamer. */
  ghost function FramesOf(s: Streams.ChunkStreamer?): nat
    reads if s == null then {} else {s}
  {
    if s == null then 0 else |s.frames|
  }

  class JobHandler {
    const w: World
    const asyncAck: bool
    const streamEnabled: bool
    const streamReasoning: bool

    constructor (w: World, asyncAck: bool, streamEnabled: bool, streamReasoning: bool)
      ensures this.w == w && this.asyncAck == asyncAck && this.streamEnabled == streamEnabled
    {
      this.w, this.asyncAck, this.streamEnabled, this.streamReasoning := w, asyncAck, streamEnabled, streamReasoning;
    }

    /** Attempt a runs to its end, however the environment answers: the whole history is a legal run of
        the machine, and `ok` is how the attempt ended; it fails only if a call failed. The answer counts as
        delivered only after the acknowledgement was known. If no call failed, the attempt did all of its job,
        and its terminal frame comes right after the frames its own streamer numbered; it streams exactly if
        that is enabled and neither an answer nor a delivery was recorded. If ciphertext writes succeed and the record lives, all this job ever showed comes from one ciphertext. */
    method ProcessJob(a: nat) returns (ok: bool, delivered: bool, ghost streamer: Streams.ChunkStreamer?)
      requires w.Valid() && a !in w.st.attempts
      modifies w
      ensures w.Valid() && At(w.st, a, Over(ok))
      ensures delivered ==> w.st.acked
      ensures ok ==> delivered
      ensures !ok ==> w.faults > old(w.faults)
      ensures w.faults == old(w.faults) && w.repeats == old(w.repeats) ==> Settled(a)
      ensures delivered ==> w.st.attempts[a].chunkFrames == FramesOf(streamer)
      ensures streamer != null ==> streamer.Numbered() && MayStream(a)
      ensures delivered && MayStream(a) ==> streamer != null
      ensures !w.cfg.writeMayFail && !w.cfg.mayExpire ==> Consistent(w.cfg, w.st)
      ensures w.st.log != [] ==> w.st.acked
    {
      ok, delivered, streamer := RunStages(a);
      if !w.cfg.writeMayFail && !w.cfg.mayExpire {
        AllFromOneCiphertext(w.cfg, w.trace);
      }
    }

    method RunStages(a: nat) returns (ok: bool, delivered: bool, ghost streamer: Streams.ChunkStreamer?)
      requires w.Valid() && a !in w.st.attempts
      modifies w
      ensures w.Valid() && At(w.st, a, Over(ok)) && (ok ==> delivered)
      ensures delivered ==> w.st.acked && w.st.attempts[a].chunkFrames == FramesOf(streamer)
      ensures streamer != null ==> streamer.Numbered() && MayStream(a)
      ensures delivered && MayStream(a) ==> streamer != null
      ensures !ok ==> w.faults > old(w.faults)
      ensures w.faults == old(w.faults) && w.repeats == old(w.repeats) ==> Settled(a)
    {
      hide World.Valid, JobHandler.Settled;
      delivered, streamer := false, null;
      w.Enter(a);
      // stage 1
      var acked, ack := EnsureAcknowledged(a);
      if !acked {
        return false, false, null;
      }
      ok, delivered, streamer := RunAcknowledged(a, ack);
    }

    /** From the checkpoint read on. */
    method RunAcknowledged(a: nat, ack: bool) returns (ok: bool, delivered: bool, ghost streamer: Streams.ChunkStreamer?)
      requires w.Valid() && At(w.st, a, Pc.ReadCheckpoint) && (ack <==> !w.st.attempts[a].watch.NoWatch?)
      modifies w
      ensures w.Valid() && At(w.st, a, Over(ok)) && (ok ==> delivered)
      ensures delivered ==> w.st.acked && w.st.attempts[a].chunkFrames == FramesOf(streamer)
      ensures streamer != null ==> streamer.Numbered() && MayStream(a)
      ensures delivered && MayStream(a) ==> streamer != null
      ensures old(w.faults) <= w.faults && (!ok ==> w.faults > old(w.faults)) && old(w.repeats) <= w.repeats
      ensures w.faults == old(w.faults) && w.repeats == old(w.repeats) ==> Settled(a)
    {
      hide World.Valid, JobHandler.Settled;
      delivered, streamer := false, null;
      // stages 2-6, or their cached result
      var ckpt, ciphertext, chunkFrames, produced;
      ckpt, ciphertext, chunkFrames, streamer, produced := Produce(a);
      if !produced {
        return false, false, streamer;
      }
      // stage 1b
      var confirmed := AwaitAcknowledged(a, ack);
      if !confirmed {
        return false, false, streamer;
      }
      delivered := true;
      // stages 7 and 8
      ok := Settle(a, ckpt, ciphertext, chunkFrames);
    }

    /** Deltas may be streamed: neither an answer nor a delivery was recorded when the attempt read. */
    ghost predicate MayStream(a: nat)
      reads w
    {
      && streamEnabled && a in w.st.attempts
      && w.st.attempts[a].ckpt.ciphertext == "" && !w.st.attempts[a].ckpt.delivered
    }

    /** The attempt showed its answer unless an earlier one did, and put a blob of it on-chain unless one was
        there, and committed to that blob and that answer. */
    ghost predicate Settled(a: nat)
      reads w
    {
      a in w.st.attempts &&
      var t := w.st.attempts[a];
      && (t.ckpt.delivered || Terminal(a, t.ciphertext, t.chunkFrames + 1) in w.st.log)
      && (t.ckpt.versionedHash != 0 || BlobTx(a, t.ciphertext) in w.st.log)
      && CompleteJob(a, if t.ckpt.versionedHash != 0 then t.ckpt.versionedHash else w.cfg.blobHash(t.ciphertext),
                     w.cfg.keccak(t.ciphertext)) in w.st.log
    }

    /** Stage 1: known acknowledged, or broadcast and being watched (`ack`). */
    method EnsureAcknowledged(a: nat) returns (ok: bool, ack: bool)
      requires w.Valid() && At(w.st, a, CheckAck) && w.st.attempts[a].watch.NoWatch?
      modifies w
      ensures w.Valid() && At(w.st, a, if ok then Pc.ReadCheckpoint else Over(false))
      ensures ok ==> (ack <==> !w.st.attempts[a].watch.NoWatch?) && (ack || w.st.acked)
      ensures old(w.faults) <= w.faults && (!ok ==> w.faults > old(w.faults)) && w.repeats == old(w.repeats)
    {
      hide World.Valid;
      ack := false;
      w.Others(a);
      var read := w.HasJobAcknowledged(a);
      if !read.NoEvent? {
        return read.EventSeen?, false;
      }
      w.Others(a);
      var sent := w.AcknowledgeJob(a, asyncAck);
      if sent {
        return true, asyncAck;
      }
      ok := ReconcileAckError(a);
    }

    /** A failed acknowledgement is settled by one more look at the chain. */
    method ReconcileAckError(a: nat) returns (ok: bool)
      requires w.Valid() && At(w.st, a, RecheckAck)
      modifies w
      ensures w.Valid() && At(w.st, a, if ok then Pc.ReadCheckpoint else Over(false))
      ensures w.st.attempts[a].watch == old(w.st).attempts[a].watch || old(w.st).attempts[a].watch.Watching?
      ensures ok ==> w.st.acked
      ensures old(w.faults) <= w.faults && (!ok && old(w.st.acked) ==> w.faults > old(w.faults)) && w.repeats == old(w.repeats)
    {
      hide World.Valid;
      w.Others(a);
      var again := w.HasJobAcknowledged(a);
      ok := again.EventSeen?;
    }

    /** The checkpoint read, and stages 2-6 with the ciphertext write unless the read hit. */
    method Produce(a: nat)
      returns (ckpt: Record, ciphertext: Bytes, chunkFrames: nat, ghost streamer: Streams.ChunkStreamer?, ok: bool)
      requires w.Valid() && At(w.st, a, Pc.ReadCheckpoint)
      modifies w
      ensures w.Valid() && At(w.st, a, if ok then JoinAck else Over(false))
      ensures old(w.faults) <= w.faults && (!ok ==> w.faults > old(w.faults)) && w.repeats == old(w.repeats)
      ensures ok ==> Holds(a, ckpt, ciphertext, chunkFrames) && chunkFrames == FramesOf(streamer)
      ensures ok ==> (w.st.attempts[a].watch.NoWatch? <==> old(w.st).attempts[a].watch.NoWatch?)
      ensures streamer != null ==> fresh(streamer) && streamer.Numbered() && MayStream(a)
      ensures ok && MayStream(a) ==> streamer != null
    {
      hide World.Valid, Streams.ChunkStreamer.Valid;
      ckpt := ReadCheckpoint(a);
      ciphertext, chunkFrames, ok, streamer := ckpt.ciphertext, 0, true, null;
      if ciphertext == "" {
        var s, response;
        ciphertext, chunkFrames, s, response, ok := RunInferencePipeline(a, !ckpt.delivered);
        streamer := s;
        if ok {
          ciphertext := PersistCiphertext(a, ciphertext);
        }
      }
    }

    /** The record as it is, or a blank one if the read failed. */
    method ReadCheckpoint(a: nat) returns (ckpt: Record)
      requires w.Valid() && At(w.st, a, Pc.ReadCheckpoint)
      modifies w
      ensures w.Valid() && At(w.st, a, if ckpt.ciphertext == "" then Infer else JoinAck)
      ensures Holds(a, ckpt, ckpt.ciphertext, 0)
      ensures ckpt == w.st.record || (ckpt == Blank && w.faults > old(w.faults))
      ensures w.st.attempts[a].watch.NoWatch? <==> old(w.st).attempts[a].watch.NoWatch?
      ensures old(w.faults) <= w.faults && w.repeats == old(w.repeats)
    {
      hide World.Valid;
      w.Others(a);
      var read := w.GetCheckpoint(a);
      ckpt := if read.Some? then read.value else Blank;
    }

    /** Stages 2-6. The frame count is the streamer's, and what it showed as text, if no frame was lost to
        encryption, is the response that was encrypted, whatever statistics and audio followed it. */
    method RunInferencePipeline(a: nat, streamDeltas: bool)
      returns (ciphertext: Bytes, chunkFrames: nat, streamer: Streams.ChunkStreamer?, response: string, ok: bool)
      requires w.Valid() && At(w.st, a, Infer)
      modifies w
      ensures w.Valid() && At(w.st, a, if ok then Cache else Over(false))
      ensures old(w.faults) <= w.faults && (!ok ==> w.faults > old(w.faults)) && w.repeats == old(w.repeats)
      ensures ok ==> Holds(a, old(w.st).attempts[a].ckpt, ciphertext, chunkFrames)
      ensures ok ==> chunkFrames == FramesOf(streamer) && (response, ciphertext) in w.sealed
      ensures ok && ciphertext == "" ==> w.cfg.writeMayFail
      ensures w.st.attempts[a].watch.NoWatch? <==> old(w.st).attempts[a].watch.NoWatch?
      ensures w.st.attempts[a].ckpt == old(w.st).attempts[a].ckpt
      ensures streamer != null ==> fresh(streamer) && streamDeltas && streamEnabled && streamer.Numbered()
      ensures ok && streamDeltas && streamEnabled ==> streamer != null
      ensures ok && streamer != null && streamer.sealer.failures == 0 ==>
                Streams.Project(Streams.Flatten(streamer.frames), Streams.Text) == response
    {
      hide World.Valid, Streams.ChunkStreamer.Valid, Streams.Flatten, Streams.Project;
      w.Others(a);
      var encrypted;
      encrypted, chunkFrames, streamer, response := RunThroughStage6(streamDeltas);
      ok := encrypted.Some?;
      ciphertext := if ok then encrypted.value else "";
      w.Conclude(a, if ok then Some((ciphertext, chunkFrames)) else None);
    }

    method RunThroughStage6(streamDeltas: bool)
      returns (encrypted: Option<Bytes>, chunkFrames: nat, streamer: Streams.ChunkStreamer?, response: string)
      modifies w`faults, w`sealed
      ensures old(w.faults) <= w.faults && (encrypted.None? ==> w.faults > old(w.faults))
      ensures encrypted.Some? ==>
                && chunkFrames == FramesOf(streamer) && (response, encrypted.value) in w.sealed
                && (encrypted.value == "" ==> w.cfg.writeMayFail)
      ensures streamer != null ==> fresh(streamer) && streamDeltas && streamEnabled && streamer.Numbered()
      ensures encrypted.Some? && streamDeltas && streamEnabled ==> streamer != null
      ensures encrypted.Some? && streamer != null && streamer.sealer.failures == 0 ==>
                Streams.Project(Streams.Flatten(streamer.frames), Streams.Text) == response
    {
      hide World.Valid, Streams.ChunkStreamer.Valid, Streams.Flatten, Streams.Project, JobHandler.Shows;
      encrypted, chunkFrames, streamer, response := None, 0, null, "";
      var ok := w.Prepare();
      if !ok {
        return;
      }
      streamer, response, ok := RunInference(streamDeltas);
      if !ok {
        return;
      }
      encrypted := w.EncryptResponse(response);
      if encrypted.Some? && streamer != null {
        DeliverAudio(streamer, response);
        chunkFrames := streamer.seqNo;
      }
    }

    /** Stage 5: through a fresh streamer if deltas may be streamed, else the batch call; then the statistics. */
    method RunInference(streamDeltas: bool) returns (streamer: Streams.ChunkStreamer?, response: string, ok: bool)
      modifies w`faults
      ensures old(w.faults) <= w.faults && (!ok ==> w.faults > old(w.faults))
      ensures streamer != null ==> fresh(streamer) && fresh(streamer.sealer) && fresh(streamer.repr) && streamDeltas && streamEnabled
      ensures ok && streamDeltas && streamEnabled ==> streamer != null
      ensures streamer != null ==> streamer.Valid() && streamer.Numbered()
      ensures ok && streamer != null ==> Shows(streamer, response)
    {
      hide Streams.Flatten, Streams.Project, Streams.ChunkStreamer.Valid, Inference.Completes, Inference.Answer, Inference.Said;
      streamer, response := null, "";
      if !streamDeltas || !streamEnabled {
        var answer := w.BatchAnswer();
        response := if answer.Some? then answer.value else "";
        return null, response, answer.Some?;
      }
      var maxTokens: int, maxInterval: int, now: int := *, *, *;
      var s := new Streams.ChunkStreamer(maxTokens, maxInterval, now);
      var lines := w.ModelLines();
      var outcome, frames := Inference.RunInference(lines, s, streamReasoning);
      streamer, ok := s, outcome.Answered?;
      IsNumbered(s);
      if ok {
        response := outcome.response;
        var stats: string := *;
        PublishAside(s, Streams.Stats, stats, response);
        IsNumbered(s);
      }
    }

    /** The text handed to it is the response, and nothing is left in its buffers. */
    ghost predicate Shows(s: Streams.ChunkStreamer, response: string)
      reads s, s.repr
    {
      s.Buffered() == [] && Streams.Project(s.deltas, Streams.Text) == response
    }

    lemma IsNumbered(s: Streams.ChunkStreamer)
      requires s.Valid()
      ensures s.Numbered()
    {
    }

    lemma ShownIsPublished(s: Streams.ChunkStreamer, response: string)
      requires s.Valid() && Shows(s, response)
      ensures s.Numbered()
      ensures s.sealer.failures == 0 ==> Streams.Project(Streams.Flatten(s.frames), Streams.Text) == response
    {
      assert Streams.Flatten(s.frames) + [] == Streams.Flatten(s.frames);
    }

    /** A payload of another kind than text, after the answer. */
    method PublishAside(s: Streams.ChunkStreamer, kind: Streams.Kind, payload: string, ghost response: string)
      requires s.Valid() && Shows(s, response) && kind != Streams.Text
      modifies s, s.sealer, s.repr
      ensures s.Valid() && Shows(s, response) && fresh(s.repr - old(s.repr))
    {
      ghost var before := s.deltas;
      s.PublishBytes(kind, payload);
      Streams.ProjectConcat(before, Streams.Tag(kind, payload), Streams.Text);
      Streams.ProjectTag(kind, payload, Streams.Text);
    }

    /** Stage 6b: any number of audio frames. */
    method DeliverAudio(s: Streams.ChunkStreamer, ghost response: string)
      requires s.Valid() && Shows(s, response)
      modifies s, s.sealer, s.repr
      ensures s.Valid() && s.Numbered()
      ensures s.sealer.failures == 0 ==> Streams.Project(Streams.Flatten(s.frames), Streams.Text) == response
    {
      hide Streams.Flatten, Streams.Project, Streams.ChunkStreamer.Valid, JobHandler.Shows;
      var pcm: seq<string> := *;
      for i := 0 to |pcm|
        invariant s.Valid() && Shows(s, response) && fresh(s.repr - old(s.repr))
      {
        PublishAside(s, Streams.Audio, pcm[i], response);
      }
      ShownIsPublished(s, response);
    }

    /** The ciphertext write: on success the attempt goes on with the canonical bytes, on failure
        with its own. */
    method PersistCiphertext(a: nat, produced: Bytes) returns (ciphertext: Bytes)
      requires w.Valid() && At(w.st, a, Cache) && w.st.attempts[a].ciphertext == produced
      requires produced == "" ==> w.cfg.writeMayFail
      modifies w
      ensures w.Valid() && At(w.st, a, JoinAck) && w.st.attempts[a].ciphertext == ciphertext
      ensures w.st.attempts[a].ckpt == old(w.st).attempts[a].ckpt
      ensures w.st.attempts[a].chunkFrames == old(w.st).attempts[a].chunkFrames
      ensures w.st.attempts[a].watch.NoWatch? <==> old(w.st).attempts[a].watch.NoWatch?
      ensures if w.faults > old(w.faults) then w.cfg.writeMayFail && ciphertext == produced
              else ciphertext == w.st.record.ciphertext != ""
      ensures old(w.faults) <= w.faults && w.repeats == old(w.repeats)
    {
      hide World.Valid;
      w.Others(a);
      var reply := w.SetCiphertextIfAbsent(a, produced);
      ciphertext := if reply.Some? && !reply.value.1 then reply.value.0 else produced;
    }

    /** The machine's view of the attempt's variables. */
    ghost predicate Holds(a: nat, ckpt: Record, ciphertext: Bytes, chunkFrames: nat)
      reads w
    {
      && a in w.st.attempts
      && w.st.attempts[a].ckpt == ckpt
      && w.st.attempts[a].ciphertext == ciphertext
      && w.st.attempts[a].chunkFrames == chunkFrames
    }

    /** Stage 1b: the join, and the recheck when it fails or times out. On a job acknowledged by then it fails
        only if both the join and the recheck did. */
    method AwaitAcknowledged(a: nat, ack: bool) returns (ok: bool)
      requires w.Valid() && At(w.st, a, JoinAck) && (ack <==> !w.st.attempts[a].watch.NoWatch?)
      modifies w
      ensures w.Valid() && At(w.st, a, if ok then Publish else Over(false))
      ensures ok ==> w.st.acked
      ensures w.st.attempts[a] == old(w.st).attempts[a].(pc := w.st.attempts[a].pc, watch := w.st.attempts[a].watch)
      ensures old(w.faults) <= w.faults && (!ok ==> w.faults > old(w.faults)) && w.repeats == old(w.repeats)
      ensures !ok && old(w.st.acked) ==> w.faults == old(w.faults) + 2
    {
      hide World.Valid;
      w.Others(a);
      if !ack {
        w.NothingToAwait(a);
        return true;
      }
      ok := w.AwaitConfirmed(a);
      if ok {
        return;
      }
      w.Others(a);
      var read := w.HasJobAcknowledged(a);
      ok := read.EventSeen?;
    }

    /** Stages 7, 8a and 8b, and the tombstone. */
    method Settle(a: nat, ckpt: Record, ciphertext: Bytes, chunkFrames: nat) returns (ok: bool)
      requires w.Valid() && At(w.st, a, Publish) && Holds(a, ckpt, ciphertext, chunkFrames) && w.st.acked
      modifies w
      ensures w.Valid() && At(w.st, a, Over(ok)) && w.st.acked && w.st.attempts[a].chunkFrames == chunkFrames
      ensures w.st.attempts[a].ckpt == ckpt
      ensures old(w.faults) <= w.faults && (!ok ==> w.faults > old(w.faults)) && old(w.repeats) <= w.repeats
      ensures w.faults == old(w.faults) && w.repeats == old(w.repeats) ==> Settled(a)
    {
      hide World.Valid;
      PublishStage(a, ckpt, ciphertext, chunkFrames);
      var versionedHash := EnsureBlobSubmitted(a, ckpt, ciphertext);
      if versionedHash.None? {
        return false;
      }
      ok := CompleteStage(a, versionedHash.value, ciphertext);
    }

    /** Stage 7 shows the ciphertext the attempt holds, right after its chunk frames, and records the
        delivery, unless an earlier one is recorded or a call failed. */
    method PublishStage(a: nat, ckpt: Record, ciphertext: Bytes, chunkFrames: nat)
      requires w.Valid() && At(w.st, a, Publish) && Holds(a, ckpt, ciphertext, chunkFrames) && w.st.acked
      modifies w
      ensures w.Valid() && At(w.st, a, Submit) && Holds(a, ckpt, ciphertext, chunkFrames) && w.st.acked
      ensures ckpt.delivered || w.faults > old(w.faults)
              || (Terminal(a, ciphertext, chunkFrames + 1) in w.st.log && w.st.record.delivered)
      ensures old(w.faults) <= w.faults && w.repeats == old(w.repeats)
    {
      hide World.Valid;
      w.Others(a);
      if ckpt.delivered {
        w.AlreadyDelivered(a);
        return;
      }
      ghost var log := w.st.log;
      var signed := w.PublishTerminal(a, ciphertext, chunkFrames + 1);
      assert w.st.log == log + if signed then [Terminal(a, ciphertext, chunkFrames + 1)] else [];
      var redisOk := w.MarkDelivered(a);
    }

    /** Stage 8a: the cached hash, or the hash of a blob carrying the attempt's ciphertext, recorded unless that
        failed; none only if the blob was not seen mined. */
    method EnsureBlobSubmitted(a: nat, ckpt: Record, ciphertext: Bytes) returns (versionedHash: Option<nat>)
      requires w.Valid() && At(w.st, a, Submit) && w.st.acked
      requires w.st.attempts[a].ckpt == ckpt && w.st.attempts[a].ciphertext == ciphertext
      modifies w
      ensures w.Valid() && At(w.st, a, if versionedHash.Some? then Complete else Over(false)) && w.st.acked
      ensures w.st.attempts[a].ciphertext == ciphertext && w.st.attempts[a].ckpt == ckpt
      ensures w.st.attempts[a].chunkFrames == old(w.st).attempts[a].chunkFrames && old(w.st).log <= w.st.log
      ensures old(w.faults) <= w.faults && w.repeats == old(w.repeats)
      ensures versionedHash.None? ==> ckpt.versionedHash == 0 && w.faults > old(w.faults)
      ensures versionedHash.Some? && ckpt.versionedHash == 0 && versionedHash.value != 0 && w.faults == old(w.faults) ==>
                w.st.record.versionedHash == versionedHash.value
      ensures versionedHash.Some? ==>
                && w.st.attempts[a].versionedHash == versionedHash.value
                && versionedHash.value == (if ckpt.versionedHash != 0 then ckpt.versionedHash else w.cfg.blobHash(ciphertext))
                && (ckpt.versionedHash != 0 || BlobTx(a, ciphertext) in w.st.log)
    {
      hide World.Valid;
      w.Others(a);
      if ckpt.versionedHash != 0 {
        w.AlreadySubmitted(a);
        return Some(ckpt.versionedHash);
      }
      ghost var log := w.st.log;
      ghost var reply;
      versionedHash, reply := w.SubmitBlobTx(a, ciphertext);
      if versionedHash.None? {
        return;
      }
      assert w.st.log == log + [BlobTx(a, ciphertext)];
      var redisOk := w.SetVersionedHash(a, versionedHash.value);
    }

    /** Stage 8b and the tombstone: the pair is on-chain, or the chain said the job is complete already; it fails
        only if it was refused. The record is left a tombstone unless a call failed. */
    method CompleteStage(a: nat, versionedHash: nat, ciphertext: Bytes) returns (ok: bool)
      requires w.Valid() && At(w.st, a, Complete) && w.st.acked
      requires w.st.attempts[a].versionedHash == versionedHash && w.st.attempts[a].ciphertext == ciphertext
      modifies w
      ensures w.Valid() && At(w.st, a, Over(ok)) && w.st.acked
      ensures w.st.attempts[a] == old(w.st).attempts[a].(pc := Over(ok), watch := w.st.attempts[a].watch)
      ensures old(w.st).log <= w.st.log
      ensures old(w.faults) <= w.faults && (!ok ==> w.faults > old(w.faults))
      ensures old(w.repeats) <= w.repeats
      ensures ok ==> CompleteJob(a, versionedHash, w.cfg.keccak(ciphertext)) in w.st.log || w.repeats > old(w.repeats)
      ensures w.faults == old(w.faults) ==> w.st.record.tombstoned
    {
      hide World.Valid;
      w.Others(a);
      ghost var log := w.st.log;
      var responseCiphertextHash := w.cfg.keccak(ciphertext);
      ghost var reply;
      ok, reply := w.CompleteJobTx(a, versionedHash, responseCiphertextHash);
      assert log <= w.st.log;
      if !ok {
        return;
      }
      assert w.repeats == old(w.repeats) ==> w.st.log == log + [CompleteJob(a, versionedHash, responseCiphertextHash)];
      var redisOk := w.Tombstone(a);
    }
  }
}

/**
 Attempts at one job (processJob in internal/pipeline/handler.go) as step machines over the shared
 retry record and the chain. Any number of attempts run at once; each may fail or crash at any
 point; inference gives each of them an arbitrary ciphertext. What the world sees is the log:
 terminal frames, blob transactions, completeJob calls.
 */
module Pipeline {
  import opened Common
  import opened Checkpoints

  /** The blob hash and keccak are uninterpreted. The two flags say whether the environment can make
      a ciphertext write fail (oversized, empty, or a Redis error), and can expire the record. */
  datatype Config = Config(blobHash: Bytes -> nat, keccak: Bytes -> nat, writeMayFail: bool, mayExpire: bool)

  datatype Emission =
    | Terminal(who: nat, ciphertext: Bytes, frameNo: nat)
    | BlobTx(who: nat, ciphertext: Bytes)
    | CompleteJob(who: nat, versionedHash: nat, ciphertextHash: nat)

  /** Where an attempt stands; a stage is named by what it is about to do. */
  datatype Pc =
    | CheckAck | SendAck | RecheckAck
    | ReadCheckpoint | Infer | Cache
    | JoinAck | RejoinAck
    | Publish | Mark | Submit | Stamp | Complete | Bury
    | Over(ok: bool)

  /** The goroutine that waits for an overlapped acknowledgement. */
  datatype Watch = NoWatch | Watching | Confirmed | WatchFailed

  datatype Attempt = Attempt(pc: Pc, watch: Watch, ckpt: Record, ciphertext: Bytes, chunkFrames: nat,
                             versionedHash: nat)

  const NewAttempt := Attempt(CheckAck, NoWatch, Blank, "", 0, 0)

  datatype Sys = Sys(record: Record, acked: bool, attempts: map<nat, Attempt>, log: seq<Emission>)

  const Start := Sys(Blank, false, map[], [])

  /** HasJobAcknowledged: an error, the event, or no event seen (yet, by this node). */
  datatype AckRead = ReadFailed | EventSeen | NoEvent
  datatype AckSent = AckMined | AckBroadcast | AckError
  datatype SubmitReply = Gated | NotSent | SentUnconfirmed | BlobMined
  datatype CompleteReply = AlreadyComplete | Accepted | Refused

  datatype Step =
    | Begin(a: nat)
    | HasAcknowledged(a: nat, read: AckRead)
    | Acknowledge(a: nat, reply: AckSent)
    | ReconcileAck(a: nat, read: AckRead)
    | WatchDone(a: nat, mined: bool)
    | Get(a: nat, redisOk: bool)
    | Inferred(a: nat, answer: Option<(Bytes, nat)>)
    | PutAnswer(a: nat, ok: bool)
    | Await(a: nat, timedOut: bool)
    | RecheckAwait(a: nat, read: AckRead)
    | PublishFrame(a: nat, signed: bool)
    | MarkIt(a: nat, redisOk: bool)
    | SubmitBlob(a: nat, blobReply: SubmitReply)
    | StampHash(a: nat, redisOk: bool)
    | CompleteIt(a: nat, completeReply: CompleteReply)
    | BuryIt(a: nat, redisOk: bool)
    | Crash(a: nat)
    // the environment: an acknowledgement mines; the record expires
    | AckMines
    | Expire

  /** Attempt a is about to take stage pc. */
  predicate At(s: Sys, a: nat, pc: Pc) {
    a in s.attempts && s.attempts[a].pc == pc
  }

  predicate Enabled(cfg: Config, s: Sys, step: Step) {
    match step
    case Begin(a) => a !in s.attempts
    case HasAcknowledged(a, read) => At(s, a, CheckAck) && (read.EventSeen? ==> s.acked)
    // the transaction mined with receipt status 1: the event is on-chain
    case Acknowledge(a, reply) => At(s, a, SendAck) && (reply.AckMined? ==> s.acked)
    case ReconcileAck(a, read) => At(s, a, RecheckAck) && (read.EventSeen? ==> s.acked)
    case WatchDone(a, mined) => a in s.attempts && s.attempts[a].watch == Watching && (mined ==> s.acked)
    case Get(a, _) => At(s, a, ReadCheckpoint)
    // an empty answer could not be written
    case Inferred(a, answer) =>
      At(s, a, Infer) && (answer.Some? && answer.value.0 == "" ==> cfg.writeMayFail)
    case PutAnswer(a, ok) =>
      && At(s, a, Cache)
      && (ok ==> s.attempts[a].ciphertext != "")
      && (!ok ==> cfg.writeMayFail)
    case Await(a, timedOut) =>
      At(s, a, JoinAck) && (s.attempts[a].watch == Watching ==> timedOut)
    case RecheckAwait(a, read) => At(s, a, RejoinAck) && (read.EventSeen? ==> s.acked)
    case PublishFrame(a, _) => At(s, a, Publish)
    case MarkIt(a, _) => At(s, a, Mark)
    case SubmitBlob(a, _) => At(s, a, Submit)
    case StampHash(a, _) => At(s, a, Stamp)
    case CompleteIt(a, _) => At(s, a, Complete)
    case BuryIt(a, _) => At(s, a, Bury)
    case Crash(a) => a in s.attempts
    case AckMines => true
    case Expire => cfg.mayExpire
  }

  function Local(cfg: Config, s: Sys, step: Step): Attempt
    requires Enabled(cfg, s, step) && !step.AckMines? && !step.Expire?
  {
    if step.Begin? then NewAttempt
    else
      var t := s.attempts[step.a];
      match step
      case HasAcknowledged(_, read) =>
        t.(pc := if read.ReadFailed? then Over(false) else if read.EventSeen? then ReadCheckpoint else SendAck)
      case Acknowledge(_, reply) =>
        if reply.AckMined? then t.(pc := ReadCheckpoint)
        else if reply.AckBroadcast? then t.(pc := ReadCheckpoint, watch := Watching)
        else t.(pc := RecheckAck)
      case ReconcileAck(_, read) => t.(pc := if read.EventSeen? then ReadCheckpoint else Over(false))
      case WatchDone(_, mined) => t.(watch := if mined then Confirmed else WatchFailed)
      case Get(_, redisOk) =>
        var ckpt := if redisOk then s.record else Blank;
        t.(ckpt := ckpt, ciphertext := ckpt.ciphertext, chunkFrames := 0,
          pc := if ckpt.ciphertext != "" then JoinAck else Infer)
      case Inferred(_, answer) =>
        if answer.None? then t.(pc := Over(false))
        else t.(ciphertext := answer.value.0, chunkFrames := answer.value.1, pc := Cache)
      case PutAnswer(_, ok) =>
        t.(ciphertext := if ok then Put(s.record, t.ciphertext).ciphertext else t.ciphertext, pc := JoinAck)
      case Await(_, timedOut) =>
        t.(pc := if t.watch.NoWatch? || (t.watch.Confirmed? && !timedOut) then Publish else RejoinAck)
      case RecheckAwait(_, read) => t.(pc := if read.EventSeen? then Publish else Over(false))
      case PublishFrame(_, _) => t.(pc := if t.ckpt.delivered then Submit else Mark)
      case MarkIt(_, _) => t.(pc := Submit)
      case SubmitBlob(_, reply) =>
        if t.ckpt.versionedHash != 0 then t.(versionedHash := t.ckpt.versionedHash, pc := Complete)
        else if reply.BlobMined? then t.(versionedHash := cfg.blobHash(t.ciphertext), pc := Stamp)
        else t.(pc := Over(false))
      case StampHash(_, _) => t.(pc := Complete)
      case CompleteIt(_, reply) => t.(pc := if reply.Refused? then Over(false) else Bury)
      case BuryIt(_, _) => t.(pc := Over(true))
      case Crash(_) => t.(pc := Over(false))
  }

  /** What the step leaves in Redis. */
  function Shared(cfg: Config, s: Sys, step: Step): Record
    requires Enabled(cfg, s, step)
  {
    match step
    case PutAnswer(a, ok) => if ok then Put(s.record, s.attempts[a].ciphertext) else s.record
    case MarkIt(_, redisOk) => if redisOk then s.record.(delivered := true) else s.record
    case StampHash(a, redisOk) =>
      if redisOk && s.attempts[a].versionedHash != 0
      then s.record.(versionedHash := s.attempts[a].versionedHash) else s.record
    case BuryIt(_, redisOk) => if redisOk then s.record.(tombstoned := true) else s.record
    case Expire => Blank
    case _ => s.record
  }

  /** The store command behind a step that writes to the record, when Redis answers. */
  function CommandOf(s: Sys, step: Step): Option<Command> {
    match step
    case PutAnswer(a, ok) => if ok && a in s.attempts then Some(PutCiphertext(s.attempts[a].ciphertext)) else None
    case MarkIt(_, redisOk) => if redisOk then Some(PutDelivered) else None
    case StampHash(a, redisOk) =>
      if redisOk && a in s.attempts && s.attempts[a].versionedHash != 0
      then Some(PutHash(s.attempts[a].versionedHash)) else None
    case BuryIt(_, redisOk) => if redisOk then Some(PutTombstone) else None
    case _ => None
  }

  /** The machine's record is the checkpoint store's: a writing step has the effect of its script on the key,
      whatever the clock and the lifetimes, expiry is the key's, and no other step touches it. */
  lemma SharedIsTheStore(cfg: Config, s: Sys, step: Step, k: Key, now: int, ttl: nat, tombstoneTTL: nat)
    requires Enabled(cfg, s, step) && k.record == s.record
    ensures CommandOf(s, step).Some? ==>
              Shared(cfg, s, step) == Effect(k, CommandOf(s, step).value, now, ttl, tombstoneTTL).record
    ensures step.Expire? ==> Shared(cfg, s, step) == NoKey.record
    ensures CommandOf(s, step).None? && !step.Expire? ==> Shared(cfg, s, step) == s.record
  {
  }

  /** What the step shows the world. */
  function Emits(cfg: Config, s: Sys, step: Step): seq<Emission>
    requires Enabled(cfg, s, step)
  {
    match step
    case PublishFrame(a, signed) =>
      var t := s.attempts[a];
      if t.ckpt.delivered || !signed then [] else [Terminal(a, t.ciphertext, t.chunkFrames + 1)]
    case SubmitBlob(a, reply) =>
      var t := s.attempts[a];
      if t.ckpt.versionedHash != 0 || reply.Gated? || reply.NotSent? then [] else [BlobTx(a, t.ciphertext)]
    case CompleteIt(a, reply) =>
      var t := s.attempts[a];
      if reply.AlreadyComplete? then [] else [CompleteJob(a, t.versionedHash, cfg.keccak(t.ciphertext))]
    case _ => []
  }

  function Apply(cfg: Config, s: Sys, step: Step): Sys
    requires Enabled(cfg, s, step)
  {
    Sys(Shared(cfg, s, step), s.acked || step.AckMines?,
        if step.AckMines? || step.Expire? then s.attempts else s.attempts[step.a := Local(cfg, s, step)],
        s.log + Emits(cfg, s, step))
  }

  ghost predicate Legal(cfg: Config, s: Sys, steps: seq<Step>)
    decreases |steps|
  {
    steps != [] ==> Enabled(cfg, s, steps[0]) && Legal(cfg, Apply(cfg, s, steps[0]), steps[1..])
  }

  ghost function Run(cfg: Config, s: Sys, steps: seq<Step>): Sys
    requires Legal(cfg, s, steps)
    decreases |steps|
  {
    if steps == [] then s else Run(cfg, Apply(cfg, s, steps[0]), steps[1..])
  }

  // ---------------------------------------------------------------- acknowledged before anything shows

  /** Stages past the join of the acknowledgement. */
  predicate PastJoin(pc: Pc) {
    pc.Publish? || pc.Mark? || pc.Submit? || pc.Stamp? || pc.Complete? || pc.Bury?
  }

  predicate PastAck(pc: Pc) {
    pc.ReadCheckpoint? || pc.Infer? || pc.Cache? || pc.JoinAck? || pc.RejoinAck? || PastJoin(pc)
  }

  /** What an attempt's position says about the chain. */
  predicate AckJustified(acked: bool, t: Attempt) {
    && (t.watch.Confirmed? ==> acked)
    && (PastAck(t.pc) && t.watch.NoWatch? ==> acked)
    && (PastJoin(t.pc) ==> acked)
  }

  ghost predicate AckKnown(s: Sys) {
    && (s.log != [] ==> s.acked)
    && forall a :: a in s.attempts ==> AckJustified(s.acked, s.attempts[a])
  }

  lemma AckLocal(cfg: Config, s: Sys, step: Step)
    requires AckKnown(s) && Enabled(cfg, s, step) && !step.AckMines? && !step.Expire?
    ensures AckJustified(s.acked, Local(cfg, s, step))
  {
    if !step.Begin? {
      assert AckJustified(s.acked, s.attempts[step.a]);
    }
  }

  lemma AckEmits(cfg: Config, s: Sys, step: Step)
    requires AckKnown(s) && Enabled(cfg, s, step) && Emits(cfg, s, step) != []
    ensures s.acked
  {
    assert AckJustified(s.acked, s.attempts[step.a]);
  }

  lemma AckKnownStep(cfg: Config, s: Sys, step: Step)
    requires AckKnown(s) && Enabled(cfg, s, step)
    ensures AckKnown(Apply(cfg, s, step))
  {
    if Emits(cfg, s, step) != [] {
      AckEmits(cfg, s, step);
    }
    if !step.AckMines? && !step.Expire? {
      AckLocal(cfg, s, step);
    }
    hide Local, Shared, Emits, Enabled;
    var s' := Apply(cfg, s, step);
    forall b | b in s'.attempts ensures AckJustified(s'.acked, s'.attempts[b]) {
      if b in s.attempts {
        assert AckJustified(s.acked, s.attempts[b]);
      }
    }
  }

  /** In every run, whatever fails or times out, every terminal frame, blob submission and completeJob
      happens in a state where the job's acknowledgement is already on-chain. */
  lemma {:induction false} NothingBeforeAck(cfg: Config, s: Sys, steps: seq<Step>, k: nat)
    requires AckKnown(s) && Legal(cfg, s, steps) && k < |steps|
    ensures Legal(cfg, s, steps[..k]) && AckKnown(Run(cfg, s, steps[..k]))
    ensures Enabled(cfg, Run(cfg, s, steps[..k]), steps[k])
    ensures Emits(cfg, Run(cfg, s, steps[..k]), steps[k]) != [] ==> Run(cfg, s, steps[..k]).acked
    decreases k
  {
    if k > 0 {
      AckKnownStep(cfg, s, steps[0]);
      NothingBeforeAck(cfg, Apply(cfg, s, steps[0]), steps[1..], k - 1);
      assert steps[1..][..k - 1] == steps[..k][1..];
    } else {
      assert steps[..k] == [];
      if Emits(cfg, s, steps[0]) != [] {
        AckEmits(cfg, s, steps[0]);
      }
    }
  }

  // ---------------------------------------------------------------- one ciphertext

  /** The emission derives from the ciphertext c. */
  predicate DerivesFrom(cfg: Config, e: Emission, c: Bytes) {
    match e
    case Terminal(_, ct, _) => ct == c
    case BlobTx(_, ct) => ct == c
    case CompleteJob(_, vh, h) => vh == cfg.blobHash(c) && h == cfg.keccak(c)
  }

  ghost predicate AllFrom(cfg: Config, log: seq<Emission>, c: Bytes) {
    forall i :: 0 <= i < |log| ==> DerivesFrom(cfg, log[i], c)
  }

  ghost predicate Consistent(cfg: Config, s: Sys) {
    exists c :: AllFrom(cfg, s.log, c)
  }

  /** A stored versioned hash is the blob hash of the stored ciphertext. */
  predicate Anchored(cfg: Config, r: Record) {
    r.versionedHash != 0 ==> r.ciphertext != "" && r.versionedHash == cfg.blobHash(r.ciphertext)
  }

  /** The attempt's view agrees with the record: what it read, what it holds, what it will commit. */
  predicate Agrees(cfg: Config, r: Record, t: Attempt) {
    && Anchored(cfg, t.ckpt)
    && (t.ckpt.ciphertext != "" ==> t.ckpt.ciphertext == r.ciphertext)
    && (t.pc.JoinAck? || t.pc.RejoinAck? || PastJoin(t.pc) ==> t.ciphertext != "" && t.ciphertext == r.ciphertext)
    && (t.pc.Stamp? || t.pc.Complete? ==> t.versionedHash == cfg.blobHash(r.ciphertext))
  }

  ghost predicate Canonical(cfg: Config, s: Sys) {
    && Anchored(cfg, s.record)
    && (forall a :: a in s.attempts ==> Agrees(cfg, s.record, s.attempts[a]))
    && (s.log != [] ==> s.record.ciphertext != "")
    && AllFrom(cfg, s.log, s.record.ciphertext)
  }

  lemma AgreesStays(cfg: Config, r: Record, r': Record, t: Attempt)
    requires Agrees(cfg, r, t) && (r.ciphertext != "" ==> r'.ciphertext == r.ciphertext)
    ensures Agrees(cfg, r', t)
  {
  }

  /** Up to the ciphertext write. */
  predicate Early(step: Step) {
    step.Begin? || step.HasAcknowledged? || step.Acknowledge? || step.ReconcileAck? || step.WatchDone?
    || step.Get? || step.Inferred? || step.PutAnswer?
  }

  lemma AgreesEarly(cfg: Config, s: Sys, step: Step)
    requires Canonical(cfg, s) && !cfg.writeMayFail && Enabled(cfg, s, step) && Early(step)
    ensures Agrees(cfg, Shared(cfg, s, step), Local(cfg, s, step))
  {
    if !step.Begin? {
      assert Agrees(cfg, s.record, s.attempts[step.a]);
    }
  }

  lemma AgreesLate(cfg: Config, s: Sys, step: Step)
    requires Canonical(cfg, s) && Enabled(cfg, s, step) && !Early(step) && !step.AckMines? && !step.Expire?
    ensures Agrees(cfg, Shared(cfg, s, step), Local(cfg, s, step))
  {
    assert Agrees(cfg, s.record, s.attempts[step.a]);
  }

  lemma AgreesLocal(cfg: Config, s: Sys, step: Step)
    requires Canonical(cfg, s) && !cfg.writeMayFail && Enabled(cfg, s, step)
    requires !step.AckMines? && !step.Expire?
    ensures Agrees(cfg, Shared(cfg, s, step), Local(cfg, s, step))
  {
    hide Agrees, Canonical, Shared, Local, Enabled;
    if Early(step) {
      AgreesEarly(cfg, s, step);
    } else {
      AgreesLate(cfg, s, step);
    }
  }

  lemma EmitsCanonical(cfg: Config, s: Sys, step: Step)
    requires Canonical(cfg, s) && Enabled(cfg, s, step) && Emits(cfg, s, step) != []
    ensures s.record.ciphertext != "" && DerivesFrom(cfg, Emits(cfg, s, step)[0], s.record.ciphertext)
  {
    assert Agrees(cfg, s.record, s.attempts[step.a]);
  }

  lemma CanonicalStep(cfg: Config, s: Sys, step: Step)
    requires Canonical(cfg, s) && !cfg.writeMayFail && !cfg.mayExpire && Enabled(cfg, s, step)
    ensures Canonical(cfg, Apply(cfg, s, step))
  {
    var s' := Apply(cfg, s, step);
    assert Anchored(cfg, s'.record) by {
      if step.StampHash? {
        assert Agrees(cfg, s.record, s.attempts[step.a]);
      }
    }
    if !step.AckMines? {
      AgreesLocal(cfg, s, step);
    }
    forall b | b in s'.attempts ensures Agrees(cfg, s'.record, s'.attempts[b]) {
      if step.AckMines? || b != step.a {
        AgreesStays(cfg, s.record, s'.record, s.attempts[b]);
      }
    }
    if Emits(cfg, s, step) != [] {
      EmitsCanonical(cfg, s, step);
    }
  }

  lemma {:induction false} CanonicalRun(cfg: Config, s: Sys, steps: seq<Step>)
    requires Canonical(cfg, s) && !cfg.writeMayFail && !cfg.mayExpire && Legal(cfg, s, steps)
    ensures Canonical(cfg, Run(cfg, s, steps))
    decreases |steps|
  {
    if steps != [] {
      CanonicalStep(cfg, s, steps[0]);
      CanonicalRun(cfg, Apply(cfg, s, steps[0]), steps[1..]);
    }
  }

  /** If ciphertext writes succeed and the record lives, then however many attempts interleave and
      crash, every terminal frame, blob and completeJob pair comes from one ciphertext, and the stored
      hash is always the blob hash of the stored ciphertext. */
  lemma AllFromOneCiphertext(cfg: Config, steps: seq<Step>)
    requires !cfg.writeMayFail && !cfg.mayExpire && Legal(cfg, Start, steps)
    ensures Consistent(cfg, Run(cfg, Start, steps)) && Anchored(cfg, Run(cfg, Start, steps).record)
  {
    CanonicalRun(cfg, Start, steps);
    var s := Run(cfg, Start, steps);
    assert AllFrom(cfg, s.log, s.record.ciphertext);
  }

  // ---------------------------------------------------------------- exactly when

  lemma {:induction false} Extend(cfg: Config, s: Sys, steps: seq<Step>, step: Step)
    requires Legal(cfg, s, steps) && Enabled(cfg, Run(cfg, s, steps), step)
    ensures Legal(cfg, s, steps + [step])
    ensures Run(cfg, s, steps + [step]) == Apply(cfg, Run(cfg, s, steps), step)
    decreases |steps|
  {
    if steps == [] {
      assert [] + [step] == [step];
      assert [step][1..] == [];
    } else {
      Extend(cfg, Apply(cfg, s, steps[0]), steps[1..], step);
      assert (steps + [step])[1..] == steps[1..] + [step];
    }
  }

  /** The run `steps` prolonged by one step. */
  lemma Then(cfg: Config, steps: seq<Step>, step: Step) returns (steps': seq<Step>)
    requires Legal(cfg, Start, steps) && Enabled(cfg, Run(cfg, Start, steps), step)
    ensures Legal(cfg, Start, steps')
    ensures Run(cfg, Start, steps') == Apply(cfg, Run(cfg, Start, steps), step)
  {
    Extend(cfg, Start, steps, step);
    steps' := steps + [step];
  }

  /** Inference may give this: an empty answer only where its write can fail. */
  predicate Answerable(cfg: Config, ct: Bytes) {
    ct != "" || cfg.writeMayFail
  }

  /** An attempt that finds no ciphertext in the record infers ct. */
  lemma Inferring(cfg: Config, steps: seq<Step>, a: nat, ct: Bytes) returns (steps': seq<Step>)
    requires Legal(cfg, Start, steps) && Answerable(cfg, ct)
    requires var s := Run(cfg, Start, steps); s.acked && a !in s.attempts && s.record.ciphertext == ""
    ensures Legal(cfg, Start, steps')
    ensures var s := Run(cfg, Start, steps);
            Run(cfg, Start, steps') == s.(attempts := s.attempts[a := Attempt(Cache, NoWatch, s.record, ct, 0, 0)])
  {
    hide Run, Legal;
    steps' := Then(cfg, steps, Begin(a));
    steps' := Then(cfg, steps', HasAcknowledged(a, EventSeen));
    steps' := Then(cfg, steps', Get(a, true));
    steps' := Then(cfg, steps', Inferred(a, Some((ct, 0))));
    assert Run(cfg, Start, steps').log == Run(cfg, Start, steps).log;
  }

  /** It then writes ct, successfully or not, and shows it. */
  lemma Showing(cfg: Config, steps: seq<Step>, a: nat, ct: Bytes, ok: bool) returns (steps': seq<Step>)
    requires Legal(cfg, Start, steps) && if ok then ct != "" else cfg.writeMayFail
    requires var s := Run(cfg, Start, steps);
             s.acked && a !in s.attempts && s.record.ciphertext == "" && !s.record.delivered
    ensures Legal(cfg, Start, steps')
    ensures var s := Run(cfg, Start, steps);
            Run(cfg, Start, steps') ==
            Sys(if ok then Put(s.record, ct) else s.record, true,
                s.attempts[a := Attempt(Mark, NoWatch, s.record, ct, 0, 0)], s.log + [Terminal(a, ct, 1)])
  {
    hide Run, Legal;
    steps' := Inferring(cfg, steps, a, ct);
    steps' := Then(cfg, steps', PutAnswer(a, ok));
    steps' := Then(cfg, steps', Await(a, false));
    steps' := Then(cfg, steps', PublishFrame(a, true));
  }

  lemma TwoAnswersInconsistent(cfg: Config, s: Sys)
    requires s.log == [Terminal(0, "x", 1), Terminal(1, "y", 1)]
    ensures !Consistent(cfg, s)
  {
    forall c ensures !AllFrom(cfg, s.log, c) {
      assert !DerivesFrom(cfg, s.log[0], c) || !DerivesFrom(cfg, s.log[1], c);
    }
  }

  /** With failing writes or expiry, two attempts show the consumer two different answers. */
  lemma TwoAnswers(cfg: Config) returns (steps: seq<Step>)
    requires cfg.writeMayFail || cfg.mayExpire
    ensures Legal(cfg, Start, steps) && !Consistent(cfg, Run(cfg, Start, steps))
  {
    assert Legal(cfg, Start, []) && Run(cfg, Start, []) == Start;
    hide Run, Legal, Consistent, AllFrom, Local, Put;
    steps := Then(cfg, [], AckMines);
    assert Run(cfg, Start, steps) == Sys(Blank, true, map[], []);
    steps := Showing(cfg, steps, 0, "x", !cfg.writeMayFail);
    assert Run(cfg, Start, steps).log == [Terminal(0, "x", 1)];
    if !cfg.writeMayFail {
      steps := Then(cfg, steps, Expire);
    }
    assert Run(cfg, Start, steps).log == [Terminal(0, "x", 1)] && Run(cfg, Start, steps).record == Blank;
    hide Enabled, Apply;
    steps := Showing(cfg, steps, 1, "y", !cfg.writeMayFail);
    TwoAnswersInconsistent(cfg, Run(cfg, Start, steps));
  }

  ghost predicate AlwaysConsistent(cfg: Config) {
    forall steps :: Legal(cfg, Start, steps) ==> Consistent(cfg, Run(cfg, Start, steps))
  }

  /** What the record's documentation promises of every run holds exactly in the environments where
      ciphertext writes succeed and the record does not expire. */
  lemma AlwaysConsistentIff(cfg: Config)
    ensures AlwaysConsistent(cfg) <==> !cfg.writeMayFail && !cfg.mayExpire
  {
    if !cfg.writeMayFail && !cfg.mayExpire {
      forall steps | Legal(cfg, Start, steps) ensures Consistent(cfg, Run(cfg, Start, steps)) {
        AllFromOneCiphertext(cfg, steps);
      }
    } else {
      var steps := TwoAnswers(cfg);
    }
  }

  /** From its terminal frame to completeJob, with the commit that follows from what it read. */
  lemma Settling(cfg: Config, steps: seq<Step>, a: nat) returns (steps': seq<Step>)
    requires Legal(cfg, Start, steps) && At(Run(cfg, Start, steps), a, Mark)
    ensures Legal(cfg, Start, steps')
    ensures var s, s' := Run(cfg, Start, steps), Run(cfg, Start, steps');
            var t := s.attempts[a];
            var vh := if t.ckpt.versionedHash != 0 then t.ckpt.versionedHash else cfg.blobHash(t.ciphertext);
            && s'.acked == s.acked && s'.attempts.Keys == s.attempts.Keys
            && s'.log != [] && s'.log[|s'.log| - 1] == CompleteJob(a, vh, cfg.keccak(t.ciphertext))
            && s'.record.ciphertext == s.record.ciphertext && s'.record.delivered == s.record.delivered
            && (t.ckpt.versionedHash == 0 && vh != 0 ==> s'.record.versionedHash == vh)
  {
    hide Run, Legal;
    var s := Run(cfg, Start, steps);
    steps' := Then(cfg, steps, MarkIt(a, false));
    steps' := Then(cfg, steps', SubmitBlob(a, BlobMined));
    if s.attempts[a].ckpt.versionedHash == 0 {
      steps' := Then(cfg, steps', StampHash(a, true));
    }
    steps' := Then(cfg, steps', CompleteIt(a, Accepted));
  }

  /** An attempt's blob hash can end up in a record whose ciphertext is not its own, after a failed ciphertext
      write or when the record expires before the hash is stored: the next attempt then commits the blob of
      one answer with the hash of another, whatever the two are. */
  lemma MismatchedCommit(cfg: Config, x: Bytes, y: Bytes) returns (steps: seq<Step>)
    requires cfg.writeMayFail || cfg.mayExpire
    requires Answerable(cfg, x) && Answerable(cfg, y) && cfg.blobHash(x) != 0
    ensures Legal(cfg, Start, steps)
    ensures var s := Run(cfg, Start, steps);
            s.log != [] && s.log[|s.log| - 1] == CompleteJob(1, cfg.blobHash(x), cfg.keccak(y))
  {
    assert Legal(cfg, Start, []) && Run(cfg, Start, []) == Start;
    hide Run, Legal;
    steps := Then(cfg, [], AckMines);
    steps := Showing(cfg, steps, 0, x, !cfg.writeMayFail);
    if cfg.writeMayFail {
      steps := Settling(cfg, steps, 0);
    } else {
      steps := Expiring(cfg, steps, 0);
    }
    steps := Showing(cfg, steps, 1, y, !cfg.writeMayFail);
    steps := Settling(cfg, steps, 1);
  }

  /** From its terminal frame to storing the hash of its blob, the record having expired before. */
  lemma Expiring(cfg: Config, steps: seq<Step>, a: nat) returns (steps': seq<Step>)
    requires Legal(cfg, Start, steps) && At(Run(cfg, Start, steps), a, Mark) && cfg.mayExpire
    requires var t := Run(cfg, Start, steps).attempts[a]; t.ckpt.versionedHash == 0 && cfg.blobHash(t.ciphertext) != 0
    ensures Legal(cfg, Start, steps')
    ensures var s, s' := Run(cfg, Start, steps), Run(cfg, Start, steps');
            && s'.acked == s.acked && s'.attempts.Keys == s.attempts.Keys
            && s'.record == Blank.(versionedHash := cfg.blobHash(s.attempts[a].ciphertext))
  {
    hide Run, Legal;
    steps' := Then(cfg, steps, MarkIt(a, false));
    steps' := Then(cfg, steps', SubmitBlob(a, BlobMined));
    steps' := Then(cfg, steps', Expire);
    steps' := Then(cfg, steps', StampHash(a, true));
  }

  // ---------------------------------------------------------------- every pair names one ciphertext

  /** These are the blob hash of x and the hash of y. */
  predicate PairOf(cfg: Config, x: Bytes, y: Bytes, versionedHash: nat, ciphertextHash: nat) {
    cfg.blobHash(x) == versionedHash && cfg.keccak(y) == ciphertextHash
  }

  /** Every completeJob pair is the two hashes of one ciphertext. */
  ghost predicate Paired(cfg: Config, s: Sys) {
    forall e :: e in s.log && e.CompleteJob? ==> exists c :: PairOf(cfg, c, c, e.versionedHash, e.ciphertextHash)
  }

  ghost predicate AlwaysPaired(cfg: Config) {
    forall steps :: Legal(cfg, Start, steps) ==> Paired(cfg, Run(cfg, Start, steps))
  }

  /** Hash functions that cannot tell a mixture: for any two answers, some ciphertext has the blob hash of the
      first and the hash of the second. */
  ghost predicate Blended(cfg: Config) {
    forall x, y :: Answerable(cfg, x) && Answerable(cfg, y) && cfg.blobHash(x) != 0 ==> Joint(cfg, x, y)
  }

  ghost predicate Joint(cfg: Config, x: Bytes, y: Bytes) {
    exists c :: PairOf(cfg, c, c, cfg.blobHash(x), cfg.keccak(y))
  }

  /** The blob hash of some answer. */
  ghost predicate IsHash(cfg: Config, h: nat) {
    exists x :: Answerable(cfg, x) && PairOf(cfg, x, x, h, cfg.keccak(x))
  }

  /** The hashes of two answers, of one and the same if the first is 0. */
  ghost predicate Mixture(cfg: Config, versionedHash: nat, ciphertextHash: nat) {
    exists x, y :: Answerable(cfg, x) && Answerable(cfg, y) && (versionedHash == 0 ==> x == y)
                   && PairOf(cfg, x, y, versionedHash, ciphertextHash)
  }

  /** Where the hashes an attempt holds come from. */
  ghost predicate Sourced(cfg: Config, t: Attempt) {
    && (t.ckpt.versionedHash != 0 ==> IsHash(cfg, t.ckpt.versionedHash))
    && (t.pc.Cache? || t.pc.JoinAck? || t.pc.RejoinAck? || PastJoin(t.pc) ==> Answerable(cfg, t.ciphertext))
    && (t.pc.Stamp? ==> t.versionedHash == cfg.blobHash(t.ciphertext))
    && (t.pc.Complete? ==> t.versionedHash == cfg.blobHash(t.ciphertext) || (t.versionedHash != 0 && IsHash(cfg, t.versionedHash)))
  }

  ghost predicate MixturesOnly(cfg: Config, s: Sys) {
    && (s.record.versionedHash != 0 ==> IsHash(cfg, s.record.versionedHash))
    && (forall a :: a in s.attempts ==> Sourced(cfg, s.attempts[a]))
    && (forall e :: e in s.log && e.CompleteJob? ==> Mixture(cfg, e.versionedHash, e.ciphertextHash))
  }

  lemma OwnHash(cfg: Config, x: Bytes)
    requires Answerable(cfg, x)
    ensures IsHash(cfg, cfg.blobHash(x)) && Mixture(cfg, cfg.blobHash(x), cfg.keccak(x))
  {
    assert PairOf(cfg, x, x, cfg.blobHash(x), cfg.keccak(x));
  }

  lemma MixtureOf(cfg: Config, h: nat, y: Bytes)
    requires h != 0 && IsHash(cfg, h) && Answerable(cfg, y)
    ensures Mixture(cfg, h, cfg.keccak(y))
  {
    var x :| Answerable(cfg, x) && PairOf(cfg, x, x, h, cfg.keccak(x));
    assert PairOf(cfg, x, y, h, cfg.keccak(y));
  }

  lemma SourcedLocal(cfg: Config, s: Sys, step: Step)
    requires MixturesOnly(cfg, s) && Enabled(cfg, s, step) && !step.AckMines? && !step.Expire?
    ensures Sourced(cfg, Local(cfg, s, step))
  {
    hide IsHash;
    if !step.Begin? {
      assert Sourced(cfg, s.attempts[step.a]);
    }
  }

  lemma HashShared(cfg: Config, s: Sys, step: Step)
    requires MixturesOnly(cfg, s) && Enabled(cfg, s, step)
    ensures Shared(cfg, s, step).versionedHash != 0 ==> IsHash(cfg, Shared(cfg, s, step).versionedHash)
  {
    if step.StampHash? {
      assert Sourced(cfg, s.attempts[step.a]);
      OwnHash(cfg, s.attempts[step.a].ciphertext);
    }
    hide IsHash;
  }

  lemma MixtureEmitted(cfg: Config, s: Sys, step: Step)
    requires MixturesOnly(cfg, s) && Enabled(cfg, s, step)
    ensures forall e :: e in Emits(cfg, s, step) && e.CompleteJob? ==> Mixture(cfg, e.versionedHash, e.ciphertextHash)
  {
    hide IsHash, Mixture;
    if step.CompleteIt? {
      var t := s.attempts[step.a];
      assert Sourced(cfg, t);
      if t.versionedHash == cfg.blobHash(t.ciphertext) {
        OwnHash(cfg, t.ciphertext);
      } else {
        MixtureOf(cfg, t.versionedHash, t.ciphertext);
      }
    }
  }

  lemma MixturesStep(cfg: Config, s: Sys, step: Step)
    requires MixturesOnly(cfg, s) && Enabled(cfg, s, step)
    ensures MixturesOnly(cfg, Apply(cfg, s, step))
  {
    HashShared(cfg, s, step);
    MixtureEmitted(cfg, s, step);
    if !step.AckMines? && !step.Expire? {
      SourcedLocal(cfg, s, step);
    }
    hide IsHash, Mixture, Sourced, Local, Shared, Emits, Enabled;
    var s' := Apply(cfg, s, step);
    forall e | e in s'.log && e.CompleteJob? ensures Mixture(cfg, e.versionedHash, e.ciphertextHash) {
      assert e in s.log || e in Emits(cfg, s, step);
    }
    forall b | b in s'.attempts ensures Sourced(cfg, s'.attempts[b]) {
      assert b in s.attempts ==> Sourced(cfg, s.attempts[b]);
    }
  }

  lemma {:induction false} MixturesRun(cfg: Config, s: Sys, steps: seq<Step>)
    requires MixturesOnly(cfg, s) && Legal(cfg, s, steps)
    ensures MixturesOnly(cfg, Run(cfg, s, steps))
    decreases |steps|
  {
    if steps != [] {
      MixturesStep(cfg, s, steps[0]);
      MixturesRun(cfg, Apply(cfg, s, steps[0]), steps[1..]);
    }
  }

  lemma MixturesPaired(cfg: Config, s: Sys)
    requires Blended(cfg) && MixturesOnly(cfg, s)
    ensures Paired(cfg, s)
  {
    forall e | e in s.log && e.CompleteJob? ensures exists c :: PairOf(cfg, c, c, e.versionedHash, e.ciphertextHash) {
      var x, y :| Answerable(cfg, x) && Answerable(cfg, y) && (e.versionedHash == 0 ==> x == y)
                  && PairOf(cfg, x, y, e.versionedHash, e.ciphertextHash);
      if x == y {
        assert PairOf(cfg, x, x, e.versionedHash, e.ciphertextHash);
      } else {
        assert Joint(cfg, x, y);
      }
    }
  }

  lemma ConsistentPaired(cfg: Config, s: Sys)
    requires Consistent(cfg, s)
    ensures Paired(cfg, s)
  {
    var c :| AllFrom(cfg, s.log, c);
    forall e | e in s.log && e.CompleteJob? ensures exists c :: PairOf(cfg, c, c, e.versionedHash, e.ciphertextHash) {
      var i :| 0 <= i < |s.log| && s.log[i] == e;
      assert DerivesFrom(cfg, s.log[i], c);
      assert PairOf(cfg, c, c, e.versionedHash, e.ciphertextHash);
    }
  }

  lemma SafePaired(cfg: Config)
    requires !cfg.writeMayFail && !cfg.mayExpire
    ensures AlwaysPaired(cfg)
  {
    hide Legal, Run, Paired, Consistent;
    forall steps | Legal(cfg, Start, steps) ensures Paired(cfg, Run(cfg, Start, steps)) {
      AllFromOneCiphertext(cfg, steps);
      ConsistentPaired(cfg, Run(cfg, Start, steps));
    }
  }

  lemma BlendedPaired(cfg: Config)
    requires Blended(cfg)
    ensures AlwaysPaired(cfg)
  {
    hide Legal, Run, Paired, MixturesOnly, Blended;
    StartMixes(cfg);
    forall steps | Legal(cfg, Start, steps) ensures Paired(cfg, Run(cfg, Start, steps)) {
      MixturesRun(cfg, Start, steps);
      MixturesPaired(cfg, Run(cfg, Start, steps));
    }
  }

  lemma UnsafeUnpaired(cfg: Config)
    requires (cfg.writeMayFail || cfg.mayExpire) && !Blended(cfg)
    ensures !AlwaysPaired(cfg)
  {
    hide Legal, Run, Paired, Joint, PairOf;
    var x, y :| Answerable(cfg, x) && Answerable(cfg, y) && cfg.blobHash(x) != 0 && !Joint(cfg, x, y);
    var steps := MismatchedCommit(cfg, x, y);
    LastUnpaired(cfg, Run(cfg, Start, steps), x, y);
  }

  /** Every completeJob pair of every run names one ciphertext exactly if ciphertext writes succeed and the record
      does not expire, or the hash functions cannot tell a mixture from a ciphertext. */
  lemma AlwaysPairedIff(cfg: Config)
    ensures AlwaysPaired(cfg) <==> (!cfg.writeMayFail && !cfg.mayExpire) || Blended(cfg)
  {
    hide AlwaysPaired, Blended;
    if !cfg.writeMayFail && !cfg.mayExpire {
      SafePaired(cfg);
    } else if Blended(cfg) {
      BlendedPaired(cfg);
    } else {
      UnsafeUnpaired(cfg);
    }
  }

  lemma StartMixes(cfg: Config)
    ensures MixturesOnly(cfg, Start)
  {
  }

  lemma LastUnpaired(cfg: Config, s: Sys, x: Bytes, y: Bytes)
    requires s.log != [] && s.log[|s.log| - 1] == CompleteJob(1, cfg.blobHash(x), cfg.keccak(y))
    requires !Joint(cfg, x, y)
    ensures !Paired(cfg, s)
  {
    assert s.log[|s.log| - 1] in s.log;
  }

  /** With hash functions free of collisions, exactly in the environments of AlwaysConsistentIff. */
  lemma PairedWithoutCollisions(cfg: Config)
    requires forall x, y :: cfg.blobHash(x) == cfg.blobHash(y) ==> x == y
    requires forall x, y :: cfg.keccak(x) == cfg.keccak(y) ==> x == y
    ensures AlwaysPaired(cfg) <==> !cfg.writeMayFail && !cfg.mayExpire
  {
    AlwaysPairedIff(cfg);
    hide AlwaysPaired;
    assert cfg.blobHash("x") == cfg.blobHash("y") ==> "x" == "y";
    if cfg.blobHash("x") != 0 {
      Unblended(cfg, "x", "y");
    } else {
      Unblended(cfg, "y", "x");
    }
  }

  lemma Unblended(cfg: Config, x: Bytes, y: Bytes)
    requires forall c :: cfg.blobHash(c) == cfg.blobHash(x) ==> c == x
    requires forall c :: cfg.keccak(c) == cfg.keccak(y) ==> c == y
    requires x != y && x != "" && y != "" && cfg.blobHash(x) != 0
    ensures !Blended(cfg)
  {
    forall c ensures !PairOf(cfg, c, c, cfg.blobHash(x), cfg.keccak(y)) {
      assert cfg.blobHash(c) == cfg.blobHash(x) ==> c == x;
      assert cfg.keccak(c) == cfg.keccak(y) ==> c == y;
    }
    assert Answerable(cfg, x) && Answerable(cfg, y) && !Joint(cfg, x, y);
  }
}

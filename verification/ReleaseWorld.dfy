/**
 The release subsystem as one shared world: the chain, and the state file that the reconciler, the
 scheduler, the pipeline's tracker and the registration seed all write to. A `Step` is one chain move
 or one locked store operation by whichever of them; a run is any interleaving. Modules Reconcilers
 and Schedulers prove that the code takes only enabled steps.
 */
module ReleaseWorlds {
  import opened Backoffs
  import opened Common
  import opened ReleaseStore

  datatype State = Submitted | Acknowledged | Completed | TimedOut | Disputed | Resolved | Released

  datatype JobInfo = JobInfo(worker: nat, state: State, completedAt: int, escrow: nat)

  /** What the contract returns for a job it does not know. */
  const NoJob := JobInfo(0, Submitted, 0, 0)

  /** A JobCompleted event. */
  datatype Event = Event(job: nat, worker: nat, block: nat)

  /** `events` are those in final blocks, up to `final`; `used` are the final blocks with a
      transaction of this worker's key; `time` is the newest block's timestamp. */
  datatype Chain = Chain(jobs: map<nat, JobInfo>, events: set<Event>, used: set<nat>, final: nat, time: int)

  datatype World = World(chain: Chain, snap: Snapshot)

  /** Who we are, the first block the reconciler is asked to scan, and the dispute window to use instead
      of the contract's, in nanoseconds (none if not positive). */
  datatype Setup = Setup(me: nat, origin: nat, windowOverride: int)

  /** Settled for good. */
  predicate Over(info: JobInfo) {
    info.state.Released? || info.state.TimedOut? || (info.state.Resolved? && info.escrow == 0)
  }

  /** What the contract lets the worker release: completed and past its dispute window, or resolved in
      the worker's favour. */
  predicate Eligible(info: JobInfo, window: int, now: int) {
    (info.state.Completed? && info.completedAt + window <= now) || (info.state.Resolved? && info.escrow > 0)
  }

  datatype Verdict = Release | Discard | Keep | Unread

  /** What there is to do about a job of the pending set that was read so. */
  function Bin(info: JobInfo, me: nat, window: int, now: int): (v: Verdict)
    ensures !v.Unread?
  {
    if info.worker != me || Over(info) then Discard
    else if Eligible(info, window, now) then Release
    else Keep
  }

  function Lookup(c: Chain, id: nat): JobInfo {
    if id in c.jobs then c.jobs[id] else NoJob
  }

  predicate Done(c: Chain, id: nat) {
    id in c.jobs && Over(c.jobs[id])
  }

  predicate Foreign(c: Chain, id: nat, me: nat) {
    id in c.jobs && c.jobs[id].worker != me
  }

  /** Events of a worker are about jobs assigned to it, and completeJob acts for its sender only. */
  ghost predicate Sound(c: Chain, me: nat) {
    && (forall e :: e in c.events ==> e.block <= c.final && e.job in c.jobs && c.jobs[e.job].worker == e.worker)
    && (forall e :: e in c.events && e.worker == me ==> e.block in c.used)
  }

  /** What the rest of the world may do to the chain: anything that keeps a job's worker and a settled
      job settled, adds events only above the final block, and lets neither it nor time run back. */
  ghost predicate Moves(c: Chain, d: Chain, me: nat) {
    && Sound(d, me)
    && (forall id :: id in c.jobs ==> id in d.jobs && d.jobs[id].worker == c.jobs[id].worker)
    && (forall id :: Done(c, id) ==> Done(d, id))
    && c.events <= d.events && (forall e :: e in d.events && e !in c.events ==> e.block > c.final)
    && c.used <= d.used && (forall b :: b in d.used && b !in c.used ==> b > c.final)
    && c.final <= d.final && c.time <= d.time
  }

  /** The job is still ours to release, or there is nothing left to release. */
  ghost predicate Accounted(w: World, job: nat) {
    Has(w.snap.pending, job) || Done(w.chain, job)
  }

  /** Own events between the scan start and the stored cursor are accounted for. */
  ghost predicate NoLoss(w: World, s: Setup) {
    forall e :: e in w.chain.events && e.worker == s.me && s.origin <= e.block <= w.snap.cursor ==>
      Accounted(w, e.job)
  }

  ghost predicate Inv(w: World, s: Setup) {
    && Sound(w.chain, s.me)
    && Unique(w.snap.pending)
    && (forall id :: Has(w.snap.pending, id) ==> id in w.chain.jobs)
    && w.snap.cursor <= w.chain.final
    && NoLoss(w, s)
  }

  datatype Step =
    | ChainMoves(d: Chain)
    | Add(id: nat, completedAt: int)   // the reconciler, or the tracker after completeJob
    | Drop(ids: set<nat>)              // the scheduler
    | Fail(id: nat, until: int)        // the scheduler
    | Advance(block: nat)              // the reconciler
    | Seed(block: nat)                 // registration
    | Stamp(lastReleaseTs: int, nextAllowed: int)

  ghost predicate Enabled(w: World, s: Setup, step: Step) {
    match step
    case ChainMoves(d) => Moves(w.chain, d, s.me)
    case Add(id, _) => id in w.chain.jobs
    case Drop(ids) => Cleared(w.chain, s.me, ids)
    case Fail(_, _) => true
    case Advance(block) =>
      && w.snap.cursor <= block <= w.chain.final
      && (forall e :: e in w.chain.events && e.worker == s.me && s.origin <= e.block && w.snap.cursor < e.block <= block ==>
            Accounted(w, e.job))
    case Seed(block) => w.snap.cursor == 0 && block <= w.chain.final && forall b :: b in w.chain.used ==> b > block
    case Stamp(_, _) => true
  }

  function Added(p: seq<PendingJob>, id: nat, completedAt: int): seq<PendingJob> {
    if exists i :: 0 <= i < |p| && p[i].id == id then p else p + [PendingJob(id, completedAt, 0, 0)]
  }

  function Apply(w: World, step: Step): World {
    match step
    case ChainMoves(d) => w.(chain := d)
    case Add(id, ts) => w.(snap := w.snap.(pending := Added(w.snap.pending, id, ts)))
    case Drop(ids) => w.(snap := w.snap.(pending := Without(w.snap.pending, ids)))
    case Fail(id, until) => w.(snap := w.snap.(pending := Bumped(w.snap.pending, id, until)))
    case Advance(block) => w.(snap := w.snap.(cursor := block))
    case Seed(block) => w.(snap := w.snap.(cursor := block))
    case Stamp(last, next) => w.(snap := w.snap.(lastReleaseTs := last, nextAllowed := next))
  }

  ghost predicate Legal(w: World, s: Setup, steps: seq<Step>)
    decreases |steps|
  {
    steps != [] ==> Enabled(w, s, steps[0]) && Legal(Apply(w, steps[0]), s, steps[1..])
  }

  function Run(w: World, steps: seq<Step>): World
    decreases |steps|
  {
    if steps == [] then w else Run(Apply(w, steps[0]), steps[1..])
  }

  // ---------------------------------------------------------------- what every step keeps

  lemma HasAdded(p: seq<PendingJob>, id: nat, ts: int, other: nat)
    ensures Has(Added(p, id, ts), other) <==> Has(p, other) || other == id
  {
    var q := Added(p, id, ts);
    if q != p {
      assert q[|p|].id == id;
      if Has(p, other) {
        var i :| 0 <= i < |p| && p[i].id == other;
        assert q[i].id == other;
      }
    }
  }

  lemma HasBumped(p: seq<PendingJob>, id: nat, until: int)
    ensures Unique(p) ==> Unique(Bumped(p, id, until))
    ensures forall other :: Has(Bumped(p, id, until), other) <==> Has(p, other)
  {
    hide Bumped;
    if Has(p, id) {
      var i := First(p, id);
      BumpedAt(p, i, id, until);
      forall other ensures Has(p[i := p[i].(failCount := p[i].failCount + 1, backoffUntil := until)], other) <==> Has(p, other) {
        var q := p[i := p[i].(failCount := p[i].failCount + 1, backoffUntil := until)];
        if Has(p, other) {
          var k :| 0 <= k < |p| && p[k].id == other;
          assert q[k].id == other;
        }
      }
    } else {
      BumpedAbsent(p, id, until);
    }
  }

  lemma First(p: seq<PendingJob>, id: nat) returns (i: nat)
    requires Has(p, id)
    ensures i < |p| && p[i].id == id && forall k :: 0 <= k < i ==> p[k].id != id
  {
    i := 0;
    while p[i].id != id
      invariant i < |p| && forall k :: 0 <= k < i ==> p[k].id != id
      decreases |p| - i
    {
      var j :| 0 <= j < |p| && p[j].id == id;
      i := i + 1;
    }
  }

  lemma HasWithout(p: seq<PendingJob>, ids: set<nat>, id: nat)
    ensures Has(Without(p, ids), id) <==> Has(p, id) && id !in ids
  {
    WithoutIsSettle(p, ids);
    SettleHas(p, ids, map[], id);
  }

  /** No step makes an accounted-for job of ours unaccounted for. */
  lemma AccountedStays(w: World, s: Setup, step: Step, e: Event)
    requires Inv(w, s) && Enabled(w, s, step) && e in w.chain.events && e.worker == s.me && Accounted(w, e.job)
    ensures Accounted(Apply(w, step), e.job)
  {
    match step
    case Add(id, ts) => HasAdded(w.snap.pending, id, ts, e.job);
    case Drop(ids) => HasWithout(w.snap.pending, ids, e.job);
    case Fail(id, until) => HasBumped(w.snap.pending, id, until);
    case _ =>
  }

  lemma PendingAfter(w: World, s: Setup, step: Step)
    requires Inv(w, s) && Enabled(w, s, step)
    ensures var w' := Apply(w, step);
            Unique(w'.snap.pending) && forall id :: Has(w'.snap.pending, id) ==> id in w'.chain.jobs
  {
    var p := w.snap.pending;
    match step
    case Add(id, ts) =>
      forall other ensures Has(Added(p, id, ts), other) <==> Has(p, other) || other == id {
        HasAdded(p, id, ts, other);
      }
    case Drop(ids) =>
      WithoutIsSettle(p, ids);
      SettleUnique(p, ids, map[]);
      forall id ensures Has(Without(p, ids), id) <==> Has(p, id) && id !in ids {
        HasWithout(p, ids, id);
      }
    case Fail(id, until) => HasBumped(p, id, until);
    case _ =>
  }

  lemma InvStep(w: World, s: Setup, step: Step)
    requires Inv(w, s) && Enabled(w, s, step)
    ensures Inv(Apply(w, step), s)
  {
    PendingAfter(w, s, step);
    var w' := Apply(w, step);
    forall e | e in w'.chain.events && e.worker == s.me && s.origin <= e.block <= w'.snap.cursor
      ensures Accounted(w', e.job)
    {
      assert e in w.chain.events;
      if Accounted(w, e.job) {
        AccountedStays(w, s, step, e);
      }
    }
  }

  /** What holds from one state of the world on. */
  ghost predicate Later(w: World, w': World, me: nat) {
    && Moves(w.chain, w'.chain, me)
    && w.snap.cursor <= w'.snap.cursor
    && (forall e :: e in w.chain.events && e.worker == me && Accounted(w, e.job) ==> Accounted(w', e.job))
  }

  lemma LaterStep(w: World, s: Setup, step: Step)
    requires Inv(w, s) && Enabled(w, s, step)
    ensures Later(w, Apply(w, step), s.me)
  {
    forall e | e in w.chain.events && e.worker == s.me && Accounted(w, e.job)
      ensures Accounted(Apply(w, step), e.job)
    {
      AccountedStays(w, s, step, e);
    }
  }

  lemma LaterThenLater(a: World, b: World, c: World, me: nat)
    requires Later(a, b, me) && Later(b, c, me)
    ensures Later(a, c, me)
  {
  }

  /** What a caller keeps knowing: finality, the cursor's floor, and what it found accounted for. */
  lemma LaterKeeps(a: World, b: World, me: nat)
    requires Later(a, b, me)
    ensures a.chain.final <= b.chain.final && a.snap.cursor <= b.snap.cursor && a.chain.time <= b.chain.time
    ensures forall e :: e in b.chain.events && e.block <= a.chain.final ==> e in a.chain.events
    ensures forall e :: e in a.chain.events ==> e in b.chain.events
    ensures forall e :: e in a.chain.events && e.worker == me && Accounted(a, e.job) ==> Accounted(b, e.job)
    ensures forall id :: Done(a.chain, id) ==> Done(b.chain, id)
    ensures forall id :: Foreign(a.chain, id, me) ==> Foreign(b.chain, id, me)
    ensures forall id :: id in a.chain.jobs ==> id in b.chain.jobs
  {
  }

  /** Nothing left to release for us in these jobs. */
  ghost predicate Cleared(c: Chain, me: nat, ids: set<nat>) {
    forall id :: id in ids ==> Done(c, id) || Foreign(c, id, me)
  }

  lemma ClearedLater(a: World, b: World, me: nat, ids: set<nat>)
    requires Later(a, b, me) && Cleared(a.chain, me, ids)
    ensures Cleared(b.chain, me, ids)
  {
  }

  lemma ClearedMore(c: Chain, me: nat, ids: set<nat>, more: set<nat>)
    requires Cleared(c, me, ids) && Cleared(c, me, more)
    ensures Cleared(c, me, ids + more)
  {
  }

  /** Jobs the chain assigned to this worker. */
  ghost predicate Ours(c: Chain, me: nat, ids: seq<nat>) {
    forall id :: id in ids ==> id in c.jobs && c.jobs[id].worker == me
  }

  lemma OursLater(a: World, b: World, me: nat, ids: seq<nat>)
    requires Later(a, b, me) && Ours(a.chain, me, ids)
    ensures Ours(b.chain, me, ids)
  {
  }

  lemma OursAt(c: Chain, me: nat, ids: seq<nat>, i: nat)
    requires i < |ids| && Ours(c, me, ids)
    ensures Ours(c, me, [ids[i]])
  {
  }

  lemma OursMore(c: Chain, me: nat, ids: seq<nat>, more: seq<nat>)
    requires Ours(c, me, ids) && Ours(c, me, more)
    ensures Ours(c, me, ids + more)
  {
  }

  lemma LaterNow(w: World, s: Setup)
    requires Inv(w, s)
    ensures Later(w, w, s.me)
  {
  }

  /** In every run the invariant stays, whoever interleaves, and accounted jobs stay accounted. */
  lemma {:induction false} InvRun(w: World, s: Setup, steps: seq<Step>)
    requires Inv(w, s) && Legal(w, s, steps)
    ensures Inv(Run(w, steps), s) && Later(w, Run(w, steps), s.me)
    decreases |steps|
  {
    if steps != [] {
      InvStep(w, s, steps[0]);
      LaterStep(w, s, steps[0]);
      InvRun(Apply(w, steps[0]), s, steps[1..]);
      LaterThenLater(w, Apply(w, steps[0]), Run(w, steps), s.me);
    }
  }

  /** No settlement is lost: from an empty state file, after any interleaving of chain moves,
      reconciler, scheduler, tracker and seed, every completion event of this worker between the scan
      start and the cursor is pending or settled for good; pending ids are unique. */
  lemma NoSettlementLost(c: Chain, s: Setup, steps: seq<Step>)
    requires Sound(c, s.me) && Legal(World(c, EmptySnapshot), s, steps) && s.origin >= 1
    ensures var w := Run(World(c, EmptySnapshot), steps);
            && Unique(w.snap.pending)
            && forall e :: e in w.chain.events && e.worker == s.me && s.origin <= e.block <= w.snap.cursor ==>
                 || (exists i :: 0 <= i < |w.snap.pending| && w.snap.pending[i].id == e.job)
                 || (e.job in w.chain.jobs
                     && var job := w.chain.jobs[e.job];
                        job.state.Released? || job.state.TimedOut? || (job.state.Resolved? && job.escrow == 0))
  {
    InvRun(World(c, EmptySnapshot), s, steps);
  }

  lemma {:induction false} RunThen(w: World, s: Setup, steps: seq<Step>, step: Step)
    requires Legal(w, s, steps) && Enabled(Run(w, steps), s, step)
    ensures Legal(w, s, steps + [step]) && Run(w, steps + [step]) == Apply(Run(w, steps), step)
    decreases |steps|
  {
    if steps == [] {
      assert ([] + [step])[1..] == [];
    } else {
      assert (steps + [step])[1..] == steps[1..] + [step];
      RunThen(Apply(w, steps[0]), s, steps[1..], step);
    }
  }

  lemma {:induction false} RunSplit(w: World, s: Setup, first: seq<Step>, rest: seq<Step>)
    requires Legal(w, s, first + rest)
    ensures Legal(Run(w, first), s, rest) && Run(w, first + rest) == Run(Run(w, first), rest)
    decreases |first|
  {
    if first == [] {
      assert first + rest == rest;
    } else {
      assert (first + rest)[1..] == first[1..] + rest;
      RunSplit(Apply(w, first[0]), s, first[1..], rest);
    }
  }

  // ---------------------------------------------------------------- the world as the code meets it

  datatype Sent = Ok | Paused | Reverted

  /** The answer to one release transaction, the head time it was sent at, and the states its jobs had last
      been read in. */
  datatype Reply = Reply(ids: seq<nat>, sent: Sent, at: int, read: map<nat, JobInfo>)

  /** What this process was told. Only the chain client and the store below write it.
      `answers`: the last state each job was read in; none where the last read failed.
      `asked`, `missed`: the jobs looked up, and those of them whose look-up failed.
      `replies`: the release transactions; `released`: the jobs of those answered Ok;
      `reverted`: the jobs whose own transaction reverted.
      `hitches` counts what did not go through: failed reads and writes, transactions not answered Ok.
      `waits` counts the jobs read as nothing to do about yet. */
  datatype Log = Log(answers: map<nat, JobInfo>, asked: multiset<nat>, missed: multiset<nat>, replies: seq<Reply>,
                     released: multiset<nat>, reverted: multiset<nat>, hitches: nat, waits: nat)

  const EmptyLog := Log(map[], multiset{}, multiset{}, [], multiset{}, multiset{}, 0, 0)

  function Noted(l: Log, ok: bool): Log {
    if ok then l else l.(hitches := l.hitches + 1)
  }

  function LookedUp(l: Log, id: nat, info: Option<JobInfo>, me: nat, window: int, now: int): Log {
    match info
    case None =>
      l.(answers := l.answers - {id}, asked := l.asked + multiset{id}, missed := l.missed + multiset{id}, hitches := l.hitches + 1)
    case Some(i) =>
      l.(answers := l.answers[id := i], asked := l.asked + multiset{id},
         waits := l.waits + if Bin(i, me, window, now).Keep? then 1 else 0)
  }

  function Replied(l: Log, ids: seq<nat>, sent: Sent, at: int): Log {
    l.(replies := l.replies + [Reply(ids, sent, at, l.answers)],
       released := l.released + if sent.Ok? then multiset(ids) else multiset{},
       hitches := l.hitches + if sent.Ok? then 0 else 1)
  }

  /** The store and the chain client. Every call lets the others run first. `quiet` says that the others
      leave the state file alone: the claims about whole cycles are about cycles run one at a time. */
  class Shared {
    const setup: Setup
    const confirmations: nat
    const quiet: bool
    const store: FileStore
    var chain: Chain
    ghost var log: Log
    /** The heads (number and time) read, and the last answers on the dispute window, the registration and
        the nonce. */
    ghost var heads: seq<(nat, int)>
    ghost var disputeWindow: int
    ghost var registered: Option<bool>
    ghost var nonce: Option<nat>
    ghost const start: World
    ghost var steps: seq<Step>

    ghost function Now(): World
      reads this, store
    {
      World(chain, store.snap)
    }

    /** The time of the last head read, and the dispute window in force, in seconds. */
    ghost function HeadTime(): int
      reads `heads
    {
      if heads == [] then 0 else heads[|heads| - 1].1
    }

    ghost function Window(): int
      reads `disputeWindow
    {
      if setup.windowOverride > 0 then Seconds(setup.windowOverride) else disputeWindow
    }

    /** What happened so far is a legal run. */
    ghost predicate Valid()
      reads this, store
    {
      && Inv(start, setup)
      && Legal(start, setup, steps)
      && Run(start, steps) == Now()
      && Inv(Now(), setup)
    }

    constructor (setup: Setup, confirmations: nat, quiet: bool, store: FileStore, chain: Chain)
      requires store.snap == EmptySnapshot && Sound(chain, setup.me) && setup.origin >= 1
      ensures Valid() && steps == [] && log == EmptyLog && Now() == World(chain, EmptySnapshot)
      ensures this.setup == setup && this.confirmations == confirmations && this.quiet == quiet && this.store == store
    {
      this.setup, this.confirmations, this.quiet, this.store, this.chain := setup, confirmations, quiet, store, chain;
      this.start, this.steps := World(chain, EmptySnapshot), [];
      this.log, this.heads, this.disputeWindow, this.registered, this.nonce := EmptyLog, [], 0, None, None;
    }

    lemma Still()
      requires Valid()
      ensures Later(Now(), Now(), setup.me)
    {
      LaterNow(Now(), setup);
    }

    /** Own events lie where the key was used. */
    lemma EventsAbove(block: nat)
      requires Valid() && forall b :: b in chain.used ==> b > block
      ensures forall e :: e in chain.events && e.worker == setup.me ==> e.block > block
    {
    }

    lemma LaterTime(w: World)
      requires Later(w, Now(), setup.me)
      ensures w.chain.time <= chain.time
    {
    }

    /** The pending set as the store returns it: every job once, and each known to the chain. */
    lemma SnapshotKnown()
      requires Valid()
      ensures Unique(SortById(store.snap.pending)) && Unique(store.snap.pending)
      ensures forall j :: j in SortById(store.snap.pending) ==> j.id in chain.jobs
    {
      var p := store.snap.pending;
      SortKeepsUnique(p);
      forall j | j in SortById(p) ensures j.id in chain.jobs {
        assert Has(p, j.id);
      }
    }

    lemma StillKnown(w: World, p: seq<PendingJob>)
      requires Later(w, Now(), setup.me)
      ensures (forall j :: j in p ==> j.id in w.chain.jobs) ==> forall j :: j in p ==> j.id in chain.jobs
    {
    }

    /** A call during which only others acted. */
    twostate predicate Kept()
      reads this, store
    {
      Valid() && Later(old(Now()), Now(), setup.me) && (quiet ==> store.snap == old(store.snap))
    }

    /** The chain and the other processes; the contract is the model: any legal run. */
    method Others()
      requires Valid()
      modifies `chain, `steps, store
      ensures Inv(start, setup) && Legal(start, setup, steps) && Run(start, steps) == Now() && old(steps) <= steps
      ensures quiet ==> store.snap == old(store.snap)
    {
    }

    method Interleave()
      requires Valid()
      modifies `chain, `steps, store
      ensures Kept()
    {
      ghost var before := steps;
      ghost var was := Now();
      Others();
      assert steps == before + steps[|before|..];
      RunSplit(start, setup, before, steps[|before|..]);
      InvRun(was, setup, steps[|before|..]);
    }

    /** The bookkeeping of a store operation that was an enabled step. */
    ghost method Record(was: World, step: Step)
      requires Inv(start, setup) && Legal(start, setup, steps) && Run(start, steps) == was && Inv(was, setup)
      requires Enabled(was, setup, step) && Now() == Apply(was, step)
      modifies `steps
      ensures Valid() && Later(was, Now(), setup.me)
    {
      RunThen(start, setup, steps, step);
      InvStep(was, setup, step);
      LaterStep(was, setup, step);
      steps := steps + [step];
    }

    // -------------------------------------------------------------- chain client

    /** The block at `confirmations` below the head is final; the time is the newest block's. */
    method Head() returns (head: Option<(nat, int)>)
      requires Valid()
      modifies `chain, `steps, `log, `heads, store
      ensures Kept() && log == Noted(old(log), head.Some?)
      ensures heads == if head.Some? then old(heads) + [head.value] else old(heads)
      ensures head.Some? && head.value.0 >= confirmations ==> head.value.0 - confirmations <= chain.final
      ensures head.Some? ==> old(chain.time) <= head.value.1 <= chain.time
    {
      Interleave();
      var answered: bool := *;
      head := if answered then Some((chain.final + confirmations, chain.time)) else None;
      heads := if answered then heads + [(chain.final + confirmations, chain.time)] else heads;
      log := Noted(log, answered);
    }

    /** Filters over final blocks return every event in range; the contract is the model. */
    method FilterJobCompleted(lo: nat, hi: nat) returns (events: Option<seq<Event>>)
      requires Valid() && hi <= chain.final
      modifies `chain, `steps, `log, store
      ensures Kept() && log == Noted(old(log), events.Some?)
      ensures events.Some? ==>
                forall e :: e in events.value <==> e in chain.events && e.worker == setup.me && lo <= e.block <= hi
    {
      Interleave();
      events := None;
      log := Noted(log, false);
    }

    method GetJobState(id: nat) returns (info: Option<JobInfo>)
      requires Valid()
      modifies `chain, `steps, `log, store
      ensures Kept()
      ensures info.Some? ==> info.value == Lookup(chain, id)
      ensures log == LookedUp(old(log), id, info, setup.me, Window(), HeadTime())
    {
      Interleave();
      var answered: bool := *;
      info := if answered then Some(Lookup(chain, id)) else None;
      log := LookedUp(log, id, info, setup.me, Window(), HeadTime());
    }

    /** In seconds. */
    method GetDisputeWindow() returns (window: Option<int>)
      requires Valid()
      modifies `chain, `steps, `log, `disputeWindow, store
      ensures Kept() && log == Noted(old(log), window.Some?)
      ensures disputeWindow == if window.Some? then window.value else old(disputeWindow)
    {
      Interleave();
      window := *;
      disputeWindow := if window.Some? then window.value else disputeWindow;
      log := Noted(log, window.Some?);
    }

    method IsWorkerRegistered() returns (answer: Option<bool>)
      requires Valid()
      modifies `chain, `steps, `log, `registered, store
      ensures Kept() && log == Noted(old(log), answer.Some?) && registered == answer
    {
      Interleave();
      answer := *;
      registered := answer;
      log := Noted(log, answer.Some?);
    }

    /** How many transactions the key had sent by a final block; the contract is the model. */
    method NonceAt(block: nat) returns (answer: Option<nat>)
      requires Valid() && block <= chain.final
      modifies `chain, `steps, `log, `nonce, store
      ensures Kept() && log == Noted(old(log), answer.Some?) && nonce == answer
      ensures answer.Some? ==> (answer.value == 0 <==> forall b :: b in chain.used ==> b > block)
    {
      Interleave();
      answer, nonce := None, None;
      log := Noted(log, false);
    }

    /** The batch transaction. Only jobs last read as this worker's, and completed and past the dispute window
        or resolved with something in escrow, may be sent; success means the contract released every job of it. */
    method ReleaseJobs(ids: seq<nat>) returns (sent: Sent)
      requires Valid()
      requires forall id :: id in ids ==>
                 && id in log.answers && log.answers[id].worker == setup.me
                 && (|| (log.answers[id].state.Completed? && log.answers[id].completedAt + Window() <= HeadTime())
                     || (log.answers[id].state.Resolved? && log.answers[id].escrow > 0))
      modifies `chain, `steps, `log, store
      ensures Kept()
      ensures log == Replied(old(log), ids, sent, HeadTime())
      ensures sent.Ok? ==> forall id :: id in ids ==> Lookup(chain, id).state.Released?
    {
      Interleave();
      sent := *;
      if sent.Ok? && exists id :: id in ids && !Lookup(chain, id).state.Released? {
        sent := Reverted;
      }
      log := Replied(log, ids, sent, HeadTime());
    }

    /** The transaction for one job. */
    method ReleaseJob(id: nat) returns (sent: Sent)
      requires Valid()
      requires id in log.answers && log.answers[id].worker == setup.me
      requires || (log.answers[id].state.Completed? && log.answers[id].completedAt + Window() <= HeadTime())
               || (log.answers[id].state.Resolved? && log.answers[id].escrow > 0)
      modifies `chain, `steps, `log, store
      ensures Kept()
      ensures log == Replied(old(log), [id], sent, HeadTime())
                     .(reverted := old(log.reverted) + if sent.Reverted? then multiset{id} else multiset{})
      ensures sent.Ok? ==> Lookup(chain, id).state.Released?
    {
      Interleave();
      sent := *;
      if sent.Ok? && !Lookup(chain, id).state.Released? {
        sent := Reverted;
      }
      log := Replied(log, [id], sent, HeadTime())
             .(reverted := log.reverted + if sent.Reverted? then multiset{id} else multiset{});
    }

    // -------------------------------------------------------------- the store

    method AddEligible(id: nat, completedAt: int) returns (ok: bool)
      requires Valid() && id in chain.jobs
      modifies `chain, `steps, `log, store
      ensures Valid() && Later(old(Now()), Now(), setup.me) && log == Noted(old(log), ok)
      ensures ok ==> Has(store.snap.pending, id)
      ensures quiet ==> store.snap == if ok then old(store.snap).(pending := Added(old(store.snap.pending), id, completedAt))
                                      else old(store.snap)
    {
      Interleave();
      ghost var was := Now();
      ok := store.AddEligible(id, completedAt);
      log := Noted(log, ok);
      if ok {
        HasAdded(was.snap.pending, id, completedAt, id);
        Record(was, Add(id, completedAt));
      }
    }

    method Remove(ids: set<nat>) returns (ok: bool)
      requires Valid()
      requires Cleared(chain, setup.me, ids)
      modifies `chain, `steps, `log, store
      ensures Valid() && Later(old(Now()), Now(), setup.me) && log == Noted(old(log), ok) && (store.reliable ==> ok)
      ensures quiet ==> store.snap == if ok then old(store.snap).(pending := Without(old(store.snap.pending), ids))
                                      else old(store.snap)
    {
      Interleave();
      ghost var was := Now();
      ok := store.Remove(ids);
      log := Noted(log, ok);
      if ok {
        Record(was, Drop(ids));
      }
    }

    method RecordFailure(id: nat, until: int) returns (ok: bool)
      requires Valid()
      modifies `chain, `steps, `log, store
      ensures Valid() && Later(old(Now()), Now(), setup.me) && log == Noted(old(log), ok) && (store.reliable ==> ok)
      ensures quiet ==> store.snap == if ok then old(store.snap).(pending := Bumped(old(store.snap.pending), id, until))
                                      else old(store.snap)
    {
      Interleave();
      ghost var was := Now();
      ok := store.RecordFailure(id, until);
      log := Noted(log, ok);
      if ok {
        Record(was, Fail(id, until));
      }
    }

    method Pending() returns (out: Option<seq<PendingJob>>)
      requires Valid()
      modifies `chain, `steps, `log, store
      ensures Kept() && log == Noted(old(log), out.Some?) && (store.reliable ==> out.Some?)
      ensures out.Some? ==> out.value == SortById(store.snap.pending)
    {
      Interleave();
      out := store.Pending();
      log := Noted(log, out.Some?);
    }

    method GetReconcileBlock() returns (block: Option<nat>)
      requires Valid()
      modifies `chain, `steps, `log, store
      ensures Kept() && log == Noted(old(log), block.Some?)
      ensures block.Some? ==> block.value == store.snap.cursor
    {
      Interleave();
      block := store.GetReconcileBlock();
      log := Noted(log, block.Some?);
    }

    /** Every own event of blocks lo..block must be accounted for, with no gap below lo. */
    method SetReconcileBlock(ghost lo: nat, block: nat) returns (ok: bool)
      requires Valid() && block <= chain.final
      requires lo <= store.snap.cursor + 1 || lo <= setup.origin
      requires forall e :: e in chain.events && e.worker == setup.me && lo <= e.block <= block ==> Accounted(Now(), e.job)
      modifies `chain, `steps, `log, store
      ensures Valid() && Later(old(Now()), Now(), setup.me) && log == Noted(old(log), ok)
      ensures ok ==> store.snap.cursor == block
      ensures quiet ==> store.snap == if ok then old(store.snap).(cursor := block) else old(store.snap)
    {
      Interleave();
      ghost var was := Now();
      ok := store.SetReconcileBlock(block);
      log := Noted(log, ok);
      if ok {
        Record(was, Advance(block));
      }
    }

    method SeedReconcileBlock(block: nat) returns (seeded: bool, ok: bool)
      requires Valid() && block <= chain.final && forall b :: b in chain.used ==> b > block
      modifies `chain, `steps, `log, store
      ensures Valid() && Later(old(Now()), Now(), setup.me) && log == Noted(old(log), ok)
      ensures seeded ==> store.snap.cursor == block
      ensures quiet ==> (seeded <==> ok && old(store.snap.cursor) == 0)
      ensures quiet ==> store.snap == if seeded then old(store.snap).(cursor := block) else old(store.snap)
    {
      Interleave();
      ghost var was := Now();
      seeded, ok := store.SeedReconcileBlock(block);
      log := Noted(log, ok);
      if seeded {
        Record(was, Seed(block));
      }
    }

    method GetNextAllowedAttempt() returns (ts: Option<int>)
      requires Valid()
      modifies `chain, `steps, `log, store
      ensures Kept() && log == Noted(old(log), ts.Some?) && (store.reliable ==> ts.Some?)
      ensures ts.Some? ==> ts.value == store.snap.nextAllowed
    {
      Interleave();
      ts := store.GetNextAllowedAttempt();
      log := Noted(log, ts.Some?);
    }

    method SetNextAllowedAttempt(ts: int) returns (ok: bool)
      requires Valid()
      modifies `chain, `steps, `log, store
      ensures Valid() && Later(old(Now()), Now(), setup.me) && log == Noted(old(log), ok) && (store.reliable ==> ok)
      ensures quiet ==> store.snap == if ok then old(store.snap).(nextAllowed := ts) else old(store.snap)
    {
      Interleave();
      ghost var was := Now();
      ok := store.SetNextAllowedAttempt(ts);
      log := Noted(log, ok);
      if ok {
        Record(was, Stamp(was.snap.lastReleaseTs, ts));
      }
    }

    method GetLastReleaseTs() returns (ts: Option<int>)
      requires Valid()
      modifies `chain, `steps, `log, store
      ensures Kept() && log == Noted(old(log), ts.Some?) && (store.reliable ==> ts.Some?)
      ensures ts.Some? ==> ts.value == store.snap.lastReleaseTs
    {
      Interleave();
      ts := store.GetLastReleaseTs();
      log := Noted(log, ts.Some?);
    }

    method SetLastReleaseTs(ts: int) returns (ok: bool)
      requires Valid()
      modifies `chain, `steps, `log, store
      ensures Valid() && Later(old(Now()), Now(), setup.me) && log == Noted(old(log), ok) && (store.reliable ==> ok)
      ensures quiet ==> store.snap == if ok then old(store.snap).(lastReleaseTs := ts) else old(store.snap)
    {
      Interleave();
      ghost var was := Now();
      ok := store.SetLastReleaseTs(ts);
      log := Noted(log, ok);
      if ok {
        Record(was, Stamp(ts, was.snap.nextAllowed));
      }
    }
  }
}

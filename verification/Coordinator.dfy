/**
 Cross-class exclusion of broadcasts from one signing key
 (internal/chain/subpool_coordinator.go). A class may enter only while the other
 class has nothing in flight; a caller that must wait snapshots the notify channel
 under the mutex and selects on it after unlocking.

 A channel is named by its number; `closed` is the set of closed ones. The step
 machine `Sys` splits Enter into its two halves, and Done into its compare-and-swap
 and its locked release, so every interleaving of callers, late Dones, janitor
 passes and cancellations is a run.
 */
module Coordinators {
  import opened Common

  datatype TxClass = Blob | Legacy

  function Other(class_: TxClass): TxClass {
    if class_.Blob? then Legacy else Blob
  }

  /** In-flight entries (id to entry time) of both classes, the last token id, the current
      notify channel, the closed channels, and whether a closed channel was closed again. */
  datatype Coord = Coord(blob: map<nat, int>, legacy: map<nat, int>, nextID: nat,
                         notify: nat, closed: set<nat>, panicked: bool)

  const Empty := Coord(map[], map[], 0, 0, {}, false)

  function In(c: Coord, class_: TxClass): map<nat, int> {
    if class_.Blob? then c.blob else c.legacy
  }

  function With(c: Coord, class_: TxClass, entries: map<nat, int>): Coord {
    if class_.Blob? then c.(blob := entries) else c.(legacy := entries)
  }

  function Admit(c: Coord, class_: TxClass, now: int): Coord {
    With(c, class_, In(c, class_)[c.nextID + 1 := now]).(nextID := c.nextID + 1)
  }

  /** close(notify) followed by make(chan). */
  function Renew(c: Coord): Coord {
    c.(panicked := c.panicked || c.notify in c.closed, closed := c.closed + {c.notify}, notify := c.notify + 1)
  }

  function Release(c: Coord, class_: TxClass, id: nat): Coord {
    var c' := With(c, class_, In(c, class_) - {id});
    if In(c', class_) == map[] then Renew(c') else c'
  }

  function Survivors(entries: map<nat, int>, cutoff: int): map<nat, int> {
    map id | id in entries && entries[id] >= cutoff :: entries[id]
  }

  /** The janitor pass: evict entries older than the cutoff, notify if that emptied a class. */
  function Reap(c: Coord, cutoff: int): Coord {
    var b, l := Survivors(c.blob, cutoff), Survivors(c.legacy, cutoff);
    var c' := c.(blob := b, legacy := l);
    if (b == map[] && c.blob != map[]) || (l == map[] && c.legacy != map[]) then Renew(c') else c'
  }

  /** Synthetic blob entries for what a previous process left pending. */
  function Seed(c: Coord, gap: nat, now: int): Coord
    decreases gap
  {
    if gap == 0 then c else Seed(Admit(c, Blob, now), gap - 1, now)
  }

  ghost predicate Exclusive(c: Coord) {
    c.blob == map[] || c.legacy == map[]
  }

  /** Everything but exclusion. */
  ghost predicate Tidy(c: Coord) {
    && !c.panicked
    && (forall ch: nat :: ch in c.closed <==> ch < c.notify)
    && (forall id :: id in c.blob ==> 1 <= id <= c.nextID && id !in c.legacy)
    && (forall id :: id in c.legacy ==> 1 <= id <= c.nextID)
  }

  ghost predicate Good(c: Coord) {
    Tidy(c) && Exclusive(c)
  }

  /** What the rest of the program may do to the coordinator between two looks at it: in
      particular no class drains without a new notify channel. Reflexive and transitive. */
  ghost predicate Evolves(c: Coord, c': Coord) {
    && c.nextID <= c'.nextID
    && c.notify <= c'.notify
    && (c.notify == c'.notify ==>
          && (c.blob != map[] ==> c'.blob != map[])
          && (c.legacy != map[] ==> c'.legacy != map[]))
  }

  lemma AdmitGood(c: Coord, class_: TxClass, now: int)
    requires Good(c) && In(c, Other(class_)) == map[]
    ensures var c' := Admit(c, class_, now);
            Good(c') && Evolves(c, c') && c.nextID + 1 in In(c', class_)
  {
    assert c.nextID + 1 in In(Admit(c, class_, now), class_);
  }

  lemma ReleaseGood(c: Coord, class_: TxClass, id: nat)
    requires Good(c)
    ensures Good(Release(c, class_, id)) && Evolves(c, Release(c, class_, id))
  {
  }

  lemma ReapGood(c: Coord, cutoff: int)
    requires Good(c)
    ensures Good(Reap(c, cutoff)) && Evolves(c, Reap(c, cutoff))
  {
  }

  lemma {:induction false} SeedGood(c: Coord, gap: nat, now: int)
    requires Good(c) && c.legacy == map[]
    ensures Good(Seed(c, gap, now)) && Evolves(c, Seed(c, gap, now)) && Seed(c, gap, now).legacy == map[]
    decreases gap
  {
    if gap > 0 {
      AdmitGood(c, Blob, now);
      SeedGood(Admit(c, Blob, now), gap - 1, now);
    }
  }

  lemma AdmitSize(c: Coord, now: int)
    requires forall id :: id in c.blob ==> id <= c.nextID
    ensures var c' := Admit(c, Blob, now);
            && |c'.blob| == |c.blob| + 1 && c'.nextID == c.nextID + 1
            && forall id :: id in c'.blob ==> id <= c'.nextID
  {
    OneKeyMore(c.blob, c.nextID + 1, now);
  }

  /** Seeding adds one blob entry for each nonce of the gap. */
  lemma {:induction false} SeedSize(c: Coord, gap: nat, now: int)
    requires forall id :: id in c.blob ==> id <= c.nextID
    ensures |Seed(c, gap, now).blob| == |c.blob| + gap && Seed(c, gap, now).nextID == c.nextID + gap
    decreases gap
  {
    if gap > 0 {
      AdmitSize(c, now);
      hide Admit;
      SeedSize(Admit(c, Blob, now), gap - 1, now);
    }
  }

  /** The new entries carry the time of seeding, and nothing else changes. */
  lemma {:induction false} SeedAdds(c: Coord, gap: nat, now: int)
    requires forall id :: id in c.blob ==> id <= c.nextID
    ensures var c' := Seed(c, gap, now);
            && c'.legacy == c.legacy && c'.notify == c.notify && |c'.blob| == |c.blob| + gap
            && (forall id :: id in c.blob ==> id in c'.blob && c'.blob[id] == c.blob[id])
            && (forall id :: id in c'.blob && id !in c.blob ==> c'.blob[id] == now)
    decreases gap
  {
    if gap > 0 {
      AdmitSize(c, now);
      SeedAdds(Admit(c, Blob, now), gap - 1, now);
    }
  }

  lemma {:induction false} SeedKeepsLegacy(c: Coord, gap: nat, now: int)
    ensures Seed(c, gap, now).legacy == c.legacy
    ensures gap > 0 ==> Seed(c, gap, now).blob != map[]
    ensures gap == 0 ==> Seed(c, gap, now) == c
    decreases gap
  {
    if gap > 0 {
      SeedKeepsLegacy(Admit(c, Blob, now), gap - 1, now);
      if gap == 1 {
        assert c.nextID + 1 in Admit(c, Blob, now).blob;
      }
    }
  }

  /** Seed does not look at the legacy class: seeding a consistent coordinator keeps the two
      classes exclusive exactly when there is nothing to seed or no legacy entry in flight. */
  lemma SeedExclusiveIff(c: Coord, gap: nat, now: int)
    requires Good(c)
    ensures Exclusive(Seed(c, gap, now)) <==> gap == 0 || c.legacy == map[]
  {
    SeedKeepsLegacy(c, gap, now);
  }

  // ---------------------------------------------------------------- interleavings

  /** A call of Enter, between its check under the mutex and its select. */
  datatype Call = Checking(class_: TxClass) | Waiting(class_: TxClass, ch: nat)

  datatype Phase = Live | Releasing | Settled

  datatype Token = Token(class_: TxClass, phase: Phase)

  datatype Sys = Sys(c: Coord, calls: map<nat, Call>, tokens: map<nat, Token>)

  datatype Step =
    | Enter(t: nat, class_: TxClass)
    | Check(t: nat, now: int)
    | Wake(t: nat)
    | Cancel(t: nat)
    | Done(id: nat)
    | Free(id: nat)
    | Janitor(cutoff: int)
    | Startup(gap: nat, now: int)

  ghost predicate Enabled(s: Sys, step: Step) {
    match step
    case Enter(t, _) => t !in s.calls
    case Check(t, _) => t in s.calls && s.calls[t].Checking?
    case Wake(t) => t in s.calls && s.calls[t].Waiting? && s.calls[t].ch in s.c.closed
    case Cancel(t) => t in s.calls && s.calls[t].Waiting?
    case Done(id) => id in s.tokens
    case Free(id) => id in s.tokens && s.tokens[id].phase.Releasing?
    case Janitor(_) => true
    // service start: nothing legacy has been broadcast yet
    case Startup(_, _) => s.c.legacy == map[]
  }

  ghost function Apply(s: Sys, step: Step): Sys
    requires Enabled(s, step)
  {
    match step
    case Enter(t, class_) => s.(calls := s.calls[t := Checking(class_)])
    case Check(t, now) =>
      var class_ := s.calls[t].class_;
      if In(s.c, Other(class_)) == map[] then
        Sys(Admit(s.c, class_, now), s.calls - {t}, s.tokens[s.c.nextID + 1 := Token(class_, Live)])
      else s.(calls := s.calls[t := Waiting(class_, s.c.notify)])
    case Wake(t) => s.(calls := s.calls[t := Checking(s.calls[t].class_)])
    case Cancel(t) => s.(calls := s.calls - {t})
    case Done(id) =>
      if s.tokens[id].phase.Live? then s.(tokens := s.tokens[id := s.tokens[id].(phase := Releasing)]) else s
    case Free(id) =>
      s.(c := Release(s.c, s.tokens[id].class_, id), tokens := s.tokens[id := s.tokens[id].(phase := Settled)])
    case Janitor(cutoff) => s.(c := Reap(s.c, cutoff))
    case Startup(gap, now) => s.(c := Seed(s.c, gap, now))
  }

  ghost predicate Legal(s: Sys, steps: seq<Step>)
    decreases |steps|
  {
    steps != [] ==> Enabled(s, steps[0]) && Legal(Apply(s, steps[0]), steps[1..])
  }

  ghost function Run(s: Sys, steps: seq<Step>): Sys
    requires Legal(s, steps)
    decreases |steps|
  {
    if steps == [] then s else Run(Apply(s, steps[0]), steps[1..])
  }

  const Start := Sys(Empty, map[], map[])

  /** A waiter's channel has been closed, or it is the current one and the other class is busy. */
  ghost predicate Covered(c: Coord, call: Call) {
    call.Waiting? ==> call.ch in c.closed || (call.ch == c.notify && In(c, Other(call.class_)) != map[])
  }

  ghost predicate Inv(s: Sys) {
    && Good(s.c)
    && (forall t :: t in s.calls ==> Covered(s.c, s.calls[t]))
    && (forall id :: id in s.tokens ==> 1 <= id <= s.c.nextID)
    // an entry that carries a token's id is that token's own, and a settled token has none
    && (forall id, k :: id in s.tokens && id in In(s.c, k) ==>
          s.tokens[id].class_ == k && !s.tokens[id].phase.Settled?)
  }

  lemma CallsStayCovered(s: Sys, c': Coord)
    requires Good(s.c) && Good(c') && Evolves(s.c, c')
    requires forall t :: t in s.calls ==> Covered(s.c, s.calls[t])
    ensures forall t :: t in s.calls ==> Covered(c', s.calls[t])
  {
    forall t | t in s.calls ensures Covered(c', s.calls[t]) {
      assert Covered(s.c, s.calls[t]);
    }
  }

  lemma {:induction false} SeedTokens(c: Coord, gap: nat, now: int)
    ensures var c' := Seed(c, gap, now);
            c'.closed == c.closed && forall id :: id in c'.blob && id <= c.nextID ==> id in c.blob
    decreases gap
  {
    if gap > 0 {
      SeedTokens(Admit(c, Blob, now), gap - 1, now);
    }
  }

  lemma InvCheck(s: Sys, t: nat, now: int)
    requires Inv(s) && Enabled(s, Check(t, now))
    ensures Inv(Apply(s, Check(t, now)))
  {
    if In(s.c, Other(s.calls[t].class_)) == map[] {
      AdmitGood(s.c, s.calls[t].class_, now);
      CallsStayCovered(s, Admit(s.c, s.calls[t].class_, now));
    }
  }

  lemma InvFree(s: Sys, id: nat)
    requires Inv(s) && Enabled(s, Free(id))
    ensures Inv(Apply(s, Free(id)))
  {
    var c' := Release(s.c, s.tokens[id].class_, id);
    ReleaseGood(s.c, s.tokens[id].class_, id);
    CallsStayCovered(s, c');
    assert forall k :: In(c', k) == if k == s.tokens[id].class_ then In(s.c, k) - {id} else In(s.c, k);
  }

  lemma InvJanitor(s: Sys, cutoff: int)
    requires Inv(s)
    ensures Inv(Apply(s, Janitor(cutoff)))
  {
    ReapGood(s.c, cutoff);
    CallsStayCovered(s, Reap(s.c, cutoff));
    assert forall k :: In(Reap(s.c, cutoff), k) == Survivors(In(s.c, k), cutoff);
  }

  lemma InvStartup(s: Sys, gap: nat, now: int)
    requires Inv(s) && Enabled(s, Startup(gap, now))
    ensures Inv(Apply(s, Startup(gap, now)))
  {
    SeedGood(s.c, gap, now);
    SeedTokens(s.c, gap, now);
    CallsStayCovered(s, Seed(s.c, gap, now));
  }

  lemma InvStep(s: Sys, step: Step)
    requires Inv(s) && Enabled(s, step)
    ensures Inv(Apply(s, step))
  {
    match step
    case Check(t, now) => InvCheck(s, t, now);
    case Free(id) => InvFree(s, id);
    case Janitor(cutoff) => InvJanitor(s, cutoff);
    case Startup(gap, now) => InvStartup(s, gap, now);
    case _ =>
  }

  lemma {:induction false} InvRun(s: Sys, steps: seq<Step>)
    requires Inv(s) && Legal(s, steps)
    ensures Inv(Run(s, steps))
    decreases |steps|
  {
    if steps != [] {
      InvStep(s, steps[0]);
      InvRun(Apply(s, steps[0]), steps[1..]);
    }
  }

  /** In every reachable state the two classes are never both in flight and no channel was
      closed twice. */
  lemma NeverBothClasses(steps: seq<Step>)
    requires Legal(Start, steps)
    ensures var c := Run(Start, steps).c; (c.blob == map[] || c.legacy == map[]) && !c.panicked
  {
    InvRun(Start, steps);
  }

  /** No lost wakeup. A caller still holding an open channel is waiting on a non-empty other
      class; and once that class is empty the caller's channel is closed, so it can wake, and
      its next check admits it unless someone else entered first. */
  lemma NoLostWakeup(steps: seq<Step>, t: nat)
    requires Legal(Start, steps)
    requires t in Run(Start, steps).calls && Run(Start, steps).calls[t].Waiting?
    ensures var s := Run(Start, steps); var w := s.calls[t];
            && (w.ch !in s.c.closed ==> In(s.c, Other(w.class_)) != map[])
            && (In(s.c, Other(w.class_)) == map[] ==>
                  && Enabled(s, Wake(t))
                  && forall now ::
                    var s1 := Apply(s, Wake(t));
                    Enabled(s1, Check(t, now)) && s.c.nextID + 1 in Apply(s1, Check(t, now)).tokens)
  {
    InvRun(Start, steps);
  }

  /** A Done that arrives late, after an eviction or twice, frees nobody else's entry: ids are never
      reused, a settled token does nothing, and freeing an id touches that id alone. */
  lemma LateDoneHarmless(steps: seq<Step>, id: nat, other: nat)
    requires Legal(Start, steps) && id != other
    requires Enabled(Run(Start, steps), Done(id))
    ensures var s := Run(Start, steps);
            && s.c.nextID + 1 !in s.tokens && s.c.nextID + 1 !in s.c.blob && s.c.nextID + 1 !in s.c.legacy
            && (!s.tokens[id].phase.Live? ==> Apply(s, Done(id)) == s)
            && (s.tokens[id].phase.Settled? ==> forall k :: id !in In(s.c, k))
            && (Enabled(s, Free(id)) ==>
                  forall k :: other in In(Apply(s, Free(id)).c, k) <==> other in In(s.c, k))
  {
    InvRun(Start, steps);
  }

  /** A slot is held from admission until its own token is freed, or the janitor takes it. */
  lemma {:induction false} SlotHeldUntilFreed(s: Sys, steps: seq<Step>, id: nat, k: TxClass)
    requires Inv(s) && Legal(s, steps) && id in s.tokens && id in In(s.c, k)
    requires forall i :: 0 <= i < |steps| ==> steps[i] != Free(id) && !steps[i].Janitor?
    ensures id in In(Run(s, steps).c, k)
    decreases |steps|
  {
    if steps != [] {
      var s1 := Apply(s, steps[0]);
      InvStep(s, steps[0]);
      if steps[0].Startup? {
        SeedMonotone(s.c, steps[0].gap, steps[0].now, id);
      }
      forall i | 0 <= i < |steps[1..]| ensures steps[1..][i] != Free(id) && !steps[1..][i].Janitor? {
        assert steps[1..][i] == steps[i + 1];
      }
      SlotHeldUntilFreed(s1, steps[1..], id, k);
    }
  }

  lemma {:induction false} SeedMonotone(c: Coord, gap: nat, now: int, id: nat)
    ensures id in c.blob ==> id in Seed(c, gap, now).blob
    ensures Seed(c, gap, now).legacy == c.legacy
    decreases gap
  {
    if gap > 0 {
      SeedMonotone(Admit(c, Blob, now), gap - 1, now, id);
    }
  }

  // ---------------------------------------------------------------- the objects

  /** The coordinator. The ghost fields are history: the token ids handed out and those whose token has not
      been settled; and, by the names callers enter under, the id each was admitted with and who was turned
      away. Only the locked half of Enter writes the last two. */
  class SubpoolCoordinator {
    var blob: map<nat, int>
    var legacy: map<nat, int>
    var nextID: nat
    var notify: nat
    var closed: set<nat>
    var orphanCount: nat
    ghost var issued: set<nat>
    ghost var live: set<nat>
    ghost var entered: map<nat, nat>
    ghost var turnedAway: set<nat>

    ghost function State(): Coord
      reads this
    {
      Coord(blob, legacy, nextID, notify, closed, false)
    }

    ghost predicate Valid()
      reads this
    {
      Booked() && Exclusive(State())
    }

    ghost predicate Booked()
      reads this
    {
      && Tidy(State())
      && live <= issued
      && (forall id :: id in issued ==> 1 <= id <= nextID)
      && (forall id :: id in issued && id !in live ==> id !in blob && id !in legacy)
      && (forall s :: s in entered ==> entered[s] in issued)
    }

    /** Nobody has entered, or tried to, under this name. */
    ghost predicate Unnamed(s: nat)
      reads `entered, `turnedAway
    {
      s !in entered && s !in turnedAway
    }

    constructor ()
      ensures Valid() && State() == Empty && live == {} && entered == map[] && turnedAway == {}
    {
      blob, legacy, nextID, notify, closed, orphanCount := map[], map[], 0, 0, {}, 0;
      issued, live, entered, turnedAway := {}, {}, map[], {};
    }

    /** close(c.notify); c.notify = make(chan struct{}). Closing a closed channel would panic. */
    method RenewNotify()
      requires notify !in closed
      modifies this`notify, this`closed
      ensures State() == Renew(old(State()))
    {
      closed := closed + {notify};
      notify := notify + 1;
    }

    /** The token of the slot admitted under this name, which its class holds without the other. */
    ghost predicate Admitted(token: BroadcastToken, class_: TxClass, s: nat)
      reads this, token
    {
      && token.coord == this && token.class_ == class_ && !token.settled && token.Valid()
      && token.entryID in In(State(), class_) && In(State(), Other(class_)) == map[]
      && s in entered && entered[s] == token.entryID
    }

    /** The half of Enter under the mutex: admit, or snapshot the notify channel. */
    method TryEnter(class_: TxClass, now: int, ghost s: nat) returns (token: BroadcastToken?, ch: nat)
      requires Valid() && s !in entered
      modifies this
      ensures Valid() && Evolves(old(State()), State())
      ensures In(old(State()), Other(class_)) == map[] ==>
                && token != null && fresh(token) && Admitted(token, class_, s)
                && token.entryID == old(nextID) + 1
                && State() == Admit(old(State()), class_, now)
                && In(State(), class_)[token.entryID] == now
                && (forall k, id :: id != token.entryID ==>
                      (id in In(State(), k) <==> id in In(old(State()), k))
                      && (id in In(State(), k) ==> In(State(), k)[id] == In(old(State()), k)[id]))
                && issued == old(issued) + {token.entryID} && live == old(live) + {token.entryID}
                && entered == old(entered)[s := token.entryID] && turnedAway == old(turnedAway)
      ensures In(old(State()), Other(class_)) != map[] ==>
                && token == null && ch == notify && State() == old(State()) && issued == old(issued) && live == old(live)
                && entered == old(entered) && turnedAway == old(turnedAway) + {s}
    {
      var busy := if class_.Blob? then legacy != map[] else blob != map[];
      ch := notify;
      if busy {
        turnedAway := turnedAway + {s};
        return null, ch;
      }
      AdmitGood(State(), class_, now);
      hide Evolves;
      nextID := nextID + 1;
      if class_.Blob? {
        blob := blob[nextID := now];
      } else {
        legacy := legacy[nextID := now];
      }
      issued, live, entered := issued + {nextID}, live + {nextID}, entered[s := nextID];
      token := new BroadcastToken(this, nextID, class_);
    }

    /** Enter: `patience` is how many wakeups the caller's context outlives. A caller that gives up
        on a channel that is still open gives up while the other class is in flight, and nobody gives up
        without having been turned away. */
    method EnterClass(class_: TxClass, now: int, patience: nat, ghost mine: set<nat>, ghost s: nat)
      returns (token: BroadcastToken?, ch: nat)
      requires Valid() && mine <= issued && Unnamed(s)
      modifies this
      ensures Valid() && Evolves(old(State()), State()) && mine <= issued
      ensures forall id :: id in mine ==> (id in live <==> id in old(live))
      ensures token != null ==> fresh(token) && Admitted(token, class_, s) && token.entryID !in mine
      ensures token == null ==> s !in entered && s in turnedAway
      ensures token == null ==> ch in closed || In(State(), Other(class_)) != map[]
    {
      hide SubpoolCoordinator.Admitted;
      var left := patience;
      token, ch := TryEnter(class_, now, s);
      while token == null
        invariant Valid() && Evolves(old(State()), State()) && mine <= issued
        invariant forall id :: id in mine ==> (id in live <==> id in old(live))
        invariant token == null ==> ch == notify && In(State(), Other(class_)) != map[]
        invariant token == null ==> s !in entered && s in turnedAway
        invariant token != null ==> fresh(token) && Admitted(token, class_, s) && token.entryID !in mine
        decreases left, token == null
      {
        Others(mine, {s});
        if ch !in closed || left == 0 {
          return null, ch;
        }
        left := left - 1;
        token, ch := TryEnter(class_, now, s);
      }
    }

    method ReleaseEntry(class_: TxClass, id: nat)
      requires Valid() && id in issued
      requires forall k :: id in In(State(), k) ==> k == class_
      modifies this
      ensures Valid() && State() == Release(old(State()), class_, id)
      ensures live == old(live) - {id} && issued == old(issued) && entered == old(entered) && turnedAway == old(turnedAway)
    {
      ReleaseGood(State(), class_, id);
      assert id !in In(State(), Other(class_));
      live := live - {id};
      if class_.Blob? {
        blob := blob - {id};
        if blob == map[] {
          RenewNotify();
        }
      } else {
        legacy := legacy - {id};
        if legacy == map[] {
          RenewNotify();
        }
      }
    }

    /** Seed looks at neither class. The coordinator stays consistent exactly when there is nothing to seed or
        nothing legacy in flight, as at startup. */
    method SeedPending(pendingNonce: nat, latestNonce: nat, now: int)
      requires Valid()
      modifies this
      ensures Booked() && live == old(live) && issued == old(issued) && entered == old(entered) && turnedAway == old(turnedAway)
      ensures State() == Seed(old(State()), if pendingNonce <= latestNonce then 0 else pendingNonce - latestNonce, now)
      ensures Valid() <==> pendingNonce <= latestNonce || old(legacy) == map[]
      ensures legacy == old(legacy) && notify == old(notify)
      ensures |blob| == |old(blob)| + if pendingNonce <= latestNonce then 0 else pendingNonce - latestNonce
      ensures forall id :: id in old(blob) ==> id in blob && blob[id] == old(blob)[id]
      ensures forall id :: id in blob && id !in old(blob) ==> blob[id] == now
    {
      SeedExclusiveIff(State(), if pendingNonce <= latestNonce then 0 else pendingNonce - latestNonce, now);
      SeedAdds(State(), if pendingNonce <= latestNonce then 0 else pendingNonce - latestNonce, now);
      if pendingNonce <= latestNonce {
        return;
      }
      hide Seed, Exclusive, Tidy;
      AddEntries(pendingNonce - latestNonce, now);
    }

    /** The loop of Seed. */
    method AddEntries(gap: nat, now: int)
      requires Booked()
      modifies this
      ensures Booked() && live == old(live) && issued == old(issued) && entered == old(entered) && turnedAway == old(turnedAway)
      ensures State() == Seed(old(State()), gap, now)
    {
      var i := 0;
      ghost var was := State();
      while i < gap
        invariant 0 <= i <= gap
        invariant Booked() && live == old(live) && issued == old(issued)
        invariant entered == old(entered) && turnedAway == old(turnedAway)
        invariant Seed(State(), gap - i, now) == Seed(was, gap, now)
      {
        nextID := nextID + 1;
        blob := blob[nextID := now];
        i := i + 1;
      }
    }

    /** The janitor's scan of one class: drops the stale entries one by one. */
    method Evict(entries: map<nat, int>, cutoff: int) returns (kept: map<nat, int>, evicted: nat)
      ensures kept == Survivors(entries, cutoff)
      ensures evicted > 0 <==> kept != entries
    {
      kept, evicted := entries, 0;
      var todo := entries.Keys;
      while todo != {}
        invariant todo <= entries.Keys
        invariant kept.Keys == set id | id in entries && (id in todo || entries[id] >= cutoff)
        invariant forall id :: id in kept ==> kept[id] == entries[id]
        invariant evicted > 0 <==> kept.Keys != entries.Keys
        decreases todo
      {
        var id :| id in todo;
        todo := todo - {id};
        if entries[id] < cutoff {
          kept := kept - {id};
          evicted := evicted + 1;
          assert id in entries.Keys && id !in kept.Keys;
        }
      }
      assert kept == Survivors(entries, cutoff);
      assert kept.Keys == entries.Keys ==> kept == entries;
    }

    method ReapStale(cutoff: int)
      requires Valid()
      modifies this
      ensures Valid() && State() == Reap(old(State()), cutoff)
      ensures forall id :: (id in blob <==> id in old(blob) && old(blob)[id] >= cutoff)
                           && (id in legacy <==> id in old(legacy) && old(legacy)[id] >= cutoff)
      ensures forall id :: (id in blob ==> blob[id] == old(blob)[id]) && (id in legacy ==> legacy[id] == old(legacy)[id])
      ensures var emptied := (blob == map[] && old(blob) != map[]) || (legacy == map[] && old(legacy) != map[]);
              notify == old(notify) + (if emptied then 1 else 0) && (old(notify) in closed <==> emptied)
      ensures nextID == old(nextID)
      ensures live == old(live) && issued == old(issued) && orphanCount >= old(orphanCount)
      ensures entered == old(entered) && turnedAway == old(turnedAway)
    {
      ReapGood(State(), cutoff);
      var b, nb := Evict(blob, cutoff);
      var l, nl := Evict(legacy, cutoff);
      blob, legacy := b, l;
      if (nb > 0 && b == map[]) || (nl > 0 && l == map[]) {
        RenewNotify();
      }
      orphanCount := orphanCount + nb + nl;
    }

    /** Everything the other goroutines and the janitor do meanwhile: any number of entries,
        releases and evictions, but no settling of a token in `mine` and no entering under a name in
        `names`. The contract is the model. */
    method Others(ghost mine: set<nat>, ghost names: set<nat>)
      requires Valid() && mine <= issued
      modifies this
      ensures Valid() && Evolves(old(State()), State()) && old(issued) <= issued
      ensures forall id :: id in mine ==> (id in live <==> id in old(live))
      ensures forall id, k :: id in mine && id in In(State(), k) ==> id in In(old(State()), k)
      ensures forall s :: s in names ==> (s in entered <==> s in old(entered)) && (s in turnedAway <==> s in old(turnedAway))
      ensures forall s :: s in names && s in entered ==> entered[s] == old(entered)[s]
    {
    }
  }

  class BroadcastToken {
    const coord: SubpoolCoordinator
    const entryID: nat
    const class_: TxClass
    var settled: bool

    ghost predicate Valid()
      reads this, coord
    {
      && coord.Valid()
      && entryID in coord.issued
      && (settled <==> entryID !in coord.live)
      && (forall k :: entryID in In(coord.State(), k) ==> k == class_)
    }

    constructor (coord: SubpoolCoordinator, entryID: nat, class_: TxClass)
      ensures this.coord == coord && this.entryID == entryID && this.class_ == class_ && !settled
    {
      this.coord, this.entryID, this.class_, this.settled := coord, entryID, class_, false;
    }

    /** Done, and Abandon, which is the same call. */
    method Done()
      requires Valid()
      modifies this, coord
      ensures Valid() && settled
      ensures coord.live == old(coord.live) - {entryID} && coord.issued == old(coord.issued)
      ensures coord.entered == old(coord.entered) && coord.turnedAway == old(coord.turnedAway)
      ensures coord.State() == if old(settled) then old(coord.State())
                               else Release(old(coord.State()), class_, entryID)
      ensures !old(settled) ==>
                && In(coord.State(), class_) == In(old(coord.State()), class_) - {entryID}
                && In(coord.State(), Other(class_)) == In(old(coord.State()), Other(class_))
                && coord.notify == old(coord.notify) + (if In(coord.State(), class_) == map[] then 1 else 0)
                && (old(coord.notify) in coord.closed <==> In(coord.State(), class_) == map[])
    {
      if settled {
        return;
      }
      settled := true;
      coord.ReleaseEntry(class_, entryID);
    }
  }
}

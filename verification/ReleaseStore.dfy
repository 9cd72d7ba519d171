/**
 The release state file (internal/release/store.go): the pending set, the reconcile cursor and the
 cycle gate. Every public operation takes the file lock for its whole read-modify-write, so it is
 one atomic step, which may fail without effect.
 */
module ReleaseStore {
  import opened Common

  datatype PendingJob = PendingJob(id: nat, completedAt: int, failCount: nat, backoffUntil: int)

  datatype Snapshot = Snapshot(pending: seq<PendingJob>, cursor: nat, lastReleaseTs: int, nextAllowed: int)

  const EmptySnapshot := Snapshot([], 0, 0, 0)

  ghost predicate Has(p: seq<PendingJob>, id: nat) {
    exists i :: 0 <= i < |p| && p[i].id == id
  }

  ghost predicate Unique(p: seq<PendingJob>) {
    forall i, j :: 0 <= i < j < |p| ==> p[i].id != p[j].id
  }

  /** The pending set without the ids in `gone`, order kept. */
  function Without(p: seq<PendingJob>, gone: set<nat>): seq<PendingJob> {
    if p == [] then []
    else (if p[0].id in gone then [] else [p[0]]) + Without(p[1..], gone)
  }

  /** One more failure on the first entry of the job, if there is one. */
  function Bumped(p: seq<PendingJob>, id: nat, until: int): seq<PendingJob> {
    if p == [] then []
    else if p[0].id == id then [p[0].(failCount := p[0].failCount + 1, backoffUntil := until)] + p[1..]
    else [p[0]] + Bumped(p[1..], id, until)
  }

  function FailCountOf(p: seq<PendingJob>, id: nat): nat {
    if p == [] then 0 else if p[0].id == id then p[0].failCount else FailCountOf(p[1..], id)
  }

  function Touch(j: PendingJob, failed: map<nat, int>): PendingJob {
    if j.id in failed then j.(failCount := j.failCount + 1, backoffUntil := failed[j.id]) else j
  }

  /** The pending set after a cycle: the gone entries removed, each failed one charged once, every
      other entry as it was. */
  function Settle(p: seq<PendingJob>, gone: set<nat>, failed: map<nat, int>): seq<PendingJob> {
    if p == [] then []
    else (if p[0].id in gone then [] else [Touch(p[0], failed)]) + Settle(p[1..], gone, failed)
  }

  lemma {:induction false} SettleNothing(p: seq<PendingJob>)
    ensures Settle(p, {}, map[]) == p
  {
    if p != [] {
      SettleNothing(p[1..]);
    }
  }

  lemma {:induction false} SettleRemove(p: seq<PendingJob>, gone: set<nat>, failed: map<nat, int>, more: set<nat>)
    ensures Without(Settle(p, gone, failed), more) == Settle(p, gone + more, failed)
  {
    if p != [] {
      SettleRemove(p[1..], gone, failed, more);
      var rest := Settle(p[1..], gone, failed);
      if p[0].id !in gone {
        assert ([Touch(p[0], failed)] + rest)[1..] == rest;
      } else {
        assert [] + rest == rest;
      }
    }
  }

  lemma {:induction false} SettleAbsent(p: seq<PendingJob>, gone: set<nat>, failed: map<nat, int>, id: nat, until: int)
    requires forall i :: 0 <= i < |p| ==> p[i].id != id
    ensures Settle(p, gone, failed[id := until]) == Settle(p, gone, failed)
  {
    if p != [] {
      SettleAbsent(p[1..], gone, failed, id, until);
    }
  }

  lemma {:induction false} SettleFail(p: seq<PendingJob>, gone: set<nat>, failed: map<nat, int>, id: nat, until: int)
    requires Unique(p) && Has(p, id) && id !in gone && id !in failed
    ensures Bumped(Settle(p, gone, failed), id, until) == Settle(p, gone, failed[id := until])
    ensures FailCountOf(Settle(p, gone, failed), id) == FailCountOf(p, id)
  {
    var rest := Settle(p[1..], gone, failed);
    if p[0].id == id {
      assert ([p[0]] + rest)[1..] == rest;
      SettleAbsent(p[1..], gone, failed, id, until);
    } else {
      var i :| 0 <= i < |p| && p[i].id == id;
      assert p[1..][i - 1].id == id;
      SettleFail(p[1..], gone, failed, id, until);
      if p[0].id !in gone {
        assert ([Touch(p[0], failed)] + rest)[1..] == rest;
      } else {
        assert [] + rest == rest;
      }
    }
  }

  /** Exactly the entries that are not gone remain, in order, and none is invented. */
  lemma {:induction false} SettleHas(p: seq<PendingJob>, gone: set<nat>, failed: map<nat, int>, id: nat)
    ensures Has(Settle(p, gone, failed), id) <==> Has(p, id) && id !in gone
  {
    if p != [] {
      SettleHas(p[1..], gone, failed, id);
      HasCons(p, id);
      var s := Settle(p, gone, failed);
      if p[0].id !in gone {
        HasCons(s, id);
        assert s[1..] == Settle(p[1..], gone, failed);
      } else {
        assert s == Settle(p[1..], gone, failed);
      }
    }
  }

  lemma HasCons(p: seq<PendingJob>, id: nat)
    requires p != []
    ensures Has(p, id) <==> p[0].id == id || Has(p[1..], id)
  {
    if Has(p, id) {
      var i :| 0 <= i < |p| && p[i].id == id;
      if i > 0 {
        assert p[1..][i - 1].id == id;
      }
    }
    if Has(p[1..], id) {
      var i :| 0 <= i < |p[1..]| && p[1..][i].id == id;
      assert p[i + 1].id == id;
    }
  }

  lemma {:induction false} WithoutIsSettle(p: seq<PendingJob>, gone: set<nat>)
    ensures Without(p, gone) == Settle(p, gone, map[])
  {
    if p != [] {
      WithoutIsSettle(p[1..], gone);
    }
  }

  lemma {:induction false} BumpedAt(p: seq<PendingJob>, i: nat, id: nat, until: int)
    requires i < |p| && p[i].id == id && forall k :: 0 <= k < i ==> p[k].id != id
    ensures Bumped(p, id, until) == p[i := p[i].(failCount := p[i].failCount + 1, backoffUntil := until)]
  {
    if i > 0 {
      BumpedAt(p[1..], i - 1, id, until);
    }
  }

  lemma {:induction false} BumpedAbsent(p: seq<PendingJob>, id: nat, until: int)
    requires forall k :: 0 <= k < |p| ==> p[k].id != id
    ensures Bumped(p, id, until) == p
  {
    if p != [] {
      BumpedAbsent(p[1..], id, until);
    }
  }

  lemma {:induction false} SettleUnique(p: seq<PendingJob>, gone: set<nat>, failed: map<nat, int>)
    requires Unique(p)
    ensures Unique(Settle(p, gone, failed))
  {
    if p != [] {
      SettleUnique(p[1..], gone, failed);
      if p[0].id !in gone {
        SettleHas(p[1..], gone, failed, p[0].id);
        var rest := Settle(p[1..], gone, failed);
        assert forall i :: 0 <= i < |rest| ==> rest[i].id != p[0].id;
      }
    }
  }

  // ---------------------------------------------------------------- sorting

  predicate Sorted(p: seq<PendingJob>) {
    forall i, j :: 0 <= i < j < |p| ==> p[i].id <= p[j].id
  }

  function Insert(j: PendingJob, p: seq<PendingJob>): seq<PendingJob> {
    if p == [] || j.id <= p[0].id then [j] + p else [p[0]] + Insert(j, p[1..])
  }

  /** sort.Slice by job id. */
  function SortById(p: seq<PendingJob>): seq<PendingJob> {
    if p == [] then [] else Insert(p[0], SortById(p[1..]))
  }

  lemma {:induction false} InsertKeeps(j: PendingJob, p: seq<PendingJob>)
    ensures multiset(Insert(j, p)) == multiset(p) + multiset{j}
    ensures forall x :: x in Insert(j, p) <==> x in p || x == j
  {
    if p != [] && j.id > p[0].id {
      InsertKeeps(j, p[1..]);
      assert p == [p[0]] + p[1..];
    } else {
      assert Insert(j, p) == [j] + p;
    }
  }

  lemma {:induction false} InsertSorts(j: PendingJob, p: seq<PendingJob>)
    requires Sorted(p)
    ensures Sorted(Insert(j, p))
  {
    if p != [] && j.id > p[0].id {
      InsertSorts(j, p[1..]);
      InsertKeeps(j, p[1..]);
      assert forall x :: x in p[1..] ==> p[0].id <= x.id;
    }
  }

  lemma {:induction false} SortByIdSorts(p: seq<PendingJob>)
    ensures Sorted(SortById(p)) && multiset(SortById(p)) == multiset(p)
  {
    if p != [] {
      SortByIdSorts(p[1..]);
      InsertSorts(p[0], SortById(p[1..]));
      InsertKeeps(p[0], SortById(p[1..]));
      assert p == [p[0]] + p[1..];
    }
  }

  lemma {:induction false} SortKeepsUnique(p: seq<PendingJob>)
    requires Unique(p)
    ensures Unique(SortById(p)) && forall x :: x in SortById(p) <==> x in p
  {
    if p != [] {
      SortKeepsUnique(p[1..]);
      assert forall x :: x in p[1..] ==> x.id != p[0].id;
      InsertKeepsUnique(p[0], SortById(p[1..]));
      InsertKeeps(p[0], SortById(p[1..]));
      assert p == [p[0]] + p[1..];
    }
  }

  lemma {:induction false} InsertKeepsUnique(j: PendingJob, p: seq<PendingJob>)
    requires Unique(p) && forall x :: x in p ==> x.id != j.id
    ensures Unique(Insert(j, p))
  {
    if p != [] && j.id > p[0].id {
      InsertKeepsUnique(j, p[1..]);
      InsertKeeps(j, p[1..]);
      assert forall x :: x in p[1..] ==> x.id != p[0].id;
    }
  }

  // ---------------------------------------------------------------- the store

  /** `reliable` says that operations do not fail; claims about what a cycle leaves need it. */
  class FileStore {
    const reliable: bool
    var snap: Snapshot

    ghost predicate Valid()
      reads this
    {
      Unique(snap.pending)
    }

    constructor (reliable: bool)
      ensures Valid() && snap == EmptySnapshot && this.reliable == reliable
    {
      this.reliable := reliable;
      snap := EmptySnapshot;
    }

    method Locked() returns (ok: bool)
      ensures reliable ==> ok
    {
      ok := *;
      ok := ok || reliable;
    }

    /** Idempotent: a job already pending keeps its first timestamp and its failures. */
    method AddEligible(id: nat, completedAt: int) returns (ok: bool)
      requires Valid()
      modifies this
      ensures Valid() && (reliable ==> ok)
      ensures snap == if !ok || Has(old(snap.pending), id) then old(snap)
                      else old(snap).(pending := old(snap.pending) + [PendingJob(id, completedAt, 0, 0)])
    {
      ok := Locked();
      if !ok {
        return;
      }
      for i := 0 to |snap.pending|
        invariant forall k :: 0 <= k < i ==> snap.pending[k].id != id
      {
        if snap.pending[i].id == id {
          return;
        }
      }
      snap := snap.(pending := snap.pending + [PendingJob(id, completedAt, 0, 0)]);
    }

    /** A sorted snapshot of the pending set. */
    method Pending() returns (out: Option<seq<PendingJob>>)
      requires Valid()
      ensures reliable ==> out.Some?
      ensures out.Some? ==> out.value == SortById(snap.pending)
    {
      var ok := Locked();
      out := if ok then Some(SortById(snap.pending)) else None;
    }

    method Remove(ids: set<nat>) returns (ok: bool)
      requires Valid()
      modifies this
      ensures Valid() && (reliable ==> ok)
      ensures snap == if ok then old(snap).(pending := Without(old(snap.pending), ids)) else old(snap)
    {
      ok := Locked();
      if !ok {
        return;
      }
      hide Unique;
      var filtered: seq<PendingJob> := [];
      ghost var all := snap.pending;
      for i := 0 to |snap.pending|
        invariant snap == old(snap)
        invariant filtered + Without(all[i..], ids) == Without(all, ids)
      {
        assert all[i..][1..] == all[i + 1..];
        if snap.pending[i].id !in ids {
          filtered := filtered + [snap.pending[i]];
        }
      }
      assert filtered == Without(all, ids);
      WithoutIsSettle(all, ids);
      SettleUnique(all, ids, map[]);
      snap := snap.(pending := filtered);
    }

    method RecordFailure(id: nat, backoffUntil: int) returns (ok: bool)
      requires Valid()
      modifies this
      ensures Valid() && (reliable ==> ok)
      ensures snap == if ok then old(snap).(pending := Bumped(old(snap.pending), id, backoffUntil)) else old(snap)
    {
      ok := Locked();
      if !ok {
        return;
      }
      hide Bumped;
      var p := snap.pending;
      for i := 0 to |p|
        invariant snap == old(snap)
        invariant forall k :: 0 <= k < i ==> p[k].id != id
      {
        if p[i].id == id {
          BumpedAt(p, i, id, backoffUntil);
          snap := snap.(pending := p[i := p[i].(failCount := p[i].failCount + 1, backoffUntil := backoffUntil)]);
          return;
        }
      }
      BumpedAbsent(p, id, backoffUntil);
    }

    method GetReconcileBlock() returns (block: Option<nat>)
      ensures block.Some? ==> block.value == snap.cursor
    {
      var ok := Locked();
      block := if ok then Some(snap.cursor) else None;
    }

    /** Only forward. */
    method SetReconcileBlock(block: nat) returns (ok: bool)
      modifies this
      ensures reliable && block >= old(snap.cursor) ==> ok
      ensures ok ==> block >= old(snap.cursor)
      ensures snap == if ok then old(snap).(cursor := block) else old(snap)
    {
      ok := Locked();
      if ok && block < snap.cursor {
        ok := false;
      }
      if ok {
        snap := snap.(cursor := block);
      }
    }

    /** Stores the block only where no cursor is stored yet. */
    method SeedReconcileBlock(block: nat) returns (seeded: bool, ok: bool)
      modifies this
      ensures seeded <==> ok && old(snap.cursor) == 0
      ensures snap == if seeded then old(snap).(cursor := block) else old(snap)
    {
      ok := Locked();
      seeded := ok && snap.cursor == 0;
      if seeded {
        snap := snap.(cursor := block);
      }
    }

    method GetNextAllowedAttempt() returns (ts: Option<int>)
      ensures reliable ==> ts.Some?
      ensures ts.Some? ==> ts.value == snap.nextAllowed
    {
      var ok := Locked();
      ts := if ok then Some(snap.nextAllowed) else None;
    }

    method SetNextAllowedAttempt(ts: int) returns (ok: bool)
      modifies this
      ensures reliable ==> ok
      ensures snap == if ok then old(snap).(nextAllowed := ts) else old(snap)
    {
      ok := Locked();
      if ok {
        snap := snap.(nextAllowed := ts);
      }
    }

    method GetLastReleaseTs() returns (ts: Option<int>)
      ensures reliable ==> ts.Some?
      ensures ts.Some? ==> ts.value == snap.lastReleaseTs
    {
      var ok := Locked();
      ts := if ok then Some(snap.lastReleaseTs) else None;
    }

    method SetLastReleaseTs(ts: int) returns (ok: bool)
      modifies this
      ensures reliable ==> ok
      ensures snap == if ok then old(snap).(lastReleaseTs := ts) else old(snap)
    {
      ok := Locked();
      if ok {
        snap := snap.(lastReleaseTs := ts);
      }
    }
  }
}

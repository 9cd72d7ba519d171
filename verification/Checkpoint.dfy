/**
 The per-job retry record in Redis (internal/pipeline/checkpoint.go). Each Lua script, and the
 transaction of Tombstone, is one atomic step. A missing key reads like an empty record.
 */
module Checkpoints {
  import opened Common

  type Bytes = string

  /** The hash fields; an empty ciphertext or a zero hash is an absent field. */
  datatype Record = Record(ciphertext: Bytes, versionedHash: nat, delivered: bool, tombstoned: bool)

  const Blank := Record("", 0, false, false)

  /** First writer wins: the canonical ciphertext after the step is `Put(r, c).ciphertext`. */
  function Put(r: Record, proposed: Bytes): Record {
    if r.ciphertext != "" then r else r.(ciphertext := proposed)
  }

  datatype PutError = EmptyProposal | TooLarge | RedisDown

  datatype PutResult = Stored(canonical: Bytes, wasSet: bool) | NotStored(error: PutError)

  /** A key: its record and, once a script or Tombstone has set one, its time of expiry. */
  datatype Key = Key(record: Record, expiresAt: Option<int>)

  const NoKey := Key(Blank, None)

  /** Redis drops an expired key. */
  function Alive(k: Key, now: int): Key {
    if k.expiresAt.Some? && k.expiresAt.value <= now then NoKey else k
  }

  datatype Command =
    | PutCiphertext(proposed: Bytes)
    | PutHash(hash: nat)
    | PutDelivered
    | PutTombstone

  /** The effect of one script on the key as it stands. */
  function Effect(k: Key, c: Command, now: int, ttl: nat, tombstoneTTL: nat): Key {
    match c
    case PutCiphertext(proposed) =>
      if k.record.ciphertext != "" then k else Key(Put(k.record, proposed), Some(now + ttl))
    case PutHash(hash) =>
      Key(k.record.(versionedHash := hash), if k.record.tombstoned then k.expiresAt else Some(now + ttl))
    case PutDelivered =>
      Key(k.record.(delivered := true), if k.record.tombstoned then k.expiresAt else Some(now + ttl))
    case PutTombstone => Key(k.record.(tombstoned := true), Some(now + tombstoneTTL))
  }

  /** The scripts promise that a tombstoned record is never kept longer by a straggler. That fails in
      exactly one case: a ciphertext arriving at a tombstone that never had one restarts the full
      lifetime. */
  lemma TombstoneExtendedIff(k: Key, c: Command, now: int, ttl: nat, tombstoneTTL: nat)
    requires k.record.tombstoned && k.expiresAt.Some? && !c.PutTombstone?
    ensures var k' := Effect(k, c, now, ttl, tombstoneTTL);
            && k'.record.tombstoned && k'.expiresAt.Some?
            && (k'.expiresAt.value > k.expiresAt.value <==>
                  c.PutCiphertext? && k.record.ciphertext == "" && now + ttl > k.expiresAt.value)
  {
  }

  /** One tombstone whose ciphertext was never cached: a straggler resurrects it to the full lifetime. */
  lemma TombstoneResurrected()
    ensures var k := Effect(NoKey, PutTombstone, 0, 7200, 600);
            && k.expiresAt == Some(600)
            && Effect(k, PutCiphertext("c"), 10, 7200, 600).expiresAt == Some(7210)
  {
  }

  datatype Timed = Timed(command: Command, now: int)

  ghost function Execute(k: Key, script: seq<Timed>, ttl: nat, tombstoneTTL: nat): Key
    decreases |script|
  {
    if script == [] then k
    else Execute(Effect(Alive(k, script[0].now), script[0].command, script[0].now, ttl, tombstoneTTL), script[1..],
                 ttl, tombstoneTTL)
  }

  /** The key never expires at the times the script runs. */
  ghost predicate NeverExpires(k: Key, script: seq<Timed>, ttl: nat, tombstoneTTL: nat)
    decreases |script|
  {
    script != [] ==>
      && Alive(k, script[0].now) == k
      && NeverExpires(Effect(k, script[0].command, script[0].now, ttl, tombstoneTTL), script[1..], ttl, tombstoneTTL)
  }

  /** While the record lives, whoever stores a ciphertext first has stored the canonical one: no
      sequence of later commands, by anyone, changes it. */
  lemma {:induction false} FirstCiphertextIsCanonical(k: Key, script: seq<Timed>, ttl: nat, tombstoneTTL: nat)
    requires k.record.ciphertext != "" && NeverExpires(k, script, ttl, tombstoneTTL)
    ensures Execute(k, script, ttl, tombstoneTTL).record.ciphertext == k.record.ciphertext
    decreases |script|
  {
    if script != [] {
      FirstCiphertextIsCanonical(Effect(k, script[0].command, script[0].now, ttl, tombstoneTTL), script[1..],
                                 ttl, tombstoneTTL);
    }
  }

  /** With its ciphertext cached, a tombstone is never extended: any sequence of straggler commands
      leaves its time of expiry as it was. */
  lemma {:induction false} StragglersKeepTombstone(k: Key, script: seq<Timed>, ttl: nat, tombstoneTTL: nat)
    requires k.record.tombstoned && k.record.ciphertext != "" && NeverExpires(k, script, ttl, tombstoneTTL)
    requires forall i :: 0 <= i < |script| ==> !script[i].command.PutTombstone?
    ensures Execute(k, script, ttl, tombstoneTTL).expiresAt == k.expiresAt
    decreases |script|
  {
    if script != [] {
      StragglersKeepTombstone(Effect(k, script[0].command, script[0].now, ttl, tombstoneTTL), script[1..],
                              ttl, tombstoneTTL);
    }
  }

  /** The store: one key per job. Every method may fail without effect when Redis does. */
  class CheckpointStore {
    var keys: map<nat, Key>
    const ttl: nat
    const tombstoneTTL: nat
    const maxCiphertextB: nat

    constructor (ttl: int, tombstoneTTL: int, maxCiphertextBytes: int)
      ensures keys == map[]
      ensures this.ttl == (if ttl <= 0 then 7200 else ttl)
      ensures this.tombstoneTTL == (if tombstoneTTL <= 0 then 600 else tombstoneTTL)
      ensures maxCiphertextB == (if maxCiphertextBytes <= 0 then 256 * 1024 else maxCiphertextBytes)
    {
      this.ttl := if ttl <= 0 then 7200 else ttl;
      this.tombstoneTTL := if tombstoneTTL <= 0 then 600 else tombstoneTTL;
      this.maxCiphertextB := if maxCiphertextBytes <= 0 then 256 * 1024 else maxCiphertextBytes;
      keys := map[];
    }

    function At(jobID: nat, now: int): Key
      reads this
    {
      if jobID in keys then Alive(keys[jobID], now) else NoKey
    }

    method SetCiphertextIfAbsent(jobID: nat, proposed: Bytes, now: int, redisOk: bool) returns (r: PutResult)
      modifies this
      ensures r.NotStored? <==> proposed == "" || |proposed| > maxCiphertextB || !redisOk
      ensures r.NotStored? ==> keys == old(keys)
      ensures r.Stored? ==>
                && keys == old(keys)[jobID := Effect(old(At(jobID, now)), PutCiphertext(proposed), now, ttl, tombstoneTTL)]
                && r.canonical == keys[jobID].record.ciphertext != ""
                && (r.wasSet <==> old(At(jobID, now)).record.ciphertext == "")
                && (r.wasSet ==> r.canonical == proposed)
      ensures r.Stored? ==>
                var k := old(At(jobID, now));
                keys == old(keys)[jobID := if k.record.ciphertext != "" then k
                                           else Key(k.record.(ciphertext := proposed), Some(now + ttl))]
    {
      if proposed == "" {
        return NotStored(EmptyProposal);
      }
      if |proposed| > maxCiphertextB {
        return NotStored(TooLarge);
      }
      if !redisOk {
        return NotStored(RedisDown);
      }
      var k := At(jobID, now);
      if k.record.ciphertext != "" {
        keys := keys[jobID := k];
        return Stored(k.record.ciphertext, false);
      }
      keys := keys[jobID := Key(k.record.(ciphertext := proposed), Some(now + ttl))];
      return Stored(proposed, true);
    }

    method SetVersionedHash(jobID: nat, hash: nat, now: int, redisOk: bool) returns (ok: bool)
      modifies this
      ensures ok <==> hash != 0 && redisOk
      ensures keys == if ok then old(keys)[jobID := Effect(old(At(jobID, now)), PutHash(hash), now, ttl, tombstoneTTL)]
                      else old(keys)
      ensures ok ==> var k := old(At(jobID, now));
                     && keys[jobID].record == k.record.(versionedHash := hash)
                     && keys[jobID].expiresAt == if k.record.tombstoned then k.expiresAt else Some(now + ttl)
    {
      if hash == 0 || !redisOk {
        return false;
      }
      var k := At(jobID, now);
      var expiry := if k.record.tombstoned then k.expiresAt else Some(now + ttl);
      keys := keys[jobID := Key(k.record.(versionedHash := hash), expiry)];
      return true;
    }

    method MarkDelivered(jobID: nat, now: int, redisOk: bool) returns (ok: bool)
      modifies this
      ensures ok == redisOk
      ensures keys == if ok then old(keys)[jobID := Effect(old(At(jobID, now)), PutDelivered, now, ttl, tombstoneTTL)]
                      else old(keys)
      ensures ok ==> var k := old(At(jobID, now));
                     && keys[jobID].record == k.record.(delivered := true)
                     && keys[jobID].expiresAt == if k.record.tombstoned then k.expiresAt else Some(now + ttl)
    {
      if !redisOk {
        return false;
      }
      var k := At(jobID, now);
      var expiry := if k.record.tombstoned then k.expiresAt else Some(now + ttl);
      keys := keys[jobID := Key(k.record.(delivered := true), expiry)];
      return true;
    }

    method Tombstone(jobID: nat, now: int, redisOk: bool) returns (ok: bool)
      modifies this
      ensures ok == redisOk
      ensures keys == if ok then old(keys)[jobID := Effect(old(At(jobID, now)), PutTombstone, now, ttl, tombstoneTTL)]
                      else old(keys)
      ensures ok ==> keys[jobID] == Key(old(At(jobID, now)).record.(tombstoned := true), Some(now + tombstoneTTL))
    {
      if redisOk {
        keys := keys[jobID := Key(At(jobID, now).record.(tombstoned := true), Some(now + tombstoneTTL))];
      }
      return redisOk;
    }
  }
}

/**
 The persistent "last processed block" of one watcher (internal/sortition/cursor.go). A write is atomic;
 reads and writes may fail without effect.
 */
module Cursors {
  import opened Common

  class CursorCell {
    const reliable: bool
    var stored: Option<nat>
    /** Where scanning started: the block the first stored cursor was resumed after. */
    ghost var origin: nat
    /** How many reads and writes have failed. */
    ghost var faults: nat

    ghost predicate Valid()
      reads this
    {
      stored.Some? ==> origin <= stored.value
    }

    constructor (reliable: bool)
      ensures Valid() && stored == None && this.reliable == reliable
    {
      this.reliable, stored, origin, faults := reliable, None, 0, 0;
    }

    method Attempt() returns (ok: bool)
      modifies `faults
      ensures reliable ==> ok
      ensures faults == old(faults) + if ok then 0 else 1
    {
      ok := *;
      ok := ok || reliable;
      faults := if ok then faults else faults + 1;
    }

    /** The outer None is a read error, the inner one that nothing is stored. */
    method Read() returns (block: Option<Option<nat>>)
      modifies `faults
      ensures faults == old(faults) + if block.Some? then 0 else 1
      ensures reliable ==> block.Some?
      ensures block.Some? ==> block.value == stored
    {
      var ok := Attempt();
      block := if ok then Some(stored) else None;
    }

    /** 0 if unset. */
    method Get() returns (block: Option<nat>)
      modifies `faults
      ensures block.Some? ==> block.value == if stored.Some? then stored.value else 0
    {
      var r := Read();
      block := if r.None? then None else if r.value.Some? then r.value else Some(0);
    }

    /** A stored cursor is authoritative, a stored 0 included. With none, a chain longer than the look-back is
        entered `lookback` behind the safe head, and that start is stored; a shorter one is scanned from its
        first block and nothing is stored. */
    method GetOrSeed(safeHead: nat, lookback: nat) returns (cursor: Option<nat>, seeded: bool)
      requires Valid()
      modifies this
      ensures Valid() && (reliable ==> cursor.Some?)
      ensures seeded ==> old(stored) == None && safeHead > lookback
      ensures faults == old(faults) + if cursor.Some? then 0 else 1
      ensures cursor.Some? && old(stored).Some? ==> cursor == old(stored)
      ensures cursor.Some? && old(stored).None? ==>
                cursor.value == (if safeHead <= lookback then 0 else safeHead - lookback) && (seeded <==> safeHead > lookback)
      ensures stored == if cursor.Some? && seeded then cursor else old(stored)
      ensures origin == if cursor.Some? && seeded then cursor.value else old(origin)
    {
      seeded := false;
      var r := Read();
      if r.None? {
        return None, false;
      }
      if r.value.Some? {
        return r.value, false;
      }
      if safeHead <= lookback {
        return Some(0), false;
      }
      var ok := Set(safeHead - lookback, safeHead - lookback);
      return if ok then Some(safeHead - lookback) else None, true;
    }

    /** `from` is where the scan that got here was resumed; it matters for the first cursor stored. */
    method Set(block: nat, ghost from: nat) returns (ok: bool)
      requires Valid() && from <= block && (stored.Some? ==> origin <= block)
      modifies this
      ensures Valid() && (reliable ==> ok)
      ensures stored == if ok then Some(block) else old(stored)
      ensures origin == if ok && old(stored).None? then from else old(origin)
      ensures faults == old(faults) + if ok then 0 else 1
    {
      ok := Attempt();
      if ok {
        origin := if stored.None? then from else origin;
        stored := Some(block);
      }
    }
  }
}

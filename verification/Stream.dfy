/**
 Incremental delivery of a response (internal/pipeline/stream.go), fed by the streaming
 inference loop of internal/ollama/client.go.

 Each content kind has its own coalescer; all share one sequence counter. Payloads are the
 plaintext of the frames; a frame whose encryption fails is dropped, and only the `Sealer` counts those.
 */
module Streams {
  import opened Common

  /** A frame kind after Normalize. */
  datatype Kind = Text | Reasoning | Artifact | Audio | Stats

  datatype Frame = Frame(seqNo: nat, kind: Kind, payload: string)

  const DefaultStreamChunkTokens := 32
  const DefaultStreamChunkInterval := 100_000_000 // nanoseconds

  /** The bytes of one delta or frame, each tagged with its kind. */
  function Tag(kind: Kind, s: string): seq<(Kind, char)> {
    seq(|s|, i requires 0 <= i < |s| => (kind, s[i]))
  }

  function Flatten(frames: seq<Frame>): seq<(Kind, char)> {
    if frames == [] then []
    else Flatten(frames[..|frames| - 1]) + Tag(frames[|frames| - 1].kind, frames[|frames| - 1].payload)
  }

  /** The characters of one kind, in order. */
  function Project(stream: seq<(Kind, char)>, kind: Kind): string {
    if stream == [] then ""
    else
      var rest, x := stream[..|stream| - 1], stream[|stream| - 1];
      if x.0 == kind then Project(rest, kind) + [x.1] else Project(rest, kind)
  }

  lemma TagConcat(kind: Kind, s: string, t: string)
    ensures Tag(kind, s + t) == Tag(kind, s) + Tag(kind, t)
  {
  }

  lemma TagEmpty(kind: Kind)
    ensures forall s :: Tag(kind, s) == [] <==> s == ""
  {
  }

  lemma {:induction false} ProjectConcat(a: seq<(Kind, char)>, b: seq<(Kind, char)>, kind: Kind)
    ensures Project(a + b, kind) == Project(a, kind) + Project(b, kind)
    decreases |b|
  {
    if b == [] {
      assert a + b == a;
    } else {
      var b' := b[..|b| - 1];
      assert (a + b)[..|a + b| - 1] == a + b';
      ProjectConcat(a, b', kind);
    }
  }

  lemma {:induction false} ProjectTag(kind: Kind, s: string, wanted: Kind)
    ensures Project(Tag(kind, s), wanted) == if kind == wanted then s else ""
    decreases |s|
  {
    if s != "" {
      var t := Tag(kind, s);
      assert t[..|t| - 1] == Tag(kind, s[..|s| - 1]);
      ProjectTag(kind, s[..|s| - 1], wanted);
      assert s == s[..|s| - 1] + [s[|s| - 1]];
    }
  }

  lemma FlattenSnoc(frames: seq<Frame>, f: Frame)
    ensures Flatten(frames + [f]) == Flatten(frames) + Tag(f.kind, f.payload)
  {
    assert (frames + [f])[..|frames + [f]| - 1] == frames;
  }

  /** Rate accounting: `added` deltas since `first`; emissions split by the threshold that fired. */
  datatype Rate = Rate(added: nat, first: int, last: int, byTokens: nat, byTime: nat)

  /** Each emission is paid for: by maxTokens deltas, or by a disjoint span of maxInterval. */
  ghost predicate Paid(r: Rate, maxTokens: int, maxInterval: int, count: nat, batchStart: int) {
    && r.first <= r.last
    && r.byTokens * maxTokens + count <= r.added
    && (count > 0 ==> r.first <= batchStart <= r.last)
    && r.byTime * maxInterval <= (if count > 0 then batchStart else r.last) - r.first
  }

  lemma PaidBound(r: Rate, maxTokens: int, maxInterval: int, count: nat, batchStart: int)
    requires maxTokens > 0 && maxInterval > 0
    requires Paid(r, maxTokens, maxInterval, count, batchStart)
    ensures r.byTokens + r.byTime <= r.added / maxTokens + (r.last - r.first) / maxInterval
  {
    QuotientBound(r.byTokens, maxTokens, r.added);
    QuotientBound(r.byTime, maxInterval, r.last - r.first);
  }

  lemma QuotientBound(k: nat, d: int, n: int)
    requires d > 0 && k * d <= n
    ensures k <= n / d
  {
    var q := n / d;
    assert n == q * d + n % d;
    assert (q + 1) * d == q * d + d;
    if k > q {
      ProductMonotone(k, q + 1, d);
    }
  }

  lemma ProductMonotone(k: int, l: int, d: int)
    requires k >= l && d > 0
    ensures k * d >= l * d
  {
    assert (k - l) * d >= 0;
  }

  /** The account after one more delta read between t0 and t1, and an emission if `emitted`. */
  function Charge(r: Rate, maxTokens: int, count: nat, t1: int, emitted: bool): Rate {
    r.(added := r.added + 1, last := t1,
       byTokens := r.byTokens + if emitted && count + 1 >= maxTokens then 1 else 0,
       byTime := r.byTime + if emitted && count + 1 < maxTokens then 1 else 0)
  }

  lemma PaidCharge(r: Rate, maxTokens: int, maxInterval: int, count: nat, batchStart: int, t0: int, t1: int, emitted: bool)
    requires maxTokens > 0 && maxInterval > 0
    requires Paid(r, maxTokens, maxInterval, count, batchStart) && r.last <= t0 <= t1
    requires var start := if count == 0 then t0 else batchStart;
             emitted ==> count + 1 >= maxTokens || t1 - start >= maxInterval
    ensures var start := if count == 0 then t0 else batchStart;
            Paid(Charge(r, maxTokens, count, t1, emitted), maxTokens, maxInterval, if emitted then 0 else count + 1, start)
  {
    OneMoreTime(r.byTokens, maxTokens);
    OneMoreTime(r.byTime, maxInterval);
  }

  lemma OneMoreTime(k: int, d: int)
    ensures (k + 1) * d == k * d + d
  {
  }

  lemma PaidFlush(r: Rate, maxTokens: int, maxInterval: int, count: nat, batchStart: int, start: int)
    requires Paid(r, maxTokens, maxInterval, count, batchStart)
    ensures Paid(r, maxTokens, maxInterval, 0, start)
  {
  }

  lemma PaidLater(r: Rate, maxTokens: int, maxInterval: int, count: nat, batchStart: int, t: int)
    requires Paid(r, maxTokens, maxInterval, count, batchStart) && r.last <= t
    ensures Paid(r.(last := t), maxTokens, maxInterval, count, batchStart)
  {
  }

  class TokenCoalescer {
    const maxTokens: int
    const maxInterval: int
    var buf: string
    var count: nat
    var batchStart: int
    ghost var rate: Rate

    ghost predicate Valid()
      reads this
    {
      && maxTokens > 0 && maxInterval > 0
      && (count == 0 <==> buf == "")
      && Paid(rate, maxTokens, maxInterval, count, batchStart)
    }

    constructor (maxTokens: int, maxInterval: int, now: int)
      ensures Valid() && count == 0 && rate == Rate(0, now, now, 0, 0)
      ensures this.maxTokens == (if maxTokens <= 0 then DefaultStreamChunkTokens else maxTokens)
      ensures this.maxInterval == (if maxInterval <= 0 then DefaultStreamChunkInterval else maxInterval)
    {
      this.maxTokens := if maxTokens <= 0 then DefaultStreamChunkTokens else maxTokens;
      this.maxInterval := if maxInterval <= 0 then DefaultStreamChunkInterval else maxInterval;
      buf, count, batchStart := "", 0, now;
      rate := Rate(0, now, now, 0, 0);
    }

    /** Add: `t0` and `t1` are the clock readings before and after the append. The batch comes out
        exactly when a threshold is met, and it is everything buffered. */
    method Add(delta: string, t0: int, t1: int) returns (batch: Option<string>)
      requires Valid() && rate.last <= t0 <= t1
      modifies this
      ensures Valid()
      ensures delta == "" ==> batch.None? && buf == old(buf) && count == old(count) && rate == old(rate)
      ensures delta != "" ==>
                && rate.first == old(rate).first && rate.last == t1 && rate.added == old(rate).added + 1
                && (if batch.Some? then batch.value == old(buf) + delta && buf == "" && count == 0
                    else buf == old(buf) + delta && count == old(count) + 1)
                && batchStart == (if old(count) == 0 then t0 else old(batchStart))
                && (batch.Some? <==> || old(count) + 1 >= maxTokens
                                     || t1 - (if old(count) == 0 then t0 else old(batchStart)) >= maxInterval)
      ensures rate.byTokens + rate.byTime == old(rate).byTokens + old(rate).byTime + if batch.Some? then 1 else 0
    {
      if delta == "" {
        return None;
      }
      ghost var before, start := rate, batchStart;
      if count == 0 {
        batchStart := t0;
      }
      buf := buf + delta;
      count := count + 1;
      var due := count >= maxTokens || t1 - batchStart >= maxInterval;
      rate := Charge(rate, maxTokens, count - 1, t1, due);
      PaidCharge(before, maxTokens, maxInterval, count - 1, start, t0, t1, due);
      if due {
        batch := Flush();
      } else {
        batch := None;
      }
    }

    /** Flush returns what was buffered, if anything, and leaves the batch empty. */
    method Flush() returns (batch: Option<string>)
      requires maxTokens > 0 && maxInterval > 0 && (count == 0 <==> buf == "")
      requires Paid(rate, maxTokens, maxInterval, 0, batchStart)
      modifies this`buf, this`count
      ensures Valid() && buf == "" && count == 0
      ensures batch == if old(buf) == "" then None else Some(old(buf))
    {
      if count == 0 {
        return None;
      }
      batch := Some(buf);
      buf, count := "", 0;
    }
  }

  /** The session-key encryption of a frame; it alone knows how often it failed. */
  class Sealer {
    ghost var failures: nat

    constructor ()
      ensures failures == 0
    {
      failures := 0;
    }

    method Encrypt(plain: string) returns (ok: bool)
      modifies this
      ensures failures == old(failures) + if ok then 0 else 1
    {
      ok := *;
      failures := if ok then failures else failures + 1;
    }
  }

  class ChunkStreamer {
    var seqNo: nat
    var coalescers: map<Kind, TokenCoalescer>
    var lastKind: Option<Kind>
    const maxTokens: int
    const maxInterval: int
    // the clock's latest reading, and what reached the publisher, in order
    var clock: int
    var frames: seq<Frame>
    const sealer: Sealer
    // history: what went in, kind switches, FlushAll and PublishBytes calls
    ghost var deltas: seq<(Kind, char)>
    ghost var switches: nat
    ghost var finals: nat
    ghost var direct: nat
    ghost var rate: Rate
    ghost var repr: set<TokenCoalescer>

    /** What is buffered: only the last kind's coalescer can hold anything. */
    ghost function Buffered(): seq<(Kind, char)>
      reads this`coalescers, this`lastKind, this`repr, repr
    {
      if lastKind.Some? && lastKind.value in coalescers && coalescers[lastKind.value] in repr
      then Tag(lastKind.value, coalescers[lastKind.value].buf) else []
    }

    ghost predicate Coalescers()
      reads this`coalescers, this`lastKind, this`rate, this`repr, repr
    {
      && (forall k :: k in coalescers ==>
            && coalescers[k] in repr
            && coalescers[k].Valid()
            && coalescers[k].maxTokens == EffectiveTokens() && coalescers[k].maxInterval == EffectiveInterval()
            && coalescers[k].rate.last <= rate.last)
      && (forall k, l :: k in coalescers && l in coalescers && k != l ==> coalescers[k] != coalescers[l])
      && (lastKind.Some? ==> lastKind.value in coalescers)
      // at most one coalescer is non-empty
      && (forall k :: k in coalescers && lastKind != Some(k) ==> coalescers[k].buf == "")
    }

    ghost predicate Numbered()
      reads this`seqNo, this`frames
    {
      seqNo == |frames| && forall i :: 0 <= i < |frames| ==> frames[i].seqNo == i + 1
    }

    ghost predicate Valid()
      reads this, sealer, repr
    {
      && Coalescers()
      && Numbered()
      && clock == rate.last
      // what came out, then what is buffered, is what went in
      && (sealer.failures == 0 ==> Flatten(frames) + Buffered() == deltas)
      // every frame is an Add emission, or one of the forced ones
      && |frames| + sealer.failures <= rate.byTokens + rate.byTime + switches + finals + 2 * direct
      && Paid(rate, EffectiveTokens(), EffectiveInterval(), Count(), Start())
    }

    ghost function EffectiveTokens(): int {
      if maxTokens <= 0 then DefaultStreamChunkTokens else maxTokens
    }

    ghost function EffectiveInterval(): int {
      if maxInterval <= 0 then DefaultStreamChunkInterval else maxInterval
    }

    ghost function Count(): nat
      reads this`coalescers, this`lastKind, this`repr, repr
    {
      if lastKind.Some? && lastKind.value in coalescers && coalescers[lastKind.value] in repr then coalescers[lastKind.value].count else 0
    }

    ghost function Start(): int
      reads this`coalescers, this`lastKind, this`repr, repr
    {
      if lastKind.Some? && lastKind.value in coalescers && coalescers[lastKind.value] in repr then coalescers[lastKind.value].batchStart else 0
    }

    constructor (maxTokens: int, maxInterval: int, now: int)
      ensures Valid() && coalescers == map[] && lastKind == None
      ensures fresh(sealer) && sealer.failures == 0 && repr == {} && frames == [] && deltas == [] && rate == Rate(0, now, now, 0, 0)
      ensures switches == finals == direct == 0
      ensures this.maxTokens == maxTokens && this.maxInterval == maxInterval
    {
      this.maxTokens, this.maxInterval := maxTokens, maxInterval;
      seqNo, coalescers, lastKind, frames, repr := 0, map[], None, [], {};
      deltas, switches, finals, direct := [], 0, 0, 0;
      sealer := new Sealer();
      rate, clock := Rate(0, now, now, 0, 0), now;
    }

    /** publish: encryption may fail, and then the frame is lost without using a number. */
    method Publish(kind: Kind, batch: string)
      requires Numbered()
      modifies this`seqNo, this`frames, sealer
      ensures Numbered() && |frames| + sealer.failures <= old(|frames| + sealer.failures) + 1
      ensures batch == "" ==> unchanged(sealer)
      ensures frames == if batch == "" || sealer.failures > old(sealer.failures) then old(frames)
                        else old(frames) + [Frame(|old(frames)| + 1, kind, batch)]
      ensures old(sealer.failures) <= sealer.failures && old(frames) <= frames
      ensures sealer.failures == 0 ==> Flatten(frames) == old(Flatten(frames)) + Tag(kind, batch)
    {
      if batch == "" {
        TagEmpty(kind);
        return;
      }
      var encrypted := sealer.Encrypt(batch);
      if !encrypted {
        return;
      }
      seqNo := seqNo + 1;
      FlattenSnoc(frames, Frame(seqNo, kind, batch));
      frames := frames + [Frame(seqNo, kind, batch)];
    }

    method CoalescerFor(kind: Kind, t0: int) returns (c: TokenCoalescer)
      requires Coalescers() && rate.last <= t0
      modifies this`coalescers, this`repr, this`rate
      ensures Coalescers() && kind in coalescers && coalescers[kind] == c
      ensures rate == old(rate).(last := t0)
      ensures kind in old(coalescers) ==> coalescers == old(coalescers)
      ensures kind !in old(coalescers) ==> coalescers == old(coalescers)[kind := c] && fresh(c) && c.count == 0
      ensures fresh(repr - old(repr))
    {
      rate := rate.(last := t0);
      if kind in coalescers {
        return coalescers[kind];
      }
      c := new TokenCoalescer(maxTokens, maxInterval, t0);
      coalescers, repr := coalescers[kind := c], repr + {c};
    }

    /** Emit whatever the last kind has buffered. */
    method FlushLast()
      requires Valid()
      modifies this`seqNo, this`frames, sealer, repr
      ensures Coalescers() && Numbered() && Buffered() == [] && Count() == 0
      ensures old(sealer.failures) <= sealer.failures && old(frames) <= frames
      ensures sealer.failures == 0 ==> Flatten(frames) == deltas
      ensures |frames| + sealer.failures <= old(|frames| + sealer.failures) + if old(Buffered()) == [] then 0 else 1
      ensures Paid(rate, EffectiveTokens(), EffectiveInterval(), Count(), Start())
    {
      hide Paid, Flatten, Tag;
      PaidFlush(rate, EffectiveTokens(), EffectiveInterval(), Count(), Start(), Start());
      if lastKind.None? {
        return;
      }
      var c := coalescers[lastKind.value];
      PaidFlush(c.rate, c.maxTokens, c.maxInterval, c.count, c.batchStart, c.batchStart);
      var batch := c.Flush();
      TagEmpty(lastKind.value);
      if batch.Some? {
        Publish(lastKind.value, batch.value);
      }
    }

    /** Add: appends the delta to the stream, in generation order across kinds. `t0` and `t1` are the
        readings of a monotone clock. */
    method Add(kind: Kind, delta: string, t0: int, t1: int)
      requires Valid() && rate.last <= t0 <= t1
      modifies this`seqNo, this`frames, sealer, this`deltas, this`clock, this`coalescers, this`repr, this`lastKind, this`rate, this`switches
      modifies repr
      ensures Valid() && fresh(repr - old(repr))
      ensures deltas == old(deltas) + Tag(kind, delta)
      ensures old(sealer.failures) <= sealer.failures && old(frames) <= frames
      ensures rate.first == old(rate).first
      ensures delta != "" ==> lastKind == Some(kind) && rate.added == old(rate).added + 1 && rate.last == t1
      ensures delta == "" ==> unchanged(this) && unchanged(repr)
      ensures switches == old(switches) + if delta != "" && old(lastKind) != None && old(lastKind) != Some(kind) then 1 else 0
    {
      TagEmpty(kind);
      hide Paid, Flatten, Tag, Coalescers, Numbered, Buffered, Count, Start;
      if delta == "" {
        return;
      }
      if lastKind.Some? && lastKind != Some(kind) {
        FlushLast();
        switches := switches + 1;
      }
      Append(kind, delta, t0, t1);
    }

    method Append(kind: Kind, delta: string, t0: int, t1: int)
      requires delta != "" && rate.last <= t0 <= t1
      requires Coalescers() && Numbered()
      requires lastKind.Some? && lastKind != Some(kind) ==> Buffered() == []
      requires sealer.failures == 0 ==> Flatten(frames) + Buffered() == deltas
      requires |frames| + sealer.failures <= rate.byTokens + rate.byTime + switches + finals + 2 * direct
      requires Paid(rate, EffectiveTokens(), EffectiveInterval(), Count(), Start())
      modifies this`seqNo, this`frames, sealer, this`deltas, this`clock, this`coalescers, this`repr, this`lastKind, this`rate, repr
      ensures Valid() && fresh(repr - old(repr))
      ensures deltas == old(deltas) + Tag(kind, delta) && lastKind == Some(kind)
      ensures old(sealer.failures) <= sealer.failures && old(frames) <= frames
      ensures rate.first == old(rate).first && rate.added == old(rate).added + 1 && rate.last == t1
    {
      hide Paid, Flatten, Tag, Coalescers, Numbered, Buffered, Count, Start, Valid;
      ghost var out, held, said := Flatten(frames), Buffered(), Tag(kind, delta);
      Regroup(out, held, said);
      var batch := Buffer(kind, delta, t0, t1);
      if batch.Some? {
        Publish(kind, batch.value);
        Regroup(out, held + said, []);
      }
      Restored();
    }

    /** The delta into its kind's coalescer, which may hand back a batch to publish. */
    method Buffer(kind: Kind, delta: string, t0: int, t1: int) returns (batch: Option<string>)
      requires delta != "" && rate.last <= t0 <= t1 && Coalescers()
      requires lastKind.Some? && lastKind != Some(kind) ==> Buffered() == []
      requires Paid(rate, EffectiveTokens(), EffectiveInterval(), Count(), Start())
      modifies this`deltas, this`clock, this`coalescers, this`repr, this`lastKind, this`rate, repr
      ensures Coalescers() && Paid(rate, EffectiveTokens(), EffectiveInterval(), Count(), Start())
      ensures fresh(repr - old(repr)) && deltas == old(deltas) + Tag(kind, delta) && lastKind == Some(kind) && clock == rate.last
      ensures rate.byTokens + rate.byTime == old(rate).byTokens + old(rate).byTime + if batch.Some? then 1 else 0
      ensures rate.first == old(rate).first && rate.added == old(rate).added + 1 && rate.last == t1
      ensures if batch.Some? then Buffered() == [] && Tag(kind, batch.value) == old(Buffered()) + Tag(kind, delta)
              else Buffered() == old(Buffered()) + Tag(kind, delta)
    {
      hide Paid, Tag, Coalescers, Buffered, Count, Start;
      SwitchTo(kind, t0);
      batch := AddTo(kind, delta, t0, t1);
      clock := t1;
      deltas := deltas + Tag(kind, delta);
    }

    lemma Restored()
      requires Coalescers() && Numbered() && clock == rate.last
      requires sealer.failures == 0 ==> Flatten(frames) + Buffered() == deltas
      requires |frames| + sealer.failures <= rate.byTokens + rate.byTime + switches + finals + 2 * direct
      requires Paid(rate, EffectiveTokens(), EffectiveInterval(), Count(), Start())
      ensures Valid()
    {
    }

    lemma Regroup(out: seq<(Kind, char)>, held: seq<(Kind, char)>, said: seq<(Kind, char)>)
      ensures (out + held) + said == out + (held + said) && out + [] == out
    {
    }

    /** Make the kind's coalescer, on first use, the one that buffers. */
    method SwitchTo(kind: Kind, t0: int)
      requires Coalescers() && rate.last <= t0
      requires lastKind.Some? && lastKind != Some(kind) ==> Buffered() == []
      requires Paid(rate, EffectiveTokens(), EffectiveInterval(), Count(), Start())
      modifies this`coalescers, this`repr, this`lastKind, this`rate
      ensures Coalescers() && lastKind == Some(kind) && rate == old(rate).(last := t0)
      ensures Buffered() == old(Buffered()) && fresh(repr - old(repr))
      ensures Paid(rate, EffectiveTokens(), EffectiveInterval(), Count(), Start())
    {
      ghost var was, count, start := rate, Count(), Start();
      var c := CoalescerFor(kind, t0);
      PaidLater(was, EffectiveTokens(), EffectiveInterval(), count, start, t0);
      if lastKind != Some(kind) {
        PaidFlush(rate, EffectiveTokens(), EffectiveInterval(), count, start, c.batchStart);
      }
      hide Paid;
      lastKind := Some(kind);
    }

    /** The coalescer's own Add, with the streamer's account of it. */
    method AddTo(kind: Kind, delta: string, t0: int, t1: int) returns (batch: Option<string>)
      requires delta != "" && Coalescers() && lastKind == Some(kind) && rate.last == t0 <= t1
      requires Paid(rate, EffectiveTokens(), EffectiveInterval(), Count(), Start())
      modifies this`rate, repr
      ensures Coalescers() && Paid(rate, EffectiveTokens(), EffectiveInterval(), Count(), Start())
      ensures rate.byTokens + rate.byTime == old(rate).byTokens + old(rate).byTime + if batch.Some? then 1 else 0
      ensures rate.first == old(rate).first && rate.added == old(rate).added + 1 && rate.last == t1
      ensures if batch.Some? then Buffered() == [] && Tag(kind, batch.value) == old(Buffered()) + Tag(kind, delta)
              else Buffered() == old(Buffered()) + Tag(kind, delta)
    {
      hide Paid;
      var c := coalescers[kind];
      ghost var count, start := c.count, c.batchStart;
      TagConcat(kind, c.buf, delta);
      TagEmpty(kind);
      hide Tag;
      batch := c.Add(delta, t0, t1);
      PaidCharge(rate, EffectiveTokens(), EffectiveInterval(), count, start, t0, t1, batch.Some?);
      rate := Charge(rate, EffectiveTokens(), count, t1, batch.Some?);
    }

    /** Flush one kind: what is buffered comes out if it is of that kind; otherwise nothing happens. */
    method FlushKind(kind: Kind)
      requires Valid() && kind in coalescers
      modifies this`seqNo, this`frames, sealer, repr
      ensures Coalescers() && Numbered()
      ensures Paid(rate, EffectiveTokens(), EffectiveInterval(), Count(), Start())
      ensures Buffered() == if lastKind == Some(kind) then [] else old(Buffered())
      ensures old(sealer.failures) <= sealer.failures && old(frames) <= frames
      ensures sealer.failures == 0 ==> Flatten(frames) + Buffered() == deltas
      ensures |frames| + sealer.failures <= old(|frames| + sealer.failures)
                                      + if lastKind == Some(kind) && old(Buffered()) != [] then 1 else 0
    {
      hide Paid, Flatten, Tag;
      if lastKind == Some(kind) {
        FlushLast();
      } else {
        FlushIdle(kind);
      }
    }

    /** Flushing a kind that is not the last one finds nothing. */
    method FlushIdle(kind: Kind)
      requires Valid() && kind in coalescers && lastKind != Some(kind)
      modifies coalescers[kind]
      ensures Valid() && Buffered() == old(Buffered())
    {
      hide Flatten, Tag;
      var c := coalescers[kind];
      PaidFlush(c.rate, c.maxTokens, c.maxInterval, c.count, c.batchStart, c.batchStart);
      hide Paid;
      var nothing := c.Flush();
    }

    /** FlushAll drains the kinds it lists. Everything is then out exactly unless the last delta was of
        kind Stats, the one kind it does not list and nobody feeds to Add. */
    method FlushAll()
      requires Valid()
      modifies this`seqNo, this`frames, sealer, this`finals, repr
      ensures Valid() && finals == old(finals) + 1
      ensures old(sealer.failures) <= sealer.failures && old(frames) <= frames
      ensures Buffered() == if lastKind == Some(Stats) then old(Buffered()) else []
      ensures sealer.failures == 0 ==> (Flatten(frames) == deltas <==> Buffered() == [])
    {
      assert lastKind.Some? ==> lastKind.value in coalescers;
      hide Paid, Flatten, Tag, Coalescers, Numbered, Count, Start;
      finals := finals + 1;
      var kinds := [Reasoning, Artifact, Audio, Text];
      for i := 0 to |kinds|
        invariant Valid() && finals == old(finals) + 1
        invariant old(sealer.failures) <= sealer.failures && old(frames) <= frames
        invariant Buffered() == if lastKind.Some? && lastKind.value in kinds[..i] then [] else old(Buffered())
        invariant |frames| + sealer.failures <= rate.byTokens + rate.byTime + switches + finals + 2 * direct
                                        - if Buffered() == [] then 0 else 1
      {
        var kind := kinds[i];
        assert kinds[..i + 1] == kinds[..i] + [kind];
        if kind in coalescers {
          FlushKind(kind);
        }
      }
      assert kinds[..|kinds|] == kinds && kinds[0].Reasoning? && kinds[1].Artifact? && kinds[2].Audio? && kinds[3].Text?;
    }

    /** PublishBytes: one complete payload, after whatever was buffered. */
    method PublishBytes(kind: Kind, payload: string)
      requires Valid()
      modifies this`seqNo, this`frames, sealer, this`deltas, this`direct, repr
      ensures Valid() && deltas == old(deltas) + Tag(kind, payload)
      ensures old(sealer.failures) <= sealer.failures && old(frames) <= frames
      ensures direct == old(direct) + if payload == "" then 0 else 1
      ensures Buffered() == if payload == "" then old(Buffered()) else []
    {
      TagEmpty(kind);
      hide Paid, Flatten, Tag, Coalescers, Numbered, Buffered, Count, Start;
      if payload == "" {
        return;
      }
      direct := direct + 1;
      FlushLast();
      Publish(kind, payload);
      deltas := deltas + Tag(kind, payload);
    }

    /** With a monotone clock, n deltas over a time T make at most n/maxTokens + T/maxInterval frames,
        plus one per kind switch, one per FlushAll and two per PublishBytes. */
    lemma FrameRate()
      requires Valid()
      ensures |frames| + sealer.failures <= rate.added / EffectiveTokens() + (clock - rate.first) / EffectiveInterval()
                                    + switches + finals + 2 * direct
    {
      PaidBound(rate, EffectiveTokens(), EffectiveInterval(), Count(), Start());
    }
  }
}

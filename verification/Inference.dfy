/**
 The streaming inference loop (internal/ollama/client.go) and its use by stage 5 of the pipeline:
 the answer that will be settled is accumulated while its deltas are streamed to the consumer.
 */
module Inference {
  import opened Common
  import opened Streams

  /** A line of the response body. Chat and Generate differ only in where the content field sits. */
  datatype Line = Blank | Malformed | Chunk(error: string, thinking: string, content: string, done: bool)

  datatype Outcome = Answered(response: string, thinkingBytes: nat) | Failed

  /** The stream reaches its done object with no malformed or error line before it. */
  predicate Completes(lines: seq<Line>) {
    lines != [] &&
    match lines[0]
    case Blank => Completes(lines[1..])
    case Malformed => false
    case Chunk(error, _, _, done) => error == "" && (done || Completes(lines[1..]))
  }

  /** The answer: every content field up to the done object. */
  function Answer(lines: seq<Line>): string {
    if lines == [] then ""
    else if !lines[0].Chunk? then Answer(lines[1..])
    else lines[0].content + if lines[0].done then "" else Answer(lines[1..])
  }

  /** The object in line n is the first done one, and no line up to it is malformed or an error. */
  predicate EndsAt(lines: seq<Line>, n: int) {
    && 0 <= n < |lines| && lines[n].Chunk? && lines[n].done && lines[n].error == ""
    && forall k :: 0 <= k < n ==> lines[k].Blank? || (lines[k].Chunk? && lines[k].error == "" && !lines[k].done)
  }

  lemma {:induction false} CompletesIff(lines: seq<Line>)
    ensures Completes(lines) <==> exists n :: EndsAt(lines, n)
  {
    if lines != [] {
      var rest := lines[1..];
      CompletesIff(rest);
      CompletesHead(lines);
      hide Completes;
      if lines[0].Chunk? && lines[0].error == "" && lines[0].done {
        assert EndsAt(lines, 0);
      }
      if n :| EndsAt(lines, n) && n > 0 {
        assert rest[n - 1] == lines[n] && forall k :: 0 <= k < n - 1 ==> rest[k] == lines[k + 1];
        assert EndsAt(rest, n - 1);
      }
      if n :| EndsAt(rest, n) {
        assert lines[n + 1] == rest[n] && forall k :: 0 < k <= n ==> lines[k] == rest[k - 1];
        assert (lines[0].Blank? || (lines[0].Chunk? && lines[0].error == "" && !lines[0].done)) ==> EndsAt(lines, n + 1);
      }
    }
  }

  lemma CompletesHead(lines: seq<Line>)
    requires lines != []
    ensures Completes(lines) <==>
              if lines[0].Blank? then Completes(lines[1..])
              else lines[0].Chunk? && lines[0].error == "" && (lines[0].done || Completes(lines[1..]))
  {
  }

  /** Every thinking field up to the done object. */
  function Thoughts(lines: seq<Line>): string {
    if lines == [] then ""
    else if !lines[0].Chunk? then Thoughts(lines[1..])
    else lines[0].thinking + if lines[0].done then "" else Thoughts(lines[1..])
  }

  /** What one line contributes to the consumer's stream. */
  function SaidBy(line: Line, reasoning: bool): seq<(Kind, char)>
    requires line.Chunk?
  {
    (if reasoning then Tag(Reasoning, line.thinking) else []) + Tag(Text, line.content)
  }

  /** What the consumer is sent: reasoning, when asked for, and answer, as the model produced them. */
  function Said(lines: seq<Line>, reasoning: bool): seq<(Kind, char)> {
    if lines == [] then []
    else if !lines[0].Chunk? then Said(lines[1..], reasoning)
    else SaidBy(lines[0], reasoning) + if lines[0].done then [] else Said(lines[1..], reasoning)
  }

  lemma SaidByIs(line: Line, reasoning: bool)
    requires line.Chunk?
    ensures Project(SaidBy(line, reasoning), Text) == line.content
    ensures Project(SaidBy(line, reasoning), Reasoning) == if reasoning then line.thinking else ""
  {
    var r := if reasoning then Tag(Reasoning, line.thinking) else [];
    forall kind ensures Project(SaidBy(line, reasoning), kind) == Project(r, kind) + Project(Tag(Text, line.content), kind) {
      ProjectConcat(r, Tag(Text, line.content), kind);
      ProjectTag(Reasoning, line.thinking, kind);
      ProjectTag(Text, line.content, kind);
    }
    ProjectTag(Reasoning, line.thinking, Text);
    ProjectTag(Reasoning, line.thinking, Reasoning);
    ProjectTag(Text, line.content, Text);
    ProjectTag(Text, line.content, Reasoning);
  }

  /** The visible text of what was said is the answer, with or without reasoning around it; and the reasoning
      said is what the model thought, if it was asked for, and nothing otherwise. */
  lemma {:induction false} TextSaidIsAnswer(lines: seq<Line>, reasoning: bool)
    ensures Project(Said(lines, reasoning), Text) == Answer(lines)
    ensures Project(Said(lines, reasoning), Reasoning) == if reasoning then Thoughts(lines) else ""
  {
    if lines != [] {
      TextSaidIsAnswer(lines[1..], reasoning);
      if lines[0].Chunk? {
        var rest := if lines[0].done then [] else Said(lines[1..], reasoning);
        SaidByIs(lines[0], reasoning);
        hide SaidBy;
        ProjectConcat(SaidBy(lines[0], reasoning), rest, Text);
        ProjectConcat(SaidBy(lines[0], reasoning), rest, Reasoning);
      }
    }
  }

  predicate Over(lines: seq<Line>) {
    exists i :: 0 <= i < |lines| && lines[i].Chunk? && lines[i].done
  }

  /** Line by line: until an object is done each object adds its thinking, if asked for, and then its content;
      nothing after it adds anything. */
  lemma SaidInOrder(lines: seq<Line>, line: Line, reasoning: bool)
    ensures var adds := line.Chunk? && !Over(lines);
            && Said(lines + [line], reasoning)
               == Said(lines, reasoning) + (if adds && reasoning then Tag(Reasoning, line.thinking) else [])
                  + (if adds then Tag(Text, line.content) else [])
            && Answer(lines + [line]) == Answer(lines) + (if adds then line.content else "")
            && Thoughts(lines + [line]) == Thoughts(lines) + (if adds then line.thinking else "")
  {
    hide Tag, Over, Said, Answer, Thoughts;
    SaidThen(lines, line, reasoning);
    AnswerThen(lines, line);
    ThoughtsThen(lines, line);
    SaidByMeans(line, reasoning);
  }

  lemma SaidByMeans(line: Line, reasoning: bool)
    ensures line.Chunk? ==>
              SaidBy(line, reasoning) == (if reasoning then Tag(Reasoning, line.thinking) else []) + Tag(Text, line.content)
  {
  }

  lemma {:induction false} SaidThen(lines: seq<Line>, line: Line, reasoning: bool)
    ensures Said(lines + [line], reasoning)
            == Said(lines, reasoning) + if line.Chunk? && !Over(lines) then SaidBy(line, reasoning) else []
  {
    hide Over, SaidBy;
    if lines == [] {
      assert ([] + [line])[1..] == [];
      OverNone();
    } else {
      assert (lines + [line])[0] == lines[0] && (lines + [line])[1..] == lines[1..] + [line];
      OverHead(lines);
      SaidThen(lines[1..], line, reasoning);
    }
  }

  lemma {:induction false} AnswerThen(lines: seq<Line>, line: Line)
    ensures Answer(lines + [line]) == Answer(lines) + if line.Chunk? && !Over(lines) then line.content else ""
  {
    hide Over;
    if lines == [] {
      assert ([] + [line])[1..] == [];
      OverNone();
    } else {
      assert (lines + [line])[0] == lines[0] && (lines + [line])[1..] == lines[1..] + [line];
      OverHead(lines);
      AnswerThen(lines[1..], line);
    }
  }

  lemma {:induction false} ThoughtsThen(lines: seq<Line>, line: Line)
    ensures Thoughts(lines + [line]) == Thoughts(lines) + if line.Chunk? && !Over(lines) then line.thinking else ""
  {
    hide Over;
    if lines == [] {
      assert ([] + [line])[1..] == [];
      OverNone();
    } else {
      assert (lines + [line])[0] == lines[0] && (lines + [line])[1..] == lines[1..] + [line];
      OverHead(lines);
      ThoughtsThen(lines[1..], line);
    }
  }

  lemma OverNone()
    ensures !Over([])
  {
  }

  lemma OverHead(lines: seq<Line>)
    requires lines != []
    ensures Over(lines) <==> (lines[0].Chunk? && lines[0].done) || Over(lines[1..])
  {
    if Over(lines) && !(lines[0].Chunk? && lines[0].done) {
      var i :| 0 <= i < |lines| && lines[i].Chunk? && lines[i].done;
      assert lines[1..][i - 1] == lines[i];
    }
    if Over(lines[1..]) {
      var i :| 0 <= i < |lines[1..]| && lines[1..][i].Chunk? && lines[1..][i].done;
      assert lines[i + 1] == lines[1..][i];
    }
  }

  lemma SaidNext(before: seq<(Kind, char)>, line: Line, reasoning: bool)
    requires line.Chunk?
    ensures before + (if reasoning then Tag(Reasoning, line.thinking) else []) + Tag(Text, line.content)
            == before + SaidBy(line, reasoning)
  {
  }

  /** The per-line callback: hands the deltas on and accumulates the answer. */
  method OnLine(line: Line, s: ChunkStreamer, reasoning: bool, full: string, thinking: nat)
    returns (full': string, thinking': nat)
    requires s.Valid() && s.lastKind != Some(Stats) && line.Chunk? && line.error == ""
    modifies s, s.sealer, s.repr
    ensures s.Valid() && fresh(s.repr - old(s.repr)) && s.lastKind != Some(Stats)
    ensures s.deltas == old(s.deltas) + (if reasoning then Tag(Reasoning, line.thinking) else []) + Tag(Text, line.content)
    ensures full' == full + line.content && thinking' == thinking + |line.thinking|
    ensures old(s.frames) <= s.frames && old(s.sealer.failures) <= s.sealer.failures
  {
    TagEmpty(Reasoning);
    TagEmpty(Text);
    hide Tag;
    full', thinking' := full, thinking;
    if line.thinking != "" {
      thinking' := thinking + |line.thinking|;
      if reasoning {
        Feed(s, Reasoning, line.thinking);
      }
    }
    if line.content != "" {
      full' := full + line.content;
      Feed(s, Text, line.content);
    }
  }

  /** GenerateStream and ChatStream: on success the returned answer is the concatenation of the
      content deltas, and everything said has been handed to the streamer, in order. */
  method GenerateStream(lines: seq<Line>, s: ChunkStreamer, reasoning: bool) returns (outcome: Outcome)
    requires s.Valid() && s.lastKind != Some(Stats)
    modifies s, s.sealer, s.repr
    ensures s.Valid() && fresh(s.repr - old(s.repr)) && s.lastKind != Some(Stats)
    ensures outcome.Answered? <==> Completes(lines) && Answer(lines) != ""
    ensures outcome.Answered? ==>
              && outcome.response == Answer(lines) && outcome.thinkingBytes == |Thoughts(lines)|
              && s.deltas == old(s.deltas) + Said(lines, reasoning)
    ensures old(s.frames) <= s.frames && old(s.sealer.failures) <= s.sealer.failures
  {
    hide SaidBy, s.Valid;
    var full, thinking: nat, i := "", 0, 0;
    while i < |lines|
      invariant 0 <= i <= |lines|
      invariant s.Valid() && fresh(s.repr - old(s.repr)) && s.lastKind != Some(Stats)
      invariant Completes(lines[i..]) == Completes(lines)
      invariant full + Answer(lines[i..]) == Answer(lines) && thinking + |Thoughts(lines[i..])| == |Thoughts(lines)|
      invariant s.deltas + Said(lines[i..], reasoning) == old(s.deltas) + Said(lines, reasoning)
      invariant old(s.frames) <= s.frames && old(s.sealer.failures) <= s.sealer.failures
    {
      var line := lines[i];
      assert lines[i..][1..] == lines[i + 1..];
      if line.Malformed? || (line.Chunk? && line.error != "") {
        return Failed;
      }
      if line.Chunk? {
        ghost var before := s.deltas;
        full, thinking := OnLine(line, s, reasoning, full, thinking);
        SaidNext(before, line, reasoning);
        if line.done {
          return if full == "" then Failed else Answered(full, thinking);
        }
      }
      i := i + 1;
    }
    return Failed;
  }

  /** A delta callback: the streamer's Add at the current time. It never fails. */
  method Feed(s: ChunkStreamer, kind: Kind, delta: string)
    requires s.Valid() && delta != ""
    modifies s, s.sealer, s.repr
    ensures s.Valid() && fresh(s.repr - old(s.repr)) && s.lastKind == Some(kind)
    ensures s.deltas == old(s.deltas) + Tag(kind, delta)
    ensures old(s.frames) <= s.frames && old(s.sealer.failures) <= s.sealer.failures
  {
    var t0: int :| s.clock <= t0;
    var t1: int :| t0 <= t1;
    s.Add(kind, delta, t0, t1);
  }

  /** Stage 5 on a fresh streamer: if no frame was lost to encryption, the frames published are
      exactly what the model said; their text is the response that is encrypted and settled; they are
      numbered 1..chunkFrames, so the terminal frame is number chunkFrames + 1. */
  method RunInference(lines: seq<Line>, s: ChunkStreamer, reasoning: bool) returns (outcome: Outcome, chunkFrames: nat)
    requires s.Valid() && s.deltas == [] && s.lastKind == None
    modifies s, s.sealer, s.repr
    ensures s.Valid() && fresh(s.repr - old(s.repr)) && chunkFrames == |s.frames|
    ensures forall k :: 0 <= k < chunkFrames ==> s.frames[k].seqNo == k + 1
    ensures outcome.Answered? <==> Completes(lines) && Answer(lines) != ""
    ensures outcome.Answered? ==>
              && s.deltas == Said(lines, reasoning) && s.Buffered() == [] && Project(s.deltas, Text) == outcome.response
              && Project(s.deltas, Reasoning) == if reasoning then Thoughts(lines) else ""
    ensures outcome.Answered? && s.sealer.failures == 0 ==>
              && Flatten(s.frames) == Said(lines, reasoning)
              && Project(Flatten(s.frames), Text) == outcome.response
              && Project(Flatten(s.frames), Reasoning) == if reasoning then Thoughts(lines) else ""
  {
    outcome := GenerateStream(lines, s, reasoning);
    if outcome.Answered? {
      s.FlushAll();
      TextSaidIsAnswer(lines, reasoning);
    }
    chunkFrames := s.seqNo;
  }
}

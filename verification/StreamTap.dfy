/** The gateway's response tap (gateway streaming.go): SSE line framing across reads, the
    sink it samples into, and its agreement with splitting the whole stream once.

Bytes are shown as characters. `trim` is bytes.TrimSpace and `modelOf` is
extractStreamModel. */
module StreamTap {
  import opened Json
  import opened Text
  import opened Sums

  const MAX_SSE_CHUNK: nat := 16 * 1024
  const MAX_LINE: nat := 4 * MAX_SSE_CHUNK
  const DEFAULT_MAX_BUF: nat := 256 * 1024

  datatype Library = Library(trim: string -> string, modelOf: string -> string)

  // ------------------------------------------------ one line

  predicate HasPrefix(s: string, prefix: string)
  {
    |prefix| <= |s| && s[..|prefix|] == prefix
  }

  /** The JSON chunk a line carries, if it carries one. */
  function Payload(lib: Library, line: string): Option<string>
  {
    var trimmed := lib.trim(line);
    if trimmed == "" || HasPrefix(trimmed, "event:") || HasPrefix(trimmed, ":") then None
    else
      var data := if HasPrefix(trimmed, "data:") then lib.trim(trimmed[5..]) else trimmed;
      if data == "[DONE]" || data == "" || data[0] != '{' then None else Some(data)
  }

  /** A JSON object opens with a brace. */
  ghost predicate IsChunk(data: string)
  {
    data != "" && data[0] == '{'
  }

  ghost predicate IsDataLine(lib: Library, line: string, x: string, data: string)
  {
    lib.trim(line) == "data:" + x && data == lib.trim(x)
  }

  /** A line carries the chunk it consists of, or the one after its "data:", blanks aside. */
  ghost predicate Carries(lib: Library, line: string, data: string)
  {
    IsChunk(data) && (lib.trim(line) == data || exists x :: IsDataLine(lib, line, x, data))
  }

  /** Blank lines, comments, event names, [DONE] and all other lines carry nothing. */
  ghost predicate Bare(lib: Library, line: string)
  {
    forall data :: !Carries(lib, line, data)
  }

  lemma DataPrefix(t: string, x: string)
    requires t == "data:" + x
    ensures HasPrefix(t, "data:") && t[5..] == x && t != "" && t[0] == 'd'
    ensures !HasPrefix(t, "event:") && !HasPrefix(t, ":")
  {
    assert t[..5] == "data:";
    assert |t| >= 6 ==> t[..6][0] == 'd';
    assert t[..1][0] == 'd';
  }

  lemma BracePrefix(t: string)
    requires IsChunk(t)
    ensures !HasPrefix(t, "data:") && !HasPrefix(t, "event:") && !HasPrefix(t, ":") && t != "[DONE]"
  {
    assert |t| >= 5 ==> t[..5][0] == '{';
    assert |t| >= 6 ==> t[..6][0] == '{';
    assert t[..1][0] == '{';
  }

  /** Exactly these lines carry a chunk, and exactly this one. */
  lemma PayloadExactly(lib: Library, line: string, data: string)
    ensures Payload(lib, line) == Some(data) <==> Carries(lib, line, data)
  {
    var t := lib.trim(line);
    if Carries(lib, line, data) {
      BracePrefix(data);
      if t != data {
        var x :| IsDataLine(lib, line, x, data);
        DataPrefix(t, x);
      }
    }
    if Payload(lib, line) == Some(data) && HasPrefix(t, "data:") {
      assert t == "data:" + t[5..];
      assert IsDataLine(lib, line, t[5..], data);
    }
  }

  lemma NoPayloadExactly(lib: Library, line: string)
    ensures Payload(lib, line).None? <==> Bare(lib, line)
  {
    forall data ensures Payload(lib, line) == Some(data) <==> Carries(lib, line, data) { PayloadExactly(lib, line, data); }
  }

  /** What the sink keeps of a stream: the last chunk, cut to size, and the first model. */
  datatype Sample = Sample(last: string, model: string)

  function Clip(s: string): string
  {
    if |s| > MAX_SSE_CHUNK then s[..MAX_SSE_CHUNK] else s
  }

  function Consider(lib: Library, s: Sample, line: string): Sample
  {
    match Payload(lib, line)
    case None => s
    case Some(data) => Sample(Clip(data), if s.model == "" then lib.modelOf(data) else s.model)
  }

  function ConsiderAll(lib: Library, s: Sample, lines: seq<string>): Sample
  {
    if lines == [] then s
    else Consider(lib, ConsiderAll(lib, s, lines[..|lines| - 1]), lines[|lines| - 1])
  }

  /** The model a line names, if any. */
  function ModelIn(lib: Library, line: string): string
  {
    match Payload(lib, line)
    case None => ""
    case Some(data) => lib.modelOf(data)
  }

  /** The start of a chunk, at most 16384 bytes of it. */
  ghost predicate Clips(last: string, data: string)
  {
    last <= data && |last| == if |data| < 16384 then |data| else 16384
  }

  lemma ClipClips(data: string)
    ensures Clips(Clip(data), data)
  {
  }

  /** The line names this model. */
  ghost predicate Names(lib: Library, line: string, model: string)
  {
    exists data :: Carries(lib, line, data) && model == lib.modelOf(data)
  }

  lemma ModelInExactly(lib: Library, line: string, model: string)
    requires model != ""
    ensures ModelIn(lib, line) == model <==> Names(lib, line, model)
  {
    if Payload(lib, line).Some? { PayloadExactly(lib, line, Payload(lib, line).value); }
    if data :| Carries(lib, line, data) && model == lib.modelOf(data) { PayloadExactly(lib, line, data); }
  }

  /** The sink ends with the chunk of the last line that carries one. */
  lemma LastChunkWins(lib: Library, start: Sample, lines: seq<string>, i: nat, data: string)
    requires i < |lines| && Carries(lib, lines[i], data)
    requires forall j :: i < j < |lines| ==> Bare(lib, lines[j])
    ensures Clips(ConsiderAll(lib, start, lines).last, data)
  {
    PayloadExactly(lib, lines[i], data);
    forall j | i < j < |lines| ensures Payload(lib, lines[j]).None? { NoPayloadExactly(lib, lines[j]); }
    LastPayloadWins(lib, start, lines, i);
    ClipClips(data);
  }

  lemma {:induction false} LastPayloadWins(lib: Library, start: Sample, lines: seq<string>, i: nat)
    requires i < |lines| && Payload(lib, lines[i]).Some?
    requires forall j :: i < j < |lines| ==> Payload(lib, lines[j]).None?
    ensures ConsiderAll(lib, start, lines).last == Clip(Payload(lib, lines[i]).value)
  {
    if i < |lines| - 1 {
      LastPayloadWins(lib, start, lines[..|lines| - 1], i);
    }
  }

  lemma {:induction false} NoModelYet(lib: Library, start: Sample, lines: seq<string>)
    requires start.model == "" && forall j :: 0 <= j < |lines| ==> ModelIn(lib, lines[j]) == ""
    ensures ConsiderAll(lib, start, lines).model == ""
  {
    if lines != [] {
      NoModelYet(lib, start, lines[..|lines| - 1]);
      assert ModelIn(lib, lines[|lines| - 1]) == "";
    }
  }

  /** A fresh sink ends with the model of the first line that names one. */
  lemma FirstModelWins(lib: Library, start: Sample, lines: seq<string>, i: nat, model: string)
    requires start.model == "" && i < |lines| && Names(lib, lines[i], model) && model != ""
    requires forall j, m :: 0 <= j < i && Names(lib, lines[j], m) ==> m == ""
    ensures ConsiderAll(lib, start, lines).model == model
  {
    ModelInExactly(lib, lines[i], model);
    forall j | 0 <= j < i
      ensures ModelIn(lib, lines[j]) == ""
    {
      if ModelIn(lib, lines[j]) != "" { ModelInExactly(lib, lines[j], ModelIn(lib, lines[j])); }
    }
    FirstNamedWins(lib, start, lines, i);
  }

  lemma {:induction false} FirstNamedWins(lib: Library, start: Sample, lines: seq<string>, i: nat)
    requires start.model == "" && i < |lines| && ModelIn(lib, lines[i]) != ""
    requires forall j :: 0 <= j < i ==> ModelIn(lib, lines[j]) == ""
    ensures ConsiderAll(lib, start, lines).model == ModelIn(lib, lines[i])
  {
    var n := |lines| - 1;
    if i < n {
      FirstNamedWins(lib, start, lines[..n], i);
    } else {
      NoModelYet(lib, start, lines[..n]);
    }
  }

  // ------------------------------------------------ splitting a whole stream

  /** The newline-terminated lines. */
  function Lines(s: string): seq<string>
    decreases |s|, 1
  {
    LinesFrom(s, IndexOf(s, '\n'))
  }

  /** The same, the first newline being at i. */
  function LinesFrom(s: string, i: nat): seq<string>
    requires i <= |s|
    decreases |s|, 0
  {
    if i == |s| then [] else [s[..i]] + Lines(s[i + 1..])
  }

  /** What follows the last newline. */
  function Tail(s: string): (t: string)
    ensures '\n' !in t && |t| <= |s|
    decreases |s|, 1
  {
    TailFrom(s, IndexOf(s, '\n'))
  }

  function TailFrom(s: string, i: nat): (t: string)
    requires i <= |s| && (i == |s| ==> '\n' !in s)
    ensures '\n' !in t && |t| <= |s|
    decreases |s|, 0
  {
    if i == |s| then s else Tail(s[i + 1..])
  }

  function Unfinished(tail: string): seq<string>
  {
    if tail == "" then [] else [tail]
  }

  function AllLines(s: string): seq<string>
  {
    Lines(s) + Unfinished(Tail(s))
  }

  // ------------------------------------------------ framing read by read

  /** The accumulator keeps only its end once it has grown too long. */
  function Cap(s: string): (r: string)
    ensures |r| <= MAX_LINE && |r| <= |s|
    ensures |s| <= MAX_LINE ==> r == s
    ensures '\n' !in s ==> '\n' !in r
  {
    if |s| > MAX_LINE then s[|s| - MAX_SSE_CHUNK..] else s
  }

  /** The accumulator and the lines handed on so far. */
  datatype Framer = Framer(lineBuf: string, lines: seq<string>)

  function Feed(f: Framer, chunk: string): Framer
  {
    var s := f.lineBuf + chunk;
    Framer(Cap(Tail(s)), f.lines + Lines(s))
  }

  function FeedAll(chunks: seq<string>): Framer
  {
    if chunks == [] then Framer("", []) else Feed(FeedAll(chunks[..|chunks| - 1]), chunks[|chunks| - 1])
  }

  function Joined(chunks: seq<string>): string
  {
    if chunks == [] then "" else Joined(chunks[..|chunks| - 1]) + chunks[|chunks| - 1]
  }

  /** Every line considered by the time the tail is flushed. */
  function Framed(chunks: seq<string>): seq<string>
  {
    FeedAll(chunks).lines + Unfinished(FeedAll(chunks).lineBuf)
  }

  // ------------------------------------------------ the objects

  class UsageSink {
    const maxBuf: nat
    var last: string
    var buffered: string
    var model: string

    constructor (maxBuf: int)
      ensures last == "" && buffered == "" && model == ""
      ensures this.maxBuf == if maxBuf <= 0 then DEFAULT_MAX_BUF else maxBuf
    {
      this.maxBuf := if maxBuf <= 0 then DEFAULT_MAX_BUF else maxBuf;
      last, buffered, model := "", "", "";
    }

    ghost function View(): Sample
      reads this
    {
      Sample(last, model)
    }

    /** The last chunk if there is one, else the buffered prefix. */
    method Snapshot() returns (out: string)
      ensures last != "" ==> out == last
      ensures last == "" ==> out == buffered
    {
      if |last| > 0 {
        return last;
      }
      return buffered;
    }

    method AppendBuffered(p: string)
      requires |buffered| <= maxBuf
      modifies this`buffered
      ensures buffered == Prefix(old(buffered) + p, maxBuf)
    {
      if |buffered| >= maxBuf {
        return;
      }
      var room := maxBuf - |buffered|;
      if room > |p| {
        room := |p|;
      }
      buffered := buffered + p[..room];
    }

    method SetLast(line: string)
      modifies this`last
      ensures last == Clip(line)
    {
      last := "";
      if |line| > MAX_SSE_CHUNK {
        last := line[..MAX_SSE_CHUNK];
      } else {
        last := line;
      }
    }

    method SetModelOnce(m: string)
      modifies this`model
      ensures model == if old(model) == "" then m else old(model)
    {
      if m == "" {
        return;
      }
      if model == "" {
        model := m;
      }
    }
  }

  /** The part of consider that decides whether a line carries a chunk. */
  method JsonChunk(lib: Library, line: string) returns (chunk: Option<string>)
    ensures chunk == Payload(lib, line)
  {
    var trimmed := lib.trim(line);
    if |trimmed| == 0 {
      return None;
    }
    if HasPrefix(trimmed, "event:") || HasPrefix(trimmed, ":") {
      return None;
    }
    var data := trimmed;
    if HasPrefix(trimmed, "data:") {
      data := lib.trim(trimmed[5..]);
    }
    if data == "[DONE]" {
      return None;
    }
    if |data| == 0 || data[0] != '{' {
      return None;
    }
    return Some(data);
  }

  function Prefix(s: string, n: nat): string
  {
    if |s| > n then s[..n] else s
  }

  class TappingReader {
    const lib: Library
    const sink: UsageSink
    const streaming: bool
    var lineBuf: string
    /** Every chunk read so far. */
    ghost var chunks: seq<string>
    /** Every line considered so far. */
    ghost var considered: seq<string>
    /** What the sink held before. */
    ghost const start: Sample
    ghost const prior: string

    /** The sink has been shown exactly the lines considered. */
    ghost predicate Sampled()
      reads this`considered, sink
    {
      sink.View() == ConsiderAll(lib, start, considered)
    }

    /** The lines considered are those framed from the chunks fed. */
    ghost predicate Framing(fed: seq<string>)
      reads this`lineBuf, this`considered, sink
    {
      FeedAll(fed) == Framer(lineBuf, considered) && Sampled()
    }

    /** The sink holds the start of what it had and what it was given. */
    ghost predicate Buffering(kept: seq<string>)
      reads sink
    {
      |prior| <= sink.maxBuf && sink.buffered == Prefix(prior + Joined(kept), sink.maxBuf)
    }

    ghost predicate Valid()
      reads this, sink
    {
      if streaming then Framing(chunks) && Buffering([]) else Framing([]) && Buffering(chunks)
    }

    constructor (lib: Library, sink: UsageSink, streaming: bool)
      requires |sink.buffered| <= sink.maxBuf
      ensures Valid() && chunks == [] && this.lib == lib && this.sink == sink && this.streaming == streaming
      ensures start == sink.View() && prior == sink.buffered
    {
      this.lib, this.sink, this.streaming := lib, sink, streaming;
      lineBuf, chunks, considered := "", [], [];
      start, prior := sink.View(), sink.buffered;
    }

    /** Read, after the source has returned `p`. */
    method Read(p: string)
      requires Valid()
      modifies this, sink
      ensures Valid() && chunks == old(chunks) + [p]
    {
      if |p| > 0 {
        if streaming {
          Feeding(p, chunks);
        } else {
          Keeping(p, chunks);
        }
      } else {
        NothingRead(chunks, p);
      }
      chunks := chunks + [p];
    }

    /** The whole body, read by read. */
    method ReadAll(body: seq<string>)
      requires Valid() && chunks == []
      modifies this, sink
      ensures Valid() && chunks == body
    {
      Cut([], body);
      for i := 0 to |body|
        invariant Valid()
        invariant chunks == [] + body[..i]
      {
        Read(body[i]);
      }
    }

    method Feeding(p: string, ghost fed: seq<string>)
      requires Framing(fed)
      modifies this`lineBuf, this`considered, sink`last, sink`model
      ensures Framing(fed + [p])
    {
      FeedOne(fed, p);
      SampleStreaming(p);
    }

    method Keeping(p: string, ghost kept: seq<string>)
      requires Buffering(kept)
      modifies sink`buffered
      ensures Buffering(kept + [p])
    {
      KeepOne(prior, kept, p, sink.maxBuf);
      sink.AppendBuffered(p);
    }

    method SampleStreaming(chunk: string)
      requires Sampled()
      modifies this`lineBuf, this`considered, sink`last, sink`model
      ensures Framer(lineBuf, considered) == Feed(Framer(old(lineBuf), old(considered)), chunk) && Sampled()
      ensures '\n' !in lineBuf && |lineBuf| <= MAX_LINE
    {
      lineBuf := lineBuf + chunk;
      ghost var whole := lineBuf;
      var i := IndexOf(lineBuf, '\n');
      while i < |lineBuf|
        invariant i == IndexOf(lineBuf, '\n') && Sampled()
        invariant Tail(lineBuf) == Tail(whole)
        invariant considered + Lines(lineBuf) == old(considered) + Lines(whole)
        decreases |lineBuf|
      {
        var line := lineBuf[..i];
        LineStep(lineBuf, i);
        AppendCons(considered, line, Lines(lineBuf[i + 1..]));
        lineBuf := lineBuf[i + 1..];
        ConsiderLine(line);
        i := IndexOf(lineBuf, '\n');
      }
      NoLines(lineBuf);
      assert considered + [] == considered;
      if |lineBuf| > MAX_LINE {
        lineBuf := lineBuf[|lineBuf| - MAX_SSE_CHUNK..];
      }
    }

    /** consider. */
    method ConsiderLine(line: string)
      requires Sampled()
      modifies this`considered, sink`last, sink`model
      ensures considered == old(considered) + [line] && Sampled()
    {
      ConsiderNext(lib, start, considered, line);
      considered := considered + [line];
      var data := JsonChunk(lib, line);
      if data.None? {
        return;
      }
      sink.SetModelOnce(lib.modelOf(data.value));
      sink.SetLast(data.value);
    }

    /** Considers the unterminated end of the stream. */
    method FlushTail()
      requires Valid()
      modifies this, sink`last, sink`model
      ensures streaming ==> sink.View() == ConsiderAll(lib, start, Framed(chunks))
      ensures !streaming ==> sink.View() == old(sink.View())
      ensures chunks == old(chunks)
    {
      if !streaming || |lineBuf| == 0 {
        assert FeedAll(chunks).lines + [] == FeedAll(chunks).lines;
        return;
      }
      ConsiderLine(lineBuf);
      lineBuf := "";
    }
  }

  lemma ConsiderNext(lib: Library, start: Sample, lines: seq<string>, line: string)
    ensures ConsiderAll(lib, start, lines + [line]) == Consider(lib, ConsiderAll(lib, start, lines), line)
  {
    assert (lines + [line])[..|lines|] == lines;
  }

  lemma AppendCons<T>(a: seq<T>, x: T, b: seq<T>)
    ensures a + ([x] + b) == (a + [x]) + b
  {
  }

  lemma {:induction false} LineStep(s: string, i: nat)
    requires i == IndexOf(s, '\n') < |s|
    ensures Lines(s) == [s[..i]] + Lines(s[i + 1..]) && Tail(s) == Tail(s[i + 1..])
  {
    assert Lines(s) == LinesFrom(s, i);
    assert Tail(s) == TailFrom(s, i);
  }

  lemma NoLines(s: string)
    requires '\n' !in s
    ensures Lines(s) == [] && Tail(s) == s
  {
  }

  lemma FeedOne(chunks: seq<string>, p: string)
    ensures FeedAll(chunks + [p]) == Feed(FeedAll(chunks), p) && Joined(chunks + [p]) == Joined(chunks) + p
  {
    assert (chunks + [p])[..|chunks|] == chunks;
  }

  lemma KeepOne(prior: string, kept: seq<string>, p: string, n: nat)
    ensures |Prefix(prior + Joined(kept), n)| <= n
    ensures Prefix(Prefix(prior + Joined(kept), n) + p, n) == Prefix(prior + Joined(kept + [p]), n)
  {
    FeedOne(kept, p);
    PrefixJoin(prior + Joined(kept), p, n);
    Group(prior, Joined(kept), p);
  }

  lemma PrefixJoin(s: string, p: string, n: nat)
    ensures |Prefix(s, n)| <= n && Prefix(Prefix(s, n) + p, n) == Prefix(s + p, n)
  {
  }

  lemma NothingRead(chunks: seq<string>, p: string)
    requires p == ""
    ensures FeedAll(chunks + [p]) == FeedAll(chunks) && Joined(chunks + [p]) == Joined(chunks)
  {
    FeedOne(chunks, p);
    BufferBounded(chunks);
    var f := FeedAll(chunks);
    assert f.lineBuf + p == f.lineBuf;
    NoLines(f.lineBuf);
    assert f.lines + [] == f.lines;
  }

  /** Whatever is read, the accumulator never holds a newline or more than 65536 bytes. */
  lemma BufferBounded(chunks: seq<string>)
    ensures '\n' !in FeedAll(chunks).lineBuf && |FeedAll(chunks).lineBuf| <= MAX_LINE
  {
  }

  // ------------------------------------------------ what splitting does

  /** The lines, each with its newline, and the rest. */
  function Unsplit(lines: seq<string>, tail: string): string
  {
    if lines == [] then tail else lines[0] + ("\n" + Unsplit(lines[1..], tail))
  }

  /** Splitting cuts a stream at its newlines and nowhere else, and loses nothing. */
  lemma {:induction false} SplitExactly(s: string)
    ensures Unsplit(Lines(s), Tail(s)) == s && '\n' !in Tail(s)
    ensures forall i :: 0 <= i < |Lines(s)| ==> '\n' !in Lines(s)[i]
    decreases |s|
  {
    var i := IndexOf(s, '\n');
    if i == |s| {
      NoLines(s);
    } else {
      var rest := s[i + 1..];
      SplitExactly(rest);
      LineStep(s, i);
      UnsplitCons(s[..i], Lines(rest), Tail(rest));
      CutAt(s, i);
      PlainCons(s[..i], Lines(rest));
    }
  }

  lemma UnsplitCons(line: string, lines: seq<string>, tail: string)
    ensures Unsplit([line] + lines, tail) == line + ("\n" + Unsplit(lines, tail))
  {
    assert ([line] + lines)[1..] == lines;
  }

  lemma CutAt(s: string, i: nat)
    requires i < |s| && s[i] == '\n'
    ensures s == s[..i] + ("\n" + s[i + 1..])
  {
  }

  lemma PlainCons(line: string, lines: seq<string>)
    requires '\n' !in line && forall i :: 0 <= i < |lines| ==> '\n' !in lines[i]
    ensures forall i :: 0 <= i < |[line] + lines| ==> '\n' !in ([line] + lines)[i]
  {
  }

  /** An accumulator over 65536 bytes keeps its last 16384, any other keeps everything. */
  lemma CapKeepsEnd(s: string)
    ensures |s| <= 65536 ==> Cap(s) == s
    ensures |s| > 65536 ==> |Cap(s)| == 16384 && s == s[..|s| - 16384] + Cap(s)
  {
  }

  // ------------------------------------------------ agreement with splitting once

  /** A stream cut in two splits like its parts, the second starting with the first's tail. */
  lemma {:induction false} SplitJoin(a: string, b: string)
    ensures Lines(a + b) == Lines(a) + Lines(Tail(a) + b)
    ensures Tail(a + b) == Tail(Tail(a) + b)
    decreases |a|
  {
    var i := IndexOf(a, '\n');
    if i < |a| {
      SplitJoin(a[i + 1..], b);
      FirstLine(a, b, i);
      LineStep(a, i);
      LineStep(a + b, i);
      Regroup(a[..i], Lines(a[i + 1..]), Lines(Tail(a) + b));
    } else {
      NoLines(a);
      assert [] + Lines(a + b) == Lines(a + b);
    }
  }

  lemma Regroup<T>(x: T, a: seq<T>, b: seq<T>)
    ensures [x] + (a + b) == ([x] + a) + b
  {
  }

  lemma FirstLine(a: string, b: string, i: nat)
    requires i == IndexOf(a, '\n') < |a|
    ensures IndexOf(a + b, '\n') == i && (a + b)[..i] == a[..i] && (a + b)[i + 1..] == a[i + 1..] + b
  {
    assert a + b == a[..i] + ['\n'] + (a[i + 1..] + b);
    IndexOfJoined(a[..i], '\n', a[i + 1..] + b);
  }

  ghost predicate ShortAt(lines: seq<string>, i: int)
  {
    0 <= i < |lines| ==> |lines[i]| <= MAX_LINE
  }

  ghost predicate AllShort(lines: seq<string>)
  {
    forall i :: ShortAt(lines, i)
  }

  /** No line, finished or not, is longer than the accumulator allows. */
  ghost predicate ShortLines(s: string)
  {
    AllShort(AllLines(s))
  }

  lemma ShortJoin(a: seq<string>, b: seq<string>, c: seq<string>)
    requires c == a + b
    ensures AllShort(c) <==> AllShort(a) && AllShort(b)
  {
    if AllShort(c) {
      forall i ensures ShortAt(a, i) { assert ShortAt(c, i); }
      forall i ensures ShortAt(b, i) { assert ShortAt(c, i + |a|); }
    }
    if AllShort(a) && AllShort(b) {
      forall i ensures ShortAt(c, i) { assert ShortAt(a, i) && ShortAt(b, i - |a|); }
    }
  }

  lemma ShortOne(s: string)
    ensures AllShort([s]) <==> |s| <= MAX_LINE
    ensures |s| <= MAX_LINE ==> AllShort(Unfinished(s))
  {
    assert ShortAt([s], 0) <==> |s| <= MAX_LINE;
  }

  lemma AllLinesJoin(a: string, b: string)
    ensures AllLines(a + b) == Lines(a) + AllLines(Tail(a) + b)
  {
    SplitJoin(a, b);
    var t := Tail(a) + b;
    Group(Lines(a), Lines(t), Unfinished(Tail(t)));
  }

  lemma Group<T>(a: seq<T>, b: seq<T>, c: seq<T>)
    ensures (a + b) + c == a + (b + c)
  {
  }

  lemma ShortHead(t: string, lines: seq<string>, b: string)
    requires t != "" && '\n' !in t && lines == AllLines(t + b) && AllShort(lines)
    ensures |t| <= MAX_LINE
  {
    HeadStarts(t, b);
    assert ShortAt(lines, 0);
  }

  lemma ShortPrefix(a: string, b: string)
    requires ShortLines(a + b)
    ensures |Tail(a)| <= MAX_LINE && ShortLines(a)
  {
    var rest := AllLines(Tail(a) + b);
    AllLinesJoin(a, b);
    ShortJoin(Lines(a), rest, AllLines(a + b));
    if Tail(a) != "" {
      ShortHead(Tail(a), rest, b);
    }
    ShortOne(Tail(a));
    ShortJoin(Lines(a), Unfinished(Tail(a)), AllLines(a));
  }

  /** The first line of a stream that starts with newline-free text holds that text. */
  lemma HeadStarts(t: string, b: string)
    requires t != "" && '\n' !in t
    ensures AllLines(t + b) != [] && |AllLines(t + b)[0]| == |t| + IndexOf(b, '\n')
  {
    var j := IndexOf(b, '\n');
    if j < |b| {
      HeadEnds(t, b, j);
      LineStep(t + b, |t| + j);
    } else {
      NoLines(t + b);
    }
  }

  lemma HeadEnds(t: string, b: string, j: nat)
    requires '\n' !in t && j == IndexOf(b, '\n') < |b|
    ensures IndexOf(t + b, '\n') == |t| + j
  {
    NewlineSplits(t, b, j);
    IndexOfJoined(t + b[..j], '\n', b[j + 1..]);
  }

  lemma NewlineSplits(t: string, b: string, j: nat)
    requires j < |b| && b[j] == '\n'
    ensures t + b == (t + b[..j]) + ['\n'] + b[j + 1..]
  {
  }

  lemma {:induction false} FeedAgrees(chunks: seq<string>)
    requires ShortLines(Joined(chunks))
    ensures FeedAll(chunks) == Framer(Tail(Joined(chunks)), Lines(Joined(chunks)))
  {
    if chunks != [] {
      var before, p := chunks[..|chunks| - 1], chunks[|chunks| - 1];
      ShortPrefix(Joined(before), p);
      FeedAgrees(before);
      FeedStep(Joined(before), p);
    }
  }

  lemma FeedStep(a: string, p: string)
    requires ShortLines(a + p)
    ensures Feed(Framer(Tail(a), Lines(a)), p) == Framer(Tail(a + p), Lines(a + p))
  {
    SplitJoin(a, p);
    assert (a + p) + "" == a + p;
    ShortPrefix(a + p, "");
  }

  /** However a stream of short lines is cut into reads, the sink ends with the last chunk
      and first model of the stream split once. */
  lemma AnyCuttingAgrees(lib: Library, start: Sample, chunks: seq<string>)
    requires ShortLines(Joined(chunks))
    ensures ConsiderAll(lib, start, Framed(chunks)) == ConsiderAll(lib, start, AllLines(Joined(chunks)))
  {
    FeedAgrees(chunks);
  }

  // ------------------------------------------------ and only for short lines

  /** A cut inside the first line that is too long. */
  lemma {:induction false} LongCut(s: string) returns (p: nat)
    requires !ShortLines(s)
    ensures p <= |s| && |Tail(s[..p])| > MAX_LINE
    decreases |s|
  {
    var i := IndexOf(s, '\n');
    if i > MAX_LINE {
      p := MAX_LINE + 1;
      assert forall k :: 0 <= k < p ==> s[..i][k] == s[..p][k];
      NoLines(s[..p]);
    } else {
      LongRest(s, i);
      var q := LongCut(s[i + 1..]);
      p := i + 1 + q;
      CutRest(s, i, p);
    }
  }

  lemma ShortWhole(s: string)
    requires '\n' !in s && |s| <= MAX_LINE
    ensures ShortLines(s)
  {
    NoLines(s);
    ShortOne(s);
    assert AllLines(s) == Unfinished(s);
  }

  lemma LongRest(s: string, i: nat)
    requires !ShortLines(s) && i == IndexOf(s, '\n') <= MAX_LINE
    ensures i < |s| && !ShortLines(s[i + 1..])
  {
    if i == |s| {
      ShortWhole(s);
    } else {
      LineStep(s, i);
      Regroup(s[..i], Lines(s[i + 1..]), Unfinished(Tail(s)));
      ShortOne(s[..i]);
      ShortJoin([s[..i]], AllLines(s[i + 1..]), AllLines(s));
    }
  }

  lemma CutRest(s: string, i: nat, p: nat)
    requires i == IndexOf(s, '\n') < p <= |s|
    ensures Tail(s[..p]) == Tail(s[i + 1..][..p - i - 1])
  {
    var head, rest := s[..i], s[i + 1..][..p - i - 1];
    CutParts(s, i, p);
    IndexOfJoined(head, '\n', rest);
    LineStep(head + ['\n'] + rest, i);
  }

  lemma CutParts(s: string, i: nat, p: nat)
    requires i < p <= |s| && s[i] == '\n'
    ensures var t := s[..i] + ['\n'] + s[i + 1..][..p - i - 1]; s[..p] == t && t[i + 1..] == s[i + 1..][..p - i - 1]
  {
  }

  lemma TwoReads(a: string, b: string)
    ensures Joined([a, b]) == a + b
    ensures FeedAll([a, b]) == Feed(Framer(Cap(Tail(a)), Lines(a)), b)
  {
    assert [a, b] == [a] + [b];
    FeedOne([a], b);
    assert [a] == [] + [a];
    FeedOne([], a);
    assert "" + a == a;
    assert [] + Lines(a) == Lines(a);
  }

  /** A read that ends inside a line longer than the accumulator loses its start. */
  lemma LongLineLost(a: string, b: string)
    requires |Tail(a)| > MAX_LINE
    ensures Framed([a, b]) != AllLines(a + b)
  {
    var c := Cap(Tail(a));
    var kept := Lines(c + b) + Unfinished(Cap(Tail(c + b)));
    TwoReads(a, b);
    AllLinesJoin(a, b);
    Group(Lines(a), Lines(c + b), Unfinished(Cap(Tail(c + b))));
    KeptDiffers(c, Tail(a), b, kept);
    if Lines(a) + kept == Lines(a) + AllLines(Tail(a) + b) {
      SameRest(Lines(a), kept, AllLines(Tail(a) + b));
    }
  }

  lemma KeptDiffers(c: string, t: string, b: string, kept: seq<string>)
    requires '\n' !in t && '\n' !in c && 0 < |c| < |t|
    requires kept == Lines(c + b) + Unfinished(Cap(Tail(c + b)))
    ensures kept != AllLines(t + b)
  {
    HeadStarts(t, b);
    HeadStarts(c, b);
    KeptShorter(c + b, kept);
  }

  lemma SameRest<T>(a: seq<T>, x: seq<T>, y: seq<T>)
    requires a + x == a + y
    ensures x == y
  {
    assert x == (a + x)[|a|..];
    assert y == (a + y)[|a|..];
  }

  lemma KeptShorter(s: string, kept: seq<string>)
    requires AllLines(s) != [] && kept == Lines(s) + Unfinished(Cap(Tail(s)))
    ensures kept == [] || |kept[0]| <= |AllLines(s)[0]|
  {
  }

  /** If these are reads of the stream, the tap considers the lines of the stream. */
  ghost predicate AgreesOn(s: string, chunks: seq<string>)
  {
    Joined(chunks) == s ==> Framed(chunks) == AllLines(s)
  }

  lemma ShortAgrees(s: string, chunks: seq<string>)
    requires ShortLines(s)
    ensures AgreesOn(s, chunks)
  {
    if Joined(chunks) == s { FeedAgrees(chunks); }
  }

  lemma LongDisagrees(s: string) returns (chunks: seq<string>)
    requires !ShortLines(s)
    ensures !AgreesOn(s, chunks)
  {
    var p := LongCut(s);
    var a, b := s[..p], s[p..];
    assert s == a + b;
    TwoReads(a, b);
    LongLineLost(a, b);
    chunks := [a, b];
  }

  /** Every cutting of a stream into reads makes the tap consider the lines of the stream
      split once, exactly when no line is longer than 65536 bytes. */
  lemma CuttingAgreesExactly(s: string)
    ensures ShortLines(s) <==> forall chunks :: AgreesOn(s, chunks)
  {
    if ShortLines(s) {
      forall chunks ensures AgreesOn(s, chunks) { ShortAgrees(s, chunks); }
    } else {
      var chunks := LongDisagrees(s);
    }
  }

  // ------------------------------------------------ what the proxy reports

  /** The last line of all that carries a chunk, and its chunk. */
  ghost predicate LastChunkAt(lib: Library, lines: seq<string>, i: nat, data: string)
  {
    i < |lines| && Carries(lib, lines[i], data) && forall j :: i < j < |lines| ==> Bare(lib, lines[j])
  }

  /** The chunk of the last line that carries one, cut to size; nothing if none does. */
  ghost predicate ShowsLast(lib: Library, lines: seq<string>, last: string)
  {
    || (last == "" && forall i :: 0 <= i < |lines| ==> Bare(lib, lines[i]))
    || exists i: nat, data :: LastChunkAt(lib, lines, i, data) && Clips(last, data)
  }

  /** The first line of all that names a model. */
  ghost predicate FirstModelAt(lib: Library, lines: seq<string>, i: nat, model: string)
  {
    && i < |lines| && Names(lib, lines[i], model) && model != ""
    && forall j, m :: 0 <= j < i && Names(lib, lines[j], m) ==> m == ""
  }

  /** The model of the first line that names one; nothing if none does. */
  ghost predicate ShowsFirst(lib: Library, lines: seq<string>, model: string)
  {
    || (model == "" && forall i, m :: 0 <= i < |lines| && Names(lib, lines[i], m) ==> m == "")
    || exists i: nat :: FirstModelAt(lib, lines, i, model)
  }

  /** A stream whose last chunk line reads "data:" and then x, blanks aside, reports x
      trimmed, up to 16384 bytes of it. */
  lemma LastDataLineReported(lib: Library, lines: seq<string>, last: string, i: nat, x: string)
    requires ShowsLast(lib, lines, last) && i < |lines| && lib.trim(lines[i]) == "data:" + x && IsChunk(lib.trim(x))
    requires forall j :: i < j < |lines| ==> Bare(lib, lines[j])
    ensures Clips(last, lib.trim(x))
  {
    assert IsDataLine(lib, lines[i], x, lib.trim(x));
    assert Carries(lib, lines[i], lib.trim(x));
    var k: nat, data :| LastChunkAt(lib, lines, k, data) && Clips(last, data);
    LastUnique(lib, lines, i, lib.trim(x), k, data);
  }

  lemma LastUnique(lib: Library, lines: seq<string>, i: nat, data: string, i': nat, data': string)
    requires LastChunkAt(lib, lines, i, data) && LastChunkAt(lib, lines, i', data')
    ensures i == i' && data == data'
  {
    PayloadExactly(lib, lines[i], data);
    PayloadExactly(lib, lines[i], data');
    assert !Bare(lib, lines[i]) && !Bare(lib, lines[i']);
  }

  lemma SampleShowsLast(lib: Library, lines: seq<string>)
    ensures ShowsLast(lib, lines, ConsiderAll(lib, Sample("", ""), lines).last)
  {
    forall i | 0 <= i < |lines| ensures Payload(lib, lines[i]).None? <==> Bare(lib, lines[i]) { NoPayloadExactly(lib, lines[i]); }
    if exists i :: 0 <= i < |lines| && Payload(lib, lines[i]).Some? {
      var i := LastCarrying(lib, lines);
      var data := Payload(lib, lines[i]).value;
      PayloadExactly(lib, lines[i], data);
      LastChunkWins(lib, Sample("", ""), lines, i, data);
      assert LastChunkAt(lib, lines, i, data);
    } else {
      NoChunk(lib, Sample("", ""), lines);
    }
  }

  lemma {:induction false} NoChunk(lib: Library, start: Sample, lines: seq<string>)
    requires forall i :: 0 <= i < |lines| ==> Payload(lib, lines[i]).None?
    ensures ConsiderAll(lib, start, lines) == start
  {
    if lines != [] { NoChunk(lib, start, lines[..|lines| - 1]); }
  }

  lemma {:induction false} LastCarrying(lib: Library, lines: seq<string>) returns (i: nat)
    requires exists k :: 0 <= k < |lines| && Payload(lib, lines[k]).Some?
    ensures i < |lines| && Payload(lib, lines[i]).Some? && forall j :: i < j < |lines| ==> Payload(lib, lines[j]).None?
  {
    i := |lines| - 1;
    while Payload(lib, lines[i]).None?
      invariant i < |lines| && forall j :: i < j < |lines| ==> Payload(lib, lines[j]).None?
      decreases i
    {
      i := i - 1;
    }
  }

  lemma SampleShowsFirst(lib: Library, lines: seq<string>)
    ensures ShowsFirst(lib, lines, ConsiderAll(lib, Sample("", ""), lines).model)
  {
    forall i, m | 0 <= i < |lines| && m != ""
      ensures ModelIn(lib, lines[i]) == m <==> Names(lib, lines[i], m)
    {
      ModelInExactly(lib, lines[i], m);
    }
    if exists i :: 0 <= i < |lines| && ModelIn(lib, lines[i]) != "" {
      var i := FirstNaming(lib, lines);
      FirstNamedWins(lib, Sample("", ""), lines, i);
      assert FirstModelAt(lib, lines, i, ModelIn(lib, lines[i]));
    } else {
      NoModelYet(lib, Sample("", ""), lines);
    }
  }

  lemma {:induction false} FirstNaming(lib: Library, lines: seq<string>) returns (i: nat)
    requires exists k :: 0 <= k < |lines| && ModelIn(lib, lines[k]) != ""
    ensures i < |lines| && ModelIn(lib, lines[i]) != "" && forall j :: 0 <= j < i ==> ModelIn(lib, lines[j]) == ""
  {
    i := 0;
    while ModelIn(lib, lines[i]) == ""
      invariant i < |lines| && forall j :: 0 <= j < i ==> ModelIn(lib, lines[j]) == ""
      decreases |lines| - i
    {
      i := i + 1;
    }
  }

  /** The first n bytes, or all of them. */
  ghost predicate IsStart(part: string, whole: string, n: nat)
  {
    part <= whole && |part| == if |whole| < n then |whole| else n
  }

  lemma PrefixIsStart(s: string, n: nat)
    ensures IsStart(Prefix(s, n), s, n)
  {
  }

  lemma SampleMeans(lib: Library, chunks: seq<string>, view: Sample)
    requires view == ConsiderAll(lib, Sample("", ""), Framed(chunks)) && ShortLines(Joined(chunks))
    ensures ShowsLast(lib, AllLines(Joined(chunks)), view.last) && ShowsFirst(lib, AllLines(Joined(chunks)), view.model)
  {
    AnyCuttingAgrees(lib, Sample("", ""), chunks);
    SampleShowsLast(lib, AllLines(Joined(chunks)));
    SampleShowsFirst(lib, AllLines(Joined(chunks)));
  }

  lemma NothingBefore(s: string)
    ensures "" + s == s
  {
  }

  /** One response from its first read to what the proxy hands the observer. However the
      body is cut into reads, a buffered response is sampled as its first maxBuf bytes, and a
      stream of lines of at most 65536 bytes as its last chunk and first model. */
  method SampleResponse(lib: Library, maxBuf: int, streaming: bool, chunks: seq<string>)
    returns (sampled: string, model: string)
    ensures !streaming ==>
              model == "" && IsStart(sampled, Joined(chunks), if maxBuf <= 0 then 262144 else maxBuf)
    ensures streaming && ShortLines(Joined(chunks)) ==>
              ShowsLast(lib, AllLines(Joined(chunks)), sampled) && ShowsFirst(lib, AllLines(Joined(chunks)), model)
  {
    var sink := new UsageSink(maxBuf);
    var tap := new TappingReader(lib, sink, streaming);
    tap.ReadAll(chunks);
    NothingBefore(Joined(chunks));
    NothingBefore("");
    PrefixIsStart(Joined(chunks), sink.maxBuf);
    tap.FlushTail();
    model := sink.model;
    sampled := sink.Snapshot();
    if streaming && ShortLines(Joined(chunks)) {
      SampleMeans(lib, chunks, sink.View());
    }
  }

  // ------------------------------------------------ when the sample depends on the cutting

  lemma FeedNewline(f: Framer, line: string)
    requires '\n' !in line && f == Framer(line, [])
    ensures Feed(f, "\n") == Framer("", [line])
  {
    OneLine(line);
    assert [] + [line] == [line];
  }

  /** A long line that a read ends in is cut down to its end. */
  lemma CutLine(line: string, end: string)
    requires '\n' !in line && |line| > MAX_LINE && end == Cap(line)
    ensures Framed([line, "\n"]) == [end]
  {
    NoLines(line);
    TwoReads(line, "\n");
    FeedNewline(Framer(end, []), end);
    assert [end] + [] == [end];
  }

  lemma WholeLine(line: string)
    requires '\n' !in line
    ensures Framed([line + "\n"]) == [line] && Joined([line + "\n"]) == line + "\n"
  {
    var s := line + "\n";
    OneLine(line);
    assert [s] == [] + [s] && "" + s == s;
    FeedOne([], s);
    assert [] + [line] == [line] && [line] + [] == [line];
  }

  lemma OneLine(line: string)
    requires '\n' !in line
    ensures Lines(line + "\n") == [line] && Tail(line + "\n") == ""
  {
    var s := line + "\n";
    assert s == line + ['\n'] + "";
    IndexOfJoined(line, '\n', "");
    assert s[..|line|] == line && s[|line| + 1..] == "";
    LineStep(s, |line|);
    NoLines("");
  }

  /** The sample of a stream can depend on its cutting only through a line longer than 65536
      bytes; it does for each such line that carries a chunk its own end does not: read in
      one piece the chunk is sampled, cut before its newline nothing is. */
  lemma LongChunkDependsOnCutting(lib: Library, line: string, data: string)
    requires '\n' !in line && |line| > MAX_LINE
    requires Carries(lib, line, data) && Bare(lib, Cap(line))
    ensures Joined([line, "\n"]) == Joined([line + "\n"])
    ensures ConsiderAll(lib, Sample("", ""), Framed([line, "\n"])) == Sample("", "")
    ensures Clips(ConsiderAll(lib, Sample("", ""), Framed([line + "\n"])).last, data)
    ensures ConsiderAll(lib, Sample("", ""), Framed([line + "\n"])).last != ""
  {
    CutLine(line, Cap(line));
    WholeLine(line);
    TwoReads(line, "\n");
    BareSampled(lib, Cap(line));
    ChunkSampled(lib, line, data);
  }

  lemma BareSampled(lib: Library, line: string)
    requires Bare(lib, line)
    ensures ConsiderAll(lib, Sample("", ""), [line]) == Sample("", "")
  {
    NoPayloadExactly(lib, line);
    NoChunk(lib, Sample("", ""), [line]);
  }

  lemma ChunkSampled(lib: Library, line: string, data: string)
    requires Carries(lib, line, data)
    ensures Clips(ConsiderAll(lib, Sample("", ""), [line]).last, data)
    ensures ConsiderAll(lib, Sample("", ""), [line]).last != ""
  {
    LastChunkWins(lib, Sample("", ""), [line], 0, data);
  }
}

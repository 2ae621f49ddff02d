/** internal/orchestrator/logs.go: cutting container output into log entries, write by write. */
module LineCollector {
  import opened Basics

  newtype byte = n: int | 0 <= n < 256

  const LF: byte := 10
  const CR: byte := 13
  const SPACE: byte := 32

  /** The text of a parsed timestamp, or the clock at the time the line was met. */
  datatype Stamp = Parsed(text: string) | Clock(at: int)

  datatype LogEntry = LogEntry(stamp: Stamp, stream: string, content: seq<byte>)

  /** The two timestamp formats tried, in that order; each gives the reformatted time. */
  datatype Formats = Formats(nano: seq<byte> -> Option<string>, plain: seq<byte> -> Option<string>)

  // ---------------------------------------------------------------- the whole stream at once

  function IndexOf(s: seq<byte>, b: byte): (r: Option<nat>)
    ensures r.Some? ==> r.value < |s| && s[r.value] == b && b !in s[..r.value]
    ensures r.None? ==> b !in s
  {
    if s == [] then None
    else if s[0] == b then Some(0)
    else
      var rest := IndexOf(s[1..], b);
      if rest.None? then None
      else
        assert s[..rest.value + 1] == [s[0]] + s[1..][..rest.value];
        Some(rest.value + 1)
  }

  /** The pieces between newlines, the last one possibly empty. */
  function Split(s: seq<byte>): (r: seq<seq<byte>>)
    ensures r != []
    decreases |s|
  {
    var i := IndexOf(s, LF);
    if i.None? then [s] else [s[..i.value]] + Split(s[i.value + 1..])
  }

  function Complete(s: seq<byte>): seq<seq<byte>> {
    Split(s)[..|Split(s)| - 1]
  }

  function Rest(s: seq<byte>): seq<byte> {
    Split(s)[|Split(s)| - 1]
  }

  /** strings.TrimRight with CR and LF. */
  function Clean(s: seq<byte>): (r: seq<byte>)
    ensures r <= s && (r == [] || (r[|r| - 1] != CR && r[|r| - 1] != LF))
    ensures forall k :: |r| <= k < |s| ==> s[k] == CR || s[k] == LF
  {
    if s != [] && (s[|s| - 1] == CR || s[|s| - 1] == LF) then Clean(s[..|s| - 1]) else s
  }

  function ParseLine(f: Formats, raw: seq<byte>, stream: string, now: int): LogEntry {
    var i := IndexOf(raw, SPACE);
    if i.Some? && f.nano(raw[..i.value]).Some? then
      LogEntry(Parsed(f.nano(raw[..i.value]).value), stream, raw[i.value + 1..])
    else if i.Some? && f.plain(raw[..i.value]).Some? then
      LogEntry(Parsed(f.plain(raw[..i.value]).value), stream, raw[i.value + 1..])
    else LogEntry(Clock(now), stream, raw)
  }

  /** Entries up to the clock. */
  function Erase(e: LogEntry): LogEntry {
    if e.stamp.Clock? then e.(stamp := Clock(0)) else e
  }

  function Erased(es: seq<LogEntry>): (r: seq<LogEntry>)
    ensures |r| == |es|
  {
    if es == [] then [] else Erased(es[..|es| - 1]) + [Erase(es[|es| - 1])]
  }

  /** One entry per piece that is not empty once trimmed. */
  function Render(f: Formats, stream: string, pieces: seq<seq<byte>>): seq<LogEntry> {
    if pieces == [] then []
    else
      var n := |pieces| - 1;
      var text := Clean(pieces[n]);
      if text == [] then Render(f, stream, pieces[..n])
      else Render(f, stream, pieces[..n]) + [ParseLine(f, text, stream, 0)]
  }

  // ---------------------------------------------------------------- splitting is the inverse of joining

  function Join(pieces: seq<seq<byte>>): seq<byte> {
    if pieces == [] then []
    else if |pieces| == 1 then pieces[0]
    else pieces[0] + [LF] + Join(pieces[1..])
  }

  lemma SplitAtFirst(head: seq<byte>, tail: seq<byte>)
    requires LF !in head
    ensures Split(head + [LF] + tail) == [head] + Split(tail)
  {
    var s := head + [LF] + tail;
    assert s[|head|] == LF;
    var i := IndexOf(s, LF).value;
    assert i >= |head| by {
      assert forall k :: 0 <= k < |head| ==> s[k] == head[k];
    }
    assert i <= |head| by {
      assert forall k :: 0 <= k < i ==> s[k] in s[..i];
    }
    assert s[..i] == head && s[i + 1..] == tail;
  }

  /** The pieces of a stream are the only newline-free pieces that join to it. */
  lemma {:induction false} SplitInvertsJoin(pieces: seq<seq<byte>>)
    requires pieces != [] && forall k :: 0 <= k < |pieces| ==> LF !in pieces[k]
    ensures Split(Join(pieces)) == pieces
    decreases |pieces|
  {
    if |pieces| > 1 {
      SplitInvertsJoin(pieces[1..]);
      SplitAtFirst(pieces[0], Join(pieces[1..]));
      assert pieces == [pieces[0]] + pieces[1..];
    } else {
      assert pieces == [pieces[0]];
    }
  }

  lemma {:induction false} JoinInvertsSplit(s: seq<byte>)
    ensures Join(Split(s)) == s
    ensures forall k :: 0 <= k < |Split(s)| ==> LF !in Split(s)[k]
    decreases |s|
  {
    hide Split;
    var i := IndexOf(s, LF);
    if i.Some? {
      var head, tail := s[..i.value], s[i.value + 1..];
      JoinInvertsSplit(tail);
      assert s == head + [LF] + tail;
      SplitAtFirst(head, tail);
      assert ([head] + Split(tail))[1..] == Split(tail);
    } else {
      Unbroken(s);
    }
  }

  /** Splitting goes on where it left off: only the unfinished piece matters. */
  lemma {:induction false} SplitResumes(a: seq<byte>, b: seq<byte>)
    ensures Split(a + b) == Complete(a) + Split(Rest(a) + b)
    decreases |a|
  {
    hide Split;
    var i := IndexOf(a, LF);
    if i.None? {
      Unbroken(a);
    } else {
      var head, tail := a[..i.value], a[i.value + 1..];
      SplitResumes(tail, b);
      assert a == head + [LF] + tail;
      assert a + b == head + [LF] + (tail + b);
      SplitAtFirst(head, tail + b);
      PartsAtFirst(head, tail);
      hide Complete, Rest;
      assert [head] + (Complete(tail) + Split(Rest(tail) + b)) == ([head] + Complete(tail)) + Split(Rest(tail) + b);
    }
  }

  lemma PartsAtFirst(head: seq<byte>, tail: seq<byte>)
    requires LF !in head
    ensures Complete(head + [LF] + tail) == [head] + Complete(tail) && Rest(head + [LF] + tail) == Rest(tail)
  {
    hide Split;
    SplitAtFirst(head, tail);
  }

  lemma Unbroken(s: seq<byte>)
    requires LF !in s
    ensures Split(s) == [s] && Complete(s) == [] && Rest(s) == s
  {
  }

  lemma PartsResume(a: seq<byte>, b: seq<byte>)
    ensures Complete(a + b) == Complete(a) + Complete(Rest(a) + b) && Rest(a + b) == Rest(Rest(a) + b)
  {
    SplitResumes(a, b);
  }

  lemma RestHasNoNewline(s: seq<byte>)
    ensures LF !in Rest(s)
  {
    JoinInvertsSplit(s);
  }

  // ---------------------------------------------------------------- rendering

  lemma {:induction false} RenderConcat(f: Formats, stream: string, a: seq<seq<byte>>, b: seq<seq<byte>>)
    ensures Render(f, stream, a + b) == Render(f, stream, a) + Render(f, stream, b)
    decreases |b|
  {
    hide Clean, ParseLine;
    if b == [] {
      assert a + b == a;
    } else {
      var n := |b| - 1;
      RenderConcat(f, stream, a, b[..n]);
      assert (a + b)[..|a + b| - 1] == a + b[..n];
      assert (a + b)[|a + b| - 1] == b[n];
      var text := Clean(b[n]);
      if text != [] {
        assert Render(f, stream, b) == Render(f, stream, b[..n]) + [ParseLine(f, text, stream, 0)];
      }
    }
  }

  lemma RenderOne(f: Formats, stream: string, piece: seq<byte>)
    ensures Render(f, stream, [piece]) == if Clean(piece) == [] then [] else [ParseLine(f, Clean(piece), stream, 0)]
  {
    assert [piece][..0] == [];
  }

  /** The newline that ends a line is trimmed with it. */
  lemma CleanLine(s: seq<byte>)
    ensures Clean(s + [LF]) == Clean(s)
  {
    assert (s + [LF])[..|s|] == s;
  }

  lemma EraseParsed(f: Formats, raw: seq<byte>, stream: string, now: int)
    ensures Erase(ParseLine(f, raw, stream, now)) == ParseLine(f, raw, stream, 0)
  {
  }

  lemma ErasedSnoc(es: seq<LogEntry>, e: LogEntry)
    ensures Erased(es + [e]) == Erased(es) + [Erase(e)]
  {
    assert (es + [e])[..|es|] == es;
  }

  /** The entries a whole stream gives. */
  function Collected(f: Formats, stream: string, s: seq<byte>): seq<LogEntry> {
    Render(f, stream, Split(s))
  }

  lemma CollectedParts(f: Formats, stream: string, s: seq<byte>)
    ensures Collected(f, stream, s) == Render(f, stream, Complete(s)) + Render(f, stream, [Rest(s)])
  {
    assert Split(s) == Complete(s) + [Rest(s)];
    RenderConcat(f, stream, Complete(s), [Rest(s)]);
  }

  /** A line whose first word is a time, in either format, is stamped with it and keeps what follows the first
      space; any other line keeps all of its text and is stamped with the clock. */
  lemma ParseLineMeans(f: Formats, word: seq<byte>, rest: seq<byte>, stream: string, now: int)
    requires SPACE !in word
    ensures ParseLine(f, word, stream, now) == LogEntry(Clock(now), stream, word)
    ensures ParseLine(f, word + [SPACE] + rest, stream, now) ==
            if f.nano(word).Some? then LogEntry(Parsed(f.nano(word).value), stream, rest)
            else if f.plain(word).Some? then LogEntry(Parsed(f.plain(word).value), stream, rest)
            else LogEntry(Clock(now), stream, word + [SPACE] + rest)
  {
    var raw := word + [SPACE] + rest;
    assert raw[|word|] == SPACE;
    var i := IndexOf(raw, SPACE).value;
    assert i >= |word| by {
      assert forall k :: 0 <= k < |word| ==> raw[k] == word[k];
    }
    assert i <= |word| by {
      assert forall k :: 0 <= k < i ==> raw[k] in raw[..i];
    }
    assert raw[..i] == word && raw[i + 1..] == rest;
  }

  // ---------------------------------------------------------------- the collector

  /** The entry list, shared by the collectors of one container. */
  class EntryList {
    var items: seq<LogEntry>

    constructor ()
      ensures items == []
    {
      items := [];
    }
  }

  class Collector {
    const stream: string
    const lines: EntryList
    const formats: Formats
    var buf: seq<byte>

    constructor (stream: string, lines: EntryList, formats: Formats)
      ensures this.stream == stream && this.lines == lines && this.formats == formats && buf == []
    {
      this.stream, this.lines, this.formats, this.buf := stream, lines, formats, [];
    }

    /** Appends the entry for one line, if anything is left of it. */
    method Keep(line: seq<byte>)
      modifies lines
      ensures Erased(lines.items) == Erased(old(lines.items)) + Render(formats, stream, [line])
    {
      hide ParseLine;
      var clean := Clean(line);
      RenderOne(formats, stream, line);
      if clean != [] {
        var now: int := *;
        var entry := ParseLine(formats, clean, stream, now);
        EraseParsed(formats, clean, stream, now);
        ErasedSnoc(lines.items, entry);
        lines.items := lines.items + [entry];
      }
    }

    /** Every line completed by this write is collected; the buffer keeps the unfinished one, which holds
        no newline. */
    method Write(p: seq<byte>) returns (n: nat)
      modifies this`buf, lines
      ensures n == |p|
      ensures buf == Rest(old(buf) + p) && LF !in buf
      ensures Erased(lines.items) == Erased(old(lines.items)) + Render(formats, stream, Complete(old(buf) + p))
    {
      hide Render, Clean, Split, Complete, Rest, Erased;
      buf := buf + p;
      ghost var all := buf;
      ghost var done: seq<seq<byte>> := [];
      RenderNothing(formats, stream);
      var i := IndexOf(buf, LF);
      while i.Some?
        invariant i == IndexOf(buf, LF)
        invariant done + Split(buf) == Split(all)
        invariant Erased(lines.items) == Erased(old(lines.items)) + Render(formats, stream, done)
        decreases |buf|
      {
        var line := buf[..i.value + 1];
        ghost var piece := buf[..i.value];
        LineStep(formats, stream, buf, i.value, done);
        buf := buf[i.value + 1..];
        Keep(line);
        assert Erased(lines.items) == Erased(old(lines.items)) + Render(formats, stream, done + [piece]);
        done := done + [piece];
        i := IndexOf(buf, LF);
      }
      LastStep(buf, done, all);
      n := |p|;
    }

    /** The unfinished line is collected too. */
    method Flush()
      modifies this`buf, lines
      ensures buf == []
      ensures Erased(lines.items) == Erased(old(lines.items)) + Render(formats, stream, [old(buf)])
    {
      RenderOne(formats, stream, buf);
      if |buf| > 0 {
        Keep(buf);
        buf := [];
      }
    }
  }

  lemma LineStep(f: Formats, stream: string, buf: seq<byte>, i: nat, done: seq<seq<byte>>)
    requires i < |buf| && buf[i] == LF && LF !in buf[..i]
    ensures done + Split(buf) == (done + [buf[..i]]) + Split(buf[i + 1..])
    ensures Render(f, stream, done + [buf[..i]]) == Render(f, stream, done) + Render(f, stream, [buf[..i + 1]])
  {
    hide Render, Clean, Split;
    assert buf == buf[..i] + [LF] + buf[i + 1..];
    SplitAtFirst(buf[..i], buf[i + 1..]);
    assert buf[..i + 1] == buf[..i] + [LF];
    CleanLine(buf[..i]);
    RenderSame(f, stream, buf[..i + 1], buf[..i]);
    RenderConcat(f, stream, done, [buf[..i]]);
  }

  lemma LastStep(buf: seq<byte>, done: seq<seq<byte>>, all: seq<byte>)
    requires LF !in buf && done + Split(buf) == Split(all)
    ensures done == Complete(all) && buf == Rest(all)
  {
    Unbroken(buf);
    hide Split;
  }

  lemma RenderNothing(f: Formats, stream: string)
    ensures Render(f, stream, []) == []
  {
  }

  lemma RenderSame(f: Formats, stream: string, a: seq<byte>, b: seq<byte>)
    requires Clean(a) == Clean(b)
    ensures Render(f, stream, [a]) == Render(f, stream, [b])
  {
    RenderOne(f, stream, a);
    RenderOne(f, stream, b);
  }

  // ---------------------------------------------------------------- both streams of a container

  /** One write of the demultiplexer. */
  datatype Frame = Frame(toErr: bool, bytes: seq<byte>)

  function Stream(toErr: bool): string {
    if toErr then "stderr" else "stdout"
  }

  /** Everything one stream carried. */
  function Carried(frames: seq<Frame>, toErr: bool): seq<byte> {
    if frames == [] then []
    else
      var n := |frames| - 1;
      if frames[n].toErr == toErr then Carried(frames[..n], toErr) + frames[n].bytes else Carried(frames[..n], toErr)
  }

  function OfStream(es: seq<LogEntry>, stream: string): seq<LogEntry> {
    if es == [] then []
    else
      var n := |es| - 1;
      if es[n].stream == stream then OfStream(es[..n], stream) + [es[n]] else OfStream(es[..n], stream)
  }

  lemma {:induction false} OfStreamConcat(a: seq<LogEntry>, b: seq<LogEntry>, stream: string)
    ensures OfStream(a + b, stream) == OfStream(a, stream) + OfStream(b, stream)
    decreases |b|
  {
    if b == [] {
      assert a + b == a;
    } else {
      var n := |b| - 1;
      OfStreamConcat(a, b[..n], stream);
      assert (a + b)[..|a + b| - 1] == a + b[..n];
      assert (a + b)[|a + b| - 1] == b[n];
    }
  }

  lemma {:induction false} RenderStream(f: Formats, from: string, pieces: seq<seq<byte>>, stream: string)
    ensures from == stream ==> OfStream(Render(f, from, pieces), stream) == Render(f, from, pieces)
    ensures from != stream ==> OfStream(Render(f, from, pieces), stream) == []
  {
    hide Clean;
    if pieces != [] {
      var n := |pieces| - 1;
      RenderStream(f, from, pieces[..n], stream);
      var rest, text := Render(f, from, pieces[..n]), Clean(pieces[n]);
      if text != [] {
        assert (rest + [ParseLine(f, text, from, 0)])[..|rest|] == rest;
      }
    }
  }

  /** A write to one stream, seen by each. */
  lemma WriteSeen(f: Formats, before: seq<LogEntry>, from: string, pieces: seq<seq<byte>>, stream: string)
    ensures from == stream ==>
              OfStream(before + Render(f, from, pieces), stream) == OfStream(before, stream) + Render(f, from, pieces)
    ensures from != stream ==> OfStream(before + Render(f, from, pieces), stream) == OfStream(before, stream)
  {
    OfStreamConcat(before, Render(f, from, pieces), stream);
    RenderStream(f, from, pieces, stream);
  }

  lemma StreamsDiffer()
    ensures Stream(true) != Stream(false)
  {
    assert Stream(true)[3] != Stream(false)[3];
  }

  /** What has been collected of a stream, and what its buffer holds. */
  ghost predicate InStep(f: Formats, es: seq<LogEntry>, frames: seq<Frame>, toErr: bool, buf: seq<byte>) {
    && OfStream(Erased(es), Stream(toErr)) == Render(f, Stream(toErr), Complete(Carried(frames, toErr)))
    && buf == Rest(Carried(frames, toErr))
  }

  lemma StepsOn(f: Formats, es: seq<LogEntry>, after: seq<LogEntry>, frames: seq<Frame>, fr: Frame, toErr: bool,
                buf: seq<byte>, bufAfter: seq<byte>)
    requires InStep(f, es, frames, toErr, buf)
    requires exists b ::
               && Erased(after) == Erased(es) + Render(f, Stream(fr.toErr), Complete(b + fr.bytes))
               && (fr.toErr == toErr ==> b == buf)
    requires bufAfter == if fr.toErr == toErr then Rest(buf + fr.bytes) else buf
    ensures InStep(f, after, frames + [fr], toErr, bufAfter)
  {
    hide Render, Complete, Rest, Erased, Stream;
    var b :| Erased(after) == Erased(es) + Render(f, Stream(fr.toErr), Complete(b + fr.bytes)) &&
        (fr.toErr == toErr ==> b == buf);
    StreamsDiffer();
    var s := Carried(frames, toErr);
    assert (frames + [fr])[..|frames|] == frames;
    WriteSeen(f, Erased(es), Stream(fr.toErr), Complete(b + fr.bytes), Stream(toErr));
    if fr.toErr == toErr {
      PartsResume(s, fr.bytes);
      RenderConcat(f, Stream(toErr), Complete(s), Complete(Rest(s) + fr.bytes));
    }
  }

  /** The demultiplexing part of CaptureAndCompressLogs: however the container's output was cut into
      frames and interleaved, each stream's entries are those of that stream split as a whole. */
  method CollectFrames(formats: Formats, frames: seq<Frame>) returns (entries: seq<LogEntry>)
    ensures OfStream(Erased(entries), "stdout") == Collected(formats, "stdout", Carried(frames, false))
    ensures OfStream(Erased(entries), "stderr") == Collected(formats, "stderr", Carried(frames, true))
  {
    hide OfStream, Erased, Collected, Carried;
    entries := Demultiplex(formats, frames);
    assert Stream(false) == "stdout" && Stream(true) == "stderr";
  }

  method Demultiplex(formats: Formats, frames: seq<Frame>) returns (entries: seq<LogEntry>)
    ensures forall toErr ::
              OfStream(Erased(entries), Stream(toErr)) == Collected(formats, Stream(toErr), Carried(frames, toErr))
  {
    hide Render, Complete, Rest, Erased, Stream, InStep, Collected;
    var list := new EntryList();
    var out := new Collector(Stream(false), list, formats);
    var err := new Collector(Stream(true), list, formats);
    StartsInStep(formats, false);
    StartsInStep(formats, true);
    for k := 0 to |frames|
      invariant fresh(list) && fresh(out) && fresh(err) && out != err
      invariant out.lines == list && err.lines == list && out.formats == formats && err.formats == formats
      invariant out.stream == Stream(false) && err.stream == Stream(true)
      invariant InStep(formats, list.items, frames[..k], false, out.buf)
      invariant InStep(formats, list.items, frames[..k], true, err.buf)
    {
      ghost var before, outBuf, errBuf := list.items, out.buf, err.buf;
      var fr := frames[k];
      if fr.toErr {
        var _ := err.Write(fr.bytes);
      } else {
        var _ := out.Write(fr.bytes);
      }
      StepsOn(formats, before, list.items, frames[..k], fr, false, outBuf, out.buf);
      StepsOn(formats, before, list.items, frames[..k], fr, true, errBuf, err.buf);
      assert frames[..k + 1] == frames[..k] + [fr];
    }
    assert frames[..|frames|] == frames;
    ghost var seen, outBuf, errBuf := list.items, out.buf, err.buf;
    out.Flush();
    ghost var flushed := list.items;
    err.Flush();
    entries := list.items;
    forall toErr
      ensures OfStream(Erased(entries), Stream(toErr)) == Collected(formats, Stream(toErr), Carried(frames, toErr)) {
      FlushesOut(formats, seen, flushed, entries, frames, toErr, outBuf, errBuf);
    }
  }

  lemma StartsInStep(f: Formats, toErr: bool)
    ensures InStep(f, [], [], toErr, [])
  {
  }

  lemma FlushesOut(f: Formats, es: seq<LogEntry>, flushed: seq<LogEntry>, after: seq<LogEntry>, frames: seq<Frame>,
                   toErr: bool,
                   outBuf: seq<byte>, errBuf: seq<byte>)
    requires InStep(f, es, frames, false, outBuf) && InStep(f, es, frames, true, errBuf)
    requires Erased(flushed) == Erased(es) + Render(f, Stream(false), [outBuf])
    requires Erased(after) == Erased(flushed) + Render(f, Stream(true), [errBuf])
    ensures OfStream(Erased(after), Stream(toErr)) == Collected(f, Stream(toErr), Carried(frames, toErr))
  {
    hide Render, Complete, Rest, Erased, Stream, Collected;
    StreamsDiffer();
    WriteSeen(f, Erased(es), Stream(false), [outBuf], Stream(toErr));
    WriteSeen(f, Erased(flushed), Stream(true), [errBuf], Stream(toErr));
    CollectedParts(f, Stream(toErr), Carried(frames, toErr));
  }

  // ---------------------------------------------------------------- one collector, any cutting

  function Flatten(chunks: seq<seq<byte>>): seq<byte> {
    if chunks == [] then [] else Flatten(chunks[..|chunks| - 1]) + chunks[|chunks| - 1]
  }

  /** The entries and the buffer after a list of writes, as Write leaves them. */
  function AfterWrites(f: Formats, stream: string, chunks: seq<seq<byte>>): (seq<LogEntry>, seq<byte>) {
    if chunks == [] then ([], [])
    else
      var n := |chunks| - 1;
      var (es, buf) := AfterWrites(f, stream, chunks[..n]);
      (es + Render(f, stream, Complete(buf + chunks[n])), Rest(buf + chunks[n]))
  }

  function AfterFlush(f: Formats, stream: string, chunks: seq<seq<byte>>): seq<LogEntry> {
    var (es, buf) := AfterWrites(f, stream, chunks);
    es + Render(f, stream, [buf])
  }

  lemma {:induction false} WritesInStep(f: Formats, stream: string, chunks: seq<seq<byte>>)
    ensures AfterWrites(f, stream, chunks) == (Render(f, stream, Complete(Flatten(chunks))), Rest(Flatten(chunks)))
  {
    hide Render, Complete, Rest;
    if chunks == [] {
      RenderNothing(f, stream);
      EmptyParts();
    } else {
      var n := |chunks| - 1;
      WritesInStep(f, stream, chunks[..n]);
      var s := Flatten(chunks[..n]);
      PartsResume(s, chunks[n]);
      RenderConcat(f, stream, Complete(s), Complete(Rest(s) + chunks[n]));
    }
  }

  lemma EmptyParts()
    ensures Complete([]) == [] && Rest([]) == []
  {
  }

  /** However a stream is cut into writes, flushing gives the entries of the whole stream. */
  lemma CuttingIsIrrelevant(f: Formats, stream: string, chunks: seq<seq<byte>>)
    ensures AfterFlush(f, stream, chunks) == Collected(f, stream, Flatten(chunks))
    ensures LF !in AfterWrites(f, stream, chunks).1
  {
    WritesInStep(f, stream, chunks);
    CollectedParts(f, stream, Flatten(chunks));
    RestHasNoNewline(Flatten(chunks));
  }
}

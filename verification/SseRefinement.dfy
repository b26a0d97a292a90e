/** The incremental decoder computes the batch meaning, however the bytes were cut into chunks. */
module SseRefinement {
  import opened Common
  import opened SseReference
  import opened SseDecoder
  import Utf8

  function Flat(values: seq<seq<Byte>>): seq<Byte> {
    if values == [] then [] else Flat(values[..|values| - 1]) + values[|values| - 1] + [LF]
  }

  lemma {:induction false} FlatIsJoined(values: seq<seq<Byte>>)
    requires values != []
    ensures Flat(values) == Join(values) + [LF]
  {
    if |values| > 1 {
      FlatIsJoined(values[..|values| - 1]);
    }
  }

  // The decoder's buffers hold what the batch reader keeps, plus the line in progress.
  predicate Same(c: Core, f: Frame) {
    && c.data == Flat(f.values)
    && c.frame == f.used + |c.line|
    && c.frames == f.seen
    && c.first == f.first
  }

  lemma {:induction false} LineEndAppend(line: seq<Byte>, s: seq<Byte>)
    requires forall i :: 0 <= i < |line| ==> !IsBreak(line[i])
    ensures LineEnd(line + s) == |line| + LineEnd(s)
  {
    if line == [] {
      assert line + s == s;
    } else {
      assert (line + s)[1..] == line[1..] + s;
      LineEndAppend(line[1..], s);
    }
  }

  // The input still to be read by the batch reader, and what ends it.
  function Text(l: Limits, c: Core, s: seq<Byte>): seq<Byte>
    requires c.total <= l.totalBytes
  {
    var kept := Budgeted(l.totalBytes - c.total, s, None).0;
    c.line + (if c.afterCr then SkipLineFeed(kept) else kept)
  }

  function End(l: Limits, c: Core, s: seq<Byte>, stop: Option<Error>): Option<Error>
    requires c.total <= l.totalBytes
  {
    Budgeted(l.totalBytes - c.total, s, stop).1
  }

  // A line that fits so far, and goes no further, meets no budget.
  lemma {:induction false} NothingLeft(l: Limits, c: Core, f: Frame, stop: Option<Error>)
    requires Bounded(l, c) && Same(c, f)
    ensures Read(l, f, c.line, stop)
         == Outcome([], if stop.None? && !Utf8.WellFormed(c.line) then Some(InvalidUtf8) else stop)
  {
    LineEndAppend(c.line, []);
    assert c.line + [] == c.line;
  }

  // The byte that overruns a budget makes the whole line oversize, with the same error.
  lemma {:induction false} Overrun(l: Limits, c: Core, f: Frame, b: Byte, rest: seq<Byte>, stop: Option<Error>)
    requires Bounded(l, c) && Same(c, f)
    requires c.frame >= l.frameBytes || (!IsBreak(b) && |c.line| >= l.lineBytes)
    ensures Read(l, f, c.line + ([b] + rest), stop)
         == Outcome([], Some(if c.frame >= l.frameBytes then FrameTooLarge else LineTooLarge))
  {
    LineEndAppend(c.line, [b] + rest);
  }

  predicate AtBreak(l: Limits, c: Core, f: Frame) {
    && Bounded(l, c.(afterCr := false)) && c.data == Flat(f.values) && c.frame == f.used + |c.line| + 1
    && c.frames == f.seen && c.first == f.first && |c.data| + |c.line| < c.frame
  }

  ghost predicate SameClose(l: Limits, c: Core, f: Frame) {
    var close, finish := CloseLine(l, f, c.line), FinishLine(l, c);
    if close.Err? then finish == Stop(close.error)
    else finish.Next? && finish.event == close.value.1 && Same(finish.core, close.value.0)
  }

  lemma {:induction false} SameDispatch(l: Limits, c: Core, f: Frame)
    requires Bounded(l, c.(line := [], afterCr := false)) && c.data == Flat(f.values) && c.frames == f.seen
    ensures match Dispatch(l, f)
            case Err(error) => DispatchBuffer(l, c) == Stop(error)
            case Ok((g, event)) =>
              && DispatchBuffer(l, c).Next? && DispatchBuffer(l, c).event == event
              && Same(DispatchBuffer(l, c).core, g)
  {
    DispatchBounded(l, c);
    if f.values != [] {
      FlatIsJoined(f.values);
      assert c.data[..|c.data| - 1] == Join(f.values);
    }
  }

  lemma {:induction false} SameField(c: Core, f: Frame, line: seq<Byte>)
    requires c.data == Flat(f.values)
    ensures AddField(c, line).data == Flat(f.values + (if IsDataLine(line) then [DataValue(line)] else []))
  {
    DataField(line);
    if IsDataLine(line) {
      var values := f.values + [DataValue(line)];
      assert values[..|values| - 1] == f.values;
    } else {
      assert f.values + [] == f.values;
    }
  }

  // A line closes the same way in both readers.
  lemma {:induction false} LineCloses(l: Limits, c: Core, f: Frame)
    requires AtBreak(l, c, f)
    ensures SameClose(l, c, f)
  {
    if Utf8.WellFormed(c.line) {
      if Stripped(c) == [] {
        SameDispatch(l, c, f);
      } else {
        SameField(c, f, Stripped(c));
      }
    }
  }

  // One whole line, read at its break.
  lemma {:induction false} LineRead(l: Limits, c: Core, f: Frame, b: Byte, rest: seq<Byte>, stop: Option<Error>)
    requires Bounded(l, c) && Same(c, f) && c.frame < l.frameBytes && IsBreak(b)
    ensures var close := CloseLine(l, f, c.line);
            Read(l, f, c.line + ([b] + rest), stop)
            == if close.Err? then Outcome([], Some(close.error))
               else Prepend(close.value.1, Read(l, close.value.0, if b == CR then SkipLineFeed(rest) else rest, stop))
  {
    var text, n := c.line + ([b] + rest), |c.line|;
    assert LineEnd(text) == n by { LineEndAppend(c.line, [b] + rest); }
    assert Oversize(l, f.used, n, true).None?;
    assert text[..n] == c.line;
    assert AfterBreak(text, n) == if b == CR then SkipLineFeed(rest) else rest by {
      assert text[n + 1..] == rest;
    }
  }

  // Where the batch reader stands after one byte the decoder accepts.
  function Advance(l: Limits, c: Core, f: Frame, b: Byte): Frame {
    if IsBreak(b) && !(c.afterCr && b == LF) then
      var close := CloseLine(l, f, c.line);
      if close.Ok? then close.value.0 else f
    else f
  }

  // What is left after the first byte, within the byte budget.
  function Rest(l: Limits, c: Core, s: seq<Byte>): seq<Byte>
    requires s != [] && c.total < l.totalBytes
  {
    Budgeted(l.totalBytes - c.total - 1, s[1..], None).0
  }

  lemma {:induction false} TextStep(l: Limits, c: Core, d: Core, s: seq<Byte>, stop: Option<Error>)
    requires s != [] && c.total < l.totalBytes && d.total == c.total + 1
    ensures Text(l, c, s) == c.line + (if c.afterCr && s[0] == LF then Rest(l, c, s) else [s[0]] + Rest(l, c, s))
    ensures Text(l, d, s[1..]) == d.line + (if d.afterCr then SkipLineFeed(Rest(l, c, s)) else Rest(l, c, s))
    ensures End(l, d, s[1..], stop) == End(l, c, s, stop)
  {
    assert Budgeted(l.totalBytes - c.total, s, None).0 == [s[0]] + Rest(l, c, s);
  }

  // The decoder's state as it closes a line at `b`.
  function Counted(c: Core, b: Byte): Core {
    c.(total := c.total + 1, frame := c.frame + 1, afterCr := b == CR)
  }

  lemma {:induction false} BreakSteps(l: Limits, c: Core, f: Frame, b: Byte)
    requires Bounded(l, c) && Same(c, f) && c.total < l.totalBytes && c.frame < l.frameBytes
    requires IsBreak(b) && !(c.afterCr && b == LF)
    ensures Step(l, c, b) == FinishLine(l, Counted(c, b)) && AtBreak(l, Counted(c, b), f)
  {
  }

  // A break within budget closes the line in both readers.
  lemma {:induction false} BreakCloses(l: Limits, c: Core, f: Frame, b: Byte)
    requires Bounded(l, c) && Same(c, f) && c.total < l.totalBytes && c.frame < l.frameBytes
    requires IsBreak(b) && !(c.afterCr && b == LF)
    ensures Step(l, c, b).Stop? ==> CloseLine(l, f, c.line) == Err(Step(l, c, b).error)
    ensures Step(l, c, b).Next? ==>
              && CloseLine(l, f, c.line).Ok? && CloseLine(l, f, c.line).value.1 == Step(l, c, b).event
              && Same(Step(l, c, b).core, CloseLine(l, f, c.line).value.0)
  {
    BreakSteps(l, c, f, b);
    LineCloses(l, Counted(c, b), f);
  }

  lemma {:induction false} BreakState(l: Limits, c: Core, b: Byte)
    requires Bounded(l, c) && c.total < l.totalBytes && c.frame < l.frameBytes && IsBreak(b) && !(c.afterCr && b == LF)
    ensures Step(l, c, b).Next? ==>
              var d := Step(l, c, b).core; d.line == [] && d.total == c.total + 1 && d.afterCr == (b == CR)
  {
  }

  lemma {:induction false} BreakReads(l: Limits, c: Core, f: Frame, b: Byte, rest: seq<Byte>, end: Option<Error>)
    requires Bounded(l, c) && Same(c, f) && c.total < l.totalBytes && c.frame < l.frameBytes
    requires IsBreak(b) && !(c.afterCr && b == LF)
    ensures Step(l, c, b).Stop? ==> Read(l, f, c.line + ([b] + rest), end) == Outcome([], Some(Step(l, c, b).error))
    ensures Step(l, c, b).Next? ==>
              (Read(l, f, c.line + ([b] + rest), end)
               == Prepend(Step(l, c, b).event,
                          Read(l, Advance(l, c, f, b), if b == CR then SkipLineFeed(rest) else rest, end)))
    ensures Step(l, c, b).Next? ==> Same(Step(l, c, b).core, Advance(l, c, f, b))
  {
    BreakCloses(l, c, f, b);
    LineRead(l, c, f, b, rest, end);
  }

  // The decoder's next step and the batch reader's progress agree on event, error and what is left.
  ghost predicate Agree(l: Limits, c: Core, f: Frame, s: seq<Byte>, stop: Option<Error>)
    requires s != [] && c.total < l.totalBytes
  {
    var next, all := Step(l, c, s[0]), Read(l, f, Text(l, c, s), End(l, c, s, stop));
    if next.Stop? then all == Outcome([], Some(next.error))
    else
      var d, g := next.core, Advance(l, c, f, s[0]);
      && d.total == c.total + 1 && Same(d, g)
      && all == Prepend(next.event, Read(l, g, Text(l, d, s[1..]), End(l, d, s[1..], stop)))
  }

  lemma {:induction false} BreakAgrees(l: Limits, c: Core, f: Frame, s: seq<Byte>, stop: Option<Error>)
    requires Bounded(l, c) && Same(c, f) && s != [] && c.total < l.totalBytes && c.frame < l.frameBytes
    requires IsBreak(s[0]) && !(c.afterCr && s[0] == LF)
    ensures Agree(l, c, f, s, stop)
  {
    var b, rest := s[0], Rest(l, c, s);
    BreakReads(l, c, f, b, rest, End(l, c, s, stop));
    BreakState(l, c, b);
    var next := Step(l, c, b);
    var d := if next.Next? then next.core else c.(total := c.total + 1);
    TextStep(l, c, d, s, stop);
    assert next.Next? ==> Text(l, d, s[1..]) == if b == CR then SkipLineFeed(rest) else rest;
  }

  lemma {:induction false} StepReads(l: Limits, c: Core, f: Frame, s: seq<Byte>, stop: Option<Error>)
    requires Bounded(l, c) && Same(c, f) && s != [] && c.total < l.totalBytes
    ensures Agree(l, c, f, s, stop)
  {
    var b := s[0];
    if c.afterCr && b == LF {
      TextStep(l, c, Step(l, c, b).core, s, stop);
    } else if c.frame >= l.frameBytes || (!IsBreak(b) && |c.line| >= l.lineBytes) {
      TextStep(l, c, c.(total := c.total + 1), s, stop);
      Overrun(l, c, f, b, Rest(l, c, s), End(l, c, s, stop));
    } else if IsBreak(b) {
      BreakAgrees(l, c, f, s, stop);
    } else {
      TextStep(l, c, Step(l, c, b).core, s, stop);
      assert c.line + ([b] + Rest(l, c, s)) == (c.line + [b]) + Rest(l, c, s);
    }
  }

  /**
   From any reachable state the byte machine yields what the batch reader makes of the line in progress and the rest.
   */
  lemma {:induction false} FeedReads(l: Limits, c: Core, f: Frame, s: seq<Byte>, stop: Option<Error>)
    requires Bounded(l, c) && Same(c, f)
    ensures Feed(l, c, s, stop) == Read(l, f, Text(l, c, s), End(l, c, s, stop))
    decreases |s|
  {
    if s == [] || c.total == l.totalBytes {
      assert Text(l, c, s) == c.line;
      NothingLeft(l, c, f, End(l, c, s, stop));
    } else {
      StepReads(l, c, f, s, stop);
      StepBounded(l, c, s[0]);
      var next := Step(l, c, s[0]);
      if next.Next? {
        FeedReads(l, next.core, Advance(l, c, f, s[0]), s[1..], stop);
      }
    }
  }

  // Chunk boundaries, empty chunks and waiting do not matter.
  lemma {:induction false} PlayFeeds(l: Limits, c: Core, chunks: nat, todo: seq<Byte>, source: seq<Item>)
    requires chunks <= l.chunks
    ensures var (bytes, stop) := Delivered(l.chunks - chunks, source);
            Play(l, c, chunks, todo, source) == Feed(l, c, todo + bytes, stop)
    decreases |source|, |todo|
  {
    var (bytes, stop) := Delivered(l.chunks - chunks, source);
    if todo != [] {
      assert (todo + bytes)[1..] == todo[1..] + bytes;
      var next := Step(l, c, todo[0]);
      if next.Next? {
        PlayFeeds(l, next.core, chunks, todo[1..], source);
      }
    } else if source != [] {
      assert todo + bytes == bytes;
      match source[0]
      case Chunk(b) =>
        if chunks < l.chunks { PlayFeeds(l, c, chunks + 1, b, source[1..]); }
      case Broken =>
      case NotReady => PlayFeeds(l, c, chunks, todo, source[1..]);
    }
  }

  /** For every transport script the decoder's outcome is its batch meaning: same events, same first error. */
  lemma {:induction false} DecoderRefinesReference(l: Limits, source: seq<Item>)
    ensures Play(l, INITIAL, 0, [], source) == Meaning(l, source)
  {
    var (bytes, stop) := Delivered(l.chunks, source);
    PlayFeeds(l, INITIAL, 0, [], source);
    assert [] + bytes == bytes;
    FeedReads(l, INITIAL, START, bytes, stop);
    assert Text(l, INITIAL, bytes) == Budgeted(l.totalBytes, bytes, stop).0;
  }

  // ---------------------------------------------------------------- consequences

  function Concatenated(chunks: seq<seq<Byte>>): seq<Byte> {
    if chunks == [] then [] else chunks[0] + Concatenated(chunks[1..])
  }

  function Script(chunks: seq<seq<Byte>>): seq<Item> {
    if chunks == [] then [] else [Chunk(chunks[0])] + Script(chunks[1..])
  }

  lemma {:induction false} ScriptDelivers(chunks: seq<seq<Byte>>, room: nat)
    requires |chunks| <= room
    ensures Delivered(room, Script(chunks)) == (Concatenated(chunks), None)
  {
    if chunks != [] {
      assert Script(chunks)[1..] == Script(chunks[1..]);
      ScriptDelivers(chunks[1..], room - 1);
    }
  }

  /** Two ways of cutting the same bytes into chunks cannot be told apart. */
  lemma {:induction false} FragmentationInvariant(l: Limits, one: seq<seq<Byte>>, other: seq<seq<Byte>>)
    requires Concatenated(one) == Concatenated(other)
    requires |one| <= l.chunks && |other| <= l.chunks
    ensures Play(l, INITIAL, 0, [], Script(one)) == Play(l, INITIAL, 0, [], Script(other))
  {
    ScriptDelivers(one, l.chunks);
    ScriptDelivers(other, l.chunks);
    DecoderRefinesReference(l, Script(one));
    DecoderRefinesReference(l, Script(other));
  }

  /** Events are never revised: what a prefix of the bytes yields is a prefix of what all of them yield. */
  lemma {:induction false} PrefixYieldsPrefix(
      l: Limits, c: Core, a: seq<Byte>, b: seq<Byte>, stop: Option<Error>, end: Option<Error>)
    ensures Feed(l, c, a, stop).events <= Feed(l, c, a + b, end).events
    decreases |a|
  {
    if a != [] {
      assert (a + b)[1..] == a[1..] + b;
      var next := Step(l, c, a[0]);
      if next.Next? {
        PrefixYieldsPrefix(l, next.core, a[1..], b, stop, end);
      }
    }
  }

  /** However either is cut into chunks, the events of a prefix of the bytes are a prefix of the events of the whole. */
  lemma {:induction false} EventsOfPrefix(l: Limits, part: seq<seq<Byte>>, whole: seq<seq<Byte>>)
    requires Concatenated(part) <= Concatenated(whole)
    requires |part| <= l.chunks && |whole| <= l.chunks
    ensures Meaning(l, Script(part)).events <= Meaning(l, Script(whole)).events
  {
    var a, b := Concatenated(part), Concatenated(whole)[|Concatenated(part)|..];
    assert a + b == Concatenated(whole) && [] + a == a && [] + (a + b) == a + b;
    ScriptDelivers(part, l.chunks);
    ScriptDelivers(whole, l.chunks);
    PlayFeeds(l, INITIAL, 0, [], Script(part));
    PlayFeeds(l, INITIAL, 0, [], Script(whole));
    DecoderRefinesReference(l, Script(part));
    DecoderRefinesReference(l, Script(whole));
    PrefixYieldsPrefix(l, INITIAL, a, b, None, None);
  }

  // ---------------------------------------------------------------- every error has its cause

  // More than `n` octets in a row without a line break.
  ghost predicate LongAt(s: seq<Byte>, n: nat, i: nat) {
    i + n < |s| && forall k :: i <= k <= i + n ==> s[k] != 0x0A && s[k] != 0x0D
  }

  ghost predicate LongLine(s: seq<Byte>, n: nat) {
    exists i: nat :: LongAt(s, n, i)
  }

  ghost predicate Caused(l: Limits, f: Frame, s: seq<Byte>, stop: Option<Error>, error: Option<Error>) {
    match error
    case None => stop.None?
    case Some(InvalidUtf8) => stop == error || !Utf8.WellFormed(s)
    case Some(LineTooLarge) => stop == error || LongLine(s, l.lineBytes)
    case Some(FrameTooLarge) => stop == error || f.used + |s| > l.frameBytes
    case Some(TooManyFrames) => stop == error || f.seen + |s| > l.frames
    case Some(_) => stop == error
  }

  lemma {:induction false} LongLineLater(s: seq<Byte>, n: nat, k: nat)
    requires k <= |s| && LongLine(s[k..], n)
    ensures LongLine(s, n)
  {
    var t := s[k..];
    var i: nat :| LongAt(t, n, i);
    forall j | k + i <= j <= k + i + n ensures s[j] != 0x0A && s[j] != 0x0D {
      assert s[j] == t[j - k];
    }
    assert LongAt(s, n, k + i);
  }

  // What follows a break, and the line before it, are text if the whole is.
  lemma {:induction false} BreakCuts(s: seq<Byte>, n: nat)
    requires n < |s| && IsBreak(s[n]) && Utf8.WellFormed(s)
    ensures Utf8.WellFormed(s[..n]) && Utf8.WellFormed(AfterBreak(s, n))
  {
    var rest := s[n + 1..];
    assert s == s[..n] + [s[n]] + rest;
    Utf8.CutAtAscii(s[..n], s[n], rest);
    if s[n] == CR && rest != [] && rest[0] == LF {
      assert rest == [] + [LF] + rest[1..];
      Utf8.CutAtAscii([], LF, rest[1..]);
    }
  }

  lemma {:induction false} RestLater(s: seq<Byte>, n: nat) returns (k: nat)
    requires n < |s|
    ensures n < k <= |s| && AfterBreak(s, n) == s[k..]
  {
    k := if s[n] == CR && n + 1 < |s| && s[n + 1] == LF then n + 2 else n + 1;
    assert s[n + 1..] == if n + 1 < |s| then [s[n + 1]] + s[n + 2..] else [];
  }

  lemma {:induction false} ReadCaused(l: Limits, f: Frame, s: seq<Byte>, stop: Option<Error>)
    ensures Caused(l, f, s, stop, Read(l, f, s, stop).error)
    decreases |s|
  {
    var n := LineEnd(s);
    if n > l.lineBytes {
      assert LongAt(s, l.lineBytes, 0);
    }
    if n < |s| && Oversize(l, f.used, n, true).None? {
      if Utf8.WellFormed(s) {
        BreakCuts(s, n);
      }
      var close := CloseLine(l, f, s[..n]);
      if close.Ok? {
        var k := RestLater(s, n);
        ReadCaused(l, close.value.0, s[k..], stop);
        if LongLine(s[k..], l.lineBytes) {
          LongLineLater(s, l.lineBytes, k);
        }
      }
    }
  }

  // All octets of all chunks.
  function AllBytes(source: seq<Item>): seq<Byte> {
    if source == [] then []
    else (if source[0].Chunk? then source[0].bytes else []) + AllBytes(source[1..])
  }

  function ChunkCount(source: seq<Item>): nat {
    if source == [] then 0 else ChunkCount(source[1..]) + if source[0].Chunk? then 1 else 0
  }

  lemma {:induction false} DeliveredCause(room: nat, source: seq<Item>)
    ensures var (bytes, stop) := Delivered(room, source);
            && bytes <= AllBytes(source)
            && (stop.None? ==> bytes == AllBytes(source) && Broken !in source && ChunkCount(source) <= room)
            && (stop.Some? ==>
                  || (stop.value == SourceFailed && Broken in source)
                  || (stop.value == TooManyChunks && ChunkCount(source) > room))
    decreases |source|
  {
    if source != [] {
      if source[0].NotReady? {
        DeliveredCause(room, source[1..]);
        assert [] + AllBytes(source[1..]) == AllBytes(source[1..]);
      } else if source[0].Chunk? && room > 0 {
        DeliveredCause(room - 1, source[1..]);
      }
      assert source == [source[0]] + source[1..];
    }
  }

  /** Every error is what it says, and a clean end means that everything was delivered and read. */
  lemma {:induction false} ErrorHasCause(l: Limits, source: seq<Item>)
    ensures match Meaning(l, source).error
            case None => Broken !in source && ChunkCount(source) <= l.chunks && |AllBytes(source)| <= l.totalBytes
            case Some(SourceFailed) => Broken in source
            case Some(TooManyChunks) => ChunkCount(source) > l.chunks
            case Some(TooManyBytes) => |AllBytes(source)| > l.totalBytes
            case Some(InvalidUtf8) => !Utf8.WellFormed(Heard(l, source))
            case Some(LineTooLarge) => LongLine(AllBytes(source), l.lineBytes)
            case Some(FrameTooLarge) => |AllBytes(source)| > l.frameBytes
            case Some(TooManyFrames) => |AllBytes(source)| > l.frames
  {
    var (bytes, stop) := Delivered(l.chunks, source);
    var (kept, end) := Budgeted(l.totalBytes, bytes, stop);
    DeliveredCause(l.chunks, source);
    ReadCaused(l, START, kept, end);
    if LongLine(kept, l.lineBytes) {
      var i: nat :| LongAt(kept, l.lineBytes, i);
      assert LongAt(AllBytes(source), l.lineBytes, i) by {
        assert forall k :: i <= k <= i + l.lineBytes ==> AllBytes(source)[k] == kept[k];
      }
    }
  }

  // The octets that come before anything stops the transport.
  function Heard(l: Limits, source: seq<Item>): seq<Byte> {
    Budgeted(l.totalBytes, Delivered(l.chunks, source).0, None).0
  }
}

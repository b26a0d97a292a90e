/** The incremental decoder: one byte at a time, five budgets, buffers edited in place. */
module SseDecoder {
  import opened Common
  import opened SseReference
  import Utf8

  // ---------------------------------------------------------------- the machine on values

  datatype Core = Core(
    line: seq<Byte>, data: seq<Byte>, total: nat, frame: nat, frames: nat, first: bool, afterCr: bool)

  const INITIAL := Core([], [], 0, 0, 0, true, false)

  datatype Stepped = Next(core: Core, event: Option<seq<Byte>>) | Stop(error: Error)

  // Field name and value at the first colon.
  function SplitOnce(line: seq<Byte>): (seq<Byte>, seq<Byte>) {
    if line == [] then ([], [])
    else if line[0] == COLON then ([], line[1..])
    else
      var (field, value) := SplitOnce(line[1..]);
      ([line[0]] + field, value)
  }

  // A blank line: the event in the buffer, without its last newline.
  function DispatchBuffer(l: Limits, c: Core): Stepped {
    if c.frames >= l.frames then Stop(TooManyFrames)
    else
      var d := c.(first := false, line := [], frames := c.frames + 1, frame := 0);
      if c.data == [] then Next(d, None)
      else
        var event := c.data[..|c.data| - 1];
        if Utf8.WellFormed(event) then Next(d.(data := []), Some(event)) else Stop(InvalidUtf8)
  }

  function AddField(c: Core, line: seq<Byte>): Core {
    var (field, value) := SplitOnce(line);
    var d := c.(first := false, line := []);
    if field == DATA then d.(data := c.data + StripPrefix([SPACE], value) + [LF]) else d
  }

  function Stripped(c: Core): seq<Byte> {
    if c.first then StripPrefix(BOM, c.line) else c.line
  }

  // What a line leaves in the event buffer, and the event it completes.
  function FinishLine(l: Limits, c: Core): (next: Stepped)
    ensures next.Next? ==> next.core.line == [] && next.core.total == c.total && next.core.afterCr == c.afterCr
  {
    if !Utf8.WellFormed(c.line) then Stop(InvalidUtf8)
    else if Stripped(c) == [] then DispatchBuffer(l, c)
    else Next(AddField(c, Stripped(c)), None)
  }

  function Step(l: Limits, c: Core, b: Byte): Stepped {
    if c.total >= l.totalBytes then Stop(TooManyBytes)
    else
      var d := c.(total := c.total + 1, afterCr := false);
      if c.afterCr && b == LF then Next(d, None)
      else if c.frame >= l.frameBytes then Stop(FrameTooLarge)
      else
        var e := d.(frame := c.frame + 1);
        if IsBreak(b) then FinishLine(l, e.(afterCr := b == CR))
        else if |c.line| >= l.lineBytes then Stop(LineTooLarge)
        else Next(e.(line := c.line + [b]), None)
  }

  // All bytes at once.
  function Feed(l: Limits, c: Core, s: seq<Byte>, stop: Option<Error>): Outcome
    decreases |s|
  {
    if s == [] then
      Outcome([], if stop.None? && !Utf8.WellFormed(c.line) then Some(InvalidUtf8) else stop)
    else
      match Step(l, c, s[0])
      case Next(d, event) => Prepend(event, Feed(l, d, s[1..], stop))
      case Stop(error) => Outcome([], Some(error))
  }

  // Bytes as the transport hands them over.
  function Play(l: Limits, c: Core, chunks: nat, todo: seq<Byte>, source: seq<Item>): Outcome
    decreases |source|, |todo|
  {
    if todo != [] then
      match Step(l, c, todo[0])
      case Next(d, event) => Prepend(event, Play(l, d, chunks, todo[1..], source))
      case Stop(error) => Outcome([], Some(error))
    else if source == [] then
      Outcome([], if Utf8.WellFormed(c.line) then None else Some(InvalidUtf8))
    else
      match source[0]
      case Chunk(bytes) =>
        if chunks >= l.chunks then Outcome([], Some(TooManyChunks))
        else Play(l, c, chunks + 1, bytes, source[1..])
      case Broken => Outcome([], Some(SourceFailed))
      case NotReady => Play(l, c, chunks, todo, source[1..])
  }

  // ---------------------------------------------------------------- memory and encoding

  predicate Bounded(l: Limits, c: Core) {
    && |c.data| + |c.line| <= c.frame <= l.frameBytes
    && |c.line| <= l.lineBytes
    && c.total <= l.totalBytes
    && c.frames <= l.frames
    && (c.afterCr ==> c.line == [])
    && (forall i :: 0 <= i < |c.line| ==> !IsBreak(c.line[i]))
    && (c.data != [] ==> c.data[|c.data| - 1] == LF)
    && Utf8.WellFormed(c.data)
  }

  // The field is everything before the first colon.
  lemma {:induction false} SplitOnceShape(line: seq<Byte>)
    ensures var (field, value) := SplitOnce(line);
            && COLON !in field
            && ((line == field && value == []) || line == field + [COLON] + value)
  {
    if line != [] && line[0] != COLON {
      SplitOnceShape(line[1..]);
      assert line == [line[0]] + line[1..];
    }
  }

  /** Cutting at the first colon finds the field `data`, and its value, exactly on the lines that start with it. */
  lemma {:induction false} DataField(line: seq<Byte>)
    ensures SplitOnce(line).0 == DATA <==> IsDataLine(line)
    ensures IsDataLine(line) ==> StripPrefix([SPACE], SplitOnce(line).1) == DataValue(line)
  {
    SplitOnceShape(line);
    var (field, value) := SplitOnce(line);
    if IsDataLine(line) {
      assert line[..4] == DATA;
      assert forall i :: 0 <= i < |field| ==> line[i] == field[i] && line[i] != COLON;
      assert line == field || line[|field|] == COLON;
      assert forall i :: 0 <= i < 4 ==> line[i] == DATA[i] && line[i] != COLON;
      assert line == DATA || line[4] == COLON;
      assert |field| == 4;
      assert field == line[..4];
      assert line != DATA ==> value == line[5..];
    }
  }

  // Cutting the byte order mark, the field name and one space out of a well-formed line leaves well-formed text.
  lemma {:induction false} PiecesWellFormed(line: seq<Byte>)
    requires Utf8.WellFormed(line)
    ensures Utf8.WellFormed(StripPrefix(BOM, line))
    ensures IsDataLine(line) ==> Utf8.WellFormed(DataValue(line))
  {
    assert Utf8.WellFormed(BOM) by { assert Utf8.Three(BOM, 0); assert Utf8.Char(BOM, 0); }
    if BOM <= line {
      assert line == BOM + line[3..];
      Utf8.PrefixCancels(BOM, line[3..]);
    }
    if DATA + [COLON] <= line {
      var field := DATA + [COLON];
      Utf8.Ascii(field);
      assert line == field + line[5..];
      Utf8.PrefixCancels(field, line[5..]);
      if [SPACE] <= line[5..] {
        Utf8.Ascii([SPACE]);
        assert line[5..] == [SPACE] + line[5..][1..];
        Utf8.PrefixCancels([SPACE], line[5..][1..]);
      }
    }
  }

  lemma {:induction false} AppendsWellFormed(data: seq<Byte>, value: seq<Byte>)
    requires Utf8.WellFormed(data) && Utf8.WellFormed(value)
    ensures Utf8.WellFormed(data + value + [LF])
  {
    Utf8.Ascii([LF]);
    Utf8.PrefixCancels(value, [LF]);
    Utf8.PrefixCancels(data, value + [LF]);
    assert data + value + [LF] == data + (value + [LF]);
  }

  // Popping the last newline off the event buffer leaves well-formed text.
  lemma {:induction false} PoppedWellFormed(data: seq<Byte>)
    requires data != [] && data[|data| - 1] == LF && Utf8.WellFormed(data)
    ensures Utf8.WellFormed(data[..|data| - 1])
  {
    assert data == data[..|data| - 1] + [LF];
    Utf8.DropAscii(data[..|data| - 1], LF);
  }

  lemma {:induction false} DispatchBounded(l: Limits, c: Core)
    requires Bounded(l, c.(line := [], afterCr := false))
    ensures DispatchBuffer(l, c).Next? ==> Bounded(l, DispatchBuffer(l, c).core)
    ensures DispatchBuffer(l, c) != Stop(InvalidUtf8)
  {
    if c.data != [] {
      PoppedWellFormed(c.data);
    }
  }

  lemma {:induction false} AddFieldBounded(l: Limits, c: Core, line: seq<Byte>)
    requires Bounded(l, c.(line := [], afterCr := false)) && Utf8.WellFormed(line) && |c.data| + |line| < c.frame
    ensures Bounded(l, AddField(c, line))
  {
    DataField(line);
    if IsDataLine(line) {
      var value := DataValue(line);
      assert AddField(c, line).data == c.data + value + [LF];
      assert Utf8.WellFormed(c.data + value + [LF]) by {
        PiecesWellFormed(line);
        AppendsWellFormed(c.data, value);
      }
    }
  }

  /**
   Finishing a line keeps every budget and never finds ill-formed event data: the only UTF-8 failure is the line's
   own.
   */
  lemma {:induction false} FinishLineBounded(l: Limits, c: Core)
    requires Bounded(l, c.(afterCr := false)) && |c.data| + |c.line| < c.frame
    ensures FinishLine(l, c).Next? ==> Bounded(l, FinishLine(l, c).core)
    ensures FinishLine(l, c) == Stop(InvalidUtf8) <==> !Utf8.WellFormed(c.line)
  {
    if Utf8.WellFormed(c.line) {
      DispatchBounded(l, c);
      if Stripped(c) != [] {
        assert Utf8.WellFormed(Stripped(c)) by { PiecesWellFormed(c.line); }
        AddFieldBounded(l, c, Stripped(c));
      }
    }
  }

  lemma {:induction false} BreakBounded(l: Limits, c: Core, b: Byte)
    requires Bounded(l, c) && c.total < l.totalBytes && c.frame < l.frameBytes
    requires IsBreak(b) && !(c.afterCr && b == LF)
    ensures Step(l, c, b).Next? ==> Bounded(l, Step(l, c, b).core)
  {
    var e := c.(total := c.total + 1, afterCr := b == CR, frame := c.frame + 1);
    assert Step(l, c, b) == FinishLine(l, e);
    FinishLineBounded(l, e);
  }

  lemma {:induction false} PushBounded(l: Limits, c: Core, b: Byte)
    requires Bounded(l, c) && (!IsBreak(b) || (c.afterCr && b == LF))
    ensures Step(l, c, b).Next? ==> Bounded(l, Step(l, c, b).core)
  {
  }

  /** Every byte of every input keeps the memory bound and the encoding invariant. */
  lemma {:induction false} StepBounded(l: Limits, c: Core, b: Byte)
    requires Bounded(l, c)
    ensures Step(l, c, b).Next? ==> Bounded(l, Step(l, c, b).core)
  {
    if !IsBreak(b) || (c.afterCr && b == LF) {
      PushBounded(l, c, b);
    } else if c.total < l.totalBytes && c.frame < l.frameBytes {
      BreakBounded(l, c, b);
    }
  }
}

/**
 What the event-stream format means, read in one batch: the whole input is cut into lines at LF, CR or
 CRLF, `data` values are joined with newlines at each blank line, and the unterminated tail is dropped
 (sections 9.2.5 and 9.2.6 of the WHATWG HTML Standard). Budgets are stated on whole lines.
 */
module SseReference {
  import opened Common
  import Utf8

  const LF: Byte := 0x0A
  const CR: Byte := 0x0D
  const COLON: Byte := 0x3A
  const SPACE: Byte := 0x20
  const DATA: seq<Byte> := [0x64, 0x61, 0x74, 0x61]
  const BOM: seq<Byte> := [0xEF, 0xBB, 0xBF]

  datatype Limits = Limits(totalBytes: nat, lineBytes: nat, frameBytes: nat, frames: nat, chunks: nat)

  datatype Error =
    | InvalidUtf8
    | TooManyFrames
    | TooManyBytes
    | FrameTooLarge
    | LineTooLarge
    | TooManyChunks
    | SourceFailed

  /** Everything a reader of the stream gets: events in order, then an error or a clean end. */
  datatype Outcome = Outcome(events: seq<seq<Byte>>, error: Option<Error>)

  /** One answer of the transport: a chunk of bytes, a failure, or "ask again later". */
  datatype Item = Chunk(bytes: seq<Byte>) | Broken | NotReady

  function Prepend(event: Option<seq<Byte>>, rest: Outcome): Outcome {
    if event.Some? then rest.(events := [event.value] + rest.events) else rest
  }

  predicate IsBreak(b: Byte) {
    b == LF || b == CR
  }

  // Index of the first line break, or |s|.
  function LineEnd(s: seq<Byte>): (n: nat)
    ensures n <= |s|
    ensures forall i :: 0 <= i < n ==> !IsBreak(s[i])
    ensures n < |s| ==> IsBreak(s[n])
  {
    if s == [] || IsBreak(s[0]) then 0 else 1 + LineEnd(s[1..])
  }

  function SkipLineFeed(s: seq<Byte>): seq<Byte> {
    if s != [] && s[0] == LF then s[1..] else s
  }

  // The input after the line break at `n`; CRLF is one break.
  function AfterBreak(s: seq<Byte>, n: nat): (rest: seq<Byte>)
    requires n < |s|
    ensures |rest| < |s|
  {
    if s[n] == CR then SkipLineFeed(s[n + 1..]) else s[n + 1..]
  }

  // The error a line of `n` bytes meets when `used` bytes of its frame are spent: whichever budget runs
  // out at the earlier byte, the frame budget winning ties.
  function Oversize(l: Limits, used: nat, n: nat, terminated: bool): Option<Error> {
    var frameHit := used + n + (if terminated then 1 else 0) > l.frameBytes;
    var lineHit := n > l.lineBytes;
    if frameHit && (!lineHit || l.frameBytes <= used + l.lineBytes) then Some(FrameTooLarge)
    else if lineHit then Some(LineTooLarge)
    else None
  }

  function StripPrefix(prefix: seq<Byte>, s: seq<Byte>): seq<Byte> {
    if prefix <= s then s[|prefix|..] else s
  }

  predicate IsDataLine(line: seq<Byte>) {
    line == DATA || DATA + [COLON] <= line
  }

  function DataValue(line: seq<Byte>): (value: seq<Byte>)
    requires IsDataLine(line)
    ensures |value| < |line|
  {
    if line == DATA then [] else StripPrefix([SPACE], line[5..])
  }

  function Join(values: seq<seq<Byte>>): seq<Byte> {
    if |values| == 0 then [] else if |values| == 1 then values[0]
    else Join(values[..|values| - 1]) + [LF] + values[|values| - 1]
  }

  // What the batch reader keeps between lines.
  datatype Frame = Frame(values: seq<seq<Byte>>, used: nat, seen: nat, first: bool)

  const START := Frame([], 0, 0, true)

  function Dispatch(l: Limits, f: Frame): Result<(Frame, Option<seq<Byte>>), Error> {
    if f.seen >= l.frames then Err(TooManyFrames)
    else Ok((Frame([], 0, f.seen + 1, false), if f.values == [] then None else Some(Join(f.values))))
  }

  // One complete line: the frame it leaves behind and the event it dispatches.
  function CloseLine(l: Limits, f: Frame, content: seq<Byte>): Result<(Frame, Option<seq<Byte>>), Error> {
    var line := if f.first then StripPrefix(BOM, content) else content;
    if !Utf8.WellFormed(content) then Err(InvalidUtf8)
    else if line != [] then
      Ok((Frame(f.values + (if IsDataLine(line) then [DataValue(line)] else []),
                f.used + |content| + 1, f.seen, false), None))
    else Dispatch(l, f)
  }

  // `stop` is what follows the bytes: an error, or the end of the stream.
  function Read(l: Limits, f: Frame, s: seq<Byte>, stop: Option<Error>): Outcome
    decreases |s|
  {
    var n := LineEnd(s);
    var oversize := Oversize(l, f.used, n, n < |s|);
    if oversize.Some? then Outcome([], oversize)
    else if n == |s| then
      Outcome([], if stop.None? && !Utf8.WellFormed(s) then Some(InvalidUtf8) else stop)
    else
      match CloseLine(l, f, s[..n])
      case Err(error) => Outcome([], Some(error))
      case Ok((g, event)) => Prepend(event, Read(l, g, AfterBreak(s, n), stop))
  }

  // The bytes the transport delivers before it stops, and why it stops.
  function Delivered(room: nat, source: seq<Item>): (seq<Byte>, Option<Error>) {
    if source == [] then ([], None)
    else
      match source[0]
      case NotReady => Delivered(room, source[1..])
      case Broken => ([], Some(SourceFailed))
      case Chunk(bytes) =>
        if room == 0 then ([], Some(TooManyChunks))
        else
          var (rest, stop) := Delivered(room - 1, source[1..]);
          (bytes + rest, stop)
  }

  // Running out of the byte budget hides everything after it.
  function Budgeted(room: nat, s: seq<Byte>, stop: Option<Error>): (seq<Byte>, Option<Error>) {
    if |s| > room then (s[..room], Some(TooManyBytes)) else (s, stop)
  }

  /** The meaning of a transport's answers, independent of how they were chunked. */
  function Meaning(l: Limits, source: seq<Item>): Outcome {
    var (bytes, stop) := Delivered(l.chunks, source);
    var (kept, end) := Budgeted(l.totalBytes, bytes, stop);
    Read(l, START, kept, end)
  }
}

/** The stream object the client polls: fields and buffers updated in place, at most 65,536 rounds a poll. */
module SseStream {
  import opened Common
  import opened SseReference
  import opened SseDecoder
  import opened SseRefinement
  import Utf8

  const ROUNDS_PER_POLL := 65_536

  datatype Poll = Ready(event: seq<Byte>) | Failed(error: Error) | Ended | Pending

  class DataStream {
    const limits: Limits
    var source: seq<Item>
    var currentChunk: seq<Byte>
    var chunkOffset: nat
    var line: seq<Byte>
    var eventData: seq<Byte>
    var totalBytes: nat
    var frameBytes: nat
    var frames: nat
    var chunks: nat
    var firstLine: bool
    var afterCarriageReturn: bool
    var finished: bool

    ghost function State(): Core
      reads this
    {
      Core(line, eventData, totalBytes, frameBytes, frames, firstLine, afterCarriageReturn)
    }

    ghost predicate Valid()
      reads this
    {
      if finished then source == [] && currentChunk == [] && line == [] && eventData == []
      else Bounded(limits, State()) && chunkOffset <= |currentChunk| && chunks <= limits.chunks
    }

    /** Everything this stream will still yield. */
    ghost function Remaining(): Outcome
      requires Valid()
      reads this
    {
      if finished then Outcome([], None)
      else Play(limits, State(), chunks, currentChunk[chunkOffset..], source)
    }

    // Work left: answers of the transport, then bytes of the current chunk.
    ghost function Work(): nat
      requires Valid()
      reads this
    {
      if finished then 0 else Size(source) + |currentChunk| - chunkOffset + 1
    }

    constructor (limits: Limits, source: seq<Item>)
      ensures Valid() && !finished && this.limits == limits
      ensures Remaining() == Meaning(limits, source)
    {
      this.limits := limits;
      this.source := source;
      currentChunk, chunkOffset := [], 0;
      line, eventData := [], [];
      totalBytes, frameBytes, frames, chunks := 0, 0, 0, 0;
      firstLine, afterCarriageReturn, finished := true, false, false;
      new;
      assert State() == INITIAL;
      assert currentChunk[chunkOffset..] == [];
      DecoderRefinesReference(limits, source);
    }

    method Finish()
      modifies this
      ensures Valid() && finished
      ensures Remaining() == Outcome([], None)
    {
      finished := true;
      source, currentChunk := [], [];
      line, eventData := [], [];
    }

    // Runs on a whole line; on success the buffers are those of `SseDecoder.FinishLine`.
    method CompleteLine() returns (event: Result<Option<seq<Byte>>, Error>)
      modifies this`line, this`eventData, this`frames, this`frameBytes, this`firstLine
      ensures FinishLine(limits, old(State()))
           == match event case Ok(e) => Next(State(), e) case Err(error) => Stop(error)
    {
      if !Utf8.WellFormed(line) {
        return Err(InvalidUtf8);
      }
      var text := line;
      if firstLine {
        firstLine := false;
        text := StripPrefix(BOM, line);
      }
      event := Ok(None);
      if text == [] {
        if frames >= limits.frames {
          return Err(TooManyFrames);
        }
        frames := frames + 1;
        frameBytes := 0;
        if eventData != [] {
          var popped := eventData[..|eventData| - 1];
          eventData := [];
          if !Utf8.WellFormed(popped) {
            return Err(InvalidUtf8);
          }
          event := Ok(Some(popped));
        }
      } else {
        var (field, value) := SplitOnce(text);
        if field == DATA {
          eventData := eventData + StripPrefix([SPACE], value);
          eventData := eventData + [LF];
        }
      }
      line := [];
    }

    // One byte of the current chunk.
    method TakeByte() returns (event: Result<Option<seq<Byte>>, Error>)
      requires !finished && chunkOffset < |currentChunk|
      modifies this
      ensures unchanged(`source) && unchanged(`currentChunk) && unchanged(`chunks) && !finished
      ensures event.Ok? ==> chunkOffset == old(chunkOffset) + 1
      ensures Step(limits, old(State()), old(currentChunk[chunkOffset]))
           == match event case Ok(e) => Next(State(), e) case Err(error) => Stop(error)
    {
      if totalBytes >= limits.totalBytes {
        return Err(TooManyBytes);
      }
      var byte := currentChunk[chunkOffset];
      chunkOffset := chunkOffset + 1;
      totalBytes := totalBytes + 1;
      var followsCarriageReturn := afterCarriageReturn;
      afterCarriageReturn := false;
      if followsCarriageReturn && byte == LF {
        return Ok(None);
      }
      if frameBytes >= limits.frameBytes {
        return Err(FrameTooLarge);
      }
      frameBytes := frameBytes + 1;
      if IsBreak(byte) {
        afterCarriageReturn := byte == CR;
        event := CompleteLine();
      } else {
        if |line| >= limits.lineBytes {
          return Err(LineTooLarge);
        }
        line := line + [byte];
        event := Ok(None);
      }
    }

    /** One poll takes the next result off what remains; waiting changes nothing that is still to come. */
    method PollNext() returns (poll: Poll)
      requires Valid()
      modifies this
      ensures Valid()
      ensures old(finished) ==> poll == Ended && finished
      ensures poll.Ready? ==> old(Remaining()) == Prepend(Some(poll.event), Remaining())
      ensures poll.Failed? ==> old(Remaining()) == Outcome([], Some(poll.error)) && finished
      ensures poll.Ended? ==> old(Remaining()) == Outcome([], None) && finished
      ensures poll.Pending? ==> old(Remaining()) == Remaining() && Work() < old(Work())
      ensures poll.Ready? ==> Work() < old(Work())
    {
      if finished {
        return Ended;
      }
      for round := 0 to ROUNDS_PER_POLL
        invariant Valid() && !finished
        invariant Remaining() == old(Remaining())
        invariant if round == 0 then Work() == old(Work()) else Work() < old(Work())
      {
        if chunkOffset == |currentChunk| {
          assert currentChunk[chunkOffset..] == [];
          if source == [] {
            if !Utf8.WellFormed(line) {
              Finish();
              return Failed(InvalidUtf8);
            }
            Finish();
            return Ended;
          }
          var item := source[0];
          source := source[1..];
          match item
          case NotReady => return Pending;
          case Broken => Finish(); return Failed(SourceFailed);
          case Chunk(bytes) =>
            if chunks >= limits.chunks {
              Finish();
              return Failed(TooManyChunks);
            }
            chunks := chunks + 1;
            currentChunk := bytes;
            chunkOffset := 0;
            assert currentChunk[chunkOffset..] == bytes;
        } else {
          ghost var todo := currentChunk[chunkOffset..];
          StepBounded(limits, State(), todo[0]);
          var event := TakeByte();
          assert event.Ok? ==> todo[1..] == currentChunk[chunkOffset..];
          match event
          case Err(error) => Finish(); return Failed(error);
          case Ok(Some(e)) => return Ready(e);
          case Ok(None) =>
        }
      }
      return Pending;
    }

    /** Reading to the end collects exactly the remaining outcome, whatever the chunking and the waiting. */
    method Drain() returns (events: seq<seq<Byte>>, error: Option<Error>)
      requires Valid()
      modifies this
      ensures Valid() && finished
      ensures Outcome(events, error) == old(Remaining())
    {
      events := [];
      while true
        invariant Valid()
        invariant Outcome(events + Remaining().events, Remaining().error) == old(Remaining())
        decreases Work()
      {
        var poll := PollNext();
        match poll
        case Ready(event) =>
          assert events + ([event] + Remaining().events) == (events + [event]) + Remaining().events;
          events := events + [event];
        case Failed(e) => return events, Some(e);
        case Ended => return events, None;
        case Pending =>
      }
    }
  }

  ghost function Size(source: seq<Item>): nat {
    if source == [] then 0
    else Size(source[1..]) + 1 + (if source[0].Chunk? then |source[0].bytes| else 0)
  }
}

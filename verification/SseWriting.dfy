/**
 What the decoder is for: any texts, written out as an event stream in any of its spellings and cut into chunks
 anywhere, are read back as exactly those texts. The writer is spelled in octets and shares nothing with the readers.
 */
module SseWriting {
  import opened Common
  import opened SseReference
  import opened SseRefinement
  import opened SseStream
  import Utf8

  datatype Ending = Lf | Cr | CrLf

  // `space` puts one after each colon, `mark` a byte order mark before everything, and `notes` are the lines that come
  // before the data of each event: comments and other fields.
  datatype Writing = Writing(ending: Ending, space: bool, mark: bool, notes: seq<seq<Byte>>)

  function Break(e: Ending): seq<Byte> {
    match e
    case Lf => [0x0A]
    case Cr => [0x0D]
    case CrLf => [0x0D, 0x0A]
  }

  predicate Unbroken(row: seq<Byte>) {
    forall i :: 0 <= i < |row| ==> row[i] != 0x0A && row[i] != 0x0D
  }

  // A line that is neither blank nor a data field, nor mistaken for one once a byte order mark is cut off.
  predicate Note(row: seq<Byte>) {
    && row != [] && Utf8.WellFormed(row) && Unbroken(row)
    && row != [0x64, 0x61, 0x74, 0x61] && !([0x64, 0x61, 0x74, 0x61, 0x3A] <= row) && !([0xEF, 0xBB, 0xBF] <= row)
  }

  predicate Writable(text: seq<Byte>, w: Writing) {
    && Utf8.WellFormed(text) && (forall i :: 0 <= i < |text| ==> text[i] != 0x0D)
    && (!w.space ==> forall i :: 0 <= i < |Lines(text)| ==> !([0x20] <= Lines(text)[i]))
  }

  // A text cut at its newlines.
  function Lines(text: seq<Byte>): (rows: seq<seq<Byte>>)
    ensures rows != []
  {
    if text == [] then [[]]
    else if text[0] == 0x0A then [[]] + Lines(text[1..])
    else [[text[0]] + Lines(text[1..])[0]] + Lines(text[1..])[1..]
  }

  function Field(value: seq<Byte>, w: Writing): seq<Byte> {
    [0x64, 0x61, 0x74, 0x61, 0x3A] + (if w.space then [0x20] else []) + value
  }

  function Fields(values: seq<seq<Byte>>, w: Writing): seq<seq<Byte>> {
    if values == [] then [] else [Field(values[0], w)] + Fields(values[1..], w)
  }

  // The lines of one event, but for the blank one that ends it.
  function Block(text: seq<Byte>, w: Writing): seq<seq<Byte>> {
    w.notes + Fields(Lines(text), w)
  }

  function Marked(block: seq<seq<Byte>>): seq<seq<Byte>>
    requires block != []
  {
    [[0xEF, 0xBB, 0xBF] + block[0]] + block[1..]
  }

  function Blocks(texts: seq<seq<Byte>>, w: Writing): seq<seq<seq<Byte>>> {
    if texts == [] then [] else [Block(texts[0], w)] + Blocks(texts[1..], w)
  }

  // A byte order mark needs a line to stand before.
  function Stream(texts: seq<seq<Byte>>, w: Writing): seq<seq<seq<Byte>>> {
    if w.mark && texts != [] then [Marked(Block(texts[0], w))] + Blocks(texts[1..], w) else Blocks(texts, w)
  }

  function Rows(blocks: seq<seq<seq<Byte>>>): seq<seq<Byte>> {
    if blocks == [] then [] else blocks[0] + [[]] + Rows(blocks[1..])
  }

  function Bytes(rows: seq<seq<Byte>>, e: Ending): seq<Byte> {
    if rows == [] then [] else rows[0] + Break(e) + Bytes(rows[1..], e)
  }

  function Written(texts: seq<seq<Byte>>, w: Writing): seq<Byte> {
    Bytes(Rows(Stream(texts, w)), w.ending)
  }

  // ---------------------------------------------------------------- what the budgets must hold

  // A frame counts one byte for each line break, the blank line's included.
  function Weight(rows: seq<seq<Byte>>): nat {
    if rows == [] then 0 else |rows[0]| + 1 + Weight(rows[1..])
  }

  predicate BlockFits(l: Limits, block: seq<seq<Byte>>) {
    Weight(block) + 1 <= l.frameBytes && forall i :: 0 <= i < |block| ==> |block[i]| <= l.lineBytes
  }

  predicate Holds(l: Limits, texts: seq<seq<Byte>>, w: Writing) {
    && |Written(texts, w)| <= l.totalBytes && |texts| <= l.frames
    && forall i :: 0 <= i < |Stream(texts, w)| ==> BlockFits(l, Stream(texts, w)[i])
  }

  // ---------------------------------------------------------------- reading line by line

  // Lines that were ended, and then a last one that was not.
  function ReadRows(l: Limits, f: Frame, rows: seq<seq<Byte>>, tail: seq<Byte>): Outcome
    decreases |rows|, 1
  {
    if rows == [] then ReadTail(l, f, tail) else ReadRow(l, f, rows[0], rows[1..], tail)
  }

  function ReadTail(l: Limits, f: Frame, tail: seq<Byte>): Outcome {
    var oversize := Oversize(l, f.used, |tail|, false);
    Outcome([], if oversize.Some? then oversize else if Utf8.WellFormed(tail) then None else Some(InvalidUtf8))
  }

  function ReadRow(l: Limits, f: Frame, row: seq<Byte>, rows: seq<seq<Byte>>, tail: seq<Byte>): Outcome
    decreases |rows|, 2
  {
    var oversize := Oversize(l, f.used, |row|, true);
    if oversize.Some? then Outcome([], oversize)
    else
      match CloseLine(l, f, row)
      case Err(error) => Outcome([], Some(error))
      case Ok((g, event)) => Prepend(event, ReadRows(l, g, rows, tail))
  }

  lemma {:induction false} BreakFound(row: seq<Byte>, e: Ending, rest: seq<Byte>)
    requires Unbroken(row)
    ensures LineEnd(row + Break(e) + rest) == |row|
    decreases |row|
  {
    var s := row + Break(e) + rest;
    if row != [] {
      BreakFound(row[1..], e, rest);
      assert s[1..] == row[1..] + Break(e) + rest;
    }
  }

  lemma {:induction false} NoBreakFound(tail: seq<Byte>)
    requires Unbroken(tail)
    ensures LineEnd(tail) == |tail|
    decreases |tail|
  {
    if tail != [] {
      NoBreakFound(tail[1..]);
    }
  }

  // Nothing written begins with a line feed after a carriage return that ended a line alone.
  lemma {:induction false} NoStrayLineFeed(rows: seq<seq<Byte>>, tail: seq<Byte>, e: Ending)
    requires Unbroken(tail) && forall i :: 0 <= i < |rows| ==> Unbroken(rows[i])
    ensures e == Cr ==> SkipLineFeed(Bytes(rows, e) + tail) == Bytes(rows, e) + tail
  {
    if rows != [] && rows[0] != [] {
      assert Bytes(rows, e)[0] == rows[0][0];
    }
  }

  lemma {:induction false} AfterRow(row: seq<Byte>, e: Ending, rows: seq<seq<Byte>>, tail: seq<Byte>)
    requires Unbroken(row) && Unbroken(tail) && forall i :: 0 <= i < |rows| ==> Unbroken(rows[i])
    ensures var rest := Bytes(rows, e) + tail;
            var s := row + Break(e) + rest; s[..|row|] == row && AfterBreak(s, |row|) == rest
  {
    var rest := Bytes(rows, e) + tail;
    var s, n := row + Break(e) + rest, |row|;
    NoStrayLineFeed(rows, tail, e);
    if e == CrLf {
      assert s[n + 1..] == [0x0A] + rest;
      assert SkipLineFeed(s[n + 1..]) == rest;
    } else {
      assert s[n + 1..] == rest;
    }
  }

  lemma {:induction false} BytesAreRows(l: Limits, f: Frame, rows: seq<seq<Byte>>, tail: seq<Byte>, e: Ending)
    requires Unbroken(tail) && forall i :: 0 <= i < |rows| ==> Unbroken(rows[i])
    ensures Read(l, f, Bytes(rows, e) + tail, None) == ReadRows(l, f, rows, tail)
    decreases |rows|
  {
    if rows == [] {
      assert Bytes(rows, e) + tail == tail;
      NoBreakFound(tail);
    } else {
      var rest := Bytes(rows[1..], e) + tail;
      assert Bytes(rows, e) + tail == rows[0] + Break(e) + rest;
      BreakFound(rows[0], e, rest);
      AfterRow(rows[0], e, rows[1..], tail);
      if Oversize(l, f.used, |rows[0]|, true).None? && CloseLine(l, f, rows[0]).Ok? {
        BytesAreRows(l, CloseLine(l, f, rows[0]).value.0, rows[1..], tail, e);
      }
    }
  }

  // ---------------------------------------------------------------- one event

  lemma {:induction false} LinesJoin(text: seq<Byte>)
    ensures Join(Lines(text)) == text
    decreases |text|
  {
    if text != [] {
      LinesJoin(text[1..]);
      JoinFront(Lines(text)[0], Lines(text)[1..]);
      var rest := Lines(text[1..]);
      JoinFront(rest[0], rest[1..]);
      assert rest == [rest[0]] + rest[1..] && Lines(text) == [Lines(text)[0]] + Lines(text)[1..];
      if text[0] == 0x0A {
        assert Lines(text)[1..] == rest;
      } else {
        assert Lines(text)[1..] == rest[1..];
      }
    }
  }

  lemma {:induction false} JoinFront(value: seq<Byte>, values: seq<seq<Byte>>)
    ensures Join([value] + values) == if values == [] then value else value + [0x0A] + Join(values)
    decreases |values|
  {
    var all := [value] + values;
    if |values| > 0 {
      var n := |values| - 1;
      assert all[..|all| - 1] == [value] + values[..n];
      JoinFront(value, values[..n]);
    }
  }

  // Lines of a well-formed text are well formed.
  lemma {:induction false} LinesWellFormed(text: seq<Byte>, i: nat)
    requires Utf8.WellFormed(text) && i < |Lines(text)| && forall k :: 0 <= k < |text| ==> text[k] != 0x0D
    ensures Utf8.WellFormed(Lines(text)[i]) && Unbroken(Lines(text)[i])
  {
    LinesUnbroken(text, i);
    LinesJoin(text);
    JoinedWellFormed(Lines(text), i);
  }

  lemma {:induction false} LinesUnbroken(text: seq<Byte>, i: nat)
    requires i < |Lines(text)| && forall k :: 0 <= k < |text| ==> text[k] != 0x0D
    ensures Unbroken(Lines(text)[i])
    decreases |text|
  {
    if text != [] {
      var rest := Lines(text[1..]);
      if text[0] == 0x0A {
        if i > 0 {
          LinesUnbroken(text[1..], i - 1);
        }
      } else {
        LinesUnbroken(text[1..], i);
        if i == 0 {
          assert Lines(text)[0] == [text[0]] + rest[0];
        }
      }
    }
  }

  lemma {:induction false} JoinedWellFormed(values: seq<seq<Byte>>, i: nat)
    requires i < |values| && Utf8.WellFormed(Join(values))
    ensures Utf8.WellFormed(values[i])
    decreases |values|
  {
    if |values| > 1 {
      var n := |values| - 1;
      var front := Join(values[..n]);
      Utf8.CutAtAscii(front, 0x0A, values[n]);
      if i < n {
        JoinedWellFormed(values[..n], i);
      }
    }
  }

  // ---------------------------------------------------------------- one line of an event

  // A line and the values it adds to the event.
  datatype Piece = Piece(row: seq<Byte>, adds: seq<seq<Byte>>)

  ghost predicate Closes(p: Piece, first: bool) {
    && Unbroken(p.row)
    && forall l: Limits, f: Frame :: f.first == first ==>
         CloseLine(l, f, p.row) == Ok((Frame(f.values + p.adds, f.used + |p.row| + 1, f.seen, false), None))
  }

  function RowsOf(ps: seq<Piece>): (rows: seq<seq<Byte>>)
    ensures |rows| == |ps| && forall i :: 0 <= i < |ps| ==> rows[i] == ps[i].row
  {
    if ps == [] then [] else [ps[0].row] + RowsOf(ps[1..])
  }

  function AddsOf(ps: seq<Piece>): seq<seq<Byte>> {
    if ps == [] then [] else ps[0].adds + AddsOf(ps[1..])
  }

  lemma {:induction false} NoteCloses(row: seq<Byte>, first: bool)
    requires Note(row)
    ensures Closes(Piece(row, []), first)
  {
    forall l: Limits, f: Frame | f.first == first
      ensures CloseLine(l, f, row) == Ok((Frame(f.values + [], f.used + |row| + 1, f.seen, false), None))
    {
      assert StripPrefix(BOM, row) == row;
      assert DATA + [COLON] == [0x64, 0x61, 0x74, 0x61, 0x3A];
    }
  }

  lemma {:induction false} FieldWellFormed(value: seq<Byte>, w: Writing)
    requires Utf8.WellFormed(value)
    ensures Utf8.WellFormed(Field(value, w))
  {
    var head := [0x64, 0x61, 0x74, 0x61, 0x3A] + if w.space then [0x20] else [];
    Utf8.Ascii(head);
    Utf8.PrefixCancels(head, value);
    assert Field(value, w) == head + value;
  }

  lemma {:induction false} FieldIsData(value: seq<Byte>, w: Writing)
    requires w.space || !([0x20] <= value)
    ensures IsDataLine(Field(value, w)) && DataValue(Field(value, w)) == value
  {
    var row := Field(value, w);
    assert DATA + [COLON] == [0x64, 0x61, 0x74, 0x61, 0x3A] && row[..5] == DATA + [COLON];
    assert row[5..] == (if w.space then [0x20] else []) + value;
    assert w.space ==> row[5..][1..] == value;
    assert row != DATA;
  }

  lemma {:induction false} FieldCloses(value: seq<Byte>, w: Writing, first: bool)
    requires Utf8.WellFormed(value) && Unbroken(value) && (w.space || !([0x20] <= value))
    ensures Closes(Piece(Field(value, w), [value]), first)
  {
    var row := Field(value, w);
    FieldWellFormed(value, w);
    FieldIsData(value, w);
    assert row[0] == 0x64;
    assert StripPrefix(BOM, row) == row by { assert BOM[0] == 0xEF; }
  }

  // Behind a byte order mark the first line is read as without one.
  lemma {:induction false} MarkCloses(p: Piece)
    requires Closes(p, false) && p.row != [] && Utf8.WellFormed(p.row)
    ensures Closes(Piece([0xEF, 0xBB, 0xBF] + p.row, p.adds), true)
  {
    var row := [0xEF, 0xBB, 0xBF] + p.row;
    assert BOM == [0xEF, 0xBB, 0xBF] && row[3..] == p.row;
    assert Utf8.WellFormed(BOM) by { assert Utf8.Three(BOM, 0); assert Utf8.Char(BOM, 0); }
    Utf8.PrefixCancels(BOM, p.row);
    forall l: Limits, f: Frame | f.first
      ensures CloseLine(l, f, row) == Ok((Frame(f.values + p.adds, f.used + |row| + 1, f.seen, false), None))
    {
      var g := f.(first := false, used := f.used + 3);
      assert CloseLine(l, g, p.row) == Ok((Frame(g.values + p.adds, g.used + |p.row| + 1, g.seen, false), None));
    }
  }

  // ---------------------------------------------------------------- all lines of an event

  predicate PiecesFit(l: Limits, used: nat, ps: seq<Piece>) {
    used + Weight(RowsOf(ps)) <= l.frameBytes && forall i :: 0 <= i < |ps| ==> |ps[i].row| <= l.lineBytes
  }

  ghost predicate AllClose(ps: seq<Piece>, first: bool) {
    ps != [] ==> Closes(ps[0], first) && AllClose(ps[1..], false)
  }

  lemma {:induction false} RowReads(l: Limits, f: Frame, p: Piece, rest: seq<seq<Byte>>, tail: seq<Byte>)
    requires Closes(p, f.first)
    ensures var g := Frame(f.values + p.adds, f.used + |p.row| + 1, f.seen, false);
            if |p.row| <= l.lineBytes && f.used + |p.row| + 1 <= l.frameBytes
            then ReadRows(l, f, [p.row] + rest, tail) == ReadRows(l, g, rest, tail)
            else ReadRows(l, f, [p.row] + rest, tail).error.Some?
  {
    assert ([p.row] + rest)[1..] == rest;
    assert CloseLine(l, f, p.row) == Ok((Frame(f.values + p.adds, f.used + |p.row| + 1, f.seen, false), None));
  }

  lemma {:induction false} FitFirst(l: Limits, used: nat, ps: seq<Piece>)
    requires ps != []
    ensures RowsOf(ps)[1..] == RowsOf(ps[1..])
    ensures PiecesFit(l, used, ps) <==>
            && |ps[0].row| <= l.lineBytes && used + |ps[0].row| + 1 <= l.frameBytes
            && PiecesFit(l, used + |ps[0].row| + 1, ps[1..])
  {
    assert RowsOf(ps)[1..] == RowsOf(ps[1..]);
    assert forall i :: 0 < i < |ps| ==> ps[i] == ps[1..][i - 1];
  }

  lemma {:induction false} PiecesCons(ps: seq<Piece>, rest: seq<seq<Byte>>, values: seq<seq<Byte>>)
    requires ps != []
    ensures RowsOf(ps) + rest == [ps[0].row] + (RowsOf(ps[1..]) + rest)
    ensures Weight(RowsOf(ps)) == |ps[0].row| + 1 + Weight(RowsOf(ps[1..]))
    ensures values + AddsOf(ps) == values + ps[0].adds + AddsOf(ps[1..])
  {
    assert RowsOf(ps)[1..] == RowsOf(ps[1..]);
  }

  lemma {:induction false} PiecesRead(l: Limits, f: Frame, ps: seq<Piece>, rest: seq<seq<Byte>>, tail: seq<Byte>)
    requires AllClose(ps, f.first) && f.used <= l.frameBytes
    ensures var g := Frame(f.values + AddsOf(ps), f.used + Weight(RowsOf(ps)), f.seen, f.first && ps == []);
            if PiecesFit(l, f.used, ps) then ReadRows(l, f, RowsOf(ps) + rest, tail) == ReadRows(l, g, rest, tail)
            else ReadRows(l, f, RowsOf(ps) + rest, tail).error.Some?
    decreases |ps|
  {
    if ps == [] {
      assert RowsOf(ps) + rest == rest && f.values + AddsOf(ps) == f.values;
    } else {
      var p, more := ps[0], ps[1..];
      RowReads(l, f, p, RowsOf(more) + rest, tail);
      FitFirst(l, f.used, ps);
      PiecesCons(ps, rest, f.values);
      var g := Frame(f.values + p.adds, f.used + |p.row| + 1, f.seen, false);
      if |p.row| <= l.lineBytes && g.used <= l.frameBytes {
        PiecesRead(l, g, more, rest, tail);
      }
    }
  }

  lemma {:induction false} BlankReads(l: Limits, f: Frame, rest: seq<seq<Byte>>, tail: seq<Byte>)
    requires f.values != [] && f.used <= l.frameBytes
    ensures if f.used + 1 <= l.frameBytes && f.seen < l.frames
            then ReadRows(l, f, [[]] + rest, tail)
                 == Prepend(Some(Join(f.values)), ReadRows(l, Frame([], 0, f.seen + 1, false), rest, tail))
            else ReadRows(l, f, [[]] + rest, tail).error.Some?
  {
    assert ([[]] + rest)[1..] == rest;
  }

  // ---------------------------------------------------------------- all events

  function BlocksOf(pss: seq<seq<Piece>>): (blocks: seq<seq<seq<Byte>>>)
    ensures |blocks| == |pss| && forall i :: 0 <= i < |pss| ==> blocks[i] == RowsOf(pss[i])
  {
    if pss == [] then [] else [RowsOf(pss[0])] + BlocksOf(pss[1..])
  }

  // Each block's lines close as they should and add the lines of its text.
  ghost predicate Spells(pss: seq<seq<Piece>>, texts: seq<seq<Byte>>, first: bool)
    decreases |pss|
  {
    && |pss| == |texts|
    && (pss != [] ==>
          && pss[0] != [] && AddsOf(pss[0]) == Lines(texts[0]) && AllClose(pss[0], first)
          && Spells(pss[1..], texts[1..], false))
  }

  predicate AllFit(l: Limits, blocks: seq<seq<seq<Byte>>>) {
    blocks != [] ==> BlockFits(l, blocks[0]) && AllFit(l, blocks[1..])
  }

  lemma {:induction false} AllFitMeaning(l: Limits, blocks: seq<seq<seq<Byte>>>)
    ensures AllFit(l, blocks) <==> forall i :: 0 <= i < |blocks| ==> BlockFits(l, blocks[i])
    decreases |blocks|
  {
    if blocks != [] {
      AllFitMeaning(l, blocks[1..]);
      assert forall i :: 0 < i < |blocks| ==> blocks[i] == blocks[1..][i - 1];
    }
  }

  lemma {:induction false} BlockReads(
      l: Limits, seen: nat, first: bool, ps: seq<Piece>, text: seq<Byte>, rest: seq<seq<Byte>>, tail: seq<Byte>)
    requires ps != [] && AddsOf(ps) == Lines(text) && AllClose(ps, first)
    ensures var out := ReadRows(l, Frame([], 0, seen, first), RowsOf(ps) + ([[]] + rest), tail);
            if BlockFits(l, RowsOf(ps)) && seen < l.frames
            then out == Prepend(Some(text), ReadRows(l, Frame([], 0, seen + 1, false), rest, tail))
            else out.error.Some?
  {
    PiecesRead(l, Frame([], 0, seen, first), ps, [[]] + rest, tail);
    var g := Frame([] + AddsOf(ps), 0 + Weight(RowsOf(ps)), seen, false);
    assert [] + AddsOf(ps) == Lines(text);
    LinesJoin(text);
    if PiecesFit(l, 0, ps) {
      BlankReads(l, g, rest, tail);
    }
  }

  lemma {:induction false} RowsFirst(pss: seq<seq<Piece>>)
    requires pss != []
    ensures BlocksOf(pss)[1..] == BlocksOf(pss[1..])
    ensures Rows(BlocksOf(pss)) == RowsOf(pss[0]) + ([[]] + Rows(BlocksOf(pss[1..])))
  {
  }

  lemma {:induction false} RowsThen(pss: seq<seq<Piece>>, rest: seq<seq<Byte>>)
    requires pss != []
    ensures BlocksOf(pss)[1..] == BlocksOf(pss[1..])
    ensures Rows(BlocksOf(pss)) + rest == RowsOf(pss[0]) + ([[]] + (Rows(BlocksOf(pss[1..])) + rest))
  {
    RowsFirst(pss);
  }

  // What follows the texts when they could all be read.
  function After(texts: seq<seq<Byte>>, out: Outcome): Outcome {
    out.(events := texts + out.events)
  }

  lemma {:induction false} AfterFirst(texts: seq<seq<Byte>>, out: Outcome)
    requires texts != []
    ensures Prepend(Some(texts[0]), After(texts[1..], out)) == After(texts, out)
  {
    assert [texts[0]] + (texts[1..] + out.events) == texts + out.events;
  }

  lemma {:induction false} FirstReads(
      l: Limits, seen: nat, first: bool, pss: seq<seq<Piece>>, texts: seq<seq<Byte>>, rest: seq<seq<Byte>>,
      tail: seq<Byte>)
    requires Spells(pss, texts, first) && texts != []
    ensures BlocksOf(pss)[1..] == BlocksOf(pss[1..]) && Spells(pss[1..], texts[1..], false)
    ensures var out := ReadRows(l, Frame([], 0, seen, first), Rows(BlocksOf(pss)) + rest, tail);
            if BlockFits(l, BlocksOf(pss)[0]) && seen < l.frames
            then out == Prepend(Some(texts[0]), ReadRows(l, Frame([], 0, seen + 1, false),
                                                         Rows(BlocksOf(pss[1..])) + rest, tail))
            else out.error.Some?
  {
    RowsThen(pss, rest);
    BlockReads(l, seen, first, pss[0], texts[0], Rows(BlocksOf(pss[1..])) + rest, tail);
  }

  lemma {:induction false} StreamReads(
      l: Limits, seen: nat, first: bool, pss: seq<seq<Piece>>, texts: seq<seq<Byte>>, rest: seq<seq<Byte>>,
      tail: seq<Byte>)
    requires Spells(pss, texts, first)
    ensures var out := ReadRows(l, Frame([], 0, seen, first), Rows(BlocksOf(pss)) + rest, tail);
            if AllFit(l, BlocksOf(pss)) && (texts != [] ==> seen + |texts| <= l.frames)
            then out == After(texts, ReadRows(l, Frame([], 0, seen + |texts|, first && texts == []), rest, tail))
            else out.error.Some?
    decreases |texts|
  {
    if texts == [] {
      assert Rows(BlocksOf(pss)) + rest == rest;
      var out := ReadRows(l, Frame([], 0, seen, first), rest, tail);
      assert texts + out.events == out.events;
    } else {
      FirstReads(l, seen, first, pss, texts, rest, tail);
      if BlockFits(l, BlocksOf(pss)[0]) && seen < l.frames {
        StreamReads(l, seen + 1, false, pss[1..], texts[1..], rest, tail);
        AfterFirst(texts, ReadRows(l, Frame([], 0, seen + |texts|, false), rest, tail));
      }
    }
  }

  // ---------------------------------------------------------------- the writer's own lines

  function NotePieces(notes: seq<seq<Byte>>): seq<Piece> {
    if notes == [] then [] else [Piece(notes[0], [])] + NotePieces(notes[1..])
  }

  function FieldPieces(values: seq<seq<Byte>>, w: Writing): seq<Piece> {
    if values == [] then [] else [Piece(Field(values[0], w), [values[0]])] + FieldPieces(values[1..], w)
  }

  predicate Notes(notes: seq<seq<Byte>>) {
    forall i :: 0 <= i < |notes| ==> Note(notes[i])
  }

  ghost predicate Sound(p: Piece) {
    p.row != [] && Utf8.WellFormed(p.row) && Closes(p, false) && Closes(p, true)
  }

  lemma {:induction false} SoundClose(ps: seq<Piece>, first: bool)
    requires forall i :: 0 <= i < |ps| ==> Sound(ps[i])
    ensures AllClose(ps, first)
    decreases |ps|
  {
    if ps != [] {
      assert Sound(ps[0]);
      SoundClose(ps[1..], false);
    }
  }

  lemma {:induction false} ClosedUnbroken(ps: seq<Piece>, first: bool)
    requires AllClose(ps, first)
    ensures forall i :: 0 <= i < |ps| ==> Unbroken(ps[i].row)
    decreases |ps|
  {
    if ps != [] {
      ClosedUnbroken(ps[1..], false);
      assert forall i :: 0 < i < |ps| ==> ps[i] == ps[1..][i - 1];
    }
  }

  lemma {:induction false} NotePiecesSound(notes: seq<seq<Byte>>)
    requires Notes(notes)
    ensures RowsOf(NotePieces(notes)) == notes && AddsOf(NotePieces(notes)) == []
    ensures forall i :: 0 <= i < |NotePieces(notes)| ==> Sound(NotePieces(notes)[i])
    decreases |notes|
  {
    if notes != [] {
      NotePiecesSound(notes[1..]);
      NoteCloses(notes[0], false);
      NoteCloses(notes[0], true);
      assert RowsOf(NotePieces(notes)) == [notes[0]] + notes[1..];
    }
  }

  predicate Values(values: seq<seq<Byte>>, w: Writing) {
    forall i :: 0 <= i < |values| ==>
      Utf8.WellFormed(values[i]) && Unbroken(values[i]) && (w.space || !([0x20] <= values[i]))
  }

  lemma {:induction false} FieldPiecesSound(values: seq<seq<Byte>>, w: Writing)
    requires Values(values, w)
    ensures RowsOf(FieldPieces(values, w)) == Fields(values, w) && AddsOf(FieldPieces(values, w)) == values
    ensures forall i :: 0 <= i < |FieldPieces(values, w)| ==> Sound(FieldPieces(values, w)[i])
    decreases |values|
  {
    if values != [] {
      FieldPiecesSound(values[1..], w);
      FieldCloses(values[0], w, false);
      FieldCloses(values[0], w, true);
      FieldWellFormed(values[0], w);
      assert [values[0]] + values[1..] == values;
    }
  }

  lemma {:induction false} PiecesAppend(a: seq<Piece>, b: seq<Piece>)
    ensures RowsOf(a + b) == RowsOf(a) + RowsOf(b) && AddsOf(a + b) == AddsOf(a) + AddsOf(b)
    decreases |a|
  {
    if a == [] {
      assert a + b == b;
    } else {
      assert (a + b)[1..] == a[1..] + b;
      PiecesAppend(a[1..], b);
    }
  }

  function PiecesOf(text: seq<Byte>, w: Writing): seq<Piece> {
    NotePieces(w.notes) + FieldPieces(Lines(text), w)
  }

  lemma {:induction false} PiecesOfSound(text: seq<Byte>, w: Writing)
    requires Notes(w.notes) && Writable(text, w)
    ensures var ps := PiecesOf(text, w);
            && ps != [] && RowsOf(ps) == Block(text, w) && AddsOf(ps) == Lines(text)
            && forall i :: 0 <= i < |ps| ==> Sound(ps[i])
  {
    forall i | 0 <= i < |Lines(text)| ensures Utf8.WellFormed(Lines(text)[i]) && Unbroken(Lines(text)[i]) {
      LinesWellFormed(text, i);
    }
    NotePiecesSound(w.notes);
    FieldPiecesSound(Lines(text), w);
    PiecesAppend(NotePieces(w.notes), FieldPieces(Lines(text), w));
    assert AddsOf(PiecesOf(text, w)) == [] + Lines(text) == Lines(text);
    assert |RowsOf(PiecesOf(text, w))| == |PiecesOf(text, w)|;
    assert Fields(Lines(text), w) != [];
  }

  function AllPieces(texts: seq<seq<Byte>>, w: Writing): seq<seq<Piece>> {
    if texts == [] then [] else [PiecesOf(texts[0], w)] + AllPieces(texts[1..], w)
  }

  predicate AllWritable(texts: seq<seq<Byte>>, w: Writing) {
    Notes(w.notes) && forall i :: 0 <= i < |texts| ==> Writable(texts[i], w)
  }

  lemma {:induction false} AllPiecesSpell(texts: seq<seq<Byte>>, w: Writing, first: bool)
    requires AllWritable(texts, w)
    ensures Spells(AllPieces(texts, w), texts, first) && BlocksOf(AllPieces(texts, w)) == Blocks(texts, w)
    decreases |texts|
  {
    if texts != [] {
      AllPiecesSpell(texts[1..], w, false);
      PiecesOfSound(texts[0], w);
      SoundClose(PiecesOf(texts[0], w), first);
      assert AllPieces(texts, w)[1..] == AllPieces(texts[1..], w);
    }
  }

  function MarkPieces(ps: seq<Piece>): seq<Piece>
    requires ps != []
  {
    [Piece([0xEF, 0xBB, 0xBF] + ps[0].row, ps[0].adds)] + ps[1..]
  }

  lemma {:induction false} MarkedSpell(texts: seq<seq<Byte>>, w: Writing)
    requires texts != [] && AllWritable(texts, w) && w.mark
    ensures PiecesOf(texts[0], w) != []
    ensures var pss := [MarkPieces(PiecesOf(texts[0], w))] + AllPieces(texts[1..], w);
            Spells(pss, texts, true) && BlocksOf(pss) == Stream(texts, w)
  {
    var ps := PiecesOf(texts[0], w);
    PiecesOfSound(texts[0], w);
    AllPiecesSpell(texts[1..], w, false);
    assert Sound(ps[0]);
    SoundClose(ps[1..], false);
    MarkCloses(ps[0]);
    assert MarkPieces(ps)[1..] == ps[1..];
    var pss := [MarkPieces(ps)] + AllPieces(texts[1..], w);
    assert pss[1..] == AllPieces(texts[1..], w);
    assert AddsOf(MarkPieces(ps)) == AddsOf(ps) by { assert MarkPieces(ps)[1..] == ps[1..]; }
    assert RowsOf(MarkPieces(ps)) == Marked(RowsOf(ps)) by {
      assert MarkPieces(ps)[1..] == ps[1..];
      assert RowsOf(ps)[1..] == RowsOf(ps[1..]);
    }
  }

  // Whole events, and then some lines of one that was not ended.
  function Cut(texts: seq<seq<Byte>>, w: Writing, lost: seq<Byte>, n: nat, tail: seq<Byte>): seq<Byte>
    requires n <= |Block(lost, w)|
  {
    Bytes(Rows(Stream(texts, w)) + Block(lost, w)[..n], w.ending) + tail
  }

  predicate CutHolds(l: Limits, texts: seq<seq<Byte>>, w: Writing, lost: seq<Byte>, n: nat, tail: seq<Byte>)
    requires n <= |Block(lost, w)|
  {
    && |Cut(texts, w, lost, n, tail)| <= l.totalBytes && |texts| <= l.frames
    && (forall i :: 0 <= i < |Stream(texts, w)| ==> BlockFits(l, Stream(texts, w)[i]))
    && Weight(Block(lost, w)[..n]) + |tail| <= l.frameBytes && |tail| <= l.lineBytes
    && (forall i :: 0 <= i < n ==> |Block(lost, w)[i]| <= l.lineBytes)
  }

  lemma {:induction false} SpelledStream(texts: seq<seq<Byte>>, w: Writing) returns (pss: seq<seq<Piece>>)
    requires AllWritable(texts, w)
    ensures Spells(pss, texts, true) && BlocksOf(pss) == Stream(texts, w)
  {
    pss := AllPieces(texts, w);
    if w.mark && texts != [] {
      MarkedSpell(texts, w);
      pss := [MarkPieces(PiecesOf(texts[0], w))] + AllPieces(texts[1..], w);
    } else {
      AllPiecesSpell(texts, w, true);
    }
  }

  lemma {:induction false} RowsOfPrefix(ps: seq<Piece>, n: nat)
    requires n <= |ps|
    ensures RowsOf(ps[..n]) == RowsOf(ps)[..n]
  {
  }

  // The lines of an event that was not ended leave nothing, and so does the rest of a line.
  lemma {:induction false} LostReads(
      l: Limits, f: Frame, w: Writing, lost: seq<Byte>, n: nat, tail: seq<Byte>)
    requires Notes(w.notes) && Writable(lost, w) && n <= |Block(lost, w)| && Unbroken(tail) && f.used == 0
    ensures var out := ReadRows(l, f, Block(lost, w)[..n], tail);
            var fits := && Weight(Block(lost, w)[..n]) + |tail| <= l.frameBytes && |tail| <= l.lineBytes
                        && forall i :: 0 <= i < n ==> |Block(lost, w)[i]| <= l.lineBytes;
            if fits then out == Outcome([], if Utf8.WellFormed(tail) then None else Some(InvalidUtf8))
            else out.error.Some?
    ensures forall i :: 0 <= i < n ==> Unbroken(Block(lost, w)[i])
  {
    PiecesOfSound(lost, w);
    var all := PiecesOf(lost, w);
    var ps := all[..n];
    RowsOfPrefix(all, n);
    assert forall i :: 0 <= i < n ==> ps[i] == all[i] && Sound(all[i]);
    SoundClose(ps, f.first);
    PiecesRead(l, f, ps, [], tail);
    assert RowsOf(ps) + [] == RowsOf(ps) == Block(lost, w)[..n];
  }

  lemma {:induction false} SpelledUnbroken(pss: seq<seq<Piece>>, texts: seq<seq<Byte>>, first: bool)
    requires Spells(pss, texts, first)
    ensures forall i :: 0 <= i < |Rows(BlocksOf(pss))| ==> Unbroken(Rows(BlocksOf(pss))[i])
    decreases |pss|
  {
    if pss != [] {
      SpelledUnbroken(pss[1..], texts[1..], false);
      RowsFirst(pss);
      ClosedUnbroken(pss[0], first);
    }
  }

  lemma {:induction false} RowsReadBack(
      l: Limits, texts: seq<seq<Byte>>, w: Writing, lost: seq<Byte>, n: nat, tail: seq<Byte>)
    requires AllWritable(texts, w) && Writable(lost, w) && n <= |Block(lost, w)| && Unbroken(tail)
    ensures var rows := Rows(Stream(texts, w)) + Block(lost, w)[..n];
            && (forall i :: 0 <= i < |rows| ==> Unbroken(rows[i]))
            && (AllFit(l, Stream(texts, w)) && |texts| <= l.frames ==>
                  ReadRows(l, START, rows, tail)
                  == After(texts, ReadRows(l, Frame([], 0, |texts|, texts == []), Block(lost, w)[..n], tail)))
            && (!(AllFit(l, Stream(texts, w)) && |texts| <= l.frames) ==> ReadRows(l, START, rows, tail).error.Some?)
  {
    var pss := SpelledStream(texts, w);
    StreamReads(l, 0, true, pss, texts, Block(lost, w)[..n], tail);
    SpelledUnbroken(pss, texts, true);
    LostReads(l, START, w, lost, n, tail);
  }

  lemma {:induction false} StopStays(l: Limits, f: Frame, s: seq<Byte>, stop: Error)
    ensures Read(l, f, s, Some(stop)).error.Some?
    decreases |s|
  {
    var n := LineEnd(s);
    if n < |s| && CloseLine(l, f, s[..n]).Ok? {
      StopStays(l, CloseLine(l, f, s[..n]).value.0, AfterBreak(s, n), stop);
    }
  }

  /**
   Any texts, written with any line ending, with or without a space after the colon, behind a byte order mark or not,
   among any other lines and cut into chunks anywhere, are read back as exactly those texts, if and only if every budget
   holds what it counts; otherwise there is an error. What was written of an event without its blank line, and of a line
   without its end, is dropped, but for an end inside a character, which is an error.
   */
  lemma {:induction false} ReadsBack(
      l: Limits, texts: seq<seq<Byte>>, w: Writing, lost: seq<Byte>, n: nat, tail: seq<Byte>, chunks: seq<seq<Byte>>)
    requires AllWritable(texts, w) && Writable(lost, w) && n <= |Block(lost, w)| && Unbroken(tail)
    requires Concatenated(chunks) == Cut(texts, w, lost, n, tail) && |chunks| <= l.chunks
    ensures var out := Meaning(l, Script(chunks));
            if CutHolds(l, texts, w, lost, n, tail)
            then out == Outcome(texts, if Utf8.WellFormed(tail) then None else Some(InvalidUtf8))
            else out.error.Some?
  {
    ScriptDelivers(chunks, l.chunks);
    RowsReadBack(l, texts, w, lost, n, tail);
    AllFitMeaning(l, Stream(texts, w));
    var bytes := Cut(texts, w, lost, n, tail);
    if |bytes| <= l.totalBytes {
      BytesAreRows(l, START, Rows(Stream(texts, w)) + Block(lost, w)[..n], tail, w.ending);
      LostReads(l, Frame([], 0, |texts|, texts == []), w, lost, n, tail);
      assert texts + [] == texts;
    } else {
      StopStays(l, START, bytes[..l.totalBytes], TooManyBytes);
    }
  }

  /** So it is with nothing left unended. */
  lemma {:induction false} ReadsBackWhole(l: Limits, texts: seq<seq<Byte>>, w: Writing, chunks: seq<seq<Byte>>)
    requires AllWritable(texts, w) && Concatenated(chunks) == Written(texts, w) && |chunks| <= l.chunks
    ensures var out := Meaning(l, Script(chunks));
            if Holds(l, texts, w) then out == Outcome(texts, None) else out.error.Some?
  {
    assert Lines([]) == [[]];
    var none := Block([], w)[..0];
    assert none == [] && Rows(Stream(texts, w)) + none == Rows(Stream(texts, w));
    assert Written(texts, w) + [] == Written(texts, w) == Cut(texts, w, [], 0, []);
    ReadsBack(l, texts, w, [], 0, [], chunks);
  }

  /** The stream object hands the client exactly the texts that were written. */
  method ReadAll(l: Limits, ghost texts: seq<seq<Byte>>, ghost w: Writing, chunks: seq<seq<Byte>>)
      returns (events: seq<seq<Byte>>, error: Option<Error>)
    requires AllWritable(texts, w) && Concatenated(chunks) == Written(texts, w) && |chunks| <= l.chunks
    ensures if Holds(l, texts, w) then events == texts && error.None? else error.Some?
  {
    ReadsBackWhole(l, texts, w, chunks);
    var stream := new DataStream(l, Script(chunks));
    events, error := stream.Drain();
  }
}

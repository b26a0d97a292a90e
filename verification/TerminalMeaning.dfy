/**
 The chunk sent at the end of a stream, said of the chunks it came from: whose envelope it has, which choices, which
 usage and which bill. And what the chunks before it look like on the way out.
 */
module TerminalMeaning {
  import opened Common
  import opened ChatHistory
  import opened Chat
  import opened ChatMeaning
  import opened Cost
  import opened Retention
  import opened StreamUsages

  // ---------------------------------------------------------------- choices

  // The choice as it was, with nothing left to say.
  predicate Emptied(kept: Choice, was: Choice) {
    kept.index == was.index && kept.finish == was.finish && kept.rest == was.rest && kept.delta == Delta([])
  }

  ghost predicate LastFinish(h: seq<Chunk>, k: nat, i: nat)
    requires At(h, k, i)
  {
    FinishesAt(h, k, i) && !FinishedAfter(h, k, i)
  }

  // The last finish of an index is what is kept of it.
  ghost predicate KeptAs(h: seq<Chunk>, x: nat, kept: Choice) {
    exists k: nat, i: nat ::
      At(h, k, i) && IndexAt(h, k, i) == x && LastFinish(h, k, i) && Emptied(kept, h[k].choices.value[i])
  }

  ghost predicate NeverFinishes(h: seq<Chunk>, x: nat) {
    forall k: nat, i: nat :: At(h, k, i) && IndexAt(h, k, i) == x ==> !FinishesAt(h, k, i)
  }

  ghost predicate LastFinishes(h: seq<Chunk>, choices: map<nat, Choice>) {
    forall x: nat :: if x in choices then KeptAs(h, x, choices[x]) else NeverFinishes(h, x)
  }

  lemma {:induction false} LastFinishAt(h: seq<Chunk>, n: nat)
    requires n < |AllEntries(h)| && IsLastFinish(AllEntries(h), n)
    ensures KeptAs(h, AllEntries(h)[n].index, Blank(AllEntries(h)[n].choice))
  {
    var es := AllEntries(h);
    assert h[..|h|] == h;
    var k, i := PlaceOf(h, n, |h|);
    CoveredExactly(h, k, i);
    assert !CoveredAfter(es, n);
    assert LastFinish(h, k, i) && Emptied(Blank(es[n].choice), h[k].choices.value[i]);
  }

  lemma {:induction false} FinishIsKept(h: seq<Chunk>, k: nat, i: nat)
    requires At(h, k, i) && FinishesAt(h, k, i)
    ensures IndexAt(h, k, i) in Dones(AllEntries(h))
  {
    assert h[..|h|] == h;
    EntryAt(h, k, i, |h|);
    DonesMeaning(AllEntries(h), IndexAt(h, k, i));
  }

  /** What is kept of the choices is exactly the last finish of every index that finished. */
  lemma {:induction false} DonesExactly(h: seq<Chunk>)
    ensures LastFinishes(h, Dones(AllEntries(h)))
  {
    var es := AllEntries(h);
    forall x: nat ensures if x in Dones(es) then KeptAs(h, x, Dones(es)[x]) else NeverFinishes(h, x) {
      if x in Dones(es) {
        DonesMeaning(es, x);
        var n :| 0 <= n < |es| && IsLastFinish(es, n) && es[n].index == x && Dones(es)[x] == Blank(es[n].choice);
        LastFinishAt(h, n);
      } else {
        forall k: nat, i: nat | At(h, k, i) && FinishesAt(h, k, i) ensures IndexAt(h, k, i) != x {
          FinishIsKept(h, k, i);
        }
      }
    }
  }

  // ---------------------------------------------------------------- the envelope

  predicate FinishesChunk(c: Chunk) {
    c.choices.Some? && exists i :: 0 <= i < |c.choices.value| && c.choices.value[i].finish != Unfinished
  }

  predicate FirstToFinish(h: seq<Chunk>, k: nat) {
    k < |h| && FinishesChunk(h[k]) && forall j :: 0 <= j < k ==> !FinishesChunk(h[j])
  }

  ghost predicate IsEnvelope(h: seq<Chunk>, envelope: Option<seq<Field>>) {
    match envelope
    case None => forall k :: 0 <= k < |h| ==> !FinishesChunk(h[k])
    case Some(fields) => exists k: nat :: FirstToFinish(h, k) && fields == h[k].rest
  }

  lemma {:induction false} SomethingKept(h: seq<Chunk>)
    ensures Dones(AllEntries(h)) != map[] <==> exists k :: 0 <= k < |h| && FinishesChunk(h[k])
  {
    var dones := Dones(AllEntries(h));
    DonesExactly(h);
    if dones != map[] {
      var x :| x in dones;
      assert KeptAs(h, x, dones[x]);
      var k: nat, i: nat :|
        At(h, k, i) && IndexAt(h, k, i) == x && LastFinish(h, k, i) && Emptied(dones[x], h[k].choices.value[i]);
      assert FinishesChunk(h[k]);
    }
    if k :| 0 <= k < |h| && FinishesChunk(h[k]) {
      var i :| 0 <= i < |h[k].choices.value| && h[k].choices.value[i].finish != Unfinished;
      FinishIsKept(h, k, i);
    }
  }

  lemma {:induction false} EnvelopeGrows(g: seq<Chunk>, c: Chunk, e: Option<seq<Field>>)
    requires IsEnvelope(g, e)
    ensures IsEnvelope(g + [c], if e.Some? then e else if FinishesChunk(c) then Some(c.rest) else None)
  {
    var h := g + [c];
    assert forall k :: 0 <= k < |g| ==> h[k] == g[k];
    if e.Some? {
      var k: nat :| FirstToFinish(g, k) && e.value == g[k].rest;
      assert FirstToFinish(h, k);
    } else if FinishesChunk(c) {
      assert FirstToFinish(h, |g|);
    }
  }

  lemma {:induction false} FirstKept(g: seq<Chunk>, c: Chunk)
    requires IsEnvelope(g, None)
    ensures Dones(AllEntries(g + [c])) != map[] <==> FinishesChunk(c)
  {
    var h := g + [c];
    SomethingKept(h);
    assert forall k :: 0 <= k < |g| ==> h[k] == g[k];
    if FinishesChunk(c) {
      assert FinishesChunk(h[|g|]);
    }
  }

  /** The envelope kept is that of the first chunk that finished a choice. */
  lemma {:induction false} EnvelopeExactly(h: seq<Chunk>)
    ensures IsEnvelope(h, Envelope(h))
    decreases |h|
  {
    if h != [] {
      var g, c := h[..|h| - 1], h[|h| - 1];
      EnvelopeExactly(g);
      EnvelopeGrows(g, c, Envelope(g));
      assert h == g + [c];
      if Envelope(g).None? {
        FirstKept(g, c);
      }
    }
  }

  // ---------------------------------------------------------------- the usage

  predicate LastToReport(h: seq<Chunk>, k: nat) {
    k < |h| && h[k].usage.Object? && forall j :: k < j < |h| ==> !h[j].usage.Object?
  }

  // The most any chunk billed.
  predicate IsHighest(h: seq<Chunk>, usd: real) {
    && (exists k :: 0 <= k < |h| && BillAt(h, k) == Some(usd))
    && forall k :: 0 <= k < |h| && BillAt(h, k).Some? ==> BillAt(h, k).value <= usd
  }

  predicate SameCounters(u: Usage, v: Usage) {
    && u.prompt == v.prompt && u.completion == v.completion && u.cacheRead == v.cacheRead
    && u.cacheWrite == v.cacheWrite && u.uncached == v.uncached && u.rest == v.rest
  }

  // The bill of the history as the cost; without one, the highest bill as the floor and no cost at all.
  ghost predicate Priced(h: seq<Chunk>, last: Usage, u: Usage) {
    if !IsBill(h, None) then u.cost.Some? && IsBill(h, u.cost) && u.floor == last.floor && u.stamp == last.stamp
    else if exists k :: 0 <= k < |h| && BillAt(h, k).Some? then
      u.cost == None && u.stamp == None && u.floor.Some? && IsHighest(h, u.floor.value)
    else u.cost == last.cost && u.floor == last.floor && u.stamp == last.stamp
  }

  ghost predicate IsUsage(h: seq<Chunk>, usage: Option<Usage>) {
    match usage
    case None => forall k :: 0 <= k < |h| ==> !h[k].usage.Object?
    case Some(u) =>
      exists k: nat :: LastToReport(h, k) && SameCounters(u, h[k].usage.usage) && Priced(h, h[k].usage.usage, u)
  }

  lemma {:induction false} LastUsageExactly(h: seq<Chunk>)
    ensures match LastUsage(h)
            case None => forall k :: 0 <= k < |h| ==> !h[k].usage.Object?
            case Some(u) => exists k: nat :: LastToReport(h, k) && h[k].usage.usage == u
    decreases |h|
  {
    if h != [] {
      var n := |h| - 1;
      var g := h[..n];
      assert forall k :: 0 <= k < n ==> h[k] == g[k];
      if h[n].usage.Object? {
        assert LastToReport(h, n);
      } else {
        LastUsageExactly(g);
        if LastUsage(g).Some? {
          var k: nat :| LastToReport(g, k) && g[k].usage.usage == LastUsage(g).value;
          assert LastToReport(h, k);
        }
      }
    }
  }

  lemma {:induction false} HighestExactly(h: seq<Chunk>)
    ensures match HighestCost(h)
            case None => forall k :: 0 <= k < |h| ==> BillAt(h, k) == None
            case Some(usd) => IsHighest(h, usd)
    decreases |h|
  {
    if h != [] {
      var n := |h| - 1;
      var g := h[..n];
      HighestExactly(g);
      assert forall k :: 0 <= k < n ==> BillAt(h, k) == BillAt(g, k);
      BillIsCost(h, n);
      if HighestCost(g).Some? {
        var k :| 0 <= k < n && BillAt(g, k) == HighestCost(g);
        assert BillAt(h, k) == HighestCost(g);
      }
      assert HighestCost(h) == Highest(HighestCost(g), BillAt(h, n));
    }
  }

  lemma {:induction false} FinalUsageExactly(h: seq<Chunk>, last: Usage)
    ensures var u := FinalUsage(last, TerminalCost(Frames(h)), HighestCost(h));
            SameCounters(u, last) && Priced(h, last, u)
  {
    BillExactly(h, TerminalCost(Frames(h)));
    BillExactly(h, None);
    HighestExactly(h);
    if HighestCost(h).Some? {
      assert exists k :: 0 <= k < |h| && BillAt(h, k).Some?;
    }
  }

  // ---------------------------------------------------------------- the terminal chunk

  ghost predicate IsTerminal(h: seq<Chunk>, t: Terminal) {
    IsEnvelope(h, Some(t.envelope)) && LastFinishes(h, t.choices) && IsUsage(h, t.usage)
  }

  /**
   There is a terminal chunk exactly when some choice finished. It has the envelope of the first chunk that finished
   one, the last finish of every index, the counters of the last usage, and the bill of the history or else a floor.
   */
  lemma {:induction false} TerminalExactly(h: seq<Chunk>)
    ensures TerminalOf(h).Some? <==> exists k :: 0 <= k < |h| && FinishesChunk(h[k])
    ensures TerminalOf(h).Some? ==> IsTerminal(h, TerminalOf(h).value)
  {
    EnvelopeExactly(h);
    DonesExactly(h);
    LastUsageExactly(h);
    var u := LastUsage(h);
    if u.Some? {
      var k: nat :| LastToReport(h, k) && h[k].usage.usage == u.value;
      FinalUsageExactly(h, u.value);
    }
    if Envelope(h).Some? {
      var k: nat :| FirstToFinish(h, k) && Envelope(h).value == h[k].rest;
    }
  }

  // ---------------------------------------------------------------- the chunks before it

  // The same choice with no finish reason.
  predicate Unfinishes(out: Choice, was: Choice) {
    out.index == was.index && out.delta == was.delta && out.rest == was.rest && out.finish == Unfinished
  }

  // The same chunk, none of its choices finished.
  predicate Silenced(out: Chunk, was: Chunk) {
    && out.usage == was.usage && out.rest == was.rest
    && match was.choices
       case None => out.choices == None
       case Some(cs) =>
         && out.choices.Some? && |out.choices.value| == |cs|
         && forall i :: 0 <= i < |cs| ==> Unfinishes(out.choices.value[i], cs[i])
  }

  /** A chunk goes out as it came, finish reasons apart. */
  lemma {:induction false} MuteExactly(c: Chunk)
    ensures Silenced(Mute(c), c)
  {
    if c.choices.Some? {
      MuteAllMeaning(c.choices.value);
    }
  }
}

/**
 Which usage the accounting side of a Chat stream ends up with, said of the chunks, and what an observation of a chunk's
 usage counts.
 */
module NativeMeaning {
  import opened Common
  import opened ChatHistory
  import opened Chat
  import opened ChatMeaning
  import opened Cost
  import opened NativeUsage

  // ---------------------------------------------------------------- one observation

  function OrZero(counter: Option<nat>): nat {
    match counter
    case Some(n) => n
    case None => 0
  }

  // The counters of a usage field: what was read from the cache and what was not make up the prompt.
  predicate Counts(u: UsageField, o: Observation) {
    && !o.terminal && o.usage.floor == None && o.usage.stamp == None && o.usage.rest == []
    && o.usage.cacheRead.Some? && o.usage.cacheWrite.Some? && o.usage.uncached.Some?
    && match u
       case Absent => false
       case NotObject =>
         && o.usage.prompt == None && o.usage.completion == None && o.usage.cost == None
         && o.usage.cacheRead.value == 0 && o.usage.cacheWrite.value == 0 && o.usage.uncached.value == 0
       case Object(v) =>
         && o.usage.prompt == v.prompt && o.usage.completion == v.completion
         && o.usage.cacheRead.value == OrZero(v.cacheRead) && o.usage.cacheWrite.value == OrZero(v.cacheWrite)
         && (o.usage.cacheRead.value <= OrZero(v.prompt) ==>
               o.usage.uncached.value + o.usage.cacheRead.value == OrZero(v.prompt))
         && (OrZero(v.prompt) < o.usage.cacheRead.value ==> o.usage.uncached.value == 0)
         && o.usage.cost == (match v.cost case Some(usd) => if usd < 0.0 then None else v.cost case None => None)
  }

  /** Every usage field that is there becomes an observation of its counters, and one that is not becomes none. */
  lemma {:induction false} ObserveCounts(u: UsageField)
    ensures match Observe(u)
            case None => u == Absent
            case Some(o) => Counts(u, o)
  {
    match u {
      case Absent =>
      case NotObject =>
      case Object(v) =>
        assert Observe(u).value.usage.cacheRead.value == OrZero(v.cacheRead);
    }
  }

  // ---------------------------------------------------------------- the candidate of a history

  // It stands and carries a usage; a bill outranks a usage without one, and a later one of its rank outranks it.
  ghost predicate Chosen(h: seq<Chunk>, k: nat)
    requires k < |h|
  {
    && Stands(h, k) && h[k].usage != Absent
    && if BillAt(h, k) != None then forall m :: k < m < |h| && Stands(h, m) ==> BillAt(h, m) == None
       else && (forall m :: 0 <= m < |h| && Stands(h, m) ==> BillAt(h, m) == None)
            && forall m :: k < m < |h| && Stands(h, m) ==> h[m].usage == Absent
  }

  /** The candidate of a history. */
  ghost predicate IsCandidate(h: seq<Chunk>, candidate: Option<Observation>) {
    match candidate
    case None => forall k :: 0 <= k < |h| && Stands(h, k) ==> h[k].usage == Absent
    case Some(o) => exists k :: 0 <= k < |h| && Chosen(h, k) && Counts(h[k].usage, o)
  }

  // The same of frames.
  predicate HeldAt(fs: seq<Frame>, k: nat)
    requires k < |fs|
  {
    && Eligible(fs, k) && fs[k].observed
    && if fs[k].cost.Some? then forall m :: k < m < |fs| && Eligible(fs, m) ==> fs[m].cost.None?
       else && (forall m :: 0 <= m < |fs| && Eligible(fs, m) ==> fs[m].cost.None?)
            && forall m :: k < m < |fs| && Eligible(fs, m) ==> !fs[m].observed
  }

  predicate NothingHeld(fs: seq<Frame>) {
    forall k :: 0 <= k < |fs| && Eligible(fs, k) ==> !fs[k].observed
  }

  predicate BillsAreObserved(fs: seq<Frame>) {
    forall k :: 0 <= k < |fs| && fs[k].cost.Some? ==> fs[k].observed
  }

  ghost predicate Holds(h: seq<Chunk>, o: Option<Observation>) {
    if o.None? then NothingHeld(Frames(h))
    else exists k :: 0 <= k < |h| && HeldAt(Frames(h), k) && Observe(h[k].usage) == o
  }

  // What the machine has watched after some chunks.
  function WatchedAll(w: Watch, chunks: seq<Chunk>): Watch {
    if chunks == [] then w
    else
      var c := chunks[|chunks| - 1];
      Watched(WatchedAll(w, chunks[..|chunks| - 1]), Sights(Entries(c)), Observe(c.usage))
  }

  predicate Fresh(w: Watch) {
    w.track.known == {} && w.track.finished == {} && w.candidate.None?
  }

  lemma {:induction false} AllFramesLast(h: seq<Chunk>)
    requires h != []
    ensures All(Frames(h)) == All(Frames(h[..|h| - 1])) + Sights(Entries(h[|h| - 1]))
  {
    var g, c := h[..|h| - 1], h[|h| - 1];
    assert h == g + [c];
    FramesStep(g, c);
    LastFrame(Frames(g), FrameOf(c));
  }

  lemma {:induction false} WatchMarks(w: Watch, s: seq<Sighting>, c: Chunk)
    requires w.track.known == Known(s) && w.track.finished == Finished(s)
    ensures var t, all := Watched(w, Sights(Entries(c)), Observe(c.usage)).track, s + Sights(Entries(c));
            t.known == Known(all) && t.finished == Finished(all)
  {
    NotedAllMeaning(w.track, s, Sights(Entries(c)));
  }

  lemma {:induction false} WatchedMarks(w: Watch, h: seq<Chunk>)
    requires Fresh(w)
    ensures var t, s := WatchedAll(w, h).track, All(Frames(h)); t.known == Known(s) && t.finished == Finished(s)
    decreases |h|
  {
    if h != [] {
      var g, c := h[..|h| - 1], h[|h| - 1];
      WatchedMarks(w, g);
      WatchMarks(WatchedAll(w, g), All(Frames(g)), c);
      AllFramesLast(h);
    }
  }

  // ---------------------------------------------------------------- one more frame

  lemma {:induction false} StirredHoldsNothing(fs: seq<Frame>, f: Frame)
    requires AnyStirs(f.sightings, Known(All(fs)))
    ensures forall k :: 0 <= k < |fs| ==> !Eligible(fs + [f], k)
  {
    EligibleStep(fs, f);
  }

  // Without a usage, the frame keeps what is held or stirs it away.
  lemma {:induction false} UnobservedFrame(fs: seq<Frame>, f: Frame, k: nat)
    requires k < |fs| && HeldAt(fs, k) && !f.observed && f.cost.None? && !AnyStirs(f.sightings, Known(All(fs)))
    ensures HeldAt(fs + [f], k)
  {
    EligibleStep(fs, f);
  }

  lemma {:induction false} NothingYet(fs: seq<Frame>, f: Frame)
    requires !f.observed && (NothingHeld(fs) || AnyStirs(f.sightings, Known(All(fs))))
    ensures NothingHeld(fs + [f])
  {
    EligibleStep(fs, f);
  }

  // While a choice is unfinished nothing is held.
  lemma {:induction false} UnfinishedHoldsNothing(fs: seq<Frame>)
    requires !AllFinished(All(fs))
    ensures NothingHeld(fs)
  {
    forall k | 0 <= k < |fs| ensures !Eligible(fs, k) {
      if Eligible(fs, k) {
        EligibleMeansFinished(fs, k);
      }
    }
  }

  // A bill outranks whatever was held.
  lemma {:induction false} BilledFrame(fs: seq<Frame>, f: Frame)
    requires f.observed && f.cost.Some? && AllFinished(All(fs + [f]))
    ensures HeldAt(fs + [f], |fs|)
  {
    EligibleStep(fs, f);
  }

  // Without a bill, the frame's usage is held when no bill stands.
  lemma {:induction false} UnbilledFrame(fs: seq<Frame>, f: Frame)
    requires f.observed && f.cost.None? && AllFinished(All(fs + [f])) && BillsAreObserved(fs)
    requires AnyStirs(f.sightings, Known(All(fs))) || NothingHeld(fs)
             || exists k :: 0 <= k < |fs| && HeldAt(fs, k) && fs[k].cost.None?
    ensures HeldAt(fs + [f], |fs|)
  {
    EligibleStep(fs, f);
    var gs := fs + [f];
    forall m | 0 <= m < |gs| && Eligible(gs, m) ensures gs[m].cost.None? {
      if m < |fs| {
        assert Eligible(fs, m) && gs[m] == fs[m];
      }
    }
  }

  // A standing bill is kept over a usage without one.
  lemma {:induction false} BillKept(fs: seq<Frame>, f: Frame, k: nat)
    requires k < |fs| && HeldAt(fs, k) && fs[k].cost.Some? && f.cost.None? && !AnyStirs(f.sightings, Known(All(fs)))
    ensures HeldAt(fs + [f], k)
  {
    EligibleStep(fs, f);
  }

  lemma {:induction false} FramesObserve(h: seq<Chunk>)
    ensures BillsAreObserved(Frames(h))
    ensures forall k :: 0 <= k < |h| ==> Frames(h)[k].observed == Observe(h[k].usage).Some?
    ensures forall k :: 0 <= k < |h| ==> Frames(h)[k].cost == CostOf(Observe(h[k].usage))
  {
    forall k | 0 <= k < |h| ensures Frames(h)[k] == FrameOf(h[k]) {
      FramesPrefix(h, k);
    }
  }

  // A frame that carries no usage.
  lemma {:induction false} HoldsQuietly(g: seq<Chunk>, c: Chunk, o: Option<Observation>)
    requires Holds(g, o) && c.usage.Absent?
    ensures Holds(g + [c], if AnyStirs(FrameOf(c).sightings, Known(All(Frames(g)))) then None else o)
  {
    FramesStep(g, c);
    var fs, f := Frames(g), FrameOf(c);
    if o.None? || AnyStirs(f.sightings, Known(All(fs))) {
      NothingYet(fs, f);
    } else {
      var k :| 0 <= k < |g| && HeldAt(fs, k) && Observe(g[k].usage) == o;
      UnobservedFrame(fs, f, k);
      assert (g + [c])[k] == g[k];
    }
  }

  // A frame that carries a usage once every choice has finished.
  lemma {:induction false} HoldsAnew(g: seq<Chunk>, c: Chunk, o: Option<Observation>)
    requires Holds(g, o) && !c.usage.Absent? && AllFinished(All(Frames(g + [c])))
    ensures var stirred := AnyStirs(FrameOf(c).sightings, Known(All(Frames(g))));
            var incoming := Observe(c.usage);
            Holds(g + [c], if CostOf(incoming).Some? || stirred || CostOf(o).None? then incoming else o)
  {
    FramesStep(g, c);
    FramesObserve(g);
    var fs, f, h := Frames(g), FrameOf(c), g + [c];
    var stirred := AnyStirs(f.sightings, Known(All(fs)));
    if f.cost.Some? {
      BilledFrame(fs, f);
      assert h[|g|] == c;
    } else if stirred || o.None? {
      UnbilledFrame(fs, f);
      assert h[|g|] == c;
    } else {
      var k :| 0 <= k < |g| && HeldAt(fs, k) && Observe(g[k].usage) == o;
      if CostOf(o).None? {
        UnbilledFrame(fs, f);
        assert h[|g|] == c;
      } else {
        BillKept(fs, f, k);
        assert h[k] == g[k];
      }
    }
  }

  lemma {:induction false} WatchedHolds(w: Watch, h: seq<Chunk>)
    requires Fresh(w)
    ensures Holds(h, WatchedAll(w, h).candidate)
    decreases |h|
  {
    if h != [] {
      var g, c := h[..|h| - 1], h[|h| - 1];
      assert h == g + [c];
      WatchedHolds(w, g);
      WatchedMarks(w, g);
      WatchedMarks(w, h);
      if c.usage.Absent? {
        HoldsQuietly(g, c, WatchedAll(w, g).candidate);
      } else if AllFinished(All(Frames(h))) {
        HoldsAnew(g, c, WatchedAll(w, g).candidate);
      } else {
        UnfinishedHoldsNothing(Frames(h));
      }
    }
  }

  lemma {:induction false} ChosenExactly(h: seq<Chunk>, k: nat)
    requires k < |h| && HeldAt(Frames(h), k)
    ensures Chosen(h, k)
  {
    FramesObserve(h);
    forall m | 0 <= m < |h|
      ensures (Eligible(Frames(h), m) <==> Stands(h, m)) && Frames(h)[m].cost == BillAt(h, m)
    {
      StandsExactly(h, m);
      BillIsCost(h, m);
    }
  }

  /** Whatever the chunks, the machine's candidate is the one they determine. */
  lemma {:induction false} CandidateExactly(w: Watch, h: seq<Chunk>)
    requires Fresh(w)
    ensures IsCandidate(h, WatchedAll(w, h).candidate)
  {
    var o := WatchedAll(w, h).candidate;
    WatchedHolds(w, h);
    if o.None? {
      FramesObserve(h);
      forall k | 0 <= k < |h| && Stands(h, k) ensures h[k].usage == Absent {
        StandsExactly(h, k);
      }
    } else {
      var k :| 0 <= k < |h| && HeldAt(Frames(h), k) && Observe(h[k].usage) == o;
      ChosenExactly(h, k);
      ObserveCounts(h[k].usage);
    }
  }
}

/**
 What a history of Chat chunks amounts to, said of the chunks' own choices: when a stream is complete, and which bill is
 its last. A place is a chunk and a position in its choices.
 */
module ChatMeaning {
  import opened Common
  import opened ChatHistory
  import opened Chat
  import opened Cost

  predicate At(h: seq<Chunk>, k: nat, i: nat) {
    k < |h| && h[k].choices.Some? && i < |h[k].choices.value|
  }

  // A choice's own index, or its position.
  function IndexAt(h: seq<Chunk>, k: nat, i: nat): nat
    requires At(h, k, i)
  {
    match h[k].choices.value[i].index
    case Some(x) => x
    case None => i
  }

  predicate FinishesAt(h: seq<Chunk>, k: nat, i: nat)
    requires At(h, k, i)
  {
    h[k].choices.value[i].finish != Unfinished
  }

  // There is a delta with something in it.
  predicate SpeaksAt(h: seq<Chunk>, k: nat, i: nat)
    requires At(h, k, i)
  {
    match h[k].choices.value[i].delta
    case NoDelta => false
    case Delta(fields) => |fields| > 0
  }

  predicate Later(k: nat, i: nat, k': nat, i': nat) {
    k < k' || (k == k' && i < i')
  }

  // A later place of the same index finishes it.
  ghost predicate FinishedAfter(h: seq<Chunk>, k: nat, i: nat)
    requires At(h, k, i)
  {
    exists k': nat, i': nat ::
      At(h, k', i') && Later(k, i, k', i') && IndexAt(h, k', i') == IndexAt(h, k, i) && FinishesAt(h, k', i')
  }

  /** Some choice finished, and everything a choice said without finishing is covered by a later finish of its index. */
  ghost predicate Complete(h: seq<Chunk>) {
    && (exists k: nat, i: nat :: At(h, k, i) && FinishesAt(h, k, i))
    && forall k: nat, i: nat :: At(h, k, i) && SpeaksAt(h, k, i) && !FinishesAt(h, k, i) ==> FinishedAfter(h, k, i)
  }

  // ---------------------------------------------------------------- places and entries

  function Offset(h: seq<Chunk>, k: nat): nat
    requires k <= |h|
  {
    |AllEntries(h[..k])|
  }

  lemma {:induction false} NumberedAt(cs: seq<Choice>, i: nat)
    requires i < |cs|
    ensures |Numbered(cs)| == |cs|
    ensures Numbered(cs)[i] == Entry(match cs[i].index case Some(x) => x case None => i, cs[i])
    decreases |cs|
  {
    var n := |cs| - 1;
    if n == 0 {
      assert cs[..0] == [];
    } else {
      NumberedAt(cs[..n], if i < n then i else 0);
    }
  }

  lemma {:induction false} NumberedCount(cs: seq<Choice>)
    ensures |Numbered(cs)| == |cs|
  {
    if cs != [] {
      NumberedAt(cs, 0);
    }
  }

  lemma {:induction false} OffsetStep(h: seq<Chunk>, k: nat)
    requires k < |h|
    ensures Offset(h, k + 1) == Offset(h, k) + (if h[k].choices.Some? then |h[k].choices.value| else 0)
    ensures AllEntries(h[..k + 1]) == AllEntries(h[..k]) + Entries(h[k])
  {
    assert h[..k + 1][..k] == h[..k];
    if h[k].choices.Some? {
      NumberedCount(h[k].choices.value);
    }
  }

  lemma {:induction false} EntriesPrefix(h: seq<Chunk>, k: nat, m: nat)
    requires k <= m <= |h|
    ensures AllEntries(h[..k]) <= AllEntries(h[..m])
    decreases m
  {
    if k < m {
      OffsetStep(h, m - 1);
      EntriesPrefix(h, k, m - 1);
    }
  }

  // The entry of a place.
  lemma {:induction false} EntryAt(h: seq<Chunk>, k: nat, i: nat, m: nat)
    requires At(h, k, i) && k < m <= |h|
    ensures Offset(h, k) + i < Offset(h, k + 1) <= Offset(h, m)
    ensures AllEntries(h[..m])[Offset(h, k) + i] == Entry(IndexAt(h, k, i), h[k].choices.value[i])
  {
    OffsetStep(h, k);
    EntriesPrefix(h, k + 1, m);
    NumberedAt(h[k].choices.value, i);
    assert AllEntries(h[..m])[Offset(h, k) + i] == AllEntries(h[..k + 1])[Offset(h, k) + i];
  }

  // The place of an entry.
  lemma {:induction false} PlaceAt(h: seq<Chunk>, n: nat, m: nat) returns (k: nat, i: nat)
    requires m <= |h| && n < Offset(h, m)
    ensures At(h, k, i) && k < m && Offset(h, k) + i == n
    decreases m
  {
    assert h[..0] == [];
    OffsetStep(h, m - 1);
    if n < Offset(h, m - 1) {
      k, i := PlaceAt(h, n, m - 1);
    } else {
      k, i := m - 1, n - Offset(h, m - 1);
    }
  }

  lemma {:induction false} PlaceOf(h: seq<Chunk>, n: nat, m: nat) returns (k: nat, i: nat)
    requires m <= |h| && n < |AllEntries(h[..m])|
    ensures At(h, k, i) && k < m && Offset(h, k) + i == n
    ensures AllEntries(h[..m])[n] == Entry(IndexAt(h, k, i), h[k].choices.value[i])
  {
    k, i := PlaceAt(h, n, m);
    EntryAt(h, k, i, m);
  }

  lemma {:induction false} LaterMeans(h: seq<Chunk>, k: nat, i: nat, k': nat, i': nat)
    requires At(h, k, i) && At(h, k', i')
    ensures Later(k, i, k', i') <==> Offset(h, k) + i < Offset(h, k') + i'
  {
    EntryAt(h, k, i, |h|);
    EntryAt(h, k', i', |h|);
    if k < k' {
      EntriesPrefix(h, k + 1, k');
    } else if k' < k {
      EntriesPrefix(h, k' + 1, k);
    }
  }

  lemma {:induction false} SightAt(h: seq<Chunk>, k: nat, i: nat)
    requires At(h, k, i)
    ensures var o := Sight(Entry(IndexAt(h, k, i), h[k].choices.value[i]));
            o.index == IndexAt(h, k, i) && o.finished == FinishesAt(h, k, i) && o.output == SpeaksAt(h, k, i)
  {
  }

  // ---------------------------------------------------------------- completeness

  // What the normalizer tracks of a history: some entry finished, and every output has a finish of its index after it.
  ghost predicate EntriesComplete(es: seq<Entry>) {
    && (exists n :: 0 <= n < |es| && es[n].choice.finish.Reason?)
    && forall n :: 0 <= n < |es| && Sight(es[n]).output && !Sight(es[n]).finished ==> CoveredAfter(es, n)
  }

  ghost predicate CoveredAfter(es: seq<Entry>, n: nat)
    requires n < |es|
  {
    exists m :: n < m < |es| && es[m].index == es[n].index && es[m].choice.finish.Reason?
  }

  lemma {:induction false} CoveredMeansFinished(h: seq<Chunk>, k: nat, i: nat, m: nat)
    requires At(h, k, i) && Offset(h, k) + i < m < |AllEntries(h)|
    requires AllEntries(h)[m].index == IndexAt(h, k, i) && AllEntries(h)[m].choice.finish.Reason?
    ensures FinishedAfter(h, k, i)
  {
    assert h[..|h|] == h;
    var k', i' := PlaceOf(h, m, |h|);
    LaterMeans(h, k, i, k', i');
    assert FinishesAt(h, k', i');
  }

  lemma {:induction false} FinishedMeansCovered(h: seq<Chunk>, k: nat, i: nat, k': nat, i': nat) returns (m: nat)
    requires At(h, k, i) && At(h, k', i') && Later(k, i, k', i') && FinishesAt(h, k', i')
    ensures Offset(h, k) + i < m < |AllEntries(h)|
    ensures AllEntries(h)[m].index == IndexAt(h, k', i') && AllEntries(h)[m].choice.finish.Reason?
  {
    assert h[..|h|] == h;
    LaterMeans(h, k, i, k', i');
    EntryAt(h, k', i', |h|);
    m := Offset(h, k') + i';
  }

  lemma {:induction false} CoverOf(es: seq<Entry>, n: nat) returns (m: nat)
    requires n < |es| && CoveredAfter(es, n)
    ensures n < m < |es| && es[m].index == es[n].index && es[m].choice.finish.Reason?
  {
    m :| n < m < |es| && es[m].index == es[n].index && es[m].choice.finish.Reason?;
  }

  lemma {:induction false} CoverBy(es: seq<Entry>, n: nat, m: nat)
    requires n < m < |es| && es[m].index == es[n].index && es[m].choice.finish.Reason?
    ensures CoveredAfter(es, n)
  {
  }

  lemma {:induction false} FinishOf(h: seq<Chunk>, k: nat, i: nat) returns (k': nat, i': nat)
    requires At(h, k, i) && FinishedAfter(h, k, i)
    ensures At(h, k', i') && Later(k, i, k', i') && IndexAt(h, k', i') == IndexAt(h, k, i) && FinishesAt(h, k', i')
  {
    k', i' :|
      At(h, k', i') && Later(k, i, k', i') && IndexAt(h, k', i') == IndexAt(h, k, i) && FinishesAt(h, k', i');
  }

  lemma {:induction false} CoveredExactly(h: seq<Chunk>, k: nat, i: nat)
    requires At(h, k, i)
    ensures Offset(h, k) + i < |AllEntries(h)|
    ensures CoveredAfter(AllEntries(h), Offset(h, k) + i) <==> FinishedAfter(h, k, i)
  {
    var es, n := AllEntries(h), Offset(h, k) + i;
    assert h[..|h|] == h;
    EntryAt(h, k, i, |h|);
    if CoveredAfter(es, n) {
      var m := CoverOf(es, n);
      CoveredMeansFinished(h, k, i, m);
    }
    if FinishedAfter(h, k, i) {
      var k', i' := FinishOf(h, k, i);
      var m := FinishedMeansCovered(h, k, i, k', i');
      CoverBy(es, n, m);
    }
  }

  /** The entries of a history are complete exactly when its chunks are. */
  lemma {:induction false} CompleteExactly(h: seq<Chunk>)
    ensures EntriesComplete(AllEntries(h)) <==> Complete(h)
  {
    var es := AllEntries(h);
    assert h[..|h|] == h;
    forall k: nat, i: nat | At(h, k, i)
      ensures var n := Offset(h, k) + i;
              && n < |es| && es[n] == Entry(IndexAt(h, k, i), h[k].choices.value[i])
              && (CoveredAfter(es, n) <==> FinishedAfter(h, k, i))
              && Sight(es[n]).finished == FinishesAt(h, k, i) && Sight(es[n]).output == SpeaksAt(h, k, i)
    {
      EntryAt(h, k, i, |h|);
      CoveredExactly(h, k, i);
      SightAt(h, k, i);
    }
    if EntriesComplete(es) {
      var n :| 0 <= n < |es| && es[n].choice.finish.Reason?;
      var k, i := PlaceOf(h, n, |h|);
      assert FinishesAt(h, k, i);
    }
    if Complete(h) {
      var k: nat, i: nat :| At(h, k, i) && FinishesAt(h, k, i);
      assert es[Offset(h, k) + i].choice.finish.Reason?;
      forall n | 0 <= n < |es| && Sight(es[n]).output && !Sight(es[n]).finished ensures CoveredAfter(es, n) {
        var k, i := PlaceOf(h, n, |h|);
        assert At(h, k, i) && SpeaksAt(h, k, i) && !FinishesAt(h, k, i);
      }
    }
  }

  // ---------------------------------------------------------------- the bill

  // The bill a chunk reports: a cost, if it is not negative.
  function BillAt(h: seq<Chunk>, k: nat): Option<real>
    requires k < |h|
  {
    match h[k].usage
    case Object(u) => (match u.cost case Some(usd) => if usd < 0.0 then None else Some(usd) case None => None)
    case _ => None
  }

  // The first n chunks hold a choice of this index.
  ghost predicate SeenIn(h: seq<Chunk>, n: nat, x: nat) {
    exists k: nat, i: nat :: At(h, k, i) && k < n && IndexAt(h, k, i) == x
  }

  // Nothing of its index comes later in the first n chunks.
  ghost predicate LastOf(h: seq<Chunk>, n: nat, k: nat, i: nat)
    requires At(h, k, i)
  {
    k < n && forall k': nat, i': nat ::
      At(h, k', i') && k' < n && Later(k, i, k', i') ==> IndexAt(h, k', i') != IndexAt(h, k, i)
  }

  // After n chunks some choice was seen, and the last of every index finished.
  ghost predicate Settled(h: seq<Chunk>, n: nat) {
    && (exists k: nat, i: nat :: At(h, k, i) && k < n)
    && forall k: nat, i: nat :: At(h, k, i) && LastOf(h, n, k, i) ==> FinishesAt(h, k, i)
  }

  // A choice of this chunk is new, has not finished, or says something.
  ghost predicate Disturbs(h: seq<Chunk>, m: nat) {
    exists i: nat ::
      At(h, m, i) && (!SeenIn(h, m, IndexAt(h, m, i)) || !FinishesAt(h, m, i) || SpeaksAt(h, m, i))
  }

  // Every choice had finished by this chunk, and no later chunk disturbs them.
  ghost predicate Stands(h: seq<Chunk>, k: nat) {
    Settled(h, k + 1) && forall m :: k < m < |h| ==> !Disturbs(h, m)
  }

  /** The bill of a history: the last one reported by a chunk that stands. */
  ghost predicate IsBill(h: seq<Chunk>, bill: Option<real>) {
    match bill
    case None => forall k :: 0 <= k < |h| && Stands(h, k) ==> BillAt(h, k) == None
    case Some(usd) =>
      exists k :: 0 <= k < |h| && LastStanding(h, k) && BillAt(h, k) == Some(usd)
  }

  // It stands, and nothing that stands later reports a bill.
  ghost predicate LastStanding(h: seq<Chunk>, k: nat) {
    Stands(h, k) && forall m :: k < m < |h| && Stands(h, m) ==> BillAt(h, m) == None
  }

  // All known choices are finished when every latest sighting is.
  lemma {:induction false} AllFinishedMeaning(s: seq<Sighting>)
    ensures AllFinished(s) <==> s != [] && forall i :: 0 <= i < |s| && IsLatest(s, i) ==> s[i].finished
  {
    forall x: nat
      ensures x in Known(s) <==> exists i :: 0 <= i < |s| && s[i].index == x
      ensures x in Finished(s) <==> exists i :: 0 <= i < |s| && IsLatest(s, i) && s[i].index == x && s[i].finished
    {
      KnownAndFinishedMeaning(s, x);
    }
    if s != [] {
      assert s[0].index in Known(s);
    }
    if AllFinished(s) {
      forall i | 0 <= i < |s| && IsLatest(s, i) ensures s[i].finished {
        assert s[i].index in Finished(s);
      }
    } else if s != [] && forall i :: 0 <= i < |s| && IsLatest(s, i) ==> s[i].finished {
      forall x | x in Known(s) ensures x in Finished(s) {
        var i :| 0 <= i < |s| && s[i].index == x;
        var j := LatestFrom(s, i);
      }
    }
  }

  lemma {:induction false} LatestFrom(s: seq<Sighting>, i: nat) returns (j: nat)
    requires i < |s|
    ensures i <= j < |s| && IsLatest(s, j) && s[j].index == s[i].index
    decreases |s| - i
  {
    if IsLatest(s, i) {
      j := i;
    } else {
      var k :| i < k < |s| && s[k].index == s[i].index;
      j := LatestFrom(s, k);
    }
  }

  lemma {:induction false} AnyStirsMeaning(s: seq<Sighting>, known: set<nat>)
    ensures AnyStirs(s, known) <==> exists k :: 0 <= k < |s| && Stirs(s[k], known)
    decreases |s|
  {
    if s != [] {
      var n := |s| - 1;
      AnyStirsMeaning(s[..n], known);
      assert forall k :: 0 <= k < n ==> s[k] == s[..n][k];
    }
  }

  lemma {:induction false} SightsAppend(a: seq<Entry>, b: seq<Entry>)
    ensures Sights(a + b) == Sights(a) + Sights(b)
  {
  }

  lemma {:induction false} EntriesAreSighted(h: seq<Chunk>)
    ensures All(Frames(h)) == Sights(AllEntries(h))
    decreases |h|
  {
    if h != [] {
      var g, c := h[..|h| - 1], h[|h| - 1];
      EntriesAreSighted(g);
      var fs := Frames(h);
      assert fs[..|h| - 1] == Frames(g) && fs[|h| - 1] == FrameOf(c);
      assert All(fs) == All(Frames(g)) + Sights(Entries(c));
      SightsAppend(AllEntries(g), Entries(c));
    }
  }

  lemma {:induction false} FrameAt(h: seq<Chunk>, k: nat)
    requires k < |h|
    ensures Frames(h)[k] == FrameOf(h[k])
    decreases |h|
  {
    if k < |h| - 1 {
      FrameAt(h[..|h| - 1], k);
    }
  }

  lemma {:induction false} FramesPrefix(h: seq<Chunk>, n: nat)
    requires n <= |h|
    ensures Frames(h)[..n] == Frames(h[..n])
    ensures n < |h| ==> Frames(h)[n] == FrameOf(h[n])
  {
    forall k | 0 <= k < n ensures Frames(h)[k] == Frames(h[..n])[k] {
      FrameAt(h, k);
      FrameAt(h[..n], k);
    }
    if n < |h| {
      FrameAt(h, n);
    }
  }

  // What is sighted in the first n chunks.
  function SightedIn(h: seq<Chunk>, n: nat): seq<Sighting>
    requires n <= |h|
  {
    Sights(AllEntries(h[..n]))
  }

  lemma {:induction false} SightedAt(h: seq<Chunk>, n: nat, k: nat, i: nat)
    requires At(h, k, i) && k < n <= |h|
    ensures Offset(h, k) + i < |SightedIn(h, n)|
    ensures var o := SightedIn(h, n)[Offset(h, k) + i];
            o.index == IndexAt(h, k, i) && o.finished == FinishesAt(h, k, i) && o.output == SpeaksAt(h, k, i)
  {
    EntryAt(h, k, i, n);
    SightAt(h, k, i);
  }

  lemma {:induction false} PlaceSighted(h: seq<Chunk>, n: nat, j: nat) returns (k: nat, i: nat)
    requires n <= |h| && j < |SightedIn(h, n)|
    ensures At(h, k, i) && k < n && Offset(h, k) + i == j
  {
    k, i := PlaceAt(h, j, n);
  }

  lemma {:induction false} LastExactly(h: seq<Chunk>, n: nat, k: nat, i: nat)
    requires At(h, k, i) && k < n <= |h|
    ensures Offset(h, k) + i < |SightedIn(h, n)|
    ensures IsLatest(SightedIn(h, n), Offset(h, k) + i) <==> LastOf(h, n, k, i)
  {
    var s, j := SightedIn(h, n), Offset(h, k) + i;
    SightedAt(h, n, k, i);
    if !IsLatest(s, j) {
      var j' :| j < j' < |s| && s[j'].index == s[j].index;
      var k', i' := PlaceSighted(h, n, j');
      SightedAt(h, n, k', i');
      LaterMeans(h, k, i, k', i');
    }
    if !LastOf(h, n, k, i) {
      var k': nat, i': nat :|
        At(h, k', i') && k' < n && Later(k, i, k', i') && IndexAt(h, k', i') == IndexAt(h, k, i);
      SightedAt(h, n, k', i');
      LaterMeans(h, k, i, k', i');
    }
  }

  lemma {:induction false} FinishedMeansSettled(h: seq<Chunk>, n: nat)
    requires n <= |h| && AllFinished(SightedIn(h, n))
    ensures Settled(h, n)
  {
    var s := SightedIn(h, n);
    AllFinishedMeaning(s);
    var k, i := PlaceSighted(h, n, 0);
    forall k: nat, i: nat | At(h, k, i) && LastOf(h, n, k, i) ensures FinishesAt(h, k, i) {
      LastExactly(h, n, k, i);
      SightedAt(h, n, k, i);
    }
  }

  lemma {:induction false} LatestFinishes(h: seq<Chunk>, n: nat, j: nat)
    requires n <= |h| && Settled(h, n) && j < |SightedIn(h, n)| && IsLatest(SightedIn(h, n), j)
    ensures SightedIn(h, n)[j].finished
  {
    var k, i := PlaceSighted(h, n, j);
    LastExactly(h, n, k, i);
    SightedAt(h, n, k, i);
    assert LastOf(h, n, k, i);
  }

  lemma {:induction false} SettledHasSighting(h: seq<Chunk>, n: nat)
    requires n <= |h| && Settled(h, n)
    ensures SightedIn(h, n) != []
  {
    var k: nat, i: nat :| At(h, k, i) && k < n;
    SightedAt(h, n, k, i);
  }

  lemma {:induction false} SettledMeansFinished(h: seq<Chunk>, n: nat)
    requires n <= |h| && Settled(h, n)
    ensures AllFinished(SightedIn(h, n))
  {
    var s := SightedIn(h, n);
    SettledHasSighting(h, n);
    AllFinishedMeaning(s);
    forall j | 0 <= j < |s| && IsLatest(s, j) ensures s[j].finished {
      LatestFinishes(h, n, j);
    }
  }

  lemma {:induction false} SeenExactly(h: seq<Chunk>, n: nat, x: nat)
    requires n <= |h|
    ensures x in Known(SightedIn(h, n)) <==> SeenIn(h, n, x)
  {
    var s := SightedIn(h, n);
    KnownAndFinishedMeaning(s, x);
    if x in Known(s) {
      var j :| 0 <= j < |s| && s[j].index == x;
      var k, i := PlaceSighted(h, n, j);
      SightedAt(h, n, k, i);
    }
    if SeenIn(h, n, x) {
      var k: nat, i: nat :| At(h, k, i) && k < n && IndexAt(h, k, i) == x;
      SightedAt(h, n, k, i);
    }
  }

  lemma {:induction false} DisturbsExactly(h: seq<Chunk>, m: nat)
    requires m < |h|
    ensures AnyStirs(Sights(Entries(h[m])), Known(SightedIn(h, m))) <==> Disturbs(h, m)
  {
    var t, known := Sights(Entries(h[m])), Known(SightedIn(h, m));
    AnyStirsMeaning(t, known);
    if h[m].choices.Some? {
      NumberedCount(h[m].choices.value);
    }
    forall i: nat | At(h, m, i)
      ensures i < |t|
      ensures Stirs(t[i], known) <==>
                !SeenIn(h, m, IndexAt(h, m, i)) || !FinishesAt(h, m, i) || SpeaksAt(h, m, i)
    {
      NumberedAt(h[m].choices.value, i);
      SightAt(h, m, i);
      SeenExactly(h, m, IndexAt(h, m, i));
    }
    forall i | 0 <= i < |t| ensures At(h, m, i) {
    }
  }

  lemma {:induction false} ActiveExactly(h: seq<Chunk>, m: nat)
    requires m < |h|
    ensures Active(Frames(h), m) <==> Disturbs(h, m)
  {
    FramesPrefix(h, m);
    EntriesAreSighted(h[..m]);
    DisturbsExactly(h, m);
  }

  lemma {:induction false} StandsExactly(h: seq<Chunk>, k: nat)
    requires k < |h|
    ensures Eligible(Frames(h), k) <==> Stands(h, k)
  {
    EligibleMeaning(Frames(h), k);
    FramesPrefix(h, k + 1);
    EntriesAreSighted(h[..k + 1]);
    if Settled(h, k + 1) {
      SettledMeansFinished(h, k + 1);
    } else if AllFinished(SightedIn(h, k + 1)) {
      FinishedMeansSettled(h, k + 1);
    }
    forall m | k < m < |h| ensures Active(Frames(h), m) <==> Disturbs(h, m) {
      ActiveExactly(h, m);
    }
  }

  lemma {:induction false} BillIsCost(h: seq<Chunk>, k: nat)
    requires k < |h|
    ensures Frames(h)[k].cost == BillAt(h, k) == ProviderCost(h[k].usage)
  {
    FramesPrefix(h, k);
  }

  // The two histories agree on what stands and what it reports.
  ghost predicate Agree(h: seq<Chunk>, fs: seq<Frame>) {
    |fs| == |h| && forall k :: 0 <= k < |h| ==> (Eligible(fs, k) <==> Stands(h, k)) && fs[k].cost == BillAt(h, k)
  }

  lemma {:induction false} FramesAgree(h: seq<Chunk>)
    ensures Agree(h, Frames(h))
  {
    forall k | 0 <= k < |h|
      ensures (Eligible(Frames(h), k) <==> Stands(h, k)) && Frames(h)[k].cost == BillAt(h, k)
    {
      StandsExactly(h, k);
      BillIsCost(h, k);
    }
  }

  lemma {:induction false} SameBill(h: seq<Chunk>, fs: seq<Frame>, bill: Option<real>)
    requires Agree(h, fs)
    ensures IsTerminalCost(fs, bill) <==> IsBill(h, bill)
  {
    forall k | 0 <= k < |h| ensures IsLastCost(fs, k) <==> LastStanding(h, k) {
    }
    if IsTerminalCost(fs, bill) && bill.Some? {
      var k :| 0 <= k < |h| && IsLastCost(fs, k) && fs[k].cost == bill;
      assert LastStanding(h, k) && BillAt(h, k) == bill;
    }
    if IsBill(h, bill) && bill.Some? {
      var k :| 0 <= k < |h| && LastStanding(h, k) && BillAt(h, k) == bill;
      assert IsLastCost(fs, k) && fs[k].cost == bill;
    }
  }

  lemma {:induction false} IsBillExactly(h: seq<Chunk>, bill: Option<real>)
    ensures IsTerminalCost(Frames(h), bill) <==> IsBill(h, bill)
  {
    FramesAgree(h);
    SameBill(h, Frames(h), bill);
  }

  /** Stepping through a history finds its bill, and nothing else is its bill. */
  lemma {:induction false} BillExactly(h: seq<Chunk>, bill: Option<real>)
    ensures TerminalCost(Frames(h)) == bill <==> IsBill(h, bill)
  {
    var cost := TerminalCost(Frames(h));
    TerminalBill(Frames(h));
    IsBillExactly(h, bill);
    if IsBill(h, bill) {
      TerminalCostUnique(Frames(h), cost, bill);
    }
  }

  lemma {:induction false} SettledExactly(h: seq<Chunk>)
    ensures AllFinished(All(Frames(h))) <==> Settled(h, |h|)
  {
    EntriesAreSighted(h);
    assert h[..|h|] == h;
    if Settled(h, |h|) {
      SettledMeansFinished(h, |h|);
    } else if AllFinished(SightedIn(h, |h|)) {
      FinishedMeansSettled(h, |h|);
    }
  }

  lemma {:induction false} SpeakingDisturbs(h: seq<Chunk>, m: nat, i: nat)
    requires At(h, m, i) && SpeaksAt(h, m, i)
    ensures Active(Frames(h), m)
  {
    assert Disturbs(h, m);
    ActiveExactly(h, m);
  }

  /** A choice that says something, wherever it stands in its chunk, leaves no bill but that chunk's own. */
  lemma {:induction false} SpeakingVoidsTheBill(h: seq<Chunk>, i: nat)
    requires h != [] && At(h, |h| - 1, i) && SpeaksAt(h, |h| - 1, i)
    ensures IsBill(h, if Settled(h, |h|) then BillAt(h, |h| - 1) else None)
  {
    SpeakingDisturbs(h, |h| - 1, i);
    SettledExactly(h);
    BillIsCost(h, |h| - 1);
    BillExactly(h, if Settled(h, |h|) then BillAt(h, |h| - 1) else None);
  }
}

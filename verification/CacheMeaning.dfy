/**
 What preparing a request's cache markers does, said of its places by quantifiers, without the functions that do it.
 */
module CacheMeaning {
  import opened Common
  import opened Cache

  // The message that begins at `p` ends before `q`.
  ghost predicate IsMessage(c: seq<Cell>, p: nat, q: nat) {
    && p < q <= |c| && c[p].Head? && (q == |c| || c[q].Head?)
    && forall i :: p < i < q ==> !c[i].Head?
  }

  // Heads before `p`.
  ghost function HeadsBefore(c: seq<Cell>, p: nat): set<nat>
    requires p <= |c|
  {
    set i: nat | i < p && c[i].Head?
  }

  predicate IsContent(x: Cell) {
    x.Text? || x.Block? || x.Scalar?
  }

  ghost predicate HasCall(c: seq<Cell>, p: nat, q: nat) {
    exists i :: p < i < q <= |c| && c[i].Call?
  }

  /** Where a message takes its marker: itself for a tool result, an assistant's last call, or its last content. */
  ghost predicate IsAnchor(c: seq<Cell>, p: nat, q: nat, a: nat)
    requires p < q <= |c| && c[p].Head?
  {
    if c[p].role == ToolRole then a == p
    else if c[p].role == AssistantRole && HasCall(c, p, q) then
      p < a < q && c[a].Call? && forall i :: a < i < q ==> !c[i].Call?
    else p < a < q && IsContent(c[a]) && forall i :: a < i < q ==> !IsContent(c[i])
  }

  // ---------------------------------------------------------------- the anchor

  lemma {:induction false} HeadsStep(c: seq<Cell>, n: nat)
    requires n < |c|
    ensures |HeadsBefore(c, n + 1)| == |HeadsBefore(c, n)| + if c[n].Head? then 1 else 0
  {
    assert HeadsBefore(c, n + 1) == HeadsBefore(c, n) + if c[n].Head? then {n} else {};
  }

  lemma {:induction false} MessageCountMeaning(c: seq<Cell>, p: nat)
    requires p <= |c|
    ensures MessageCount(Tags(c)[..p]) == |HeadsBefore(c, p)|
    decreases p
  {
    if p == 0 {
      assert HeadsBefore(c, 0) == {};
    } else {
      var n := p - 1;
      MessageCountMeaning(c, n);
      assert Tags(c)[..p][..n] == Tags(c)[..n];
      HeadsStep(c, n);
    }
  }

  // The last of a tag within the message that began at `p`.
  ghost predicate IsLastOf(c: seq<Cell>, p: nat, m: nat, tag: Tag, r: Option<nat>)
    requires m <= |c|
  {
    match r
    case None => forall i :: p < i < m ==> TagOf(c[i]) != tag
    case Some(a) => p < a < m && TagOf(c[a]) == tag && forall i :: a < i < m ==> TagOf(c[i]) != tag
  }

  lemma {:induction false} LastOfStep(c: seq<Cell>, p: nat, m: nat, tag: Tag)
    requires p < m <= |c| && !tag.Message? && (m - 1 == p ==> c[p].Head?)
    requires p < m - 1 && TagOf(c[m - 1]) != tag ==> !c[m - 1].Head?
    ensures LastOf(Tags(c)[..m], tag)
            == if p < m - 1 && TagOf(c[m - 1]) == tag then Some(m - 1)
               else if p < m - 1 then LastOf(Tags(c)[..m - 1], tag) else None
  {
    assert Tags(c)[..m][..m - 1] == Tags(c)[..m - 1];
  }

  lemma {:induction false} LastOfMeaning(c: seq<Cell>, p: nat, m: nat, tag: Tag)
    requires p < m <= |c| && c[p].Head? && (forall i :: p < i < m ==> !c[i].Head?) && !tag.Message?
    ensures IsLastOf(c, p, m, tag, LastOf(Tags(c)[..m], tag))
    decreases m
  {
    LastOfStep(c, p, m, tag);
    if m - 1 > p && TagOf(c[m - 1]) != tag {
      LastOfMeaning(c, p, m - 1, tag);
    }
  }

  lemma {:induction false} LastHeadMeaning(c: seq<Cell>, p: nat, m: nat)
    requires p < m <= |c| && c[p].Head? && forall i :: p < i < m ==> !c[i].Head?
    ensures LastHead(Tags(c)[..m]) == Some(p)
    decreases m
  {
    assert Tags(c)[..m][..m - 1] == Tags(c)[..m - 1];
    if m - 1 > p {
      LastHeadMeaning(c, p, m - 1);
    }
  }

  lemma {:induction false} LastCallMeaning(c: seq<Cell>, p: nat, q: nat, a: nat)
    requires IsMessage(c, p, q)
    ensures LastOf(Tags(c)[..q], CallTag).Some? <==> HasCall(c, p, q)
    ensures LastOf(Tags(c)[..q], CallTag) == Some(a) <==>
            p < a < q && c[a].Call? && forall i :: a < i < q ==> !c[i].Call?
  {
    LastOfMeaning(c, p, q, CallTag);
    assert forall i :: p < i < q ==> (TagOf(c[i]) == CallTag <==> c[i].Call?);
  }

  lemma {:induction false} LastContentMeaning(c: seq<Cell>, p: nat, q: nat, a: nat)
    requires IsMessage(c, p, q)
    ensures LastOf(Tags(c)[..q], Content) == Some(a) <==>
            p < a < q && IsContent(c[a]) && forall i :: a < i < q ==> !IsContent(c[i])
  {
    LastOfMeaning(c, p, q, Content);
    assert forall i :: p < i < q ==> (TagOf(c[i]) == Content <==> IsContent(c[i]));
  }

  lemma {:induction false} LastSpotMeaning(c: seq<Cell>, p: nat, q: nat, a: nat)
    requires IsMessage(c, p, q)
    ensures LastSpot(Tags(c)[..q]) == Some(a) <==> IsAnchor(c, p, q, a)
  {
    LastHeadMeaning(c, p, q);
    LastCallMeaning(c, p, q, a);
    LastContentMeaning(c, p, q, a);
    assert Tags(c)[..q][p] == Message(c[p].role);
  }

  lemma {:induction false} HeadsGrow(c: seq<Cell>, p: nat, m: nat)
    requires p < m <= |c| && c[p].Head?
    ensures |HeadsBefore(c, p)| < |HeadsBefore(c, m)|
  {
    assert p in HeadsBefore(c, m) && HeadsBefore(c, p) <= HeadsBefore(c, m) - {p};
    Smaller(HeadsBefore(c, p), HeadsBefore(c, m) - {p});
  }

  lemma {:induction false} Smaller(a: set<nat>, b: set<nat>)
    requires a <= b
    ensures |a| <= |b|
    decreases a
  {
    if a != {} {
      var x :| x in a;
      Smaller(a - {x}, b - {x});
    }
  }

  lemma {:induction false} SpotFrom(c: seq<Cell>, k: nat, p: nat, q: nat, m: nat)
    requires IsMessage(c, p, q) && |HeadsBefore(c, p)| == k && q <= m <= |c|
    ensures Spot(Tags(c)[..m], k) == LastSpot(Tags(c)[..q])
    decreases m
  {
    MessageCountMeaning(c, m);
    assert Tags(c)[..m][..m - 1] == Tags(c)[..m - 1];
    if m == q {
      OneMessage(c, p, q);
    } else {
      HeadsGrow(c, p, q);
      HeadsGrow(c, q, m);
      SpotFrom(c, k, p, q, m - 1);
    }
  }

  lemma {:induction false} OneMessage(c: seq<Cell>, p: nat, q: nat)
    requires IsMessage(c, p, q)
    ensures |HeadsBefore(c, q)| == |HeadsBefore(c, p)| + 1
  {
    assert HeadsBefore(c, q) == HeadsBefore(c, p) + {p};
  }

  /** The anchor of message `k` is the place the quantifiers name, and there is none exactly when they name none. */
  lemma {:induction false} AnchorExactly(c: seq<Cell>, k: nat, p: nat, q: nat, a: nat)
    requires IsMessage(c, p, q) && |HeadsBefore(c, p)| == k
    ensures Spot(Tags(c), k) == Some(a) <==> IsAnchor(c, p, q, a)
  {
    SpotFrom(c, k, p, q, |c|);
    assert Tags(c)[..|c|] == Tags(c);
    LastSpotMeaning(c, p, q, a);
  }

  // ---------------------------------------------------------------- markers

  predicate HasMark(x: Cell) {
    (x.Tool? || x.System? || x.Head? || x.Block? || x.Call?) && x.mark.Some?
  }

  // Marked places from `i` on.
  ghost function MarksFrom(c: seq<Cell>, i: nat): set<nat>
    requires i <= |c|
  {
    set j: nat | i <= j < |c| && HasMark(c[j])
  }

  lemma {:induction false} CountMeaning(c: seq<Cell>)
    ensures Count(c) == |MarksFrom(c, 0)|
    decreases |c|
  {
    if c == [] {
      assert MarksFrom(c, 0) == {};
    } else {
      var n := |c| - 1;
      CountMeaning(c[..n]);
      assert MarksFrom(c, 0) == MarksFrom(c[..n], 0) + if HasMark(c[n]) then {n} else {};
    }
  }

  lemma {:induction false} CountFromMeaning(c: seq<Cell>, i: nat)
    requires i <= |c|
    ensures Count(c[i..]) == |MarksFrom(c, i)|
    decreases |c|
  {
    if i == |c| {
      assert c[i..] == [] && MarksFrom(c, i) == {};
    } else {
      var n := |c| - 1;
      CountFromMeaning(c[..n], i);
      assert c[i..][..n - i] == c[..n][i..];
      assert MarksFrom(c, i) == MarksFrom(c[..n], i) + if HasMark(c[n]) then {n} else {};
    }
  }

  // The same place without its marker.
  function Bare(x: Cell): Cell {
    match x
    case Tool(_) => Tool(None)
    case System(_) => System(None)
    case Head(role, _) => Head(role, None)
    case Block(thinking, text, _) => Block(thinking, text, None)
    case Call(_) => Call(None)
    case _ => x
  }

  // A marker stays exactly when no more than `limit` of them stand from it to the end.
  ghost function Kept(c: seq<Cell>, limit: nat, i: nat): Cell
    requires i < |c|
  {
    if HasMark(c[i]) && |MarksFrom(c, i)| > limit then Bare(c[i]) else c[i]
  }

  lemma {:induction false} TrimMeaning(c: seq<Cell>, limit: nat, i: nat)
    requires i < |c|
    ensures Trimmed(c, SaturatingSub(Count(c), limit))[i] == Kept(c, limit, i)
  {
    CountFromMeaning(c, i);
    if Marked(c[i]) {
      TrimKeepsTheLast(c, limit, i);
    } else {
      TrimmedAt(c, SaturatingSub(Count(c), limit), i);
    }
  }

  // ---------------------------------------------------------------- placement

  // The last of the segments for a message.
  predicate LastFor(segments: seq<Segment>, k: nat, i: nat) {
    i < |segments| && segments[i].upto == k && forall j :: i < j < |segments| ==> segments[j].upto != k
  }

  // The stability it names.
  ghost predicate Declares(segments: seq<Segment>, k: nat, stability: Stability) {
    exists i: nat :: LastFor(segments, k, i) && segments[i].stability == stability
  }

  lemma {:induction false} DeclaresStep(segments: seq<Segment>, k: nat, stability: Stability)
    requires segments != []
    ensures var last, front := segments[|segments| - 1], segments[..|segments| - 1];
            Declares(segments, k, stability) <==>
              if last.upto == k then last.stability == stability else Declares(front, k, stability)
  {
    var n := |segments| - 1;
    var front := segments[..n];
    assert forall i :: 0 <= i < n ==> front[i] == segments[i];
    if segments[n].upto == k {
      assert LastFor(segments, k, n);
    } else {
      if i: nat :| LastFor(segments, k, i) && segments[i].stability == stability {
        assert LastFor(front, k, i);
      }
      if i: nat :| LastFor(front, k, i) && front[i].stability == stability {
        assert LastFor(segments, k, i);
      }
    }
  }

  lemma {:induction false} BoundariesMeaning(segments: seq<Segment>, k: nat, stability: Stability)
    ensures k in BoundariesOf(segments) && BoundariesOf(segments)[k] == stability <==> Declares(segments, k, stability)
    decreases |segments|
  {
    if segments != [] {
      BoundariesMeaning(segments[..|segments| - 1], k, stability);
      DeclaresStep(segments, k, stability);
    }
  }

  // A place can take a marker unless it is a thinking block, no object, or empty text.
  predicate Takes(x: Cell) {
    !(x.Block? && x.thinking) && !x.Scalar? && !(x.Text? && x.text == "")
  }

  // The same place with a marker; string content becomes a text block.
  function Given(x: Cell, ttl: Ttl): Cell {
    match x
    case Tool(_) => Tool(Some(ttl))
    case System(_) => System(Some(ttl))
    case Head(role, _) => Head(role, Some(ttl))
    case Block(thinking, text, _) => Block(thinking, text, Some(ttl))
    case Call(_) => Call(Some(ttl))
    case Text(text) => Block(false, text, Some(ttl))
    case Scalar => x
  }

  function Lifetime(stability: Stability, config: Config): Ttl {
    match stability
    case Static => if config.supportsTtl then Hour else Unset
    case Session => if config.supportsTtl then Minutes else Unset
    case Turn => Unset
  }

  lemma {:induction false} PlacedAt(c: seq<Cell>, t: seq<Tag>, b: Boundaries, n: nat, config: Config, i: nat)
    requires i < |c|
    ensures |Placed(c, t, b, n, config)| == |c|
    ensures var x := Placed(c, t, b, n, config)[i];
            || x == c[i]
            || exists j: nat ::
                 j < n && Place(t, b, j) == Some(i) && Anchors(c[i]) && x == WithMark(c[i], TtlAt(b, j, config))
    decreases n
  {
    if n > 0 {
      var k := n - 1;
      var next := PlaceAt(c, Place(t, b, k), TtlAt(b, k, config), config.limit);
      PlacedAt(next, t, b, k, config, i);
      var x := Placed(next, t, b, k, config)[i];
      if x != next[i] && next[i] != c[i] {
        var j: nat :| j < k && Place(t, b, j) == Some(i) && Anchors(next[i])
                      && x == WithMark(next[i], TtlAt(b, j, config));
        PlacesApart(t, b, j, k);
      }
    }
  }

  // Place `a` is the anchor of a message that a segment gives this stability.
  ghost predicate Bound(c: seq<Cell>, segments: seq<Segment>, a: nat, stability: Stability) {
    exists p: nat, q: nat ::
      IsMessage(c, p, q) && IsAnchor(c, p, q, a) && Declares(segments, |HeadsBefore(c, p)|, stability)
  }

  lemma {:induction false} MessageAround(c: seq<Cell>, i: nat) returns (p: nat, q: nat)
    requires i < |c| && HeadsBefore(c, i + 1) != {}
    ensures IsMessage(c, p, q) && p <= i < q && |HeadsBefore(c, i + 1)| == |HeadsBefore(c, p)| + 1
  {
    p := i;
    while !c[p].Head?
      invariant p <= i && (forall k :: p < k <= i ==> !c[k].Head?) && HeadsBefore(c, p + 1) == HeadsBefore(c, i + 1)
      decreases p
    {
      assert HeadsBefore(c, 0) == {} && HeadsBefore(c, p + 1) == HeadsBefore(c, p);
      p := p - 1;
    }
    assert HeadsBefore(c, p + 1) == HeadsBefore(c, p) + {p};
    q := i + 1;
    while q < |c| && !c[q].Head?
      invariant i < q <= |c| && forall k :: i < k < q ==> !c[k].Head?
      decreases |c| - q
    {
      q := q + 1;
    }
  }

  // A boundary's place is the anchor of its message, and every anchor of a message with a boundary is one.
  lemma {:induction false} PlaceIsBound(c: seq<Cell>, segments: seq<Segment>, j: nat, i: nat)
      returns (stability: Stability)
    requires Place(Tags(c), BoundariesOf(segments), j) == Some(i)
    ensures stability != Turn && i < |c| && Bound(c, segments, i, stability)
    ensures forall config :: TtlAt(BoundariesOf(segments), j, config) == Lifetime(stability, config)
  {
    stability := BoundariesOf(segments)[j];
    SpotInside(Tags(c), j);
    MessageCountMeaning(c, i + 1);
    var p, q := MessageAround(c, i);
    AnchorExactly(c, j, p, q, i);
    BoundariesMeaning(segments, j, stability);
  }

  // The message `p` begins is one of all.
  lemma {:induction false} MessageWithin(c: seq<Cell>, p: nat)
    requires p < |c| && c[p].Head?
    ensures |HeadsBefore(c, p)| < MessageCount(Tags(c))
  {
    HeadsGrow(c, p, |c|);
    MessageCountMeaning(c, |c|);
    assert Tags(c)[..|c|] == Tags(c);
  }

  lemma {:induction false} BoundIsPlace(c: seq<Cell>, segments: seq<Segment>, i: nat, stability: Stability)
      returns (j: nat)
    requires Bound(c, segments, i, stability) && stability != Turn
    ensures Place(Tags(c), BoundariesOf(segments), j) == Some(i) && i < |c| && j < MessageCount(Tags(c))
    ensures forall config :: TtlAt(BoundariesOf(segments), j, config) == Lifetime(stability, config)
  {
    var p: nat, q: nat :|
      IsMessage(c, p, q) && IsAnchor(c, p, q, i) && Declares(segments, |HeadsBefore(c, p)|, stability);
    j := |HeadsBefore(c, p)|;
    AnchorExactly(c, j, p, q, i);
    BoundariesMeaning(segments, j, stability);
    MessageWithin(c, p);
  }

  // What is left of a request's places.
  function Left(r: Request, segments: seq<Segment>, config: Config): seq<Cell> {
    Prepared(r, segments, config).cells
  }

  lemma {:induction false} LeftAt(r: Request, segments: seq<Segment>, config: Config, i: nat)
    requires i < |r.cells|
    ensures |Left(r, segments, config)| == |r.cells|
    ensures var x, kept := Left(r, segments, config)[i], Kept(r.cells, config.limit, i);
            || x == kept
            || exists stability ::
                 && stability != Turn && Bound(r.cells, segments, i, stability) && Takes(kept)
                 && x == Given(kept, Lifetime(stability, config))
  {
    var c := r.cells;
    var excess := SaturatingSub(Count(c), config.limit);
    var trimmed, t, b := Trimmed(c, excess), Tags(c), BoundariesOf(segments);
    var n := MessageCount(t);
    TrimMeaning(c, config.limit, i);
    PlacedAt(trimmed, t, b, n, config, i);
    var x := Left(r, segments, config)[i];
    if x != trimmed[i] {
      var j: nat :| j < n && Place(t, b, j) == Some(i) && Anchors(trimmed[i])
                    && x == WithMark(trimmed[i], TtlAt(b, j, config));
      var stability := PlaceIsBound(c, segments, j, i);
      assert TtlAt(b, j, config) == Lifetime(stability, config);
    }
  }

  /** Places no boundary anchors keep their markers, as far as the budget allows when counted from the end. */
  lemma {:induction false} OthersKept(r: Request, segments: seq<Segment>, config: Config, i: nat)
    requires i < |r.cells| && forall stability :: Bound(r.cells, segments, i, stability) ==> stability == Turn
    ensures |Left(r, segments, config)| == |r.cells|
    ensures Left(r, segments, config)[i] == Kept(r.cells, config.limit, i)
  {
    LeftAt(r, segments, config, i);
  }

  // Once the loop is done, a place it was to mark is as it would leave it again.
  lemma {:induction false} AnchorRests(r: Request, segments: seq<Segment>, config: Config, i: nat, stability: Stability)
    requires i < |r.cells| && Bound(r.cells, segments, i, stability) && stability != Turn
    ensures var out := Left(r, segments, config);
            i < |out| && Rests(out[i], |MarksFrom(out, 0)|, Lifetime(stability, config), config.limit)
  {
    var c := r.cells;
    var t, b := Tags(c), BoundariesOf(segments);
    LeftAt(r, segments, config, i);
    var j := BoundIsPlace(c, segments, i, stability);
    assert TtlAt(b, j, config) == Lifetime(stability, config);
    StandsThrough(Trimmed(c, SaturatingSub(Count(c), config.limit)), t, b, MessageCount(t), config, j);
    CountMeaning(Left(r, segments, config));
  }

  // What a place that rests is, when it is the kept one or that with a marker.
  lemma {:induction false} RestsMeaning(x: Cell, kept: Cell, other: Ttl, count: nat, ttl: Ttl, limit: nat)
    requires x == kept || (Takes(kept) && x == Given(kept, other))
    requires Rests(x, count, ttl, limit)
    ensures if !Takes(kept) then x == kept
            else x == Given(kept, ttl) || (x == kept && !HasMark(kept) && count >= limit)
  {
  }

  /**
   The anchor of a message with a boundary gets a marker with the boundary's lifetime, if it can take one at all and
   unless it had none and the budget is spent.
   */
  lemma {:induction false} AnchorsMarked(
      r: Request, segments: seq<Segment>, config: Config, i: nat, stability: Stability)
    requires i < |r.cells| && Bound(r.cells, segments, i, stability) && stability != Turn
    ensures |Left(r, segments, config)| == |r.cells|
    ensures var out, kept := Left(r, segments, config), Kept(r.cells, config.limit, i);
            if !Takes(kept) then out[i] == kept
            else
              || out[i] == Given(kept, Lifetime(stability, config))
              || (out[i] == kept && !HasMark(kept) && |MarksFrom(out, 0)| >= config.limit)
  {
    LeftAt(r, segments, config, i);
    AnchorRests(r, segments, config, i, stability);
    var out, kept := Left(r, segments, config), Kept(r.cells, config.limit, i);
    var other := Unset;
    if out[i] != kept {
      var s :| s != Turn && Bound(r.cells, segments, i, s) && Takes(kept) && out[i] == Given(kept, Lifetime(s, config));
      other := Lifetime(s, config);
    }
    RestsMeaning(out[i], kept, other, |MarksFrom(out, 0)|, Lifetime(stability, config), config.limit);
  }

  /**
   The budget is spent from the end: a new marker on an earlier anchor means one on every later anchor that takes one.
   */
  lemma {:induction false} LaterFirst(
      r: Request, segments: seq<Segment>, config: Config, i: nat, early: Stability, k: nat, late: Stability)
    requires i < k < |r.cells| && early != Turn && late != Turn
    requires Bound(r.cells, segments, i, early) && Bound(r.cells, segments, k, late)
    requires Takes(Kept(r.cells, config.limit, k)) && !HasMark(Kept(r.cells, config.limit, i))
    ensures |Left(r, segments, config)| == |r.cells|
    ensures HasMark(Left(r, segments, config)[i]) ==> HasMark(Left(r, segments, config)[k])
  {
    var c := r.cells;
    var trimmed, t, b := Trimmed(c, SaturatingSub(Count(c), config.limit)), Tags(c), BoundariesOf(segments);
    LeftAt(r, segments, config, i);
    var j := BoundIsPlace(c, segments, i, early);
    var m := BoundIsPlace(c, segments, k, late);
    PlacesOrdered(t, b, j, m, i, k);
    TrimmedAlike(c, config.limit, i);
    TrimmedAlike(c, config.limit, k);
    LaterPlaced(trimmed, t, b, MessageCount(t), config, j, m, i, k);
  }

  lemma {:induction false} TrimmedAlike(c: seq<Cell>, limit: nat, i: nat)
    requires i < |c|
    ensures var x := Trimmed(c, SaturatingSub(Count(c), limit))[i];
            (Takes(Kept(c, limit, i)) <==> Anchors(x)) && (HasMark(Kept(c, limit, i)) <==> Marked(x))
  {
    TrimMeaning(c, limit, i);
  }

  lemma {:induction false} LaterPlaced(
      c: seq<Cell>, t: seq<Tag>, b: Boundaries, n: nat, config: Config, j: nat, m: nat, i: nat, k: nat)
    requires j < m < n && Place(t, b, j) == Some(i) && Place(t, b, m) == Some(k) && i < |c| && k < |c|
    requires Anchors(c[k]) && !Marked(c[i])
    ensures |Placed(c, t, b, n, config)| == |c|
    ensures Marked(Placed(c, t, b, n, config)[i]) ==> Marked(Placed(c, t, b, n, config)[k])
  {
    MarkedStays(c, t, b, n, config, k);
    if !Marked(c[k]) {
      LatestFirst(c, t, b, n, config, j, m, i, k);
    }
  }

  lemma {:induction false} PlacesOrdered(t: seq<Tag>, b: Boundaries, j: nat, m: nat, i: nat, k: nat)
    requires Place(t, b, j) == Some(i) && Place(t, b, m) == Some(k) && i < k
    ensures j < m
  {
    SpotInside(t, j);
    SpotInside(t, m);
    SpotsOrdered(t, j, m, i, k);
  }

  lemma {:induction false} SpotsOrdered(t: seq<Tag>, j: nat, m: nat, i: nat, k: nat)
    requires i < k < |t| && Spot(t, j) == Some(i) && Spot(t, m) == Some(k)
    requires MessageCount(t[..i + 1]) == j + 1 && MessageCount(t[..k + 1]) == m + 1
    ensures j < m
  {
    CountsGrow(t, i + 1, k + 1);
    assert j == m ==> i == k;
  }

  lemma {:induction false} CountsGrow(t: seq<Tag>, i: nat, k: nat)
    requires i <= k <= |t|
    ensures MessageCount(t[..i]) <= MessageCount(t[..k])
    decreases k
  {
    if i < k {
      assert t[..k][..k - 1] == t[..k - 1];
      CountsGrow(t, i, k - 1);
    }
  }

  /** Never more markers than the budget, and every index in range, or no request at all. */
  method Prepare(r: Request, policy: Policy, config: Config) returns (result: Result<Request, ()>)
    ensures result.Err? <==>
            || policy.Unreadable?
            || (policy.Segments? && exists i :: 0 <= i < |policy.segments|
                                                && policy.segments[i].upto >= |HeadsBefore(r.cells, |r.cells|)|)
    ensures policy.NoPolicy? || policy == Segments([]) ==> result == Ok(r)
    ensures result.Ok? && policy.Segments? && policy.segments != [] ==>
              && result.value.top.None? && result.value.cells == Left(r, policy.segments, config)
              && |MarksFrom(result.value.cells, 0)| <= config.limit
  {
    result := PrepareRequest(r, policy, config);
    MessageCountMeaning(r.cells, |r.cells|);
    assert Tags(r.cells)[..|r.cells|] == Tags(r.cells);
    if result.Ok? && policy.Segments? && policy.segments != [] {
      PrepareIsIdempotent(r, policy.segments, config);
      CountMeaning(result.value.cells);
    }
  }

  /**
   Finishing a body that has boundaries and lifetimes: the last markers stay and the others go, and it is accepted
   exactly when no one-hour marker that stays follows a shorter one.
   */
  method Finish(body: Request, policy: Policy, config: Config) returns (ok: bool, r: Request)
    ensures policy.Unreadable? ==> !ok
    ensures policy.NoPolicy? || policy == Segments([]) || (policy.Segments? && !config.supportsTtl) ==> ok && r == body
    ensures policy.Segments? && policy.segments != [] && config.supportsTtl ==>
              && r.top.None? && |r.cells| == |body.cells|
              && (forall i :: 0 <= i < |body.cells| ==> r.cells[i] == Kept(body.cells, config.limit, i))
              && (ok <==> forall i, j :: 0 <= i < j < |r.cells| && HasMark(r.cells[i]) && HasMark(r.cells[j]) ==>
                                           r.cells[j].mark == Some(Hour) ==> r.cells[i].mark == Some(Hour))
  {
    ok, r := FinishRequest(body, policy, config);
    forall i | 0 <= i < |body.cells|
      ensures Trimmed(body.cells, SaturatingSub(Count(body.cells), config.limit))[i]
              == Kept(body.cells, config.limit, i)
    {
      TrimMeaning(body.cells, config.limit, i);
    }
  }
}

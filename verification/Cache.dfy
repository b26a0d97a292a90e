/**
 Placing cache markers. A request is the sequence of the places a marker can stand, in document order: tools, system
 blocks, and for each message its own place, its content and its tool calls.
 */
module Cache {
  import opened Common

  datatype Ttl = Hour | Minutes | Unset | OtherTtl(raw: nat)

  datatype Role = ToolRole | AssistantRole | OtherRole

  datatype Cell =
    | Tool(mark: Option<Ttl>)
    | System(mark: Option<Ttl>)
    | Head(role: Role, mark: Option<Ttl>)       // a message's own place
    | Text(text: string)                        // string content, not yet a block
    | Block(thinking: bool, text: string, mark: Option<Ttl>)
    | Scalar                                    // a list entry that is not an object
    | Call(mark: Option<Ttl>)

  predicate Marked(x: Cell) {
    !x.Text? && !x.Scalar? && x.mark.Some?
  }

  function Unmarked(x: Cell): Cell {
    if Marked(x) then x.(mark := None) else x
  }

  // A place that may be given a marker; string content becomes a block for it.
  predicate Anchors(x: Cell) {
    match x
    case Text(text) => text != ""
    case Block(thinking, _, _) => !thinking
    case Scalar => false
    case _ => true
  }

  function WithMark(x: Cell, ttl: Ttl): Cell
    requires Anchors(x)
  {
    if x.Text? then Block(false, x.text, Some(ttl)) else x.(mark := Some(ttl))
  }

  function Count(c: seq<Cell>): nat {
    if c == [] then 0 else Count(c[..|c| - 1]) + if Marked(c[|c| - 1]) then 1 else 0
  }

  lemma {:induction false} CountUpdate(c: seq<Cell>, p: nat, x: Cell)
    requires p < |c|
    ensures Count(c[p := x]) + (if Marked(c[p]) then 1 else 0) == Count(c) + if Marked(x) then 1 else 0
    decreases |c|
  {
    var n := |c| - 1;
    if p == n {
      assert c[p := x][..n] == c[..n];
    } else {
      CountUpdate(c[..n], p, x);
      assert c[p := x][..n] == c[..n][p := x];
    }
  }

  lemma {:induction false} CountSplit(c: seq<Cell>, i: nat)
    requires i <= |c|
    ensures Count(c) == Count(c[..i]) + Count(c[i..])
    decreases |c|
  {
    if i == |c| {
      assert c[..i] == c && c[i..] == [];
    } else {
      var n := |c| - 1;
      CountSplit(c[..n], i);
      assert c[..n][..i] == c[..i] && c[..n][i..] == c[i..][..n - i];
    }
  }

  // ---------------------------------------------------------------- trimming

  function Markers(c: seq<Cell>): (paths: seq<nat>)
    ensures |paths| == Count(c)
    ensures forall k :: 0 <= k < |paths| ==> paths[k] < |c| && Marked(c[paths[k]])
  {
    if c == [] then []
    else Markers(c[..|c| - 1]) + if Marked(c[|c| - 1]) then [|c| - 1] else []
  }

  // The first `excess` markers are removed.
  function Trimmed(c: seq<Cell>, excess: nat): (r: seq<Cell>)
    ensures |r| == |c|
  {
    if c == [] then []
    else
      var n := |c| - 1;
      Trimmed(c[..n], excess) + [if Count(c[..n]) < excess then Unmarked(c[n]) else c[n]]
  }

  lemma {:induction false} TrimmedAt(c: seq<Cell>, excess: nat, i: nat)
    requires i < |c|
    ensures Trimmed(c, excess)[i] == if Count(c[..i]) < excess then Unmarked(c[i]) else c[i]
    decreases |c|
  {
    var n := |c| - 1;
    if i < n {
      TrimmedAt(c[..n], excess, i);
      assert c[..n][..i] == c[..i];
    }
  }

  lemma {:induction false} CountGrows(c: seq<Cell>, i: nat, j: nat)
    requires i < j <= |c|
    ensures Count(c[..i]) + (if Marked(c[i]) then 1 else 0) <= Count(c[..j])
    decreases j
  {
    assert c[..j][..j - 1] == c[..j - 1];
    if i < j - 1 {
      CountGrows(c, i, j - 1);
    }
  }

  lemma {:induction false} Rank(c: seq<Cell>, k: nat)
    requires k < Count(c)
    ensures Count(c[..Markers(c)[k]]) == k
    decreases |c|
  {
    var n := |c| - 1;
    if k < Count(c[..n]) {
      Rank(c[..n], k);
      assert Markers(c)[k] == Markers(c[..n])[k];
      assert c[..n][..Markers(c)[k]] == c[..Markers(c)[k]];
    }
  }

  lemma {:induction false} TrimOne(c: seq<Cell>, k: nat)
    requires k < Count(c)
    ensures Trimmed(c, k)[Markers(c)[k] := Unmarked(Trimmed(c, k)[Markers(c)[k]])] == Trimmed(c, k + 1)
  {
    var p := Markers(c)[k];
    Rank(c, k);
    var a, b := Trimmed(c, k), Trimmed(c, k + 1);
    forall i | 0 <= i < |c| ensures a[p := Unmarked(a[p])][i] == b[i] {
      TrimmedAt(c, k, i);
      TrimmedAt(c, k + 1, i);
      if i < p {
        CountGrows(c, i, p);
      } else if p < i {
        CountGrows(c, p, i);
      }
    }
  }

  lemma {:induction false} TrimNone(c: seq<Cell>)
    ensures Trimmed(c, 0) == c
  {
    forall i | 0 <= i < |c| ensures Trimmed(c, 0)[i] == c[i] {
      TrimmedAt(c, 0, i);
    }
  }

  lemma {:induction false} TrimmedCount(c: seq<Cell>, excess: nat)
    ensures Count(Trimmed(c, excess)) == SaturatingSub(Count(c), excess)
    decreases |c|
  {
    if c != [] {
      var n := |c| - 1;
      TrimmedCount(c[..n], excess);
      assert Trimmed(c, excess)[..n] == Trimmed(c[..n], excess);
    }
  }

  /** What trimming leaves: a marker stays exactly when at most `limit` of them stand from it to the end. */
  lemma {:induction false} TrimKeepsTheLast(c: seq<Cell>, limit: nat, i: nat)
    requires i < |c| && Marked(c[i])
    ensures var r := Trimmed(c, SaturatingSub(Count(c), limit));
            && Count(r) == Min(Count(c), limit)
            && r[i] == if Count(c[i..]) <= limit then c[i] else Unmarked(c[i])
  {
    TrimmedAt(c, SaturatingSub(Count(c), limit), i);
    TrimmedCount(c, SaturatingSub(Count(c), limit));
    CountSplit(c, i);
    CountGrows(c, i, |c|);
    assert c[..|c|] == c;
  }

  method Trim(c: seq<Cell>, limit: nat) returns (r: seq<Cell>)
    ensures r == Trimmed(c, SaturatingSub(Count(c), limit))
  {
    var paths := Markers(c);
    var excess := SaturatingSub(|paths|, limit);
    r := c;
    TrimNone(c);
    for k := 0 to excess
      invariant r == Trimmed(c, k)
    {
      TrimOne(c, k);
      r := r[paths[k] := Unmarked(r[paths[k]])];
    }
  }

  // ---------------------------------------------------------------- where a message takes its marker

  datatype Tag = Outside | Message(role: Role) | Content | CallTag

  function TagOf(x: Cell): Tag {
    match x
    case Tool(_) => Outside
    case System(_) => Outside
    case Head(role, _) => Message(role)
    case Call(_) => CallTag
    case _ => Content
  }

  function Tags(c: seq<Cell>): (t: seq<Tag>)
    ensures |t| == |c| && forall i :: 0 <= i < |c| ==> t[i] == TagOf(c[i])
  {
    if c == [] then [] else Tags(c[..|c| - 1]) + [TagOf(c[|c| - 1])]
  }

  function MessageCount(t: seq<Tag>): nat {
    if t == [] then 0 else MessageCount(t[..|t| - 1]) + if t[|t| - 1].Message? then 1 else 0
  }

  // The last place of a kind since the latest message began.
  function LastOf(t: seq<Tag>, tag: Tag): Option<nat> {
    if t == [] || t[|t| - 1].Message? then None
    else if t[|t| - 1] == tag then Some(|t| - 1)
    else LastOf(t[..|t| - 1], tag)
  }

  // The latest message's place.
  function LastHead(t: seq<Tag>): Option<nat> {
    if t == [] then None else if t[|t| - 1].Message? then Some(|t| - 1) else LastHead(t[..|t| - 1])
  }

  // The anchor of the latest message: itself for a tool result, its last call, or its last content.
  function LastSpot(t: seq<Tag>): Option<nat> {
    var head := LastHead(t);
    if head.Some? && head.value < |t| && t[head.value] == Message(ToolRole) then head
    else if head.Some? && head.value < |t| && t[head.value] == Message(AssistantRole) && LastOf(t, CallTag).Some?
    then LastOf(t, CallTag)
    else LastOf(t, Content)
  }

  // The anchor of message `k`: that of the latest message just before the next one begins.
  function Spot(t: seq<Tag>, k: nat): Option<nat> {
    if t == [] then None
    else if MessageCount(t) == k + 1 then LastSpot(t)
    else Spot(t[..|t| - 1], k)
  }

  lemma {:induction false} LastOfShape(t: seq<Tag>, tag: Tag)
    ensures LastOf(t, tag).Some? ==>
              LastOf(t, tag).value < |t| && MessageCount(t[..LastOf(t, tag).value + 1]) == MessageCount(t)
    ensures LastOf(t, tag).Some? ==> t[LastOf(t, tag).value] == tag
    decreases |t|
  {
    if t != [] && !t[|t| - 1].Message? {
      var n := |t| - 1;
      if t[n] == tag {
        assert t[..n + 1] == t;
      } else {
        LastOfShape(t[..n], tag);
        if LastOf(t[..n], tag).Some? {
          var p := LastOf(t[..n], tag).value;
          assert t[..n][..p + 1] == t[..p + 1];
        }
      }
    }
  }

  lemma {:induction false} LastHeadShape(t: seq<Tag>)
    ensures LastHead(t).Some? ==> LastHead(t).value < |t| && MessageCount(t[..LastHead(t).value + 1]) == MessageCount(t)
    decreases |t|
  {
    if t != [] {
      var n := |t| - 1;
      if t[n].Message? {
        assert t[..n + 1] == t;
      } else {
        LastHeadShape(t[..n]);
        if LastHead(t[..n]).Some? {
          var p := LastHead(t[..n]).value;
          assert t[..n][..p + 1] == t[..p + 1];
        }
      }
    }
  }

  /** A place anchors one message only: the one it stands in. */
  lemma {:induction false} SpotInside(t: seq<Tag>, k: nat)
    ensures Spot(t, k).Some? ==> Spot(t, k).value < |t| && MessageCount(t[..Spot(t, k).value + 1]) == k + 1
    decreases |t|
  {
    if t != [] {
      if MessageCount(t) == k + 1 {
        LastOfShape(t, CallTag);
        LastOfShape(t, Content);
        LastHeadShape(t);
      } else {
        var n := |t| - 1;
        SpotInside(t[..n], k);
        if Spot(t[..n], k).Some? {
          var p := Spot(t[..n], k).value;
          assert t[..n][..p + 1] == t[..p + 1];
        }
      }
    }
  }

  // ---------------------------------------------------------------- placement

  datatype Stability = Static | Session | Turn

  datatype Config = Config(limit: nat, supportsTtl: bool)

  datatype Segment = Segment(upto: nat, stability: Stability)

  type Boundaries = map<nat, Stability>

  function TtlFor(stability: Stability, config: Config): Ttl {
    if !config.supportsTtl then Unset else if stability == Static then Hour else Minutes
  }

  // A marker at one place, where a new one is allowed by a full recount.
  function PlaceAt(c: seq<Cell>, place: Option<nat>, ttl: Ttl, limit: nat): (r: seq<Cell>)
    ensures |r| == |c|
  {
    if place.None? || place.value >= |c| || !Anchors(c[place.value]) then c
    else if !Marked(c[place.value]) && Count(c) >= limit then c
    else c[place.value := WithMark(c[place.value], ttl)]
  }

  // Where boundary `k` takes its marker, if it is to have one, and which.
  function Place(t: seq<Tag>, b: Boundaries, k: nat): Option<nat> {
    if k in b && b[k] != Turn then Spot(t, k) else None
  }

  function TtlAt(b: Boundaries, k: nat, config: Config): Ttl {
    if k in b then TtlFor(b[k], config) else Unset
  }

  // Boundaries below `k`, the latest first.
  function Placed(c: seq<Cell>, t: seq<Tag>, b: Boundaries, k: nat, config: Config): seq<Cell>
    decreases k
  {
    if k == 0 then c
    else Placed(PlaceAt(c, Place(t, b, k - 1), TtlAt(b, k - 1, config), config.limit), t, b, k - 1, config)
  }

  lemma {:induction false} PlaceAtKeeps(c: seq<Cell>, place: Option<nat>, ttl: Ttl, limit: nat)
    ensures Tags(PlaceAt(c, place, ttl, limit)) == Tags(c)
    ensures Count(c) <= Count(PlaceAt(c, place, ttl, limit))
    ensures Count(c) <= limit ==> Count(PlaceAt(c, place, ttl, limit)) <= limit
  {
    var r := PlaceAt(c, place, ttl, limit);
    if r != c {
      CountUpdate(c, place.value, r[place.value]);
    }
  }

  // A place already dealt with: placing its marker again changes nothing.
  predicate Stands(c: seq<Cell>, place: Option<nat>, ttl: Ttl, limit: nat) {
    place.Some? && place.value < |c| ==> Rests(c[place.value], Count(c), ttl, limit)
  }

  predicate Rests(x: Cell, count: nat, ttl: Ttl, limit: nat) {
    !Anchors(x) || if Marked(x) then x.mark == Some(ttl) else count >= limit
  }

  lemma {:induction false} StandsMeaning(c: seq<Cell>, place: Option<nat>, ttl: Ttl, limit: nat)
    ensures Stands(c, place, ttl, limit) ==> PlaceAt(c, place, ttl, limit) == c
    ensures Stands(PlaceAt(c, place, ttl, limit), place, ttl, limit)
  {
    if place.Some? && place.value < |c| && Anchors(c[place.value]) {
      assert WithMark(c[place.value], ttl) == c[place.value] ==> c[place.value := WithMark(c[place.value], ttl)] == c;
    }
  }

  lemma {:induction false} StandsStays(
      c: seq<Cell>, place: Option<nat>, ttl: Ttl, other: Option<nat>, ttl': Ttl, limit: nat)
    requires Stands(c, place, ttl, limit) && (place.Some? ==> other != place)
    ensures Stands(PlaceAt(c, other, ttl', limit), place, ttl, limit)
  {
    PlaceAtKeeps(c, other, ttl', limit);
  }

  lemma {:induction false} PlacesApart(t: seq<Tag>, b: Boundaries, j: nat, k: nat)
    requires j != k && Place(t, b, j).Some?
    ensures Place(t, b, j) != Place(t, b, k)
  {
    SpotInside(t, j);
    SpotInside(t, k);
  }

  lemma {:induction false} PlacedKeeps(c: seq<Cell>, t: seq<Tag>, b: Boundaries, k: nat, config: Config)
    requires Count(c) <= config.limit
    ensures Tags(Placed(c, t, b, k, config)) == Tags(c) && Count(Placed(c, t, b, k, config)) <= config.limit
    decreases k
  {
    if k > 0 {
      var place, ttl := Place(t, b, k - 1), TtlAt(b, k - 1, config);
      PlaceAtKeeps(c, place, ttl, config.limit);
      PlacedKeeps(PlaceAt(c, place, ttl, config.limit), t, b, k - 1, config);
    }
  }

  // Once a boundary has been dealt with, the rest of the loop leaves it so.
  lemma {:induction false} StandsThrough(c: seq<Cell>, t: seq<Tag>, b: Boundaries, k: nat, config: Config, j: nat)
    requires j < k || Stands(c, Place(t, b, j), TtlAt(b, j, config), config.limit)
    ensures Stands(Placed(c, t, b, k, config), Place(t, b, j), TtlAt(b, j, config), config.limit)
    decreases k
  {
    if k > 0 {
      var place, ttl := Place(t, b, k - 1), TtlAt(b, k - 1, config);
      var next := PlaceAt(c, place, ttl, config.limit);
      if j == k - 1 {
        StandsMeaning(c, place, ttl, config.limit);
      } else if k <= j {
        if Place(t, b, j).Some? {
          PlacesApart(t, b, j, k - 1);
        }
        StandsStays(c, Place(t, b, j), TtlAt(b, j, config), place, ttl, config.limit);
      }
      StandsThrough(next, t, b, k - 1, config, j);
    }
  }

  lemma {:induction false} StandingStays(c: seq<Cell>, t: seq<Tag>, b: Boundaries, k: nat, config: Config)
    requires forall j :: 0 <= j < k ==> Stands(c, Place(t, b, j), TtlAt(b, j, config), config.limit)
    ensures Placed(c, t, b, k, config) == c
    decreases k
  {
    if k > 0 {
      StandsMeaning(c, Place(t, b, k - 1), TtlAt(b, k - 1, config), config.limit);
      StandingStays(c, t, b, k - 1, config);
    }
  }

  lemma {:induction false} MarkedStays(c: seq<Cell>, t: seq<Tag>, b: Boundaries, k: nat, config: Config, p: nat)
    requires p < |c|
    ensures |Placed(c, t, b, k, config)| == |c|
    ensures Marked(c[p]) ==> Marked(Placed(c, t, b, k, config)[p])
    ensures !Marked(c[p]) && Count(c) >= config.limit ==> !Marked(Placed(c, t, b, k, config)[p])
    decreases k
  {
    if k > 0 {
      var place, ttl := Place(t, b, k - 1), TtlAt(b, k - 1, config);
      PlaceAtKeeps(c, place, ttl, config.limit);
      MarkedStays(PlaceAt(c, place, ttl, config.limit), t, b, k - 1, config, p);
    }
  }

  lemma {:induction false} PlacedHere(c: seq<Cell>, y: nat, ttl: Ttl, limit: nat)
    requires y < |c| && Anchors(c[y])
    ensures Marked(PlaceAt(c, Some(y), ttl, limit)[y]) || (PlaceAt(c, Some(y), ttl, limit) == c && Count(c) >= limit)
  {
  }

  lemma {:induction false} PlacedElsewhere(c: seq<Cell>, place: Option<nat>, ttl: Ttl, limit: nat, x: nat)
    requires x < |c| && place != Some(x)
    ensures PlaceAt(c, place, ttl, limit)[x] == c[x]
  {
  }

  // The last boundary is placed first, and goes without a marker only if the budget is spent.
  lemma {:induction false} LastPlaced(
      c: seq<Cell>, t: seq<Tag>, b: Boundaries, n: nat, config: Config, x: nat, y: nat)
    requires x < |c| && y < |c| && x != y && Place(t, b, n) == Some(y) && Anchors(c[y]) && !Marked(c[x])
    ensures |Placed(c, t, b, n + 1, config)| == |c|
    ensures Marked(Placed(c, t, b, n + 1, config)[x]) ==> Marked(Placed(c, t, b, n + 1, config)[y])
  {
    var ttl := TtlAt(b, n, config);
    var next := PlaceAt(c, Some(y), ttl, config.limit);
    PlacedHere(c, y, ttl, config.limit);
    PlacedElsewhere(c, Some(y), ttl, config.limit, x);
    MarkedStays(next, t, b, n, config, x);
    MarkedStays(next, t, b, n, config, y);
  }

  /** The budget is spent from the end: a boundary goes without a new marker only if every earlier one does too. */
  lemma {:induction false} LatestFirst(
      c: seq<Cell>, t: seq<Tag>, b: Boundaries, n: nat, config: Config, j: nat, k: nat, x: nat, y: nat)
    requires j < k < n && Place(t, b, j) == Some(x) && Place(t, b, k) == Some(y) && x < |c| && y < |c|
    requires Anchors(c[y]) && !Marked(c[x]) && !Marked(c[y])
    ensures |Placed(c, t, b, n, config)| == |c|
    ensures Marked(Placed(c, t, b, n, config)[x]) ==> Marked(Placed(c, t, b, n, config)[y])
    decreases n
  {
    PlacesApart(t, b, j, n - 1);
    if k == n - 1 {
      LastPlaced(c, t, b, k, config, x, y);
    } else {
      var place, ttl := Place(t, b, n - 1), TtlAt(b, n - 1, config);
      PlacesApart(t, b, k, n - 1);
      PlacedElsewhere(c, place, ttl, config.limit, x);
      PlacedElsewhere(c, place, ttl, config.limit, y);
      LatestFirst(PlaceAt(c, place, ttl, config.limit), t, b, n - 1, config, j, k, x, y);
    }
  }

  // ---------------------------------------------------------------- a whole request

  datatype Request = Request(cells: seq<Cell>, top: Option<Ttl>)

  datatype Policy = NoPolicy | Unreadable | Segments(segments: seq<Segment>)

  function BoundariesOf(segments: seq<Segment>): Boundaries {
    if segments == [] then map[]
    else BoundariesOf(segments[..|segments| - 1])[segments[|segments| - 1].upto := segments[|segments| - 1].stability]
  }

  predicate InRange(segments: seq<Segment>, count: nat) {
    forall i :: 0 <= i < |segments| ==> segments[i].upto < count
  }

  // What the placement loop leaves of a request.
  function Prepared(r: Request, segments: seq<Segment>, config: Config): Request {
    var trimmed := Trimmed(r.cells, SaturatingSub(Count(r.cells), config.limit));
    Request(Placed(trimmed, Tags(r.cells), BoundariesOf(segments), MessageCount(Tags(r.cells)), config), None)
  }

  lemma {:induction false} TrimmedTags(c: seq<Cell>, excess: nat)
    ensures Tags(Trimmed(c, excess)) == Tags(c)
    decreases |c|
  {
    if c != [] {
      var n := |c| - 1;
      TrimmedTags(c[..n], excess);
      assert Trimmed(c, excess)[..n] == Trimmed(c[..n], excess);
    }
  }

  /**
   A prepared request holds at most `limit` markers, has its places where they were, and preparing it again changes
   nothing.
   */
  lemma {:induction false} PrepareIsIdempotent(r: Request, segments: seq<Segment>, config: Config)
    ensures Count(Prepared(r, segments, config).cells) <= config.limit
    ensures Tags(Prepared(r, segments, config).cells) == Tags(r.cells)
    ensures Prepared(Prepared(r, segments, config), segments, config) == Prepared(r, segments, config)
  {
    var excess := SaturatingSub(Count(r.cells), config.limit);
    var trimmed, t, b := Trimmed(r.cells, excess), Tags(r.cells), BoundariesOf(segments);
    var n := MessageCount(t);
    TrimmedCount(r.cells, excess);
    TrimmedTags(r.cells, excess);
    PlacedKeeps(trimmed, t, b, n, config);
    var once := Placed(trimmed, t, b, n, config);
    TrimNone(once);
    forall j | 0 <= j < n ensures Stands(once, Place(t, b, j), TtlAt(b, j, config), config.limit) {
      StandsThrough(trimmed, t, b, n, config, j);
    }
    StandingStays(once, t, b, n, config);
  }

  method CollectBoundaries(segments: seq<Segment>) returns (b: Boundaries)
    ensures b == BoundariesOf(segments)
  {
    b := map[];
    for i := 0 to |segments|
      invariant b == BoundariesOf(segments[..i])
    {
      assert segments[..i + 1][..i] == segments[..i];
      b := b[segments[i].upto := segments[i].stability];
    }
    assert segments[..|segments|] == segments;
  }

  // One boundary, with the running count in place of the recount.
  method PlaceBoundary(
      c: seq<Cell>, used: nat, b: Boundaries, k: nat, config: Config)
      returns (r: seq<Cell>, count: nat)
    requires used == Count(c)
    ensures r == PlaceAt(c, Place(Tags(c), b, k), TtlAt(b, k, config), config.limit) && count == Count(r)
  {
    r, count := c, used;
    if k !in b || b[k] == Turn {
      return;
    }
    var spot := Spot(Tags(c), k);
    SpotInside(Tags(c), k);
    var existing := spot.Some? && Marked(c[spot.value]);
    if !existing && used >= config.limit {
      return;
    }
    if spot.None? || !Anchors(c[spot.value]) {
      return;
    }
    var x := WithMark(c[spot.value], TtlFor(b[k], config));
    CountUpdate(c, spot.value, x);
    r := c[spot.value := x];
    if !existing {
      count := used + 1;
    }
  }

  /** The placement loop, with its own count of markers in place of the recount. */
  method PrepareRequest(r: Request, policy: Policy, config: Config) returns (result: Result<Request, ()>)
    ensures policy.NoPolicy? || policy == Segments([]) ==> result == Ok(r)
    ensures policy.Unreadable? ==> result.Err?
    ensures policy.Segments? && policy.segments != [] ==>
              result == if InRange(policy.segments, MessageCount(Tags(r.cells)))
                        then Ok(Prepared(r, policy.segments, config)) else Err(())
  {
    if policy.Unreadable? {
      return Err(());
    }
    if policy.NoPolicy? || policy.segments == [] {
      return Ok(r);
    }
    var count := MessageCount(Tags(r.cells));
    if !InRange(policy.segments, count) {
      return Err(());
    }
    var c := Trim(r.cells, config.limit);
    var used := |Markers(c)|;
    var b := CollectBoundaries(policy.segments);
    ghost var t, start := Tags(r.cells), c;
    TrimmedTags(r.cells, SaturatingSub(Count(r.cells), config.limit));
    for k := count downto 0
      invariant used == Count(c) && Tags(c) == t
      invariant Placed(c, t, b, k, config) == Placed(start, t, b, count, config)
    {
      PlaceAtKeeps(c, Place(t, b, k), TtlAt(b, k, config), config.limit);
      c, used := PlaceBoundary(c, used, b, k, config);
    }
    return Ok(Request(c, None));
  }

  // ---------------------------------------------------------------- the final pass

  predicate Long(x: Cell)
    requires Marked(x)
  {
    x.mark == Some(Hour)
  }

  // Long-lived markers come first.
  ghost predicate LongFirst(c: seq<Cell>) {
    forall i, j :: 0 <= i < j < |c| && Marked(c[i]) && Marked(c[j]) && Long(c[j]) ==> Long(c[i])
  }

  /** The body is trimmed, and accepted exactly when no one-hour marker that is left follows a shorter one. */
  method FinishRequest(body: Request, policy: Policy, config: Config) returns (ok: bool, r: Request)
    ensures policy.Unreadable? ==> !ok
    ensures policy.Segments? && policy.segments != [] && config.supportsTtl ==>
              && r == Request(Trimmed(body.cells, SaturatingSub(Count(body.cells), config.limit)), None)
              && (ok <==> LongFirst(r.cells))
    ensures policy.NoPolicy? || policy == Segments([]) || (policy.Segments? && !config.supportsTtl) ==> ok && r == body
  {
    r := body;
    if policy.Unreadable? {
      return false, r;
    }
    if policy.NoPolicy? || policy.segments == [] || !config.supportsTtl {
      return true, r;
    }
    var c := Trim(body.cells, config.limit);
    r := Request(c, None);
    var short := false;
    for i := 0 to |c|
      invariant LongFirst(c[..i])
      invariant short <==> exists j :: 0 <= j < i && Marked(c[j]) && !Long(c[j])
    {
      if Marked(c[i]) {
        if Long(c[i]) && short {
          return false, r;
        }
        if !Long(c[i]) {
          short := true;
        }
      }
      assert forall j :: 0 <= j < i ==> c[..i + 1][j] == c[..i][j];
    }
    assert c[..|c|] == c;
    return true, r;
  }
}

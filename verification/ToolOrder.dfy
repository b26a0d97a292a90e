/** Gemini takes the answers of one turn in the order of their calls: the in-place sort of each run of answers. */
module ToolOrder {
  import opened Common
  import opened ToolIds
  import opened ToolHistory
  import opened ToolReplay

  function OrderOf(x: Ready): nat {
    if x.ReadyAnswer? then x.identity.order else 0
  }

  ghost predicate InOrder(s: seq<Ready>) {
    forall i, j :: 0 <= i < j < |s| ==> OrderOf(s[i]) <= OrderOf(s[j])
  }

  // ---------------------------------------------------------------- the stable sort

  function Placed(s: seq<Ready>, x: Ready): seq<Ready> {
    if s == [] || OrderOf(s[|s| - 1]) <= OrderOf(x) then s + [x] else Placed(s[..|s| - 1], x) + [s[|s| - 1]]
  }

  function Sorted(s: seq<Ready>): seq<Ready> {
    if s == [] then [] else Placed(Sorted(s[..|s| - 1]), s[|s| - 1])
  }

  lemma {:induction false} PlacedKeeps(s: seq<Ready>, x: Ready)
    ensures multiset(Placed(s, x)) == multiset(s) + multiset{x} && |Placed(s, x)| == |s| + 1
    ensures forall y :: y in Placed(s, x) ==> y == x || y in s
    decreases |s|
  {
    if s != [] && OrderOf(s[|s| - 1]) > OrderOf(x) {
      var front, last := s[..|s| - 1], s[|s| - 1];
      PlacedKeeps(front, x);
      assert s == front + [last];
    }
  }

  lemma {:induction false} PlacedInOrder(s: seq<Ready>, x: Ready)
    requires InOrder(s)
    ensures InOrder(Placed(s, x))
    decreases |s|
  {
    if s != [] && OrderOf(s[|s| - 1]) > OrderOf(x) {
      var front, last := s[..|s| - 1], s[|s| - 1];
      PlacedInOrder(front, x);
      PlacedKeeps(front, x);
      var r := Placed(front, x);
      forall i | 0 <= i < |r| ensures OrderOf(r[i]) <= OrderOf(last) {
        assert r[i] in r;
        assert r[i] == x || r[i] in front;
      }
    }
  }

  lemma {:induction false} SortedKeeps(s: seq<Ready>)
    ensures multiset(Sorted(s)) == multiset(s) && |Sorted(s)| == |s| && InOrder(Sorted(s))
    decreases |s|
  {
    if s != [] {
      var front, last := s[..|s| - 1], s[|s| - 1];
      SortedKeeps(front);
      PlacedKeeps(Sorted(front), last);
      PlacedInOrder(Sorted(front), last);
      assert s == front + [last];
    }
  }

  // ---------------------------------------------------------------- runs

  // A maximal run of answers.
  ghost predicate IsRun(ms: seq<Ready>, a: nat, b: nat) {
    && a < b <= |ms|
    && (forall i :: a <= i < b ==> ms[i].ReadyAnswer?)
    && (a == 0 || !ms[a - 1].ReadyAnswer?) && (b == |ms| || !ms[b].ReadyAnswer?)
  }

  ghost predicate RunDone(ms: seq<Ready>, r: seq<Ready>, a: nat, b: nat)
    requires a <= b <= |ms| == |r|
  {
    multiset(r[a..b]) == multiset(ms[a..b]) && InOrder(r[a..b])
  }

  /** Only whole runs are permuted, and each is left in the order of its calls. */
  ghost predicate Reordered(ms: seq<Ready>, r: seq<Ready>, n: nat) {
    && |r| == |ms|
    && (forall i :: 0 <= i < |ms| && (i >= n || !ms[i].ReadyAnswer?) ==> r[i] == ms[i])
    && (forall a: nat, b: nat :: b <= n && IsRun(ms, a, b) ==> RunDone(ms, r, a, b))
  }

  // Nothing but whole runs lies before `n`.
  ghost predicate Between(ms: seq<Ready>, n: nat) {
    n <= |ms| && (n == 0 || n == |ms| || !ms[n - 1].ReadyAnswer? || !ms[n].ReadyAnswer?)
  }

  lemma {:induction false} Skip(ms: seq<Ready>, r: seq<Ready>, n: nat)
    requires Reordered(ms, r, n) && n < |ms| && !ms[n].ReadyAnswer?
    ensures Reordered(ms, r, n + 1)
  {
  }

  lemma {:induction false} RunsApart(ms: seq<Ready>, a: nat, b: nat, c: nat, d: nat)
    requires IsRun(ms, a, b) && IsRun(ms, c, d) && d <= b
    ensures d <= a || (c == a && d == b)
  {
  }

  lemma {:induction false} SortRun(ms: seq<Ready>, r: seq<Ready>, a: nat, b: nat)
    requires Reordered(ms, r, a) && IsRun(ms, a, b)
    ensures Reordered(ms, r[..a] + Sorted(r[a..b]) + r[b..], b)
  {
    var run := Sorted(r[a..b]);
    var next := r[..a] + run + r[b..];
    SortedKeeps(r[a..b]);
    Spliced(r, a, b, run);
    assert r[a..b] == ms[a..b];
    forall c: nat, d: nat | d <= b && IsRun(ms, c, d) ensures RunDone(ms, next, c, d) {
      RunsApart(ms, a, b, c, d);
      if d <= a {
        assert RunDone(ms, r, c, d);
        assert next[c..d] == r[c..d];
      }
    }
  }

  lemma {:induction false} Spliced(r: seq<Ready>, a: nat, b: nat, run: seq<Ready>)
    requires a <= b <= |r| && |run| == b - a
    ensures |r[..a] + run + r[b..]| == |r| && (r[..a] + run + r[b..])[a..b] == run
    ensures forall i :: 0 <= i < |r| && (i < a || b <= i) ==> (r[..a] + run + r[b..])[i] == r[i]
    ensures (r[..a] + run + r[b..])[..a] == r[..a]
  {
  }

  method SortRuns(ms: seq<Ready>) returns (r: seq<Ready>)
    ensures Reordered(ms, r, |ms|)
  {
    r := ms;
    var start := 0;
    while start < |ms|
      invariant start <= |ms| && Between(ms, start) && Reordered(ms, r, start)
    {
      if !r[start].ReadyAnswer? {
        Skip(ms, r, start);
        start := start + 1;
      } else {
        var end := start + 1;
        while end < |ms| && r[end].ReadyAnswer?
          invariant start < end <= |ms|
          invariant forall i :: start <= i < end ==> ms[i].ReadyAnswer?
        {
          end := end + 1;
        }
        SortRun(ms, r, start, end);
        r := r[..start] + Sorted(r[start..end]) + r[end..];
        start := end;
      }
    }
  }

  // ---------------------------------------------------------------- the order of the calls

  lemma {:induction false} TwiceInside<T>(s: seq<T>, i: nat, j: nat)
    requires i < j < |s| && s[i] == s[j]
    ensures multiset(s)[s[i]] >= 2
  {
    assert s == s[..i] + [s[i]] + s[i + 1..j] + [s[j]] + s[j + 1..];
  }

  lemma {:induction false} OnceInside<T>(s: seq<T>, i: nat)
    requires i < |s| && forall j :: 0 <= j < |s| && j != i ==> s[j] != s[i]
    ensures multiset(s)[s[i]] == 1
  {
    assert s == s[..i] + [s[i]] + s[i + 1..];
    assert s[i] !in s[..i] && s[i] !in s[i + 1..];
  }

  // The maximal run an answer stands in.
  lemma {:induction false} RunAround(ms: seq<Ready>, i: nat) returns (a: nat, b: nat)
    requires i < |ms| && ms[i].ReadyAnswer?
    ensures IsRun(ms, a, b) && a <= i < b
  {
    a, b := i, i + 1;
    while a > 0 && ms[a - 1].ReadyAnswer?
      invariant a <= i && forall k :: a <= k <= i ==> ms[k].ReadyAnswer?
    {
      a := a - 1;
    }
    while b < |ms| && ms[b].ReadyAnswer?
      invariant i < b <= |ms| && forall k :: i <= k < b ==> ms[k].ReadyAnswer?
      decreases |ms| - b
    {
      b := b + 1;
    }
  }

  // What stands in a run after sorting stood in it before.
  lemma {:induction false} FromRun(ms: seq<Ready>, r: seq<Ready>, a: nat, b: nat, i: nat) returns (p: nat)
    requires Reordered(ms, r, |ms|) && IsRun(ms, a, b) && a <= i < b
    ensures a <= p < b && ms[p] == r[i]
  {
    assert RunDone(ms, r, a, b);
    assert r[a..b][i - a] in multiset(r[a..b]);
    assert r[i] in multiset(ms[a..b]);
    var k :| 0 <= k < |ms[a..b]| && ms[a..b][k] == r[i];
    p := a + k;
  }

  lemma {:induction false} SameKinds(ms: seq<Ready>, r: seq<Ready>, i: nat)
    requires Reordered(ms, r, |ms|) && i < |ms|
    ensures r[i].ReadyAnswer? <==> ms[i].ReadyAnswer?
  {
    if ms[i].ReadyAnswer? {
      var a, b := RunAround(ms, i);
      var p := FromRun(ms, r, a, b, i);
    }
  }

  // The answer at `k` has the identity of the call at `c`.
  ghost predicate Answers(h: seq<Item>, identified: seq<Ready>, x: Ready, c: nat) {
    && |identified| == |h| && c < |h| && h[c].Call? && identified[c].ReadyCall?
    && x.ReadyAnswer? && x.identity == identified[c].identity
  }

  lemma {:induction false} AnsweredCall(h: seq<Item>, ms: seq<Ready>, t: Target, k: nat) returns (c: nat)
    requires Paired(h) && Identified(h, ms, t) && k < |h| && ms[k].ReadyAnswer?
    ensures h[k].Answer? && c < k && Answers(h, ms, ms[k], c) && ms[k].identity.order == Calls(h[..c])
  {
    assert CallReady(h, ms, t, k) && h[k].Answer?;
    assert SoundAt(h, k) && AnswerReady(h, ms, k);
    c :| 0 <= c < k && Awaits(h, c, k, h[k].id.value);
    assert CallReady(h, ms, t, c);
  }

  lemma {:induction false} DistinctInRun(
      h: seq<Item>, ms: seq<Ready>, t: Target, r: seq<Ready>, a: nat, b: nat, i: nat, j: nat)
    requires Paired(h) && Identified(h, ms, t) && Reordered(ms, r, |ms|) && IsRun(ms, a, b) && a <= i < j < b
    ensures r[i].ReadyAnswer? && r[j].ReadyAnswer? && r[i].identity.order != r[j].identity.order
  {
    var p := FromRun(ms, r, a, b, i);
    var q := FromRun(ms, r, a, b, j);
    assert RunDone(ms, r, a, b);
    OnceInRun(h, ms, t, a, b, p);
    if p == q {
      TwiceInside(r[a..b], i - a, j - a);
    } else {
      OrdersApart(h, ms, t, p, q);
    }
  }

  lemma {:induction false} OnceInRun(h: seq<Item>, ms: seq<Ready>, t: Target, a: nat, b: nat, p: nat)
    requires Paired(h) && Identified(h, ms, t) && IsRun(ms, a, b) && a <= p < b
    ensures multiset(ms[a..b])[ms[p]] == 1
  {
    forall k | 0 <= k < |ms[a..b]| && k != p - a ensures ms[a..b][k] != ms[a..b][p - a] {
      OrdersApart(h, ms, t, a + k, p);
    }
    OnceInside(ms[a..b], p - a);
  }

  lemma {:induction false} OrdersApart(h: seq<Item>, ms: seq<Ready>, t: Target, p: nat, q: nat)
    requires Paired(h) && Identified(h, ms, t)
    requires p < |h| && q < |h| && p != q && ms[p].ReadyAnswer? && ms[q].ReadyAnswer?
    ensures ms[p].identity.order != ms[q].identity.order
  {
    var c := AnsweredCall(h, ms, t, p);
    var d := AnsweredCall(h, ms, t, q);
    if p < q {
      DistinctOrders(h, ms, t, p, q);
    } else {
      DistinctOrders(h, ms, t, q, p);
    }
  }

  // A run goes as far as the answers do.
  lemma {:induction false} RunReaches(ms: seq<Ready>, a: nat, b: nat, i: nat, j: nat)
    requires IsRun(ms, a, b) && a <= i < b && j < |ms| && forall k :: i <= k <= j ==> ms[k].ReadyAnswer?
    ensures j < b
  {
  }

  /** Two answers of one run stand in the order in which the calls they answer were made. */
  lemma {:induction false} RunInCallOrder(
      h: seq<Item>, ms: seq<Ready>, t: Target, r: seq<Ready>, i: nat, j: nat) returns (c: nat, d: nat)
    requires Paired(h) && Identified(h, ms, t) && Reordered(ms, r, |ms|) && i < j < |r|
    requires Unbroken(r, i, j)
    ensures c < d && Answers(h, ms, r[i], c) && Answers(h, ms, r[j], d)
    ensures r[i].identity.order < r[j].identity.order
  {
    forall k | i <= k <= j ensures ms[k].ReadyAnswer? {
      SameKinds(ms, r, k);
    }
    var a, b := RunAround(ms, i);
    RunReaches(ms, a, b, i, j);
    DistinctInRun(h, ms, t, r, a, b, i, j);
    assert RunDone(ms, r, a, b);
    assert OrderOf(r[a..b][i - a]) <= OrderOf(r[a..b][j - a]);
    var p := FromRun(ms, r, a, b, i);
    var q := FromRun(ms, r, a, b, j);
    c := AnsweredCall(h, ms, t, p);
    d := AnsweredCall(h, ms, t, q);
    if d < c {
      CallsGrow(h, d, c);
    }
  }

  /** In a run every answer to an earlier call comes before every answer to a later one. */
  ghost predicate InCallOrder(h: seq<Item>, identified: seq<Ready>, r: seq<Ready>) {
    forall i, j :: 0 <= i < j < |r| && Unbroken(r, i, j) ==>
      r[i].identity.order < r[j].identity.order && CalledBefore(h, identified, r[i], r[j])
  }

  // Nothing but answers from `i` to `j`.
  predicate Unbroken(r: seq<Ready>, i: nat, j: nat)
    requires i <= j < |r|
  {
    forall k :: i <= k <= j ==> r[k].ReadyAnswer?
  }

  ghost predicate CalledBefore(h: seq<Item>, identified: seq<Ready>, x: Ready, y: Ready) {
    exists c: nat, d: nat :: c < d && Answers(h, identified, x, c) && Answers(h, identified, y, d)
  }

  lemma {:induction false} RunsInCallOrder(h: seq<Item>, ms: seq<Ready>, t: Target, r: seq<Ready>)
    requires Paired(h) && Identified(h, ms, t) && Reordered(ms, r, |ms|)
    ensures InCallOrder(h, ms, r)
  {
    forall i, j | 0 <= i < j < |r| && Unbroken(r, i, j)
      ensures r[i].identity.order < r[j].identity.order && CalledBefore(h, ms, r[i], r[j])
    {
      var c, d := RunInCallOrder(h, ms, t, r, i, j);
    }
  }

  // ---------------------------------------------------------------- a whole request

  // The history that is validated: as it stands, or with its native items joined into turns.
  function Checked(h: seq<Item>, joins: bool): seq<Item> {
    if joins then Joined(h) else h
  }

  /**
   Preparing a request: it fails unless the history is sound, its calls fit the target and each other and its answers
   name them rightly; with a new scope it fails only then. What it leaves is the identified history, with each
   run of answers in call order where the target asks for that.
   */
  method PrepareRequest(h: seq<Item>, t: Target, joins: bool, scope: string, mints: nat -> string)
      returns (r: Result<seq<Ready>, ()>, ghost identified: seq<Ready>)
    requires FreshIds(h, mints)
    ensures r.Ok? ==> Sound(Checked(h, joins)) && Identified(h, identified, t)
    ensures r.Ok? && FreshScope(h, scope) && Opens(h) ==> Shows(h, identified, t, mints)
    ensures FreshScope(h, scope) && Opens(h) ==>
              (r.Ok? <==> Sound(Checked(h, joins)) && Rewritable(h, t) && NamesAgree(h))
    ensures r.Ok? ==>
              if t.wire == GoogleGenerateContent
              then Reordered(identified, r.value, |h|) && InCallOrder(h, identified, r.value)
              else r.value == identified
    ensures Sound(Checked(h, joins)) && t.provider != "" && NamesAgree(h) && AllPlain(h) ==> r.Ok?
  {
    identified := [];
    var checked := h;
    if joins {
      checked := JoinTurns(h);
    }
    var ok := ValidateHistory(checked);
    if !ok {
      return Err(()), [];
    }
    JoinedSound(h);
    r := Rewrite(h, t, scope, mints);
    if r.Ok? {
      identified := r.value;
      if t.wire == GoogleGenerateContent {
        var sorted := SortRuns(r.value);
        RunsInCallOrder(h, r.value, t, sorted);
        r := Ok(sorted);
      }
    }
  }
}

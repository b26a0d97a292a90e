/**
 What the breaker's queue has to do with the failures of a window: everything when times are in order, and exactly how
 much when they are not. A failure's time is read before the lock is taken, so times may be recorded out of order.
 */
module BreakerWindow {
  import opened Common
  import opened Breaker

  predicate Ordered(times: seq<nat>) {
    |times| >= 2 ==> Ordered(times[..|times| - 1]) && times[|times| - 2] <= times[|times| - 1]
  }

  // Failure `i` lies within the window that ends at failure `k`.
  predicate InReach(times: seq<nat>, i: nat, k: nat, window: nat)
    requires i < |times| && k < |times|
  {
    SaturatingSub(times[k], times[i]) <= window
  }

  // The failures within the window ending at `now`, and how many they are.
  function InWindow(times: seq<nat>, now: nat, window: nat): seq<nat> {
    if times == [] then []
    else
      InWindow(times[..|times| - 1], now, window)
      + if SaturatingSub(now, times[|times| - 1]) <= window then [times[|times| - 1]] else []
  }

  function Near(times: seq<nat>, now: nat, window: nat): nat {
    if times == [] then 0
    else Near(times[..|times| - 1], now, window) + if SaturatingSub(now, times[|times| - 1]) <= window then 1 else 0
  }

  // The latest failure and the `threshold - 1` before it fit in one window.
  predicate Bursts(times: seq<nat>, c: Config) {
    c.threshold > 0 && |times| >= c.threshold && InReach(times, |times| - c.threshold, |times| - 1, c.window)
  }

  predicate Tripped(times: seq<nat>, c: Config) {
    times != [] && (Tripped(times[..|times| - 1], c) || Bursts(times, c))
  }

  /** At no failure does one out of reach stand behind one within reach, and what is out of reach never comes back. */
  ghost predicate Settled(times: seq<nat>, window: nat) {
    && (forall i, j, k :: 0 <= i <= j <= k < |times| && InReach(times, i, k, window) ==> InReach(times, j, k, window))
    && (forall i, k, l :: 0 <= i <= k <= l < |times| && !InReach(times, i, k, window) ==> !InReach(times, i, l, window))
  }

  // ---------------------------------------------------------------- the queue is a tail of the history

  // How many of the first `n` failures have been dropped.
  function Dropped(times: seq<nat>, n: nat, window: nat): int
    requires n <= |times|
  {
    n - |QueueOf(times[..n], window)|
  }

  lemma {:induction false} FreshFrom(times: seq<nat>, d: nat, n: nat, window: nat) returns (e: nat)
    requires d <= n < |times|
    ensures d <= e <= n && Fresh(times[d..n], times[n], window) == times[e..n]
    ensures forall i :: d <= i < e ==> !InReach(times, i, n, window)
    ensures e < n ==> InReach(times, e, n, window)
    decreases n - d
  {
    e := d;
    if d < n && !InReach(times, d, n, window) {
      assert times[d..n][1..] == times[d + 1..n];
      e := FreshFrom(times, d + 1, n, window);
    }
  }

  lemma {:induction false} QueueGrows(times: seq<nat>, d: nat, e: nat, n: nat, window: nat)
    requires d <= e <= n < |times| && QueueOf(times[..n], window) == times[d..n]
    requires Fresh(times[d..n], times[n], window) == times[e..n]
    ensures QueueOf(times[..n + 1], window) == times[e..n + 1]
  {
    assert times[..n + 1][..n] == times[..n];
    assert times[e..n] + [times[n]] == times[e..n + 1];
  }

  lemma {:induction false} QueueStep(times: seq<nat>, n: nat, window: nat)
    requires n < |times| && 0 <= Dropped(times, n, window) <= n
    requires QueueOf(times[..n], window) == times[Dropped(times, n, window)..n]
    ensures Dropped(times, n, window) <= Dropped(times, n + 1, window) <= n
    ensures QueueOf(times[..n + 1], window) == times[Dropped(times, n + 1, window)..n + 1]
    ensures forall i :: Dropped(times, n, window) <= i < Dropped(times, n + 1, window) ==> !InReach(times, i, n, window)
    ensures InReach(times, Dropped(times, n + 1, window), n, window)
  {
    var d: nat := Dropped(times, n, window);
    var e := FreshFrom(times, d, n, window);
    QueueGrows(times, d, e, n, window);
    assert Dropped(times, n + 1, window) == e;
  }

  lemma {:induction false} QueueIsTail(times: seq<nat>, n: nat, window: nat)
    requires n <= |times|
    ensures 0 <= Dropped(times, n, window) <= n
    ensures QueueOf(times[..n], window) == times[Dropped(times, n, window)..n]
    decreases n
  {
    if n > 0 {
      QueueIsTail(times, n - 1, window);
      QueueStep(times, n - 1, window);
    }
  }

  lemma {:induction false} DroppedGrows(times: seq<nat>, m: nat, n: nat, window: nat)
    requires m <= n <= |times|
    ensures Dropped(times, m, window) <= Dropped(times, n, window)
    decreases n
  {
    if m < n {
      DroppedGrows(times, m, n - 1, window);
      QueueIsTail(times, n - 1, window);
      QueueStep(times, n - 1, window);
    }
  }

  // ---------------------------------------------------------------- when it is the window

  // At failure `k` the dropped ones are exactly those out of its reach.
  ghost predicate Matches(times: seq<nat>, k: nat, window: nat)
    requires k < |times|
  {
    var d := Dropped(times, k + 1, window);
    forall i :: 0 <= i <= k ==> (d <= i <==> InReach(times, i, k, window))
  }

  lemma {:induction false} SettledMatches(times: seq<nat>, k: nat, window: nat)
    requires k < |times| && Settled(times, window)
    ensures Matches(times, k, window)
    decreases k
  {
    QueueIsTail(times, k, window);
    QueueStep(times, k, window);
    if k > 0 {
      SettledMatches(times, k - 1, window);
      var d := Dropped(times, k, window);
      var before := k - 1;
      forall i | 0 <= i < d ensures !InReach(times, i, k, window) {
        assert !InReach(times, i, before, window);
      }
    }
  }

  lemma {:induction false} MatchesSettled(times: seq<nat>, window: nat)
    requires forall k :: 0 <= k < |times| ==> Matches(times, k, window)
    ensures Settled(times, window)
  {
    forall i, j, k | 0 <= i <= j <= k < |times| && InReach(times, i, k, window) ensures InReach(times, j, k, window) {
      assert Matches(times, k, window);
    }
    forall i, k, l | 0 <= i <= k <= l < |times| && !InReach(times, i, k, window) ensures !InReach(times, i, l, window) {
      assert Matches(times, k, window) && Matches(times, l, window);
      DroppedGrows(times, k + 1, l + 1, window);
    }
  }

  lemma {:induction false} WindowCounts(times: seq<nat>, now: nat, window: nat)
    ensures |InWindow(times, now, window)| == Near(times, now, window)
    decreases |times|
  {
    if times != [] {
      WindowCounts(times[..|times| - 1], now, window);
    }
  }

  // What is in reach of `now` begins at `d`.
  ghost predicate BeginsAt(times: seq<nat>, d: nat, now: nat, window: nat) {
    forall i :: 0 <= i < |times| ==> (d <= i <==> SaturatingSub(now, times[i]) <= window)
  }

  lemma {:induction false} BeginsBefore(times: seq<nat>, d: nat, now: nat, window: nat)
    requires times != [] && BeginsAt(times, d, now, window)
    ensures var n := |times| - 1; BeginsAt(times[..n], if d <= n then d else n, now, window)
    ensures d <= |times| - 1 <==> SaturatingSub(now, times[|times| - 1]) <= window
  {
    var n := |times| - 1;
    var front := times[..n];
    forall i | 0 <= i < n ensures (if d <= n then d else n) <= i <==> SaturatingSub(now, front[i]) <= window {
      assert front[i] == times[i];
    }
  }

  lemma {:induction false} TailIsWindow(times: seq<nat>, d: nat, now: nat, window: nat)
    requires d <= |times| && BeginsAt(times, d, now, window)
    ensures InWindow(times, now, window) == times[d..]
    decreases |times|
  {
    if times != [] {
      var n := |times| - 1;
      BeginsBefore(times, d, now, window);
      if d <= n {
        TailIsWindow(times[..n], d, now, window);
        assert times[d..] == times[..n][d..] + [times[n]];
      } else {
        TailIsWindow(times[..n], n, now, window);
        assert times[..n][n..] == [];
      }
    }
  }

  // What begins so for all but the last begins so for all.
  lemma {:induction false} BeginsOn(times: seq<nat>, d: nat, now: nat, window: nat)
    requires times != [] && BeginsAt(times[..|times| - 1], d, now, window)
    requires d <= |times| - 1 <==> SaturatingSub(now, times[|times| - 1]) <= window
    ensures BeginsAt(times, d, now, window)
  {
    var n := |times| - 1;
    forall i | 0 <= i < |times| ensures d <= i <==> SaturatingSub(now, times[i]) <= window {
      if i < n {
        assert times[..n][i] == times[i];
      }
    }
  }

  lemma {:induction false} WindowElement(times: seq<nat>, now: nat, window: nat, i: nat)
    requires i < |InWindow(times, now, window)|
    ensures SaturatingSub(now, InWindow(times, now, window)[i]) <= window
    decreases |times|
  {
    var n := |times| - 1;
    if i < |InWindow(times[..n], now, window)| {
      WindowElement(times[..n], now, window, i);
    }
  }

  lemma {:induction false} WindowIsTail(times: seq<nat>, d: nat, now: nat, window: nat)
    requires d <= |times| && InWindow(times, now, window) == times[d..]
    ensures BeginsAt(times, d, now, window)
    decreases |times|
  {
    if times != [] {
      var n := |times| - 1;
      if d <= n {
        WindowElement(times, now, window, n - d);
        assert times[d..] == times[..n][d..] + [times[n]];
        WindowIsTail(times[..n], d, now, window);
      } else {
        assert times[..n][n..] == [];
        WindowIsTail(times[..n], n, now, window);
        assert BeginsAt(times[..n], d, now, window);
      }
      BeginsOn(times, d, now, window);
    }
  }

  lemma {:induction false} MatchIsWindow(times: seq<nat>, k: nat, window: nat)
    requires k < |times|
    ensures Matches(times, k, window) <==> QueueOf(times[..k + 1], window) == InWindow(times[..k + 1], times[k], window)
  {
    QueueIsTail(times, k + 1, window);
    var part, d: nat := times[..k + 1], Dropped(times, k + 1, window);
    assert part[d..] == times[d..k + 1] == QueueOf(part, window);
    forall i | 0 <= i <= k ensures SaturatingSub(times[k], part[i]) <= window <==> InReach(times, i, k, window) {
    }
    if BeginsAt(part, d, times[k], window) {
      TailIsWindow(part, d, times[k], window);
    }
    if QueueOf(part, window) == InWindow(part, times[k], window) {
      WindowIsTail(part, d, times[k], window);
    }
  }

  /** The queue holds exactly the failures of the window, at every failure, exactly when the times are settled. */
  lemma {:induction false} QueueIsWindow(times: seq<nat>, window: nat)
    ensures Settled(times, window) <==>
            forall k :: 0 <= k < |times| ==>
                          QueueOf(times[..k + 1], window) == InWindow(times[..k + 1], times[k], window)
  {
    forall k | 0 <= k < |times|
      ensures Matches(times, k, window) <==>
                QueueOf(times[..k + 1], window) == InWindow(times[..k + 1], times[k], window)
      ensures Settled(times, window) ==> Matches(times, k, window)
    {
      MatchIsWindow(times, k, window);
      if Settled(times, window) {
        SettledMatches(times, k, window);
      }
    }
    if forall k :: 0 <= k < |times| ==> Matches(times, k, window) {
      MatchesSettled(times, window);
    }
  }

  // ---------------------------------------------------------------- what follows

  lemma {:induction false} OrderedMeaning(times: seq<nat>)
    requires Ordered(times)
    ensures forall i, j :: 0 <= i <= j < |times| ==> times[i] <= times[j]
    decreases |times|
  {
    var n := |times| - 1;
    if n > 0 {
      OrderedMeaning(times[..n]);
      forall i, j | 0 <= i <= j < |times| ensures times[i] <= times[j] {
        assert times[..n][n - 1] == times[n - 1];
        if i < n {
          assert times[..n][i] == times[i];
        }
        if j < n {
          assert times[..n][j] == times[j];
        }
      }
    }
  }

  /** Times in order are settled. */
  lemma {:induction false} OrderedIsSettled(times: seq<nat>, window: nat)
    requires Ordered(times)
    ensures Settled(times, window)
  {
    OrderedMeaning(times);
  }

  lemma {:induction false} SettledPrefix(times: seq<nat>, n: nat, window: nat)
    requires Settled(times, window) && n <= |times|
    ensures Settled(times[..n], window)
  {
    var part := times[..n];
    forall i, k | 0 <= i < n && 0 <= k < n ensures InReach(part, i, k, window) == InReach(times, i, k, window) {
    }
  }

  // For settled times the queue's length is the count, and it is long enough exactly for a burst.
  lemma {:induction false} SettledQueue(times: seq<nat>, c: Config)
    requires times != [] && Settled(times, c.window)
    ensures |QueueOf(times, c.window)| == Near(times, times[|times| - 1], c.window)
    ensures c.threshold > 0 ==> (|QueueOf(times, c.window)| >= c.threshold <==> Bursts(times, c))
  {
    var k := |times| - 1;
    assert times[..k + 1] == times;
    QueueIsTail(times, k + 1, c.window);
    SettledMatches(times, k, c.window);
    MatchIsWindow(times, k, c.window);
    WindowCounts(times, times[k], c.window);
    if 0 < c.threshold <= |times| {
      assert InReach(times, |times| - c.threshold, k, c.window) <==>
             Dropped(times, k + 1, c.window) <= |times| - c.threshold;
    }
  }

  /** For settled times a circuit has opened exactly when some `threshold` consecutive failures fitted in one window. */
  lemma {:induction false} OpenedIsTripped(times: seq<nat>, c: Config)
    requires Settled(times, c.window)
    ensures Opened(times, c) <==> Tripped(times, c)
    decreases |times|
  {
    if times != [] {
      var n := |times| - 1;
      SettledPrefix(times, n, c.window);
      OpenedIsTripped(times[..n], c);
      SettledQueue(times, c);
    }
  }

  // The `threshold` failures up to `k` fitted in one window.
  predicate BurstsAt(times: seq<nat>, k: nat, c: Config) {
    0 < c.threshold <= k + 1 && k < |times| && InReach(times, k + 1 - c.threshold, k, c.window)
  }

  lemma {:induction false} TrippedMeaning(times: seq<nat>, c: Config)
    ensures Tripped(times, c) <==> exists k :: 0 <= k < |times| && BurstsAt(times, k, c)
    decreases |times|
  {
    if times != [] {
      var n := |times| - 1;
      TrippedMeaning(times[..n], c);
      forall k | 0 <= k < n ensures BurstsAt(times[..n], k, c) == BurstsAt(times, k, c) {
      }
      assert Bursts(times, c) == BurstsAt(times, n, c);
    }
  }

  /** A closed circuit opens at a failure exactly when that makes `threshold` failures within the window. */
  lemma {:induction false} OpensExactly(times: seq<nat>, now: nat, c: Config)
    requires Settled(times + [now], c.window) && c.threshold > 0 && !Opened(times, c)
    ensures Opened(times + [now], c) <==> Near(times + [now], now, c.window) >= c.threshold
  {
    assert (times + [now])[..|times|] == times;
    SettledQueue(times + [now], c);
  }

  /** With times in order a closed circuit's queue is in order. */
  lemma {:induction false} ClosedQueueOrdered(c: Config, p: Past, circuit: Circuit)
    requires Fits(c, p, Some(circuit)) && circuit.Closed? && Ordered(p.failures)
    ensures Ordered(circuit.failures)
  {
    var times := p.failures;
    assert times[..|times|] == times;
    QueueIsTail(times, |times|, c.window);
    TailOrdered(times, Dropped(times, |times|, c.window));
  }

  lemma {:induction false} TailOrdered(times: seq<nat>, d: nat)
    requires Ordered(times) && d <= |times|
    ensures Ordered(times[d..])
    decreases |times|
  {
    if |times| >= d + 2 {
      var n := |times| - 1;
      TailOrdered(times[..n], d);
      assert times[d..][..n - d] == times[..n][d..];
    }
  }

  lemma {:induction false} Recorded(times: seq<nat>, now: nat, window: nat)
    ensures QueueOf(times + [now], window) == Fresh(QueueOf(times, window), now, window) + [now]
    ensures Near(times + [now], now, window) == Near(times, now, window) + 1
  {
    assert (times + [now])[..|times|] == times;
  }

  // A failure recorded late: three failures open the circuit though only two lie within the window.
  lemma {:induction false} OpenedOutOfOrder()
    ensures exists c, times, now ::
              && !Opened(times, c) && Opened(times + [now], c)
              && Near(times + [now], now, c.window) < c.threshold && !Settled(times + [now], c.window)
  {
    var c, times := Config(6, 3, 30), [5, 3];
    Recorded([], 5, 6);
    Recorded([5], 3, 6);
    Recorded(times, 10, 6);
    assert [] + [5] == [5] && [5] + [3] == times;
    assert QueueOf([5], 6) == [5] && QueueOf(times, 6) == [5, 3] && QueueOf(times + [10], 6) == [5, 3, 10];
    assert times[..1] == [5] && [5][..0] == [] && (times + [10])[..2] == times;
    assert Near(times, 10, 6) == 1;
    assert InReach(times + [10], 0, 2, 6) && !InReach(times + [10], 1, 2, 6);
    assert !Opened(times, c) && Opened(times + [10], c);
  }
}

/**
 The terminal bill as a fact about a stream's whole history.

 A usage frame is eligible when every choice known at that point was finished and no choice has stirred
 since: appeared, resumed or produced output. The terminal bill is the cost of the last eligible frame
 that reported one. No machine state is mentioned.
 */
module ChatHistory {
  import opened Common

  // One choice of one chunk, as far as the bill depends on it.
  datatype Sighting = Sighting(index: nat, finished: bool, output: bool)

  // One chunk: its choices in order, whether it carried a usage observation, and the cost that reported.
  datatype Frame = Frame(sightings: seq<Sighting>, observed: bool, cost: Option<real>)

  function All(h: seq<Frame>): seq<Sighting> {
    if h == [] then [] else All(h[..|h| - 1]) + h[|h| - 1].sightings
  }

  function Known(s: seq<Sighting>): set<nat> {
    if s == [] then {} else Known(s[..|s| - 1]) + {s[|s| - 1].index}
  }

  // Choices whose latest sighting was finished.
  function Finished(s: seq<Sighting>): set<nat> {
    if s == [] then {}
    else
      var before, o := Finished(s[..|s| - 1]), s[|s| - 1];
      if o.finished then before + {o.index} else before - {o.index}
  }

  predicate AllFinished(s: seq<Sighting>) {
    Known(s) != {} && Finished(s) == Known(s)
  }

  predicate Stirs(o: Sighting, known: set<nat>) {
    o.index !in known || !o.finished || o.output
  }

  predicate AnyStirs(s: seq<Sighting>, known: set<nat>) {
    s != [] && (AnyStirs(s[..|s| - 1], known) || Stirs(s[|s| - 1], known))
  }

  predicate Active(h: seq<Frame>, i: nat)
    requires i < |h|
  {
    AnyStirs(h[i].sightings, Known(All(h[..i])))
  }

  predicate Eligible(h: seq<Frame>, i: nat)
    requires i < |h|
    decreases |h|
  {
    var n := |h| - 1;
    if i == n then AllFinished(All(h)) else !Active(h, n) && Eligible(h[..n], i)
  }

  predicate IsTerminalCost(h: seq<Frame>, cost: Option<real>) {
    if cost.None? then forall i :: 0 <= i < |h| && Eligible(h, i) ==> h[i].cost.None?
    else exists i :: 0 <= i < |h| && IsLastCost(h, i) && h[i].cost == cost
  }

  predicate IsLastCost(h: seq<Frame>, i: nat)
    requires i < |h|
  {
    Eligible(h, i) && forall j :: i < j < |h| && Eligible(h, j) ==> h[j].cost.None?
  }

  // A frame that observed usage is still eligible.
  predicate HasCandidate(h: seq<Frame>) {
    exists i :: 0 <= i < |h| && Eligible(h, i) && h[i].observed
  }

  // ---------------------------------------------------------------- one sighting at a time

  predicate IsLatest(s: seq<Sighting>, i: nat)
    requires i < |s|
  {
    forall j :: i < j < |s| ==> s[j].index != s[i].index
  }

  /** Known: sighted at all. Finished: the latest sighting says so. */
  lemma {:induction false} KnownAndFinishedMeaning(s: seq<Sighting>, x: nat)
    ensures x in Known(s) <==> exists i :: 0 <= i < |s| && s[i].index == x
    ensures x in Finished(s) <==> exists i :: 0 <= i < |s| && IsLatest(s, i) && s[i].index == x && s[i].finished
    decreases |s|
  {
    if s != [] {
      var n := |s| - 1;
      var t := s[..n];
      KnownAndFinishedMeaning(t, x);
      assert forall i :: 0 <= i < n ==> s[i] == t[i];
      if s[n].index == x {
        assert IsLatest(s, n);
      } else {
        assert forall i :: 0 <= i < n && s[i].index == x ==> (IsLatest(s, i) <==> IsLatest(t, i));
      }
    }
  }

  // An index first seen in this frame has stirred it.
  lemma {:induction false} NewIndexStirs(s: seq<Sighting>, a: seq<Sighting>, x: nat)
    ensures x in Known(s) ==> x in Known(s + a)
    ensures x in Known(s + a) && x !in Known(s) ==> AnyStirs(a, Known(s))
    decreases |a|
  {
    if a == [] {
      assert s + a == s;
    } else {
      var n := |a| - 1;
      assert (s + a)[..|s + a| - 1] == s + a[..n];
      NewIndexStirs(s, a[..n], x);
    }
  }

  // The three facts a loop over one frame's sightings needs.
  lemma {:induction false} SightingStep(s: seq<Sighting>, t: seq<Sighting>, k: nat)
    requires k < |t|
    ensures Known(s + t[..k + 1]) == Known(s + t[..k]) + {t[k].index}
    ensures Finished(s + t[..k + 1])
         == if t[k].finished then Finished(s + t[..k]) + {t[k].index} else Finished(s + t[..k]) - {t[k].index}
    ensures AnyStirs(t[..k + 1], Known(s)) <==> AnyStirs(t[..k], Known(s)) || Stirs(t[k], Known(s + t[..k]))
  {
    var seen := s + t[..k + 1];
    assert seen[..|seen| - 1] == s + t[..k] && seen[|seen| - 1] == t[k];
    assert t[..k + 1][..k] == t[..k];
    NewIndexStirs(s, t[..k], t[k].index);
  }

  // A frame that does not stir leaves finished choices finished.
  lemma {:induction false} QuietKeepsFinished(s: seq<Sighting>, t: seq<Sighting>)
    requires AllFinished(s) && !AnyStirs(t, Known(s))
    ensures AllFinished(s + t) && Known(s + t) == Known(s)
    decreases |t|
  {
    if t == [] {
      assert s + t == s;
    } else {
      var n := |t| - 1;
      assert (s + t)[..|s + t| - 1] == s + t[..n];
      QuietKeepsFinished(s, t[..n]);
    }
  }

  // ---------------------------------------------------------------- one frame at a time

  lemma {:induction false} SameActivity(h: seq<Frame>, n: nat, j: nat)
    requires j < n <= |h|
    ensures Active(h[..n], j) == Active(h, j)
  {
    assert h[..n][..j] == h[..j];
  }

  /** Eligible: everything known was finished then, and no later frame is active. */
  lemma {:induction false} EligibleMeaning(h: seq<Frame>, i: nat)
    requires i < |h|
    ensures Eligible(h, i) <==> AllFinished(All(h[..i + 1])) && forall j :: i < j < |h| ==> !Active(h, j)
    decreases |h|
  {
    var n := |h| - 1;
    if i == n {
      assert h[..i + 1] == h;
    } else {
      EligibleMeaning(h[..n], i);
      assert h[..n][..i + 1] == h[..i + 1];
      forall j | i < j < n ensures Active(h[..n], j) == Active(h, j) {
        SameActivity(h, n, j);
      }
    }
  }

  lemma {:induction false} FrameStep(h: seq<Frame>, f: Frame, i: nat)
    requires i < |h|
    ensures Eligible(h + [f], i) <==> Eligible(h, i) && !AnyStirs(f.sightings, Known(All(h)))
  {
    var g := h + [f];
    assert g[..|h|] == h;
  }

  lemma {:induction false} LastFrame(h: seq<Frame>, f: Frame)
    ensures var g := h + [f];
            && All(g) == All(h) + f.sightings
            && (Active(g, |h|) <==> AnyStirs(f.sightings, Known(All(h))))
            && (Eligible(g, |h|) <==> AllFinished(All(g)))
  {
    var g := h + [f];
    assert g[..|h|] == h;
  }

  /** An eligible frame means every known choice is finished now. */
  lemma {:induction false} EligibleMeansFinished(h: seq<Frame>, i: nat)
    requires i < |h| && Eligible(h, i)
    ensures AllFinished(All(h))
    decreases |h|
  {
    var n := |h| - 1;
    if i < n {
      var g := h[..n];
      assert h == g + [h[n]];
      FrameStep(g, h[n], i);
      LastFrame(g, h[n]);
      EligibleMeansFinished(g, i);
      QuietKeepsFinished(All(g), h[n].sightings);
    }
  }

  lemma {:induction false} EligibleStep(h: seq<Frame>, f: Frame)
    ensures var g := h + [f];
            && (forall i :: 0 <= i < |h| ==>
                  (Eligible(g, i) <==> Eligible(h, i) && !AnyStirs(f.sightings, Known(All(h)))))
            && (Eligible(g, |h|) <==> AllFinished(All(g)))
  {
    var g := h + [f];
    LastFrame(h, f);
    forall i | 0 <= i < |h| ensures Eligible(g, i) <==> Eligible(h, i) && !AnyStirs(f.sightings, Known(All(h))) {
      FrameStep(h, f, i);
    }
  }

  // What a frame makes of the bill.
  function NextCost(cost: Option<real>, active: bool, done: bool, incoming: Option<real>): Option<real> {
    if done && (incoming.Some? || active) then incoming else if active then None else cost
  }

  // The bill and the candidate, frame by frame.
  function TerminalCost(h: seq<Frame>): Option<real> {
    if h == [] then None
    else
      var g, f := h[..|h| - 1], h[|h| - 1];
      NextCost(TerminalCost(g), AnyStirs(f.sightings, Known(All(g))), AllFinished(All(h)), f.cost)
  }

  predicate Candidate(h: seq<Frame>) {
    && h != []
    && var g, f := h[..|h| - 1], h[|h| - 1];
       (Candidate(g) && !AnyStirs(f.sightings, Known(All(g)))) || (AllFinished(All(h)) && f.observed)
  }

  lemma {:induction false} CostKept(h: seq<Frame>, f: Frame, cost: Option<real>)
    requires IsTerminalCost(h, cost) && cost.Some? && !AnyStirs(f.sightings, Known(All(h)))
    requires !AllFinished(All(h + [f])) || f.cost.None?
    ensures IsTerminalCost(h + [f], cost)
  {
    var g := h + [f];
    var i :| 0 <= i < |h| && IsLastCost(h, i) && h[i].cost == cost;
    EligibleStep(h, f);
    assert IsLastCost(g, i) && g[i].cost == cost;
  }

  lemma {:induction false} CostLost(h: seq<Frame>, f: Frame)
    requires AnyStirs(f.sightings, Known(All(h)))
    requires !AllFinished(All(h + [f])) || f.cost.None?
    ensures IsTerminalCost(h + [f], None)
  {
    EligibleStep(h, f);
  }

  lemma {:induction false} CostAbsent(h: seq<Frame>, f: Frame)
    requires IsTerminalCost(h, None)
    requires !AllFinished(All(h + [f])) || f.cost.None?
    ensures IsTerminalCost(h + [f], None)
  {
    EligibleStep(h, f);
  }

  lemma {:induction false} CostReplaced(h: seq<Frame>, f: Frame)
    requires AllFinished(All(h + [f])) && f.cost.Some?
    ensures IsTerminalCost(h + [f], f.cost)
  {
    var g := h + [f];
    LastFrame(h, f);
    assert IsLastCost(g, |h|) && g[|h|].cost == f.cost;
  }

  /** The bill changes frame by frame as `NextCost` says. */
  lemma {:induction false} TerminalCostStep(h: seq<Frame>, f: Frame, cost: Option<real>)
    requires IsTerminalCost(h, cost)
    ensures IsTerminalCost(h + [f],
              NextCost(cost, AnyStirs(f.sightings, Known(All(h))), AllFinished(All(h + [f])), f.cost))
  {
    if AllFinished(All(h + [f])) && f.cost.Some? {
      CostReplaced(h, f);
    } else if AnyStirs(f.sightings, Known(All(h))) {
      CostLost(h, f);
    } else if cost.Some? {
      CostKept(h, f, cost);
    } else {
      CostAbsent(h, f);
    }
  }

  lemma {:induction false} CandidateStep(h: seq<Frame>, f: Frame)
    ensures var g := h + [f];
            HasCandidate(g) <==>
              (HasCandidate(h) && !AnyStirs(f.sightings, Known(All(h)))) || (AllFinished(All(g)) && f.observed)
  {
    var g := h + [f];
    var n := |h|;
    EligibleStep(h, f);
    if HasCandidate(h) && !AnyStirs(f.sightings, Known(All(h))) {
      var i :| 0 <= i < n && Eligible(h, i) && h[i].observed;
      assert Eligible(g, i) && g[i].observed;
    }
    if AllFinished(All(g)) && f.observed {
      assert Eligible(g, n) && g[n].observed;
    }
  }

  /**
   Stepping through the frames finds the history's terminal bill, and a candidate exactly when some usage frame is
   still eligible.
   */
  lemma {:induction false} TerminalBill(h: seq<Frame>)
    ensures IsTerminalCost(h, TerminalCost(h))
    ensures Candidate(h) <==> HasCandidate(h)
    decreases |h|
  {
    if h != [] {
      var g, f := h[..|h| - 1], h[|h| - 1];
      assert h == g + [f];
      TerminalBill(g);
      TerminalCostStep(g, f, TerminalCost(g));
      CandidateStep(g, f);
    }
  }

  /** A bill or a candidate is held only while every known choice is finished. */
  lemma {:induction false} HeldMeansFinished(h: seq<Frame>)
    ensures TerminalCost(h).Some? || Candidate(h) ==> AllFinished(All(h))
  {
    TerminalBill(h);
    if TerminalCost(h).Some? {
      var i :| 0 <= i < |h| && IsLastCost(h, i) && h[i].cost == TerminalCost(h);
      EligibleMeansFinished(h, i);
    }
    if Candidate(h) {
      var i :| 0 <= i < |h| && Eligible(h, i) && h[i].observed;
      EligibleMeansFinished(h, i);
    }
  }

  // A quiet frame cannot leave choices unfinished while a bill or a candidate is held.
  lemma {:induction false} QuietFrameKeepsFinished(h: seq<Frame>, f: Frame)
    requires !AnyStirs(f.sightings, Known(All(h)))
    ensures TerminalCost(h).Some? || Candidate(h) ==> AllFinished(All(h + [f]))
  {
    HeldMeansFinished(h);
    if AllFinished(All(h)) {
      LastFrame(h, f);
      QuietKeepsFinished(All(h), f.sightings);
    }
  }

  lemma {:induction false} BillStep(h: seq<Frame>, f: Frame)
    ensures var g := h + [f];
            var stirs, done := AnyStirs(f.sightings, Known(All(h))), AllFinished(All(h) + f.sightings);
            && TerminalCost(g) == NextCost(TerminalCost(h), stirs, done, f.cost)
            && (Candidate(g) <==> (Candidate(h) && !stirs) || (done && f.observed))
            && (!stirs && !done ==> TerminalCost(h).None? && !Candidate(h))
            && All(g) == All(h) + f.sightings
  {
    assert (h + [f])[..|h|] == h;
    LastFrame(h, f);
    if !AnyStirs(f.sightings, Known(All(h))) {
      QuietFrameKeepsFinished(h, f);
    }
  }

  /** A history has one terminal bill. */
  lemma {:induction false} TerminalCostUnique(h: seq<Frame>, one: Option<real>, other: Option<real>)
    requires IsTerminalCost(h, one) && IsTerminalCost(h, other)
    ensures one == other
  {
    if one.Some? && other.Some? {
      var i :| 0 <= i < |h| && IsLastCost(h, i) && h[i].cost == one;
      var j :| 0 <= j < |h| && IsLastCost(h, j) && h[j].cost == other;
      assert i == j;
    }
  }
}

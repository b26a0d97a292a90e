/**
 One admitted attempt: its tracker, its cancellation guards, and every way their steps can interleave. A step is one
 critical section of the shared state or one return of a policy callback, so a guard may be dropped between the
 success of a callback and the flag that records it.
 */
module Attempt {
  import opened Common

  datatype Accounting = UsageObserved | NoUsageReported | Unknown

  // What the tracker's holder is in the middle of. `usage` and `finish` borrow the tracker, so there is one call at a
  // time, and the tracker can be dropped only between calls.
  datatype Holder =
    | Idle
    | UsageCall        // the usage callback is running
    | UsageAccepted    // it succeeded; the flag is still to be written
    | FinishCall       // the flag was clear and the finish callback is running
    | FinishAccepted   // it succeeded; the flag is still to be written
    | Gone

  // What happened, in the order of the steps. `Claimed` is the locked section of a drop that found the attempt open;
  // `Abandoned` is the notification it sends after the lock is released.
  datatype Event =
    | UsageSucceeded
    | UsageRecorded
    | FinishSent
    | FinishSucceeded
    | Committed
    | Claimed(accounting: Accounting)
    | Abandoned(accounting: Accounting)
    | Reported(accounting: Accounting, completed: bool)

  datatype State = State(
    usageObserved: bool,
    finished: bool,
    holder: Holder,
    guards: nat,
    notice: Option<Accounting>)

  const ADMITTED := State(false, false, Idle, 0, None)

  datatype Action =
    | BeginUsage
    | UsageReturns(ok: bool)
    | RecordUsage
    | BeginFinish
    | FinishReturns(ok: bool)
    | Commit
    | Cancel
    | Report(completed: bool)
    | MakeGuard
    | DropGuard
    | DropTracker
    | Notify

  predicate Enabled(s: State, a: Action) {
    match a
    case BeginUsage => s.holder == Idle
    case UsageReturns(_) => s.holder == UsageCall
    case RecordUsage => s.holder == UsageAccepted
    case BeginFinish => s.holder == Idle
    case FinishReturns(_) => s.holder == FinishCall
    case Commit => s.holder == FinishAccepted
    case Cancel => s.holder == UsageCall || s.holder == FinishCall
    case Report(_) => s.holder == Idle
    case MakeGuard => s.holder == Idle
    case DropGuard => s.guards > 0
    case DropTracker => s.holder == Idle
    case Notify => s.notice.Some?
  }

  // What a drop would report now.
  function Accounted(s: State): Accounting {
    if s.usageObserved then UsageObserved else Unknown
  }

  // The locked section of both drop implementations.
  function Claim(s: State): State {
    if s.finished then s else s.(finished := true, notice := Some(Accounted(s)))
  }

  function Step(s: State, a: Action): State
    requires Enabled(s, a)
  {
    match a
    case BeginUsage => s.(holder := UsageCall)
    case UsageReturns(ok) => s.(holder := if ok then UsageAccepted else Idle)
    case RecordUsage => s.(usageObserved := true, holder := Idle)
    case BeginFinish => if s.finished then s else s.(holder := FinishCall)
    case FinishReturns(ok) => s.(holder := if ok then FinishAccepted else Idle)
    case Commit => s.(finished := true, holder := Idle)
    case Cancel => s.(holder := Idle)
    case Report(_) => s
    case MakeGuard => s.(guards := s.guards + 1)
    case DropGuard => Claim(s).(guards := s.guards - 1)
    case DropTracker => Claim(s).(holder := Gone)
    case Notify => s.(notice := None)
  }

  // What a step adds to the trace.
  function Shows(s: State, a: Action): Option<Event>
    requires Enabled(s, a)
  {
    match a
    case UsageReturns(ok) => if ok then Some(UsageSucceeded) else None
    case RecordUsage => Some(UsageRecorded)
    case BeginFinish => if s.finished then None else Some(FinishSent)
    case FinishReturns(ok) => if ok then Some(FinishSucceeded) else None
    case Commit => Some(Committed)
    case Report(completed) =>
      Some(Reported(if s.usageObserved then UsageObserved else if completed then NoUsageReported else Unknown,
                    completed))
    case DropGuard => if s.finished then None else Some(Claimed(Accounted(s)))
    case DropTracker => if s.finished then None else Some(Claimed(Accounted(s)))
    case Notify => Some(Abandoned(s.notice.value))
    case _ => None
  }

  // Every run of an admitted attempt, the state it leads to and what it showed.
  predicate Possible(run: seq<Action>)
    decreases |run|, 0
  {
    run != [] ==> Possible(run[..|run| - 1]) && Enabled(After(run[..|run| - 1]), run[|run| - 1])
  }

  function After(run: seq<Action>): State
    requires Possible(run)
    decreases |run|, 1
  {
    if run == [] then ADMITTED else Step(After(run[..|run| - 1]), run[|run| - 1])
  }

  function Trace(run: seq<Action>): seq<Event>
    requires Possible(run)
  {
    if run == [] then []
    else
      var before := run[..|run| - 1];
      var shown := Shows(After(before), run[|run| - 1]);
      Trace(before) + if shown.Some? then [shown.value] else []
  }

  // ---------------------------------------------------------------- properties of a trace

  ghost predicate Settles(e: Event) {
    e.Committed? || e.Claimed?
  }

  /** One settlement by drop at most, one notification for it, and none decided once a finish has committed. */
  ghost predicate AbandonedOnce(tr: seq<Event>) {
    && (forall i, j :: 0 <= i < j < |tr| && Settles(tr[i]) ==> !tr[j].Claimed?)
    && (forall i, j :: 0 <= i < j < |tr| && tr[i].Abandoned? ==> !tr[j].Abandoned?)
    && (forall j :: 0 <= j < |tr| && tr[j].Abandoned? ==> exists i :: 0 <= i < j && tr[i] == Claimed(tr[j].accounting))
  }

  /** The policy accepts one finish at most, and is sent none once the attempt is settled. */
  ghost predicate FinishedOnce(tr: seq<Event>) {
    && (forall i, j :: 0 <= i < j < |tr| && Settles(tr[i]) ==> !tr[j].FinishSent?)
    && (forall i, j :: 0 <= i < j < |tr| && tr[i].FinishSucceeded? ==> !tr[j].FinishSucceeded?)
    && (forall i, j :: 0 <= i < j < |tr| && tr[i].Committed? ==> !tr[j].Committed?)
    && (forall j :: 0 <= j < |tr| && tr[j].Committed? ==> exists i :: 0 <= i < j && tr[i].FinishSucceeded?)
  }

  /** What is reported or claimed is what the flag said: a success already recorded. */
  ghost predicate AccountedAsRecorded(tr: seq<Event>) {
    && (forall i :: 0 <= i < |tr| && tr[i].Claimed? ==>
          tr[i].accounting == if UsageRecorded in tr[..i] then UsageObserved else Unknown)
    && (forall i :: 0 <= i < |tr| && tr[i].Reported? ==>
          tr[i].accounting == if UsageSucceeded in tr[..i] then UsageObserved
                              else if tr[i].completed then NoUsageReported else Unknown)
  }

  // ---------------------------------------------------------------- every step keeps them

  // What a trace has seen so far.
  datatype Past = Past(
    used: bool, recorded: bool, accepted: bool, committed: bool, claim: Option<Accounting>, told: bool)
  {
    predicate Settled() {
      committed || claim.Some?
    }
  }

  function Extend(p: Past, e: Event): Past {
    match e
    case UsageSucceeded => p.(used := true)
    case UsageRecorded => p.(recorded := true)
    case FinishSucceeded => p.(accepted := true)
    case Committed => p.(committed := true)
    case Claimed(accounting) => p.(claim := Some(accounting))
    case Abandoned(_) => p.(told := true)
    case FinishSent => p
    case Reported(_, _) => p
  }

  function PastOf(tr: seq<Event>): Past {
    if tr == [] then Past(false, false, false, false, None, false) else Extend(PastOf(tr[..|tr| - 1]), tr[|tr| - 1])
  }

  predicate Proper(p: Past, e: Event) {
    match e
    case FinishSent => !p.Settled()
    case FinishSucceeded => !p.accepted
    case Committed => p.accepted && !p.committed
    case Claimed(accounting) => !p.Settled() && accounting == (if p.recorded then UsageObserved else Unknown)
    case Abandoned(accounting) => p.claim == Some(accounting) && !p.told
    case Reported(accounting, completed) =>
      accounting == if p.used then UsageObserved else if completed then NoUsageReported else Unknown
    case _ => true
  }

  predicate AllProper(tr: seq<Event>) {
    tr != [] ==> AllProper(tr[..|tr| - 1]) && Proper(PastOf(tr[..|tr| - 1]), tr[|tr| - 1])
  }

  // How the flags, the holder and the pending notification follow from what the trace has seen.
  predicate Tied(s: State, p: Past) {
    && s.finished == p.Settled() && s.usageObserved == p.recorded
    && (p.used <==> p.recorded || s.holder == UsageAccepted)
    && (p.accepted <==> p.committed || s.holder == FinishAccepted)
    && (s.holder == FinishCall || s.holder == FinishAccepted ==> !p.committed)
    && (s.holder == Gone ==> s.finished) && (p.told ==> p.claim.Some?)
    && s.notice == if p.told then None else p.claim
  }

  lemma {:induction false} StepKeeps(s: State, a: Action, p: Past)
    requires Tied(s, p) && Enabled(s, a)
    ensures Shows(s, a).None? ==> Tied(Step(s, a), p)
    ensures Shows(s, a).Some? ==> Proper(p, Shows(s, a).value) && Tied(Step(s, a), Extend(p, Shows(s, a).value))
  {
  }

  lemma {:induction false} RunKeeps(run: seq<Action>)
    requires Possible(run)
    ensures Tied(After(run), PastOf(Trace(run))) && AllProper(Trace(run))
    decreases |run|
  {
    if run != [] {
      var before, a := run[..|run| - 1], run[|run| - 1];
      RunKeeps(before);
      StepKeeps(After(before), a, PastOf(Trace(before)));
      if Shows(After(before), a).Some? {
        assert Trace(run)[..|Trace(run)| - 1] == Trace(before);
      } else {
        assert Trace(run) == Trace(before);
      }
    }
  }

  ghost predicate SomeAbandoned(tr: seq<Event>) {
    exists i :: 0 <= i < |tr| && tr[i].Abandoned?
  }

  ghost predicate SomeClaimed(tr: seq<Event>) {
    exists i :: 0 <= i < |tr| && tr[i].Claimed?
  }

  lemma {:induction false} PastMeaning(tr: seq<Event>)
    ensures PastOf(tr).used <==> UsageSucceeded in tr
    ensures PastOf(tr).recorded <==> UsageRecorded in tr
    ensures PastOf(tr).accepted <==> FinishSucceeded in tr
    ensures PastOf(tr).committed <==> Committed in tr
    decreases |tr|
  {
    if tr != [] {
      var n := |tr| - 1;
      PastMeaning(tr[..n]);
      assert forall e :: e in tr <==> e in tr[..n] || e == tr[n];
    }
  }

  lemma {:induction false} PastClaims(tr: seq<Event>)
    ensures PastOf(tr).told <==> SomeAbandoned(tr)
    ensures PastOf(tr).claim.Some? <==> SomeClaimed(tr)
    ensures PastOf(tr).claim.Some? ==> Claimed(PastOf(tr).claim.value) in tr
    decreases |tr|
  {
    if tr != [] {
      var n := |tr| - 1;
      PastClaims(tr[..n]);
      assert forall i :: 0 <= i < n ==> tr[..n][i] == tr[i];
    }
  }

  lemma {:induction false} ProperAt(tr: seq<Event>, i: nat)
    requires AllProper(tr) && i < |tr|
    ensures Proper(PastOf(tr[..i]), tr[i])
    decreases |tr|
  {
    var n := |tr| - 1;
    if i < n {
      assert tr[..n][..i] == tr[..i];
      ProperAt(tr[..n], i);
    }
  }

  lemma {:induction false} ProperMeansAbandonedOnce(tr: seq<Event>)
    requires AllProper(tr)
    ensures AbandonedOnce(tr)
  {
    forall i, j | 0 <= i < j < |tr| && Settles(tr[i]) ensures !tr[j].Claimed? {
      ProperAt(tr, j);
      PastMeaning(tr[..j]);
      PastClaims(tr[..j]);
      assert tr[..j][i] == tr[i];
    }
    forall i, j | 0 <= i < j < |tr| && tr[i].Abandoned? ensures !tr[j].Abandoned? {
      ProperAt(tr, j);
      PastClaims(tr[..j]);
      assert tr[..j][i] == tr[i];
    }
    forall j | 0 <= j < |tr| && tr[j].Abandoned? ensures exists i :: 0 <= i < j && tr[i] == Claimed(tr[j].accounting) {
      ProperAt(tr, j);
      PastClaims(tr[..j]);
    }
  }

  lemma {:induction false} ProperMeansFinishedOnce(tr: seq<Event>)
    requires AllProper(tr)
    ensures FinishedOnce(tr)
  {
    forall i, j | 0 <= i < j < |tr|
      ensures (Settles(tr[i]) ==> !tr[j].FinishSent?) && (tr[i].FinishSucceeded? ==> !tr[j].FinishSucceeded?)
              && (tr[i].Committed? ==> !tr[j].Committed?)
    {
      ProperAt(tr, j);
      PastMeaning(tr[..j]);
      PastClaims(tr[..j]);
      assert tr[..j][i] == tr[i];
    }
    forall j | 0 <= j < |tr| && tr[j].Committed? ensures exists i :: 0 <= i < j && tr[i].FinishSucceeded? {
      ProperAt(tr, j);
      PastMeaning(tr[..j]);
    }
  }

  lemma {:induction false} ProperMeansAccounted(tr: seq<Event>)
    requires AllProper(tr)
    ensures AccountedAsRecorded(tr)
  {
    forall i | 0 <= i < |tr| ensures Proper(PastOf(tr[..i]), tr[i]) {
      ProperAt(tr, i);
    }
    forall i | 0 <= i < |tr|
      ensures (PastOf(tr[..i]).used <==> UsageSucceeded in tr[..i])
              && (PastOf(tr[..i]).recorded <==> UsageRecorded in tr[..i])
    {
      PastMeaning(tr[..i]);
    }
  }

  /** Every interleaving of callbacks, cancellations and drops keeps the three. */
  lemma {:induction false} EveryRunIsSound(run: seq<Action>)
    requires Possible(run)
    ensures AbandonedOnce(Trace(run)) && FinishedOnce(Trace(run)) && AccountedAsRecorded(Trace(run))
  {
    RunKeeps(run);
    ProperMeansAbandonedOnce(Trace(run));
    ProperMeansFinishedOnce(Trace(run));
    ProperMeansAccounted(Trace(run));
  }

  // ---------------------------------------------------------------- the trace and the run

  // The trace tells what the holder and the policy did.
  ghost predicate Tells(tr: seq<Event>, run: seq<Action>) {
    && (UsageSucceeded in tr <==> UsageReturns(true) in run) && (UsageRecorded in tr <==> RecordUsage in run)
    && (FinishSucceeded in tr <==> FinishReturns(true) in run) && (Committed in tr <==> Commit in run)
    && (SomeAbandoned(tr) <==> Notify in run)
    && (DropGuard in run || DropTracker in run ==> Committed in tr || SomeClaimed(tr))
    && (SomeClaimed(tr) ==> DropGuard in run || DropTracker in run)
  }

  predicate Recalls(p: Past, run: seq<Action>) {
    && (p.used <==> UsageReturns(true) in run) && (p.recorded <==> RecordUsage in run)
    && (p.accepted <==> FinishReturns(true) in run) && (p.committed <==> Commit in run)
    && (p.told <==> Notify in run)
    && (DropGuard in run || DropTracker in run ==> p.Settled())
    && (p.claim.Some? ==> DropGuard in run || DropTracker in run)
  }

  lemma {:induction false} RecallsStep(p: Past, run: seq<Action>, s: State, a: Action)
    requires Recalls(p, run) && Enabled(s, a) && Tied(s, p)
    ensures Recalls(if Shows(s, a).Some? then Extend(p, Shows(s, a).value) else p, run + [a])
  {
    assert forall b :: b in run + [a] <==> b in run || b == a;
  }

  lemma {:induction false} RunRecalls(run: seq<Action>)
    requires Possible(run)
    ensures Recalls(PastOf(Trace(run)), run)
    decreases |run|
  {
    if run != [] {
      var before, a := run[..|run| - 1], run[|run| - 1];
      RunRecalls(before);
      RunKeeps(before);
      RecallsStep(PastOf(Trace(before)), before, After(before), a);
      assert before + [a] == run;
      if Shows(After(before), a).Some? {
        assert Trace(run)[..|Trace(run)| - 1] == Trace(before);
      } else {
        assert Trace(run) == Trace(before);
      }
    }
  }

  /**
   Every success, commit and notification of a run is in its trace and no other is, and any drop leaves the attempt
   committed or claimed.
   */
  lemma {:induction false} TraceTellsTheRun(run: seq<Action>)
    requires Possible(run)
    ensures Tells(Trace(run), run)
  {
    RunRecalls(run);
    PastMeaning(Trace(run));
    PastClaims(Trace(run));
  }

  // ---------------------------------------------------------------- what they come to

  /**
   Once the tracker is gone and no notification is outstanding, a finish has committed or the policy was told of the
   drop.
   */
  lemma {:induction false} GoneMeansSettled(run: seq<Action>)
    requires Possible(run) && After(run).holder == Gone && After(run).notice.None?
    ensures Committed in Trace(run) || SomeAbandoned(Trace(run))
  {
    RunKeeps(run);
    PastMeaning(Trace(run));
    PastClaims(Trace(run));
  }

  predicate FinishInFlight(s: State) {
    s.holder == FinishCall || s.holder == FinishAccepted
  }

  // A run, one action longer.
  lemma {:induction false} Longer(run: seq<Action>, a: Action)
    requires Possible(run) && Enabled(After(run), a)
    ensures Possible(run + [a]) && After(run + [a]) == Step(After(run), a)
    ensures Trace(run + [a]) == Trace(run) + if Shows(After(run), a).Some? then [Shows(After(run), a).value] else []
  {
    assert (run + [a])[..|run|] == run;
  }

  lemma {:induction false} SettledStaysIdle(s: State, a: Action)
    requires Enabled(s, a) && s.finished && !FinishInFlight(s)
    ensures Step(s, a).finished && !FinishInFlight(Step(s, a)) && Shows(s, a) != Some(Committed)
  {
  }

  // The attempt is settled by a drop, and nothing of a finish is under way.
  ghost predicate Dropped(run: seq<Action>) {
    Possible(run) && After(run).finished && !FinishInFlight(After(run)) && Committed !in Trace(run)
  }

  lemma {:induction false} DroppedStays(run: seq<Action>, a: Action)
    requires Dropped(run) && Enabled(After(run), a)
    ensures Dropped(run + [a])
  {
    Longer(run, a);
    SettledStaysIdle(After(run), a);
  }

  lemma {:induction false} CutLast(run: seq<Action>)
    requires Possible(run) && run != []
    ensures var before := run[..|run| - 1];
            Possible(before) && Enabled(After(before), run[|run| - 1]) && before + [run[|run| - 1]] == run
  {
  }

  lemma {:induction false} NoCommitAfterClaim(run: seq<Action>, more: seq<Action>)
    requires Dropped(run) && Possible(run + more)
    ensures Dropped(run + more)
    decreases |more|
  {
    if more == [] {
      assert run + more == run;
    } else {
      var n := |more| - 1;
      CutLast(run + more);
      assert (run + more)[..|run + more| - 1] == run + more[..n];
      NoCommitAfterClaim(run, more[..n]);
      DroppedStays(run + more[..n], more[n]);
    }
  }

  // The notification of a drop reaches the policy after a finish has committed.
  ghost predicate Crosses(tr: seq<Event>) {
    exists i, j :: 0 <= i < j < |tr| && tr[i].Committed? && tr[j].Abandoned?
  }

  lemma {:induction false} CommitThenNotify(run: seq<Action>)
    requires Possible(run) && After(run).holder == FinishAccepted && After(run).notice.Some?
    ensures Possible(run + [Commit, Notify]) && Crosses(Trace(run + [Commit, Notify]))
  {
    Longer(run, Commit);
    Longer(run + [Commit], Notify);
    assert run + [Commit] + [Notify] == run + [Commit, Notify];
    var tr, n := Trace(run + [Commit, Notify]), |Trace(run)|;
    assert tr[n].Committed? && tr[n + 1].Abandoned?;
  }

  // A finish call under way when a guard is dropped can still succeed and commit before the notification is sent.
  lemma {:induction false} CommitFollows(run: seq<Action>) returns (more: seq<Action>)
    requires Possible(run) && FinishInFlight(After(run)) && After(run).notice.Some?
    ensures Possible(run + more) && Crosses(Trace(run + more))
  {
    if After(run).holder == FinishAccepted {
      CommitThenNotify(run);
      more := [Commit, Notify];
    } else {
      Longer(run, FinishReturns(true));
      CommitThenNotify(run + [FinishReturns(true)]);
      more := [FinishReturns(true), Commit, Notify];
      assert run + [FinishReturns(true)] + [Commit, Notify] == run + more;
    }
  }

  /**
   A dropped guard's notification can come after a committed finish exactly when the finish call was under way at the
   drop; otherwise no finish commits any more.
   */
  lemma {:induction false} CommitAfterDrop(run: seq<Action>)
    requires Possible(run) && !After(run).finished && After(run).guards > 0
    ensures FinishInFlight(After(run)) <==>
            exists more :: Possible(run + [DropGuard] + more) && Crosses(Trace(run + [DropGuard] + more))
    ensures FinishInFlight(After(run)) <==>
            exists more :: Possible(run + [DropGuard] + more) && Committed in Trace(run + [DropGuard] + more)
  {
    RunKeeps(run);
    Longer(run, DropGuard);
    var dropped := run + [DropGuard];
    if FinishInFlight(After(run)) {
      var more := CommitFollows(dropped);
      assert Committed in Trace(dropped + more);
    } else {
      PastMeaning(Trace(run));
      forall more | Possible(dropped + more) ensures Committed !in Trace(dropped + more) {
        NoCommitAfterClaim(dropped, more);
      }
    }
  }

  /**
   What a drop reports about usage is right exactly when no usage callback has succeeded without being recorded: the one
   window is a first success whose flag is still to be written.
   */
  lemma {:induction false} ClaimAccuracy(run: seq<Action>)
    requires Possible(run) && !After(run).finished
    ensures (Claim(After(run)).notice == Some(UsageObserved) <==> UsageSucceeded in Trace(run))
            <==> !(After(run).holder == UsageAccepted && !After(run).usageObserved)
  {
    RunKeeps(run);
    PastMeaning(Trace(run));
  }

  lemma {:induction false} Take(run: seq<Action>, a: Action) returns (next: seq<Action>)
    requires Possible(run) && Enabled(After(run), a)
    ensures Possible(next) && After(next) == Step(After(run), a)
    ensures Trace(next) == Trace(run) + if Shows(After(run), a).Some? then [Shows(After(run), a).value] else []
  {
    Longer(run, a);
    next := run + [a];
  }

  // A usage report accepted by the policy, and a drop in the window after it: the attempt is claimed as unknown.
  lemma {:induction false} LostUsage()
    ensures exists run :: Possible(run) && Trace(run) == [UsageSucceeded, Claimed(Unknown)]
  {
    var run := Take([], MakeGuard);
    run := Take(run, BeginUsage);
    run := Take(run, UsageReturns(true));
    run := Take(run, DropGuard);
    assert Trace(run) == [UsageSucceeded, Claimed(Unknown)];
  }

  // An ordinary life: usage and a finish are accepted, and dropping the tracker adds nothing.
  lemma {:induction false} FinishedLife()
    ensures exists run ::
              && Possible(run) && After(run).holder == Gone
              && Trace(run) == [Reported(NoUsageReported, true), Reported(Unknown, false), UsageSucceeded,
                                UsageRecorded, Reported(UsageObserved, false), FinishSent, FinishSucceeded, Committed]
  {
    var run := UsedLife();
    run := Take(run, BeginFinish);
    run := Take(run, FinishReturns(true));
    run := Take(run, Commit);
    run := Take(run, DropTracker);
    assert Trace(run) == [Reported(NoUsageReported, true), Reported(Unknown, false), UsageSucceeded, UsageRecorded,
                          Reported(UsageObserved, false), FinishSent, FinishSucceeded, Committed];
  }

  lemma {:induction false} UsedLife() returns (run: seq<Action>)
    ensures Possible(run) && After(run) == State(true, false, Idle, 0, None)
    ensures Trace(run) == [Reported(NoUsageReported, true), Reported(Unknown, false), UsageSucceeded, UsageRecorded,
                           Reported(UsageObserved, false)]
  {
    run := Take([], Report(true));
    run := Take(run, Report(false));
    run := Take(run, BeginUsage);
    run := Take(run, UsageReturns(true));
    run := Take(run, RecordUsage);
    run := Take(run, Report(false));
  }

  // A finish the policy rejects leaves the attempt open, and dropping the tracker abandons it.
  lemma {:induction false} AbandonedLife()
    ensures exists run ::
              && Possible(run) && After(run).holder == Gone
              && Trace(run) == [FinishSent, Claimed(Unknown), Abandoned(Unknown)]
  {
    var run := Take([], BeginFinish);
    run := Take(run, FinishReturns(false));
    run := Take(run, DropTracker);
    run := Take(run, Notify);
    assert Trace(run) == [FinishSent, Claimed(Unknown), Abandoned(Unknown)];
  }

  lemma {:induction false} Crossed() returns (run: seq<Action>)
    ensures Possible(run) && After(run) == State(false, true, FinishCall, 0, Some(Unknown))
    ensures Trace(run) == [FinishSent, Claimed(Unknown)]
  {
    run := Take([], MakeGuard);
    run := Take(run, BeginFinish);
    run := Take(run, DropGuard);
  }

  // A finish and a drop that cross: the notification reaches the policy after the finish it accepted has committed.
  lemma {:induction false} LateNotice()
    ensures exists run ::
              && Possible(run)
              && Trace(run) == [FinishSent, Claimed(Unknown), FinishSucceeded, Committed, Abandoned(Unknown)]
  {
    var run := Crossed();
    run := Take(run, FinishReturns(true));
    run := Take(run, Commit);
    run := Take(run, Notify);
    assert Trace(run) == [FinishSent, Claimed(Unknown), FinishSucceeded, Committed, Abandoned(Unknown)];
  }
}

/**
 The cached connection: double-checked creation under a lock, and retirement by a guard that compares addresses. Every
 interleaving of any number of callers, failures and cancellations, one lock section or return at a time. An address is
 used again once nothing refers to it, so equal addresses alone do not make equal generations.
 */
module Generations {
  import opened Common

  datatype Generation = Generation(address: nat, serial: nat)

  // Where a caller is. `before` is what had been retired when its call began.
  datatype Caller =
    | Idle
    | Missed(before: set<nat>)                              // nothing cached; waiting to create
    | Creating(before: set<nat>)                            // has the creation lock
    | Connecting(before: set<nat>)                          // looked again, still nothing
    | Built(before: set<nat>, generation: Generation)
    | Published(before: set<nat>, generation: Generation)
    | Running(before: set<nat>, generation: Generation)     // the retirement guard is armed

  datatype State = State(
    current: Option<Generation>,
    creation: Option<nat>,
    callers: map<nat, Caller>,
    created: nat,
    retired: set<nat>)

  const EMPTY := State(None, None, map[], 0, {})

  function At(s: State, c: nat): Caller {
    if c in s.callers then s.callers[c] else Idle
  }

  predicate Creates(x: Caller) {
    x.Creating? || x.Connecting? || x.Built? || x.Published?
  }

  predicate Refers(x: Caller) {
    x.Built? || x.Published? || x.Running?
  }

  datatype Action =
    | Look
    | Lock
    | LookAgain
    | Connected(address: nat)
    | Failed                    // the connection could not be made, or the caller went away before one was
    | Publish
    | Return
    | Succeeded                 // the operation's guard is disarmed
    | Retire                    // the operation failed or was cancelled

  // No one refers to anything at this address.
  ghost predicate Unused(s: State, address: nat) {
    && (s.current.Some? ==> s.current.value.address != address)
    && forall c :: c in s.callers && Refers(s.callers[c]) ==> s.callers[c].generation.address != address
  }

  ghost predicate Enabled(s: State, c: nat, a: Action) {
    var x := At(s, c);
    match a
    case Look => x.Idle?
    case Lock => x.Missed? && s.creation.None?
    case LookAgain => x.Creating?
    case Connected(address) => x.Connecting? && Unused(s, address)
    case Failed => x.Missed? || x.Creating? || x.Connecting?
    case Publish => x.Built?
    case Return => x.Published?
    case Succeeded => x.Running?
    case Retire => x.Running?
  }

  function Put(s: State, c: nat, x: Caller): State {
    s.(callers := s.callers[c := x])
  }

  ghost function Step(s: State, c: nat, a: Action): State
    requires Enabled(s, c, a)
  {
    var x := At(s, c);
    match a
    case Look => Put(s, c, if s.current.Some? then Running(s.retired, s.current.value) else Missed(s.retired))
    case Lock => Put(s, c, Creating(x.before)).(creation := Some(c))
    case LookAgain =>
      if s.current.Some? then Put(s, c, Running(x.before, s.current.value)).(creation := None)
      else Put(s, c, Connecting(x.before))
    case Connected(address) => Put(s, c, Built(x.before, Generation(address, s.created))).(created := s.created + 1)
    case Failed => Put(s, c, Idle).(creation := if x.Missed? then s.creation else None)
    case Publish => Put(s, c, Published(x.before, x.generation)).(current := Some(x.generation))
    case Return => Put(s, c, Running(x.before, x.generation)).(creation := None)
    case Succeeded => Put(s, c, Idle)
    case Retire =>
      var hit := s.current.Some? && s.current.value.address == x.generation.address;
      Put(s, c, Idle).(current := if hit then None else s.current,
                       retired := s.retired + if hit then {s.current.value.serial} else {})
  }

  // ---------------------------------------------------------------- what every step keeps

  ghost predicate LockHeld(s: State) {
    && (s.creation.Some? ==> s.creation.value in s.callers)
    && forall c :: c in s.callers ==> (Creates(s.callers[c]) <==> s.creation == Some(c))
  }

  // Among generations still referred to, an address means one generation.
  ghost predicate Told(s: State, g: Generation) {
    && g.serial < s.created
    && (s.current.Some? ==> (s.current.value.address == g.address <==> s.current.value == g))
    && forall c :: c in s.callers && Refers(s.callers[c]) ==>
                     (s.callers[c].generation.address == g.address <==> s.callers[c].generation == g)
  }

  ghost predicate Distinct(s: State) {
    && (s.current.Some? ==> Told(s, s.current.value))
    && forall c :: c in s.callers && Refers(s.callers[c]) ==> Told(s, s.callers[c].generation)
  }

  // A generation being made is not out yet, and leaves nothing to overwrite.
  ghost predicate Fresh(s: State) {
    && (forall c :: c in s.callers && (s.callers[c].Connecting? || s.callers[c].Built?) ==> s.current.None?)
    && (forall c :: c in s.callers && s.callers[c].Built? ==> s.callers[c].generation.serial !in s.retired)
    && (s.current.Some? ==> s.current.value.serial !in s.retired)
    && (forall n :: n in s.retired ==> n < s.created)
  }

  // No call returns, or is about to return, what had been retired when it began.
  ghost predicate Live(s: State) {
    && (forall c :: c in s.callers && !s.callers[c].Idle? ==> s.callers[c].before <= s.retired)
    && (forall c :: c in s.callers && Refers(s.callers[c]) ==> s.callers[c].generation.serial !in s.callers[c].before)
  }

  ghost predicate Valid(s: State) {
    LockHeld(s) && Distinct(s) && Fresh(s) && Live(s)
  }

  lemma {:induction false} LockStep(s: State, c: nat, a: Action)
    requires LockHeld(s) && Enabled(s, c, a)
    ensures LockHeld(Step(s, c, a))
  {
  }

  lemma {:induction false} DistinctStep(s: State, c: nat, a: Action)
    requires Distinct(s) && Enabled(s, c, a)
    ensures Distinct(Step(s, c, a))
  {
  }

  lemma {:induction false} FreshStep(s: State, c: nat, a: Action)
    requires LockHeld(s) && Distinct(s) && Fresh(s) && Enabled(s, c, a)
    ensures Fresh(Step(s, c, a))
  {
  }

  lemma {:induction false} LiveStep(s: State, c: nat, a: Action)
    requires Distinct(s) && Fresh(s) && Live(s) && Enabled(s, c, a)
    ensures Live(Step(s, c, a))
  {
  }

  // ---------------------------------------------------------------- every run

  ghost predicate Possible(run: seq<(nat, Action)>)
    decreases |run|, 0
  {
    run != [] ==>
      Possible(run[..|run| - 1]) && Enabled(After(run[..|run| - 1]), run[|run| - 1].0, run[|run| - 1].1)
  }

  ghost function After(run: seq<(nat, Action)>): State
    requires Possible(run)
    decreases |run|, 1
  {
    if run == [] then EMPTY else Step(After(run[..|run| - 1]), run[|run| - 1].0, run[|run| - 1].1)
  }

  lemma {:induction false} EveryRunIsValid(run: seq<(nat, Action)>)
    requires Possible(run)
    ensures Valid(After(run))
    decreases |run|
  {
    if run != [] {
      var s, c, a := After(run[..|run| - 1]), run[|run| - 1].0, run[|run| - 1].1;
      EveryRunIsValid(run[..|run| - 1]);
      LockStep(s, c, a);
      DistinctStep(s, c, a);
      FreshStep(s, c, a);
      LiveStep(s, c, a);
    }
  }

  /** Publishing never overwrites a live generation. */
  lemma {:induction false} PublishOverwritesNothing(run: seq<(nat, Action)>, c: nat)
    requires Possible(run) && Enabled(After(run), c, Publish)
    ensures After(run).current.None? && After(run).creation == Some(c)
  {
    EveryRunIsValid(run);
  }

  /** Retiring removes the caller's own generation and no other, though only addresses are compared. */
  lemma {:induction false} RetireHitsItsOwn(run: seq<(nat, Action)>, c: nat)
    requires Possible(run) && Enabled(After(run), c, Retire)
    ensures var s, g := After(run), At(After(run), c).generation;
            Step(s, c, Retire).current == if s.current == Some(g) then None else s.current
  {
    EveryRunIsValid(run);
  }

  // What a step does to the cached generation.
  ghost predicate Turns(s: State, c: nat, a: Action, t: State)
    requires Enabled(s, c, a)
  {
    match a
    case Publish => t.current == Some(At(s, c).generation)
    case Retire =>
      if s.current == Some(At(s, c).generation) then t.current == None && s.current.value.serial in t.retired
      else t.current == s.current && t.retired == s.retired
    case Look =>
      && t.current == s.current
      && (if s.current.Some? then At(t, c).Running? && At(t, c).generation == s.current.value else At(t, c).Missed?)
    case _ => t.current == s.current
  }

  /**
   Only publishing caches a generation and only its own failing caller retires it: nothing else, an operation that
   succeeds included, touches what is cached. A call that finds one shares it.
   */
  lemma {:induction false} CacheTurns(run: seq<(nat, Action)>, c: nat, a: Action)
    requires Possible(run) && Enabled(After(run), c, a)
    ensures Turns(After(run), c, a, Step(After(run), c, a))
  {
    EveryRunIsValid(run);
  }

  // The i-th move of a run retires g.
  ghost predicate Retires(run: seq<(nat, Action)>, i: nat, g: Generation) {
    && i < |run| && run[i].1 == Retire && Possible(run[..i])
    && At(After(run[..i]), run[i].0).Running? && At(After(run[..i]), run[i].0).generation == g
  }

  /** A generation stays cached until a caller that runs on it fails or is cancelled. */
  lemma {:induction false} StaysCached(run: seq<(nat, Action)>, n: nat, g: Generation)
    requires n <= |run| && Possible(run) && Possible(run[..n]) && After(run[..n]).current == Some(g)
    requires forall i :: n <= i < |run| ==> !Retires(run, i, g)
    ensures After(run).current == Some(g)
    decreases |run|
  {
    var m := |run| - 1;
    if n == |run| {
      assert run[..n] == run;
    } else {
      var before := run[..m];
      assert before[..n] == run[..n];
      forall i | n <= i < m ensures !Retires(before, i, g) {
        assert before[..i] == run[..i] && before[i] == run[i];
        assert !Retires(run, i, g);
      }
      StaysCached(before, n, g);
      assert !Retires(run, m, g);
      NoOtherTakesIt(before, run[m].0, run[m].1, g);
    }
  }

  lemma {:induction false} NoOtherTakesIt(run: seq<(nat, Action)>, c: nat, a: Action, g: Generation)
    requires Possible(run) && Enabled(After(run), c, a) && After(run).current == Some(g)
    requires a == Retire ==> At(After(run), c).generation != g
    ensures Step(After(run), c, a).current == Some(g)
  {
    CacheTurns(run, c, a);
    if a.Publish? {
      PublishOverwritesNothing(run, c);
    }
  }

  lemma {:induction false} Longer(run: seq<(nat, Action)>, c: nat, a: Action)
    requires Possible(run) && Enabled(After(run), c, a)
    ensures Possible(run + [(c, a)]) && After(run + [(c, a)]) == Step(After(run), c, a)
  {
    assert (run + [(c, a)])[..|run|] == run;
  }

  lemma {:induction false} CallBegan(s: State, retired: set<nat>, c: nat, d: nat, a: Action)
    requires Enabled(s, d, a) && retired <= s.retired && (At(s, c).Idle? || retired <= At(s, c).before)
    ensures var t := Step(s, d, a); retired <= t.retired && (At(t, c).Idle? || retired <= At(t, c).before)
  {
  }

  lemma {:induction false} CallsBeganLater(run: seq<(nat, Action)>, more: seq<(nat, Action)>, c: nat)
    requires Possible(run) && Possible(run + more) && At(After(run), c).Idle?
    ensures var s, t := After(run), After(run + more);
            s.retired <= t.retired && (At(t, c).Idle? || s.retired <= At(t, c).before)
    decreases |more|
  {
    if more == [] {
      assert run + more == run;
    } else {
      var n := |more| - 1;
      assert (run + more)[..|run + more| - 1] == run + more[..n];
      CallsBeganLater(run, more[..n], c);
      CallBegan(After(run + more[..n]), After(run).retired, c, more[n].0, more[n].1);
    }
  }

  /** What has been retired is never handed to a call that begins afterwards, nor ever current again. */
  lemma {:induction false} RetiredForGood(run: seq<(nat, Action)>, more: seq<(nat, Action)>, c: nat)
    requires Possible(run) && Possible(run + more) && At(After(run), c).Idle?
    ensures At(After(run + more), c).Running? ==> At(After(run + more), c).generation.serial !in After(run).retired
    ensures After(run + more).current.Some? ==> After(run + more).current.value.serial !in After(run).retired
  {
    EveryRunIsValid(run + more);
    CallsBeganLater(run, more, c);
  }

  lemma {:induction false} Take(run: seq<(nat, Action)>, c: nat, a: Action) returns (next: seq<(nat, Action)>)
    requires Possible(run) && Enabled(After(run), c, a)
    ensures Possible(next) && After(next) == Step(After(run), c, a)
  {
    Longer(run, c, a);
    next := run + [(c, a)];
  }

  // A lone caller reaches for a connection.
  lemma {:induction false} Reach(run: seq<(nat, Action)>, c: nat) returns (next: seq<(nat, Action)>)
    requires Possible(run) && After(run).current.None? && After(run).creation.None? && At(After(run), c).Idle?
    ensures Possible(next)
    ensures After(next) == Put(After(run), c, Connecting(After(run).retired)).(creation := Some(c))
  {
    var one := Take(run, c, Look);
    var two := Take(one, c, Lock);
    next := Take(two, c, LookAgain);
    var s, retired := After(run), After(run).retired;
    assert s.callers[c := Missed(retired)][c := Creating(retired)][c := Connecting(retired)]
        == s.callers[c := Connecting(retired)];
  }

  // And makes one at an address nothing refers to.
  lemma {:induction false} Make(run: seq<(nat, Action)>, c: nat, address: nat) returns (next: seq<(nat, Action)>)
    requires Possible(run) && At(After(run), c).Connecting? && Unused(After(run), address)
    ensures Possible(next) && At(After(next), c).Running?
            && At(After(next), c).generation == Generation(address, After(run).created)
    ensures After(next).current == Some(Generation(address, After(run).created)) && After(next).creation.None?
    ensures After(next).retired == After(run).retired && After(next).created == After(run).created + 1
    ensures After(next).callers.Keys == After(run).callers.Keys
  {
    var one := Take(run, c, Connected(address));
    var two := Take(one, c, Publish);
    next := Take(two, c, Return);
  }

  // The hazard is real: a later generation can stand at the address of one already retired.
  lemma {:induction false} AddressesRepeat(address: nat)
    ensures exists run :: Possible(run) && After(run).current == Some(Generation(address, 1)) && 0 in After(run).retired
  {
    var run := Reach([], 0);
    run := Make(run, 0, address);
    run := Take(run, 0, Retire);
    assert After(run).callers.Keys == {0} && At(After(run), 0).Idle? && After(run).retired == {0};
    run := Reach(run, 0);
    run := Make(run, 0, address);
    assert Possible(run) && After(run).current == Some(Generation(address, 1)) && 0 in After(run).retired;
  }
}

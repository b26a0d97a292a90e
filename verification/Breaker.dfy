/** The sliding-window circuit breaker: per target, a small state that stands for the whole history of outcomes. */
module Breaker {
  import opened Common

  datatype Config = Config(window: nat, threshold: nat, cooldown: nat)

  datatype Circuit =
    | Closed(failures: seq<nat>)
    | Open(openedAt: nat)
    | HalfOpen(openedAt: nat)

  const UNHEALTHY_STATUSES: set<nat> := {500, 502, 503, 504, 529}

  datatype Error = Provider(status: nat) | Http | Other

  predicate CountsTowardHealth(error: Error) {
    match error
    case Provider(status) => status in UNHEALTHY_STATUSES
    case Http => true
    case Other => false
  }

  // The provider itself or the way to it is at fault.
  predicate Unwell(error: Error) {
    match error
    case Provider(status) => status == 500 || 502 <= status <= 504 || status == 529
    case Http => true
    case Other => false
  }

  // ---------------------------------------------------------------- plain failure history

  datatype Event =
    | Succeeded(target: string)
    | FailedAt(target: string, counts: bool, now: nat)
    | Probed(target: string)

  // The eligible failures of a target since its last success, and whether a probe is out with no outcome since.
  datatype Past = Past(failures: seq<nat>, probing: bool)

  // The past of a target once an event of its own is added.
  function Moved(p: Past, e: Event): Past {
    match e
    case Succeeded(_) => Past([], false)
    case FailedAt(_, counts, now) => Past(if counts then p.failures + [now] else p.failures, false)
    case Probed(_) => p.(probing := true)
  }

  function PastOf(h: seq<Event>, target: string): Past {
    if h == [] then Past([], false)
    else
      var e, before := h[|h| - 1], PastOf(h[..|h| - 1], target);
      if e.target == target then Moved(before, e) else before
  }

  // The target's last success, if any, is just before `start`.
  predicate BeginsAt(h: seq<Event>, target: string, start: nat) {
    && start <= |h| && (start > 0 ==> h[start - 1] == Succeeded(target))
    && forall i :: start <= i < |h| ==> h[i] != Succeeded(target)
  }

  // The times of the target's eligible failures from there on, in order.
  function TimesFrom(h: seq<Event>, target: string, start: nat): seq<nat> {
    if |h| <= start then []
    else
      TimesFrom(h[..|h| - 1], target, start)
      + match h[|h| - 1]
        case FailedAt(other, counts, now) => if other == target && counts then [now] else []
        case _ => []
  }

  // The target's probe at i has had no outcome.
  predicate ProbeOut(h: seq<Event>, target: string, i: nat) {
    && i < |h| && h[i] == Probed(target)
    && forall j :: i < j < |h| ==> h[j].target != target || h[j] == Probed(target)
  }

  // The eligible failures since the last success.
  lemma {:induction false} FailuresMeaning(h: seq<Event>, target: string) returns (start: nat)
    ensures BeginsAt(h, target, start) && PastOf(h, target).failures == TimesFrom(h, target, start)
    decreases |h|
  {
    start := 0;
    if h != [] {
      start := FailuresMeaning(h[..|h| - 1], target);
      FailuresStep(h, target, start);
      if h[|h| - 1] == Succeeded(target) {
        start := |h|;
      }
    }
  }

  lemma {:induction false} FailuresStep(h: seq<Event>, target: string, start: nat)
    requires h != [] && BeginsAt(h[..|h| - 1], target, start)
    requires PastOf(h[..|h| - 1], target).failures == TimesFrom(h[..|h| - 1], target, start)
    ensures if h[|h| - 1] == Succeeded(target)
            then BeginsAt(h, target, |h|) && PastOf(h, target).failures == TimesFrom(h, target, |h|)
            else BeginsAt(h, target, start) && PastOf(h, target).failures == TimesFrom(h, target, start)
  {
    assert forall i :: 0 <= i < |h| - 1 ==> h[..|h| - 1][i] == h[i];
  }

  lemma {:induction false} ProbingMeaning(h: seq<Event>, target: string)
    ensures PastOf(h, target).probing <==> exists i: nat :: ProbeOut(h, target, i)
    decreases |h|
  {
    if h != [] {
      ProbingMeaning(h[..|h| - 1], target);
      ProbeOutStep(h, target);
    }
  }

  /** The past of a target: its eligible failures since its last success, and whether a probe is still out. */
  lemma {:induction false} PastMeaning(h: seq<Event>, target: string)
    ensures exists start: nat ::
              BeginsAt(h, target, start) && PastOf(h, target).failures == TimesFrom(h, target, start)
    ensures PastOf(h, target).probing <==> exists i: nat :: ProbeOut(h, target, i)
  {
    var start := FailuresMeaning(h, target);
    ProbingMeaning(h, target);
  }

  lemma {:induction false} ProbeOutStep(h: seq<Event>, target: string)
    requires h != []
    ensures var e, before := h[|h| - 1], h[..|h| - 1];
            (exists i: nat :: ProbeOut(h, target, i)) <==>
              e == Probed(target) || (e.target != target && exists i: nat :: ProbeOut(before, target, i))
  {
    var n := |h| - 1;
    var before := h[..n];
    assert forall i :: 0 <= i < n ==> before[i] == h[i];
    if h[n] == Probed(target) {
      assert ProbeOut(h, target, n);
    } else if i: nat :| ProbeOut(h, target, i) {
      assert ProbeOut(before, target, i);
    }
    if h[n].target != target && exists i: nat :: ProbeOut(before, target, i) {
      var i: nat :| ProbeOut(before, target, i);
      assert ProbeOut(h, target, i);
    }
  }

  // ---------------------------------------------------------------- the queue

  // Leading failures that have left the window are dropped.
  function Fresh(queue: seq<nat>, now: nat, window: nat): seq<nat> {
    if queue != [] && SaturatingSub(now, queue[0]) > window then Fresh(queue[1..], now, window) else queue
  }

  // The queue a closed circuit has after these failures, in whatever order their times are.
  function QueueOf(times: seq<nat>, window: nat): seq<nat> {
    if times == [] then []
    else Fresh(QueueOf(times[..|times| - 1], window), times[|times| - 1], window) + [times[|times| - 1]]
  }

  // The queue has been as long as the threshold.
  predicate Opened(times: seq<nat>, c: Config) {
    times != [] && (Opened(times[..|times| - 1], c) || (c.threshold > 0 && |QueueOf(times, c.window)| >= c.threshold))
  }

  /** One target's circuit against its history, for times in any order. */
  predicate Fits(c: Config, p: Past, circuit: Option<Circuit>) {
    if c.threshold == 0 then circuit.None? && !p.probing
    else
      && (circuit.None? <==> p.failures == [])
      && (p.probing <==> circuit.Some? && circuit.value.HalfOpen?)
      && (circuit.Some? ==>
            if circuit.value.Closed? then
              !Opened(p.failures, c) && circuit.value.failures == QueueOf(p.failures, c.window)
            else
              Opened(p.failures, c) && circuit.value.openedAt == p.failures[|p.failures| - 1])
  }

  /** A closed circuit's queue is shorter than the threshold. */
  lemma {:induction false} ClosedIsShort(c: Config, p: Past, circuit: Circuit)
    requires Fits(c, p, Some(circuit)) && circuit.Closed?
    ensures |circuit.failures| < c.threshold
  {
    assert p.failures != [];
  }

  // ---------------------------------------------------------------- one outcome

  function Pushed(c: Config, queue: seq<nat>, now: nat): Circuit {
    if |queue| + 1 >= c.threshold then Open(now) else Closed(queue + [now])
  }

  function AfterFailure(c: Config, circuit: Option<Circuit>, counts: bool, now: nat): Option<Circuit> {
    if c.threshold == 0 then circuit
    else if !counts then
      if circuit.Some? && circuit.value.HalfOpen? then Some(Open(circuit.value.openedAt)) else circuit
    else if circuit.None? then Some(Pushed(c, [], now))
    else if circuit.value.Closed? then Some(Pushed(c, Fresh(circuit.value.failures, now, c.window), now))
    else Some(Open(now))
  }

  lemma {:induction false} FailureFits(c: Config, p: Past, circuit: Option<Circuit>, now: nat)
    requires Fits(c, p, circuit)
    ensures Fits(c, Past(p.failures + [now], false), AfterFailure(c, circuit, true, now))
  {
    var grown := p.failures + [now];
    assert grown[..|p.failures|] == p.failures;
    assert QueueOf(grown, c.window) == Fresh(QueueOf(p.failures, c.window), now, c.window) + [now];
    assert Fresh([], now, c.window) == [];
  }

  lemma {:induction false} OutcomeFits(c: Config, p: Past, circuit: Option<Circuit>, counts: bool, now: nat)
    requires Fits(c, p, circuit)
    ensures Fits(c, Past(if counts then p.failures + [now] else p.failures, false),
                 AfterFailure(c, circuit, counts, now))
  {
    if counts {
      FailureFits(c, p, circuit, now);
    }
  }

  // ---------------------------------------------------------------- the registry

  function Lookup(targets: map<string, Circuit>, target: string): Option<Circuit> {
    if target in targets then Some(targets[target]) else None
  }

  // Probes go out only to a target whose last probe, if any, has an outcome.
  predicate Alternating(h: seq<Event>) {
    h != [] ==>
      && Alternating(h[..|h| - 1])
      && (h[|h| - 1].Probed? ==> !PastOf(h[..|h| - 1], h[|h| - 1].target).probing)
  }

  // What the fleet says when asked: whether the target is open there, and whether its probe is ours.
  datatype Fleet = Fleet(open: bool, probe: bool)

  // An open circuit's probe: none is out, and the latest failure is a cooldown old.
  predicate ProbeDue(c: Config, p: Past, now: nat) {
    && !p.probing && p.failures != []
    && (c.cooldown == 0 || p.failures[|p.failures| - 1] + c.cooldown <= now)
  }

  predicate FleetAgrees(fleet: Option<Fleet>) {
    match fleet
    case None => true
    case Some(view) => view.open ==> view.probe
  }

  // What a history allows, looked at once.
  predicate MayDispatch(c: Config, p: Past, now: nat, fleet: Option<Fleet>) {
    c.threshold == 0 || if Opened(p.failures, c) then ProbeDue(c, p, now) else FleetAgrees(fleet)
  }

  /**
   What an admission decides that looks at one history and, if the circuit is open there, asks a later one for its
   probe.
   */
  predicate Decides(c: Config, seen: Past, asked: Past, now: nat, fleet: Option<Fleet>) {
    || c.threshold == 0
    || if Opened(seen.failures, c) then Opened(asked.failures, c) && ProbeDue(c, asked, now) else FleetAgrees(fleet)
  }

  /**
   The decision is the later history's, except that a circuit which closed in between is refused though the fleet
   agrees. Nothing comes between the two while the circuit is closed at the first.
   */
  lemma {:induction false} DecidesAsAsked(c: Config, seen: Past, asked: Past, now: nat, fleet: Option<Fleet>)
    requires Opened(seen.failures, c) || asked == seen
    ensures (Decides(c, seen, asked, now, fleet) <==> MayDispatch(c, asked, now, fleet)) <==>
            !(Opened(seen.failures, c) && !Opened(asked.failures, c) && FleetAgrees(fleet))
  {
    DisabledNeverOpens(seen.failures, c);
  }

  ghost predicate AllFit(c: Config, h: seq<Event>, targets: map<string, Circuit>) {
    forall t: string {:trigger Lookup(targets, t)} :: Fits(c, PastOf(h, t), Lookup(targets, t))
  }

  /** An event moves its own target's past and circuit, and no other's. */
  lemma {:induction false} RegistryKeeps(
      c: Config, h: seq<Event>, targets: map<string, Circuit>, e: Event, after: map<string, Circuit>)
    requires AllFit(c, h, targets) && Alternating(h)
    requires e.Probed? ==> !PastOf(h, e.target).probing
    requires Fits(c, Moved(PastOf(h, e.target), e), Lookup(after, e.target))
    requires forall t: string :: t != e.target ==> Lookup(after, t) == Lookup(targets, t)
    ensures AllFit(c, h + [e], after) && Alternating(h + [e])
  {
    assert (h + [e])[..|h|] == h;
    forall t: string ensures Fits(c, PastOf(h + [e], t), Lookup(after, t)) {
      assert PastOf(h + [e], t) == if t == e.target then Moved(PastOf(h, t), e) else PastOf(h, t);
      assert Fits(c, PastOf(h, t), Lookup(targets, t));
    }
  }

  class ProviderBreaker {
    const config: Config
    var targets: map<string, Circuit>
    ghost var history: seq<Event>

    ghost predicate Valid()
      reads this
    {
      Alternating(history) && AllFit(config, history, targets)
    }

    constructor (config: Config)
      ensures Valid() && this.config == config && targets == map[] && history == []
    {
      this.config := config;
      targets, history := map[], [];
    }

    method ShouldSkip(target: string) returns (skip: bool)
      requires Valid()
      ensures skip <==> Opened(PastOf(history, target).failures, config)
    {
      assert Fits(config, PastOf(history, target), Lookup(targets, target));
      DisabledNeverOpens(PastOf(history, target).failures, config);
      skip := target in targets && !targets[target].Closed?;
    }

    /** The one probe of an open circuit, once its latest failure is a cooldown old. */
    method TryAdmitProbe(target: string, now: nat) returns (admitted: bool)
      requires Valid()
      modifies this
      ensures Valid()
      ensures history == if admitted then old(history) + [Probed(target)] else old(history)
      ensures var p := PastOf(old(history), target);
              admitted <==> Opened(p.failures, config) && ProbeDue(config, p, now)
    {
      assert Fits(config, PastOf(history, target), Lookup(targets, target));
      DisabledNeverOpens(PastOf(history, target).failures, config);
      if target !in targets || !targets[target].Open? {
        return false;
      }
      if SaturatingSub(now, targets[target].openedAt) < config.cooldown {
        return false;
      }
      targets := targets[target := HalfOpen(targets[target].openedAt)];
      history := history + [Probed(target)];
      RegistryKeeps(config, old(history), old(targets), Probed(target), targets);
      return true;
    }

    method RecordSuccess(target: string)
      requires Valid()
      modifies this
      ensures Valid() && history == old(history) + [Succeeded(target)]
    {
      targets := targets - {target};
      history := history + [Succeeded(target)];
      RegistryKeeps(config, old(history), old(targets), Succeeded(target), targets);
    }

    method RecordFailure(target: string, counts: bool, now: nat)
      requires Valid()
      modifies this
      ensures Valid() && history == old(history) + [FailedAt(target, counts, now)]
    {
      var next := Classify(Lookup(targets, target), counts, now);
      if next.Some? {
        targets := targets[target := next.value];
      }
      history := history + [FailedAt(target, counts, now)];
      OutcomeFits(config, PastOf(old(history), target), Lookup(old(targets), target), counts, now);
      RegistryKeeps(config, old(history), old(targets), FailedAt(target, counts, now), targets);
    }

    method Classify(circuit: Option<Circuit>, counts: bool, now: nat) returns (next: Option<Circuit>)
      ensures next == AfterFailure(config, circuit, counts, now)
    {
      if config.threshold == 0 {
        return circuit;
      }
      if !counts {
        return if circuit.Some? && circuit.value.HalfOpen? then Some(Open(circuit.value.openedAt)) else circuit;
      }
      if circuit.None? {
        assert [] + [now] == [now];
        return Some(if 1 >= config.threshold then Open(now) else Closed([now]));
      }
      match circuit.value {
        case Closed(failures) =>
          var queue := failures;
          while queue != [] && SaturatingSub(now, queue[0]) > config.window
            invariant Fresh(queue, now, config.window) == Fresh(failures, now, config.window)
            decreases |queue|
          {
            queue := queue[1..];
          }
          queue := queue + [now];
          return Some(if |queue| >= config.threshold then Open(now) else Closed(queue));
        case _ => return Some(Open(now));
      }
    }

    method PerformOne(op: Op)
      requires Valid()
      modifies this
      ensures Valid() && history == PerformedOne(config, old(history), op)
    {
      match op {
        case Succeed(target) => RecordSuccess(target);
        case Fail(target, counts, now) => RecordFailure(target, counts, now);
        case Probe(target, now) => var _ := TryAdmitProbe(target, now);
      }
    }

    // What other callers do meanwhile.
    method Perform(ops: seq<Op>)
      requires Valid()
      modifies this
      ensures Valid() && history == Performed(config, old(history), ops)
    {
      ghost var h := history;
      for i := 0 to |ops|
        invariant Valid() && history == Performed(config, h, ops[..i])
      {
        assert ops[..i + 1][..i] == ops[..i];
        PerformOne(ops[i]);
      }
      assert ops[..|ops|] == ops;
    }

    /**
     The look and the probe are two locked sections, and other callers may come between them. The decision is exact: by
     the first history if the circuit is closed there, and otherwise by the second.
     */
    method Admit(target: string, now: nat, fleet: Option<Fleet>, meanwhile: seq<Op>)
        returns (admitted: bool, ghost between: seq<Event>)
      requires Valid()
      modifies this
      ensures Valid()
      ensures old(history) + between
              == if Opened(PastOf(old(history), target).failures, config)
                 then Performed(config, old(history), meanwhile) else old(history)
      ensures admitted <==>
              Decides(config, PastOf(old(history), target), PastOf(old(history) + between, target), now, fleet)
      ensures history == old(history) + between
                         + if admitted && Opened(PastOf(old(history), target).failures, config)
                           then [Probed(target)] else []
    {
      between := [];
      DisabledNeverOpens(PastOf(history, target).failures, config);
      if config.threshold == 0 {
        return true, [];
      }
      var skip := ShouldSkip(target);
      if !skip {
        return fleet.None? || !fleet.value.open || fleet.value.probe, [];
      }
      Perform(meanwhile);
      PerformedGrows(config, old(history), meanwhile);
      between := history[|old(history)|..];
      assert history == old(history) + between;
      admitted := TryAdmitProbe(target, now);
    }

    /**
     One outcome is recorded here; the fleet, where there is one, hears that the target is healthy unless the error
     counts.
     */
    method Observe(target: string, outcome: Result<(), Error>, now: nat, shared: bool) returns (report: Option<bool>)
      requires Valid()
      modifies this
      ensures Valid()
      ensures match outcome
              case Ok(_) => history == old(history) + [Succeeded(target)]
              case Err(error) => history == old(history) + [FailedAt(target, Unwell(error), now)]
      ensures report == if shared then Some(outcome.Ok? || !Unwell(outcome.error)) else None
      ensures history == old(history) + [Outcome(target, outcome, now)]
    {
      if outcome.Ok? {
        RecordSuccess(target);
      } else {
        RecordFailure(target, CountsTowardHealth(outcome.error), now);
      }
      report := None;
      if shared {
        report := Some(outcome.Ok? || !CountsTowardHealth(outcome.error));
      }
    }
  }

  datatype Op = Succeed(target: string) | Fail(target: string, counts: bool, now: nat) | Probe(target: string, now: nat)

  // The history once an operation is done, a probe only if it is due.
  function PerformedOne(c: Config, h: seq<Event>, op: Op): seq<Event> {
    match op
    case Succeed(target) => h + [Succeeded(target)]
    case Fail(target, counts, now) => h + [FailedAt(target, counts, now)]
    case Probe(target, now) =>
      var p := PastOf(h, target);
      if Opened(p.failures, c) && ProbeDue(c, p, now) then h + [Probed(target)] else h
  }

  function Performed(c: Config, h: seq<Event>, ops: seq<Op>): seq<Event> {
    if ops == [] then h else PerformedOne(c, Performed(c, h, ops[..|ops| - 1]), ops[|ops| - 1])
  }

  lemma {:induction false} PerformedGrows(c: Config, h: seq<Event>, ops: seq<Op>)
    ensures h <= Performed(c, h, ops)
    decreases |ops|
  {
    if ops != [] {
      PerformedGrows(c, h, ops[..|ops| - 1]);
    }
  }

  /** Such a run: a success between the look and the probe closes the circuit, and the dispatch is refused. */
  method RefuseThoughClosed(b: ProviderBreaker, target: string, now: nat, fleet: Option<Fleet>) returns (admitted: bool)
    requires b.Valid() && Opened(PastOf(b.history, target).failures, b.config) && FleetAgrees(fleet)
    modifies b
    ensures b.Valid() && b.history == old(b.history) + [Succeeded(target)]
    ensures !admitted && MayDispatch(b.config, PastOf(b.history, target), now, fleet)
  {
    ghost var h, between := b.history, [];
    admitted, between := b.Admit(target, now, fleet, [Succeed(target)]);
    assert [Succeed(target)][..0] == [] && Performed(b.config, h, [Succeed(target)]) == h + [Succeeded(target)];
    assert (h + [Succeeded(target)])[..|h|] == h;
    DisabledNeverOpens(PastOf(h, target).failures, b.config);
  }

  function Outcome(target: string, outcome: Result<(), Error>, now: nat): Event {
    if outcome.Ok? then Succeeded(target) else FailedAt(target, CountsTowardHealth(outcome.error), now)
  }

  lemma {:induction false} DisabledNeverOpens(times: seq<nat>, c: Config)
    ensures c.threshold == 0 ==> !Opened(times, c)
    decreases |times|
  {
    if times != [] {
      DisabledNeverOpens(times[..|times| - 1], c);
    }
  }

  /** Between two admitted probes of one target an outcome of that target was recorded. */
  lemma {:induction false} ProbesAlternate(h: seq<Event>, i: nat, j: nat)
    requires Alternating(h) && i < j < |h| && h[i].Probed? && h[j] == h[i]
    ensures exists k :: i < k < j && h[k].target == h[i].target && !h[k].Probed?
    decreases |h|
  {
    var n := |h| - 1;
    if j < n {
      ProbesAlternate(h[..n], i, j);
      var k :| i < k < j && h[..n][k].target == h[..n][i].target && !h[..n][k].Probed?;
      assert h[k] == h[..n][k];
    } else {
      Outstanding(h[..n], i);
      var k :| i < k < n && h[..n][k].target == h[..n][i].target && !h[..n][k].Probed?;
      assert h[k] == h[..n][k];
    }
  }

  // A probe that is no longer out has had an outcome.
  lemma {:induction false} Outstanding(h: seq<Event>, i: nat)
    requires i < |h| && h[i].Probed? && !PastOf(h, h[i].target).probing
    ensures exists k :: i < k < |h| && h[k].target == h[i].target && !h[k].Probed?
    decreases |h|
  {
    var n := |h| - 1;
    if h[n].target != h[i].target || h[n].Probed? {
      assert i < n;
      Outstanding(h[..n], i);
      var k :| i < k < n && h[..n][k].target == h[..n][i].target && !h[..n][k].Probed?;
      assert h[k] == h[..n][k];
    }
  }

  function Only(h: seq<Event>, target: string): seq<Event> {
    if h == [] then []
    else Only(h[..|h| - 1], target) + if h[|h| - 1].target == target then [h[|h| - 1]] else []
  }

  /** Targets are independent: a target's circuit is decided by its own events. */
  lemma {:induction false} Independent(h: seq<Event>, target: string)
    ensures PastOf(h, target) == PastOf(Only(h, target), target)
    decreases |h|
  {
    if h != [] {
      var n := |h| - 1;
      Independent(h[..n], target);
      var rest := Only(h[..n], target);
      if h[n].target == target {
        assert Only(h, target)[..|rest|] == rest;
      } else {
        assert Only(h, target) == rest;
      }
    }
  }
}

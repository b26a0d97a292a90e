/** The fallback chain: which model is tried when, what stops it, and which error it ends with. */
module Fallback {
  import opened Common
  import Breaker
  import opened Counting

  // A chain entry, after its route is expanded and its provider looked up.
  datatype Entry = Unresolved | Resolved(provider: string)

  datatype Config = Config(entries: seq<Entry>, maxRetries: nat, backoff: nat, statuses: set<nat>)

  datatype Outcome =
    | Completed(value: nat)
    | Upstream(error: Breaker.Error)
    | Local
    | LocalTimeout(error: Breaker.Error)
    | LogicalTimeout
    | ProviderLimit
    | OtherRefusal
    | Observation

  datatype Answer = Value(value: nat) | Failed(outcome: Outcome) | LimitError(entry: nat) | AllFailed

  // The world at one attempt of one entry: when the breaker is asked and told, what the fleet and the provider say, and
  // what other callers do to the breaker before the attempt, within its admission, and before its outcome is told.
  datatype Moment = Moment(
    asked: nat, fleet: Option<Breaker.Fleet>, outcome: Outcome, told: nat,
    before: seq<Breaker.Op>, within: seq<Breaker.Op>, during: seq<Breaker.Op>)

  predicate IsRetryable(error: Breaker.Error, statuses: set<nat>) {
    match error
    case Provider(status) => status in statuses
    case Http => true
    case Other => false
  }

  // The outcomes that say something about the provider's health.
  function BreakerOutcome(outcome: Outcome): Option<Result<(), Breaker.Error>> {
    match outcome
    case Completed(_) => Some(Ok(()))
    case Upstream(error) => Some(Err(error))
    case _ => None
  }

  // The outcomes that end the whole chain.
  predicate Final(outcome: Outcome, statuses: set<nat>) {
    match outcome
    case Completed(_) => true
    case LocalTimeout(error) => !IsRetryable(error, statuses)
    case LogicalTimeout => true
    case OtherRefusal => true
    case Observation => true
    case _ => false
  }

  // ---------------------------------------------------------------- what an observer sees

  datatype Event =
    | Asked(
        entry: nat, provider: string, now: nat, fleet: Option<Breaker.Fleet>, between: seq<Breaker.Event>,
        granted: bool)
    | Dispatched(entry: nat, provider: string, outcome: Outcome)
    | Told(provider: string, health: Result<(), Breaker.Error>, now: nat)
    | Slept(duration: nat)
    | Others(events: seq<Breaker.Event>)

  datatype Past = Past(
    granted: Option<(nat, string)>,
    owed: Option<(string, Result<(), Breaker.Error>)>,
    tried: set<nat>,
    limited: set<string>,
    lastLimit: Option<nat>,
    ended: bool,
    outcomes: seq<(nat, Outcome)>,
    waits: seq<nat>)

  const START := Past(None, None, {}, {}, None, false, [], [])

  predicate Allowed(p: Past, e: Event) {
    match e
    case Asked(_, provider, _, _, _, _) => !p.ended && p.granted.None? && p.owed.None? && provider !in p.limited
    case Dispatched(entry, provider, _) =>
      !p.ended && p.granted == Some((entry, provider)) && provider !in p.limited
    case Told(provider, health, _) => p.owed == Some((provider, health))
    case Slept(_) => !p.ended && p.granted.None? && p.owed.None?
    case Others(_) => p.granted.None?
  }

  function Extend(p: Past, e: Event, statuses: set<nat>): Past {
    match e
    case Asked(entry, provider, _, _, _, granted) =>
      p.(granted := if granted then Some((entry, provider)) else None, tried := p.tried + {entry})
    case Dispatched(entry, provider, outcome) =>
      Past(None,
           if BreakerOutcome(outcome).Some? then Some((provider, BreakerOutcome(outcome).value)) else None,
           p.tried,
           if outcome.ProviderLimit? then p.limited + {provider} else p.limited,
           if outcome.ProviderLimit? then Some(entry) else p.lastLimit,
           Final(outcome, statuses),
           p.outcomes + [(entry, outcome)],
           p.waits)
    case Told(_, _, _) => p.(owed := None)
    case Slept(duration) => p.(waits := p.waits + [duration])
    case Others(_) => p
  }

  function PastOf(tr: seq<Event>, statuses: set<nat>): Past
    decreases |tr|, 1
  {
    if tr == [] then START else PastWith(tr[..|tr| - 1], tr[|tr| - 1], statuses)
  }

  function PastWith(tr: seq<Event>, e: Event, statuses: set<nat>): Past
    decreases |tr|, 2
  {
    Extend(PastOf(tr, statuses), e, statuses)
  }

  predicate Lawful(tr: seq<Event>, statuses: set<nat>)
    decreases |tr|, 1
  {
    tr != [] ==> LawfulWith(tr[..|tr| - 1], tr[|tr| - 1], statuses)
  }

  predicate LawfulWith(tr: seq<Event>, e: Event, statuses: set<nat>)
    decreases |tr|, 2
  {
    Lawful(tr, statuses) && Allowed(PastOf(tr, statuses), e)
  }

  lemma {:induction false} Noted(tr: seq<Event>, e: Event, statuses: set<nat>)
    requires Lawful(tr, statuses) && Allowed(PastOf(tr, statuses), e)
    ensures Lawful(tr + [e], statuses) && PastOf(tr + [e], statuses) == Extend(PastOf(tr, statuses), e, statuses)
  {
    assert (tr + [e])[..|tr|] == tr;
  }

  // ---------------------------------------------------------------- the breaker behind it

  // What an event adds to the breaker's history: its own outcomes, its own probes and what others did.
  function Trail(c: Breaker.Config, h: seq<Breaker.Event>, e: Event): seq<Breaker.Event> {
    match e
    case Asked(_, provider, _, _, between, granted) =>
      between
      + if granted && Breaker.Opened(Breaker.PastOf(h, provider).failures, c) then [Breaker.Probed(provider)] else []
    case Told(provider, health, now) => [Breaker.Outcome(provider, health, now)]
    case Others(events) => events
    case _ => []
  }

  function Health(c: Breaker.Config, base: seq<Breaker.Event>, tr: seq<Event>): seq<Breaker.Event>
    decreases |tr|, 1
  {
    if tr == [] then base else HealthWith(c, base, tr[..|tr| - 1], tr[|tr| - 1])
  }

  function HealthWith(c: Breaker.Config, base: seq<Breaker.Event>, tr: seq<Event>, e: Event): seq<Breaker.Event>
    decreases |tr|, 2
  {
    var h := Health(c, base, tr);
    h + Trail(c, h, e)
  }

  // An admission is granted exactly when the history decides so.
  predicate Ruled(c: Breaker.Config, h: seq<Breaker.Event>, e: Event) {
    e.Asked? ==>
      (e.granted <==>
       Breaker.Decides(c, Breaker.PastOf(h, e.provider), Breaker.PastOf(h + e.between, e.provider), e.now, e.fleet))
  }

  predicate Governed(c: Breaker.Config, base: seq<Breaker.Event>, tr: seq<Event>)
    decreases |tr|, 1
  {
    tr != [] ==> GovernedWith(c, base, tr[..|tr| - 1], tr[|tr| - 1])
  }

  predicate GovernedWith(c: Breaker.Config, base: seq<Breaker.Event>, tr: seq<Event>, e: Event)
    decreases |tr|, 2
  {
    Governed(c, base, tr) && Ruled(c, Health(c, base, tr), e)
  }

  lemma {:induction false} GovernedStep(c: Breaker.Config, base: seq<Breaker.Event>, tr: seq<Event>, e: Event)
    requires Governed(c, base, tr) && Ruled(c, Health(c, base, tr), e)
    ensures Governed(c, base, tr + [e])
    ensures Health(c, base, tr + [e]) == Health(c, base, tr) + Trail(c, Health(c, base, tr), e)
  {
    assert (tr + [e])[..|tr|] == tr;
  }

  // Whoever is asked for is the provider its entry resolved to.
  ghost predicate Named(entries: seq<Entry>, tr: seq<Event>)
    decreases |tr|, 1
  {
    tr != [] ==> NamedWith(entries, tr[..|tr| - 1], tr[|tr| - 1])
  }

  ghost predicate NamedWith(entries: seq<Entry>, tr: seq<Event>, e: Event)
    decreases |tr|, 2
  {
    Named(entries, tr) && (e.Asked? ==> e.entry < |entries| && entries[e.entry] == Resolved(e.provider))
  }

  lemma {:induction false} NamedStep(entries: seq<Entry>, tr: seq<Event>, e: Event)
    requires Named(entries, tr) && (e.Asked? ==> e.entry < |entries| && entries[e.entry] == Resolved(e.provider))
    ensures Named(entries, tr + [e])
  {
    assert (tr + [e])[..|tr|] == tr;
  }

  // ---------------------------------------------------------------- one entry

  datatype Next = Return(answer: Answer) | MoveOn | Refused

  // Another attempt is worth making after this one.
  predicate Retries(granted: bool, outcome: Outcome, statuses: set<nat>) {
    granted && outcome.Upstream? && IsRetryable(outcome.error, statuses)
  }

  // The attempts before the `n`th were all worth repeating.
  ghost predicate RetriedBefore(world: (nat, nat) -> Moment, entry: nat, n: nat, statuses: set<nat>) {
    n > 0 ==> RetriedBefore(world, entry, n - 1, statuses) && Retries(true, world(entry, n - 1).outcome, statuses)
  }

  // The outcomes of an entry's first `n` attempts.
  function Attempts(world: (nat, nat) -> Moment, entry: nat, n: nat): (made: seq<(nat, Outcome)>)
    ensures |made| == n
  {
    if n == 0 then [] else Attempts(world, entry, n - 1) + [(entry, world(entry, n - 1).outcome)]
  }

  // What the last attempt of an entry means for the chain.
  function Decided(granted: bool, outcome: Outcome, statuses: set<nat>): Next {
    if !granted then MoveOn
    else if outcome.ProviderLimit? then Refused
    else if !Final(outcome, statuses) then MoveOn
    else Return(if outcome.Completed? then Value(outcome.value) else Failed(outcome))
  }

  // The waits before `n` retries, the first of which is `first`.
  function Doubled(first: nat, n: nat): nat {
    if n == 0 then first else 2 * Doubled(first, n - 1)
  }

  function Doubling(first: nat, n: nat): seq<nat> {
    if n == 0 then [] else Doubling(first, n - 1) + [Doubled(first, n - 1)]
  }

  // Between attempts: nothing is granted, nothing is owed to the breaker.
  predicate Clear(p: Past) {
    p.granted.None? && p.owed.None?
  }

  // The past after one attempt, and after `n` retries of an entry.
  function After(p: Past, entry: nat, provider: string, granted: bool, outcome: Outcome, statuses: set<nat>): Past {
    var refused := Decided(granted, outcome, statuses).Refused?;
    Past(None, None, p.tried + {entry},
         if refused then p.limited + {provider} else p.limited, if refused then Some(entry) else p.lastLimit,
         Decided(granted, outcome, statuses).Return?,
         p.outcomes + (if granted then [(entry, outcome)] else []), p.waits)
  }

  function Retried(p: Past, entry: nat, n: nat, backoff: nat, world: (nat, nat) -> Moment): Past {
    p.(tried := if n == 0 then p.tried else p.tried + {entry},
       outcomes := p.outcomes + Attempts(world, entry, n), waits := p.waits + Doubling(backoff, n))
  }

  lemma {:induction false} RetryStep(
      p: Past, entry: nat, provider: string, n: nat, world: (nat, nat) -> Moment, backoff: nat, statuses: set<nat>)
    requires Clear(p) && !p.ended && Retries(true, world(entry, n).outcome, statuses)
    ensures var q := After(Retried(p, entry, n, backoff, world), entry, provider, true, world(entry, n).outcome,
                           statuses);
            && Clear(q) && !q.ended
            && q.(waits := q.waits + [Doubled(backoff, n)]) == Retried(p, entry, n + 1, backoff, world)
  {
    assert p.outcomes + Attempts(world, entry, n) + [(entry, world(entry, n).outcome)]
        == p.outcomes + Attempts(world, entry, n + 1);
  }

  class Chain {
    const config: Config
    const breaker: Breaker.ProviderBreaker
    // What an observer sees, and the breaker's history before this chain.
    ghost var trace: seq<Event>
    ghost var seen: Past
    ghost const base: seq<Breaker.Event>

    ghost function Told(): seq<Breaker.Event>
      reads this`trace
    {
      Health(breaker.config, base, trace)
    }

    /**
     The trace is lawful, every admission in it was the breaker's, and the breaker's history is what the trace tells.
     */
    ghost predicate Valid()
      reads this`trace, this`seen, breaker
    {
      && Lawful(trace, config.statuses) && seen == PastOf(trace, config.statuses)
      && Governed(breaker.config, base, trace) && Named(config.entries, trace)
      && breaker.Valid() && breaker.history == Told()
    }

    constructor (config: Config, breaker: Breaker.ProviderBreaker)
      requires breaker.Valid()
      ensures Valid() && trace == [] && this.config == config && this.breaker == breaker
    {
      this.config, this.breaker := config, breaker;
      trace, seen := [], START;
      base := breaker.history;
    }

    // The breaker has moved as the event says; now the trace says so.
    ghost method Note(e: Event)
      requires Lawful(trace, config.statuses) && seen == PastOf(trace, config.statuses)
      requires Governed(breaker.config, base, trace) && Named(config.entries, trace) && breaker.Valid()
      requires e.Asked? ==> e.entry < |config.entries| && config.entries[e.entry] == Resolved(e.provider)
      requires Allowed(seen, e) && Ruled(breaker.config, Told(), e)
      requires breaker.history == Told() + Trail(breaker.config, Told(), e)
      modifies this`trace, this`seen
      ensures Valid() && trace == old(trace) + [e] && seen == Extend(old(seen), e, config.statuses)
    {
      Noted(trace, e, config.statuses);
      GovernedStep(breaker.config, base, trace, e);
      NamedStep(config.entries, trace, e);
      trace, seen := trace + [e], Extend(seen, e, config.statuses);
    }

    // Other callers use the breaker.
    method Interleave(ops: seq<Breaker.Op>)
      requires Valid() && seen.granted.None?
      modifies this`trace, this`seen, breaker
      ensures Valid() && seen == old(seen)
    {
      breaker.Perform(ops);
      Breaker.PerformedGrows(breaker.config, old(breaker.history), ops);
      ghost var events := breaker.history[|old(breaker.history)|..];
      assert breaker.history == old(breaker.history) + events;
      Note(Others(events));
    }

    // The breaker is asked, and its answer is what its history decides.
    method Ask(entry: nat, provider: string, moment: Moment) returns (granted: bool)
      requires Valid() && Clear(seen) && !seen.ended && provider !in seen.limited
      requires entry < |config.entries| && config.entries[entry] == Resolved(provider)
      modifies this`trace, this`seen, breaker
      ensures Valid()
      ensures var p := old(seen);
              seen == p.(granted := if granted then Some((entry, provider)) else None, tried := p.tried + {entry})
    {
      Interleave(moment.before);
      ghost var h := breaker.history;
      ghost var between;
      granted, between := breaker.Admit(provider, moment.asked, moment.fleet, moment.within);
      ghost var e := Asked(entry, provider, moment.asked, moment.fleet, between, granted);
      assert breaker.history == h + Trail(breaker.config, h, e);
      Note(e);
    }

    // One dispatch, whose outcome the breaker hears of when it concerns health.
    method Dispatch(entry: nat, provider: string, moment: Moment)
      requires Valid() && !seen.ended && seen.granted == Some((entry, provider)) && provider !in seen.limited
      modifies this`trace, this`seen, breaker
      ensures Valid() && Clear(seen) && seen.outcomes == old(seen).outcomes + [(entry, moment.outcome)]
      ensures seen.tried == old(seen).tried && seen.waits == old(seen).waits
      ensures seen.ended <==> Final(moment.outcome, config.statuses)
      ensures var p := old(seen);
              if moment.outcome.ProviderLimit? then
                seen.limited == p.limited + {provider} && seen.lastLimit == Some(entry)
              else seen.limited == p.limited && seen.lastLimit == p.lastLimit
    {
      Note(Dispatched(entry, provider, moment.outcome));
      var health := BreakerOutcome(moment.outcome);
      if health.Some? {
        Interleave(moment.during);
        var _ := breaker.Observe(provider, health.value, moment.told, moment.fleet.Some?);
        Note(Event.Told(provider, health.value, moment.told));
      }
    }

    // One attempt: the breaker is asked, and a granted attempt is dispatched.
    method Once(entry: nat, provider: string, moment: Moment) returns (next: Next, granted: bool)
      requires Valid() && Clear(seen) && !seen.ended && provider !in seen.limited
      requires entry < |config.entries| && config.entries[entry] == Resolved(provider)
      modifies this`trace, this`seen, breaker
      ensures Valid() && next == Decided(granted, moment.outcome, config.statuses)
      ensures seen == After(old(seen), entry, provider, granted, moment.outcome, config.statuses)
    {
      granted := Ask(entry, provider, moment);
      if !granted {
        return MoveOn, false;
      }
      Dispatch(entry, provider, moment);
      match moment.outcome {
        case Completed(value) => next := Return(Value(value));
        case Upstream(_) => next := MoveOn;
        case Local => next := MoveOn;
        case LocalTimeout(error) =>
          next := if IsRetryable(error, config.statuses) then MoveOn else Return(Failed(moment.outcome));
        case ProviderLimit => next := Refused;
        case _ => next := Return(Failed(moment.outcome));
      }
    }

    // The wait before a retry.
    method Sleep(duration: nat)
      requires Valid() && Clear(seen) && !seen.ended
      modifies this`trace, this`seen
      ensures Valid() && seen == old(seen).(waits := old(seen).waits + [duration])
    {
      Note(Slept(duration));
    }

    /**
     One entry: it is tried again exactly as long as the breaker grants it, the failure is worth it and retries are
     left, after waits that double, and what the last attempt meant decides what comes next.
     */
    method Try(entry: nat, provider: string, world: (nat, nat) -> Moment) returns (next: Next, last: nat, granted: bool)
      requires Valid() && Clear(seen) && !seen.ended && provider !in seen.limited
      requires entry < |config.entries| && config.entries[entry] == Resolved(provider)
      modifies this`trace, this`seen, breaker
      ensures Valid() && last <= config.maxRetries && RetriedBefore(world, entry, last, config.statuses)
      ensures last < config.maxRetries ==> !Retries(granted, world(entry, last).outcome, config.statuses)
      ensures next == Decided(granted, world(entry, last).outcome, config.statuses)
      ensures seen == After(Retried(old(seen), entry, last, config.backoff, world), entry, provider, granted,
                            world(entry, last).outcome, config.statuses)
    {
      ghost var p := seen;
      var backoff := config.backoff;
      last := 0;
      while true
        invariant last <= config.maxRetries && backoff == Doubled(config.backoff, last)
        invariant Valid() && seen == Retried(p, entry, last, config.backoff, world)
        invariant RetriedBefore(world, entry, last, config.statuses)
        decreases config.maxRetries - last
      {
        next, granted := Once(entry, provider, world(entry, last));
        if !Retries(granted, world(entry, last).outcome, config.statuses) || last >= config.maxRetries {
          return;
        }
        RetryStep(p, entry, provider, last, world, config.backoff, config.statuses);
        Sleep(backoff);
        backoff := backoff * 2;
        last := last + 1;
      }
    }

    // All entries in turn, until an outcome ends the chain.
    method TryAll(world: (nat, nat) -> Moment)
        returns (ended: Option<Answer>, limitError: Option<nat>, distinct: bool, ghost counts: seq<nat>)
      requires Valid() && trace == []
      modifies this`trace, this`seen, breaker
      ensures Valid() && |counts| <= |config.entries|
      ensures ended.None? ==>
                && |counts| == |config.entries| && Underway(config, world, counts, seen, distinct)
                && limitError == seen.lastLimit
      ensures ended.Some? ==> seen.ended && Concluded(config, world, counts, seen, ended.value)
    {
      var limited: set<string> := {};
      limitError, distinct, counts := None, false, [];
      for i := 0 to |config.entries|
        invariant Valid() && limited == seen.limited && limitError == seen.lastLimit
        invariant |counts| == i && Underway(config, world, counts, seen, distinct)
      {
        var entry := config.entries[i];
        if entry.Unresolved? || entry.provider in limited {
          SkipStep(config, world, counts, seen, distinct);
          counts := counts + [0];
          continue;
        }
        ghost var p, before := seen, distinct;
        if limited != {} {
          distinct := true;
        }
        var next, last, granted := Try(i, entry.provider, world);
        EntryStep(config, world, counts, p, before, last, granted);
        counts := counts + [last + if granted then 1 else 0];
        if next.Return? {
          return Some(next.answer), limitError, distinct, counts;
        }
        if next.Refused? {
          limited := limited + {entry.provider};
          limitError := Some(i);
          distinct := false;
        }
      }
      ended := None;
    }

    /**
     The whole chain, for every course the providers, the policy, the fleet and the other callers may take. What was
     dispatched is, entry by entry, the first so many attempts of each, all but the last of them failures worth another
     try. Unless an outcome ended it, it ends with the limit error of the last refused entry exactly when no later entry
     resolved to a provider that was not refused, and with all failures otherwise.
     */
    method Run(world: (nat, nat) -> Moment) returns (answer: Answer, ghost counts: seq<nat>)
      requires Valid() && trace == []
      modifies this`trace, this`seen, breaker
      ensures Valid() && Clear(seen)
      ensures |counts| <= |config.entries| && seen.outcomes == Made(world, counts) && AllPaced(world, counts, config)
      ensures |seen.outcomes| <= |config.entries| * (config.maxRetries + 1)
      ensures !seen.ended ==> |counts| == |config.entries|
      ensures !seen.ended ==> AllTried(config.entries, |config.entries|, seen.tried, seen.limited)
      ensures !seen.ended ==>
                answer == if seen.lastLimit.Some?
                             && NoneBetween(config.entries, seen.lastLimit.value, |config.entries|, seen.limited)
                          then LimitError(seen.lastLimit.value) else AllFailed
      ensures seen.ended ==>
                && seen.outcomes != []
                && Decided(true, seen.outcomes[|seen.outcomes| - 1].1, config.statuses) == Return(answer)
    {
      TotalIsProduct(|config.entries|, config.maxRetries + 1);
      var ended, limitError, distinct;
      ended, limitError, distinct, counts := TryAll(world);
      if ended.Some? {
        return ended.value, counts;
      }
      if !distinct && limitError.Some? {
        return LimitError(limitError.value), counts;
      }
      return AllFailed, counts;
    }
  }

  // The outcomes of a chain that made so many attempts of each entry.
  function Made(world: (nat, nat) -> Moment, counts: seq<nat>): seq<(nat, Outcome)> {
    if counts == [] then []
    else Made(world, counts[..|counts| - 1]) + Attempts(world, |counts| - 1, counts[|counts| - 1])
  }

  // Every attempt of an entry but its last was a failure worth another try, and there are not too many.
  ghost predicate Paced(world: (nat, nat) -> Moment, entry: nat, n: nat, config: Config) {
    n <= config.maxRetries + 1 && (n > 0 ==> RetriedBefore(world, entry, n - 1, config.statuses))
  }

  ghost predicate AllPaced(world: (nat, nat) -> Moment, counts: seq<nat>, config: Config) {
    counts != [] ==>
      && AllPaced(world, counts[..|counts| - 1], config)
      && Paced(world, |counts| - 1, counts[|counts| - 1], config)
  }

  lemma {:induction false} MadeStep(world: (nat, nat) -> Moment, counts: seq<nat>, n: nat)
    ensures Made(world, counts + [n]) == Made(world, counts) + Attempts(world, |counts|, n)
    ensures forall config :: AllPaced(world, counts + [n], config) <==>
                             AllPaced(world, counts, config) && Paced(world, |counts|, n, config)
  {
    assert (counts + [n])[..|counts|] == counts;
  }

  lemma {:induction false} TryStep(
      world: (nat, nat) -> Moment, counts: seq<nat>, p: Past, last: nat, granted: bool, config: Config,
      outcomes: seq<(nat, Outcome)>)
    requires p.outcomes == Made(world, counts) && last <= config.maxRetries
    requires RetriedBefore(world, |counts|, last, config.statuses)
    requires outcomes == p.outcomes + Attempts(world, |counts|, last)
                         + if granted then [(|counts|, world(|counts|, last).outcome)] else []
    ensures var n := last + if granted then 1 else 0;
            outcomes == Made(world, counts + [n]) && Paced(world, |counts|, n, config)
  {
    var n := last + if granted then 1 else 0;
    MadeStep(world, counts, n);
    if granted {
      assert Attempts(world, |counts|, n)
          == Attempts(world, |counts|, last) + [(|counts|, world(|counts|, last).outcome)];
    }
  }

  // Every one of the first `n` entries that resolved was tried, but for providers refused meanwhile.
  ghost predicate AllTried(entries: seq<Entry>, n: nat, tried: set<nat>, limited: set<string>)
    requires n <= |entries|
  {
    forall j :: 0 <= j < n && entries[j].Resolved? ==> j in tried || entries[j].provider in limited
  }

  // No entry past `at` and before `n` resolved to a provider that was not refused.
  ghost predicate NoneBetween(entries: seq<Entry>, at: nat, n: nat, limited: set<string>)
    requires n <= |entries|
  {
    forall j :: at < j < n && entries[j].Resolved? ==> entries[j].provider in limited
  }

  // Where the chain stands before entry `n`, and whether an unrefused provider resolved since the last refusal.
  ghost predicate Reached(entries: seq<Entry>, n: nat, p: Past, distinct: bool, attempts: nat) {
    && n <= |entries| && Clear(p) && !p.ended
    && (p.limited != {} <==> p.lastLimit.Some?) && (p.lastLimit.Some? ==> p.lastLimit.value < n)
    && (distinct <==> p.lastLimit.Some? && !NoneBetween(entries, p.lastLimit.value, n, p.limited))
    && |p.outcomes| <= Total(n, attempts) && AllTried(entries, n, p.tried, p.limited)
  }

  ghost predicate Underway(
      config: Config, world: (nat, nat) -> Moment, counts: seq<nat>, p: Past, distinct: bool)
  {
    && Reached(config.entries, |counts|, p, distinct, config.maxRetries + 1)
    && p.outcomes == Made(world, counts) && AllPaced(world, counts, config)
  }

  ghost predicate Concluded(
      config: Config, world: (nat, nat) -> Moment, counts: seq<nat>, p: Past, answer: Answer)
  {
    && Clear(p) && |p.outcomes| <= Total(|config.entries|, config.maxRetries + 1)
    && p.outcomes == Made(world, counts) && AllPaced(world, counts, config)
    && p.outcomes != [] && Decided(true, p.outcomes[|p.outcomes| - 1].1, config.statuses) == Return(answer)
  }

  lemma {:induction false} SkipStep(
      config: Config, world: (nat, nat) -> Moment, counts: seq<nat>, p: Past, distinct: bool)
    requires Underway(config, world, counts, p, distinct) && |counts| < |config.entries|
    requires config.entries[|counts|].Unresolved? || config.entries[|counts|].provider in p.limited
    ensures Underway(config, world, counts + [0], p, distinct)
  {
    TotalGrows(|counts|, |counts| + 1, config.maxRetries + 1);
    MadeStep(world, counts, 0);
  }

  lemma {:induction false} ReachStep(
      entries: seq<Entry>, n: nat, p: Past, distinct: bool, attempts: nat, last: nat, granted: bool,
      world: (nat, nat) -> Moment, statuses: set<nat>, backoff: nat)
    requires n < |entries| && Reached(entries, n, p, distinct, attempts) && last < attempts
    requires entries[n].Resolved? && entries[n].provider !in p.limited
    ensures var outcome := world(n, last).outcome;
            var q := After(Retried(p, n, last, backoff, world), n, entries[n].provider, granted, outcome, statuses);
            var next := Decided(granted, outcome, statuses);
            if next.Return? then Clear(q) && |q.outcomes| <= Total(|entries|, attempts)
            else Reached(entries, n + 1, q, next.MoveOn? && (distinct || p.limited != {}), attempts)
  {
    TotalGrows(n + 1, |entries|, attempts);
  }

  lemma {:induction false} EntryStep(
      config: Config, world: (nat, nat) -> Moment, counts: seq<nat>, p: Past, distinct: bool, last: nat, granted: bool)
    requires Underway(config, world, counts, p, distinct) && |counts| < |config.entries| && last <= config.maxRetries
    requires config.entries[|counts|].Resolved? && config.entries[|counts|].provider !in p.limited
    requires RetriedBefore(world, |counts|, last, config.statuses)
    ensures var n, outcome := |counts|, world(|counts|, last).outcome;
            var q := After(Retried(p, n, last, config.backoff, world), n, config.entries[n].provider, granted, outcome,
                           config.statuses);
            var next, more := Decided(granted, outcome, config.statuses), counts + [last + if granted then 1 else 0];
            if next.Return? then Concluded(config, world, more, q, next.answer)
            else Underway(config, world, more, q, next.MoveOn? && (distinct || p.limited != {}))
  {
    var n := |counts|;
    ReachStep(config.entries, n, p, distinct, config.maxRetries + 1, last, granted, world, config.statuses,
              config.backoff);
    var q := After(Retried(p, n, last, config.backoff, world), n, config.entries[n].provider, granted,
                   world(n, last).outcome, config.statuses);
    TryStep(world, counts, p, last, granted, config, q.outcomes);
    MadeStep(world, counts, last + if granted then 1 else 0);
  }

  // ---------------------------------------------------------------- what a lawful trace means

  // The provider was refused for a limit before.
  ghost predicate WasLimited(tr: seq<Event>, provider: string) {
    exists i :: 0 <= i < |tr| && tr[i].Dispatched? && tr[i].provider == provider && tr[i].outcome.ProviderLimit?
  }

  // An outcome that ends the chain came before.
  ghost predicate WasFinal(tr: seq<Event>, statuses: set<nat>) {
    exists i :: 0 <= i < |tr| && tr[i].Dispatched? && Final(tr[i].outcome, statuses)
  }

  lemma {:induction false} LimitedMeaning(tr: seq<Event>, statuses: set<nat>, provider: string)
    ensures provider in PastOf(tr, statuses).limited <==> WasLimited(tr, provider)
    decreases |tr|
  {
    if tr != [] {
      var n := |tr| - 1;
      LimitedMeaning(tr[..n], statuses, provider);
      assert forall i :: 0 <= i < n ==> tr[..n][i] == tr[i];
      assert WasLimited(tr, provider) <==>
             WasLimited(tr[..n], provider)
             || (tr[n].Dispatched? && tr[n].provider == provider && tr[n].outcome.ProviderLimit?);
    }
  }

  lemma {:induction false} EndedMeaning(tr: seq<Event>, statuses: set<nat>)
    requires Lawful(tr, statuses)
    ensures PastOf(tr, statuses).ended <==> WasFinal(tr, statuses)
    decreases |tr|
  {
    if tr != [] {
      var n := |tr| - 1;
      EndedMeaning(tr[..n], statuses);
      assert forall i :: 0 <= i < n ==> tr[..n][i] == tr[i];
      assert WasFinal(tr, statuses) <==>
               WasFinal(tr[..n], statuses) || (tr[n].Dispatched? && Final(tr[n].outcome, statuses));
    }
  }

  lemma {:induction false} GrantedMeaning(tr: seq<Event>, statuses: set<nat>)
    requires Lawful(tr, statuses)
    ensures PastOf(tr, statuses).granted.Some? ==>
              && PastOf(tr, statuses).owed.None?
              && tr != [] && tr[|tr| - 1].Asked? && tr[|tr| - 1].granted
              && (tr[|tr| - 1].entry, tr[|tr| - 1].provider) == PastOf(tr, statuses).granted.value
    decreases |tr|
  {
    if tr != [] {
      GrantedMeaning(tr[..|tr| - 1], statuses);
    }
  }

  lemma {:induction false} LawfulPrefix(tr: seq<Event>, statuses: set<nat>, j: nat)
    requires Lawful(tr, statuses) && j < |tr|
    ensures Lawful(tr[..j], statuses) && Allowed(PastOf(tr[..j], statuses), tr[j])
    decreases |tr|
  {
    var n := |tr| - 1;
    if j < n {
      LawfulPrefix(tr[..n], statuses, j);
      assert tr[..n][..j] == tr[..j];
    }
  }

  /**
   Every dispatch follows a granted admission of that very provider, never one already refused for a limit, and never
   anything that ended the chain; nor is the breaker asked or a wait begun after such an end.
   */
  lemma {:induction false} LawfulMeaning(tr: seq<Event>, statuses: set<nat>, j: nat)
    requires Lawful(tr, statuses) && j < |tr|
    ensures tr[j].Dispatched? ==>
              && j > 0 && tr[j - 1].Asked? && tr[j - 1].granted
              && tr[j - 1].provider == tr[j].provider && tr[j - 1].entry == tr[j].entry
    ensures tr[j].Dispatched? || tr[j].Asked? ==> !WasLimited(tr[..j], tr[j].provider)
    ensures tr[j].Asked? || tr[j].Dispatched? || tr[j].Slept? ==> !WasFinal(tr[..j], statuses)
  {
    LawfulPrefix(tr, statuses, j);
    GrantedMeaning(tr[..j], statuses);
    EndedMeaning(tr[..j], statuses);
    if tr[j].Dispatched? || tr[j].Asked? {
      LimitedMeaning(tr[..j], statuses, tr[j].provider);
    }
  }

  // ---------------------------------------------------------------- no retry into an open circuit

  lemma {:induction false} GovernedAt(c: Breaker.Config, base: seq<Breaker.Event>, tr: seq<Event>, k: nat)
    requires Governed(c, base, tr) && k < |tr|
    ensures Governed(c, base, tr[..k]) && Ruled(c, Health(c, base, tr[..k]), tr[k])
    decreases |tr|
  {
    var n := |tr| - 1;
    assert GovernedWith(c, base, tr[..n], tr[n]);
    if k < n {
      GovernedAt(c, base, tr[..n], k);
      assert tr[..n][..k] == tr[..k];
    }
  }

  lemma {:induction false} HealthGrows(c: Breaker.Config, base: seq<Breaker.Event>, tr: seq<Event>, i: nat, k: nat)
    requires i <= k <= |tr|
    ensures Health(c, base, tr[..i]) <= Health(c, base, tr[..k])
    decreases k
  {
    if i < k {
      HealthGrows(c, base, tr, i, k - 1);
      assert tr[..k][..k - 1] == tr[..k - 1];
      assert Health(c, base, tr[..k]) == HealthWith(c, base, tr[..k - 1], tr[k - 1]);
    }
  }

  // What the breaker's history gained between two points of the trace, and within the admission at the second.
  function Since(c: Breaker.Config, base: seq<Breaker.Event>, tr: seq<Event>, i: nat, k: nat): seq<Breaker.Event>
    requires i <= k < |tr| && tr[k].Asked?
  {
    HealthGrows(c, base, tr, i, k);
    Health(c, base, tr[..k])[|Health(c, base, tr[..i])|..] + tr[k].between
  }

  // An open circuit stays open until a success.
  lemma {:induction false} StaysOpen(c: Breaker.Config, h: seq<Breaker.Event>, more: seq<Breaker.Event>, target: string)
    requires Breaker.Opened(Breaker.PastOf(h, target).failures, c) && Breaker.Succeeded(target) !in more
    ensures Breaker.Opened(Breaker.PastOf(h + more, target).failures, c)
    decreases |more|
  {
    if more == [] {
      assert h + more == h;
    } else {
      var n := |more| - 1;
      StaysOpen(c, h, more[..n], target);
      assert (h + more)[..|h + more| - 1] == h + more[..n];
      var p := Breaker.PastOf(h + more[..n], target);
      assert more[n] in more && p == Breaker.Past(p.failures, p.probing);
      assert more[n].FailedAt? ==> (p.failures + [more[n].now])[..|p.failures|] == p.failures;
    }
  }

  // Events of other targets leave a target's past alone.
  lemma {:induction false} Untouched(h: seq<Breaker.Event>, more: seq<Breaker.Event>, target: string)
    requires forall e :: e in more ==> e.target != target
    ensures Breaker.PastOf(h + more, target) == Breaker.PastOf(h, target)
    decreases |more|
  {
    if more == [] {
      assert h + more == h;
    } else {
      var n := |more| - 1;
      Untouched(h, more[..n], target);
      assert (h + more)[..|h + more| - 1] == h + more[..n];
      assert more[n] in more;
    }
  }

  /**
   Once a provider's circuit is open, and until some success of it is recorded, an attempt is granted exactly as the one
   due probe, whatever the other callers do: no entry is retried into a circuit its own failure opened.
   */
  lemma {:induction false} OpenGrantsOnlyProbes(
      c: Breaker.Config, base: seq<Breaker.Event>, tr: seq<Event>, i: nat, k: nat)
    requires Governed(c, base, tr) && i <= k < |tr| && tr[k].Asked?
    requires Breaker.Opened(Breaker.PastOf(Health(c, base, tr[..i]), tr[k].provider).failures, c)
    requires Breaker.Succeeded(tr[k].provider) !in Since(c, base, tr, i, k)
    ensures tr[k].granted <==>
            Breaker.ProbeDue(c, Breaker.PastOf(Health(c, base, tr[..i]) + Since(c, base, tr, i, k), tr[k].provider),
                             tr[k].now)
  {
    var p, h, g := tr[k].provider, Health(c, base, tr[..i]), Health(c, base, tr[..k]);
    GovernedAt(c, base, tr, k);
    HealthGrows(c, base, tr, i, k);
    var gained := g[|h|..];
    assert g == h + gained && g + tr[k].between == h + Since(c, base, tr, i, k);
    assert Breaker.Succeeded(p) !in gained by {
      assert forall e :: e in gained ==> e in Since(c, base, tr, i, k);
    }
    StaysOpen(c, h, gained, p);
    StaysOpen(c, h, Since(c, base, tr, i, k), p);
    Breaker.DisabledNeverOpens(Breaker.PastOf(h, p).failures, c);
  }

  /**
   After the failure that opens its circuit, an entry's next attempt is granted exactly when a cooldown has passed.
   */
  lemma {:induction false} NotRetriedPastOpening(
      c: Breaker.Config, base: seq<Breaker.Event>, tr: seq<Event>, i: nat, k: nat, error: Breaker.Error, at: nat)
    requires Governed(c, base, tr) && i < k < |tr| && tr[k].Asked?
    requires tr[i] == Told(tr[k].provider, Err(error), at) && Breaker.CountsTowardHealth(error)
    requires Breaker.Opened(Breaker.PastOf(Health(c, base, tr[..i + 1]), tr[k].provider).failures, c)
    requires forall e :: e in Since(c, base, tr, i + 1, k) ==> e.target != tr[k].provider
    ensures tr[k].granted <==> SaturatingSub(tr[k].now, at) >= c.cooldown
  {
    var p, h := tr[k].provider, Health(c, base, tr[..i]);
    assert tr[..i + 1][..i] == tr[..i];
    assert Health(c, base, tr[..i + 1]) == HealthWith(c, base, tr[..i], tr[i]) == h + [Breaker.FailedAt(p, true, at)];
    assert (h + [Breaker.FailedAt(p, true, at)])[..|h|] == h;
    assert Breaker.Succeeded(p) !in Since(c, base, tr, i + 1, k);
    OpenGrantsOnlyProbes(c, base, tr, i + 1, k);
    Untouched(Health(c, base, tr[..i + 1]), Since(c, base, tr, i + 1, k), p);
  }
}

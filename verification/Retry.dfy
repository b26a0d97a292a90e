/**
 The bounded retry loop around one prepared request: what it sends, when it waits, and what becomes of each admission.
 */
module Retry {
  import opened Common
  import opened Counting

  // ---------------------------------------------------------------- waits, in nanoseconds

  const MILLISECOND: nat := 1_000_000
  const MAX_U64: nat := 0xFFFF_FFFF_FFFF_FFFF

  function Power(n: nat): nat {
    if n == 0 then 1 else 2 * Power(n - 1)
  }

  function Shift(attempt: nat): nat {
    if attempt < 64 then Power(attempt) else MAX_U64
  }

  // Whole milliseconds, truncated to 64 bits.
  function Millis(duration: nat): nat {
    duration / MILLISECOND % (MAX_U64 + 1)
  }

  function BackoffBound(attempt: nat, base: nat, cap: nat): nat {
    Min(Min(Millis(base) * Shift(attempt), MAX_U64) * MILLISECOND, cap)
  }

  // The draw within a bound; there is none when the number of choices does not fit in 64 bits.
  function FullJitter(bound: nat, rand: nat): Option<nat> {
    var ms := Millis(bound);
    if ms == 0 then Some(0) else if ms == MAX_U64 then None else Some(rand % (ms + 1) * MILLISECOND)
  }

  function Nudge(rand: nat): nat {
    rand % 251 * MILLISECOND
  }

  lemma {:induction false} JitterWithin(bound: nat, rand: nat)
    ensures FullJitter(bound, rand).Some? ==> FullJitter(bound, rand).value <= bound
    ensures FullJitter(bound, rand).None? <==> Millis(bound) == MAX_U64
  {
    var ms := Millis(bound);
    assert ms <= bound / MILLISECOND;
    if FullJitter(bound, rand).Some? && ms > 0 {
      assert rand % (ms + 1) <= ms;
      assert rand % (ms + 1) * MILLISECOND <= ms * MILLISECOND;
    }
  }

  // ---------------------------------------------------------------- one iteration's surroundings

  datatype Setup = Setup(policy: bool, target: bool, transport: bool, maxRetries: nat, base: nat, cap: nat)

  datatype Callback = Accepted | Rejected | TimedOut
  datatype Authorization = Ready | Failed(status: Option<nat>)
  datatype Acquisition =
    | Granted
    | Refused
    | ExpiredBefore
    | ExpiredAfter              // granted, but the logical deadline passed meanwhile
    | Late(active: bool)        // no answer in time
  datatype Reply = HeaderTimeout | TransportError(retryable: bool) | Response(status: nat)
  datatype Body = Readable(usage: Option<Callback>) | TooLarge | Unreadable
  datatype Refresh = RefreshTimedOut | RefreshFailed | Wanted | Declined

  // Everything the world decides during one iteration.
  datatype Turn = Turn(
    built: bool,
    totalFits: bool,
    activeAtStart: bool,
    authorizationFits: bool,
    authorization: Authorization,
    acquisition: Acquisition,
    activeAtSend: bool,
    headersFit: bool,
    signed: bool,
    zeroUsage: Callback,
    reply: Reply,
    headers: Callback,
    body: Body,
    finish: Callback,
    refresh: Refresh,
    hint: Option<nat>,
    rand: nat)

  datatype Failure = Upstream | Local | LocalTimeout | LogicalTimeout | PolicyRefusal | PolicyObservation | Panic
  datatype Verdict = Again | Done(result: Result<nat, Failure>)

  const RETRYABLE_STATUSES: set<nat> := {429, 500, 502, 503, 504, 529}

  predicate Unauthorized(status: nat) {
    status == 401 || status == 403
  }

  predicate Success(status: nat) {
    200 <= status < 300
  }

  // ---------------------------------------------------------------- what an observer sees

  datatype Event =
    | Acquired
    | Sent
    | HeadersTold
    | UsageTold
    | Finished         // the policy accepted the outcome
    | Abandoned        // the tracker was dropped with the attempt still open
    | Slept(duration: nat)
    | Refreshed

  datatype Phase = Free | Admitted | InFlight

  datatype Log = Log(
    phase: Phase, slept: nat, sends: nat, refreshes: nat, headers: nat, usages: nat, finishes: nat)

  predicate Allowed(l: Log, e: Event, policy: bool) {
    match e
    case Acquired => policy && l.phase == Free
    case Sent => l.phase == if policy then Admitted else Free
    case HeadersTold => l.phase == InFlight
    case UsageTold => l.phase != Free
    case Finished => l.phase != Free
    case Abandoned => l.phase != Free
    case Slept(_) => l.phase == Free
    case Refreshed => l.phase == Free && l.refreshes == 0
  }

  function Tally(l: Log, e: Event): Log {
    match e
    case Acquired => l.(phase := Admitted)
    case Sent => l.(phase := if l.phase == Free then Free else InFlight, sends := l.sends + 1)
    case Finished => l.(phase := Free, finishes := l.finishes + 1)
    case Abandoned => l.(phase := Free)
    case Slept(d) => l.(slept := l.slept + d)
    case Refreshed => l.(refreshes := l.refreshes + 1)
    case HeadersTold => l.(headers := l.headers + 1)
    case UsageTold => l.(usages := l.usages + 1)
  }

  function LogOf(tr: seq<Event>): Log {
    if tr == [] then Log(Free, 0, 0, 0, 0, 0, 0) else Tally(LogOf(tr[..|tr| - 1]), tr[|tr| - 1])
  }

  predicate Lawful(tr: seq<Event>, policy: bool) {
    tr != [] ==> Lawful(tr[..|tr| - 1], policy) && Allowed(LogOf(tr[..|tr| - 1]), tr[|tr| - 1], policy)
  }

  lemma {:induction false} TraceStep(tr: seq<Event>, e: Event, policy: bool)
    requires Lawful(tr, policy) && Allowed(LogOf(tr), e, policy)
    ensures Lawful(tr + [e], policy) && LogOf(tr + [e]) == Tally(LogOf(tr), e)
  {
    assert (tr + [e])[..|tr|] == tr;
  }

  // ---------------------------------------------------------------- which iterations are followed by another

  // The provider asks to be tried again; it did what was asked; it does not know the caller.
  predicate Busy(status: nat) {
    status == 429 || status == 500 || 502 <= status <= 504 || status == 529
  }

  predicate Fine(status: nat) {
    status / 100 == 2
  }

  predicate Denied(status: nat) {
    401 <= status <= 403 && status != 402
  }

  ghost predicate Reaches(s: Setup, t: Turn) {
    t.built && t.totalFits && (s.policy ==> t.activeAtStart) && t.authorizationFits
  }

  // It is authorized and admitted.
  ghost predicate Admits(s: Setup, t: Turn) {
    && Reaches(s, t) && (s.transport ==> t.authorization.Ready?)
    && (s.policy ==> s.target && t.acquisition.Granted? && t.activeAtSend)
  }

  // The request goes out.
  ghost predicate Sends(s: Setup, t: Turn) {
    Admits(s, t) && t.headersFit && (s.transport ==> t.signed)
  }

  // Every callback the policy gets about a failed response is accepted.
  ghost predicate Tells(t: Turn) {
    && t.headers.Accepted? && (t.body.Readable? && t.body.usage.Some? ==> t.body.usage.value.Accepted?)
    && t.finish.Accepted?
  }

  ghost predicate Rejects(s: Setup, t: Turn) {
    s.transport && t.reply.Response? && Denied(t.reply.status) && !t.body.TooLarge? && t.refresh.Wanted?
  }

  // Only a refreshed authorization makes it worth another iteration.
  ghost predicate RefreshHelps(s: Setup, t: Turn) {
    Sends(s, t) && t.reply.Response? && !Busy(t.reply.status)
  }

  // The policy hears of a response's headers.
  ghost predicate Answers(s: Setup, t: Turn) {
    s.policy && Sends(s, t) && t.reply.Response?
  }

  // The policy hears of a usage: none spent by a request that could not be signed, or what an error body holds.
  ghost predicate Uses(s: Setup, t: Turn) {
    && s.policy && Admits(s, t) && t.headersFit
    && if s.transport && !t.signed then true
       else t.reply.Response? && !Fine(t.reply.status) && t.headers.Accepted? && t.body.Readable? && t.body.usage.Some?
  }

  // The policy accepts the end of an attempt that has no answer to hold.
  ghost predicate Closes(s: Setup, t: Turn) {
    && s.policy && Admits(s, t) && t.headersFit
    && if s.transport && !t.signed then t.zeroUsage.Accepted? && t.finish.Accepted?
       else match t.reply
            case Response(status) => !Fine(status) && Tells(t)
            case _ => t.finish.Accepted?
  }

  /** A failure worth another iteration, with nothing wrong on the policy's side. */
  ghost predicate Transient(s: Setup, t: Turn, refreshed: bool) {
    || (&& Reaches(s, t) && s.transport && t.authorization.Failed?
        && t.authorization.status.Some? && Busy(t.authorization.status.value))
    || (&& Sends(s, t)
        && match t.reply
           case HeaderTimeout => s.policy ==> t.finish.Accepted?
           case TransportError(retryable) => retryable && (s.policy ==> t.finish.Accepted?)
           case Response(status) =>
             (s.policy ==> Tells(t)) && (Busy(status) || (Rejects(s, t) && !refreshed)))
  }

  // The provider is to blame: it or the way to it failed, and nothing on this side did.
  ghost predicate ProviderFailed(s: Setup, t: Turn) {
    && Sends(s, t)
    && match t.reply
       case HeaderTimeout => false
       case TransportError(_) => s.policy ==> t.finish.Accepted?
       case Response(status) => !Fine(status) && (s.policy ==> Tells(t)) && Blameless(s, t)
  }

  ghost predicate Blameless(s: Setup, t: Turn) {
    && !t.body.TooLarge?
    && !(s.transport && t.reply.Response? && Denied(t.reply.status)
         && (t.refresh.RefreshTimedOut? || t.refresh.RefreshFailed?))
  }

  // The policy refused, or did not answer while the logical request was still alive.
  ghost predicate PolicyRefused(s: Setup, t: Turn) {
    && Reaches(s, t) && (s.transport ==> t.authorization.Ready?) && s.policy && s.target
    && (t.acquisition.Refused? || t.acquisition == Late(true))
  }

  ghost predicate DeadlinePassed(s: Setup, t: Turn) {
    && s.policy && t.built && t.totalFits
    && (t.activeAtStart ==>
          && t.authorizationFits && (s.transport ==> t.authorization.Ready?) && s.target
          && (t.acquisition.ExpiredBefore? || t.acquisition.ExpiredAfter? || t.acquisition == Late(false)
              || (t.acquisition.Granted? && !t.activeAtSend)))
  }

  // A time limit of this side ran out.
  ghost predicate RanOut(s: Setup, t: Turn) {
    && t.built
    && (t.totalFits ==>
          && (s.policy ==> t.activeAtStart)
          && (t.authorizationFits ==>
                && Admits(s, t)
                && (t.headersFit ==> Sends(s, t) && t.reply.HeaderTimeout? && (s.policy ==> t.finish.Accepted?))))
  }

  // The policy was told something and did not accept it.
  ghost predicate PolicyDeaf(s: Setup, t: Turn) {
    && s.policy && Admits(s, t) && t.headersFit
    && if !Sends(s, t) then !(t.zeroUsage.Accepted? && t.finish.Accepted?)
       else match t.reply
            case Response(status) => if Fine(status) then !t.headers.Accepted? else !Tells(t)
            case _ => !t.finish.Accepted?
  }

  // What a final failure says about its cause.
  ghost predicate Explains(s: Setup, t: Turn, v: Verdict) {
    v.Done? && v != Done(Err(Panic)) ==>
      && (v.result == Err(Upstream) <==> ProviderFailed(s, t))
      && (v.result == Err(PolicyRefusal) <==> PolicyRefused(s, t))
      && (v.result == Err(LogicalTimeout) <==> DeadlinePassed(s, t))
      && (v.result == Err(LocalTimeout) <==> RanOut(s, t))
      && (v.result == Err(PolicyObservation) <==> PolicyDeaf(s, t))
  }

  // What one iteration decides.
  ghost predicate Decides(s: Setup, t: Turn, attempt: nat, refreshed: bool, v: Verdict) {
    && (v.Again? ==> attempt < s.maxRetries && Transient(s, t, refreshed))
    && (v.Again? || v == Done(Err(Panic)) || !(attempt < s.maxRetries && Transient(s, t, refreshed)))
    && (v.Done? && v.result.Ok? <==>
          Sends(s, t) && t.reply.Response? && Fine(t.reply.status) && (s.policy ==> t.headers.Accepted?))
    && (v.Done? && v.result.Ok? ==> v.result.value == t.reply.status)
    && Explains(s, t, v)
  }

  ghost predicate IsLeast(n: nat, a: nat, b: nat, c: nat) {
    n <= a && n <= b && n <= c && (n == a || n == b || n == c)
  }

  // The most milliseconds to wait: the base doubled with every attempt, within the cap and 64 bits.
  ghost predicate AtMostMillis(s: Setup, attempt: nat, most: nat) {
    IsLeast(most, s.base / 1_000_000 % 18_446_744_073_709_551_616 * Power(attempt), s.cap / 1_000_000,
            18_446_744_073_709_551_615)
  }

  // Whole milliseconds, any number of them up to the most there may be.
  ghost predicate IsDraw(s: Setup, attempt: nat, rand: nat, wait: Option<nat>) {
    exists most: nat ::
      && AtMostMillis(s, attempt, most)
      && wait == if most == 18_446_744_073_709_551_615 then None else Some(rand % (most + 1) * 1_000_000)
  }

  /**
   The wait before the next iteration: none after a refresh; what the provider asked for, capped, and up to a quarter of
   a second more; otherwise a draw.
   */
  ghost predicate IsDue(s: Setup, t: Turn, attempt: nat, wait: Option<nat>) {
    if RefreshHelps(s, t) then wait == Some(0)
    else if Sends(s, t) && t.reply.Response? && t.hint.Some? then
      wait == Some((if t.hint.value < s.cap then t.hint.value else s.cap) + t.rand % 251 * 1_000_000)
    else IsDraw(s, attempt, t.rand, wait)
  }

  function SumOf(waits: seq<nat>): nat {
    if waits == [] then 0 else SumOf(waits[..|waits| - 1]) + waits[|waits| - 1]
  }

  // How many of the first n iterations sent their request, and of how many the policy heard the headers, heard a usage
  // and accepted the end.
  ghost function Sendings(s: Setup, world: nat -> Turn, n: nat): nat {
    if n == 0 then 0 else Sendings(s, world, n - 1) + if Sends(s, world(n - 1)) then 1 else 0
  }

  ghost function Headings(s: Setup, world: nat -> Turn, n: nat): nat {
    if n == 0 then 0 else Headings(s, world, n - 1) + if Answers(s, world(n - 1)) then 1 else 0
  }

  ghost function Usings(s: Setup, world: nat -> Turn, n: nat): nat {
    if n == 0 then 0 else Usings(s, world, n - 1) + if Uses(s, world(n - 1)) then 1 else 0
  }

  ghost function Closings(s: Setup, world: nat -> Turn, n: nat): nat {
    if n == 0 then 0 else Closings(s, world, n - 1) + if Closes(s, world(n - 1)) then 1 else 0
  }

  // One of the first n iterations used up the refresh.
  ghost predicate RefreshedBy(s: Setup, world: nat -> Turn, n: nat) {
    exists k :: 0 <= k < n && RefreshHelps(s, world(k))
  }

  // Each of the first iterations was worth repeating, and its wait the one due.
  ghost predicate EachDue(s: Setup, world: nat -> Turn, waits: seq<nat>) {
    waits != [] ==>
      var k := |waits| - 1; EachDue(s, world, waits[..k]) && IsDue(s, world(k), k, Some(waits[k]))
  }

  ghost predicate EachWorth(s: Setup, world: nat -> Turn, n: nat) {
    n > 0 ==> EachWorth(s, world, n - 1) && Transient(s, world(n - 1), RefreshedBy(s, world, n - 1))
  }

  lemma {:induction false} EachDueAt(s: Setup, world: nat -> Turn, waits: seq<nat>, k: nat)
    requires EachDue(s, world, waits) && k < |waits|
    ensures IsDue(s, world(k), k, Some(waits[k]))
    decreases |waits|
  {
    if k < |waits| - 1 {
      EachDueAt(s, world, waits[..|waits| - 1], k);
    }
  }

  lemma {:induction false} EachWorthAt(s: Setup, world: nat -> Turn, n: nat, k: nat)
    requires EachWorth(s, world, n) && k < n
    ensures Transient(s, world(k), RefreshedBy(s, world, k))
    decreases n
  {
    if k < n - 1 {
      EachWorthAt(s, world, n - 1, k);
    }
  }

  // What the first n iterations did, all of them worth repeating.
  ghost predicate Repeated(s: Setup, world: nat -> Turn, n: nat, waits: seq<nat>, l: Log, refreshed: bool) {
    && |waits| == n && l.slept == SumOf(waits) && EachDue(s, world, waits) && EachWorth(s, world, n)
    && l.sends == Sendings(s, world, n) && l.headers == Headings(s, world, n)
    && l.usages == Usings(s, world, n) && l.finishes == Closings(s, world, n)
    && (refreshed <==> RefreshedBy(s, world, n)) && l.refreshes == if refreshed then 1 else 0
  }

  lemma {:induction false} WaitsGrow(s: Setup, world: nat -> Turn, waits: seq<nat>, wait: nat)
    requires EachDue(s, world, waits) && IsDue(s, world(|waits|), |waits|, Some(wait))
    ensures EachDue(s, world, waits + [wait]) && SumOf(waits + [wait]) == SumOf(waits) + wait
  {
    assert (waits + [wait])[..|waits|] == waits;
  }

  lemma {:induction false} RefreshedStep(s: Setup, world: nat -> Turn, n: nat)
    ensures RefreshedBy(s, world, n + 1) <==> RefreshedBy(s, world, n) || RefreshHelps(s, world(n))
  {
  }

  lemma {:induction false} RepeatedStep(
      s: Setup, world: nat -> Turn, n: nat, waits: seq<nat>, a: Log, was: bool, wait: nat, b: Log)
    requires Repeated(s, world, n, waits, a, was)
    requires Transient(s, world(n), was) && IsDue(s, world(n), n, Some(wait)) && b.slept == a.slept + wait
    requires Counted(a, b, s, world(n), Again)
    requires b.refreshes == if was || RefreshHelps(s, world(n)) then 1 else 0
    ensures Repeated(s, world, n + 1, waits + [wait], b, was || RefreshHelps(s, world(n)))
  {
    WaitsGrow(s, world, waits, wait);
    RefreshedStep(s, world, n);
  }

  lemma {:induction false} RepeatedEnds(
      s: Setup, world: nat -> Turn, n: nat, waits: seq<nat>, a: Log, was: bool, b: Log, result: Result<nat, Failure>)
    requires Repeated(s, world, n, waits, a, was) && n <= s.maxRetries
    requires n < s.maxRetries && result != Err(Panic) ==> !Transient(s, world(n), was)
    requires Counted(a, b, s, world(n), Done(result)) && b.slept == a.slept && b.refreshes == a.refreshes
    ensures Ran(s, world, n, waits, b, result)
  {
    forall k | 0 <= k < n
      ensures IsDue(s, world(k), k, Some(waits[k])) && Transient(s, world(k), RefreshedBy(s, world, k))
    {
      EachDueAt(s, world, waits, k);
      EachWorthAt(s, world, n, k);
    }
  }

  /** What a whole run did: every wait as due, every request and everything the policy heard counted, one refresh. */
  ghost predicate Ran(s: Setup, world: nat -> Turn, last: nat, waits: seq<nat>, l: Log, result: Result<nat, Failure>) {
    && |waits| == last <= s.maxRetries && l.slept == SumOf(waits)
    && (forall k :: 0 <= k < last ==> IsDue(s, world(k), k, Some(waits[k])))
    && (forall k :: 0 <= k < last ==> Transient(s, world(k), RefreshedBy(s, world, k)))
    && (last < s.maxRetries && result != Err(Panic) ==> !Transient(s, world(last), RefreshedBy(s, world, last)))
    && l.sends == Sendings(s, world, last + 1) && l.headers == Headings(s, world, last + 1)
    && (result != Err(Panic) ==> l.usages == Usings(s, world, last + 1) && l.finishes == Closings(s, world, last + 1))
    && l.refreshes == if RefreshedBy(s, world, last) then 1 else 0
  }

  // The wait taken was this one.
  predicate Waited(a: Log, b: Log, wait: Option<nat>) {
    wait.Some? && b.slept == a.slept + wait.value
  }

  // How an attempt is settled: usage first if there is any, and then the outcome; any rejection abandons it.
  function Settling(policy: bool, usage: Option<Callback>, finish: Callback): seq<Event> {
    if !policy then []
    else
      (if usage.Some? then [UsageTold] else [])
      + [if (usage.Some? ==> usage.value.Accepted?) && finish.Accepted? then Finished else Abandoned]
  }

  // The usage in a failed response's body.
  function BodyUsage(t: Turn): Option<Callback> {
    if t.body.Readable? then t.body.usage else None
  }

  // One usage more, if there was one to report.
  function Reported(l: Log, usage: bool): Log {
    l.(usages := l.usages + if usage then 1 else 0)
  }

  // Nothing held any more, and one finish more if the policy accepted it.
  function Over(l: Log, accepted: bool): Log {
    l.(phase := Free, finishes := l.finishes + if accepted then 1 else 0)
  }

  // The request counted if it went out, and what the policy heard and accepted.
  ghost predicate Counted(a: Log, b: Log, s: Setup, t: Turn, v: Verdict) {
    && b.sends == a.sends + (if Sends(s, t) then 1 else 0)
    && b.headers == a.headers + (if Answers(s, t) then 1 else 0)
    && (v != Done(Err(Panic)) ==>
          && b.usages == a.usages + (if Uses(s, t) then 1 else 0)
          && b.finishes == a.finishes + if Closes(s, t) then 1 else 0)
  }

  // What one iteration may add: one request, one bounded wait, and a held admission only with the answer.
  ghost predicate Within(a: Log, b: Log, v: Verdict, s: Setup) {
    && a.sends <= b.sends <= a.sends + 1
    && a.slept <= b.slept <= a.slept + (if v.Again? then s.cap + 250 * MILLISECOND else 0)
    && b.phase == if s.policy && v.Done? && v.result.Ok? then InFlight else Free
  }

  // ---------------------------------------------------------------- the loop

  class Dispatch {
    const setup: Setup
    var trace: seq<Event>
    var refreshed: bool

    ghost predicate Valid()
      reads this
    {
      Lawful(trace, setup.policy) && LogOf(trace).refreshes == if refreshed then 1 else 0
    }

    // Nothing of an admission is left open.
    ghost predicate Settled()
      reads this
    {
      Valid() && LogOf(trace).phase == Free
    }

    constructor (setup: Setup)
      ensures Settled() && this.setup == setup && trace == [] && !refreshed
    {
      this.setup := setup;
      trace, refreshed := [], false;
    }

    method Note(e: Event)
      requires Valid() && Allowed(LogOf(trace), e, setup.policy) && !e.Refreshed?
      modifies this`trace
      ensures Valid() && trace == old(trace) + [e] && LogOf(trace) == Tally(LogOf(old(trace)), e)
    {
      TraceStep(trace, e, setup.policy);
      trace := trace + [e];
    }

    // An early return drops the tracker.
    method Drop()
      requires Valid() && (setup.policy <==> LogOf(trace).phase != Free)
      modifies this`trace
      ensures Settled() && LogOf(trace) == LogOf(old(trace)).(phase := Free)
      ensures trace == old(trace) + if setup.policy then [Abandoned] else []
    {
      if setup.policy {
        Note(Abandoned);
      }
    }

    // Reports the outcome; unless it is accepted the caller returns and the tracker is dropped.
    method Finish(callback: Callback) returns (ok: bool)
      requires Valid() && (setup.policy <==> LogOf(trace).phase != Free)
      modifies this`trace
      ensures Settled() && LogOf(trace) == Over(LogOf(old(trace)), setup.policy && ok)
      ensures ok <==> !setup.policy || callback.Accepted?
      ensures trace == old(trace) + Settling(setup.policy, None, callback)
    {
      ok := true;
      if setup.policy {
        ok := callback.Accepted?;
        Note(if ok then Finished else Abandoned);
      }
    }

    method Wait(duration: Option<nat>) returns (v: Verdict)
      requires Settled()
      modifies this`trace
      ensures Settled() && v == if duration.Some? then Again else Done(Err(Panic))
      ensures LogOf(trace)
              == LogOf(old(trace)).(slept := LogOf(old(trace)).slept + if duration.Some? then duration.value else 0)
    {
      if duration.None? {
        return Done(Err(Panic));
      }
      Note(Slept(duration.value));
      return Again;
    }

    function Backoff(t: Turn, attempt: nat): Option<nat> {
      FullJitter(BackoffBound(attempt, setup.base, setup.cap), t.rand)
    }

    // The wait before the next attempt: the server's own where it gave one, none after a refresh, and otherwise the
    // backoff.
    ghost function Due(t: Turn, attempt: nat): Option<nat> {
      if !Sends(setup, t) || !t.reply.Response? then Backoff(t, attempt)
      else if Busy(t.reply.status) then Pause(t, attempt)
      else Some(0)
    }

    lemma {:induction false} DueExactly(t: Turn, attempt: nat)
      ensures IsDue(setup, t, attempt, Due(t, attempt))
    {
      BackoffExactly(setup, attempt, t.rand);
    }

    function Pause(t: Turn, attempt: nat): Option<nat> {
      if t.hint.Some? then Some(Min(t.hint.value, setup.cap) + Nudge(t.rand)) else Backoff(t, attempt)
    }

    // A failed response's body may hold usage, which is reported before the outcome.
    method Account(t: Turn) returns (ok: bool)
      requires Valid() && (setup.policy <==> LogOf(trace).phase != Free)
      modifies this`trace
      ensures Settled()
              && LogOf(trace) == Over(Reported(LogOf(old(trace)), setup.policy && BodyUsage(t).Some?),
                                      setup.policy && ok)
      ensures ok <==>
              || !setup.policy
              || (t.finish.Accepted? && (t.body.Readable? && t.body.usage.Some? ==> t.body.usage.value.Accepted?))
      ensures trace == old(trace) + Settling(setup.policy, BodyUsage(t), t.finish)
    {
      if setup.policy && t.body.Readable? && t.body.usage.Some? {
        Note(UsageTold);
        if !t.body.usage.value.Accepted? {
          Drop();
          return false;
        }
      }
      ok := Finish(t.finish);
    }

    method RetryRefreshed()
      requires Settled() && !refreshed
      modifies this
      ensures Settled() && refreshed && LogOf(trace) == Tally(LogOf(old(trace)), Refreshed)
    {
      TraceStep(trace, Refreshed, setup.policy);
      refreshed, trace := true, trace + [Refreshed];
    }

    // A status that is neither a success nor about to be retried.
    method Give(t: Turn, attempt: nat) returns (v: Verdict)
      requires Settled() && t.reply.Response?
      modifies this
      ensures Settled() && v != Done(Err(Panic)) && (v.Done? ==> v.result.Err?)
      ensures LogOf(trace) == LogOf(old(trace)).(refreshes := LogOf(trace).refreshes)
      ensures v.Again? <==> attempt < setup.maxRetries && Rejects(setup, t) && !old(refreshed)
      ensures refreshed == (old(refreshed) || v.Again?)
      ensures v.Done? ==> v.result == Err(if Blameless(setup, t) then Upstream else Local)
    {
      if t.body.TooLarge? {
        return Done(Err(Local));
      }
      if setup.transport && Unauthorized(t.reply.status) {
        if t.refresh.RefreshTimedOut? || t.refresh.RefreshFailed? {
          return Done(Err(Local));
        }
        if t.refresh.Wanted? && !refreshed && attempt < setup.maxRetries {
          RetryRefreshed();
          return Again;
        }
      }
      return Done(Err(Upstream));
    }

    method Answer(t: Turn, attempt: nat) returns (v: Verdict)
      requires Valid() && LogOf(trace).phase == (if setup.policy then InFlight else Free) && t.reply.Response?
      modifies this
      ensures Valid() && Within(LogOf(old(trace)), LogOf(trace), v, setup)
              && LogOf(trace).sends == LogOf(old(trace)).sends
      ensures v.Again? ==> attempt < setup.maxRetries && (setup.policy ==> Tells(t))
      ensures v.Again? ==> Busy(t.reply.status) || (Rejects(setup, t) && !old(refreshed))
      ensures v == Done(Err(Panic)) || v.Again? || !(attempt < setup.maxRetries && (setup.policy ==> Tells(t))
                && (Busy(t.reply.status) || (Rejects(setup, t) && !old(refreshed))))
      ensures v.Done? && v.result.Ok? <==> Fine(t.reply.status) && (setup.policy ==> t.headers.Accepted?)
      ensures v.Done? && v.result.Ok? ==> v.result.value == t.reply.status
      ensures v == Done(Err(Panic)) ==> Pause(t, attempt).None?
      ensures refreshed == (old(refreshed) || (v.Again? && !Busy(t.reply.status)))
      ensures LogOf(trace).headers == LogOf(old(trace)).headers + if setup.policy then 1 else 0
      ensures v != Done(Err(Panic)) ==>
                LogOf(trace).usages == LogOf(old(trace)).usages
                  + if setup.policy && t.headers.Accepted? && !Fine(t.reply.status) && BodyUsage(t).Some? then 1 else 0
      ensures LogOf(trace).finishes == LogOf(old(trace)).finishes
                + if setup.policy && !Fine(t.reply.status) && Tells(t) && v != Done(Err(Panic)) then 1 else 0
      ensures v.Again? ==>
                Waited(LogOf(old(trace)), LogOf(trace), if Busy(t.reply.status) then Pause(t, attempt) else Some(0))
      ensures v.Done? && v.result.Err? && v != Done(Err(Panic)) ==>
                v.result == Err(if setup.policy && !Tells(t) then PolicyObservation
                                else if Blameless(setup, t) then Upstream else Local)
    {
      if setup.policy {
        Note(HeadersTold);
        if !t.headers.Accepted? {
          Drop();
          return Done(Err(PolicyObservation));
        }
      }
      if Success(t.reply.status) {
        return Done(Ok(t.reply.status));
      }
      v := Fault(t, attempt);
    }

    // A response that is no success, its headers told.
    method Fault(t: Turn, attempt: nat) returns (v: Verdict)
      requires Valid() && LogOf(trace).phase == (if setup.policy then InFlight else Free) && t.reply.Response?
      requires !Fine(t.reply.status) && (setup.policy ==> t.headers.Accepted?)
      modifies this
      ensures Settled() && LogOf(trace).sends == LogOf(old(trace)).sends
      ensures LogOf(trace).headers == LogOf(old(trace)).headers
      ensures LogOf(old(trace)).slept <= LogOf(trace).slept
              <= LogOf(old(trace)).slept + if v.Again? then setup.cap + 250 * MILLISECOND else 0
      ensures v.Again? ==> attempt < setup.maxRetries && (setup.policy ==> Tells(t))
      ensures v.Again? ==> Busy(t.reply.status) || (Rejects(setup, t) && !old(refreshed))
      ensures v == Done(Err(Panic)) || v.Again? || !(attempt < setup.maxRetries && (setup.policy ==> Tells(t))
                && (Busy(t.reply.status) || (Rejects(setup, t) && !old(refreshed))))
      ensures v.Done? ==> v.result.Err?
      ensures v == Done(Err(Panic)) ==> Pause(t, attempt).None?
      ensures refreshed == (old(refreshed) || (v.Again? && !Busy(t.reply.status)))
      ensures v != Done(Err(Panic)) ==>
                LogOf(trace).usages == LogOf(old(trace)).usages + if setup.policy && BodyUsage(t).Some? then 1 else 0
      ensures LogOf(trace).finishes == LogOf(old(trace)).finishes
                + if setup.policy && Tells(t) && v != Done(Err(Panic)) then 1 else 0
      ensures v.Again? ==>
                Waited(LogOf(old(trace)), LogOf(trace), if Busy(t.reply.status) then Pause(t, attempt) else Some(0))
      ensures v.Done? && v != Done(Err(Panic)) ==>
                v.result == Err(if setup.policy && !Tells(t) then PolicyObservation
                                else if Blameless(setup, t) then Upstream else Local)
    {
      var again := t.reply.status in RETRYABLE_STATUSES && attempt < setup.maxRetries;
      if again && Pause(t, attempt).None? {
        Drop();
        return Done(Err(Panic));
      }
      var ok := Account(t);
      if !ok {
        return Done(Err(PolicyObservation));
      }
      if again {
        PauseBound(t, attempt);
        v := Wait(Pause(t, attempt));
      } else {
        v := Give(t, attempt);
      }
    }

    lemma {:induction false} PauseBound(t: Turn, attempt: nat)
      ensures Backoff(t, attempt).Some? ==> Backoff(t, attempt).value <= setup.cap
      ensures Pause(t, attempt).Some? ==> Pause(t, attempt).value <= setup.cap + 250 * MILLISECOND
    {
      JitterWithin(BackoffBound(attempt, setup.base, setup.cap), t.rand);
    }

    lemma {:induction false} DrawsBelowTheEdge(t: Turn, attempt: nat)
      ensures Backoff(t, attempt).None? ==> setup.cap >= MAX_U64 * MILLISECOND
    {
      JitterWithin(BackoffBound(attempt, setup.base, setup.cap), t.rand);
      PanicsOnlyAtTheEdge(attempt, setup.base, setup.cap);
    }

    // The request is signed and sent, and its reply dealt with.
    method Exchange(t: Turn, attempt: nat) returns (v: Verdict)
      requires Valid() && LogOf(trace).phase == if setup.policy then Admitted else Free
      requires Admits(setup, t)
      modifies this
      ensures Valid() && Within(LogOf(old(trace)), LogOf(trace), v, setup)
      ensures Decides(setup, t, attempt, old(refreshed), v)
      ensures v == Done(Err(Panic)) ==> Backoff(t, attempt).None?
      ensures refreshed == (old(refreshed) || (v.Again? && RefreshHelps(setup, t)))
      ensures Counted(LogOf(old(trace)), LogOf(trace), setup, t, v)
      ensures v.Again? ==> Waited(LogOf(old(trace)), LogOf(trace), Due(t, attempt))
    {
      if !t.headersFit {
        Drop();
        return Done(Err(LocalTimeout));
      }
      if setup.transport && !t.signed {
        v := Unsent(t);
        return;
      }
      Note(Sent);
      if t.reply.Response? {
        v := Answer(t, attempt);
      } else {
        v := Unanswered(t, attempt);
      }
    }

    // No response came.
    method Unanswered(t: Turn, attempt: nat) returns (v: Verdict)
      requires Valid() && LogOf(trace).phase == (if setup.policy then InFlight else Free)
      requires Sends(setup, t) && !t.reply.Response?
      modifies this`trace
      ensures Settled() && Within(LogOf(old(trace)), LogOf(trace), v, setup)
              && LogOf(trace).sends == LogOf(old(trace)).sends
      ensures Decides(setup, t, attempt, refreshed, v)
      ensures v == Done(Err(Panic)) ==> Backoff(t, attempt).None?
      ensures LogOf(trace).finishes == LogOf(old(trace)).finishes + if setup.policy && t.finish.Accepted? then 1 else 0
      ensures LogOf(trace).headers == LogOf(old(trace)).headers && LogOf(trace).usages == LogOf(old(trace)).usages
      ensures v.Again? ==> Waited(LogOf(old(trace)), LogOf(trace), Backoff(t, attempt))
    {
      var ok := Finish(t.finish);
      if !ok {
        return Done(Err(PolicyObservation));
      }
      if attempt < setup.maxRetries && (t.reply.HeaderTimeout? || t.reply.retryable) {
        PauseBound(t, attempt);
        v := Wait(Backoff(t, attempt));
      } else {
        return Done(Err(if t.reply.HeaderTimeout? then LocalTimeout else Upstream));
      }
    }

    // A request that could not be signed used nothing, and the policy is told so.
    method Unsent(t: Turn) returns (v: Verdict)
      requires Valid() && LogOf(trace).phase == if setup.policy then Admitted else Free
      modifies this`trace
      ensures Settled()
              && LogOf(trace) == Over(Reported(LogOf(old(trace)), setup.policy),
                                      setup.policy && t.zeroUsage.Accepted? && t.finish.Accepted?)
      ensures trace == old(trace) + Settling(setup.policy, Some(t.zeroUsage), t.finish)
      ensures v == Done(Err(if setup.policy && !(t.zeroUsage.Accepted? && t.finish.Accepted?) then PolicyObservation
                            else Local))
    {
      if setup.policy {
        Note(UsageTold);
        if !t.zeroUsage.Accepted? {
          Drop();
          return Done(Err(PolicyObservation));
        }
      }
      var ok := Finish(t.finish);
      return Done(Err(if ok then Local else PolicyObservation));
    }

    method Admit(t: Turn) returns (refusal: Option<Failure>)
      requires Settled() && setup.policy
      modifies this`trace
      ensures Valid() && LogOf(trace) == LogOf(old(trace)).(phase := if refusal.None? then Admitted else Free)
      ensures refusal.None? <==> setup.target && t.acquisition.Granted? && t.activeAtSend
      ensures refusal.Some? ==>
                refusal.value == if !setup.target then Local
                                 else if t.acquisition.Refused? || t.acquisition == Late(true) then PolicyRefusal
                                 else LogicalTimeout
    {
      if !setup.target {
        return Some(Local);
      }
      match t.acquisition {
        case Refused => return Some(PolicyRefusal);
        case ExpiredBefore => return Some(LogicalTimeout);
        case Late(active) => return Some(if active then PolicyRefusal else LogicalTimeout);
        case ExpiredAfter =>
          Note(Acquired);
          Drop();
          return Some(LogicalTimeout);
        case Granted =>
          Note(Acquired);
          if !t.activeAtSend {
            Drop();
            return Some(LogicalTimeout);
          }
          return None;
      }
    }

    // What stops an iteration before it asks anyone anything.
    function Early(t: Turn): Option<Failure> {
      if !t.built then Some(Local)
      else if !t.totalFits then Some(LocalTimeout)
      else if setup.policy && !t.activeAtStart then Some(LogicalTimeout)
      else if !t.authorizationFits then Some(LocalTimeout)
      else None
    }

    // There is no authorization.
    method Unauthorize(t: Turn, attempt: nat) returns (v: Verdict)
      requires Settled() && Reaches(setup, t) && setup.transport && t.authorization.Failed?
      modifies this`trace
      ensures Settled() && Within(LogOf(old(trace)), LogOf(trace), v, setup)
      ensures Decides(setup, t, attempt, refreshed, v)
      ensures v == Done(Err(Panic)) ==> Backoff(t, attempt).None?
      ensures Counted(LogOf(old(trace)), LogOf(trace), setup, t, v)
      ensures v.Again? ==> Waited(LogOf(old(trace)), LogOf(trace), Due(t, attempt))
    {
      var status := t.authorization.status;
      if status.Some? && status.value in RETRYABLE_STATUSES && attempt < setup.maxRetries {
        PauseBound(t, attempt);
        v := Wait(Backoff(t, attempt));
      } else {
        return Done(Err(Local));
      }
    }

    // The policy admits the attempt, or refuses it.
    method Proceed(t: Turn, attempt: nat) returns (v: Verdict)
      requires Settled() && Reaches(setup, t) && (setup.transport ==> t.authorization.Ready?)
      modifies this
      ensures Valid() && Within(LogOf(old(trace)), LogOf(trace), v, setup)
      ensures Decides(setup, t, attempt, old(refreshed), v)
      ensures v == Done(Err(Panic)) ==> Backoff(t, attempt).None?
      ensures refreshed == (old(refreshed) || (v.Again? && RefreshHelps(setup, t)))
      ensures Counted(LogOf(old(trace)), LogOf(trace), setup, t, v)
      ensures v.Again? ==> Waited(LogOf(old(trace)), LogOf(trace), Due(t, attempt))
    {
      if setup.policy {
        var refusal := Admit(t);
        if refusal.Some? {
          return Done(Err(refusal.value));
        }
      }
      v := Exchange(t, attempt);
    }

    method Iterate(t: Turn, attempt: nat) returns (v: Verdict)
      requires Settled()
      modifies this
      ensures Valid() && Within(LogOf(old(trace)), LogOf(trace), v, setup)
      ensures Decides(setup, t, attempt, old(refreshed), v)
      ensures v == Done(Err(Panic)) ==> setup.cap >= MAX_U64 * MILLISECOND
      ensures refreshed == (old(refreshed) || (v.Again? && RefreshHelps(setup, t)))
      ensures Counted(LogOf(old(trace)), LogOf(trace), setup, t, v)
      ensures v.Again? ==> Waited(LogOf(old(trace)), LogOf(trace), Due(t, attempt))
    {
      DrawsBelowTheEdge(t, attempt);
      var early := Early(t);
      if early.Some? {
        return Done(Err(early.value));
      }
      if setup.transport && t.authorization.Failed? {
        v := Unauthorize(t, attempt);
      } else {
        v := Proceed(t, attempt);
      }
    }

    // What is said of the end of the loop.
    ghost predicate Concludes(world: nat -> Turn, last: nat, result: Result<nat, Failure>)
      reads this`trace
    {
      && LogOf(trace).phase == (if setup.policy && result.Ok? then InFlight else Free)
      && (result.Ok? <==>
            Sends(setup, world(last)) && world(last).reply.Response? && Fine(world(last).reply.status)
            && (setup.policy ==> world(last).headers.Accepted?))
      && (result.Ok? ==> result.value == world(last).reply.status)
      && (result == Err(Panic) ==> setup.cap >= MAX_U64 * MILLISECOND)
      && Explains(setup, world(last), Done(result))
    }

    // One round of the loop.
    method Round(world: nat -> Turn, last: nat, ghost waits: seq<nat>) returns (v: Verdict, ghost longer: seq<nat>)
      requires Settled() && last <= setup.maxRetries
      requires Repeated(setup, world, last, waits, LogOf(trace), refreshed)
      modifies this
      ensures Valid()
      ensures LogOf(trace).slept <= LogOf(old(trace)).slept + if v.Again? then setup.cap + 250 * MILLISECOND else 0
      ensures v.Again? ==>
                last < setup.maxRetries && Settled()
                && Repeated(setup, world, last + 1, longer, LogOf(trace), refreshed)
      ensures v.Done? ==>
                Ran(setup, world, last, waits, LogOf(trace), v.result) && Concludes(world, last, v.result)
    {
      ghost var before, was := LogOf(trace), refreshed;
      v := Iterate(world(last), last);
      longer := waits;
      if v.Done? {
        RepeatedEnds(setup, world, last, waits, before, was, LogOf(trace), v.result);
      } else {
        ghost var wait := LogOf(trace).slept - before.slept;
        DueExactly(world(last), last);
        RepeatedStep(setup, world, last, waits, before, was, wait, LogOf(trace));
        longer := waits + [wait];
      }
    }

    method Loop(world: nat -> Turn)
        returns (result: Result<nat, Failure>, last: nat, ghost waits: seq<nat>)
      requires Settled() && trace == [] && !refreshed
      modifies this
      ensures Lawful(trace, setup.policy) && Ran(setup, world, last, waits, LogOf(trace), result)
      ensures LogOf(trace).slept <= Total(setup.maxRetries, setup.cap + 250 * MILLISECOND)
      ensures Concludes(world, last, result)
    {
      last, waits := 0, [];
      ghost var step := setup.cap + 250 * MILLISECOND;
      while last <= setup.maxRetries
        invariant last <= setup.maxRetries && Settled()
        invariant Repeated(setup, world, last, waits, LogOf(trace), refreshed)
        invariant LogOf(trace).slept <= Total(last, step)
      {
        TotalGrows(last, setup.maxRetries, step);
        var v;
        ghost var longer;
        v, longer := Round(world, last, waits);
        if v.Done? {
          return v.result, last, waits;
        }
        waits := longer;
        last := last + 1;
      }
      assert false;
    }

    /**
     The whole loop, for every course the world may take. It ends within one iteration more than the allowed retries,
     and never past its last one; each iteration but the last was worth repeating, and the last was not unless none
     was left; every wait was the one due.
     */
    method Run(world: nat -> Turn)
        returns (result: Result<nat, Failure>, last: nat, ghost waits: seq<nat>)
      requires Settled() && trace == [] && !refreshed
      modifies this
      ensures Lawful(trace, setup.policy) && Ran(setup, world, last, waits, LogOf(trace), result)
      ensures LogOf(trace).slept <= setup.maxRetries * (setup.cap + 250 * MILLISECOND)
      ensures Concludes(world, last, result)
    {
      result, last, waits := Loop(world);
      TotalIsProduct(setup.maxRetries, setup.cap + 250 * MILLISECOND);
    }
  }

  /** There is no draw exactly when the exponential has saturated and the cap leaves that saturated wait alone. */
  lemma {:induction false} PanicsOnlyAtTheEdge(attempt: nat, base: nat, cap: nat)
    ensures Millis(BackoffBound(attempt, base, cap)) == MAX_U64 <==>
            Millis(base) * Shift(attempt) >= MAX_U64 && cap >= MAX_U64 * MILLISECOND
  {
  }

  lemma {:induction false} PowerAdds(a: nat, b: nat)
    ensures Power(a + b) == Power(a) * Power(b)
    decreases a
  {
    if a > 0 {
      PowerAdds(a - 1, b);
      assert Power(a + b) == 2 * Power(a - 1 + b);
    }
  }

  lemma {:induction false} PowerSquares(n: nat, root: nat)
    requires Power(n) == root
    ensures Power(2 * n) == root * root
  {
    PowerAdds(n, n);
  }

  lemma {:induction false} PowerOfWord()
    ensures Power(64) == 0x1_0000_0000_0000_0000
  {
    assert Power(1) == 2;
    PowerSquares(1, 2);
    PowerSquares(2, 4);
    PowerSquares(4, 16);
    PowerSquares(8, 256);
    PowerSquares(16, 65536);
    PowerSquares(32, 4294967296);
  }

  lemma {:induction false} PowerOutgrows(n: nat)
    requires n >= 64
    ensures Power(n) > MAX_U64
    decreases n
  {
    if n > 64 {
      PowerOutgrows(n - 1);
    } else {
      PowerOfWord();
    }
  }

  lemma {:induction false} CappedMillis(most: nat, cap: nat)
    requires most <= MAX_U64
    ensures IsLeast(Millis(Min(most * MILLISECOND, cap)), most, cap / 1_000_000, MAX_U64)
  {
  }

  // Within 64 bits the shift's own limit does not show.
  lemma {:induction false} ShiftIsPower(unit: nat, attempt: nat)
    ensures Min(unit * Shift(attempt), MAX_U64) == Min(unit * Power(attempt), MAX_U64)
  {
    if attempt >= 64 && unit > 0 {
      PowerOutgrows(attempt);
      Product(unit, Power(attempt));
      Product(unit, MAX_U64);
    }
  }

  /** The backoff is the draw the setup asks for, whatever the sizes. */
  lemma {:induction false} BackoffExactly(s: Setup, attempt: nat, rand: nat)
    ensures IsDraw(s, attempt, rand, FullJitter(BackoffBound(attempt, s.base, s.cap), rand))
  {
    ShiftIsPower(Millis(s.base), attempt);
    CappedMillis(Min(Millis(s.base) * Shift(attempt), MAX_U64), s.cap);
    assert AtMostMillis(s, attempt, Millis(BackoffBound(attempt, s.base, s.cap)));
  }

  lemma {:induction false} Product(ms: nat, power: nat)
    requires ms > 0
    ensures ms * power >= power
  {
  }

  /** The bound is the capped exponential exactly as long as that fits in 64 bits or the cap does. */
  lemma {:induction false} BackoffIsExponential(attempt: nat, base: nat, cap: nat)
    ensures BackoffBound(attempt, base, cap) == Min(Millis(base) * Power(attempt) * MILLISECOND, cap) <==>
            Millis(base) * Power(attempt) <= MAX_U64 || cap <= MAX_U64 * MILLISECOND
  {
    var ms := Millis(base);
    if attempt >= 64 && ms > 0 {
      PowerOutgrows(attempt);
      Product(ms, Power(attempt));
      Product(ms, MAX_U64);
    }
  }

  // The default base, a cap of whole seconds and enough attempts: there is nothing to draw from.
  lemma {:induction false} NoDraw(rand: nat)
    ensures FullJitter(BackoffBound(64, 1000 * MILLISECOND, 18_446_744_073_709_552_000 * MILLISECOND), rand).None?
  {
    PanicsOnlyAtTheEdge(64, 1000 * MILLISECOND, 18_446_744_073_709_552_000 * MILLISECOND);
    JitterWithin(BackoffBound(64, 1000 * MILLISECOND, 18_446_744_073_709_552_000 * MILLISECOND), rand);
  }

  // ---------------------------------------------------------------- what a lawful trace means

  predicate Settles(e: Event) {
    e.Finished? || e.Abandoned?
  }

  // An admission that has been neither finished nor abandoned.
  ghost predicate Open(tr: seq<Event>) {
    exists i :: 0 <= i < |tr| && tr[i].Acquired? && forall k :: i < k < |tr| ==> !Settles(tr[k])
  }

  // One whose request has not been sent either.
  ghost predicate Unused(tr: seq<Event>) {
    exists i :: 0 <= i < |tr| && tr[i].Acquired? && forall k :: i < k < |tr| ==> !Settles(tr[k]) && !tr[k].Sent?
  }

  lemma {:induction false} OpenMeaning(tr: seq<Event>)
    requires Lawful(tr, true)
    ensures LogOf(tr).phase != Free <==> Open(tr)
    decreases |tr|
  {
    if tr != [] {
      var n := |tr| - 1;
      var before := tr[..n];
      OpenMeaning(before);
      assert forall i :: 0 <= i < n ==> before[i] == tr[i];
      if Open(tr) && !tr[n].Acquired? {
        var i :| 0 <= i < |tr| && tr[i].Acquired? && forall k :: i < k < |tr| ==> !Settles(tr[k]);
        assert before[i].Acquired? && forall k :: i < k < n ==> !Settles(before[k]);
      }
    }
  }

  lemma {:induction false} UnusedMeaning(tr: seq<Event>)
    requires Lawful(tr, true)
    ensures LogOf(tr).phase == Admitted <==> Unused(tr)
    decreases |tr|
  {
    if tr != [] {
      var n := |tr| - 1;
      var before := tr[..n];
      UnusedMeaning(before);
      assert forall i :: 0 <= i < n ==> before[i] == tr[i];
      if Unused(tr) && !tr[n].Acquired? {
        var i :| 0 <= i < |tr| && tr[i].Acquired? && forall k :: i < k < |tr| ==> !Settles(tr[k]) && !tr[k].Sent?;
        assert before[i].Acquired? && forall k :: i < k < n ==> !Settles(before[k]) && !before[k].Sent?;
      }
    }
  }

  lemma {:induction false} LawfulPrefix(tr: seq<Event>, policy: bool, j: nat)
    requires Lawful(tr, policy) && j < |tr|
    ensures Lawful(tr[..j], policy) && Allowed(LogOf(tr[..j]), tr[j], policy)
    decreases |tr|
  {
    var n := |tr| - 1;
    if j < n {
      LawfulPrefix(tr[..n], policy, j);
      assert tr[..n][..j] == tr[..j];
    }
  }

  /**
   With a policy, every request uses an admission of its own, and no wait, refresh or admission finds one still open.
   */
  lemma {:induction false} LawfulMeaning(tr: seq<Event>, j: nat)
    requires Lawful(tr, true) && j < |tr|
    ensures tr[j].Sent? ==> Unused(tr[..j])
    ensures tr[j].Acquired? || tr[j].Slept? || tr[j].Refreshed? ==> !Open(tr[..j])
    ensures Settles(tr[j]) || tr[j].HeadersTold? || tr[j].UsageTold? ==> Open(tr[..j])
  {
    LawfulPrefix(tr, true, j);
    OpenMeaning(tr[..j]);
    UnusedMeaning(tr[..j]);
  }
}

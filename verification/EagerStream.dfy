/**
 The stream handed to a caller: a producer task, a channel that holds one chunk, a slot for the terminal error, and a
 receiver that is polled. Every interleaving of the two while the receiver is kept.
 */
module EagerStream {
  import opened Common

  datatype Yield = Chunk(chunk: nat) | Failure(error: nat) | End

  // `last` says that the source has ended.
  datatype Producer =
    | Polling                               // waiting for the source
    | Handling(last: bool)                  // a frame that is not blank, or the end, is being dealt with
    | Sending(last: bool, chunk: nat)       // waiting for room in the channel
    | Closing                               // the terminal error is set, the sender not yet dropped
    | Ended                                 // the sender is dropped

  datatype State = State(
    now: nat,
    producer: Producer,
    pollStarted: nat,
    remaining: nat,
    channel: Option<nat>,
    terminal: Option<nat>,
    emitted: bool,
    output: seq<Yield>,
    sent: seq<nat>,
    failure: Option<nat>)

  function Start(allowance: nat): State {
    State(0, Polling, 0, allowance, None, None, false, [], [], None)
  }

  datatype Action =
    | Pass(time: nat)            // time goes by, whatever the producer is doing
    | Arrive(blank: bool)
    | SourceEnds
    | IdleTimeout(error: nat)
    | Continue
    | Offer(chunk: nat)
    | Deliver
    | Fail(error: nat)
    | Complete
    | DropSender
    | Poll

  predicate Enabled(s: State, a: Action) {
    match a
    case Pass(_) => true
    case Arrive(_) => s.producer == Polling
    case SourceEnds => s.producer == Polling
    case IdleTimeout(_) => s.producer == Polling && SaturatingSub(s.now, s.pollStarted) >= s.remaining
    case Continue => s.producer == Handling(false)
    case Offer(_) => s.producer.Handling?
    case Deliver => s.producer.Sending? && s.channel.None?
    case Fail(_) => s.producer == Polling || s.producer.Handling? || s.producer.Sending?
    case Complete => s.producer.Handling?
    case DropSender => s.producer == Closing
    case Poll => s.channel.Some? || s.producer == Ended
  }

  function Fails(s: State, error: nat): State {
    s.(producer := Closing, terminal := Some(error), failure := Some(error))
  }

  // What is left of the allowance once the source has answered.
  function Charged(s: State): nat {
    SaturatingSub(s.remaining, SaturatingSub(s.now, s.pollStarted))
  }

  // The top of the producer's loop.
  function PollsAgain(s: State): State {
    s.(producer := Polling, pollStarted := s.now)
  }

  function Polled(s: State): State
    requires Enabled(s, Poll)
  {
    if s.channel.Some? then s.(channel := None, output := s.output + [Chunk(s.channel.value)])
    else if !s.emitted then
      s.(emitted := true, terminal := None,
         output := s.output + [if s.terminal.Some? then Failure(s.terminal.value) else End])
    else s.(output := s.output + [End])
  }

  function Step(s: State, allowance: nat, a: Action): State
    requires Enabled(s, a)
  {
    match a
    case Pass(time) => s.(now := s.now + time)
    case Arrive(blank) =>
      if blank then PollsAgain(s.(remaining := Charged(s))) else s.(producer := Handling(false), remaining := allowance)
    case SourceEnds => s.(producer := Handling(true), remaining := Charged(s))
    case IdleTimeout(error) => Fails(s, error)
    case Continue => PollsAgain(s)
    case Offer(chunk) => s.(producer := Sending(s.producer.last, chunk))
    case Deliver =>
      s.(producer := Handling(s.producer.last), channel := Some(s.producer.chunk), sent := s.sent + [s.producer.chunk])
    case Fail(error) => Fails(s, error)
    case Complete => s.(producer := Ended)
    case DropSender => s.(producer := Ended)
    case Poll => Polled(s)
  }

  // ---------------------------------------------------------------- what every step keeps

  // How many chunks the receiver has yielded.
  function Yielded(s: State): int {
    if s.emitted then |s.sent| else |s.output|
  }

  /** The chunks sent, in order and none missing, then the error if there was one, then the end for ever. */
  ghost predicate InOrder(s: State) {
    && 0 <= Yielded(s) <= |s.output|
    && Yielded(s) + (if s.channel.Some? then 1 else 0) == |s.sent|
    && (forall i :: 0 <= i < Yielded(s) ==> s.output[i] == Chunk(s.sent[i]))
    && (s.channel.Some? ==> s.channel.value == s.sent[|s.sent| - 1])
    && (s.emitted ==>
          && |s.output| > |s.sent|
          && s.output[|s.sent|] == if s.failure.Some? then Failure(s.failure.value) else End)
    && (forall i :: |s.sent| < i < |s.output| ==> s.output[i] == End)
  }

  predicate Slots(s: State) {
    && (s.emitted ==> s.producer == Ended)
    && (s.producer == Closing ==> s.failure.Some?)
    && (s.failure.Some? ==> s.producer == Closing || s.producer == Ended)
    && (!s.emitted ==> s.terminal == s.failure)
  }

  lemma {:induction false} OrderStep(s: State, allowance: nat, a: Action)
    requires InOrder(s) && Slots(s) && Enabled(s, a)
    ensures InOrder(Step(s, allowance, a)) && Slots(Step(s, allowance, a))
  {
  }

  // ---------------------------------------------------------------- every run

  predicate Possible(run: seq<Action>, allowance: nat)
    decreases |run|, 0
  {
    run != [] ==> Possible(run[..|run| - 1], allowance) && Enabled(After(run[..|run| - 1], allowance), run[|run| - 1])
  }

  function After(run: seq<Action>, allowance: nat): State
    requires Possible(run, allowance)
    decreases |run|, 1
  {
    if run == [] then Start(allowance) else Step(After(run[..|run| - 1], allowance), allowance, run[|run| - 1])
  }

  lemma {:induction false} RunKeeps(run: seq<Action>, allowance: nat)
    requires Possible(run, allowance)
    ensures InOrder(After(run, allowance)) && Slots(After(run, allowance))
    decreases |run|
  {
    if run != [] {
      var before := run[..|run| - 1];
      RunKeeps(before, allowance);
      OrderStep(After(before, allowance), allowance, run[|run| - 1]);
    }
  }

  /** What a caller sees of any run. */
  lemma {:induction false} ReceiverSees(run: seq<Action>, allowance: nat, i: nat)
    requires Possible(run, allowance) && i < |After(run, allowance).output|
    ensures var s := After(run, allowance);
            s.output[i] == if i < |s.sent| then Chunk(s.sent[i])
                           else if i == |s.sent| && s.failure.Some? then Failure(s.failure.value) else End
    ensures var s := After(run, allowance); !s.output[i].Chunk? ==> s.producer == Ended
  {
    RunKeeps(run, allowance);
  }

  // ---------------------------------------------------------------- what the run itself says

  // The chunks offered, in order.
  function Offers(run: seq<Action>): seq<nat> {
    if run == [] then []
    else
      var before := Offers(run[..|run| - 1]);
      match run[|run| - 1]
      case Offer(chunk) => before + [chunk]
      case _ => before
  }

  // The errors the producer stopped with.
  function Errors(run: seq<Action>): seq<nat> {
    if run == [] then []
    else
      var before := Errors(run[..|run| - 1]);
      match run[|run| - 1]
      case Fail(error) => before + [error]
      case IdleTimeout(error) => before + [error]
      case _ => before
  }

  function Deliveries(run: seq<Action>): nat {
    if run == [] then 0 else Deliveries(run[..|run| - 1]) + if run[|run| - 1] == Deliver then 1 else 0
  }

  function Polls(run: seq<Action>): nat {
    if run == [] then 0 else Polls(run[..|run| - 1]) + if run[|run| - 1] == Poll then 1 else 0
  }

  // What a state knows of the run that led to it.
  predicate Recounts(s: State, offers: seq<nat>, errors: seq<nat>, deliveries: nat, polls: nat) {
    && |s.output| == polls && |s.sent| == deliveries
    && s.sent <= offers && |offers| <= |s.sent| + 1
    && (s.producer == Polling || s.producer.Handling? ==> offers == s.sent)
    && (s.producer.Sending? ==> offers == s.sent + [s.producer.chunk])
    && (if s.failure.Some? then errors == [s.failure.value] else errors == [])
  }

  lemma {:induction false} RecountStep(
      s: State, allowance: nat, a: Action, offers: seq<nat>, errors: seq<nat>, deliveries: nat, polls: nat)
    requires Enabled(s, a) && Slots(s) && Recounts(s, offers, errors, deliveries, polls)
    ensures Recounts(Step(s, allowance, a),
                     if a.Offer? then offers + [a.chunk] else offers,
                     if a.Fail? || a.IdleTimeout? then errors + [a.error] else errors,
                     deliveries + (if a.Deliver? then 1 else 0), polls + if a.Poll? then 1 else 0)
  {
  }

  lemma {:induction false} RunRecounts(run: seq<Action>, allowance: nat)
    requires Possible(run, allowance)
    ensures Recounts(After(run, allowance), Offers(run), Errors(run), Deliveries(run), Polls(run))
    decreases |run|
  {
    if run != [] {
      var before := run[..|run| - 1];
      RunRecounts(before, allowance);
      RunKeeps(before, allowance);
      RecountStep(After(before, allowance), allowance, run[|run| - 1], Offers(before), Errors(before),
                  Deliveries(before), Polls(before));
    }
  }

  /**
   Every poll yields something: the chunks that were offered and delivered, in the order they were offered; then the one
   error the producer stopped with, if any; then the end for ever.
   */
  lemma {:induction false} ReceiverSeesTheRun(run: seq<Action>, allowance: nat, i: nat)
    requires Possible(run, allowance) && i < Polls(run)
    ensures |After(run, allowance).output| == Polls(run) && Deliveries(run) <= |Offers(run)| && |Errors(run)| <= 1
    ensures After(run, allowance).output[i]
            == if i < Deliveries(run) then Chunk(Offers(run)[i])
               else if i == Deliveries(run) && Errors(run) != [] then Failure(Errors(run)[0]) else End
  {
    RunRecounts(run, allowance);
    ReceiverSees(run, allowance, i);
  }

  // ---------------------------------------------------------------- where the time goes

  datatype Share = ForSource | ForRoom | AtWork | Over

  function ShareOf(p: Producer): Share {
    match p
    case Polling => ForSource
    case Sending(_, _) => ForRoom
    case Handling(_) => AtWork
    case _ => Over
  }

  // The time a run spends in one share.
  function Spent(run: seq<Action>, allowance: nat, share: Share): nat
    requires Possible(run, allowance)
  {
    if run == [] then 0
    else
      var before, a := run[..|run| - 1], run[|run| - 1];
      Spent(before, allowance, share)
      + if a.Pass? && ShareOf(After(before, allowance).producer) == share then a.time else 0
  }

  // The time spent waiting for the source since the last frame that was not blank.
  function Idle(run: seq<Action>, allowance: nat): nat
    requires Possible(run, allowance)
  {
    if run == [] then 0
    else
      var before, a := run[..|run| - 1], run[|run| - 1];
      if a.Arrive? && !a.blank then 0
      else Idle(before, allowance) + if a.Pass? && After(before, allowance).producer == Polling then a.time else 0
  }

  function Passed(a: Action): nat {
    if a.Pass? then a.time else 0
  }

  lemma {:induction false} NowStep(s: State, allowance: nat, a: Action)
    requires Enabled(s, a)
    ensures Step(s, allowance, a).now == s.now + Passed(a)
  {
  }

  // One action's time goes to one share.
  lemma {:induction false} SpentStep(run: seq<Action>, allowance: nat, share: Share)
    requires Possible(run, allowance) && run != []
    ensures var before, a := run[..|run| - 1], run[|run| - 1];
            Spent(run, allowance, share)
            == Spent(before, allowance, share)
               + if ShareOf(After(before, allowance).producer) == share then Passed(a) else 0
  {
  }

  /**
   The clock's whole time is split among waiting for the source, waiting for the caller, work, and what follows the
   end.
   */
  lemma {:induction false} TimeIsShared(run: seq<Action>, allowance: nat)
    requires Possible(run, allowance)
    ensures After(run, allowance).now
            == Spent(run, allowance, ForSource) + Spent(run, allowance, ForRoom)
               + Spent(run, allowance, AtWork) + Spent(run, allowance, Over)
    decreases |run|
  {
    if run != [] {
      var before := run[..|run| - 1];
      TimeIsShared(before, allowance);
      NowStep(After(before, allowance), allowance, run[|run| - 1]);
      SpentStep(run, allowance, ForSource);
      SpentStep(run, allowance, ForRoom);
      SpentStep(run, allowance, AtWork);
      SpentStep(run, allowance, Over);
    }
  }

  // What the producer's two variables say about the idle time.
  predicate Clocked(s: State, allowance: nat, idle: nat) {
    if s.producer == Polling then
      && s.pollStarted <= s.now <= s.pollStarted + idle
      && s.remaining == SaturatingSub(allowance, idle - (s.now - s.pollStarted))
    else (s.producer.Handling? || s.producer.Sending?) && !s.producer.last ==> idle == 0 && s.remaining == allowance
  }

  lemma {:induction false} ClockStep(s: State, allowance: nat, a: Action, idle: nat)
    requires Enabled(s, a) && Clocked(s, allowance, idle)
    ensures Clocked(Step(s, allowance, a), allowance,
                    if a.Arrive? && !a.blank then 0
                    else idle + if a.Pass? && s.producer == Polling then a.time else 0)
  {
  }

  lemma {:induction false} RunIsClocked(run: seq<Action>, allowance: nat)
    requires Possible(run, allowance)
    ensures Clocked(After(run, allowance), allowance, Idle(run, allowance))
    decreases |run|
  {
    if run != [] {
      var before := run[..|run| - 1];
      RunIsClocked(before, allowance);
      ClockStep(After(before, allowance), allowance, run[|run| - 1], Idle(before, allowance));
    }
  }

  /**
   A polling producer can idle out exactly when the time it waited for the source since the last real frame reaches the
   allowance. The time it was blocked on the caller or at work has no part in it.
   */
  lemma {:induction false} IdleIsTheSources(run: seq<Action>, allowance: nat, error: nat)
    requires Possible(run, allowance) && After(run, allowance).producer == Polling
    ensures Enabled(After(run, allowance), IdleTimeout(error)) <==> Idle(run, allowance) >= allowance
  {
    RunIsClocked(run, allowance);
  }

  lemma {:induction false} Take(run: seq<Action>, allowance: nat, a: Action) returns (next: seq<Action>)
    requires Possible(run, allowance) && Enabled(After(run, allowance), a)
    ensures Possible(next, allowance) && After(next, allowance) == Step(After(run, allowance), allowance, a)
    ensures forall share ::
              Spent(next, allowance, share)
              == Spent(run, allowance, share)
                 + if ShareOf(After(run, allowance).producer) == share then Passed(a) else 0
  {
    next := run + [a];
    assert next[..|run|] == run;
  }

  // A producer blocked on its caller for any time at all goes back to a source it may wait for in full.
  lemma {:induction false} BlockedForAges(allowance: nat, blocked: nat)
    ensures exists run ::
              && Possible(run, allowance) && Spent(run, allowance, ForRoom) == blocked
              && After(run, allowance).producer == Polling && Charged(After(run, allowance)) == allowance
  {
    var run := Take([], allowance, Arrive(false));
    run := Take(run, allowance, Offer(0));
    run := Take(run, allowance, Pass(blocked));
    run := Take(run, allowance, Deliver);
    run := Take(run, allowance, Continue);
    assert Spent(run, allowance, ForRoom) == blocked && Charged(After(run, allowance)) == allowance;
  }
}

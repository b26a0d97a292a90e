/** What the fallback chain does, said of its trace outcome by outcome, without the functions its steps are made of. */
module FallbackMeaning {
  import opened Common
  import opened Fallback
  import Breaker

  // A failure that is worth another attempt.
  predicate WorthRetrying(error: Breaker.Error, statuses: set<nat>) {
    error == Breaker.Http || (error.Provider? && error.status in statuses)
  }

  // The chain goes on after these; after all others it ends.
  predicate GoesOn(outcome: Outcome, statuses: set<nat>) {
    || outcome.Upstream? || outcome == Local || outcome == ProviderLimit
    || (outcome.LocalTimeout? && WorthRetrying(outcome.error, statuses))
  }

  /** Which outcomes end the chain and with which answer, which refuse the provider, and which are tried again. */
  lemma {:induction false} OutcomeMeaning(outcome: Outcome, statuses: set<nat>)
    ensures Final(outcome, statuses) <==> !GoesOn(outcome, statuses)
    ensures outcome.Completed? ==> !GoesOn(outcome, statuses)
    ensures Decided(true, outcome, statuses)
            == match outcome
               case Completed(value) => Return(Value(value))
               case Upstream(_) => MoveOn
               case Local => MoveOn
               case LocalTimeout(error) =>
                 if error == Breaker.Http || (error.Provider? && error.status in statuses) then MoveOn
                 else Return(Failed(outcome))
               case LogicalTimeout => Return(Failed(LogicalTimeout))
               case ProviderLimit => Refused
               case OtherRefusal => Return(Failed(OtherRefusal))
               case Observation => Return(Failed(Observation))
    ensures Decided(false, outcome, statuses) == MoveOn
    ensures Retries(true, outcome, statuses) <==> outcome.Upstream? && WorthRetrying(outcome.error, statuses)
  {
  }

  lemma {:induction false} RetriedMeaning(world: (nat, nat) -> Moment, entry: nat, n: nat, statuses: set<nat>)
    ensures RetriedBefore(world, entry, n, statuses) <==>
            forall k :: 0 <= k < n ==>
              world(entry, k).outcome.Upstream? && WorthRetrying(world(entry, k).outcome.error, statuses)
    decreases n
  {
    if n > 0 {
      RetriedMeaning(world, entry, n - 1, statuses);
    }
  }

  /** The first wait is the configured one, and each later one twice the one before. */
  lemma {:induction false} WaitsDouble(first: nat, n: nat)
    ensures |Doubling(first, n)| == n && (n > 0 ==> Doubling(first, n)[0] == first)
    ensures forall k :: 0 <= k && k + 1 < n ==> Doubling(first, n)[k + 1] == 2 * Doubling(first, n)[k]
    decreases n
  {
    if n > 0 {
      WaitsDouble(first, n - 1);
      if n > 1 {
        assert Doubling(first, n)[n - 1] == 2 * Doubled(first, n - 2);
        assert Doubling(first, n)[n - 2] == Doubling(first, n - 1)[n - 2] == Doubled(first, n - 2);
      }
    }
  }

  // ---------------------------------------------------------------- the end

  ghost predicate Ended(tr: seq<Event>, statuses: set<nat>, i: nat) {
    i < |tr| && tr[i].Dispatched? && !GoesOn(tr[i].outcome, statuses)
  }

  lemma {:induction false} EndedIsFinal(tr: seq<Event>, statuses: set<nat>)
    ensures WasFinal(tr, statuses) <==> exists i: nat :: Ended(tr, statuses, i)
  {
    forall i: nat | i < |tr| && tr[i].Dispatched? ensures Final(tr[i].outcome, statuses) <==> Ended(tr, statuses, i) {
      OutcomeMeaning(tr[i].outcome, statuses);
    }
    if WasFinal(tr, statuses) {
      var i :| 0 <= i < |tr| && tr[i].Dispatched? && Final(tr[i].outcome, statuses);
      assert Ended(tr, statuses, i);
    }
  }

  /** After an outcome that ends the chain nobody is asked, nothing is dispatched and nothing waited for. */
  lemma {:induction false} NothingAfterTheEnd(tr: seq<Event>, statuses: set<nat>, i: nat, j: nat)
    requires Lawful(tr, statuses) && i < j < |tr| && tr[i].Dispatched?
    requires tr[j].Asked? || tr[j].Dispatched? || tr[j].Slept?
    ensures GoesOn(tr[i].outcome, statuses)
  {
    LawfulMeaning(tr, statuses, j);
    EndedIsFinal(tr[..j], statuses);
    assert Ended(tr[..j], statuses, i) || GoesOn(tr[i].outcome, statuses);
  }

  // ---------------------------------------------------------------- what the breaker is told

  // The health an outcome speaks of.
  predicate Speaks(outcome: Outcome, health: Result<(), Breaker.Error>) {
    (outcome.Completed? && health == Ok(())) || (outcome.Upstream? && health == Err(outcome.error))
  }

  ghost predicate Unspoken(tr: seq<Event>, i: nat, n: nat, provider: string, health: Result<(), Breaker.Error>) {
    && i < n <= |tr| && tr[i].Dispatched? && tr[i].provider == provider && Speaks(tr[i].outcome, health)
    && forall k :: i < k < n ==> tr[k].Others?
  }

  lemma {:induction false} OwedMeaning(
      tr: seq<Event>, statuses: set<nat>, provider: string, health: Result<(), Breaker.Error>)
    requires Lawful(tr, statuses)
    ensures PastOf(tr, statuses).owed == Some((provider, health)) <==>
            exists i: nat :: Unspoken(tr, i, |tr|, provider, health)
    decreases |tr|
  {
    if tr != [] {
      var n := |tr| - 1;
      var front, e := tr[..n], tr[n];
      assert LawfulWith(front, e, statuses) && PastOf(tr, statuses) == PastWith(front, e, statuses);
      OwedMeaning(front, statuses, provider, health);
      assert forall i :: 0 <= i < n ==> front[i] == tr[i];
      if e.Others? {
        if i: nat :| Unspoken(front, i, n, provider, health) {
          assert Unspoken(tr, i, |tr|, provider, health);
        }
        if i: nat :| Unspoken(tr, i, |tr|, provider, health) {
          assert Unspoken(front, i, n, provider, health);
        }
      } else if e.Dispatched? {
        assert Speaks(e.outcome, health) && e.provider == provider <==> Unspoken(tr, n, |tr|, provider, health);
        assert BreakerOutcome(e.outcome) == Some(health) <==> Speaks(e.outcome, health);
      } else {
        GrantedMeaning(front, statuses);
      }
    }
  }

  /** The breaker is told of completions and upstream failures, of each once and of nothing else, before all else. */
  lemma {:induction false} ToldMeaning(tr: seq<Event>, statuses: set<nat>, j: nat)
    requires Lawful(tr, statuses) && j < |tr|
    ensures tr[j].Told? ==> exists i: nat :: Unspoken(tr, i, j, tr[j].provider, tr[j].health)
    ensures tr[j].Asked? || tr[j].Slept? ==> !exists i: nat, p, h :: Unspoken(tr, i, j, p, h)
  {
    LawfulPrefix(tr, statuses, j);
    assert forall k :: 0 <= k < j ==> tr[..j][k] == tr[k];
    if tr[j].Told? {
      OwedMeaning(tr[..j], statuses, tr[j].provider, tr[j].health);
      var i: nat :| Unspoken(tr[..j], i, j, tr[j].provider, tr[j].health);
      assert Unspoken(tr, i, j, tr[j].provider, tr[j].health);
    }
    if tr[j].Asked? || tr[j].Slept? {
      forall i: nat, p, h ensures !Unspoken(tr, i, j, p, h) {
        OwedMeaning(tr[..j], statuses, p, h);
        if Unspoken(tr, i, j, p, h) {
          assert Unspoken(tr[..j], i, j, p, h);
        }
      }
    }
  }

  // ---------------------------------------------------------------- what the chain knows

  ghost predicate LastRefusal(tr: seq<Event>, i: nat) {
    && i < |tr| && tr[i].Dispatched? && tr[i].outcome == ProviderLimit
    && forall k :: i < k < |tr| && tr[k].Dispatched? ==> tr[k].outcome != ProviderLimit
  }

  ghost predicate WasAsked(tr: seq<Event>, entry: nat) {
    exists i :: 0 <= i < |tr| && tr[i].Asked? && tr[i].entry == entry
  }

  // What was dispatched, in order.
  function Dispatches(tr: seq<Event>): seq<(nat, Outcome)> {
    if tr == [] then []
    else Dispatches(tr[..|tr| - 1])
         + if tr[|tr| - 1].Dispatched? then [(tr[|tr| - 1].entry, tr[|tr| - 1].outcome)] else []
  }

  lemma {:induction false} TriedMeaning(tr: seq<Event>, statuses: set<nat>, entry: nat)
    ensures PastOf(tr, statuses).outcomes == Dispatches(tr)
    ensures entry in PastOf(tr, statuses).tried <==> WasAsked(tr, entry)
    decreases |tr|
  {
    if tr != [] {
      var n := |tr| - 1;
      var front, e := tr[..n], tr[n];
      assert PastOf(tr, statuses) == PastWith(front, e, statuses);
      TriedMeaning(front, statuses, entry);
      assert forall i :: 0 <= i < n ==> front[i] == tr[i];
      assert WasAsked(tr, entry) <==> WasAsked(front, entry) || (e.Asked? && e.entry == entry);
    }
  }

  lemma {:induction false} RefusalStays(tr: seq<Event>, i: nat)
    requires i + 1 < |tr| && !(tr[|tr| - 1].Dispatched? && tr[|tr| - 1].outcome == ProviderLimit)
    ensures LastRefusal(tr, i) <==> LastRefusal(tr[..|tr| - 1], i)
  {
    assert forall k :: 0 <= k < |tr| - 1 ==> tr[..|tr| - 1][k] == tr[k];
  }

  lemma {:induction false} LastLimitMeaning(tr: seq<Event>, statuses: set<nat>, entry: nat)
    ensures PastOf(tr, statuses).lastLimit == Some(entry) <==>
            exists i: nat :: LastRefusal(tr, i) && tr[i].entry == entry
    decreases |tr|
  {
    if tr != [] {
      var n := |tr| - 1;
      var front, e := tr[..n], tr[n];
      assert PastOf(tr, statuses) == PastWith(front, e, statuses);
      if e.Dispatched? && e.outcome == ProviderLimit {
        assert LastRefusal(tr, n);
      } else {
        LastLimitMeaning(front, statuses, entry);
        if i: nat :| LastRefusal(tr, i) && tr[i].entry == entry {
          RefusalStays(tr, i);
          assert front[i] == tr[i];
        }
        if i: nat :| LastRefusal(front, i) && front[i].entry == entry {
          RefusalStays(tr, i);
          assert front[i] == tr[i];
        }
      }
    }
  }

  lemma {:induction false} LastDispatched(tr: seq<Event>, i: nat)
    requires i < |tr| && tr[i].Dispatched? && forall k :: i < k < |tr| ==> !tr[k].Dispatched?
    ensures Dispatches(tr) != [] && Dispatches(tr)[|Dispatches(tr)| - 1] == (tr[i].entry, tr[i].outcome)
    decreases |tr|
  {
    if i < |tr| - 1 {
      LastDispatched(tr[..|tr| - 1], i);
    }
  }

  // ---------------------------------------------------------------- the whole chain

  lemma {:induction false} NamedMeaning(entries: seq<Entry>, tr: seq<Event>, i: nat)
    requires Named(entries, tr) && i < |tr| && tr[i].Asked?
    ensures tr[i].entry < |entries| && entries[tr[i].entry] == Resolved(tr[i].provider)
    decreases |tr|
  {
    assert NamedWith(entries, tr[..|tr| - 1], tr[|tr| - 1]);
    if i < |tr| - 1 {
      NamedMeaning(entries, tr[..|tr| - 1], i);
    }
  }

  // The refusal's own error, unless a later entry resolved to a provider that was not refused.
  ghost predicate Excused(entries: seq<Entry>, tr: seq<Event>, entry: nat) {
    && (exists i: nat :: LastRefusal(tr, i) && tr[i].entry == entry)
    && forall j :: entry < j < |entries| && entries[j].Resolved? ==> WasLimited(tr, entries[j].provider)
  }

  lemma {:induction false} ExcusedExactly(entries: seq<Entry>, tr: seq<Event>, statuses: set<nat>, entry: nat)
    ensures var p := PastOf(tr, statuses);
            p.lastLimit == Some(entry) && NoneBetween(entries, entry, |entries|, p.limited) <==>
            Excused(entries, tr, entry)
  {
    LastLimitMeaning(tr, statuses, entry);
    forall j | entry < j < |entries| && entries[j].Resolved?
      ensures entries[j].provider in PastOf(tr, statuses).limited <==> WasLimited(tr, entries[j].provider)
    {
      LimitedMeaning(tr, statuses, entries[j].provider);
    }
  }

  /**
   Running the chain: every attempt goes to the provider its entry resolved to; an outcome that ends the chain is the
   answer, and without one every resolved entry was tried unless its provider was refused, and the answer is the last
   refusal's error, or that all failed.
   */
  method RunChain(chain: Chain, world: (nat, nat) -> Moment) returns (answer: Answer)
    requires chain.Valid() && chain.trace == []
    modifies chain`trace, chain`seen, chain.breaker
    ensures chain.Valid()
    ensures forall i :: 0 <= i < |chain.trace| && chain.trace[i].Dispatched? ==>
              && chain.trace[i].entry < |chain.config.entries|
              && chain.config.entries[chain.trace[i].entry] == Resolved(chain.trace[i].provider)
    ensures forall i: nat :: Ended(chain.trace, chain.config.statuses, i) ==>
              answer == if chain.trace[i].outcome.Completed? then Value(chain.trace[i].outcome.value)
                        else Failed(chain.trace[i].outcome)
    ensures (forall i: nat :: !Ended(chain.trace, chain.config.statuses, i)) ==>
              && (forall j :: 0 <= j < |chain.config.entries| && chain.config.entries[j].Resolved? ==>
                    WasAsked(chain.trace, j) || WasLimited(chain.trace, chain.config.entries[j].provider))
              && (answer == AllFailed || answer.LimitError?)
              && (forall e: nat :: answer == LimitError(e) <==> Excused(chain.config.entries, chain.trace, e))
  {
    ghost var counts;
    answer, counts := chain.Run(world);
    ghost var tr, config := chain.trace, chain.config;
    Dispatched(config, tr);
    EndedMeaning(tr, config.statuses);
    EndedIsFinal(tr, config.statuses);
    if chain.seen.ended {
      AnsweredSo(tr, config.statuses, answer);
    } else {
      LeftOver(tr, config, answer);
    }
  }

  lemma {:induction false} Dispatched(config: Config, tr: seq<Event>)
    requires Lawful(tr, config.statuses) && Named(config.entries, tr)
    ensures forall i :: 0 <= i < |tr| && tr[i].Dispatched? ==>
              tr[i].entry < |config.entries| && config.entries[tr[i].entry] == Resolved(tr[i].provider)
  {
    forall i | 0 <= i < |tr| && tr[i].Dispatched?
      ensures tr[i].entry < |config.entries| && config.entries[tr[i].entry] == Resolved(tr[i].provider)
    {
      LawfulMeaning(tr, config.statuses, i);
      NamedMeaning(config.entries, tr, i - 1);
    }
  }

  lemma {:induction false} AnsweredSo(tr: seq<Event>, statuses: set<nat>, answer: Answer)
    requires Lawful(tr, statuses)
    requires var made := PastOf(tr, statuses).outcomes;
             made != [] && Decided(true, made[|made| - 1].1, statuses) == Return(answer)
    ensures forall i: nat :: Ended(tr, statuses, i) ==>
              answer == if tr[i].outcome.Completed? then Value(tr[i].outcome.value) else Failed(tr[i].outcome)
  {
    TriedMeaning(tr, statuses, 0);
    forall i: nat | Ended(tr, statuses, i)
      ensures answer == if tr[i].outcome.Completed? then Value(tr[i].outcome.value) else Failed(tr[i].outcome)
    {
      forall k | i < k < |tr| ensures !tr[k].Dispatched? {
        if tr[k].Dispatched? {
          NothingAfterTheEnd(tr, statuses, i, k);
        }
      }
      LastDispatched(tr, i);
      OutcomeMeaning(tr[i].outcome, statuses);
    }
  }

  lemma {:induction false} LeftOver(tr: seq<Event>, config: Config, answer: Answer)
    requires var p := PastOf(tr, config.statuses);
             && AllTried(config.entries, |config.entries|, p.tried, p.limited)
             && answer == if p.lastLimit.Some?
                             && NoneBetween(config.entries, p.lastLimit.value, |config.entries|, p.limited)
                          then LimitError(p.lastLimit.value) else AllFailed
    ensures forall j :: 0 <= j < |config.entries| && config.entries[j].Resolved? ==>
              WasAsked(tr, j) || WasLimited(tr, config.entries[j].provider)
    ensures answer == AllFailed || answer.LimitError?
    ensures forall e: nat :: answer == LimitError(e) <==> Excused(config.entries, tr, e)
  {
    forall j: nat | j < |config.entries| && config.entries[j].Resolved?
      ensures WasAsked(tr, j) || WasLimited(tr, config.entries[j].provider)
    {
      TriedMeaning(tr, config.statuses, j);
      LimitedMeaning(tr, config.statuses, config.entries[j].provider);
    }
    forall e: nat ensures answer == LimitError(e) <==> Excused(config.entries, tr, e) {
      ExcusedExactly(config.entries, tr, config.statuses, e);
    }
  }
}

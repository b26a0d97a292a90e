/** The accounting side of a stream: which usage frame is the terminal bill, under its own retention ledger. */
module NativeUsage {
  import opened Common
  import opened ChatHistory
  import opened Cost
  import opened Retention
  import Chat

  // Chat and Gemini streams track choices; the other two name their terminal frame outright.
  datatype Wire = Choices | AnthropicMessages | OpenAiResponses

  datatype Observation = Observation(usage: Usage, terminal: bool)

  function CostOf(o: Option<Observation>): Option<real> {
    if o.Some? then Reported(o.value.usage) else None
  }

  // A usage field compacted to its counters and its bill; even `usage: null` becomes an (empty) observation.
  function Observe(u: Chat.UsageField): (o: Option<Observation>)
    ensures o.Some? <==> !u.Absent?
    ensures CostOf(o) == Chat.ProviderCost(u)
  {
    match u
    case Absent => None
    case NotObject => Some(Observation(Usage(None, None, Some(0), Some(0), Some(0), None, None, None, []), false))
    case Object(u) =>
      var input := if u.cacheRead.Some? then SaturatingSub(Count(u.prompt), u.cacheRead.value) else Count(u.prompt);
      Some(Observation(Usage(u.prompt, u.completion, Some(Count(u.cacheRead)), Some(Count(u.cacheWrite)), Some(input),
                             NonNegativeMoney(u.cost), None, None, []), false))
  }

  // ---------------------------------------------------------------- what a frame asks of the ledger

  // The marks, and what is charged for the candidate.
  datatype Track = Track(known: set<nat>, finished: set<nat>, charge: Footprint)

  // A new choice takes a record, stirring gives the candidate's charge back, and the finished mark comes or goes.
  function NoteMoves(t: Track, o: Sighting): seq<Move> {
    (if o.index in t.known then [] else [RECORD]) + (if Stirs(o, t.known) then [Move(t.charge, ZERO)] else [])
    + if o.finished == (o.index in t.finished) then [] else if o.finished then [RECORD] else [UNRECORD]
  }

  function Noted(t: Track, o: Sighting): Track {
    Track(t.known + {o.index},
          if o.finished then t.finished + {o.index} else t.finished - {o.index},
          if Stirs(o, t.known) then ZERO else t.charge)
  }

  function NotedAll(t: Track, ss: seq<Sighting>): Track {
    if ss == [] then t else Noted(NotedAll(t, ss[..|ss| - 1]), ss[|ss| - 1])
  }

  function NotesMoves(t: Track, ss: seq<Sighting>): seq<Move> {
    if ss == [] then [] else NotesMoves(t, ss[..|ss| - 1]) + NoteMoves(NotedAll(t, ss[..|ss| - 1]), ss[|ss| - 1])
  }

  // The candidate a usage observation makes, keeps or clears.
  function BillMoves(t: Track, held: Option<real>, observation: Option<Observation>, stirred: bool): seq<Move> {
    if observation.None? then []
    else if t.known == {} || t.finished != t.known then [Move(t.charge, ZERO)]
    else if CostOf(observation).Some? || stirred || held.None? then
      [Weighed(t.charge, Chat.UsageJson(observation.value.usage))]
    else []
  }

  // The charge of the usage a terminal frame names.
  function Terminal(charge: Footprint, observation: Observation, terminal: bool): seq<Move> {
    if terminal then [Weighed(charge, Chat.UsageJson(observation.usage))] else []
  }

  function TerminalCharge(charge: Footprint, observation: Observation, terminal: bool): Footprint {
    var estimate := Estimate(Chat.UsageJson(observation.usage));
    if terminal && estimate.Some? then estimate.value else charge
  }

  // The choices, then the usage; `held` is the cost of the candidate before the frame.
  function FrameMoves(t: Track, held: Option<real>, ss: seq<Sighting>, observation: Option<Observation>): seq<Move> {
    var stirred := AnyStirs(ss, t.known);
    NotesMoves(t, ss) + BillMoves(NotedAll(t, ss), if stirred then None else held, observation, stirred)
  }

  lemma {:induction false} NextNote(total: Footprint, t: Track, ss: seq<Sighting>, n: nat, limit: Footprint)
    requires n < |ss|
    ensures var before := Settle(total, NotesMoves(t, ss[..n]), limit);
            && NotedAll(t, ss[..n + 1]) == Noted(NotedAll(t, ss[..n]), ss[n])
            && Settle(total, NotesMoves(t, ss[..n + 1]), limit)
               == if before.None? then None else Settle(before.value, NoteMoves(NotedAll(t, ss[..n]), ss[n]), limit)
  {
    assert ss[..n + 1][..n] == ss[..n];
    SettleAppend(total, NotesMoves(t, ss[..n]), NoteMoves(NotedAll(t, ss[..n]), ss[n]), limit);
  }

  lemma {:induction false} NotesRefused(total: Footprint, t: Track, ss: seq<Sighting>, n: nat, limit: Footprint)
    requires n <= |ss| && Settle(total, NotesMoves(t, ss[..n]), limit).None?
    ensures Settle(total, NotesMoves(t, ss), limit).None?
    decreases |ss| - n
  {
    if n < |ss| {
      NextNote(total, t, ss, n, limit);
      NotesRefused(total, t, ss, n + 1, limit);
    } else {
      assert ss[..n] == ss;
    }
  }

  // The candidate once a frame's usage has been weighed.
  function Concluded(
      known: set<nat>, finished: set<nat>, candidate: Option<Observation>, observation: Option<Observation>,
      stirred: bool)
      : Option<Observation>
  {
    if observation.None? then candidate
    else if known == {} || finished != known then None
    else if CostOf(observation).Some? || stirred || CostOf(candidate).None? then observation
    else candidate
  }

  // What is charged for it.
  function Charged(t: Track, held: Option<real>, observation: Option<Observation>, stirred: bool): Footprint {
    var moves := BillMoves(t, held, observation, stirred);
    if moves != [] && moves[0].Move? then moves[0].replacement else t.charge
  }

  // The tracked state, and how one frame moves it.
  datatype Watch = Watch(track: Track, candidate: Option<Observation>)

  function Watched(w: Watch, ss: seq<Sighting>, observation: Option<Observation>): Watch {
    var t, stirred := NotedAll(w.track, ss), AnyStirs(ss, w.track.known);
    var held := if stirred then None else w.candidate;
    Watch(t.(charge := Charged(t, CostOf(held), observation, stirred)),
          Concluded(t.known, t.finished, held, observation, stirred))
  }

  lemma {:induction false} FrameSettles(
      total: Footprint, t: Track, held: Option<real>, ss: seq<Sighting>, observation: Option<Observation>,
      limit: Footprint)
    ensures var stirred := AnyStirs(ss, t.known);
            var noted := Settle(total, NotesMoves(t, ss), limit);
            Settle(total, FrameMoves(t, held, ss, observation), limit)
            == if noted.None? then None
               else Settle(noted.value,
                           BillMoves(NotedAll(t, ss), if stirred then None else held, observation, stirred), limit)
  {
    var stirred := AnyStirs(ss, t.known);
    SettleAppend(total, NotesMoves(t, ss),
                 BillMoves(NotedAll(t, ss), if stirred then None else held, observation, stirred), limit);
  }

  // A choice that became known within a frame stirred it.
  lemma {:induction false} NewMarkStirs(t: Track, ss: seq<Sighting>, index: nat)
    ensures index in t.known ==> index in NotedAll(t, ss).known
    ensures index in NotedAll(t, ss).known && index !in t.known ==> AnyStirs(ss, t.known)
    decreases |ss|
  {
    if ss != [] {
      NewMarkStirs(t, ss[..|ss| - 1], index);
    }
  }

  lemma {:induction false} StirsAsNoted(t: Track, ss: seq<Sighting>, n: nat)
    requires n < |ss|
    ensures AnyStirs(ss[..n + 1], t.known) <==> AnyStirs(ss[..n], t.known) || Stirs(ss[n], NotedAll(t, ss[..n]).known)
  {
    NewMarkStirs(t, ss[..n], ss[n].index);
    assert ss[..n + 1][..n] == ss[..n];
  }

  // The marks follow the sightings.
  lemma {:induction false} NotedAllMeaning(t: Track, s: seq<Sighting>, ss: seq<Sighting>)
    requires t.known == Known(s) && t.finished == Finished(s)
    ensures NotedAll(t, ss).known == Known(s + ss) && NotedAll(t, ss).finished == Finished(s + ss)
    decreases |ss|
  {
    if ss == [] {
      assert s + ss == s;
    } else {
      var n := |ss| - 1;
      NotedAllMeaning(t, s, ss[..n]);
      assert (s + ss)[..|s + ss| - 1] == s + ss[..n];
    }
  }

  /** Weighing the frame's usage so is finding the history's terminal bill. */
  lemma {:induction false} FrameConcludes(
      h: seq<Frame>, f: Frame, candidate: Option<Observation>, observation: Option<Observation>)
    requires f.observed == observation.Some? && f.cost == CostOf(observation)
    requires candidate.Some? <==> Candidate(h)
    requires CostOf(candidate) == TerminalCost(h)
    ensures var s := All(h) + f.sightings;
            var stirred := AnyStirs(f.sightings, Known(All(h)));
            var after := Concluded(Known(s), Finished(s), if stirred then None else candidate, observation, stirred);
            && All(h + [f]) == s
            && (after.Some? <==> Candidate(h + [f])) && CostOf(after) == TerminalCost(h + [f])
  {
    BillStep(h, f);
  }

  lemma {:induction false} NoteSettles(total: Footprint, t: Track, o: Sighting, limit: Footprint)
    ensures var known := Settle(total, if o.index in t.known then [] else [RECORD], limit);
            var cleared := if known.None? then None
                           else Settle(known.value, if Stirs(o, t.known) then [Move(t.charge, ZERO)] else [], limit);
            Settle(total, NoteMoves(t, o), limit)
            == if cleared.None? then None
               else Settle(cleared.value,
                           if o.finished == (o.index in t.finished) then []
                           else if o.finished then [RECORD] else [UNRECORD], limit)
  {
    var a := if o.index in t.known then [] else [RECORD];
    var b := if Stirs(o, t.known) then [Move(t.charge, ZERO)] else [];
    SettleAppend(total, a, b, limit);
    SettleAppend(total, a + b,
                 if o.finished == (o.index in t.finished) then [] else if o.finished then [RECORD] else [UNRECORD],
                 limit);
  }

  class NativeStreamUsage {
    const wire: Wire
    const budget: RetainedBudget
    var known: set<nat>
    var finished: set<nat>
    var candidate: Option<Observation>
    var candidateFootprint: Footprint
    var fieldFootprints: map<string, Footprint>
    var retained: Footprint
    var anthropic: map<string, Json>
    var retentionError: bool
    // The frames tracked since the state was last empty; meaningless once the candidate has been taken.
    ghost var history: seq<Frame>
    ghost var synced: bool

    ghost function Tracked(): Track
      reads this`known, this`finished, this`candidateFootprint
    {
      Track(known, finished, candidateFootprint)
    }

    ghost function Watching(): Watch
      reads this`known, this`finished, this`candidate, this`candidateFootprint
    {
      Watch(Tracked(), candidate)
    }

    ghost predicate Empty()
      reads this`known, this`finished, this`candidate, this`fieldFootprints, this`anthropic, this`retained
    {
      && known == {} && finished == {} && candidate.None? && fieldFootprints == map[] && anthropic == map[]
      && retained == ZERO
    }

    /** Conservation: the ledger, and this machine's own count, are exactly the sum of what is retained. */
    ghost predicate Ledger()
      reads this`known, this`finished, this`candidate, this`candidateFootprint, this`fieldFootprints, this`anthropic
      reads this`retained, this`retentionError, budget
    {
      && budget.Valid()
      && budget.retained == retained
      && retained.bytes == Marks(known, finished) * MAP_ENTRY_OVERHEAD + candidateFootprint.bytes
         + SumBytes(fieldFootprints)
      && retained.entries == Marks(known, finished) + candidateFootprint.entries + SumEntries(fieldFootprints)
      && (candidate.None? ==> candidateFootprint == ZERO)
      && (retentionError ==> Empty())
    }

    /** What is tracked is what the history of frames determines. */
    ghost predicate Tracks()
      reads this`known, this`finished, this`candidate, this`history
    {
      && known == Known(All(history))
      && finished == Finished(All(history))
      && (candidate.Some? <==> Candidate(history))
      && CostOf(candidate) == TerminalCost(history)
    }

    ghost predicate Valid()
      reads this, budget
    {
      Ledger() && (wire.Choices? && synced ==> Tracks())
    }

    constructor (wire: Wire, maxBytes: nat, maxEntries: nat)
      requires maxBytes <= MAX_BYTES && maxEntries <= MAX_ENTRIES
      ensures Valid() && this.wire == wire && !retentionError && synced && history == [] && fresh(budget)
    {
      this.wire := wire;
      budget := new RetainedBudget(maxBytes, maxEntries);
      known, finished, candidate, candidateFootprint := {}, {}, None, ZERO;
      fieldFootprints, anthropic, retained, retentionError := map[], map[], ZERO, false;
      history, synced := [], true;
    }

    method ClearRetained()
      requires budget.Valid()
      modifies this, budget
      ensures Ledger() && Empty() && retentionError == old(retentionError)
      ensures Tracks() && synced && history == []
    {
      known, finished, candidate, candidateFootprint := {}, {}, None, ZERO;
      fieldFootprints, anthropic := map[], map[];
      budget.Reset();
      retained := ZERO;
      history, synced := [], true;
    }

    method FailRetention()
      requires budget.Valid()
      modifies this, budget
      ensures Valid() && Empty() && retentionError && synced && history == []
    {
      ClearRetained();
      retentionError := true;
    }

    // Moves a charge on both counts exactly when the ledger can bear it, and on neither otherwise.
    method Replace(previous: Footprint, replacement: Footprint) returns (ok: bool)
      requires budget.Valid() && budget.retained == retained && previous.Fits(retained)
      modifies budget, this`retained
      ensures budget.Valid() && budget.retained == retained
      ensures Settle(old(retained), [Move(previous, replacement)], budget.limit) == if ok then Some(retained) else None
      ensures retained == if ok then old(retained).Minus(previous).Plus(replacement) else old(retained)
    {
      SettleOne(retained, Move(previous, replacement), budget.limit);
      ok := budget.Replace(previous, replacement);
      if ok {
        retained := Footprint(SaturatingSub(retained.bytes, previous.bytes) + replacement.bytes,
                              SaturatingSub(retained.entries, previous.entries) + replacement.entries);
      }
    }

    method ReserveRecord() returns (ok: bool)
      requires budget.Valid() && budget.retained == retained
      modifies budget, this`retained
      ensures budget.Valid() && budget.retained == retained
      ensures Settle(old(retained), [RECORD], budget.limit) == if ok then Some(retained) else None
      ensures retained == if ok then old(retained).Plus(Record(0)) else old(retained)
    {
      SettleOne(retained, RECORD, budget.limit);
      ok := budget.Reserve(Record(0));
      if ok {
        // The ledger has just accepted this very total.
        var sum := retained.CheckedAdd(Record(0));
        retained := sum.value;
      }
    }

    /**
     The candidate and its charge change together, exactly when the ledger can bear it; otherwise nothing stays
     retained.
     */
    method SetCandidate(c: Option<Observation>)
      requires Ledger() && !retentionError
      modifies this, budget
      ensures Ledger()
      ensures Settle(old(retained),
                     [if c.Some? then Weighed(old(candidateFootprint), Chat.UsageJson(c.value.usage))
                      else Move(old(candidateFootprint), ZERO)], budget.limit)
              == if retentionError then None else Some(retained)
      ensures retentionError ==> c.Some? && synced && history == []
      ensures !retentionError ==>
                && candidate == c && unchanged(`known) && unchanged(`finished) && unchanged(`anthropic)
                && unchanged(`fieldFootprints) && unchanged(`history) && unchanged(`synced)
      ensures !retentionError ==>
                if c.Some? then Estimate(Chat.UsageJson(c.value.usage)) == Some(candidateFootprint)
                else candidateFootprint == ZERO
    {
      var replacement := ZERO;
      if c.Some? {
        var estimate := EstimateValue(Chat.UsageJson(c.value.usage));
        SettleOne(retained, Weighed(candidateFootprint, Chat.UsageJson(c.value.usage)), budget.limit);
        if estimate.None? {
          FailRetention();
          return;
        }
        replacement := estimate.value;
      }
      var ok := Replace(candidateFootprint, replacement);
      if !ok {
        FailRetention();
        return;
      }
      candidate, candidateFootprint := c, replacement;
    }

    // A mark for a choice, charged when it is new.
    method MarkKnown(index: nat)
      requires Ledger() && !retentionError
      modifies this, budget
      ensures Ledger()
      ensures Settle(old(retained), if index in old(known) then [] else [RECORD], budget.limit)
              == if retentionError then None else Some(retained)
      ensures retentionError ==> synced && history == []
      ensures !retentionError ==>
                && known == old(known) + {index} && unchanged(`finished) && unchanged(`candidate)
                && unchanged(`candidateFootprint) && unchanged(`history) && unchanged(`synced)
    {
      if index !in known {
        var ok := ReserveRecord();
        if !ok {
          FailRetention();
          return;
        }
        assert |known + {index}| == |known| + 1;
      } else {
        assert known + {index} == known;
      }
      known := known + {index};
    }

    method MarkFinished(index: nat)
      requires Ledger() && !retentionError
      modifies this, budget
      ensures Ledger()
      ensures Settle(old(retained), if index in old(finished) then [] else [RECORD], budget.limit)
              == if retentionError then None else Some(retained)
      ensures retentionError ==> synced && history == []
      ensures !retentionError ==>
                && finished == old(finished) + {index} && unchanged(`known) && unchanged(`candidate)
                && unchanged(`candidateFootprint) && unchanged(`history) && unchanged(`synced)
    {
      if index !in finished {
        var ok := ReserveRecord();
        if !ok {
          FailRetention();
          return;
        }
        assert |finished + {index}| == |finished| + 1;
      } else {
        assert finished + {index} == finished;
      }
      finished := finished + {index};
    }

    method UnmarkFinished(index: nat)
      requires Ledger() && !retentionError
      modifies this`finished, this`retained, budget
      ensures Ledger() && finished == old(finished) - {index}
      ensures Settle(old(retained), if index in old(finished) then [UNRECORD] else [], budget.limit) == Some(retained)
    {
      if index in finished {
        assert |finished - {index}| == |finished| - 1;
        SettleOne(retained, UNRECORD, budget.limit);
        finished := finished - {index};
        Release(Record(0));
      } else {
        assert finished - {index} == finished;
      }
    }

    // One choice of one frame.
    method Note(o: Sighting) returns (stirred: bool)
      requires Ledger() && !retentionError
      modifies this, budget
      ensures Ledger()
      ensures Settle(old(retained), NoteMoves(old(Tracked()), o), budget.limit)
              == if retentionError then None else Some(retained)
      ensures retentionError ==> synced && history == []
      ensures !retentionError ==>
                && stirred == Stirs(o, old(known)) && Tracked() == Noted(old(Tracked()), o)
                && candidate == (if stirred then None else old(candidate))
                && unchanged(`history) && unchanged(`synced)
    {
      NoteSettles(retained, Tracked(), o, budget.limit);
      var newlySeen := o.index !in known;
      stirred := newlySeen || !o.finished || o.output;
      MarkKnown(o.index);
      if retentionError {
        return;
      }
      if stirred {
        SetCandidate(None);
      }
      if o.finished {
        MarkFinished(o.index);
      } else {
        UnmarkFinished(o.index);
      }
    }

    // The usage a frame carries, once its choices have been noted.
    method Conclude(observation: Option<Observation>, stirred: bool)
      requires Ledger() && !retentionError
      modifies this, budget
      ensures Ledger()
      ensures Settle(old(retained), BillMoves(old(Tracked()), CostOf(old(candidate)), observation, stirred),
                     budget.limit)
              == if retentionError then None else Some(retained)
      ensures retentionError ==> synced && history == []
      ensures !retentionError ==>
                && unchanged(`known) && unchanged(`finished) && unchanged(`history) && unchanged(`synced)
                && candidate == Concluded(old(known), old(finished), old(candidate), observation, stirred)
                && candidateFootprint == Charged(old(Tracked()), CostOf(old(candidate)), observation, stirred)
    {
      if observation.Some? {
        if known != {} && finished == known {
          if CostOf(observation).Some? || stirred || CostOf(candidate).None? {
            SetCandidate(observation);
          }
        } else {
          SetCandidate(None);
        }
      }
    }

    // All choices of one frame, in order.
    method NoteAll(sightings: seq<Sighting>) returns (stirred: bool)
      requires Ledger() && !retentionError
      modifies this, budget
      ensures Ledger()
      ensures Settle(old(retained), NotesMoves(old(Tracked()), sightings), budget.limit)
              == if retentionError then None else Some(retained)
      ensures retentionError ==> synced && history == []
      ensures !retentionError ==>
                && unchanged(`history) && unchanged(`synced) && Tracked() == NotedAll(old(Tracked()), sightings)
                && stirred == AnyStirs(sightings, old(known)) && candidate == if stirred then None else old(candidate)
    {
      ghost var total, t := retained, Tracked();
      stirred := false;
      for k := 0 to |sightings|
        invariant Ledger() && !retentionError && unchanged(`history) && unchanged(`synced)
        invariant Tracked() == NotedAll(t, sightings[..k])
        invariant Settle(total, NotesMoves(t, sightings[..k]), budget.limit) == Some(retained)
        invariant stirred == AnyStirs(sightings[..k], t.known)
        invariant candidate == if stirred then None else old(candidate)
      {
        NextNote(total, t, sightings, k, budget.limit);
        StirsAsNoted(t, sightings, k);
        var stirs := Note(sightings[k]);
        if retentionError {
          NotesRefused(total, t, sightings, k + 1, budget.limit);
          return;
        }
        stirred := stirred || stirs;
      }
      assert sightings[..|sightings|] == sightings;
    }

    // One frame's choices and then its usage, while nothing has failed.
    method Follow(sightings: seq<Sighting>, observation: Option<Observation>)
      requires Ledger() && Tracks() && synced && !retentionError
      modifies this, budget
      ensures Ledger() && synced
      ensures retentionError ==> history == []
      ensures !retentionError ==> Tracks() && Watching() == Watched(old(Watching()), sightings, observation)
      ensures !retentionError ==> history == old(history) + [Frame(sightings, observation.Some?, CostOf(observation))]
      ensures Settle(old(retained), FrameMoves(old(Tracked()), CostOf(old(candidate)), sightings, observation),
                     budget.limit)
              == if retentionError then None else Some(retained)
    {
      ghost var f := Frame(sightings, observation.Some?, CostOf(observation));
      FrameSettles(retained, Tracked(), CostOf(candidate), sightings, observation, budget.limit);
      NotedAllMeaning(Tracked(), All(history), sightings);
      FrameConcludes(history, f, candidate, observation);
      var stirred := NoteAll(sightings);
      if !retentionError {
        Conclude(observation, stirred);
        if !retentionError {
          history := history + [f];
        }
      }
    }

    /**
     One frame of a choice-tracking stream. The caller always gets the frame's own observation. The tracked state moves
     by exactly this frame, and fails exactly when the ledger cannot bear what the frame asks; then nothing stays
     retained, and a latched failure freezes it there.
     */
    method IngestFrame(sightings: seq<Sighting>, observation: Option<Observation>) returns (out: Option<Observation>)
      requires Valid() && wire.Choices? && synced
      modifies this, budget
      ensures Valid() && out == observation && synced
      ensures old(retentionError) ==> retentionError && Empty()
      ensures retentionError ==> history == [] && candidate.None? && budget.retained == ZERO
      ensures !retentionError ==> history == old(history) + [Frame(sightings, observation.Some?, CostOf(observation))]
      ensures !retentionError ==> Watching() == Watched(old(Watching()), sightings, observation)
      ensures !old(retentionError) ==>
                Settle(old(retained), FrameMoves(old(Tracked()), CostOf(old(candidate)), sightings, observation),
                       budget.limit)
                == if retentionError then None else Some(retained)
    {
      out := observation;
      if retentionError {
        history := [];
      } else {
        Follow(sightings, observation);
      }
    }

    // Never saturates: what is released is on the ledger.
    method Release(footprint: Footprint)
      requires budget.Valid() && budget.retained == retained && footprint.Fits(retained)
      modifies budget, this`retained
      ensures budget.Valid() && budget.retained == retained == old(retained).Minus(footprint)
    {
      budget.Release(footprint);
      retained := Footprint(SaturatingSub(retained.bytes, footprint.bytes),
                            SaturatingSub(retained.entries, footprint.entries));
    }

    // The candidate goes, and its charge with it.
    method DropCandidate()
      requires Ledger()
      modifies this`candidate, this`candidateFootprint, this`retained, budget
      ensures Ledger() && candidate.None? && retained == old(retained).Minus(old(candidateFootprint))
    {
      candidate := None;
      Release(candidateFootprint);
      candidateFootprint := ZERO;
    }

    /** At the end of the stream the candidate, if any, becomes the terminal observation and its charge is returned. */
    method TakeTerminalCandidate() returns (taken: Option<Observation>)
      requires Valid()
      modifies this`candidate, this`candidateFootprint, this`retained, this`synced, budget
      ensures Valid() && candidate.None? && !synced
      ensures taken == if old(candidate).Some? then Some(old(candidate).value.(terminal := true)) else None
      ensures retained == old(retained).Minus(old(candidateFootprint))
    {
      taken := if candidate.Some? then Some(candidate.value.(terminal := true)) else None;
      DropCandidate();
      synced := false;
    }

    method TakeRetentionError() returns (error: bool)
      requires Valid()
      modifies this, budget
      ensures Valid() && !retentionError
      ensures error == old(retentionError)
      ensures error ==> Empty() && synced && history == [] && budget.retained == ZERO
      ensures !error ==> unchanged(this) && unchanged(budget)
    {
      error := retentionError;
      if error {
        retentionError := false;
        ClearRetained();
      }
    }

    // The field's own size, plus a record for its key the first time.
    method RetainField(field: Field) returns (ok: bool)
      requires Ledger() && !retentionError
      modifies this`retained, this`fieldFootprints, this`anthropic, budget
      ensures Ledger()
      ensures Settle(old(retained), [FieldMove(old(fieldFootprints), field)], budget.limit)
              == if ok then Some(retained) else None
      ensures ok ==> fieldFootprints == FieldCharged(old(fieldFootprints), field)
      ensures ok ==> anthropic == old(anthropic)[field.key := field.value]
      ensures !ok ==> fieldFootprints == old(fieldFootprints) && anthropic == old(anthropic)
    {
      var previous := Held(fieldFootprints, field.key);
      var charge := ChargeFor(previous, field.value, |field.key|);
      SettleOne(retained, FieldMove(fieldFootprints, field), budget.limit);
      if charge.None? {
        return false;
      }
      SumUpdate(fieldFootprints, field.key, charge.value);
      ok := Replace(previous, charge.value);
      if ok {
        fieldFootprints := fieldFootprints[field.key := charge.value];
        anthropic := anthropic[field.key := field.value];
      }
    }

    // The fields one by one, until the ledger cannot bear the next.
    method RetainFields(fields: seq<Field>) returns (ok: bool)
      requires Ledger() && !retentionError
      modifies this`retained, this`fieldFootprints, this`anthropic, budget
      ensures Ledger()
      ensures Settle(old(retained), FieldMoves(old(fieldFootprints), fields), budget.limit)
              == if ok then Some(retained) else None
      ensures ok ==> anthropic == Merged(old(anthropic), fields)
      ensures ok ==> fieldFootprints == ChargedAll(old(fieldFootprints), fields)
    {
      ghost var total, m := retained, fieldFootprints;
      ok := true;
      for k := 0 to |fields|
        invariant Ledger() && ok
        invariant Settle(total, FieldMoves(m, fields[..k]), budget.limit) == Some(retained)
        invariant anthropic == Merged(old(anthropic), fields[..k])
        invariant fieldFootprints == ChargedAll(m, fields[..k])
      {
        assert fields[..k + 1][..k] == fields[..k];
        SettleAppend(total, FieldMoves(m, fields[..k]), [FieldMove(fieldFootprints, fields[k])], budget.limit);
        ok := RetainField(fields[k]);
        if !ok {
          FieldsRefused(total, m, fields, k + 1, budget.limit);
          return;
        }
      }
      assert fields[..|fields|] == fields;
    }

    /**
     An Anthropic usage object, merged field by field; the stop frame's observation becomes the candidate. Fails exactly
     when the ledger cannot bear the fields and then the candidate.
     */
    method IngestAnthropic(fields: seq<Field>, observation: Observation, terminal: bool)
      requires Valid() && wire.AnthropicMessages?
      modifies this, budget
      ensures Valid()
      ensures old(retentionError) ==> retentionError
      ensures retentionError ==> Empty() && budget.retained == ZERO
      ensures !retentionError ==> candidate == if terminal then Some(observation) else old(candidate)
      ensures !retentionError ==> anthropic == Merged(old(anthropic), fields)
      ensures !retentionError ==> fieldFootprints == ChargedAll(old(fieldFootprints), fields)
      ensures !retentionError ==> candidateFootprint == TerminalCharge(old(candidateFootprint), observation, terminal)
      ensures !old(retentionError) ==>
                Settle(old(retained),
                       FieldMoves(old(fieldFootprints), fields)
                       + Terminal(old(candidateFootprint), observation, terminal),
                       budget.limit)
                == if retentionError then None else Some(retained)
    {
      if retentionError {
        return;
      }
      SettleAppend(retained, FieldMoves(fieldFootprints, fields), Terminal(candidateFootprint, observation, terminal),
                   budget.limit);
      var ok := RetainFields(fields);
      if !ok {
        FailRetention();
        return;
      }
      if terminal {
        SetCandidate(Some(observation));
      }
    }

    /** An OpenAI Responses event: only the completed one names the terminal usage. */
    method IngestResponses(observation: Option<Observation>, completed: bool)
      requires Valid() && wire.OpenAiResponses?
      modifies this, budget
      ensures Valid()
      ensures !retentionError ==> candidate == if completed then observation else old(candidate)
      ensures old(retentionError) ==> retentionError
      ensures retentionError ==> Empty() && budget.retained == ZERO
      ensures !old(retentionError) ==>
                Settle(old(retained),
                       if !completed then []
                       else if observation.None? then [Move(old(candidateFootprint), ZERO)]
                       else Terminal(old(candidateFootprint), observation.value, true), budget.limit)
                == if retentionError then None else Some(retained)
    {
      if completed && !retentionError {
        SetCandidate(observation);
      }
    }
  }

  // ---------------------------------------------------------------- an Anthropic stream

  datatype UsageEvent = UsageEvent(fields: seq<Field>, observation: Observation, terminal: bool)

  function FieldsOf(events: seq<UsageEvent>): seq<Field> {
    if events == [] then [] else FieldsOf(events[..|events| - 1]) + events[|events| - 1].fields
  }

  // The last stop frame's observation, and what is charged for it.
  function LastTerminal(events: seq<UsageEvent>, held: Option<Observation>): Option<Observation> {
    if events == [] then held
    else
      var e := events[|events| - 1];
      if e.terminal then Some(e.observation) else LastTerminal(events[..|events| - 1], held)
  }

  predicate LastStop(events: seq<UsageEvent>, i: nat) {
    i < |events| && events[i].terminal && forall j :: i < j < |events| ==> !events[j].terminal
  }

  // The observation of the last stop frame, or what was held when there is none.
  ghost predicate IsLastTerminal(events: seq<UsageEvent>, held: Option<Observation>, o: Option<Observation>) {
    || (exists i: nat :: LastStop(events, i) && o == Some(events[i].observation))
    || (o == held && forall i :: 0 <= i < |events| ==> !events[i].terminal)
  }

  lemma {:induction false} LastTerminalExactly(events: seq<UsageEvent>, held: Option<Observation>)
    ensures IsLastTerminal(events, held, LastTerminal(events, held))
    decreases |events|
  {
    if events != [] {
      var n := |events| - 1;
      var before := events[..n];
      assert forall i :: 0 <= i < n ==> before[i] == events[i];
      if events[n].terminal {
        assert LastStop(events, n);
      } else {
        LastTerminalExactly(before, held);
        if i: nat :| LastStop(before, i) && LastTerminal(before, held) == Some(before[i].observation) {
          assert LastStop(events, i);
        }
      }
    }
  }

  function LastCharge(events: seq<UsageEvent>, charge: Footprint): Footprint {
    if events == [] then charge
    else
      var e := events[|events| - 1];
      TerminalCharge(LastCharge(events[..|events| - 1], charge), e.observation, e.terminal)
  }

  function EventMoves(m: map<string, Footprint>, charge: Footprint, e: UsageEvent): seq<Move> {
    FieldMoves(m, e.fields) + Terminal(charge, e.observation, e.terminal)
  }

  function StreamMoves(m: map<string, Footprint>, charge: Footprint, events: seq<UsageEvent>): seq<Move> {
    if events == [] then []
    else
      var before := events[..|events| - 1];
      StreamMoves(m, charge, before)
      + EventMoves(ChargedAll(m, FieldsOf(before)), LastCharge(before, charge), events[|events| - 1])
  }

  lemma {:induction false} NextEvent(
      total: Footprint, m: map<string, Footprint>, charge: Footprint, events: seq<UsageEvent>, limit: Footprint)
    requires events != []
    ensures var before, e := events[..|events| - 1], events[|events| - 1];
            var t := Settle(total, StreamMoves(m, charge, before), limit);
            Settle(total, StreamMoves(m, charge, events), limit)
            == if t.None? then None
               else Settle(t.value, EventMoves(ChargedAll(m, FieldsOf(before)), LastCharge(before, charge), e), limit)
  {
    var before, e := events[..|events| - 1], events[|events| - 1];
    SettleAppend(total, StreamMoves(m, charge, before),
                 EventMoves(ChargedAll(m, FieldsOf(before)), LastCharge(before, charge), e), limit);
  }

  lemma {:induction false} EventIsWeighed(
      total: Footprint, m: map<string, Footprint>, charge: Footprint, e: UsageEvent, limit: Footprint)
    requires Settle(total, EventMoves(m, charge, e), limit).Some?
    ensures AllWeighed(e.fields)
  {
    SettleAppend(total, FieldMoves(m, e.fields), Terminal(charge, e.observation, e.terminal), limit);
    BorneIsWeighed(total, m, e.fields, limit);
  }

  /**
   After a whole Anthropic stream the merged object has the last value of every key, the charges are those of all fields
   written one after the other, the candidate is the last stop frame's, and it comes through exactly when the ledger
   bears all that in turn. From an empty table every key is charged for its record exactly when none was sent twice.
   */
  method IngestStream(n: NativeStreamUsage, events: seq<UsageEvent>)
    requires n.Valid() && n.wire.AnthropicMessages? && !n.retentionError
    modifies n, n.budget
    ensures n.Valid()
    ensures Settle(old(n.retained), StreamMoves(old(n.fieldFootprints), old(n.candidateFootprint), events),
                   n.budget.limit)
            == if n.retentionError then None else Some(n.retained)
    ensures n.retentionError ==> n.Empty() && n.budget.retained == ZERO
    ensures !n.retentionError ==>
              && n.candidate == LastTerminal(events, old(n.candidate))
              && IsLastTerminal(events, old(n.candidate), n.candidate)
              && n.candidateFootprint == LastCharge(events, old(n.candidateFootprint))
    ensures !n.retentionError ==> n.anthropic == Merged(old(n.anthropic), FieldsOf(events))
    ensures !n.retentionError ==> n.fieldFootprints == ChargedAll(old(n.fieldFootprints), FieldsOf(events))
    ensures !n.retentionError ==> AllWeighed(FieldsOf(events))
    ensures !n.retentionError && old(n.fieldFootprints) == map[] ==>
              ((forall key :: key in n.fieldFootprints ==> RecordCharged(FieldsOf(events), key)) <==>
               (forall key :: key in n.fieldFootprints ==> Writes(FieldsOf(events), key) == 1))
    decreases |events|
  {
    ghost var total, m, charge := n.retained, n.fieldFootprints, n.candidateFootprint;
    ghost var held := n.candidate;
    if events != [] {
      var k := |events| - 1;
      ghost var fields := FieldsOf(events[..k]);
      NextEvent(total, m, charge, events, n.budget.limit);
      ChargedAppend(m, fields, events[k].fields);
      MergedAppend(n.anthropic, fields, events[k].fields);
      IngestStream(n, events[..k]);
      if n.retentionError {
        return;
      }
      ghost var t := n.retained;
      n.IngestAnthropic(events[k].fields, events[k].observation, events[k].terminal);
      if n.retentionError {
        return;
      }
      EventIsWeighed(t, ChargedAll(m, fields), LastCharge(events[..k], charge), events[k], n.budget.limit);
    }
    RecordsChargedExactly(FieldsOf(events));
    LastTerminalExactly(events, held);
  }
}

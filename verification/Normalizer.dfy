/**
 The per-response normalizer of a Chat stream: choice tracking, deferral and the ledger's life from first push to
 finish.
 */
module Normalizer {
  import opened Common
  import opened ChatHistory
  import opened Chat
  import opened ChatMeaning
  import opened Cost
  import opened Retention
  import opened StreamUsages
  import opened NativeUsage
  import opened NativeMeaning
  import opened TerminalMeaning

  // ---------------------------------------------------------------- what the choices of a history amount to

  // Which choices were seen, which have output that awaits a finish, and whether any choice finished.
  datatype Activity = Activity(seen: set<nat>, active: set<nat>, finished: bool)

  const IDLE := Activity({}, {}, false)

  function Advance(a: Activity, o: Sighting): Activity {
    Activity(
      a.seen + {o.index},
      if o.finished then a.active - {o.index} else if o.output then a.active + {o.index} else a.active,
      a.finished || o.finished)
  }

  function FollowFrom(a: Activity, es: seq<Entry>): Activity {
    if es == [] then a else Advance(FollowFrom(a, es[..|es| - 1]), Sight(es[|es| - 1]))
  }

  function Follow(es: seq<Entry>): Activity {
    FollowFrom(IDLE, es)
  }

  lemma {:induction false} FollowAppend(a: Activity, es: seq<Entry>, more: seq<Entry>)
    ensures FollowFrom(a, es + more) == FollowFrom(FollowFrom(a, es), more)
    decreases |more|
  {
    if more == [] {
      assert es + more == es;
    } else {
      var n := |more| - 1;
      assert (es + more)[..|es + more| - 1] == es + more[..n];
      FollowAppend(a, es, more[..n]);
    }
  }

  // What choices ask of the ledger: a record when first seen, and one while active.
  function SeenMoves(a: Activity, index: nat): seq<Move> {
    if index in a.seen then [] else [RECORD]
  }

  function ActiveMoves(a: Activity, o: Sighting): seq<Move> {
    if o.finished then (if o.index in a.active then [UNRECORD] else [])
    else if o.output && o.index !in a.active then [RECORD]
    else []
  }

  function ChoicesMoves(a: Activity, es: seq<Entry>): seq<Move> {
    if es == [] then []
    else
      var before, o := FollowFrom(a, es[..|es| - 1]), Sight(es[|es| - 1]);
      ChoicesMoves(a, es[..|es| - 1]) + (SeenMoves(before, o.index) + ActiveMoves(before, o))
  }

  lemma {:induction false} NextChoice(total: Footprint, a: Activity, es: seq<Entry>, n: nat, limit: Footprint)
    requires n < |es|
    ensures var before, o := FollowFrom(a, es[..n]), Sight(es[n]);
            var t := Settle(total, ChoicesMoves(a, es[..n]), limit);
            && FollowFrom(a, es[..n + 1]) == Advance(before, o)
            && Settle(total, ChoicesMoves(a, es[..n + 1]), limit)
               == if t.None? then None else Settle(t.value, SeenMoves(before, o.index) + ActiveMoves(before, o), limit)
  {
    assert es[..n + 1][..n] == es[..n];
    var before, o := FollowFrom(a, es[..n]), Sight(es[n]);
    SettleAppend(total, ChoicesMoves(a, es[..n]), SeenMoves(before, o.index) + ActiveMoves(before, o), limit);
  }

  lemma {:induction false} ChoicesRefused(total: Footprint, a: Activity, es: seq<Entry>, n: nat, limit: Footprint)
    requires n <= |es| && Settle(total, ChoicesMoves(a, es[..n]), limit).None?
    ensures Settle(total, ChoicesMoves(a, es), limit).None?
    decreases |es| - n
  {
    if n < |es| {
      NextChoice(total, a, es, n, limit);
      ChoicesRefused(total, a, es, n + 1, limit);
    } else {
      assert es[..n] == es;
    }
  }

  predicate OutputAfterFinish(es: seq<Entry>, i: nat)
    requires i < |es|
  {
    && Sight(es[i]).output && !Sight(es[i]).finished
    && forall j :: i < j < |es| && es[j].index == es[i].index ==> !es[j].choice.finish.Reason?
  }

  /**
   Active choices are those with output that no later finish covers; some choice finished exactly when one is kept for
   the end.
   */
  lemma {:induction false} ActiveMeaning(es: seq<Entry>, x: nat)
    ensures x in Follow(es).active <==> exists i :: 0 <= i < |es| && es[i].index == x && OutputAfterFinish(es, i)
    ensures Follow(es).finished <==> Dones(es) != map[]
    decreases |es|
  {
    if es != [] {
      var n := |es| - 1;
      var before := es[..n];
      ActiveMeaning(before, x);
      assert forall i :: 0 <= i < n ==> es[i] == before[i];
      if es[n].index != x || !es[n].choice.finish.Reason? {
        forall i | 0 <= i < n && es[i].index == x ensures OutputAfterFinish(es, i) <==> OutputAfterFinish(before, i) {
        }
      }
      if es[n].choice.finish.Reason? {
        assert es[n].index in Dones(es);
      }
    }
  }

  lemma {:induction false} FinishedExactly(es: seq<Entry>)
    ensures Follow(es).finished <==> exists n :: 0 <= n < |es| && es[n].choice.finish.Reason?
  {
    ActiveMeaning(es, 0);
    if x :| x in Dones(es) {
      DonesMeaning(es, x);
    }
    if n :| 0 <= n < |es| && es[n].choice.finish.Reason? {
      DonesMeaning(es, es[n].index);
    }
  }

  /** What the normalizer tracks says exactly whether the chunks are complete. */
  lemma {:induction false} TracksCompleteness(h: seq<Chunk>)
    ensures Follow(AllEntries(h)).finished && Follow(AllEntries(h)).active == {} <==> Complete(h)
  {
    var es := AllEntries(h);
    CompleteExactly(h);
    FinishedExactly(es);
    forall n | 0 <= n < |es| && Sight(es[n]).output && !Sight(es[n]).finished
      ensures !CoveredAfter(es, n) ==> es[n].index in Follow(es).active
    {
      ActiveMeaning(es, es[n].index);
      if !CoveredAfter(es, n) {
        assert OutputAfterFinish(es, n);
      }
    }
    if x :| x in Follow(es).active {
      ActiveMeaning(es, x);
      var n :| 0 <= n < |es| && es[n].index == x && OutputAfterFinish(es, n);
      assert !CoveredAfter(es, n);
    }
  }

  // A complete stream has its terminal chunk.
  lemma {:induction false} CompleteHasTerminal(h: seq<Chunk>)
    requires Complete(h)
    ensures TerminalOf(h).Some? && IsTerminal(h, TerminalOf(h).value)
  {
    TerminalExactly(h);
    var k: nat, i: nat :| At(h, k, i) && FinishesAt(h, k, i);
    assert FinishesChunk(h[k]);
  }

  // What a parsed chunk asks in all: the tool assembler's new charge, its choices, and what is kept of it.
  function PushMoves(tools: Footprint, held: Footprint, h: seq<Chunk>, c: Chunk): seq<Move> {
    [Move(tools, held)] + ChoicesMoves(Follow(AllEntries(h)), Entries(c)) + Next(h, c).moves
  }

  lemma {:induction false} PushSettles(
      total: Footprint, tools: Footprint, held: Footprint, h: seq<Chunk>, c: Chunk, limit: Footprint)
    ensures var assembled := Settle(total, [Move(tools, held)], limit);
            var noted := if assembled.None? then None
                         else Settle(assembled.value, ChoicesMoves(Follow(AllEntries(h)), Entries(c)), limit);
            Settle(total, PushMoves(tools, held, h, c), limit)
            == if noted.None? then None else Settle(noted.value, Next(h, c).moves, limit)
  {
    var a, b := [Move(tools, held)], ChoicesMoves(Follow(AllEntries(h)), Entries(c));
    SettleAppend(total, a, b, limit);
    SettleAppend(total, a + b, Next(h, c).moves, limit);
  }

  // ---------------------------------------------------------------- the object

  // One frame as the transforms and the tool assembler leave it, with what the assembler then holds.
  datatype Input =
    | BlankLine
    | Malformed
    | UpstreamFailed
    | ToolsFailed
    | Withheld(held: Footprint)
    | Parsed(held: Footprint, chunk: Chunk)

  datatype Output = Emitted(chunk: Chunk) | Nothing | Failure

  class StreamNormalizer {
    const budget: RetainedBudget
    const usage: StreamUsage
    var tools: Footprint
    var activity: Activity
    var finished: bool

    // What the tool assembler and the choices hold.
    ghost function Own(): (int, int)
      reads this`tools, this`activity
    {
      (tools.bytes + Marks(activity.seen, activity.active) * MAP_ENTRY_OVERHEAD,
       tools.entries + Marks(activity.seen, activity.active))
    }

    /** The shared ledger is exactly what the parts hold. */
    ghost predicate Ledger()
      reads this`tools, this`activity, usage`kept, usage`charges, usage`fieldCharges, usage`retained, budget
    {
      usage.budget == budget && usage.Ledger() && usage.Others() == Own()
    }

    ghost function Sofar(): seq<Entry>
      reads usage`history
    {
      AllEntries(usage.history)
    }

    ghost predicate Valid()
      reads this, usage, budget
    {
      && Ledger() && usage.Valid()
      && (finished ==> budget.retained == ZERO)
      && (!finished ==> usage.synced && activity == Follow(Sofar()))
    }

    constructor (maxBytes: nat, maxEntries: nat)
      requires maxBytes <= MAX_BYTES && maxEntries <= MAX_ENTRIES
      ensures Valid() && !finished && usage.history == [] && fresh(usage) && fresh(budget)
    {
      var ledger := new RetainedBudget(maxBytes, maxEntries);
      budget := ledger;
      usage := new StreamUsage(ledger);
      tools, activity, finished := ZERO, IDLE, false;
    }

    // Every exit path ends here: nothing is held and the ledger is at zero.
    method ClearRetained()
      requires usage.budget == budget && usage.Ledger()
      modifies this`tools, this`activity, usage, budget
      ensures Ledger() && usage.Valid() && budget.retained == ZERO
    {
      tools := ZERO;
      usage.Clear();
      activity := IDLE;
      budget.Reset();
    }

    method NoteSeen(index: nat) returns (ok: bool)
      requires Ledger()
      modifies this`activity, budget
      ensures usage.budget == budget && usage.Ledger()
      ensures Settle(old(budget.retained), SeenMoves(old(activity), index), budget.limit)
              == if ok then Some(budget.retained) else None
      ensures ok ==> Ledger() && activity == old(activity).(seen := old(activity).seen + {index})
    {
      ok := true;
      SettleOne(budget.retained, RECORD, budget.limit);
      if index !in activity.seen {
        assert |activity.seen + {index}| == |activity.seen| + 1;
        activity := activity.(seen := activity.seen + {index});
        ok := budget.Reserve(Record(0));
      } else {
        assert activity.seen + {index} == activity.seen;
      }
    }

    method NoteFinish(index: nat)
      requires Ledger()
      modifies this`activity, budget
      ensures Ledger()
      ensures Settle(old(budget.retained), if index in old(activity).active then [UNRECORD] else [], budget.limit)
              == Some(budget.retained)
      ensures activity == old(activity).(active := old(activity).active - {index}, finished := true)
    {
      SettleOne(budget.retained, UNRECORD, budget.limit);
      activity := activity.(finished := true);
      if index in activity.active {
        assert |activity.active - {index}| == |activity.active| - 1;
        activity := activity.(active := activity.active - {index});
        budget.Release(Record(0));
      } else {
        assert activity.active - {index} == activity.active;
      }
    }

    method NoteOutput(index: nat) returns (ok: bool)
      requires Ledger()
      modifies this`activity, budget
      ensures usage.budget == budget && usage.Ledger()
      ensures Settle(old(budget.retained), if index in old(activity).active then [] else [RECORD], budget.limit)
              == if ok then Some(budget.retained) else None
      ensures ok ==> Ledger() && activity == old(activity).(active := old(activity).active + {index})
    {
      ok := true;
      SettleOne(budget.retained, RECORD, budget.limit);
      if index !in activity.active {
        assert |activity.active + {index}| == |activity.active| + 1;
        activity := activity.(active := activity.active + {index});
        ok := budget.Reserve(Record(0));
      } else {
        assert activity.active + {index} == activity.active;
      }
    }

    method NoteActivity(o: Sighting) returns (ok: bool)
      requires Ledger() && o.index in activity.seen
      modifies this`activity, budget
      ensures usage.budget == budget && usage.Ledger()
      ensures Settle(old(budget.retained), ActiveMoves(old(activity), o), budget.limit)
              == if ok then Some(budget.retained) else None
      ensures ok ==> Ledger() && activity == Advance(old(activity), o)
    {
      ok := true;
      assert activity.seen + {o.index} == activity.seen;
      if o.finished {
        NoteFinish(o.index);
      } else if o.output {
        ok := NoteOutput(o.index);
      }
    }

    method NoteChoice(o: Sighting) returns (ok: bool)
      requires Ledger()
      modifies this`activity, budget
      ensures usage.budget == budget && usage.Ledger()
      ensures Settle(old(budget.retained), SeenMoves(old(activity), o.index) + ActiveMoves(old(activity), o),
                     budget.limit)
              == if ok then Some(budget.retained) else None
      ensures ok ==> Ledger() && activity == Advance(old(activity), o)
    {
      SettleAppend(budget.retained, SeenMoves(activity, o.index), ActiveMoves(activity, o), budget.limit);
      ok := NoteSeen(o.index);
      if ok {
        ghost var noted := activity;
        ok := NoteActivity(o);
        assert noted.seen + {o.index} == noted.seen;
      }
    }

    method NoteChoices(es: seq<Entry>) returns (ok: bool)
      requires Ledger()
      modifies this`activity, budget
      ensures usage.budget == budget && usage.Ledger()
      ensures Settle(old(budget.retained), ChoicesMoves(old(activity), es), budget.limit)
              == if ok then Some(budget.retained) else None
      ensures ok ==> Ledger() && activity == FollowFrom(old(activity), es)
    {
      ghost var total, a := budget.retained, activity;
      ok := true;
      for k := 0 to |es|
        invariant ok && Ledger() && activity == FollowFrom(a, es[..k])
        invariant Settle(total, ChoicesMoves(a, es[..k]), budget.limit) == Some(budget.retained)
      {
        NextChoice(total, a, es, k, budget.limit);
        ok := NoteChoice(Sight(es[k]));
        if !ok {
          ChoicesRefused(total, a, es, k + 1, budget.limit);
          return;
        }
      }
      assert es[..|es|] == es;
    }

    method Fail()
      requires usage.budget == budget && usage.Ledger()
      modifies this, usage, budget
      ensures Valid() && finished
    {
      finished := true;
      ClearRetained();
    }

    // The tool assembler's new charge.
    method Assemble(held: Footprint) returns (ok: bool)
      requires Ledger()
      modifies this`tools, budget
      ensures usage.budget == budget && usage.Ledger()
      ensures Settle(old(budget.retained), [Move(old(tools), held)], budget.limit)
              == if ok then Some(budget.retained) else None
      ensures ok ==> Ledger() && tools == held
    {
      SettleOne(budget.retained, Move(tools, held), budget.limit);
      ok := budget.Replace(tools, held);
      if ok {
        tools := held;
      }
    }

    // Once its choices are noted, the chunk's terminal parts are kept for the end.
    method Defer(c: Chunk) returns (out: Option<Chunk>)
      requires Ledger() && usage.Valid() && usage.synced && activity == Follow(Sofar() + Entries(c))
      modifies usage, budget
      ensures Ledger() && usage.Valid()
      ensures Settle(old(budget.retained), Next(old(usage.history), c).moves, budget.limit)
              == if out.Some? then Some(budget.retained) else None
      ensures out.Some? ==> usage.synced && activity == Follow(Sofar()) && out.value == Mute(c)
      ensures out.Some? ==> usage.history == old(usage.history) + [c]
    {
      EntriesStep(usage.history, c);
      out := usage.DeferChatTerminal(c);
      assert Own() == old(Own());
    }

    // A chunk the tool assembler let through.
    method Accept(held: Footprint, c: Chunk) returns (out: Option<Chunk>)
      requires Valid() && !finished
      modifies this`tools, this`activity, usage, budget
      ensures usage.budget == budget && usage.Ledger() && !finished
      ensures Settle(old(budget.retained), PushMoves(old(tools), held, old(usage.history), c), budget.limit)
              == if out.Some? then Some(budget.retained) else None
      ensures out.Some? ==>
                Valid() && usage.history == old(usage.history) + [c] && out.value == Mute(c) && tools == held
    {
      PushSettles(budget.retained, tools, held, usage.history, c, budget.limit);
      FollowAppend(IDLE, Sofar(), Entries(c));
      var ok := Assemble(held);
      if ok {
        ok := NoteChoices(Entries(c));
      }
      if !ok {
        return None;
      }
      out := Defer(c);
    }

    /**
     One pushed frame. What is emitted is the chunk itself with its finish reasons nulled, and the history grows by that
     chunk. A chunk is refused exactly when the ledger cannot bear what it asks; any error ends the stream with nothing
     retained and the ledger at zero.
     */
    method Push(input: Input) returns (out: Output)
      requires Valid()
      modifies this, usage, budget
      ensures Valid()
      ensures out.Failure? ==> finished && budget.retained == ZERO
      ensures !out.Failure? ==> !finished && !old(finished)
      ensures out.Emitted? ==>
                && input.Parsed? && out.chunk == Mute(input.chunk)
                && usage.history == old(usage.history) + [input.chunk] && tools == input.held
      ensures out.Nothing? ==> (input.Withheld? || input.BlankLine?) && usage.history == old(usage.history)
      ensures !old(finished) && input.BlankLine? ==> out.Nothing?
      ensures !old(finished) && input.Parsed? ==>
                Settle(old(budget.retained), PushMoves(old(tools), input.held, old(usage.history), input.chunk),
                       budget.limit)
                == if out.Emitted? then Some(budget.retained) else None
      ensures !old(finished) && input.Withheld? ==>
                Settle(old(budget.retained), [Move(old(tools), input.held)], budget.limit)
                == if out.Nothing? then Some(budget.retained) else None
    {
      if finished {
        ClearRetained();
        return Failure;
      }
      match input
      case BlankLine => return Nothing;
      case Malformed => Fail(); return Failure;
      case UpstreamFailed => Fail(); return Failure;
      case ToolsFailed => Fail(); return Failure;
      case Withheld(held) =>
        var ok := Assemble(held);
        if !ok {
          Fail();
          return Failure;
        }
        return Nothing;
      case Parsed(held, chunk) =>
        var deferred := Accept(held, chunk);
        if deferred.None? {
          Fail();
          return Failure;
        }
        return Emitted(deferred.value);
    }

    /**
     The end of the stream. It succeeds exactly when the tools completed and the chunks are complete: some choice
     finished, and whatever a choice said without finishing has a finish of its index after it. Then there is one
     terminal chunk, the one the whole history amounts to. Either way nothing stays retained.
     */
    method Finish(toolsComplete: bool) returns (ok: bool, terminal: Option<Terminal>)
      requires Valid()
      modifies this, usage, budget
      ensures Valid() && finished && budget.retained == ZERO
      ensures old(finished) ==> ok && terminal.None?
      ensures !old(finished) ==> (ok <==> toolsComplete && Complete(old(usage.history)))
      ensures !old(finished) && ok ==>
                && terminal == TerminalOf(old(usage.history)) && terminal.Some?
                && IsTerminal(old(usage.history), terminal.value)
    {
      terminal := None;
      if finished {
        return true, None;
      }
      finished := true;
      TracksCompleteness(usage.history);
      ok := toolsComplete && activity.finished && activity.active == {};
      if ok {
        CompleteHasTerminal(usage.history);
        terminal := usage.TakeTerminal();
      }
      ClearRetained();
    }

    method Abort()
      requires Valid()
      modifies this, usage, budget
      ensures Valid() && finished && budget.retained == ZERO
    {
      Fail();
    }
  }

  lemma {:induction false} TakeOneMore(chunks: seq<Chunk>, k: nat)
    requires k < |chunks|
    ensures chunks[..k + 1] == chunks[..k] + [chunks[k]]
    ensures k + 1 == |chunks| ==> chunks[..k + 1] == chunks
  {
  }

  // ---------------------------------------------------------------- a whole stream

  function ToolsAt(tools: Footprint, held: seq<Footprint>, k: nat): Footprint
    requires k <= |held|
  {
    if k == 0 then tools else held[k - 1]
  }

  // The ledger's total after a stream, if it bears what every chunk asks; `held` is what the tool assembler holds
  // after each.
  function Bears(total: Footprint, tools: Footprint, chunks: seq<Chunk>, held: seq<Footprint>, limit: Footprint)
      : Option<Footprint>
    requires |chunks| == |held|
  {
    if chunks == [] then Some(total)
    else
      var n := |chunks| - 1;
      var before := Bears(total, tools, chunks[..n], held[..n], limit);
      if before.None? then None
      else Settle(before.value, PushMoves(ToolsAt(tools, held, n), held[n], chunks[..n], chunks[n]), limit)
  }

  // The last chunk of a stream whose others have been pushed.
  method PushLast(
      n: StreamNormalizer, chunks: seq<Chunk>, held: seq<Footprint>, ghost total: Footprint, ghost tools: Footprint)
      returns (o: Output)
    requires n.Valid() && !n.finished && 0 < |chunks| == |held|
    requires n.usage.history == chunks[..|chunks| - 1] && n.tools == ToolsAt(tools, held, |held| - 1)
    requires Bears(total, tools, chunks[..|chunks| - 1], held[..|held| - 1], n.budget.limit) == Some(n.budget.retained)
    modifies n, n.usage, n.budget
    ensures n.Valid() && (o.Failure? <==> n.finished) && (!o.Failure? ==> o == Emitted(Mute(chunks[|chunks| - 1])))
    ensures !o.Failure? ==> n.usage.history == chunks && n.tools == held[|held| - 1]
    ensures Bears(total, tools, chunks, held, n.budget.limit) == if o.Failure? then None else Some(n.budget.retained)
  {
    var k := |chunks| - 1;
    TakeOneMore(chunks, k);
    o := n.Push(Parsed(held[k], chunks[k]));
  }

  /** Chunks are pushed until one fails, and none fails exactly when the ledger bears what they all ask. */
  method PushAll(n: StreamNormalizer, chunks: seq<Chunk>, held: seq<Footprint>) returns (out: seq<Chunk>)
    requires n.Valid() && !n.finished && n.usage.history == [] && |chunks| == |held|
    modifies n, n.usage, n.budget
    ensures n.Valid() && |out| <= |chunks| && (n.finished <==> |out| < |chunks|)
    ensures out <= MuteEach(chunks)
    ensures |out| == |chunks| ==> n.usage.history == chunks && n.tools == ToolsAt(old(n.tools), held, |held|)
    ensures Bears(old(n.budget.retained), old(n.tools), chunks, held, n.budget.limit)
            == if |out| == |chunks| then Some(n.budget.retained) else None
    decreases |chunks|
  {
    if chunks == [] {
      return [];
    }
    ghost var total, tools := n.budget.retained, n.tools;
    var k := |chunks| - 1;
    out := PushAll(n, chunks[..k], held[..k]);
    if |out| == k {
      var o := PushLast(n, chunks, held, total, tools);
      if o.Emitted? {
        out := out + [o.chunk];
      }
    }
  }

  /**
   A whole stream: every chunk goes out as it came, finish reasons apart, and in order, all of them exactly when the
   ledger bears what they ask. The end is then decided by the chunks alone.
   */
  method Normalize(n: StreamNormalizer, chunks: seq<Chunk>, held: seq<Footprint>, toolsComplete: bool)
      returns (out: seq<Chunk>, ok: bool, terminal: Option<Terminal>)
    requires n.Valid() && !n.finished && n.usage.history == [] && |held| == |chunks|
    modifies n, n.usage, n.budget
    ensures n.Valid() && n.finished && n.budget.retained == ZERO
    ensures |out| <= |chunks| && forall i :: 0 <= i < |out| ==> Silenced(out[i], chunks[i])
    ensures |out| == |chunks| <==> Bears(old(n.budget.retained), old(n.tools), chunks, held, n.budget.limit).Some?
    ensures ok <==> |out| == |chunks| && toolsComplete && Complete(chunks)
    ensures ok ==> terminal.Some? && IsTerminal(chunks, terminal.value)
  {
    out := PushAll(n, chunks, held);
    forall i | 0 <= i < |out| ensures Silenced(out[i], chunks[i]) {
      MuteEachAt(chunks, i);
      MuteExactly(chunks[i]);
    }
    ok, terminal := false, None;
    if |out| == |chunks| {
      ok, terminal := n.Finish(toolsComplete);
    }
  }

  // ---------------------------------------------------------------- the two machines side by side

  /** Two machines with the same frames behind them agree on choices and on the bill, whatever state led there. */
  lemma {:induction false} Lockstep(a: NativeStreamUsage, b: StreamUsage)
    requires a.Valid() && a.wire.Choices? && a.synced && b.Valid() && b.synced
    requires a.history == Frames(b.history)
    ensures a.known == b.kept.known && a.finished == b.kept.finished
    ensures CostOf(a.candidate) == b.kept.terminalCost
    ensures IsTerminalCost(a.history, b.kept.terminalCost)
    ensures a.candidate.Some? ==> a.known != {} && a.finished == a.known
    ensures a.candidate.Some? <==> HasCandidate(a.history)
  {
    SummaryAmounts(b.history);
    TerminalBill(a.history);
    HeldMeansFinished(a.history);
  }

  // What one chunk asks of the first machine.
  function WatchMoves(w: Watch, c: Chunk): seq<Move> {
    FrameMoves(w.track, CostOf(w.candidate), Sights(Entries(c)), Observe(c.usage))
  }

  // The totals of the two ledgers after a stream, while they bear what every chunk asks.
  function WatchBears(total: Footprint, w: Watch, chunks: seq<Chunk>, limit: Footprint): Option<Footprint> {
    if chunks == [] then Some(total)
    else
      var before := chunks[..|chunks| - 1];
      var t := WatchBears(total, w, before, limit);
      if t.None? then None else Settle(t.value, WatchMoves(WatchedAll(w, before), chunks[|chunks| - 1]), limit)
  }

  function UsageBears(total: Footprint, chunks: seq<Chunk>, limit: Footprint): Option<Footprint> {
    if chunks == [] then Some(total)
    else
      var before := chunks[..|chunks| - 1];
      var t := UsageBears(total, before, limit);
      if t.None? then None else Settle(t.value, Next(before, chunks[|chunks| - 1]).moves, limit)
  }

  /**
   Fed the same chunk, the two independently written machines keep the same frames behind them, exactly when both
   ledgers bear the chunk. Only the first counts `usage: null` as an observation; the bill does not notice.
   */
  method FeedOne(a: NativeStreamUsage, b: StreamUsage, c: Chunk) returns (ok: bool)
    requires a.Valid() && a.wire.Choices? && a.synced && !a.retentionError
    requires b.Valid() && b.synced && a.budget != b.budget && a.history == Frames(b.history)
    modifies a, a.budget, b, b.budget
    ensures a.Valid() && a.synced && b.Valid()
            && (a.retentionError ==> !ok && a.candidate.None? && a.budget.retained == ZERO)
    ensures ok ==> b.synced && b.history == old(b.history) + [c] && a.history == Frames(b.history)
    ensures ok ==> a.Watching() == Watched(old(a.Watching()), Sights(Entries(c)), Observe(c.usage))
    ensures var bears := Settle(old(a.retained), WatchMoves(old(a.Watching()), c), a.budget.limit);
            if a.retentionError then bears.None? else bears == Some(a.retained)
    ensures !a.retentionError ==>
              Settle(old(b.budget.retained), Next(old(b.history), c).moves, b.budget.limit)
              == if ok then Some(b.budget.retained) else None
  {
    FramesStep(b.history, c);
    var o := a.IngestFrame(Sights(Entries(c)), Observe(c.usage));
    if a.retentionError {
      return false;
    }
    var out := b.DeferChatTerminal(c);
    ok := out.Some?;
  }

  // The last chunk of a stream whose others have been fed.
  method FeedLast(
      a: NativeStreamUsage, b: StreamUsage, chunks: seq<Chunk>,
      ghost w: Watch, ghost watchTotal: Footprint, ghost usageTotal: Footprint) returns (ok: bool)
    requires a.Valid() && a.wire.Choices? && a.synced && !a.retentionError
    requires b.Valid() && b.synced && a.budget != b.budget && a.history == Frames(b.history)
    requires chunks != [] && b.history == chunks[..|chunks| - 1]
             && a.Watching() == WatchedAll(w, chunks[..|chunks| - 1])
    requires WatchBears(watchTotal, w, chunks[..|chunks| - 1], a.budget.limit) == Some(a.retained)
    requires UsageBears(usageTotal, chunks[..|chunks| - 1], b.budget.limit) == Some(b.budget.retained)
    modifies a, a.budget, b, b.budget
    ensures a.Valid() && b.Valid() && a.synced
    ensures ok ==> !a.retentionError && b.synced && b.history == chunks && a.history == Frames(chunks)
    ensures ok ==> a.Watching() == WatchedAll(w, chunks)
    ensures ok ==> WatchBears(watchTotal, w, chunks, a.budget.limit) == Some(a.retained)
    ensures ok ==> UsageBears(usageTotal, chunks, b.budget.limit) == Some(b.budget.retained)
    ensures !ok ==> WatchBears(watchTotal, w, chunks, a.budget.limit).None?
                    || UsageBears(usageTotal, chunks, b.budget.limit).None?
  {
    TakeOneMore(chunks, |chunks| - 1);
    ok := FeedOne(a, b, chunks[|chunks| - 1]);
  }

  /**
   Fed the same whole stream, the two machines end with the same choices, the same finishes and the same bill, and they
   both come through exactly when both ledgers bear what the chunks ask.
   */
  method FeedAll(a: NativeStreamUsage, b: StreamUsage, chunks: seq<Chunk>) returns (ok: bool)
    requires a.Valid() && a.wire.Choices? && a.synced && !a.retentionError && a.history == []
    requires b.Valid() && b.synced && b.history == [] && a.budget != b.budget
    modifies a, a.budget, b, b.budget
    ensures a.Valid() && b.Valid() && a.synced
    ensures ok ==> !a.retentionError && b.synced && b.history == chunks && a.history == Frames(chunks)
    ensures ok ==>
              a.known == b.kept.known && a.finished == b.kept.finished && CostOf(a.candidate) == b.kept.terminalCost
    ensures ok ==> IsBill(chunks, b.kept.terminalCost) && IsCandidate(chunks, a.candidate)
    ensures ok ==> a.Watching() == WatchedAll(old(a.Watching()), chunks)
    ensures ok ==> WatchBears(old(a.retained), old(a.Watching()), chunks, a.budget.limit) == Some(a.retained)
    ensures ok ==> UsageBears(old(b.budget.retained), chunks, b.budget.limit) == Some(b.budget.retained)
    ensures !ok ==> WatchBears(old(a.retained), old(a.Watching()), chunks, a.budget.limit).None?
                    || UsageBears(old(b.budget.retained), chunks, b.budget.limit).None?
    decreases |chunks|
  {
    ghost var w, watchTotal, usageTotal := a.Watching(), a.retained, b.budget.retained;
    ok := true;
    if chunks != [] {
      ok := FeedAll(a, b, chunks[..|chunks| - 1]);
      if ok {
        ok := FeedLast(a, b, chunks, w, watchTotal, usageTotal);
      }
    }
    if ok {
      Lockstep(a, b);
      IsBillExactly(chunks, b.kept.terminalCost);
      CandidateExactly(w, chunks);
    }
  }
}

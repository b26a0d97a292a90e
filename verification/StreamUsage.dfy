/**
 The client side of a stream: the terminal chunk is held back until accounting is known, charged to a shared ledger.
 */
module StreamUsages {
  import opened Common
  import opened ChatHistory
  import opened Chat
  import opened Cost
  import opened Retention

  // What is kept of the chunks so far.
  datatype Kept = Kept(
    known: set<nat>, finished: set<nat>, usage: Option<Usage>, terminal: Option<seq<Field>>,
    choices: map<nat, Choice>, costFloor: Option<real>, terminalCost: Option<real>)

  const NOTHING := Kept({}, {}, None, None, map[], None, None)

  // What each kept thing costs.
  datatype Charges = Charges(usage: Footprint, terminal: Footprint, choices: map<nat, Footprint>)

  const NO_CHARGES := Charges(ZERO, ZERO, map[])

  /** Conservation: the total is the sum over records, usage, terminal, choices and fields. */
  ghost predicate Balanced(k: Kept, c: Charges, fields: map<string, Footprint>, total: Footprint) {
    && total.bytes == Marks(k.known, k.finished) * MAP_ENTRY_OVERHEAD + c.usage.bytes + c.terminal.bytes
                      + SumBytes(c.choices) + SumBytes(fields)
    && total.entries == Marks(k.known, k.finished) + c.usage.entries + c.terminal.entries
                        + SumEntries(c.choices) + SumEntries(fields)
  }

  // ---------------------------------------------------------------- one chunk, on values

  function NoteEntry(k: Kept, e: Entry): Kept {
    var o := Sight(e);
    k.(known := k.known + {o.index},
       finished := if o.finished then k.finished + {o.index} else k.finished - {o.index},
       terminalCost := if Stirs(o, k.known) then None else k.terminalCost,
       choices := if o.finished then k.choices[e.index := Blank(e.choice)] else k.choices)
  }

  function NoteEntries(k: Kept, es: seq<Entry>): Kept {
    if es == [] then k else NoteEntry(NoteEntries(k, es[..|es| - 1]), es[|es| - 1])
  }

  // Whether any of the entries stirs, each judged against what is known when it comes.
  predicate EntriesStir(k: Kept, es: seq<Entry>) {
    && es != []
    && var before := es[..|es| - 1];
       EntriesStir(k, before) || Stirs(Sight(es[|es| - 1]), NoteEntries(k, before).known)
  }

  function SettleUsage(k: Kept, u: UsageField, stirred: bool): Kept {
    if !u.Object? then k
    else
      var cost := Reported(u.usage);
      var bill := if k.known == {} || k.finished != k.known then None
                  else if cost.Some? || stirred || k.terminalCost.None? then cost
                  else k.terminalCost;
      k.(terminalCost := bill, usage := Some(u.usage))
  }

  function KeepEnvelope(k: Kept, rest: seq<Field>): Kept {
    if k.choices != map[] && k.terminal.None? then k.(terminal := Some(rest)) else k
  }

  // The floor, the choices and the bill of a chunk, one after the other.
  function Floored(k: Kept, c: Chunk): Kept {
    k.(costFloor := Highest(k.costFloor, ProviderCost(c.usage)))
  }

  function Noted(k: Kept, c: Chunk): Kept {
    NoteEntries(Floored(k, c), Entries(c))
  }

  function Billed(k: Kept, c: Chunk): Kept {
    SettleUsage(Noted(k, c), c.usage, EntriesStir(Floored(k, c), Entries(c)))
  }

  function Deferred(k: Kept, c: Chunk): Kept {
    KeepEnvelope(Billed(k, c), c.rest)
  }

  // ---------------------------------------------------------------- what one chunk asks of the ledger

  function KnownMoves(k: Kept, index: nat): seq<Move> {
    if index in k.known then [] else [RECORD]
  }

  function FinishedMoves(k: Kept, index: nat, done: bool): seq<Move> {
    if done == (index in k.finished) then [] else if done then [RECORD] else [UNRECORD]
  }

  // A finished choice, kept with an empty delta.
  function DoneMove(c: Charges, e: Entry): Move {
    Keyed(Held(c.choices, e.index), ChoiceJson(Blank(e.choice)), 0)
  }

  function ChargeDone(c: Charges, e: Entry): Charges {
    c.(choices := c.choices[e.index := if DoneMove(c, e).Move? then DoneMove(c, e).replacement else ZERO])
  }

  function EntryMoves(k: Kept, c: Charges, e: Entry): seq<Move> {
    var o := Sight(e);
    KnownMoves(k, o.index) + FinishedMoves(k, o.index, o.finished) + if o.finished then [DoneMove(c, e)] else []
  }

  function ChargeEntry(c: Charges, e: Entry): Charges {
    if Sight(e).finished then ChargeDone(c, e) else c
  }

  function ChargeEntries(c: Charges, es: seq<Entry>): Charges {
    if es == [] then c else ChargeEntry(ChargeEntries(c, es[..|es| - 1]), es[|es| - 1])
  }

  function EntriesMoves(k: Kept, c: Charges, es: seq<Entry>): seq<Move> {
    if es == [] then []
    else
      var before := es[..|es| - 1];
      EntriesMoves(k, c, before) + EntryMoves(NoteEntries(k, before), ChargeEntries(c, before), es[|es| - 1])
  }

  function UsageMoves(c: Charges, u: UsageField): seq<Move> {
    if u.Object? then [Weighed(c.usage, UsageJson(u.usage))] else []
  }

  function ChargeUsage(c: Charges, u: UsageField): Charges {
    if u.Object? && Weighed(c.usage, UsageJson(u.usage)).Move?
    then c.(usage := Weighed(c.usage, UsageJson(u.usage)).replacement) else c
  }

  function TerminalMoves(k: Kept, c: Charges, rest: seq<Field>): seq<Move> {
    if k.choices != map[] && k.terminal.None? then [Weighed(c.terminal, EnvelopeJson(rest))] else []
  }

  function ChargeTerminal(k: Kept, c: Charges, rest: seq<Field>): Charges {
    if k.choices != map[] && k.terminal.None? && Weighed(c.terminal, EnvelopeJson(rest)).Move?
    then c.(terminal := Weighed(c.terminal, EnvelopeJson(rest)).replacement) else c
  }

  // The chunk's choices, then its usage, then its envelope.
  function ChunkMoves(k: Kept, c: Charges, chunk: Chunk): seq<Move> {
    var charged := ChargeEntries(c, Entries(chunk));
    EntriesMoves(Floored(k, chunk), c, Entries(chunk)) + UsageMoves(charged, chunk.usage)
    + TerminalMoves(Billed(k, chunk), ChargeUsage(charged, chunk.usage), chunk.rest)
  }

  function ChargeChunk(k: Kept, c: Charges, chunk: Chunk): Charges {
    var charged := ChargeUsage(ChargeEntries(c, Entries(chunk)), chunk.usage);
    ChargeTerminal(Billed(k, chunk), charged, chunk.rest)
  }

  // ---------------------------------------------------------------- what the kept state means

  /** What is kept is what the history of chunks determines. */
  ghost predicate Amounts(k: Kept, h: seq<Chunk>) {
    && k.known == Known(All(Frames(h))) && k.finished == Finished(All(Frames(h)))
    && k.terminalCost == TerminalCost(Frames(h))
    && k.costFloor == HighestCost(h)
    && k.usage == LastUsage(h)
    && k.choices == Dones(AllEntries(h))
    && k.terminal == Envelope(h)
  }

  lemma {:induction false} NotedMeans(k: Kept, s: seq<Sighting>, es: seq<Entry>, more: seq<Entry>)
    requires k.known == Known(s) && k.finished == Finished(s) && k.choices == Dones(es)
    ensures var n, t := NoteEntries(k, more), Sights(more);
            && n.known == Known(s + t) && n.finished == Finished(s + t) && n.choices == Dones(es + more)
            && (EntriesStir(k, more) <==> AnyStirs(t, Known(s)))
            && n.terminalCost == (if AnyStirs(t, Known(s)) then None else k.terminalCost)
            && n == k.(known := n.known, finished := n.finished, choices := n.choices, terminalCost := n.terminalCost)
    decreases |more|
  {
    var t := Sights(more);
    if more == [] {
      assert s + t == s && es + more == es;
    } else {
      var j := |more| - 1;
      var before := more[..j];
      assert t[..j] == Sights(before) && t[..j + 1] == t && more[..j + 1] == more;
      NotedMeans(k, s, es, before);
      SightingStep(s, t, j);
      DonesStep(es, more, j);
    }
  }

  // Settling the usage turns what is noted of a chunk into what the longer history determines.
  lemma {:induction false} SettledAmounts(
      n: Kept, h: seq<Chunk>, c: Chunk, s: seq<Sighting>, t: seq<Sighting>, stirs: bool)
    requires s == All(Frames(h)) && t == Sights(Entries(c)) && stirs == AnyStirs(t, Known(s))
    requires n.known == Known(s + t) && n.finished == Finished(s + t) && n.choices == Dones(AllEntries(h) + Entries(c))
    requires n.terminalCost == if stirs then None else TerminalCost(Frames(h))
    requires n.costFloor == Highest(HighestCost(h), ProviderCost(c.usage))
    requires n.usage == LastUsage(h) && n.terminal == Envelope(h)
    ensures Amounts(KeepEnvelope(SettleUsage(n, c.usage, stirs), c.rest), h + [c])
  {
    ChunkStep(h, c);
  }

  /** Deferring one chunk keeps exactly what the longer history determines. */
  lemma {:induction false} DeferredAmounts(k: Kept, h: seq<Chunk>, c: Chunk)
    requires Amounts(k, h)
    ensures Amounts(Deferred(k, c), h + [c])
  {
    var floored := k.(costFloor := Highest(k.costFloor, ProviderCost(c.usage)));
    var s, es, more := All(Frames(h)), AllEntries(h), Entries(c);
    NotedMeans(floored, s, es, more);
    SettledAmounts(NoteEntries(floored, more), h, c, s, Sights(more), EntriesStir(floored, more));
  }

  // One more chunk: what is then kept, what is charged for it, and what the chunk asks of the ledger.
  datatype Chunked = Chunked(kept: Kept, charges: Charges, moves: seq<Move>)

  function Next(h: seq<Chunk>, c: Chunk): Chunked
    decreases |h|, 3
  {
    Chunked(KeptWith(h, c), ChargedWith(h, c), AskedWith(h, c))
  }

  function KeptWith(h: seq<Chunk>, c: Chunk): Kept
    decreases |h|, 2
  {
    Deferred(Summary(h), c)
  }

  function ChargedWith(h: seq<Chunk>, c: Chunk): Charges
    decreases |h|, 2
  {
    ChargeChunk(Summary(h), ChargesOf(h), c)
  }

  function AskedWith(h: seq<Chunk>, c: Chunk): seq<Move>
    decreases |h|, 2
  {
    ChunkMoves(Summary(h), ChargesOf(h), c)
  }

  // The kept state after a history, chunk by chunk, and its charges.
  function Summary(h: seq<Chunk>): Kept
    decreases |h|, 1
  {
    if h == [] then NOTHING else Next(h[..|h| - 1], h[|h| - 1]).kept
  }

  function ChargesOf(h: seq<Chunk>): Charges
    decreases |h|, 1
  {
    if h == [] then NO_CHARGES else Next(h[..|h| - 1], h[|h| - 1]).charges
  }

  /**
   Whatever the history, what is kept is the known and finished choices, the bill, the floor, the last usage and the
   last finishes it determines.
   */
  lemma {:induction false} SummaryAmounts(h: seq<Chunk>)
    ensures Amounts(Summary(h), h)
    decreases |h|
  {
    if h != [] {
      var g, c := h[..|h| - 1], h[|h| - 1];
      assert h == g + [c];
      SummaryAmounts(g);
      assert Summary(h) == Next(g, c).kept;
      DeferredAmounts(Summary(g), g, c);
    }
  }

  lemma {:induction false} SummaryStep(h: seq<Chunk>, c: Chunk)
    ensures Summary(h + [c]) == Next(h, c).kept && ChargesOf(h + [c]) == Next(h, c).charges
  {
    assert (h + [c])[..|h|] == h;
  }

  // The one chunk sent at the end: an envelope, the finished choices by index, and the usage.
  datatype Terminal = Terminal(envelope: seq<Field>, choices: map<nat, Choice>, usage: Option<Usage>)

  // The exact bill if one is held; otherwise the highest partial bill, as a floor in place of any stale cost.
  function FinalUsage(u: Usage, bill: Option<real>, highest: Option<real>): Usage {
    if bill.Some? then u.(cost := bill)
    else if highest.Some? then u.(cost := None, stamp := None, floor := highest)
    else u
  }

  // The terminal chunk a history amounts to.
  function TerminalOf(h: seq<Chunk>): Option<Terminal> {
    if Envelope(h).None? then None
    else
      var u := LastUsage(h);
      Some(Terminal(Envelope(h).value, Dones(AllEntries(h)),
                    if u.None? then None else Some(FinalUsage(u.value, TerminalCost(Frames(h)), HighestCost(h)))))
  }

  /**
   The terminal chunk, once stamped: exactly the terminal bill when one is held, otherwise at least every bill the
   stream ever reported.
   */
  lemma {:induction false} TerminalNeverUndercuts(h: seq<Chunk>, catalog: Option<Rates>, i: nat)
    requires i < |h| && TerminalOf(h).Some? && TerminalOf(h).value.usage.Some?
    ensures var s := Stamped(TerminalOf(h).value.usage.value, catalog).stamp.value;
            if TerminalCost(Frames(h)).Some? then s == Stamp(TerminalCost(Frames(h)), Provider)
            else ProviderCost(h[i].usage).Some? ==> s.usd.Some? && s.usd.value >= ProviderCost(h[i].usage).value
  {
    HighestCostBounds(h, i);
    BillsAreNonNegative(h);
    StampNeverUndercuts(TerminalOf(h).value.usage.value, catalog);
  }

  lemma {:induction false} BillsAreNonNegative(h: seq<Chunk>)
    ensures HighestCost(h).Some? ==> HighestCost(h).value >= 0.0
    ensures TerminalCost(Frames(h)).Some? ==> TerminalCost(Frames(h)).value >= 0.0
    decreases |h|
  {
    if h != [] {
      var g, c := h[..|h| - 1], h[|h| - 1];
      assert h == g + [c];
      BillsAreNonNegative(g);
      ChunkStep(g, c);
    }
  }

  // ---------------------------------------------------------------- the object

  class StreamUsage {
    const budget: RetainedBudget
    var kept: Kept
    var charges: Charges
    var fieldCharges: map<string, Footprint>
    var retained: Footprint
    var anthropic: map<string, Json>
    // The chunks deferred since the state was last empty; meaningless after an error, until the state is cleared.
    ghost var history: seq<Chunk>
    ghost var synced: bool

    /** This machine's own count is balanced, and the shared ledger holds at least that. */
    ghost predicate Ledger()
      reads this`kept, this`charges, this`fieldCharges, this`retained, budget
    {
      budget.Valid() && retained.Fits(budget.retained) && Balanced(kept, charges, fieldCharges, retained)
    }

    ghost predicate Valid()
      reads this, budget
    {
      Ledger() && (synced ==> kept == Summary(history) && charges == ChargesOf(history))
    }

    // What the others sharing the ledger hold.
    ghost function Others(): (int, int)
      reads this`retained, budget
    {
      (budget.retained.bytes - retained.bytes, budget.retained.entries - retained.entries)
    }

    constructor (budget: RetainedBudget)
      requires budget.Valid()
      ensures Valid() && this.budget == budget && synced && history == [] && retained == ZERO
    {
      this.budget := budget;
      kept, charges, fieldCharges, retained, anthropic := NOTHING, NO_CHARGES, map[], ZERO, map[];
      history, synced := [], true;
    }

    /** Gives back exactly what was held: nobody else's charge moves. */
    method Clear()
      requires budget.Valid() && retained.Fits(budget.retained)
      modifies this, budget
      ensures Valid() && synced && history == [] && kept == NOTHING && retained == ZERO && anthropic == map[]
      ensures Others() == old(Others())
    {
      kept, charges, fieldCharges, anthropic := NOTHING, NO_CHARGES, map[], map[];
      budget.Release(retained);
      retained := ZERO;
      history, synced := [], true;
    }

    /** Both counts move by the same charge, exactly when the ledger can bear it. */
    method Replace(previous: Footprint, replacement: Footprint) returns (ok: bool)
      requires budget.Valid() && retained.Fits(budget.retained) && previous.Fits(retained)
      modifies budget, this`retained
      ensures budget.Valid() && retained.Fits(budget.retained)
      ensures Settle(old(budget.retained), [Move(previous, replacement)], budget.limit)
              == if ok then Some(budget.retained) else None
      ensures retained == if ok then old(retained).Minus(previous).Plus(replacement) else old(retained)
      ensures Others() == old(Others())
    {
      SettleOne(budget.retained, Move(previous, replacement), budget.limit);
      ok := budget.Replace(previous, replacement);
      if ok {
        retained := Footprint(SaturatingSub(retained.bytes, previous.bytes) + replacement.bytes,
                              SaturatingSub(retained.entries, previous.entries) + replacement.entries);
      }
    }

    method Reserve(footprint: Footprint) returns (ok: bool)
      requires budget.Valid() && retained.Fits(budget.retained)
      modifies budget, this`retained
      ensures budget.Valid() && retained.Fits(budget.retained)
      ensures Settle(old(budget.retained), [Move(ZERO, footprint)], budget.limit)
              == if ok then Some(budget.retained) else None
      ensures retained == if ok then old(retained).Plus(footprint) else old(retained)
      ensures Others() == old(Others())
    {
      SettleOne(budget.retained, Move(ZERO, footprint), budget.limit);
      ok := budget.Reserve(footprint);
      if ok {
        // The ledger has just accepted a larger total, so this sum fits as well.
        var sum := retained.CheckedAdd(footprint);
        retained := sum.value;
      }
    }

    method Release(footprint: Footprint)
      requires budget.Valid() && retained.Fits(budget.retained) && footprint.Fits(retained)
      modifies budget, this`retained
      ensures budget.Valid() && retained.Fits(budget.retained) && retained == old(retained).Minus(footprint)
      ensures Settle(old(budget.retained), [Move(footprint, ZERO)], budget.limit) == Some(budget.retained)
      ensures Others() == old(Others())
    {
      SettleOne(budget.retained, Move(footprint, ZERO), budget.limit);
      budget.Release(footprint);
      retained := Footprint(SaturatingSub(retained.bytes, footprint.bytes),
                            SaturatingSub(retained.entries, footprint.entries));
    }

    method MarkKnown(index: nat) returns (ok: bool)
      requires Ledger()
      modifies this`kept, this`retained, budget
      ensures Ledger() && Others() == old(Others())
      ensures Settle(old(budget.retained), KnownMoves(old(kept), index), budget.limit)
              == if ok then Some(budget.retained) else None
      ensures kept == if ok then old(kept).(known := old(kept).known + {index}) else old(kept)
    {
      ok := true;
      if index !in kept.known {
        ok := Reserve(Record(0));
        if ok {
          assert |kept.known + {index}| == |kept.known| + 1;
          kept := kept.(known := kept.known + {index});
        }
      } else {
        assert kept.known + {index} == kept.known;
      }
    }

    method MarkFinished(index: nat, done: bool) returns (ok: bool)
      requires Ledger()
      modifies this`kept, this`retained, budget
      ensures Ledger() && Others() == old(Others())
      ensures Settle(old(budget.retained), FinishedMoves(old(kept), index, done), budget.limit)
              == if ok then Some(budget.retained) else None
      ensures ok ==>
                kept == old(kept).(finished := if done then old(kept).finished + {index}
                                               else old(kept).finished - {index})
    {
      ok := true;
      if done == (index in kept.finished) {
        assert kept.finished == if done then kept.finished + {index} else kept.finished - {index};
      } else if done {
        ok := Reserve(Record(0));
        if ok {
          assert |kept.finished + {index}| == |kept.finished| + 1;
          kept := kept.(finished := kept.finished + {index});
        }
      } else {
        assert |kept.finished - {index}| == |kept.finished| - 1;
        kept := kept.(finished := kept.finished - {index});
        Release(Record(0));
      }
    }

    // A finished choice is kept with an empty delta.
    method KeepDone(e: Entry) returns (ok: bool)
      requires Ledger()
      modifies this`kept, this`charges, this`retained, budget
      ensures Ledger() && Others() == old(Others())
      ensures Settle(old(budget.retained), [DoneMove(old(charges), e)], budget.limit)
              == if ok then Some(budget.retained) else None
      ensures ok ==> kept == old(kept).(choices := old(kept).choices[e.index := Blank(e.choice)])
      ensures ok ==> charges == ChargeDone(old(charges), e)
    {
      var done := Blank(e.choice);
      var previous := Held(charges.choices, e.index);
      var charge := ChargeFor(previous, ChoiceJson(done), 0);
      SettleOne(budget.retained, DoneMove(charges, e), budget.limit);
      if charge.None? {
        return false;
      }
      SumUpdate(charges.choices, e.index, charge.value);
      ok := Replace(previous, charge.value);
      if ok {
        kept := kept.(choices := kept.choices[e.index := done]);
        charges := charges.(choices := charges.choices[e.index := charge.value]);
      }
    }

    // The marks of one choice.
    method Mark(o: Sighting) returns (ok: bool)
      requires Ledger()
      modifies this`kept, this`retained, budget
      ensures Ledger() && Others() == old(Others())
      ensures Settle(old(budget.retained),
                     KnownMoves(old(kept), o.index) + FinishedMoves(old(kept), o.index, o.finished), budget.limit)
              == if ok then Some(budget.retained) else None
      ensures ok ==>
                kept == old(kept).(
                  known := old(kept).known + {o.index},
                  finished := if o.finished then old(kept).finished + {o.index} else old(kept).finished - {o.index})
    {
      SettleAppend(budget.retained, KnownMoves(kept, o.index), FinishedMoves(kept, o.index, o.finished), budget.limit);
      ok := MarkKnown(o.index);
      if ok {
        ok := MarkFinished(o.index, o.finished);
      }
    }

    // One choice of one chunk.
    method NoteChoice(e: Entry) returns (ok: bool, stirred: bool)
      requires Ledger()
      modifies this`kept, this`charges, this`retained, budget
      ensures Ledger() && Others() == old(Others())
      ensures Settle(old(budget.retained), EntryMoves(old(kept), old(charges), e), budget.limit)
              == if ok then Some(budget.retained) else None
      ensures ok ==> kept == NoteEntry(old(kept), e) && stirred == Stirs(Sight(e), old(kept).known)
      ensures ok ==> charges == ChargeEntry(old(charges), e)
    {
      var o := Sight(e);
      EntrySettles(budget.retained, kept, charges, e, budget.limit);
      stirred := o.index !in kept.known || !o.finished || o.output;
      if stirred {
        kept := kept.(terminalCost := None);
      }
      ok := Mark(o);
      if ok && o.finished {
        ok := KeepDone(e);
      }
    }

    // All choices of one chunk, in order.
    method NoteChoices(es: seq<Entry>) returns (ok: bool, stirred: bool)
      requires Ledger()
      modifies this`kept, this`charges, this`retained, budget
      ensures Ledger() && Others() == old(Others())
      ensures Settle(old(budget.retained), EntriesMoves(old(kept), old(charges), es), budget.limit)
              == if ok then Some(budget.retained) else None
      ensures ok ==> kept == NoteEntries(old(kept), es) && stirred == EntriesStir(old(kept), es)
      ensures ok ==> charges == ChargeEntries(old(charges), es)
    {
      ghost var total, k0, c0 := budget.retained, kept, charges;
      ok, stirred := true, false;
      for k := 0 to |es|
        invariant ok && Ledger() && Others() == old(Others())
        invariant Settle(total, EntriesMoves(k0, c0, es[..k]), budget.limit) == Some(budget.retained)
        invariant kept == NoteEntries(k0, es[..k]) && stirred == EntriesStir(k0, es[..k])
        invariant charges == ChargeEntries(c0, es[..k])
      {
        NextEntry(total, k0, c0, es, k, budget.limit);
        var stirs;
        ok, stirs := NoteChoice(es[k]);
        if !ok {
          EntriesRefused(total, k0, c0, es, k + 1, budget.limit);
          return;
        }
        stirred := stirred || stirs;
      }
      assert es[..|es|] == es;
    }

    method KeepUsage(u: UsageField) returns (ok: bool)
      requires Ledger() && u.Object?
      modifies this`kept, this`charges, this`retained, budget
      ensures Ledger() && Others() == old(Others())
      ensures Settle(old(budget.retained), UsageMoves(old(charges), u), budget.limit)
              == if ok then Some(budget.retained) else None
      ensures ok ==> kept == old(kept).(usage := Some(u.usage)) && charges == ChargeUsage(old(charges), u)
    {
      var estimate := EstimateValue(UsageJson(u.usage));
      SettleOne(budget.retained, Weighed(charges.usage, UsageJson(u.usage)), budget.limit);
      if estimate.None? {
        return false;
      }
      ok := Replace(charges.usage, estimate.value);
      if ok {
        kept, charges := kept.(usage := Some(u.usage)), charges.(usage := estimate.value);
      }
    }

    // The usage of a chunk, once its choices have been noted.
    method SettleBill(u: UsageField, stirred: bool) returns (ok: bool)
      requires Ledger()
      modifies this`kept, this`charges, this`retained, budget
      ensures Ledger() && Others() == old(Others())
      ensures Settle(old(budget.retained), UsageMoves(old(charges), u), budget.limit)
              == if ok then Some(budget.retained) else None
      ensures ok ==> kept == SettleUsage(old(kept), u, stirred) && charges == ChargeUsage(old(charges), u)
    {
      if !u.Object? {
        return true;
      }
      var cost := Reported(u.usage);
      if kept.known != {} && kept.finished == kept.known {
        if cost.Some? || stirred || kept.terminalCost.None? {
          kept := kept.(terminalCost := cost);
        }
      } else {
        kept := kept.(terminalCost := None);
      }
      ok := KeepUsage(u);
    }

    method KeepTerminal(rest: seq<Field>) returns (ok: bool)
      requires Ledger()
      modifies this`kept, this`charges, this`retained, budget
      ensures Ledger() && Others() == old(Others())
      ensures Settle(old(budget.retained), TerminalMoves(old(kept), old(charges), rest), budget.limit)
              == if ok then Some(budget.retained) else None
      ensures ok ==> kept == KeepEnvelope(old(kept), rest) && charges == ChargeTerminal(old(kept), old(charges), rest)
    {
      ok := true;
      if kept.choices != map[] && kept.terminal.None? {
        var estimate := EstimateValue(EnvelopeJson(rest));
        SettleOne(budget.retained, Weighed(charges.terminal, EnvelopeJson(rest)), budget.limit);
        if estimate.None? {
          return false;
        }
        ok := Replace(charges.terminal, estimate.value);
        if ok {
          kept, charges := kept.(terminal := Some(rest)), charges.(terminal := estimate.value);
        }
      }
    }

    // The choices and the bill of a chunk.
    method KeepBill(c: Chunk) returns (ok: bool)
      requires Ledger()
      modifies this`kept, this`charges, this`retained, budget
      ensures Ledger() && Others() == old(Others())
      ensures var entries := Settle(old(budget.retained), EntriesMoves(Floored(old(kept), c), old(charges), Entries(c)),
                                    budget.limit);
              (if entries.None? then None
               else Settle(entries.value, UsageMoves(ChargeEntries(old(charges), Entries(c)), c.usage), budget.limit))
              == if ok then Some(budget.retained) else None
      ensures ok ==> kept == Billed(old(kept), c)
      ensures ok ==> charges == ChargeUsage(ChargeEntries(old(charges), Entries(c)), c.usage)
    {
      kept := kept.(costFloor := Highest(kept.costFloor, ProviderCost(c.usage)));
      var stirred;
      ok, stirred := NoteChoices(Entries(c));
      if ok {
        ok := SettleBill(c.usage, stirred);
      }
    }

    method Keep(c: Chunk, ghost h: seq<Chunk>) returns (ok: bool)
      requires Ledger() && kept == Summary(h) && charges == ChargesOf(h)
      modifies this`kept, this`charges, this`retained, budget
      ensures Ledger() && Others() == old(Others())
      ensures Settle(old(budget.retained), Next(h, c).moves, budget.limit) == if ok then Some(budget.retained) else None
      ensures ok ==> kept == Next(h, c).kept && charges == Next(h, c).charges
    {
      ChunkSettles(budget.retained, h, c, budget.limit);
      NextMeaning(h, c);
      ok := KeepBill(c);
      if ok {
        ok := KeepTerminal(c.rest);
      }
    }

    /**
     One chunk, passed on with its finish reasons nulled; what it finishes and bills is kept for the end. It is refused
     exactly when the ledger cannot bear what it asks, and the ledger stays consistent then too.
     */
    method DeferChatTerminal(c: Chunk) returns (out: Option<Chunk>)
      requires Valid() && synced
      modifies this, budget
      ensures Valid() && Others() == old(Others())
      ensures Settle(old(budget.retained), Next(old(history), c).moves, budget.limit)
              == if out.Some? then Some(budget.retained) else None
      ensures out.Some? ==> synced && history == old(history) + [c] && out.value == Mute(c)
      ensures out.None? ==> !synced
    {
      SummaryStep(history, c);
      var ok := Keep(c, history);
      if !ok {
        synced := false;
        return None;
      }
      history := history + [c];
      return Some(Mute(c));
    }

    /** At the end: the terminal chunk the whole history amounts to, and an empty state. */
    method TakeTerminal() returns (terminal: Option<Terminal>)
      requires Valid() && synced
      modifies this, budget
      ensures Valid() && synced && Others() == old(Others())
      ensures terminal == TerminalOf(old(history))
      ensures terminal.Some? ==> history == [] && retained == ZERO
      ensures terminal.None? ==> kept == old(kept) && history == old(history)
    {
      SummaryAmounts(history);
      if kept.terminal.None? {
        return None;
      }
      var usage := kept.usage;
      if usage.Some? {
        if kept.terminalCost.Some? {
          usage := Some(usage.value.(cost := kept.terminalCost));
        } else if kept.costFloor.Some? {
          usage := Some(usage.value.(cost := None, stamp := None, floor := kept.costFloor));
        }
      }
      terminal := Some(Terminal(kept.terminal.value, kept.choices, usage));
      Clear();
    }

    method KeepField(field: Field) returns (ok: bool)
      requires Ledger()
      modifies this`fieldCharges, this`retained, this`anthropic, budget
      ensures Ledger() && Others() == old(Others())
      ensures Settle(old(budget.retained), [FieldMove(old(fieldCharges), field)], budget.limit)
              == if ok then Some(budget.retained) else None
      ensures ok ==> fieldCharges == FieldCharged(old(fieldCharges), field)
      ensures ok ==> anthropic == old(anthropic)[field.key := field.value]
      ensures !ok ==> fieldCharges == old(fieldCharges) && anthropic == old(anthropic)
    {
      var previous := Held(fieldCharges, field.key);
      var charge := ChargeFor(previous, field.value, |field.key|);
      SettleOne(budget.retained, FieldMove(fieldCharges, field), budget.limit);
      if charge.None? {
        return false;
      }
      SumUpdate(fieldCharges, field.key, charge.value);
      ok := Replace(previous, charge.value);
      if ok {
        fieldCharges := fieldCharges[field.key := charge.value];
        anthropic := anthropic[field.key := field.value];
      }
    }

    /**
     The Anthropic half: usage fields merged one by one, each charge replacing its key's previous one, until the ledger
     cannot bear the next.
     */
    method IngestFields(fields: seq<Field>) returns (ok: bool)
      requires Ledger()
      modifies this`fieldCharges, this`retained, this`anthropic, budget
      ensures Ledger() && Others() == old(Others())
      ensures Settle(old(budget.retained), FieldMoves(old(fieldCharges), fields), budget.limit)
              == if ok then Some(budget.retained) else None
      ensures ok ==>
                anthropic == Merged(old(anthropic), fields) && fieldCharges == ChargedAll(old(fieldCharges), fields)
    {
      ok := true;
      for k := 0 to |fields|
        invariant Ledger() && Others() == old(Others()) && ok
        invariant Settle(old(budget.retained), FieldMoves(old(fieldCharges), fields[..k]), budget.limit)
                  == Some(budget.retained)
        invariant anthropic == Merged(old(anthropic), fields[..k])
        invariant fieldCharges == ChargedAll(old(fieldCharges), fields[..k])
      {
        assert fields[..k + 1][..k] == fields[..k];
        SettleAppend(old(budget.retained), FieldMoves(old(fieldCharges), fields[..k]),
                     [FieldMove(fieldCharges, fields[k])], budget.limit);
        ok := KeepField(fields[k]);
        if !ok {
          FieldsRefused(old(budget.retained), old(fieldCharges), fields, k + 1, budget.limit);
          return;
        }
      }
      assert fields[..|fields|] == fields;
    }
  }

  // ---------------------------------------------------------------- the usage events of a whole stream

  /**
   The charges after a whole stream of usage events are those of all their fields written one after the other, and it
   goes through exactly when the ledger can bear that. From an empty table, then, every key is charged for its record
   exactly when no key was sent twice.
   */
  method IngestStream(u: StreamUsage, frames: seq<seq<Field>>) returns (ok: bool)
    requires u.Ledger()
    modifies u`fieldCharges, u`retained, u`anthropic, u.budget
    ensures u.Ledger() && u.Others() == old(u.Others())
    ensures Settle(old(u.budget.retained), FieldMoves(old(u.fieldCharges), Flat(frames)), u.budget.limit)
            == if ok then Some(u.budget.retained) else None
    ensures ok ==> u.fieldCharges == ChargedAll(old(u.fieldCharges), Flat(frames))
    ensures ok ==> u.anthropic == Merged(old(u.anthropic), Flat(frames)) && AllWeighed(Flat(frames))
    ensures ok && old(u.fieldCharges) == map[] ==>
              ((forall key :: key in u.fieldCharges ==> RecordCharged(Flat(frames), key)) <==>
               (forall key :: key in u.fieldCharges ==> Writes(Flat(frames), key) == 1))
    decreases |frames|
  {
    ghost var total, m := u.budget.retained, u.fieldCharges;
    ok := true;
    if frames != [] {
      ghost var before, last := Flat(frames[..|frames| - 1]), frames[|frames| - 1];
      ChargedAppend(m, before, last);
      MergedAppend(u.anthropic, before, last);
      SettleAppend(total, FieldMoves(m, before), FieldMoves(ChargedAll(m, before), last), u.budget.limit);
      ok := IngestStream(u, frames[..|frames| - 1]);
      if ok {
        ok := u.IngestFields(frames[|frames| - 1]);
      }
    }
    if ok {
      BorneIsWeighed(total, m, Flat(frames), u.budget.limit);
      RecordsChargedExactly(Flat(frames));
    }
  }

  // ---------------------------------------------------------------- when a choice's record is charged

  function Finishes(es: seq<Entry>, index: nat): nat {
    if es == [] then 0
    else
      var e := es[|es| - 1];
      Finishes(es[..|es| - 1], index) + if e.index == index && Sight(e).finished then 1 else 0
  }

  predicate DonesWeighed(es: seq<Entry>) {
    es != [] ==>
      && DonesWeighed(es[..|es| - 1])
      && (Sight(es[|es| - 1]).finished ==> Estimate(ChoiceJson(Blank(es[|es| - 1].choice))).Some?)
  }

  /** A choice is charged for its last finish, and for its record exactly when it finished once. */
  lemma {:induction false} DoneCharges(es: seq<Entry>, index: nat)
    requires DonesWeighed(es)
    ensures var charges := ChargeEntries(NO_CHARGES, es).choices;
            && (Finishes(es, index) > 0 <==> index in charges) && (Finishes(es, index) > 0 <==> index in Dones(es))
            && (Finishes(es, index) > 0 ==>
                  && Estimate(ChoiceJson(Dones(es)[index])).Some?
                  && charges[index] == Estimate(ChoiceJson(Dones(es)[index])).value.Plus(
                                         if Finishes(es, index) == 1 then Record(0) else ZERO))
    decreases |es|
  {
    if es != [] {
      DoneCharges(es[..|es| - 1], index);
    }
  }

  lemma {:induction false} EntriesAppend(c: Charges, a: seq<Entry>, b: seq<Entry>)
    ensures ChargeEntries(c, a + b) == ChargeEntries(ChargeEntries(c, a), b)
    decreases |b|
  {
    if b == [] {
      assert a + b == a;
    } else {
      var n := |b| - 1;
      assert (a + b)[..|a + b| - 1] == a + b[..n];
      EntriesAppend(c, a, b[..n]);
    }
  }

  // Choices are charged alike whatever else is.
  lemma {:induction false} ChoicesAlone(c: Charges, d: Charges, es: seq<Entry>)
    requires c.choices == d.choices
    ensures ChargeEntries(c, es).choices == ChargeEntries(d, es).choices
    decreases |es|
  {
    if es != [] {
      ChoicesAlone(c, d, es[..|es| - 1]);
    }
  }

  /** The charges of a machine's choices are those of the history's entries. */
  lemma {:induction false} ChoiceCharges(h: seq<Chunk>)
    ensures ChargesOf(h).choices == ChargeEntries(NO_CHARGES, AllEntries(h)).choices
    decreases |h|
  {
    if h != [] {
      var g, c := h[..|h| - 1], h[|h| - 1];
      assert h == g + [c];
      ChoiceCharges(g);
      NextMeaning(g, c);
      EntriesStep(g, c);
      EntriesAppend(NO_CHARGES, AllEntries(g), Entries(c));
      ChoicesAlone(ChargesOf(g), ChargeEntries(NO_CHARGES, AllEntries(g)), Entries(c));
    }
  }

  // ---------------------------------------------------------------- refusals

  lemma {:induction false} EntrySettles(total: Footprint, k: Kept, c: Charges, e: Entry, limit: Footprint)
    ensures var o := Sight(e);
            var marked := Settle(total, KnownMoves(k, o.index) + FinishedMoves(k, o.index, o.finished), limit);
            Settle(total, EntryMoves(k, c, e), limit)
            == if marked.None? || !o.finished then marked else Settle(marked.value, [DoneMove(c, e)], limit)
  {
    var o := Sight(e);
    var marks := KnownMoves(k, o.index) + FinishedMoves(k, o.index, o.finished);
    SettleAppend(total, marks, if o.finished then [DoneMove(c, e)] else [], limit);
    assert marks + [] == marks;
  }

  lemma {:induction false} NextEntry(total: Footprint, k: Kept, c: Charges, es: seq<Entry>, n: nat, limit: Footprint)
    requires n < |es|
    ensures var noted, charged := NoteEntries(k, es[..n]), ChargeEntries(c, es[..n]);
            var before := Settle(total, EntriesMoves(k, c, es[..n]), limit);
            && Settle(total, EntriesMoves(k, c, es[..n + 1]), limit)
               == (if before.None? then None else Settle(before.value, EntryMoves(noted, charged, es[n]), limit))
            && NoteEntries(k, es[..n + 1]) == NoteEntry(noted, es[n])
            && ChargeEntries(c, es[..n + 1]) == ChargeEntry(charged, es[n])
            && (EntriesStir(k, es[..n + 1]) <==> EntriesStir(k, es[..n]) || Stirs(Sight(es[n]), noted.known))
  {
    assert es[..n + 1][..n] == es[..n];
    SettleAppend(total, EntriesMoves(k, c, es[..n]),
                 EntryMoves(NoteEntries(k, es[..n]), ChargeEntries(c, es[..n]), es[n]), limit);
  }

  // A refusal is not undone by what comes later.
  lemma {:induction false} EntriesRefused(
      total: Footprint, k: Kept, c: Charges, es: seq<Entry>, n: nat, limit: Footprint)
    requires n <= |es| && Settle(total, EntriesMoves(k, c, es[..n]), limit).None?
    ensures Settle(total, EntriesMoves(k, c, es), limit).None?
    decreases |es| - n
  {
    if n < |es| {
      NextEntry(total, k, c, es, n, limit);
      EntriesRefused(total, k, c, es, n + 1, limit);
    } else {
      assert es[..n] == es;
    }
  }

  lemma {:induction false} ChunkSettles(total: Footprint, h: seq<Chunk>, c: Chunk, limit: Footprint)
    ensures var k, charges := Summary(h), ChargesOf(h);
            var charged := ChargeEntries(charges, Entries(c));
            var entries := Settle(total, EntriesMoves(Floored(k, c), charges, Entries(c)), limit);
            var usage := if entries.None? then None else Settle(entries.value, UsageMoves(charged, c.usage), limit);
            Settle(total, Next(h, c).moves, limit)
            == if usage.None? then None
               else Settle(usage.value, TerminalMoves(Billed(k, c), ChargeUsage(charged, c.usage), c.rest), limit)
  {
    var k, charges := Summary(h), ChargesOf(h);
    var charged := ChargeEntries(charges, Entries(c));
    var a, b := EntriesMoves(Floored(k, c), charges, Entries(c)), UsageMoves(charged, c.usage);
    SettleAppend(total, a, b, limit);
    SettleAppend(total, a + b, TerminalMoves(Billed(k, c), ChargeUsage(charged, c.usage), c.rest), limit);
  }

  lemma {:induction false} NextMeaning(h: seq<Chunk>, c: Chunk)
    ensures Next(h, c).kept == KeepEnvelope(Billed(Summary(h), c), c.rest)
    ensures Next(h, c).charges
            == ChargeTerminal(Billed(Summary(h), c),
                              ChargeUsage(ChargeEntries(ChargesOf(h), Entries(c)), c.usage), c.rest)
  {
  }
}

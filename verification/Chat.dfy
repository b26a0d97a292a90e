/** Chat Completions chunks, with the fields the stream accounting reads, and what a history of chunks amounts to. */
module Chat {
  import opened Common
  import opened ChatHistory
  import opened Cost
  import opened Retention

  datatype Finish = Unfinished | Reason(text: string)

  datatype Delta = NoDelta | Delta(fields: seq<Field>)

  datatype Choice = Choice(index: Option<nat>, finish: Finish, delta: Delta, rest: seq<Field>)

  // `usage` may be missing, null or another non-object, or a usage object.
  datatype UsageField = Absent | NotObject | Object(usage: Usage)

  datatype Chunk = Chunk(choices: Option<seq<Choice>>, usage: UsageField, rest: seq<Field>)

  // A choice with the index it is tracked under: its own, or its position.
  datatype Entry = Entry(index: nat, choice: Choice)

  function Entries(c: Chunk): seq<Entry> {
    if c.choices.None? then [] else Numbered(c.choices.value)
  }

  function Numbered(cs: seq<Choice>): seq<Entry> {
    if cs == [] then []
    else
      var n := |cs| - 1;
      Numbered(cs[..n]) + [Entry(if cs[n].index.Some? then cs[n].index.value else n, cs[n])]
  }

  function Sight(e: Entry): Sighting {
    Sighting(e.index, e.choice.finish.Reason?, e.choice.delta.Delta? && e.choice.delta.fields != [])
  }

  function Sights(es: seq<Entry>): (ss: seq<Sighting>)
    ensures |ss| == |es|
    ensures forall i :: 0 <= i < |es| ==> ss[i] == Sight(es[i])
  {
    if es == [] then [] else Sights(es[..|es| - 1]) + [Sight(es[|es| - 1])]
  }

  function ProviderCost(u: UsageField): Option<real> {
    if u.Object? then Reported(u.usage) else None
  }

  function FrameOf(c: Chunk): Frame {
    Frame(Sights(Entries(c)), !c.usage.Absent?, ProviderCost(c.usage))
  }

  function Frames(h: seq<Chunk>): (fs: seq<Frame>)
    ensures |fs| == |h|
  {
    if h == [] then [] else Frames(h[..|h| - 1]) + [FrameOf(h[|h| - 1])]
  }

  function AllEntries(h: seq<Chunk>): seq<Entry> {
    if h == [] then [] else AllEntries(h[..|h| - 1]) + Entries(h[|h| - 1])
  }

  // ---------------------------------------------------------------- what is kept for the terminal chunk

  function Blank(c: Choice): Choice {
    c.(delta := Delta([]))
  }

  // The last finished form of every choice that ever finished, with an empty delta.
  function Dones(es: seq<Entry>): map<nat, Choice> {
    if es == [] then map[]
    else
      var before, e := Dones(es[..|es| - 1]), es[|es| - 1];
      if e.choice.finish.Reason? then before[e.index := Blank(e.choice)] else before
  }

  /**
   The kept choice is the one whose finish came last under that index, and there is one exactly when some finish came.
   */
  lemma {:induction false} DonesMeaning(es: seq<Entry>, x: nat)
    ensures x in Dones(es) <==> exists i :: 0 <= i < |es| && es[i].index == x && es[i].choice.finish.Reason?
    ensures x in Dones(es) ==>
              exists i :: 0 <= i < |es| && IsLastFinish(es, i) && es[i].index == x
                          && Dones(es)[x] == Blank(es[i].choice)
    decreases |es|
  {
    if es != [] {
      var n := |es| - 1;
      var before, e := es[..n], es[n];
      DonesMeaning(before, x);
      if e.choice.finish.Reason? && e.index == x {
        assert IsLastFinish(es, n);
      } else if x in Dones(before) {
        var i :| 0 <= i < n && IsLastFinish(before, i) && before[i].index == x
                 && Dones(before)[x] == Blank(before[i].choice);
        assert es[i] == before[i];
        assert IsLastFinish(es, i) by {
          assert forall j :: i < j < n ==> es[j] == before[j];
        }
      }
      assert forall i :: 0 <= i < n ==> es[i] == before[i];
    }
  }

  predicate IsLastFinish(es: seq<Entry>, i: nat)
    requires i < |es|
  {
    && es[i].choice.finish.Reason?
    && forall j :: i < j < |es| && es[j].index == es[i].index ==> !es[j].choice.finish.Reason?
  }

  function LastUsage(h: seq<Chunk>): Option<Usage> {
    if h == [] then None
    else if h[|h| - 1].usage.Object? then Some(h[|h| - 1].usage.usage)
    else LastUsage(h[..|h| - 1])
  }

  // The highest bill any chunk reported.
  function HighestCost(h: seq<Chunk>): Option<real> {
    if h == [] then None else Highest(HighestCost(h[..|h| - 1]), ProviderCost(h[|h| - 1].usage))
  }

  // The envelope of the first chunk that finished a choice.
  function Envelope(h: seq<Chunk>): Option<seq<Field>> {
    if h == [] then None
    else
      var before, c := Envelope(h[..|h| - 1]), h[|h| - 1];
      if before.Some? then before
      else if Dones(AllEntries(h)) != map[] then Some(c.rest)
      else None
  }

  lemma {:induction false} EntriesStep(h: seq<Chunk>, c: Chunk)
    ensures AllEntries(h + [c]) == AllEntries(h) + Entries(c)
  {
    assert (h + [c])[..|h|] == h;
  }

  lemma {:induction false} FramesStep(h: seq<Chunk>, c: Chunk)
    ensures Frames(h + [c]) == Frames(h) + [FrameOf(c)]
  {
    assert (h + [c])[..|h|] == h;
  }

  lemma {:induction false} HistoryStep(h: seq<Chunk>, c: Chunk)
    ensures var g := h + [c];
            && Frames(g) == Frames(h) + [FrameOf(c)]
            && AllEntries(g) == AllEntries(h) + Entries(c)
            && LastUsage(g) == (if c.usage.Object? then Some(c.usage.usage) else LastUsage(h))
            && HighestCost(g) == Highest(HighestCost(h), ProviderCost(c.usage))
            && Envelope(g) == if Envelope(h).Some? then Envelope(h)
                              else if Dones(AllEntries(h) + Entries(c)) != map[] then Some(c.rest) else None
  {
    assert (h + [c])[..|h|] == h;
  }

  // Everything the next chunk does to what a history amounts to.
  lemma {:induction false} ChunkStep(h: seq<Chunk>, c: Chunk)
    ensures var g, s, t := h + [c], All(Frames(h)), Sights(Entries(c));
            && All(Frames(g)) == s + t
            && TerminalCost(Frames(g))
               == NextCost(TerminalCost(Frames(h)), AnyStirs(t, Known(s)), AllFinished(s + t), ProviderCost(c.usage))
            && (!AnyStirs(t, Known(s)) && !AllFinished(s + t) ==> TerminalCost(Frames(h)).None?)
            && AllEntries(g) == AllEntries(h) + Entries(c)
            && LastUsage(g) == (if c.usage.Object? then Some(c.usage.usage) else LastUsage(h))
            && HighestCost(g) == Highest(HighestCost(h), ProviderCost(c.usage))
            && Envelope(g) == if Envelope(h).Some? then Envelope(h)
                              else if Dones(AllEntries(h) + Entries(c)) != map[] then Some(c.rest) else None
  {
    HistoryStep(h, c);
    BillStep(Frames(h), FrameOf(c));
  }

  lemma {:induction false} DonesStep(es: seq<Entry>, more: seq<Entry>, k: nat)
    requires k < |more|
    ensures Dones(es + more[..k + 1])
         == if more[k].choice.finish.Reason? then Dones(es + more[..k])[more[k].index := Blank(more[k].choice)]
            else Dones(es + more[..k])
  {
    var all := es + more[..k + 1];
    assert all[..|all| - 1] == es + more[..k] && all[|all| - 1] == more[k];
  }

  lemma {:induction false} HighestCostBounds(h: seq<Chunk>, i: nat)
    requires i < |h|
    ensures ProviderCost(h[i].usage).Some? ==>
              HighestCost(h).Some? && ProviderCost(h[i].usage).value <= HighestCost(h).value
    decreases |h|
  {
    if i < |h| - 1 {
      HighestCostBounds(h[..|h| - 1], i);
    }
  }

  // What the receiver sees before the end: the same chunk, finish reasons nulled.
  function Muted(c: Choice): Choice {
    c.(finish := Unfinished)
  }

  function MuteAll(cs: seq<Choice>): seq<Choice> {
    if cs == [] then [] else MuteAll(cs[..|cs| - 1]) + [Muted(cs[|cs| - 1])]
  }

  function Mute(c: Chunk): Chunk {
    if c.choices.None? then c else c.(choices := Some(MuteAll(c.choices.value)))
  }

  /** Muting changes nothing but the finish reason of each choice, all of which become null. */
  lemma {:induction false} MuteAllMeaning(cs: seq<Choice>)
    ensures |MuteAll(cs)| == |cs|
    ensures forall i :: 0 <= i < |cs| ==> MuteAll(cs)[i] == Muted(cs[i])
    decreases |cs|
  {
    if cs != [] {
      MuteAllMeaning(cs[..|cs| - 1]);
    }
  }

  // A stream, each chunk muted.
  function MuteEach(cs: seq<Chunk>): (r: seq<Chunk>)
    ensures |r| == |cs|
  {
    if cs == [] then [] else MuteEach(cs[..|cs| - 1]) + [Mute(cs[|cs| - 1])]
  }

  lemma {:induction false} MuteEachAt(cs: seq<Chunk>, i: nat)
    requires i < |cs|
    ensures MuteEach(cs)[i] == Mute(cs[i])
    decreases |cs|
  {
    if i < |cs| - 1 {
      MuteEachAt(cs[..|cs| - 1], i);
    }
  }

  // ---------------------------------------------------------------- JSON forms, for their size

  function Key(name: string, value: Json): Field {
    Field(name, |name|, value)
  }

  function Optional(name: string, present: bool): seq<Field> {
    if present then [Key(name, Number)] else []
  }

  function ChoiceJson(c: Choice): Json {
    Json.Object(Optional("index", c.index.Some?)
      + [Key("finish_reason", if c.finish.Reason? then Text(|c.finish.text|) else Null)]
      + (if c.delta.Delta? then [Key("delta", Json.Object(c.delta.fields))] else [])
      + c.rest)
  }

  function UsageJson(u: Usage): Json {
    Json.Object(Optional("prompt_tokens", u.prompt.Some?) + Optional("completion_tokens", u.completion.Some?)
      + Optional("cache_read_tokens", u.cacheRead.Some?) + Optional("cache_write_tokens", u.cacheWrite.Some?)
      + Optional("uncached_input_tokens", u.uncached.Some?) + Optional("cost", u.cost.Some?)
      + Optional("provider_cost_floor_usd", u.floor.Some?)
      + (if u.stamp.Some? then [Key("cost_usd", Number), Key("cost_source", Text(8))] else [])
      + u.rest)
  }

  function EnvelopeJson(rest: seq<Field>): Json {
    Json.Object([Key("choices", Array([], 0))] + rest)
  }
}

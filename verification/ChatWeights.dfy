/** What the kept parts of a Chat stream weigh, in bytes. */
module ChatWeights {
  import opened Common
  import opened Chat
  import opened Cost
  import opened Retention

  lemma {:induction false} HeftAppend(a: seq<Field>, b: seq<Field>)
    ensures HeftFields(a + b) == HeftFields(a) + HeftFields(b)
    decreases |b|
  {
    if b == [] {
      assert a + b == a;
    } else {
      assert (a + b)[..|a + b| - 1] == a + b[..|b| - 1];
      HeftAppend(a, b[..|b| - 1]);
    }
  }

  lemma {:induction false} PartsWeigh(a: seq<Field>, b: seq<Field>, c: seq<Field>, d: seq<Field>)
    ensures HeftFields(a + b + c + d) == HeftFields(a) + HeftFields(b) + HeftFields(c) + HeftFields(d)
  {
    HeftAppend(a, b);
    HeftAppend(a + b, c);
    HeftAppend(a + b + c, d);
  }

  lemma {:induction false} ObjectWeighs(
      a: seq<Field>, b: seq<Field>, c: seq<Field>, d: seq<Field>, e: seq<Field>, w: nat, x: nat, y: nat, z: nat)
    requires HeftFields(a) == w && HeftFields(b) == x && HeftFields(c) == y && HeftFields(d) == z
    ensures Heft(Json.Object(a + b + c + d + e)) == 96 + w + x + y + z + HeftFields(e)
  {
    PartsWeigh(a, b, c, d);
    HeftAppend(a + b + c + d, e);
  }

  lemma {:induction false} MemberWeighs(name: string, value: Json)
    ensures HeftFields([Key(name, value)]) == 64 + |name| + Heft(value)
  {
    assert [Key(name, value)][..0] == [];
  }

  // A number under a name, where there is one.
  lemma {:induction false} OptionalWeighs(name: string, present: bool)
    ensures HeftFields(Optional(name, present)) == if present then 160 + |name| else 0
  {
    MemberWeighs(name, Number);
  }

  function Weighs(present: bool, bytes: nat): nat {
    if present then bytes else 0
  }

  function Counters(u: Usage): seq<Field> {
    Optional("prompt_tokens", u.prompt.Some?) + Optional("completion_tokens", u.completion.Some?)
    + Optional("cache_read_tokens", u.cacheRead.Some?) + Optional("cache_write_tokens", u.cacheWrite.Some?)
    + Optional("uncached_input_tokens", u.uncached.Some?)
  }

  lemma {:induction false} CountersWeigh(u: Usage)
    ensures HeftFields(Counters(u))
            == Weighs(u.prompt.Some?, 173) + Weighs(u.completion.Some?, 177) + Weighs(u.cacheRead.Some?, 177)
               + Weighs(u.cacheWrite.Some?, 178) + Weighs(u.uncached.Some?, 181)
  {
    var a, b := Optional("prompt_tokens", u.prompt.Some?), Optional("completion_tokens", u.completion.Some?);
    var c, d := Optional("cache_read_tokens", u.cacheRead.Some?), Optional("cache_write_tokens", u.cacheWrite.Some?);
    var e := Optional("uncached_input_tokens", u.uncached.Some?);
    PartsWeigh(a, b, c, d);
    HeftAppend(a + b + c + d, e);
    OptionalWeighs("prompt_tokens", u.prompt.Some?);
    OptionalWeighs("completion_tokens", u.completion.Some?);
    OptionalWeighs("cache_read_tokens", u.cacheRead.Some?);
    OptionalWeighs("cache_write_tokens", u.cacheWrite.Some?);
    OptionalWeighs("uncached_input_tokens", u.uncached.Some?);
  }

  lemma {:induction false} StampWeighs(stamp: Option<Stamp>)
    ensures HeftFields(if stamp.Some? then [Key("cost_usd", Number), Key("cost_source", Text(8))] else [])
            == Weighs(stamp.Some?, 347)
  {
    if stamp.Some? {
      var usd, source := Key("cost_usd", Number), Key("cost_source", Text(8));
      MemberWeighs("cost_usd", Number);
      MemberWeighs("cost_source", Text(8));
      HeftAppend([usd], [source]);
      assert [usd] + [source] == [usd, source];
    }
  }

  lemma {:induction false} BillsWeigh(u: Usage)
    ensures Heft(UsageJson(u))
            == 96 + HeftFields(Counters(u)) + Weighs(u.cost.Some?, 164) + Weighs(u.floor.Some?, 183)
               + Weighs(u.stamp.Some?, 347) + HeftFields(u.rest)
  {
    var cost, floor := Optional("cost", u.cost.Some?), Optional("provider_cost_floor_usd", u.floor.Some?);
    var stamp := if u.stamp.Some? then [Key("cost_usd", Number), Key("cost_source", Text(8))] else [];
    OptionalWeighs("cost", u.cost.Some?);
    OptionalWeighs("provider_cost_floor_usd", u.floor.Some?);
    StampWeighs(u.stamp);
    ObjectWeighs(Counters(u), cost, floor, stamp, u.rest, HeftFields(Counters(u)), Weighs(u.cost.Some?, 164),
                 Weighs(u.floor.Some?, 183), Weighs(u.stamp.Some?, 347));
  }

  /** A usage: each number under its name, the stamp, and the rest as it came. */
  lemma {:induction false} UsageWeighs(u: Usage)
    ensures Heft(UsageJson(u))
            == 96 + Weighs(u.prompt.Some?, 173) + Weighs(u.completion.Some?, 177) + Weighs(u.cacheRead.Some?, 177)
               + Weighs(u.cacheWrite.Some?, 178) + Weighs(u.uncached.Some?, 181) + Weighs(u.cost.Some?, 164)
               + Weighs(u.floor.Some?, 183) + Weighs(u.stamp.Some?, 347) + HeftFields(u.rest)
  {
    BillsWeigh(u);
    CountersWeigh(u);
  }

  /** A choice: its index, its finish reason or null, its delta, and the rest as it came. */
  lemma {:induction false} ChoiceWeighs(c: Choice)
    ensures Heft(ChoiceJson(c))
            == 96 + Weighs(c.index.Some?, 165)
               + (match c.finish case Reason(text) => 173 + |text| case Unfinished => 173)
               + (match c.delta case Delta(fields) => 165 + HeftFields(fields) case NoDelta => 0) + HeftFields(c.rest)
  {
    var index := Optional("index", c.index.Some?);
    var finish := [Key("finish_reason", if c.finish.Reason? then Text(|c.finish.text|) else Null)];
    var delta := if c.delta.Delta? then [Key("delta", Json.Object(c.delta.fields))] else [];
    OptionalWeighs("index", c.index.Some?);
    FinishWeighs(c.finish);
    DeltaWeighs(c.delta);
    PartsWeigh(index, finish, delta, c.rest);
  }

  lemma {:induction false} FinishWeighs(finish: Finish)
    ensures HeftFields([Key("finish_reason", if finish.Reason? then Text(|finish.text|) else Null)])
            == match finish case Reason(text) => 173 + |text| case Unfinished => 173
  {
    MemberWeighs("finish_reason", if finish.Reason? then Text(|finish.text|) else Null);
  }

  lemma {:induction false} DeltaWeighs(delta: Delta)
    ensures HeftFields(if delta.Delta? then [Key("delta", Json.Object(delta.fields))] else [])
            == match delta case Delta(fields) => 165 + HeftFields(fields) case NoDelta => 0
  {
    if delta.Delta? {
      MemberWeighs("delta", Json.Object(delta.fields));
    }
  }

  /** An envelope: no choices, and the rest as it came. */
  lemma {:induction false} EnvelopeWeighs(rest: seq<Field>)
    ensures Heft(EnvelopeJson(rest)) == 96 + 191 + HeftFields(rest)
  {
    MemberWeighs("choices", Array([], 0));
    HeftAppend([Key("choices", Array([], 0))], rest);
  }
}

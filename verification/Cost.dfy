/** USD accounting: catalog estimates, provider bills and the floor a partial bill sets. Money is exact. */
module Cost {
  import opened Common
  import Retention

  // USD per million tokens; a class may have no published rate.
  datatype Rates = Rates(input: Option<real>, output: Option<real>, cacheRead: Option<real>, cacheWrite: Option<real>)

  datatype Source = Provider | ProviderFloor | Catalog

  // `usage.cost_usd` and `usage.cost_source`, always written together; an unknown cost is an explicit null.
  datatype Stamp = Stamp(usd: Option<real>, source: Source)

  datatype Usage = Usage(
    prompt: Option<nat>, completion: Option<nat>, cacheRead: Option<nat>, cacheWrite: Option<nat>,
    uncached: Option<nat>,
    cost: Option<real>, floor: Option<real>, stamp: Option<Stamp>, rest: seq<Retention.Field>)

  function Count(counter: Option<nat>): nat {
    if counter.Some? then counter.value else 0
  }

  function InputTokens(u: Usage): nat {
    if u.uncached.Some? then u.uncached.value else Count(u.prompt)
  }

  function Charge(tokens: nat, rate: Option<real>): Option<real> {
    if tokens == 0 then Some(0.0)
    else if rate.None? then None
    else Some(tokens as real * rate.value / 1_000_000.0)
  }

  function Highest(a: Option<real>, b: Option<real>): Option<real> {
    if a.None? then b
    else if b.None? then a
    else if a.value < b.value then b else a
  }

  function HighestPublishedRate(r: Rates): (highest: Option<real>)
    ensures highest.None? <==> r == Rates(None, None, None, None)
    ensures forall rate :: rate in [r.input, r.output, r.cacheRead, r.cacheWrite] && rate.Some? ==>
              rate.value <= highest.value
    ensures highest.Some? ==> highest in [r.input, r.output, r.cacheRead, r.cacheWrite]
  {
    Highest(Highest(Highest(r.input, r.output), r.cacheRead), r.cacheWrite)
  }

  function RateFor(own: Option<real>, ceiling: Option<real>): Option<real> {
    if own.Some? then own else ceiling
  }

  predicate Spent(u: Usage) {
    InputTokens(u) > 0 || Count(u.completion) > 0 || Count(u.cacheRead) > 0 || Count(u.cacheWrite) > 0
  }

  function Sum(a: Option<real>, b: Option<real>): Option<real> {
    if a.Some? && b.Some? then Some(a.value + b.value) else None
  }

  function Price(u: Usage, r: Rates): Option<real> {
    if !Spent(u) then None
    else
      var ceiling := HighestPublishedRate(r);
      Sum(Sum(Sum(Charge(InputTokens(u), RateFor(r.input, ceiling)),
                  Charge(Count(u.completion), RateFor(r.output, ceiling))),
              Charge(Count(u.cacheRead), RateFor(r.cacheRead, ceiling))),
          Charge(Count(u.cacheWrite), RateFor(r.cacheWrite, ceiling)))
  }

  /** A price is unknown exactly when nothing was reported spent or no rate at all is published. */
  lemma {:induction false} PriceUnknownExactly(u: Usage, r: Rates)
    ensures Price(u, r).None? <==> !Spent(u) || r == Rates(None, None, None, None)
  {
    var c := HighestPublishedRate(r);
    assert RateFor(r.input, c).None? <==> c.None?;
    assert RateFor(r.output, c).None? <==> c.None?;
    assert RateFor(r.cacheRead, c).None? <==> c.None?;
    assert RateFor(r.cacheWrite, c).None? <==> c.None?;
  }

  lemma {:induction false} RealProduct(a: real, b: real, c: real, d: real)
    requires 0.0 <= a <= b && 0.0 <= c <= d
    ensures 0.0 <= a * c <= b * d
  {
    assert a * c <= a * d;
    assert a * d <= b * d;
  }

  // More tokens at no lower a rate cost no less.
  lemma {:induction false} ChargeMonotone(a: nat, b: nat, rate: Option<real>, other: Option<real>)
    requires a <= b && rate.Some? && other.Some? && 0.0 <= rate.value <= other.value
    ensures Charge(a, rate).value <= Charge(b, other).value
  {
    var p, q := a as real * rate.value, b as real * other.value;
    assert 0.0 <= p <= q by { RealProduct(a as real, b as real, rate.value, other.value); }
    assert p / 1_000_000.0 <= q / 1_000_000.0 && 0.0 <= q / 1_000_000.0;
  }

  predicate NonNegative(r: Rates) {
    forall rate :: rate in [r.input, r.output, r.cacheRead, r.cacheWrite] && rate.Some? ==> rate.value >= 0.0
  }

  predicate AtMost(u: Usage, v: Usage) {
    && InputTokens(u) <= InputTokens(v) && Count(u.completion) <= Count(v.completion)
    && Count(u.cacheRead) <= Count(v.cacheRead) && Count(u.cacheWrite) <= Count(v.cacheWrite)
  }

  lemma {:induction false} PriceGrows(u: Usage, v: Usage, r: Rates)
    requires NonNegative(r) && AtMost(u, v) && Price(u, r).Some?
    ensures Price(v, r).Some? && Price(u, r).value <= Price(v, r).value
  {
    PriceUnknownExactly(u, r);
    PriceUnknownExactly(v, r);
    var c := HighestPublishedRate(r);
    ChargeMonotone(InputTokens(u), InputTokens(v), RateFor(r.input, c), RateFor(r.input, c));
    ChargeMonotone(Count(u.completion), Count(v.completion), RateFor(r.output, c), RateFor(r.output, c));
    ChargeMonotone(Count(u.cacheRead), Count(v.cacheRead), RateFor(r.cacheRead, c), RateFor(r.cacheRead, c));
    ChargeMonotone(Count(u.cacheWrite), Count(v.cacheWrite), RateFor(r.cacheWrite, c), RateFor(r.cacheWrite, c));
  }

  ghost predicate Monotone(r: Rates) {
    forall u, v :: AtMost(u, v) && Price(u, r).Some? ==> Price(v, r).Some? && Price(u, r).value <= Price(v, r).value
  }

  datatype Kind = Input | Output | CacheRead | CacheWrite

  function OwnRate(r: Rates, kind: Kind): Option<real> {
    match kind
    case Input => r.input
    case Output => r.output
    case CacheRead => r.cacheRead
    case CacheWrite => r.cacheWrite
  }

  // Tokens of one class only.
  function Only(kind: Kind, n: nat): Usage {
    Usage(None, Some(if kind.Output? then n else 0), Some(if kind.CacheRead? then n else 0),
          Some(if kind.CacheWrite? then n else 0), Some(if kind.Input? then n else 0), None, None, None, [])
  }

  lemma {:induction false} PriceOfOne(r: Rates, kind: Kind, n: nat)
    requires n > 0 && OwnRate(r, kind).Some?
    ensures Price(Only(kind, n), r) == Charge(n, OwnRate(r, kind))
  {
    match kind {
      case Input =>
      case Output =>
      case CacheRead =>
      case CacheWrite =>
    }
  }

  lemma {:induction false} CheaperTwice(r: Rates, kind: Kind)
    requires OwnRate(r, kind).Some? && OwnRate(r, kind).value < 0.0
    ensures !Monotone(r)
  {
    PriceOfOne(r, kind, 1);
    PriceOfOne(r, kind, 2);
    var rate := OwnRate(r, kind);
    assert Charge(1, rate).value == rate.value / 1_000_000.0 && Charge(2, rate).value == 2.0 * rate.value / 1_000_000.0;
    assert AtMost(Only(kind, 1), Only(kind, 2));
  }

  /** Using more of anything never lowers the price exactly when no published rate is negative. */
  lemma {:induction false} PriceMonotone(r: Rates)
    ensures Monotone(r) <==> NonNegative(r)
  {
    if NonNegative(r) {
      forall u, v | AtMost(u, v) && Price(u, r).Some?
        ensures Price(v, r).Some? && Price(u, r).value <= Price(v, r).value
      {
        PriceGrows(u, v, r);
      }
    } else {
      var kind :=
        if r.input.Some? && r.input.value < 0.0 then Input
        else if r.output.Some? && r.output.value < 0.0 then Output
        else if r.cacheRead.Some? && r.cacheRead.value < 0.0 then CacheRead
        else CacheWrite;
      CheaperTwice(r, kind);
    }
  }

  // ---------------------------------------------------------------- what a price is, in dollars

  function TokensOf(u: Usage, kind: Kind): nat {
    match (kind, u.prompt, u.completion, u.cacheRead, u.cacheWrite, u.uncached)
    case (Input, _, _, _, _, Some(n)) => n
    case (Input, Some(n), _, _, _, None) => n
    case (Output, _, Some(n), _, _, _) => n
    case (CacheRead, _, _, Some(n), _, _) => n
    case (CacheWrite, _, _, _, Some(n), _) => n
    case _ => 0
  }

  ghost predicate NothingSpent(u: Usage) {
    forall kind :: TokensOf(u, kind) == 0
  }

  ghost predicate NothingPublished(r: Rates) {
    forall kind :: OwnRate(r, kind) == None
  }

  // The rate of a class: its own, or the highest published.
  ghost predicate IsRate(r: Rates, kind: Kind, rate: real) {
    match OwnRate(r, kind)
    case Some(own) => rate == own
    case None =>
      && (exists other :: OwnRate(r, other) == Some(rate))
      && forall other :: OwnRate(r, other).Some? ==> OwnRate(r, other).value <= rate
  }

  // A million of a class costs its rate.
  ghost predicate IsPrice(u: Usage, r: Rates, usd: real) {
    exists input, output, read, write ::
      && IsRate(r, Input, input) && IsRate(r, Output, output) && IsRate(r, CacheRead, read)
      && IsRate(r, CacheWrite, write) && Totals(u, input, output, read, write, usd)
  }

  predicate Totals(u: Usage, input: real, output: real, read: real, write: real, usd: real) {
    usd * 1_000_000.0 == TokensOf(u, Input) as real * input + TokensOf(u, Output) as real * output
                         + TokensOf(u, CacheRead) as real * read + TokensOf(u, CacheWrite) as real * write
  }

  ghost predicate IsEstimate(u: Usage, r: Rates, estimate: Option<real>) {
    match estimate
    case None => NothingSpent(u) || NothingPublished(r)
    case Some(usd) => !NothingSpent(u) && IsPrice(u, r, usd)
  }

  lemma {:induction false} ChargeExactly(tokens: nat, rate: real)
    ensures Charge(tokens, Some(rate)).Some?
    ensures Charge(tokens, Some(rate)).value * 1_000_000.0 == tokens as real * rate
  {
    var p := tokens as real * rate;
    assert p / 1_000_000.0 * 1_000_000.0 == p;
  }

  lemma {:induction false} TokensExactly(u: Usage)
    ensures TokensOf(u, Input) == InputTokens(u) && TokensOf(u, Output) == Count(u.completion)
    ensures TokensOf(u, CacheRead) == Count(u.cacheRead) && TokensOf(u, CacheWrite) == Count(u.cacheWrite)
    ensures NothingSpent(u) <==> !Spent(u)
  {
    if !Spent(u) {
      forall kind ensures TokensOf(u, kind) == 0 {
        match kind {
          case Input =>
          case Output =>
          case CacheRead =>
          case CacheWrite =>
        }
      }
    }
  }

  lemma {:induction false} RatesExactly(r: Rates)
    requires HighestPublishedRate(r).Some?
    ensures var c := HighestPublishedRate(r);
            && RateFor(r.input, c).Some? && IsRate(r, Input, RateFor(r.input, c).value)
            && RateFor(r.output, c).Some? && IsRate(r, Output, RateFor(r.output, c).value)
            && RateFor(r.cacheRead, c).Some? && IsRate(r, CacheRead, RateFor(r.cacheRead, c).value)
            && RateFor(r.cacheWrite, c).Some? && IsRate(r, CacheWrite, RateFor(r.cacheWrite, c).value)
  {
    var c := HighestPublishedRate(r);
    assert OwnRate(r, Input) == r.input && OwnRate(r, Output) == r.output;
    assert OwnRate(r, CacheRead) == r.cacheRead && OwnRate(r, CacheWrite) == r.cacheWrite;
    assert exists other :: OwnRate(r, other) == c;
    forall other | OwnRate(r, other).Some? ensures OwnRate(r, other).value <= c.value {
      match other {
        case Input =>
        case Output =>
        case CacheRead =>
        case CacheWrite =>
      }
    }
  }

  lemma {:induction false} ChargesTotal(u: Usage, input: real, output: real, read: real, write: real, usd: real)
    requires Sum(Sum(Sum(Charge(TokensOf(u, Input), Some(input)), Charge(TokensOf(u, Output), Some(output))),
                     Charge(TokensOf(u, CacheRead), Some(read))),
                 Charge(TokensOf(u, CacheWrite), Some(write))) == Some(usd)
    ensures Totals(u, input, output, read, write, usd)
  {
    ChargeExactly(TokensOf(u, Input), input);
    ChargeExactly(TokensOf(u, Output), output);
    ChargeExactly(TokensOf(u, CacheRead), read);
    ChargeExactly(TokensOf(u, CacheWrite), write);
  }

  lemma {:induction false} PriceTotals(u: Usage, r: Rates)
    requires Price(u, r).Some? && HighestPublishedRate(r).Some?
    ensures var c := HighestPublishedRate(r);
            Totals(u, RateFor(r.input, c).value, RateFor(r.output, c).value, RateFor(r.cacheRead, c).value,
                   RateFor(r.cacheWrite, c).value, Price(u, r).value)
  {
    var c := HighestPublishedRate(r);
    TokensExactly(u);
    ChargesTotal(u, RateFor(r.input, c).value, RateFor(r.output, c).value, RateFor(r.cacheRead, c).value,
                 RateFor(r.cacheWrite, c).value, Price(u, r).value);
  }

  lemma {:induction false} NothingPublishedExactly(r: Rates)
    ensures NothingPublished(r) <==> r == Rates(None, None, None, None)
  {
    if NothingPublished(r) {
      assert OwnRate(r, Input) == OwnRate(r, Output) == OwnRate(r, CacheRead) == OwnRate(r, CacheWrite) == None;
    }
  }

  /**
   The price in dollars: a million tokens of a class cost its rate, a class without one is charged the highest, and the
   price is unknown exactly when nothing was spent or nothing is published.
   */
  lemma {:induction false} PriceExactly(u: Usage, r: Rates)
    ensures IsEstimate(u, r, Price(u, r))
  {
    PriceUnknownExactly(u, r);
    TokensExactly(u);
    NothingPublishedExactly(r);
    if Price(u, r).Some? {
      RatesExactly(r);
      PriceTotals(u, r);
    }
  }

  // ---------------------------------------------------------------- missing rates

  // `full` publishes every rate, agrees with `r` where `r` publishes one, and fills the rest in at no more than r's
  // highest.
  predicate Completes(full: Rates, r: Rates) {
    var ceiling := HighestPublishedRate(r);
    && ceiling.Some?
    && Fills(full.input, r.input, ceiling.value) && Fills(full.output, r.output, ceiling.value)
    && Fills(full.cacheRead, r.cacheRead, ceiling.value) && Fills(full.cacheWrite, r.cacheWrite, ceiling.value)
  }

  predicate Fills(full: Option<real>, own: Option<real>, ceiling: real) {
    full.Some? && if own.Some? then full == own else full.value <= ceiling
  }

  function Filled(r: Rates): Rates {
    var c := HighestPublishedRate(r);
    Rates(RateFor(r.input, c), RateFor(r.output, c), RateFor(r.cacheRead, c), RateFor(r.cacheWrite, c))
  }

  lemma {:induction false} ScaledUp(a: real, x: real, y: real)
    requires 0.0 <= a && x <= y
    ensures a * x <= a * y
  {
    assert 0.0 <= a * (y - x);
  }

  lemma {:induction false} CompletionCharges(tokens: nat, full: Option<real>, own: Option<real>, ceiling: real)
    requires Fills(full, own, ceiling)
    ensures Charge(tokens, full).value <= Charge(tokens, RateFor(own, Some(ceiling))).value
  {
    var rate := RateFor(own, Some(ceiling)).value;
    assert tokens as real * full.value <= tokens as real * rate by {
      ScaledUp(tokens as real, full.value, rate);
    }
  }

  /**
   The estimate is the least bound on what any completion of the missing rates would charge: never under, and reached.
   */
  lemma {:induction false} PriceBoundsCompletions(u: Usage, r: Rates, full: Rates)
    requires Completes(full, r) && Spent(u)
    ensures Price(u, full).Some? && Price(u, r).Some? && Price(u, full).value <= Price(u, r).value
    ensures Price(u, Filled(r)) == Price(u, r)
    ensures Completes(Filled(r), r)
  {
    var c := HighestPublishedRate(r);
    CompletionCharges(InputTokens(u), full.input, r.input, c.value);
    CompletionCharges(Count(u.completion), full.output, r.output, c.value);
    CompletionCharges(Count(u.cacheRead), full.cacheRead, r.cacheRead, c.value);
    CompletionCharges(Count(u.cacheWrite), full.cacheWrite, r.cacheWrite, c.value);
    PriceUnknownExactly(u, full);
    PriceUnknownExactly(u, r);
  }

  // ---------------------------------------------------------------- bills

  // A negative number is not a bill.
  function NonNegativeMoney(m: Option<real>): Option<real> {
    if m.Some? && m.value >= 0.0 then m else None
  }

  function Reported(u: Usage): Option<real> {
    NonNegativeMoney(u.cost)
  }

  // `catalog` is the price list for the target, if there is one.
  function CostUsd(u: Usage, catalog: Option<Rates>): Option<real> {
    if catalog.None? then None else Price(u, catalog.value)
  }

  function Resolve(u: Usage, catalog: Option<Rates>): Stamp {
    if Reported(u).Some? then Stamp(Reported(u), Provider) else Stamp(CostUsd(u, catalog), Catalog)
  }

  function Stamped(u: Usage, catalog: Option<Rates>): Usage {
    var resolved, floor := Resolve(u, catalog), NonNegativeMoney(u.floor);
    if resolved.source != Provider && floor.Some? && (resolved.usd.None? || resolved.usd.value < floor.value)
    then u.(stamp := Some(Stamp(floor, ProviderFloor)))
    else u.(stamp := Some(resolved))
  }

  /**
   A stamp is the provider's own bill when there is one, and otherwise the larger of what is known: the estimate and
   the floor.
   */
  lemma {:induction false} StampNeverUndercuts(u: Usage, catalog: Option<Rates>)
    ensures var s := Stamped(u, catalog).stamp.value;
            var estimate, floor := CostUsd(u, catalog), NonNegativeMoney(u.floor);
            if Reported(u).Some? then s == Stamp(Reported(u), Provider)
            else && (s.usd.None? <==> estimate.None? && floor.None?)
                 && (floor.Some? ==> s.usd.value >= floor.value)
                 && (estimate.Some? ==> s.usd.value >= estimate.value)
                 && (s.usd.Some? ==> s.usd == estimate || s.usd == floor)
                 && (s.source == ProviderFloor <==> floor.Some? && (estimate.None? || estimate.value < floor.value))
  {
  }

  // The stamp a usage gets from an estimate: the bill, else the larger of the floor and the estimate.
  predicate IsStamp(u: Usage, estimate: Option<real>, stamp: Stamp) {
    if u.cost.Some? && 0.0 <= u.cost.value then stamp == Stamp(u.cost, Provider)
    else if u.floor.Some? && 0.0 <= u.floor.value && (estimate == None || estimate.value < u.floor.value) then
      stamp == Stamp(u.floor, ProviderFloor)
    else stamp == Stamp(estimate, Catalog)
  }

  // Stamped by the catalog; nothing else changes.
  ghost predicate IsStamped(u: Usage, catalog: Option<Rates>, out: Usage) {
    && out.stamp.Some? && out == u.(stamp := out.stamp)
    && match catalog
       case None => IsStamp(u, None, out.stamp.value)
       case Some(r) => exists estimate :: IsEstimate(u, r, estimate) && IsStamp(u, estimate, out.stamp.value)
  }

  lemma {:induction false} StampExactly(u: Usage, catalog: Option<Rates>)
    ensures IsStamped(u, catalog, Stamped(u, catalog))
  {
    if catalog.Some? {
      PriceExactly(u, catalog.value);
      assert IsStamp(u, Price(u, catalog.value), Stamped(u, catalog).stamp.value);
    } else {
      assert IsStamp(u, None, Stamped(u, catalog).stamp.value);
    }
  }

  class Response {
    var usage: Option<Usage>

    /** Writes both keys in place, or nothing when the body has no usage object. */
    method StampCost(catalog: Option<Rates>)
      modifies this
      ensures usage == if old(usage).Some? then Some(Stamped(old(usage).value, catalog)) else None
      ensures old(usage).Some? ==> IsStamped(old(usage).value, catalog, usage.value)
    {
      if usage.None? {
        return;
      }
      StampExactly(usage.value, catalog);
      var resolved := Resolve(usage.value, catalog);
      var cost, source := resolved.usd, resolved.source;
      var floor := NonNegativeMoney(usage.value.floor);
      if source != Provider && floor.Some? && (cost.None? || cost.value < floor.value) {
        cost, source := floor, ProviderFloor;
      }
      usage := Some(usage.value.(stamp := Some(Stamp(cost, source))));
    }
  }
}

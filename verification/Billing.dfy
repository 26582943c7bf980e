/**
  Token billing (`routing/pricing_cost.go`) in exact arithmetic: usage normalization with int64
  wrap-around, per-million rates and costs rounded to whole micro-dollars.
*/
module Billing {
  import opened Seqs
  import opened Int64

  const MILLION := 1_000_000.0

  // ---------------------------------------------------------------- rounding

  /** Micro-dollars nearest to `v` dollars, halves up; negative amounts count as 0. */
  function Micro(v: real): (n: nat)
    ensures v >= 0.0 ==> n as real - 0.5 <= v * MILLION < n as real + 0.5
  {
    if v < 0.0 then 0 else (v * MILLION + 0.5).Floor
  }

  function RoundCost(v: real): (r: real)
    ensures r >= 0.0
  {
    Micro(v) as real / MILLION
  }

  lemma MicroUnique(v: real, n: nat)
    requires v >= 0.0 && n as real - 0.5 <= v * MILLION < n as real + 0.5
    ensures Micro(v) == n
  {}

  /** A whole number of micro-dollars is left alone. */
  lemma RoundWhole(n: nat)
    ensures RoundCost(n as real / MILLION) == n as real / MILLION
  {
    assert n as real / MILLION * MILLION == n as real;
    MicroUnique(n as real / MILLION, n);
  }

  lemma MicroMonotone(v: real, w: real)
    requires v <= w
    ensures Micro(v) <= Micro(w)
  {}

  /** Rounding moves an amount by at most half a micro-dollar. */
  lemma RoundError(v: real)
    requires v >= 0.0
    ensures -0.0000005 <= RoundCost(v) - v <= 0.0000005
  {
    assert RoundCost(v) * MILLION == Micro(v) as real;
  }

  // ---------------------------------------------------------------- usage

  datatype Usage = Usage(prompt: int, completion: int, total: int, cacheRead: int, cacheCreation: int, promptIncludesCache: Option<bool>)

  datatype BilledUsage = BilledUsage(prompt: nat, completion: nat, total: nat, cacheRead: nat, cacheCreation: nat, billablePrompt: nat)

  ghost predicate FitsInt64(u: Usage) {
    forall x :: x in [u.prompt, u.completion, u.total, u.cacheRead, u.cacheCreation] ==> MIN_INT64 <= x <= MAX_INT64
  }

  function NonNegative(v: int): nat { if v < 0 then 0 else v }

  /** The input side the cache tokens are taken from: the prompt, or the total when nothing is split. */
  function EffectivePrompt(prompt: nat, completion: nat, total: nat): nat {
    if prompt > 0 || completion > 0 then prompt else total
  }

  function RepairedTotal(prompt: nat, completion: nat, total: nat): nat {
    if completion > MAX_INT64 - prompt then MAX_INT64
    else if prompt + completion > total then prompt + completion
    else total
  }

  function IncludesCache(u: Usage): bool { u.promptIncludesCache != Some(false) }

  /** The subtraction as int64 computes it, clamped at 0. */
  function BillableAfterCache(effective: nat, cacheRead: nat, cacheCreation: nat): nat {
    NonNegative(Wrap64(Wrap64(effective - cacheRead) - cacheCreation))
  }

  method NormalizeUsage(u: Usage) returns (b: BilledUsage)
    requires FitsInt64(u)
    ensures b == Normalized(u)
  {
    var prompt, completion, total := NonNegative(u.prompt), NonNegative(u.completion), NonNegative(u.total);
    if completion > MAX_INT64 - prompt {
      total := MAX_INT64;
    } else if prompt + completion > total {
      total := prompt + completion;
    }
    var cacheRead, cacheCreation := NonNegative(u.cacheRead), NonNegative(u.cacheCreation);
    var effective := prompt;
    if !(prompt > 0 || completion > 0) {
      effective := total;
    }
    var billable := effective;
    if IncludesCache(u) {
      billable := NonNegative(Wrap64(Wrap64(effective - cacheRead) - cacheCreation));
    }
    b := BilledUsage(prompt, completion, total, cacheRead, cacheCreation, billable);
  }

  function Normalized(u: Usage): BilledUsage {
    var prompt, completion := NonNegative(u.prompt), NonNegative(u.completion);
    var total := RepairedTotal(prompt, completion, NonNegative(u.total));
    var cacheRead, cacheCreation := NonNegative(u.cacheRead), NonNegative(u.cacheCreation);
    var effective := EffectivePrompt(prompt, completion, total);
    var billable := if IncludesCache(u) then BillableAfterCache(effective, cacheRead, cacheCreation) else effective;
    BilledUsage(prompt, completion, total, cacheRead, cacheCreation, billable)
  }

  /** A total is never below its own parts, except where only saturation at the int64 maximum is possible. */
  lemma TotalCoversParts(u: Usage)
    requires FitsInt64(u)
    ensures var b := Normalized(u);
            && b.total <= MAX_INT64 && b.total >= NonNegative(u.total)
            && (b.prompt + b.completion <= MAX_INT64 ==> b.prompt + b.completion <= b.total)
            && (b.prompt + b.completion > MAX_INT64 ==> b.total == MAX_INT64)
  {
    assert u.prompt in [u.prompt, u.completion, u.total, u.cacheRead, u.cacheCreation];
    assert u.completion in [u.prompt, u.completion, u.total, u.cacheRead, u.cacheCreation];
    assert u.total in [u.prompt, u.completion, u.total, u.cacheRead, u.cacheCreation];
  }

  /**
    The cache tokens are subtracted correctly exactly when the difference stays in int64; below
    that it wraps to a positive count and tokens nobody used are billed.
  */
  lemma BillableExactIff(effective: nat, cacheRead: nat, cacheCreation: nat)
    requires effective <= MAX_INT64 && cacheRead <= MAX_INT64 && cacheCreation <= MAX_INT64
    ensures BillableAfterCache(effective, cacheRead, cacheCreation) == NonNegative(effective - cacheRead - cacheCreation)
      <==> effective - cacheRead - cacheCreation >= MIN_INT64
  {
    var after: int, creation: int := effective - cacheRead, 0 - cacheCreation;
    WrapSum(after, creation);
    var exact := effective - cacheRead - cacheCreation;
    if exact < MIN_INT64 {
      assert 0 <= exact - MIN_INT64 + TWO_64 < TWO_64;
      ModShift(exact - MIN_INT64 + TWO_64, -1);
      assert Wrap64(exact) == exact + TWO_64;
    }
  }

  // ---------------------------------------------------------------- prices

  datatype Pricing = Pricing(quotaType: int, modelRatio: real, completionRatio: real,
                             cacheRatio: Option<real>, cacheCreationRatio: Option<real>, enableGroups: seq<string>)

  /** The cache ratios in force for the model's family when the row gives none (both positive). */
  datatype Fallbacks = Fallbacks(cache: real, creation: real)

  function PositiveOr1(r: real): (x: real)
    ensures x > 0.0
  {
    if r <= 0.0 then 1.0 else r
  }

  function RatioOr(given: Option<real>, fallback: real): (r: real)
    ensures fallback >= 0.0 ==> r >= 0.0
  {
    if given.Some? && given.value >= 0.0 then given.value else fallback
  }

  /** Input, output, cache-read and cache-creation dollars per million tokens. */
  datatype Rates = Rates(input: real, output: real, cacheRead: real, cacheCreation: real)

  /** A model ratio of 1 is two dollars per million input tokens; input itself has ratio 1. */
  function Dollars(model: real, ratio: real, multiplier: real): real {
    model * ratio * 2.0 * multiplier
  }

  function RawRates(p: Pricing, f: Fallbacks, multiplier: real): Rates {
    var model, completion := PositiveOr1(p.modelRatio), PositiveOr1(p.completionRatio);
    Rates(Dollars(model, 1.0, multiplier), Dollars(model, completion, multiplier),
          Dollars(model, RatioOr(p.cacheRatio, f.cache), multiplier),
          Dollars(model, RatioOr(p.cacheCreationRatio, f.creation), multiplier))
  }

  function CacheAwarePerMillionRates(p: Pricing, f: Fallbacks, multiplier: real): Rates {
    var raw := RawRates(p, f, PositiveOr1(multiplier));
    Rates(RoundCost(raw.input), RoundCost(raw.output), RoundCost(raw.cacheRead), RoundCost(raw.cacheCreation))
  }

  function TokenCost(tokens: nat, perMillion: real): real {
    tokens as real / MILLION * perMillion
  }

  datatype Bill = Bill(usage: BilledUsage, rates: Rates, inputCost: real, outputCost: real, cacheReadCost: real,
                       cacheCreationCost: real, totalCost: real)

  /** The cache-aware bill; none for per-call pricing. */
  function Breakdown(p: Pricing, u: Usage, f: Fallbacks, multiplier: real): Option<Bill>
    requires multiplier > 0.0
  {
    if p.quotaType == 1 then None
    else
      var b, rates := Normalized(u), CacheAwarePerMillionRates(p, f, multiplier);
      var inputCost := RoundCost(TokenCost(b.billablePrompt, rates.input));
      var outputCost := RoundCost(TokenCost(b.completion, rates.output));
      var cacheReadCost := RoundCost(TokenCost(b.cacheRead, rates.cacheRead));
      var cacheCreationCost := RoundCost(TokenCost(b.cacheCreation, rates.cacheCreation));
      Some(Bill(b, rates, inputCost, outputCost, cacheReadCost, cacheCreationCost,
                RoundCost(inputCost + outputCost + cacheReadCost + cacheCreationCost)))
  }

  /** The bill without cache detail: the whole input side at the input rate. */
  function FullPrice(p: Pricing, u: Usage, f: Fallbacks, multiplier: real): Option<Bill>
    requires multiplier > 0.0
  {
    if p.quotaType == 1 then None
    else
      var b, rates := Normalized(u), CacheAwarePerMillionRates(p, f, multiplier);
      var inputTokens := if b.prompt == 0 && b.completion == 0 then b.total else b.prompt;
      var inputCost := RoundCost(TokenCost(inputTokens, rates.input));
      var outputCost := RoundCost(TokenCost(b.completion, rates.output));
      Some(Bill(b.(billablePrompt := inputTokens), rates.(cacheRead := 0.0, cacheCreation := 0.0),
                inputCost, outputCost, 0.0, 0.0, RoundCost(inputCost + outputCost)))
  }

  // ---------------------------------------------------------------- error of the bill

  /** What the same tokens cost before any rounding. */
  ghost function UnroundedCost(b: BilledUsage, raw: Rates): real {
    TokenCost(b.billablePrompt, raw.input) + TokenCost(b.completion, raw.output)
    + TokenCost(b.cacheRead, raw.cacheRead) + TokenCost(b.cacheCreation, raw.cacheCreation)
  }

  lemma Scaled(t: real, x: real, y: real, bound: real)
    requires t >= 0.0 && -bound <= x - y <= bound
    ensures -(t * bound) <= t * x - t * y <= t * bound
  {
    assert t * x - t * y == t * (x - y);
    assert t * (bound - (x - y)) >= 0.0 && t * (bound + (x - y)) >= 0.0;
  }

  lemma Times(t: real, rate: real)
    requires t >= 0.0 && rate >= 0.0
    ensures t * rate >= 0.0
  {}

  /** A rate that is off by half a micro-dollar moves the cost by that much per million tokens. */
  lemma CostOfRoundedRate(tokens: nat, rate: real, raw: real)
    requires rate >= 0.0 && -0.0000005 <= rate - raw <= 0.0000005
    ensures TokenCost(tokens, rate) >= 0.0
    ensures var bound := tokens as real / MILLION * 0.0000005;
            -bound <= TokenCost(tokens, rate) - TokenCost(tokens, raw) <= bound
  {
    var t := tokens as real / MILLION;
    Times(t, rate);
    Scaled(t, rate, raw, 0.0000005);
  }

  /** One line of the bill: half a micro-dollar for the cost, and for each token that of its rate. */
  lemma LineError(tokens: nat, raw: real)
    requires raw >= 0.0
    ensures var bound := 0.0000005 + tokens as real / MILLION * 0.0000005;
            -bound <= RoundCost(TokenCost(tokens, RoundCost(raw))) - TokenCost(tokens, raw) <= bound
  {
    var rate := RoundCost(raw);
    RoundError(raw);
    CostOfRoundedRate(tokens, rate, raw);
    var cost := TokenCost(tokens, rate);
    RoundError(cost);
    ErrorsAdd(RoundCost(cost), cost, TokenCost(tokens, raw), 0.0000005, tokens as real / MILLION * 0.0000005);
  }

  lemma ErrorsAdd(a: real, b: real, c: real, first: real, second: real)
    requires -first <= a - b <= first && -second <= b - c <= second
    ensures -(first + second) <= a - c <= first + second
  {}

  lemma SumOfRounded(a: real, b: real, c: real, d: real)
    ensures RoundCost(RoundCost(a) + RoundCost(b) + RoundCost(c) + RoundCost(d))
      == RoundCost(a) + RoundCost(b) + RoundCost(c) + RoundCost(d)
  {
    var n := Micro(a) + Micro(b) + Micro(c) + Micro(d);
    assert RoundCost(a) + RoundCost(b) + RoundCost(c) + RoundCost(d) == n as real / MILLION;
    RoundWhole(n);
  }

  lemma RawRatesNonNegative(p: Pricing, f: Fallbacks, multiplier: real)
    requires multiplier > 0.0 && f.cache > 0.0 && f.creation > 0.0
    ensures var raw := RawRates(p, f, multiplier);
            raw.input >= 0.0 && raw.output >= 0.0 && raw.cacheRead >= 0.0 && raw.cacheCreation >= 0.0
  {}

  /**
    The total charged differs from the unrounded bill by at most half a micro-dollar per line plus
    half a micro-dollar per million billed tokens.
  */
  lemma BillWithinRounding(p: Pricing, u: Usage, f: Fallbacks, multiplier: real)
    requires multiplier > 0.0 && f.cache > 0.0 && f.creation > 0.0 && p.quotaType != 1
    ensures var bill := Breakdown(p, u, f, multiplier).value;
            var tokens := bill.usage.billablePrompt + bill.usage.completion + bill.usage.cacheRead + bill.usage.cacheCreation;
            var bound := 0.0000005 * (4.0 + tokens as real / MILLION);
            -bound <= bill.totalCost - UnroundedCost(bill.usage, RawRates(p, f, multiplier)) <= bound
  {
    var raw, b := RawRates(p, f, multiplier), Normalized(u);
    RawRatesNonNegative(p, f, multiplier);
    LineError(b.billablePrompt, raw.input);
    LineError(b.completion, raw.output);
    LineError(b.cacheRead, raw.cacheRead);
    LineError(b.cacheCreation, raw.cacheCreation);
    SumOfRounded(TokenCost(b.billablePrompt, RoundCost(raw.input)), TokenCost(b.completion, RoundCost(raw.output)),
                 TokenCost(b.cacheRead, RoundCost(raw.cacheRead)), TokenCost(b.cacheCreation, RoundCost(raw.cacheCreation)));
  }

  // ---------------------------------------------------------------- cache-aware against full price

  /** Splitting one line into three, none at a higher rate, rounds up by at most one micro-dollar. */
  lemma SplitLine(plain: nat, read: nat, creation: nat, input: real, readRate: real, creationRate: real)
    requires 0.0 <= readRate <= input && 0.0 <= creationRate <= input
    ensures Micro(TokenCost(plain, input)) + Micro(TokenCost(read, readRate)) + Micro(TokenCost(creation, creationRate))
      <= Micro(TokenCost(plain + read + creation, input)) + 1
  {
    TokenCostMonotone(read, readRate, input);
    TokenCostMonotone(creation, creationRate, input);
    MicroMonotone(TokenCost(read, readRate), TokenCost(read, input));
    MicroMonotone(TokenCost(creation, creationRate), TokenCost(creation, input));
    var a, b, c := TokenCost(plain, input), TokenCost(read, input), TokenCost(creation, input);
    assert TokenCost(plain + read + creation, input) == a + b + c;
    ThreeRoundings(a, b, c);
  }

  lemma TokenCostMonotone(tokens: nat, low: real, high: real)
    requires 0.0 <= low <= high
    ensures 0.0 <= TokenCost(tokens, low) <= TokenCost(tokens, high)
  {}

  lemma ThreeRoundings(a: real, b: real, c: real)
    requires a >= 0.0 && b >= 0.0 && c >= 0.0
    ensures Micro(a) + Micro(b) + Micro(c) <= Micro(a + b + c) + 1
  {
    assert (a + b + c) * MILLION == a * MILLION + b * MILLION + c * MILLION;
  }

  lemma SplitBill(plain: nat, read: nat, creation: nat, rates: Rates, output: real)
    requires 0.0 <= rates.cacheRead <= rates.input && 0.0 <= rates.cacheCreation <= rates.input
    ensures RoundCost(RoundCost(TokenCost(plain, rates.input)) + RoundCost(output)
                      + RoundCost(TokenCost(read, rates.cacheRead)) + RoundCost(TokenCost(creation, rates.cacheCreation)))
      <= RoundCost(RoundCost(TokenCost(plain + read + creation, rates.input)) + RoundCost(output)) + 0.000001
  {
    SplitLine(plain, read, creation, rates.input, rates.cacheRead, rates.cacheCreation);
    SumOfRounded(TokenCost(plain, rates.input), output, TokenCost(read, rates.cacheRead), TokenCost(creation, rates.cacheCreation));
    SumOfRounded(TokenCost(plain + read + creation, rates.input), output, 0.0, 0.0);
    RoundWhole(0);
  }

  lemma ProductMonotone(k: real, x: real, y: real)
    requires k >= 0.0 && x <= y
    ensures k * x <= k * y
  {
    assert k * (y - x) >= 0.0;
  }

  lemma RateAtMostInput(model: real, ratio: real, multiplier: real)
    requires model > 0.0 && 0.0 <= ratio <= 1.0 && multiplier > 0.0
    ensures 0.0 <= RoundCost(Dollars(model, ratio, multiplier)) <= RoundCost(Dollars(model, 1.0, multiplier))
  {
    ProductMonotone(2.0 * multiplier * model, ratio, 1.0);
    assert Dollars(model, ratio, multiplier) == 2.0 * multiplier * model * ratio;
    MicroMonotone(Dollars(model, ratio, multiplier), Dollars(model, 1.0, multiplier));
  }

  /**
    With cache ratios of at most 1 and the cache tokens inside the prompt, the cache-aware bill
    exceeds the full-price bill by at most one micro-dollar.
  */
  lemma CacheDiscountNeverCosts(p: Pricing, u: Usage, f: Fallbacks, multiplier: real)
    requires FitsInt64(u) && multiplier > 0.0 && f.cache > 0.0 && f.creation > 0.0 && p.quotaType != 1 && IncludesCache(u)
    requires RatioOr(p.cacheRatio, f.cache) <= 1.0 && RatioOr(p.cacheCreationRatio, f.creation) <= 1.0
    requires var b := Normalized(u); b.cacheRead + b.cacheCreation <= EffectivePrompt(b.prompt, b.completion, b.total)
    ensures Breakdown(p, u, f, multiplier).value.totalCost <= FullPrice(p, u, f, multiplier).value.totalCost + 0.000001
  {
    var b, rates := Normalized(u), CacheAwarePerMillionRates(p, f, multiplier);
    BillableLeavesCache(u);
    CacheRatesAtMostInput(p, f, multiplier);
    SplitBill(b.billablePrompt, b.cacheRead, b.cacheCreation, rates, TokenCost(b.completion, rates.output));
  }

  lemma CacheRatesAtMostInput(p: Pricing, f: Fallbacks, multiplier: real)
    requires multiplier > 0.0 && f.cache > 0.0 && f.creation > 0.0
    requires RatioOr(p.cacheRatio, f.cache) <= 1.0 && RatioOr(p.cacheCreationRatio, f.creation) <= 1.0
    ensures var rates := CacheAwarePerMillionRates(p, f, multiplier);
            0.0 <= rates.cacheRead <= rates.input && 0.0 <= rates.cacheCreation <= rates.input
  {
    var model, read, creation := PositiveOr1(p.modelRatio), RatioOr(p.cacheRatio, f.cache), RatioOr(p.cacheCreationRatio, f.creation);
    RateAtMostInput(model, read, multiplier);
    RateAtMostInput(model, creation, multiplier);
  }

  /** Cache tokens inside the prompt leave exactly the rest of it billable. */
  lemma BillableLeavesCache(u: Usage)
    requires FitsInt64(u) && IncludesCache(u)
    requires var b := Normalized(u); b.cacheRead + b.cacheCreation <= EffectivePrompt(b.prompt, b.completion, b.total)
    ensures var b := Normalized(u);
            b.billablePrompt + b.cacheRead + b.cacheCreation == EffectivePrompt(b.prompt, b.completion, b.total)
  {
    var b := Normalized(u);
    TotalCoversParts(u);
    NormalizedFits(u);
    BillableExactIff(EffectivePrompt(b.prompt, b.completion, b.total), b.cacheRead, b.cacheCreation);
  }

  lemma NormalizedFits(u: Usage)
    requires FitsInt64(u)
    ensures var b := Normalized(u);
            b.prompt <= MAX_INT64 && b.completion <= MAX_INT64 && b.cacheRead <= MAX_INT64 && b.cacheCreation <= MAX_INT64
  {
    var all := [u.prompt, u.completion, u.total, u.cacheRead, u.cacheCreation];
    assert u.prompt in all && u.completion in all && u.cacheRead in all && u.cacheCreation in all;
  }

  /** The micro-dollar is really lost: half a micro-dollar twice rounds to two, their sum to one. */
  lemma OneMicroDollarIsReached() returns (p: Pricing, u: Usage, f: Fallbacks)
    ensures FitsInt64(u) && IncludesCache(u) && p.quotaType != 1
    ensures f.cache > 0.0 && f.creation > 0.0
    ensures RatioOr(p.cacheRatio, f.cache) == 1.0 && RatioOr(p.cacheCreationRatio, f.creation) == 1.0
    ensures var b := Normalized(u); b.cacheRead + b.cacheCreation <= EffectivePrompt(b.prompt, b.completion, b.total)
    ensures Breakdown(p, u, f, 1.0).value.totalCost == FullPrice(p, u, f, 1.0).value.totalCost + 0.000001
  {
    p, f := Pricing(0, 0.25, 1.0, Some(1.0), Some(1.0), []), Fallbacks(1.0, 1.0);
    u := Usage(2, 0, 2, 1, 0, None);
    var rates := CacheAwarePerMillionRates(p, f, 1.0);
    MicroUnique(0.5, 500_000);
    assert rates == Rates(0.5, 0.5, 0.5, 0.5);
    var half := TokenCost(1, 0.5);
    assert half == 0.0000005 && TokenCost(2, 0.5) == 0.000001 && TokenCost(0, 0.5) == 0.0;
    MicroUnique(half, 1);
    MicroUnique(0.000001, 1);
    MicroUnique(0.000002, 2);
    MicroUnique(0.0, 0);
    assert Normalized(u) == BilledUsage(2, 0, 2, 1, 0, 1);
  }

  // ---------------------------------------------------------------- group multiplier

  ghost predicate Positive(ratios: map<string, real>, g: string) {
    g in ratios && ratios[g] > 0.0
  }

  function Groups(p: Pricing): (gs: seq<string>)
    ensures gs != []
  {
    if p.enableGroups == [] then ["default"] else p.enableGroups
  }

  /** The multipliers the lookup may return: the third step takes whatever the map iteration meets first. */
  ghost predicate IsMultiplier(p: Pricing, ratios: map<string, real>, r: real) {
    var gs := Groups(p);
    if "default" in gs && Positive(ratios, "default") then r == ratios["default"]
    else if exists g :: g in gs && Positive(ratios, g) then
      exists i :: 0 <= i < |gs| && Positive(ratios, gs[i]) && r == ratios[gs[i]] && forall j :: 0 <= j < i ==> !Positive(ratios, gs[j])
    else if exists g :: Positive(ratios, g) then exists g :: Positive(ratios, g) && r == ratios[g]
    else r == 1.0
  }

  method ResolveGroupMultiplier(p: Pricing, ratios: map<string, real>) returns (r: real)
    ensures IsMultiplier(p, ratios, r) && r > 0.0
  {
    var gs := Groups(p);
    if "default" in gs && "default" in ratios && ratios["default"] > 0.0 {
      return ratios["default"];
    }
    for i := 0 to |gs|
      invariant forall j :: 0 <= j < i ==> !Positive(ratios, gs[j])
    {
      if gs[i] in ratios && ratios[gs[i]] > 0.0 {
        assert Positive(ratios, gs[i]) && gs[i] in gs;
        return ratios[gs[i]];
      }
    }
    assert forall g :: g in gs ==> !Positive(ratios, g);
    var rest := ratios.Keys;
    while rest != {}
      invariant rest <= ratios.Keys
      invariant forall g :: Positive(ratios, g) ==> g in rest
      decreases rest
    {
      var g :| g in rest;
      if ratios[g] > 0.0 {
        assert Positive(ratios, g);
        return ratios[g];
      }
      rest := rest - {g};
    }
    r := 1.0;
  }

  /**
    The multiplier is a function of the price row exactly when an enabled group has a positive
    ratio or all positive ratios agree; otherwise two calls for the same request may bill differently.
  */
  lemma MultiplierDeterminedIff(p: Pricing, ratios: map<string, real>)
    ensures (forall r, s :: IsMultiplier(p, ratios, r) && IsMultiplier(p, ratios, s) ==> r == s)
      <==> (exists g :: g in Groups(p) && Positive(ratios, g))
           || forall g, h :: Positive(ratios, g) && Positive(ratios, h) ==> ratios[g] == ratios[h]
  {
    if !exists g :: g in Groups(p) && Positive(ratios, g) {
      forall g, h | Positive(ratios, g) && Positive(ratios, h)
        ensures IsMultiplier(p, ratios, ratios[g]) && IsMultiplier(p, ratios, ratios[h]) {}
    } else {
      forall r, s | IsMultiplier(p, ratios, r) && IsMultiplier(p, ratios, s) ensures r == s {}
    }
  }
}

/** The bill in the fields of the price row and of the reported usage (`routing/pricing_cost.go`). */
module BillLines {
  // Rates, lines and totals are compared with the published price formula written on the stored ratios.
  import opened Seqs
  import opened Int64
  import opened Billing

  // ---------- tokens ----------

  ghost function AtLeastZero(x: int): nat { if x > 0 then x else 0 }

  /** What a normalized usage keeps of the reported one. */
  lemma UsageIsRepaired(u: Usage)
    requires FitsInt64(u)
    ensures var b := Normalized(u);
            var input := if b.prompt + b.completion > 0 then b.prompt else b.total;
            var rest := input - b.cacheRead - b.cacheCreation;
            && b.prompt == AtLeastZero(u.prompt) && b.completion == AtLeastZero(u.completion)
            && b.cacheRead == AtLeastZero(u.cacheRead) && b.cacheCreation == AtLeastZero(u.cacheCreation)
            && (b.prompt + b.completion <= AtLeastZero(u.total) ==> b.total == AtLeastZero(u.total))
            && (AtLeastZero(u.total) < b.prompt + b.completion <= MAX_INT64 ==> b.total == b.prompt + b.completion)
            && (u.promptIncludesCache == Some(false) ==> b.billablePrompt == input)
            && (u.promptIncludesCache != Some(false) && rest >= MIN_INT64 ==> b.billablePrompt == AtLeastZero(rest))
  {
    var b := Normalized(u);
    TotalCoversParts(u);
    NormalizedFits(u);
    BillableExactIff(EffectivePrompt(b.prompt, b.completion, b.total), b.cacheRead, b.cacheCreation);
  }

  // ---------- prices ----------

  /** Two dollars per million input tokens for each unit of the model ratio; other lines by their own ratio. */
  ghost function Price(p: Pricing, ratio: real, multiplier: real): real {
    2.0 * (if p.modelRatio > 0.0 then p.modelRatio else 1.0) * ratio * multiplier
  }
  ghost function CompletionRatio(p: Pricing): real { if p.completionRatio > 0.0 then p.completionRatio else 1.0 }
  ghost function CacheRatio(p: Pricing, f: Fallbacks): real {
    match p.cacheRatio
    case Some(r) => if r < 0.0 then f.cache else r
    case None => f.cache
  }
  ghost function CreationRatio(p: Pricing, f: Fallbacks): real {
    match p.cacheCreationRatio
    case Some(r) => if r < 0.0 then f.creation else r
    case None => f.creation
  }

  lemma Reordered(model: real, ratio: real, multiplier: real)
    ensures Dollars(model, ratio, multiplier) == 2.0 * model * ratio * multiplier
  {}

  lemma RatesArePrices(p: Pricing, f: Fallbacks, multiplier: real)
    requires multiplier > 0.0
    ensures var raw := RawRates(p, f, multiplier);
            && raw.input == Price(p, 1.0, multiplier)
            && raw.output == Price(p, CompletionRatio(p), multiplier)
            && raw.cacheRead == Price(p, CacheRatio(p, f), multiplier)
            && raw.cacheCreation == Price(p, CreationRatio(p, f), multiplier)
  {
    var model := PositiveOr1(p.modelRatio);
    Reordered(model, 1.0, multiplier);
    Reordered(model, CompletionRatio(p), multiplier);
    Reordered(model, CacheRatio(p, f), multiplier);
    Reordered(model, CreationRatio(p, f), multiplier);
  }

  /** `r` is `x` rounded to whole micro-dollars. */
  ghost predicate Rounds(r: real, x: real) { -0.0000005 <= r - x <= 0.0000005 && (r * 1_000_000.0).Floor as real == r * 1_000_000.0 }

  lemma RoundCostRounds(x: real)
    requires x >= 0.0
    ensures Rounds(RoundCost(x), x)
  {
    RoundError(x);
    assert RoundCost(x) * 1_000_000.0 == Micro(x) as real;
  }

  ghost predicate LineOf(cost: real, tokens: nat, rate: real) { Rounds(cost, tokens as real / 1_000_000.0 * rate) }

  lemma LineIsRounded(tokens: nat, rate: real)
    requires rate >= 0.0
    ensures LineOf(RoundCost(TokenCost(tokens, rate)), tokens, rate)
  {
    Times(tokens as real / 1_000_000.0, rate);
    RoundCostRounds(TokenCost(tokens, rate));
  }

  /** Every rate is its published price to the micro-dollar. */
  lemma RatesAreRoundedPrices(p: Pricing, f: Fallbacks, multiplier: real)
    requires multiplier > 0.0 && f.cache > 0.0 && f.creation > 0.0
    ensures var rates := CacheAwarePerMillionRates(p, f, multiplier);
            && Rounds(rates.input, Price(p, 1.0, multiplier))
            && Rounds(rates.output, Price(p, CompletionRatio(p), multiplier))
            && Rounds(rates.cacheRead, Price(p, CacheRatio(p, f), multiplier))
            && Rounds(rates.cacheCreation, Price(p, CreationRatio(p, f), multiplier))
  {
    var raw := RawRates(p, f, multiplier);
    RatesArePrices(p, f, multiplier);
    RawRatesNonNegative(p, f, multiplier);
    RoundCostRounds(raw.input);
    RoundCostRounds(raw.output);
    RoundCostRounds(raw.cacheRead);
    RoundCostRounds(raw.cacheCreation);
  }

  // ---------- bills ----------

  /** A token bill: its own lines at its own rates, and exactly their sum. */
  lemma BillIsItsLines(p: Pricing, u: Usage, f: Fallbacks, multiplier: real)
    requires multiplier > 0.0 && f.cache > 0.0 && f.creation > 0.0
    ensures Breakdown(p, u, f, multiplier).None? <==> p.quotaType == 1
    ensures Breakdown(p, u, f, multiplier).Some? ==>
      var bill, rates := Breakdown(p, u, f, multiplier).value, CacheAwarePerMillionRates(p, f, multiplier);
      && bill.usage == Normalized(u) && bill.rates == rates
      && LineOf(bill.inputCost, bill.usage.billablePrompt, rates.input)
      && LineOf(bill.outputCost, bill.usage.completion, rates.output)
      && LineOf(bill.cacheReadCost, bill.usage.cacheRead, rates.cacheRead)
      && LineOf(bill.cacheCreationCost, bill.usage.cacheCreation, rates.cacheCreation)
      && bill.totalCost == bill.inputCost + bill.outputCost + bill.cacheReadCost + bill.cacheCreationCost
  {
    var b, rates := Normalized(u), CacheAwarePerMillionRates(p, f, multiplier);
    LineIsRounded(b.billablePrompt, rates.input);
    LineIsRounded(b.completion, rates.output);
    LineIsRounded(b.cacheRead, rates.cacheRead);
    LineIsRounded(b.cacheCreation, rates.cacheCreation);
    SumOfRounded(TokenCost(b.billablePrompt, rates.input), TokenCost(b.completion, rates.output),
                 TokenCost(b.cacheRead, rates.cacheRead), TokenCost(b.cacheCreation, rates.cacheCreation));
  }

  /** Without cache detail the whole input side is billed, at the input rate, and no cache line. */
  lemma FullPriceIsItsLines(p: Pricing, u: Usage, f: Fallbacks, multiplier: real)
    requires multiplier > 0.0 && f.cache > 0.0 && f.creation > 0.0
    ensures FullPrice(p, u, f, multiplier).None? <==> p.quotaType == 1
    ensures FullPrice(p, u, f, multiplier).Some? ==>
      var bill, rates, b := FullPrice(p, u, f, multiplier).value, CacheAwarePerMillionRates(p, f, multiplier), Normalized(u);
      && bill.usage == b.(billablePrompt := if b.prompt + b.completion > 0 then b.prompt else b.total)
      && bill.rates == Rates(rates.input, rates.output, 0.0, 0.0)
      && LineOf(bill.inputCost, bill.usage.billablePrompt, rates.input)
      && LineOf(bill.outputCost, bill.usage.completion, rates.output)
      && bill.cacheReadCost == bill.cacheCreationCost == 0.0
      && bill.totalCost == bill.inputCost + bill.outputCost
  {
    var b, rates := Normalized(u), CacheAwarePerMillionRates(p, f, multiplier);
    var input := if b.prompt + b.completion > 0 then b.prompt else b.total;
    LineIsRounded(input, rates.input);
    LineIsRounded(b.completion, rates.output);
    SumOfRounded(TokenCost(input, rates.input), TokenCost(b.completion, rates.output), 0.0, 0.0);
    RoundWhole(0);
  }

  /** The published price of the billed tokens, before any rounding. */
  ghost function PublishedCost(p: Pricing, f: Fallbacks, multiplier: real, b: BilledUsage): real {
    b.billablePrompt as real / 1_000_000.0 * Price(p, 1.0, multiplier)
    + b.completion as real / 1_000_000.0 * Price(p, CompletionRatio(p), multiplier)
    + b.cacheRead as real / 1_000_000.0 * Price(p, CacheRatio(p, f), multiplier)
    + b.cacheCreation as real / 1_000_000.0 * Price(p, CreationRatio(p, f), multiplier)
  }

  lemma LineAt(tokens: nat, rate: real, price: real)
    requires rate == price
    ensures TokenCost(tokens, rate) == tokens as real / 1_000_000.0 * price
  {}

  lemma PublishedIsUnrounded(p: Pricing, f: Fallbacks, multiplier: real, b: BilledUsage)
    requires multiplier > 0.0
    ensures UnroundedCost(b, RawRates(p, f, multiplier)) == PublishedCost(p, f, multiplier, b)
  {
    var raw := RawRates(p, f, multiplier);
    RatesArePrices(p, f, multiplier);
    LineAt(b.billablePrompt, raw.input, Price(p, 1.0, multiplier));
    LineAt(b.completion, raw.output, Price(p, CompletionRatio(p), multiplier));
    LineAt(b.cacheRead, raw.cacheRead, Price(p, CacheRatio(p, f), multiplier));
    LineAt(b.cacheCreation, raw.cacheCreation, Price(p, CreationRatio(p, f), multiplier));
  }

  /**
    The total charged is within half a micro-dollar per line, and half a micro-dollar per million
    billed tokens, of the published price of the billed tokens.
  */
  lemma BillIsThePublishedPrice(p: Pricing, u: Usage, f: Fallbacks, multiplier: real)
    requires multiplier > 0.0 && f.cache > 0.0 && f.creation > 0.0 && p.quotaType != 1
    ensures var bill, b := Breakdown(p, u, f, multiplier).value, Normalized(u);
            var tokens := b.billablePrompt + b.completion + b.cacheRead + b.cacheCreation;
            var bound := 0.0000005 * (4.0 + tokens as real / MILLION);
            -bound <= bill.totalCost - PublishedCost(p, f, multiplier, b) <= bound
  {
    BillWithinRounding(p, u, f, multiplier);
    PublishedIsUnrounded(p, f, multiplier, Normalized(u));
  }

  // ---------- the group multiplier ----------

  ghost predicate Enabled(p: Pricing, g: string) { g in p.enableGroups || (p.enableGroups == [] && g == "default") }
  ghost predicate Priced(ratios: map<string, real>, g: string) { g in ratios && ratios[g] > 0.0 }

  /** Where a multiplier comes from: `default` first, then the first enabled group, then any group, else 1. */
  lemma MultiplierIsTheFirstPriced(p: Pricing, ratios: map<string, real>, r: real)
    requires IsMultiplier(p, ratios, r)
    ensures r > 0.0
    ensures Enabled(p, "default") && Priced(ratios, "default") ==> r == ratios["default"]
    ensures !(Enabled(p, "default") && Priced(ratios, "default")) && (exists g :: Enabled(p, g) && Priced(ratios, g)) ==>
              exists i :: 0 <= i < |p.enableGroups| && Priced(ratios, p.enableGroups[i]) && r == ratios[p.enableGroups[i]] &&
                forall j :: 0 <= j < i ==> !Priced(ratios, p.enableGroups[j])
    ensures (forall g :: Enabled(p, g) ==> !Priced(ratios, g)) && (exists g :: Priced(ratios, g)) ==>
              exists g :: Priced(ratios, g) && r == ratios[g]
    ensures (forall g :: !Priced(ratios, g)) ==> r == 1.0
  {
    assert forall g :: Priced(ratios, g) <==> Positive(ratios, g);
    assert forall g :: Enabled(p, g) <==> g in Groups(p);
  }
}

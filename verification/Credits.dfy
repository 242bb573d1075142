/** Credit pricing: a run's token counts to whole credits, over exact reals. */
module Credits {
  import opened Wrappers

  datatype ProviderPricing = ProviderPricing(
    outputWeight: Option<real>, defaultFactor: Option<real>, models: map<string, real>)
  datatype Pricing = Pricing(
    defaultFactor: real, defaultOutputWeight: real,
    sourceWeights: map<string, real>, providers: map<string, ProviderPricing>)

  /** What the configuration validators guarantee. */
  ghost predicate ValidPricing(c: Pricing) {
    && c.defaultFactor >= 0.0 && c.defaultOutputWeight > 0.0
    && (forall s :: s in c.sourceWeights ==> c.sourceWeights[s] >= 0.0)
    && forall p :: p in c.providers ==>
         && (c.providers[p].outputWeight.Some? ==> c.providers[p].outputWeight.value > 0.0)
         && (c.providers[p].defaultFactor.Some? ==> c.providers[p].defaultFactor.value >= 0.0)
         && forall m :: m in c.providers[p].models ==> c.providers[p].models[m] >= 0.0
  }

  const NANO := 1000000000.0

  function Ceil(x: real): int {
    -((-x).Floor)
  }

  function RoundHalfEven(x: real): int {
    var floor := x.Floor;
    var part := x - floor as real;
    if part < 0.5 || (part == 0.5 && floor % 2 == 0) then floor else floor + 1
  }

  function Round9(x: real): real {
    RoundHalfEven(x * NANO) as real / NANO
  }

  function AtLeastZero(n: int): nat {
    if n < 0 then 0 else n
  }

  function SourceWeight(c: Pricing, source: string): real {
    if source in c.sourceWeights then c.sourceWeights[source] else 1.0
  }

  function Factor(c: Pricing, provider: string, model: string): real {
    if provider !in c.providers then c.defaultFactor
    else
      var block := c.providers[provider];
      if model in block.models then block.models[model]
      else if block.defaultFactor.Some? then block.defaultFactor.value
      else c.defaultFactor
  }

  function OutputWeight(c: Pricing, provider: string): real {
    if provider in c.providers && c.providers[provider].outputWeight.Some?
    then c.providers[provider].outputWeight.value
    else c.defaultOutputWeight
  }

  function Weighted(c: Pricing, provider: string, input: int, output: int): real {
    AtLeastZero(input) as real + Times(OutputWeight(c, provider), AtLeastZero(output) as real)
  }

  /** The price before rounding. */
  function ExactCost(source: string, provider: string, model: string, input: int, output: int, c: Pricing): real {
    Times(UnitPrice(source, provider, model, c), Weighted(c, provider, input, output))
  }

  function UnitPrice(source: string, provider: string, model: string, c: Pricing): real {
    Times(SourceWeight(c, source), Factor(c, provider, model))
  }

  function Times(x: real, y: real): real {
    x * y
  }

  function RunCost(source: string, provider: string, model: string, input: int, output: int, c: Pricing): (cost: nat)
    requires ValidPricing(c)
  {
    RunCostBounds(source, provider, model, input, output, c);
    Ceil(Round9(ExactCost(source, provider, model, input, output, c)))
  }

  function EstimatedInput(textChars: nat): int {
    var chars: int := textChars;
    -((-chars) / 4)
  }

  function EstimateCost(source: string, provider: string, model: string, textChars: nat, c: Pricing): nat
    requires ValidPricing(c)
  {
    var input := EstimatedInput(textChars);
    RunCost(source, provider, model, input, input / 4, c)
  }

  // ---- Rounding ----

  lemma RoundHalfEvenMonotone(x: real, y: real)
    requires x <= y
    ensures RoundHalfEven(x) <= RoundHalfEven(y)
  {
  }

  lemma MulMonotone(k: real, x: real, y: real)
    requires k >= 0.0 && x <= y
    ensures Times(k, x) <= Times(k, y)
  {
  }

  lemma Round9Monotone(x: real, y: real)
    requires x <= y
    ensures Round9(x) <= Round9(y)
  {
    RoundHalfEvenMonotone(x * NANO, y * NANO);
  }

  lemma TimesNonNegative(x: real, y: real)
    requires x >= 0.0 && y >= 0.0
    ensures Times(x, y) >= 0.0
  {
  }

  lemma ExactCostNonNegative(source: string, provider: string, model: string, input: int, output: int, c: Pricing)
    requires ValidPricing(c)
    ensures UnitPrice(source, provider, model, c) >= 0.0
    ensures ExactCost(source, provider, model, input, output, c) >= 0.0
  {
    TimesNonNegative(SourceWeight(c, source), Factor(c, provider, model));
    TimesNonNegative(OutputWeight(c, provider), AtLeastZero(output) as real);
    TimesNonNegative(UnitPrice(source, provider, model, c), Weighted(c, provider, input, output));
  }

  /** A run costs at least its exact price and less than one credit more, up to
      half a nanocredit of rounding either way; never a negative amount. */
  lemma RunCostBounds(source: string, provider: string, model: string, input: int, output: int, c: Pricing)
    requires ValidPricing(c)
    ensures var exact := ExactCost(source, provider, model, input, output, c);
            var cost := Ceil(Round9(exact));
            && cost >= 0
            && exact - 0.5 / NANO <= cost as real
            && cost as real < exact + 1.0 + 0.5 / NANO
  {
    var exact := ExactCost(source, provider, model, input, output, c);
    ExactCostNonNegative(source, provider, model, input, output, c);
    Round9Monotone(0.0, exact);
    assert Round9(0.0) == 0.0;
  }

  /** A price within half a nanocredit of a whole number is that number: binary
      artefacts buy no phantom credit. */
  lemma NoPhantomCredit(exact: real, n: int)
    requires n as real - 0.5 / NANO < exact < n as real + 0.5 / NANO
    ensures Ceil(Round9(exact)) == n
  {
    var scaled := exact * NANO;
    assert n as real * NANO - 0.5 < scaled < n as real * NANO + 0.5;
    var whole := n * 1000000000;
    assert whole as real == n as real * NANO;
    assert RoundHalfEven(scaled) == whole;
  }

  lemma WeightedMonotone(c: Pricing, provider: string, i1: int, o1: int, i2: int, o2: int)
    requires ValidPricing(c) && i1 <= i2 && o1 <= o2
    ensures Weighted(c, provider, i1, o1) <= Weighted(c, provider, i2, o2)
  {
    MulMonotone(OutputWeight(c, provider), AtLeastZero(o1) as real, AtLeastZero(o2) as real);
  }

  lemma ExactCostMonotone(source: string, provider: string, model: string,
                          i1: int, o1: int, i2: int, o2: int, c: Pricing)
    requires ValidPricing(c) && i1 <= i2 && o1 <= o2
    ensures ExactCost(source, provider, model, i1, o1, c) <= ExactCost(source, provider, model, i2, o2, c)
  {
    WeightedMonotone(c, provider, i1, o1, i2, o2);
    ExactCostNonNegative(source, provider, model, i1, o1, c);
    MulMonotone(UnitPrice(source, provider, model, c),
                Weighted(c, provider, i1, o1), Weighted(c, provider, i2, o2));
  }

  /** The nearest whole number, and of two equally near ones the even one. */
  lemma RoundsToNearest(x: real, n: int)
    ensures RoundHalfEven(x) == n <==>
              n as real - 0.5 < x < n as real + 0.5
              || ((x == n as real - 0.5 || x == n as real + 0.5) && n % 2 == 0)
  {
  }

  /** What the configuration says the price is: the source's weight (or one),
      times the model's factor, else the provider's, else the default, times
      the input tokens and the weighted output tokens; negative counts as none. */
  predicate IsPrice(c: Pricing, source: string, provider: string, model: string, weight: real, factor: real, output: real) {
    && (if source in c.sourceWeights then weight == c.sourceWeights[source] else weight == 1.0)
    && (if provider !in c.providers then factor == c.defaultFactor && output == c.defaultOutputWeight
        else
          var block := c.providers[provider];
          && output == (match block.outputWeight case Some(w) => w case None => c.defaultOutputWeight)
          && (if model in block.models then factor == block.models[model]
              else factor == match block.defaultFactor case Some(f) => f case None => c.defaultFactor))
  }

  lemma PriceFollowsConfiguration(source: string, provider: string, model: string, input: int, output: int, c: Pricing,
                                  weight: real, factor: real, outputWeight: real)
    requires ValidPricing(c) && IsPrice(c, source, provider, model, weight, factor, outputWeight)
    ensures var i, o := if input > 0 then input else 0, if output > 0 then output else 0;
            ExactCost(source, provider, model, input, output, c)
            == (weight * factor) * (i as real + outputWeight * o as real)
    ensures RunCost(source, provider, model, input, output, c)
         == Ceil(Round9(ExactCost(source, provider, model, input, output, c)))
  {
    ConfigurationGives(source, provider, model, c, weight, factor, outputWeight);
    var i, o := if input > 0 then input else 0, if output > 0 then output else 0;
    assert Weighted(c, provider, input, output) == i as real + Times(outputWeight, o as real);
    assert UnitPrice(source, provider, model, c) == Times(weight, factor);
    TimesIs(weight, factor, i as real, outputWeight, o as real);
  }

  lemma ConfigurationGives(source: string, provider: string, model: string, c: Pricing,
                           weight: real, factor: real, outputWeight: real)
    requires IsPrice(c, source, provider, model, weight, factor, outputWeight)
    ensures SourceWeight(c, source) == weight && Factor(c, provider, model) == factor
    ensures OutputWeight(c, provider) == outputWeight
  {
  }

  lemma TimesIs(a: real, b: real, i: real, w: real, o: real)
    ensures Times(Times(a, b), i + Times(w, o)) == (a * b) * (i + w * o)
  {
  }

  /** A whole number of credits, no less than the price rounded to nine digits
      and less than one more. */
  lemma CeilMeans(x: real, n: int)
    ensures Ceil(x) == n <==> n as real - 1.0 < x <= n as real
  {
  }

  /** More tokens never cost less. */
  lemma RunCostMonotone(source: string, provider: string, model: string,
                        i1: int, o1: int, i2: int, o2: int, c: Pricing)
    requires ValidPricing(c) && i1 <= i2 && o1 <= o2
    ensures RunCost(source, provider, model, i1, o1, c) <= RunCost(source, provider, model, i2, o2, c)
  {
    var x1 := ExactCost(source, provider, model, i1, o1, c);
    var x2 := ExactCost(source, provider, model, i2, o2, c);
    ExactCostMonotone(source, provider, model, i1, o1, i2, o2, c);
    Round9Monotone(x1, x2);
  }

  /** A provider reporting negative counts mints no budget. */
  lemma NegativeCountsAreFree(source: string, provider: string, model: string, input: int, output: int, c: Pricing)
    requires ValidPricing(c) && input <= 0 && output <= 0
    ensures RunCost(source, provider, model, input, output, c) == 0
  {
    assert Weighted(c, provider, input, output) == 0.0;
    assert ExactCost(source, provider, model, input, output, c) == 0.0;
    assert Round9(0.0) == 0.0;
  }

  /** The estimate counts a token for every four characters, rounding up, and a
      quarter as many for the output; it never falls as the text grows. */
  lemma EstimateMonotone(source: string, provider: string, model: string, chars1: nat, chars2: nat, c: Pricing)
    requires ValidPricing(c) && chars1 <= chars2
    ensures 4 * EstimatedInput(chars1) - 4 < chars1 <= 4 * EstimatedInput(chars1)
    ensures forall n: nat :: 4 * n - 4 < chars1 <= 4 * n ==>
              EstimateCost(source, provider, model, chars1, c) == RunCost(source, provider, model, n, n / 4, c)
    ensures EstimateCost(source, provider, model, chars1, c) <= EstimateCost(source, provider, model, chars2, c)
  {
    var i1, i2 := EstimatedInput(chars1), EstimatedInput(chars2);
    RunCostMonotone(source, provider, model, i1, i1 / 4, i2, i2 / 4, c);
  }
}

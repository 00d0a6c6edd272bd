/** The reward components over the parsed claims, and their weighted sum. */
module Reward {
  import opened Basics
  import opened Claims
  import Shop

  type Catalog = map<Sku, Shop.Product>

  datatype Context = Context(catalog: Catalog, constraints: Shop.Constraints)

  // One dollar, in cents, and a tenth of a pound.
  const PRICE_TOL: real := 100.0
  const WEIGHT_TOL: real := 1.0

  function Distance(a: real, b: real): real {
    if a >= b then a - b else b - a
  }

  /** What the response claims about the product is true of it, within tolerance. */
  predicate SpecsConsistent(s: Specs, p: Shop.Product) {
    && !(s.price.Some? && Distance(s.price.value, p.price as real) > PRICE_TOL)
    && !(s.ram.Some? && s.ram.value != p.ramGb)
    && !(s.weight.Some? && Distance(s.weight.value, p.weight as real) > WEIGHT_TOL)
    && !(s.battery.Some? && s.battery.value != p.batteryHrs)
  }

  predicate InCatalog(ctx: Context, r: ParsedRec) {
    r.sku in ctx.catalog
  }

  predicate Clean(ctx: Context, r: ParsedRec) {
    InCatalog(ctx, r) && SpecsConsistent(r.specs, ctx.catalog[r.sku])
  }

  predicate WithinCap(ctx: Context, r: ParsedRec) {
    InCatalog(ctx, r) && Shop.MaxPrice in ctx.constraints
    && ctx.catalog[r.sku].price <= ctx.constraints[Shop.MaxPrice]
  }

  predicate MeetsAll(ctx: Context, r: ParsedRec) {
    InCatalog(ctx, r) && Shop.Satisfies(ctx.catalog[r.sku], ctx.constraints)
  }

  function CountIf(recs: seq<ParsedRec>, p: ParsedRec -> bool): nat {
    if recs == [] then 0 else (if p(recs[0]) then 1 else 0) + CountIf(recs[1..], p)
  }

  function Grounded(ctx: Context, recs: seq<ParsedRec>): seq<ParsedRec> {
    if recs == [] then []
    else (if InCatalog(ctx, recs[0]) then [recs[0]] else []) + Grounded(ctx, recs[1..])
  }

  function Fraction(part: nat, whole: nat): real
    requires whole > 0
  {
    part as real / whole as real
  }

  function BudgetCompliance(ctx: Context, recs: seq<ParsedRec>): real {
    var grounded := Grounded(ctx, recs);
    if Shop.MaxPrice !in ctx.constraints then 1.0
    else if grounded == [] then 0.0
    else Fraction(CountIf(grounded, r => WithinCap(ctx, r)), |grounded|)
  }

  function CatalogGroundedness(ctx: Context, recs: seq<ParsedRec>): real {
    if recs == [] then 0.0 else Fraction(CountIf(recs, r => Clean(ctx, r)), |recs|)
  }

  predicate IsHallucinated(ctx: Context, recs: seq<ParsedRec>) {
    exists r :: r in recs && (!InCatalog(ctx, r) || !SpecsConsistent(r.specs, ctx.catalog[r.sku]))
  }

  function AttributeCoverage(ctx: Context, recs: seq<ParsedRec>): real {
    var grounded := Grounded(ctx, recs);
    if grounded == [] then 0.0
    else if ctx.constraints == map[] then 1.0
    else Fraction(CountIf(grounded, r => MeetsAll(ctx, r)), |grounded|)
  }

  function NumStated(s: Specs): nat {
    (if s.price.Some? then 1 else 0) + (if s.ram.Some? then 1 else 0)
    + (if s.weight.Some? then 1 else 0) + (if s.battery.Some? then 1 else 0)
  }

  function FormatSum(recs: seq<ParsedRec>): real {
    if recs == [] then 0.0 else NumStated(recs[0].specs) as real / 4.0 + FormatSum(recs[1..])
  }

  /** What keyword matching found in the reasoning: comparative language, and how many spec dimensions. */
  datatype Reasoning = Reasoning(comparative: bool, dimensions: nat)

  function Quality(ctx: Context, recs: seq<ParsedRec>, t: Reasoning): (real, real) {
    if recs == [] then (0.0, 0.0)
    else
      var fmt := FormatSum(recs) / |recs| as real;
      var grounded := Grounded(ctx, recs);
      if grounded == [] then (fmt, 0.0)
      else
        var breadth := Min(|grounded|, 2) as real / 2.0;
        var content := 0.5 * (if t.comparative then 1.0 else 0.0) + 0.5 * (Min(t.dimensions, 2) as real / 2.0);
        (fmt, breadth * (0.4 + 0.6 * content))
  }

  datatype Weights = Weights(budget: real, groundedness: real, coverage: real, format: real, comparison: real)

  const WEIGHTS: Weights := Weights(0.25, 0.25, 0.25, 0.15, 0.10)
  const HALLUCINATION_PENALTY: real := 0.50

  datatype Breakdown = Breakdown(
    budget: real, groundedness: real, coverage: real, format: real, comparison: real,
    hallucinated: bool, total: real)

  function ComputeReward(ctx: Context, recs: seq<ParsedRec>, t: Reasoning, w: Weights, penalty: real): Breakdown {
    var budget, groundedness := BudgetCompliance(ctx, recs), CatalogGroundedness(ctx, recs);
    var coverage, quality := AttributeCoverage(ctx, recs), Quality(ctx, recs, t);
    var hallucinated := IsHallucinated(ctx, recs);
    Breakdown(budget, groundedness, coverage, quality.0, quality.1, hallucinated,
              w.budget * budget + w.groundedness * groundedness + w.coverage * coverage
              + w.format * quality.0 + w.comparison * quality.1
              - penalty * (if hallucinated then 1.0 else 0.0))
  }

  // ------------------------------------------------------------ counting

  lemma {:induction false} CountMeaning(recs: seq<ParsedRec>, p: ParsedRec -> bool)
    ensures CountIf(recs, p) <= |recs|
    ensures CountIf(recs, p) == |recs| <==> forall r :: r in recs ==> p(r)
  {
    if recs != [] {
      CountMeaning(recs[1..], p);
      assert recs == [recs[0]] + recs[1..];
    }
  }

  lemma {:induction false} CountMonotone(recs: seq<ParsedRec>, p: ParsedRec -> bool, q: ParsedRec -> bool)
    requires forall r :: r in recs && p(r) ==> q(r)
    ensures CountIf(recs, p) <= CountIf(recs, q)
  {
    if recs != [] {
      assert recs[0] in recs && forall r :: r in recs[1..] ==> r in recs;
      CountMonotone(recs[1..], p, q);
    }
  }

  lemma {:induction false} GroundedMeaning(ctx: Context, recs: seq<ParsedRec>)
    ensures forall r :: r in Grounded(ctx, recs) <==> r in recs && InCatalog(ctx, r)
    ensures |Grounded(ctx, recs)| <= |recs|
  {
    if recs != [] {
      GroundedMeaning(ctx, recs[1..]);
      assert recs == [recs[0]] + recs[1..];
    }
  }

  lemma FractionBounds(a: nat, b: nat, n: nat)
    requires a <= b <= n && n > 0
    ensures 0.0 <= Fraction(a, n) <= Fraction(b, n) <= 1.0
    ensures Fraction(a, n) == 1.0 <==> a == n
    ensures a < n ==> Fraction(a, n) <= 1.0 - 1.0 / n as real
  {
    var x, y, z, u := Fraction(a, n), Fraction(b, n), n as real, 1.0 / n as real;
    assert x * z == a as real && y * z == b as real && u * z == 1.0;
    NonNegative(x, z);
    assert (y - x) * z == b as real - a as real;
    NonNegative(y - x, z);
    assert (1.0 - y) * z == n as real - b as real;
    NonNegative(1.0 - y, z);
    if a < n {
      assert (1.0 - u - x) * z == z - 1.0 - a as real;
      NonNegative(1.0 - u - x, z);
    }
  }

  // ------------------------------------------------------------ properties of the components

  /** Satisfying all constraints includes the price cap: coverage never exceeds the budget score. */
  lemma CoverageAtMostBudget(ctx: Context, recs: seq<ParsedRec>)
    ensures 0.0 <= AttributeCoverage(ctx, recs) <= BudgetCompliance(ctx, recs) <= 1.0
  {
    var grounded := Grounded(ctx, recs);
    if grounded != [] {
      CountMeaning(grounded, r => MeetsAll(ctx, r));
      CountMeaning(grounded, r => WithinCap(ctx, r));
      var meets, n := CountIf(grounded, r => MeetsAll(ctx, r)), |grounded|;
      FractionBounds(meets, meets, n);
      if Shop.MaxPrice in ctx.constraints {
        var within := CountIf(grounded, r => WithinCap(ctx, r));
        CountMonotone(grounded, r => MeetsAll(ctx, r), r => WithinCap(ctx, r));
        FractionBounds(meets, within, n);
        assert ctx.constraints != map[];
      }
    }
  }

  /** A non-empty response is hallucinated exactly when its groundedness is below 1, by at least one claim's share. */
  lemma HallucinatedIffUngrounded(ctx: Context, recs: seq<ParsedRec>)
    ensures 0.0 <= CatalogGroundedness(ctx, recs) <= 1.0
    ensures recs != [] ==> (IsHallucinated(ctx, recs) <==> CatalogGroundedness(ctx, recs) < 1.0)
    ensures IsHallucinated(ctx, recs) ==>
              recs != [] && CatalogGroundedness(ctx, recs) <= 1.0 - 1.0 / |recs| as real
  {
    if recs != [] {
      var clean := CountIf(recs, r => Clean(ctx, r));
      CountMeaning(recs, r => Clean(ctx, r));
      FractionBounds(clean, clean, |recs|);
      assert IsHallucinated(ctx, recs) <==> !forall r :: r in recs ==> Clean(ctx, r);
    }
  }

  lemma {:induction false} FormatBounds(recs: seq<ParsedRec>)
    ensures 0.0 <= FormatSum(recs) <= |recs| as real
  {
    if recs != [] {
      FormatBounds(recs[1..]);
    }
  }

  lemma QualityBounds(ctx: Context, recs: seq<ParsedRec>, t: Reasoning)
    ensures 0.0 <= Quality(ctx, recs, t).0 <= 1.0
    ensures 0.0 <= Quality(ctx, recs, t).1 <= 1.0
  {
    if recs != [] {
      FormatBounds(recs);
      var q, n := FormatSum(recs) / |recs| as real, |recs| as real;
      assert q * n == FormatSum(recs);
      assert (1.0 - q) * n >= 0.0;
      var grounded := Grounded(ctx, recs);
      if grounded != [] {
        var breadth := Min(|grounded|, 2) as real / 2.0;
        var content := 0.5 * (if t.comparative then 1.0 else 0.0) + 0.5 * (Min(t.dimensions, 2) as real / 2.0);
        assert 0.0 <= breadth <= 1.0 && 0.0 <= content <= 1.0;
        var factor := 0.4 + 0.6 * content;
        assert 0.4 <= factor <= 1.0;
        assert (1.0 - breadth) * factor >= 0.0;
      }
    }
  }

  /** The default weights on components in [0, 1]. */
  lemma WeightedTotal(b: real, g: real, c: real, f: real, m: real, h: bool)
    requires 0.0 <= b <= 1.0 && 0.0 <= g <= 1.0 && 0.0 <= c <= 1.0 && 0.0 <= f <= 1.0 && 0.0 <= m <= 1.0
    ensures var w := WEIGHTS;
            var total := w.budget * b + w.groundedness * g + w.coverage * c + w.format * f + w.comparison * m
                         - HALLUCINATION_PENALTY * (if h then 1.0 else 0.0);
            && -0.5 <= total <= 1.0
            && (!h ==> 0.25 * g <= total)
            && (h ==> total <= 0.25 + 0.25 * g)
            && (total == 1.0 <==> !h && b == 1.0 && g == 1.0 && c == 1.0 && f == 1.0 && m == 1.0)
  {
  }

  /** The default weights: the total's range, and what a hallucination can still score. */
  lemma TotalBounds(ctx: Context, recs: seq<ParsedRec>, t: Reasoning)
    ensures var b := ComputeReward(ctx, recs, t, WEIGHTS, HALLUCINATION_PENALTY);
            && -0.5 <= b.total <= 1.0
            && (!b.hallucinated ==> b.total >= 0.0)
            && (!b.hallucinated && recs != [] ==> b.groundedness == 1.0 && b.total >= 0.25)
            && (b.hallucinated ==> recs != [] && b.total <= 0.5 - 0.25 / |recs| as real)
            && (b.total == 1.0 <==>
                  !b.hallucinated && b.budget == 1.0 && b.groundedness == 1.0 && b.coverage == 1.0
                  && b.format == 1.0 && b.comparison == 1.0)
  {
    CoverageAtMostBudget(ctx, recs);
    HallucinatedIffUngrounded(ctx, recs);
    QualityBounds(ctx, recs, t);
    hide BudgetCompliance, CatalogGroundedness, AttributeCoverage, Quality, IsHallucinated;
    WeightedTotal(BudgetCompliance(ctx, recs), CatalogGroundedness(ctx, recs), AttributeCoverage(ctx, recs),
                  Quality(ctx, recs, t).0, Quality(ctx, recs, t).1, IsHallucinated(ctx, recs));
    if IsHallucinated(ctx, recs) {
      assert 0.25 / |recs| as real == 0.25 * (1.0 / |recs| as real);
    }
  }

  // ------------------------------------------------------------ what each component measures

  lemma {:induction false} CountOneMore(recs: seq<ParsedRec>, r: ParsedRec, p: ParsedRec -> bool)
    ensures CountIf(recs + [r], p) == CountIf(recs, p) + One(p(r))
  {
    if recs == [] {
      assert recs + [r] == [r];
    } else {
      CountOneMore(recs[1..], r, p);
      assert (recs + [r])[1..] == recs[1..] + [r];
    }
  }

  /**
   A stated spec is true of a product: price within a dollar, weight within a tenth of a pound, the
   others exactly.
   */
  lemma ConsistentIff(s: Specs, p: Shop.Product)
    ensures SpecsConsistent(s, p) <==>
              && (s.price.Some? ==> p.price as real - 100.0 <= s.price.value <= p.price as real + 100.0)
              && (s.weight.Some? ==> p.weight as real - 1.0 <= s.weight.value <= p.weight as real + 1.0)
              && (s.ram.Some? ==> s.ram.value == p.ramGb)
              && (s.battery.Some? ==> s.battery.value == p.batteryHrs)
  {
  }

  /**
   The budget score: full without a cap, none without a grounded claim, and full exactly if all
   grounded ones keep the cap.
   */
  lemma BudgetMeaning(ctx: Context, recs: seq<ParsedRec>)
    ensures Shop.MaxPrice !in ctx.constraints ==> BudgetCompliance(ctx, recs) == 1.0
    ensures Shop.MaxPrice in ctx.constraints ==>
              && ((forall r :: r in recs ==> r.sku !in ctx.catalog) ==> BudgetCompliance(ctx, recs) == 0.0)
              && ((exists r :: r in recs && r.sku in ctx.catalog) ==>
                    (BudgetCompliance(ctx, recs) == 1.0 <==>
                       forall r :: r in recs && r.sku in ctx.catalog ==>
                         ctx.catalog[r.sku].price <= ctx.constraints[Shop.MaxPrice]))
  {
    GroundedMeaning(ctx, recs);
    var grounded := Grounded(ctx, recs);
    if grounded != [] {
      assert grounded[0] in grounded;
      CountMeaning(grounded, r => WithinCap(ctx, r));
      var within := CountIf(grounded, r => WithinCap(ctx, r));
      FractionBounds(within, within, |grounded|);
    }
  }

  /**
   The coverage score: none without a grounded claim, and otherwise full exactly if all grounded ones
   meet every constraint.
   */
  lemma CoverageMeaning(ctx: Context, recs: seq<ParsedRec>)
    ensures (forall r :: r in recs ==> r.sku !in ctx.catalog) ==> AttributeCoverage(ctx, recs) == 0.0
    ensures (exists r :: r in recs && r.sku in ctx.catalog) ==>
              (AttributeCoverage(ctx, recs) == 1.0 <==>
                 forall r :: r in recs && r.sku in ctx.catalog ==> Shop.Satisfies(ctx.catalog[r.sku], ctx.constraints))
  {
    GroundedMeaning(ctx, recs);
    var grounded := Grounded(ctx, recs);
    if grounded != [] {
      assert grounded[0] in grounded;
      CountMeaning(grounded, r => MeetsAll(ctx, r));
      var meets := CountIf(grounded, r => MeetsAll(ctx, r));
      FractionBounds(meets, meets, |grounded|);
    }
  }

  /** Groundedness: nothing for no claims, and full exactly if each claim is of a product and true of it. */
  lemma GroundednessMeaning(ctx: Context, recs: seq<ParsedRec>)
    ensures recs == [] ==> CatalogGroundedness(ctx, recs) == 0.0
    ensures recs != [] ==>
              (CatalogGroundedness(ctx, recs) == 1.0 <==>
                 forall r :: r in recs ==> r.sku in ctx.catalog && SpecsConsistent(r.specs, ctx.catalog[r.sku]))
  {
    if recs != [] {
      CountMeaning(recs, r => Clean(ctx, r));
      var clean := CountIf(recs, r => Clean(ctx, r));
      FractionBounds(clean, clean, |recs|);
    }
  }

  predicate FullySpecified(r: ParsedRec) {
    r.specs.price.Some? && r.specs.ram.Some? && r.specs.weight.Some? && r.specs.battery.Some?
  }

  lemma {:induction false} FormatFullIff(recs: seq<ParsedRec>)
    ensures FormatSum(recs) == |recs| as real <==> forall r :: r in recs ==> FullySpecified(r)
  {
    if recs != [] {
      FormatFullIff(recs[1..]);
      FormatBounds(recs[1..]);
      var x := NumStated(recs[0].specs) as real / 4.0;
      assert 0.0 <= x <= 1.0 && (x == 1.0 <==> FullySpecified(recs[0]));
      assert FormatSum(recs) == x + FormatSum(recs[1..]);
      hide FormatSum, FullySpecified, NumStated;
      assert forall r :: r in recs <==> r == recs[0] || r in recs[1..];
    }
  }

  lemma {:induction false} FormatOneMore(recs: seq<ParsedRec>, r: ParsedRec)
    ensures FormatSum(recs + [r]) == FormatSum(recs)
         + 0.25 * (One(r.specs.price.Some?) + One(r.specs.ram.Some?) + One(r.specs.weight.Some?)
                   + One(r.specs.battery.Some?)) as real
  {
    if recs == [] {
      assert recs + [r] == [r];
    } else {
      FormatOneMore(recs[1..], r);
      assert (recs + [r])[1..] == recs[1..] + [r];
    }
  }

  /** Quality: format is full exactly if every claim states all four specs, each worth a quarter. */
  lemma FormatMeaning(ctx: Context, recs: seq<ParsedRec>, t: Reasoning)
    ensures recs == [] ==> Quality(ctx, recs, t) == (0.0, 0.0)
    ensures recs != [] ==>
              && Times(Quality(ctx, recs, t).0, |recs| as real) == FormatSum(recs)
              && (Quality(ctx, recs, t).0 == 1.0 <==> forall r :: r in recs ==> FullySpecified(r))
  {
    if recs != [] {
      QualityFormat(ctx, recs, t);
      hide Quality, FormatSum, FullySpecified, Times;
      FormatFullIff(recs);
      QuotientOf(FormatSum(recs), |recs| as real);
    }
  }

  lemma QualityFormat(ctx: Context, recs: seq<ParsedRec>, t: Reasoning)
    requires recs != []
    ensures Quality(ctx, recs, t).0 == FormatSum(recs) / |recs| as real
  {
  }

  lemma QuotientOf(f: real, n: real)
    requires n > 0.0
    ensures Times(f / n, n) == f && (f / n == 1.0 <==> f == n)
  {
  }

  /**
   Quality: comparison is none without a grounded claim, half for one; a bare pick is worth 0.4,
   comparative language 0.3 more, and each of the first two dimensions 0.15 more.
   */
  lemma ComparisonMeaning(ctx: Context, recs: seq<ParsedRec>, t: Reasoning)
    ensures var worth := 0.4 + (if t.comparative then 0.3 else 0.0)
                         + (if t.dimensions >= 1 then 0.15 else 0.0) + (if t.dimensions >= 2 then 0.15 else 0.0);
            Quality(ctx, recs, t).1 == (if |Grounded(ctx, recs)| == 0 then 0.0
                                        else if |Grounded(ctx, recs)| == 1 then worth / 2.0
                                        else worth)
  {
    GroundedMeaning(ctx, recs);
  }

  lemma {:induction false} GroundedOneMore(ctx: Context, recs: seq<ParsedRec>, r: ParsedRec)
    ensures Grounded(ctx, recs + [r]) == Grounded(ctx, recs) + (if r.sku in ctx.catalog then [r] else [])
  {
    if recs == [] {
      assert recs + [r] == [r];
    } else {
      GroundedOneMore(ctx, recs[1..], r);
      assert (recs + [r])[1..] == recs[1..] + [r];
    }
  }

  /**
   What each shortfall costs under the default weights: a quarter each, 0.15 for format, 0.1 for
   comparison, and half for lying.
   */
  lemma ShortfallCosts(ctx: Context, recs: seq<ParsedRec>, t: Reasoning)
    ensures var b := ComputeReward(ctx, recs, t, WEIGHTS, HALLUCINATION_PENALTY);
            && 1.0 - b.total
               == 0.25 * ((1.0 - b.budget) + (1.0 - b.groundedness) + (1.0 - b.coverage))
                  + 0.15 * (1.0 - b.format) + 0.1 * (1.0 - b.comparison) + (if b.hallucinated then 0.5 else 0.0)
            && b.budget == BudgetCompliance(ctx, recs) && b.groundedness == CatalogGroundedness(ctx, recs)
            && b.coverage == AttributeCoverage(ctx, recs) && (b.format, b.comparison) == Quality(ctx, recs, t)
            && (b.hallucinated <==> IsHallucinated(ctx, recs))
  {
  }
}

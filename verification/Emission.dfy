/** The emission schedule (`crates/core/src/chain_economics.rs`). */
module Emission {
  import opened Arithmetic
  import opened Collections

  const WEI_PER_FRAC: nat := 1_000_000_000_000_000_000
  const MAX_SUPPLY_WEI: nat := 23_000_000 * WEI_PER_FRAC
  const BPS: nat := 10_000

  datatype Thirds = Thirds(a: nat, b: nat, c: nat) {
    predicate Whole() { a + b + c == BPS }
  }

  datatype EmissionParams = EmissionParams(
    enabled: bool,
    totalPool: nat,
    quarterCount: nat,
    decayBps: nat,
    blocksPerQuarter: nat,
    pools: Thirds,          // provider, consensus, intelligence
    providerWork: Thirds,   // storage, compute, tx count
    intelligence: Thirds,   // frontier, accessible, efficient
    lens: Thirds,           // frontier, accessible, efficient
    royaltyHopsBps: seq<nat>,
    vestingEpochs: nat,
    provenanceBond: nat)

  datatype EmissionBlock = EmissionBlock(quarter: nat, total: nat, provider: nat, consensus: nat, intelligence: nat)

  const FRACTAL_EMISSION_V3: EmissionParams := EmissionParams(
    true, MAX_SUPPLY_WEI, 40, 9_400, 90 * 24 * 60,
    Thirds(5_500, 2_000, 2_500), Thirds(4_000, 4_000, 2_000), Thirds(4_000, 4_000, 2_000),
    Thirds(4_000, 3_000, 3_000), [1_000, 100, 10], 168, 50 * WEI_PER_FRAC)

  predicate Validate(p: EmissionParams) {
    p.enabled ==>
      && p.totalPool != 0
      && p.quarterCount != 0 && p.blocksPerQuarter != 0
      && p.decayBps <= BPS
      && p.pools.Whole() && p.providerWork.Whole() && p.intelligence.Whole() && p.lens.Whole()
  }

  // ----- the code -----

  function Decay(weight: nat, decayBps: nat): nat { SatMul(weight, decayBps) / BPS }

  function WeightAt(i: nat, decayBps: nat): nat {
    if i == 0 then 1_000_000_000_000_000_000 else Decay(WeightAt(i - 1, decayBps), decayBps)
  }

  function Weights(p: EmissionParams): (r: seq<nat>)
    ensures |r| == p.quarterCount
  {
    seq(p.quarterCount, i requires 0 <= i => WeightAt(i, p.decayBps))
  }

  method DecayWeights(p: EmissionParams) returns (weights: seq<nat>)
    ensures weights == Weights(p)
  {
    hide Decay;
    weights := [];
    var weight := 1_000_000_000_000_000_000;
    for i := 0 to p.quarterCount
      invariant |weights| == i && forall j :: 0 <= j < i ==> weights[j] == WeightAt(j, p.decayBps)
      invariant weight == WeightAt(i, p.decayBps)
    {
      weights := weights + [weight];
      weight := Decay(weight, p.decayBps);
    }
  }

  function BudgetForQuarter(p: EmissionParams, quarter: nat): nat {
    if !p.enabled || quarter >= p.quarterCount then 0
    else
      var weights := Weights(p);
      var denominator := Sum(weights);
      if denominator == 0 then 0
      else
        var allocatedBefore := Sum(FloorShares(p.totalPool, weights[..quarter], denominator));
        if quarter + 1 == p.quarterCount then SatSub(p.totalPool, allocatedBefore)
        else FloorShare(p.totalPool, weights[quarter], denominator)
  }

  function QuarterOf(height: nat, p: EmissionParams): Option<nat> {
    if !p.enabled || p.blocksPerQuarter == 0 then None
    else
      var q := height / p.blocksPerQuarter;
      if q < p.quarterCount then Some(q) else None
  }

  function SplitBlock(quarter: nat, total: nat, p: EmissionParams): EmissionBlock {
    var provider := SatMul(total, p.pools.a) / BPS;
    var consensus := SatMul(total, p.pools.b) / BPS;
    EmissionBlock(quarter, total, provider, consensus, SatSub(SatSub(total, provider), consensus))
  }

  /** An equal part of the budget, plus one unit for the first `remainder` blocks. */
  function BlockShare(budget: nat, blocks: nat, offset: nat): nat
    requires blocks > 0
  {
    var base := budget / blocks;
    var remainder := budget % blocks;
    base + if offset < remainder then 1 else 0
  }

  function EmissionForBlock(height: nat, p: EmissionParams): EmissionBlock {
    match QuarterOf(height, p)
    case None => EmissionBlock(p.quarterCount, 0, 0, 0, 0)
    case Some(quarter) =>
      var budget := BudgetForQuarter(p, quarter);
      SplitBlock(quarter, BlockShare(budget, p.blocksPerQuarter, height % p.blocksPerQuarter), p)
  }

  function ProjectedTotal(p: EmissionParams): nat {
    Sum(seq(p.quarterCount, q requires 0 <= q => BudgetForQuarter(p, q)))
  }

  /** Everything emitted by the blocks below `height`. */
  function EmittedBelow(p: EmissionParams, height: nat): nat {
    if height == 0 then 0 else EmittedBelow(p, height - 1) + EmissionForBlock(height - 1, p).total
  }

  // ----- budgets -----

  lemma WeightsPositive(p: EmissionParams)
    requires p.quarterCount > 0
    ensures Sum(Weights(p)) >= 1_000_000_000_000_000_000
  {
    SumElementBound(Weights(p), 0);
  }

  /** The budgets are the proportional split of the pool by the decay weights. */
  lemma BudgetIsSplit(p: EmissionParams, q: nat)
    requires p.enabled && q < p.quarterCount
    ensures Sum(Weights(p)) > 0
    ensures BudgetForQuarter(p, q) == Split(p.totalPool, Weights(p), Sum(Weights(p)))[q]
  {
    WeightsPositive(p);
  }

  /** The quarter budgets sum to the pool exactly, however much the products saturate. */
  lemma ProjectedTotalExact(p: EmissionParams)
    requires p.enabled && Validate(p)
    ensures ProjectedTotal(p) == p.totalPool
  {
    var w := Weights(p);
    WeightsPositive(p);
    SplitExact(p.totalPool, w, Sum(w));
    var budgets := seq(p.quarterCount, q requires 0 <= q => BudgetForQuarter(p, q));
    forall q | 0 <= q < p.quarterCount
      ensures budgets[q] == Split(p.totalPool, w, Sum(w))[q]
    {
      BudgetIsSplit(p, q);
    }
    assert budgets == Split(p.totalPool, w, Sum(w));
  }

  // ----- blocks -----

  lemma DivModOf(q: nat, r: nat, b: nat)
    requires r < b
    ensures (q * b + r) / b == q && (q * b + r) % b == r
  {
    var h := q * b + r;
    var d := h / b;
    assert h == d * b + h % b;
    if d < q {
      MulMonotone(d + 1, q, b);
      Distribute(d, 1, b);
    } else if q < d {
      MulMonotone(q + 1, d, b);
      Distribute(q, 1, b);
    }
  }

  lemma PastEnd(h: nat, q: nat, b: nat)
    requires b > 0
    ensures h >= q * b <==> h / b >= q
  {
    var d := h / b;
    assert d * b <= h < d * b + b;
    Distribute(d, 1, b);
    if d >= q {
      MulMonotone(q, d, b);
    } else {
      MulMonotone(d + 1, q, b);
    }
  }

  /** What the first `r` of `b` blocks receive from `budget`: equal parts, and one more unit for
      as many of them as the remainder allows. */
  function QuarterPart(budget: nat, b: nat, r: nat): nat
    requires b > 0
  {
    r * (budget / b) + Min(r, budget % b)
  }

  lemma QuarterPartSteps(budget: nat, b: nat, r: nat)
    requires b > 0
    ensures QuarterPart(budget, b, 0) == 0
    ensures QuarterPart(budget, b, r + 1)
         == QuarterPart(budget, b, r) + BlockShare(budget, b, r)
    ensures QuarterPart(budget, b, b) == budget
  {
    Distribute(r, 1, budget / b);
    assert budget == budget / b * b + budget % b;
  }

  lemma BlockTotal(p: EmissionParams, q: nat, r: nat)
    requires p.enabled && q < p.quarterCount && r < p.blocksPerQuarter
    ensures EmissionForBlock(q * p.blocksPerQuarter + r, p).total
         == BlockShare(BudgetForQuarter(p, q), p.blocksPerQuarter, r)
  {
    hide BudgetForQuarter, SatMul, SatSub, BlockShare;
    DivModOf(q, r, p.blocksPerQuarter);
  }

  /** Block `r` of quarter `q` emits an equal part of that quarter's budget, the first blocks of the
      quarter one unit more. */
  lemma BlockEmission(p: EmissionParams, q: nat, r: nat)
    requires p.enabled && q < p.quarterCount && r < p.blocksPerQuarter
    ensures var budget, e := BudgetForQuarter(p, q), EmissionForBlock(q * p.blocksPerQuarter + r, p);
      && e.quarter == q
      && e.total == budget / p.blocksPerQuarter + if r < budget % p.blocksPerQuarter then 1 else 0
  {
    hide BudgetForQuarter, SatMul, SatSub;
    DivModOf(q, r, p.blocksPerQuarter);
    BlockTotal(p, q, r);
  }

  lemma {:induction false} EmittedInQuarter(p: EmissionParams, q: nat, r: nat)
    requires p.enabled && q < p.quarterCount && 0 < p.blocksPerQuarter && r <= p.blocksPerQuarter
    ensures EmittedBelow(p, q * p.blocksPerQuarter + r)
         == EmittedBelow(p, q * p.blocksPerQuarter) + QuarterPart(BudgetForQuarter(p, q), p.blocksPerQuarter, r)
  {
    hide BudgetForQuarter, QuarterPart, EmissionForBlock, BlockShare;
    if r == 0 {
      QuarterPartSteps(BudgetForQuarter(p, q), p.blocksPerQuarter, 0);
    } else {
      EmittedInQuarter(p, q, r - 1);
      BlockTotal(p, q, r - 1);
      QuarterPartSteps(BudgetForQuarter(p, q), p.blocksPerQuarter, r - 1);
    }
  }

  lemma {:induction false} EmittedByQuarter(p: EmissionParams, q: nat)
    requires p.enabled && q <= p.quarterCount && 0 < p.blocksPerQuarter
    ensures EmittedBelow(p, q * p.blocksPerQuarter)
         == Sum(seq(q, i requires 0 <= i => BudgetForQuarter(p, i)))
  {
    hide BudgetForQuarter, EmittedBelow, QuarterPart;
    var b := p.blocksPerQuarter;
    var budgets := seq(q, i requires 0 <= i => BudgetForQuarter(p, i));
    if q == 0 {
      EmittedNothing(p);
    } else {
      EmittedByQuarter(p, q - 1);
      EmittedInQuarter(p, q - 1, b);
      Distribute(q - 1, 1, b);
      assert budgets[..q - 1] == seq(q - 1, i requires 0 <= i => BudgetForQuarter(p, i));
      QuarterPartSteps(BudgetForQuarter(p, q - 1), b, 0);
    }
  }

  lemma EmittedNothing(p: EmissionParams)
    ensures EmittedBelow(p, 0) == 0
  {
  }

  /** Emission exactness: the blocks of the schedule mint the pool to the last unit, and no
      block after it mints anything. */
  lemma EmissionExact(p: EmissionParams)
    requires p.enabled && Validate(p)
    ensures EmittedBelow(p, p.quarterCount * p.blocksPerQuarter) == p.totalPool
    ensures forall h: nat :: h >= p.quarterCount * p.blocksPerQuarter ==> EmissionForBlock(h, p).total == 0
  {
    hide EmittedBelow;
    EmittedByQuarter(p, p.quarterCount);
    ProjectedTotalExact(p);
    forall h: nat | h >= p.quarterCount * p.blocksPerQuarter
      ensures EmissionForBlock(h, p).total == 0
    {
      PastEnd(h, p.quarterCount, p.blocksPerQuarter);
      hide BudgetForQuarter, SplitBlock;
    }
  }

  /** Every block's emission is divided into the three pools without loss. */
  lemma SplitBlockExact(quarter: nat, total: nat, p: EmissionParams)
    requires p.pools.a + p.pools.b <= BPS
    ensures var e := SplitBlock(quarter, total, p); e.provider + e.consensus + e.intelligence == e.total == total
  {
    FloorShareBound(total, p.pools.a, BPS);
    FloorShareBound(total, p.pools.b, BPS);
    Distribute(p.pools.a, p.pools.b, total);
    MulMonotone(p.pools.a + p.pools.b, BPS, total);
  }

  // ----- shape of the schedule -----

  lemma {:induction false} WeightsDecrease(i: nat, j: nat, decayBps: nat)
    requires i <= j && decayBps <= BPS
    ensures WeightAt(j, decayBps) <= WeightAt(i, decayBps)
    decreases j
  {
    if i < j {
      WeightsDecrease(i, j - 1, decayBps);
      var w := WeightAt(j - 1, decayBps);
      MulMonotone(decayBps, BPS, w);
    }
  }

  /** The weights start at 10^18 and each is the floor of the one before times the decay rate. */
  lemma WeightsDecay(p: EmissionParams, i: nat)
    requires i + 1 < p.quarterCount && p.decayBps <= BPS
    ensures Weights(p)[0] == 1_000_000_000_000_000_000
    ensures 10_000 * Weights(p)[i + 1] <= Weights(p)[i] * p.decayBps < 10_000 * (Weights(p)[i + 1] + 1)
  {
    WeightBelowFirst(i, p.decayBps);
    var w := WeightAt(i, p.decayBps);
    MulMonotone(p.decayBps, BPS, w);
    FloorOf(w * p.decayBps);
  }

  lemma FloorOf(x: nat)
    ensures 10_000 * (x / 10_000) <= x < 10_000 * (x / 10_000 + 1)
  {
  }

  lemma FloorShareMonotone(amount: nat, v: nat, w: nat, total: nat)
    requires v <= w && total > 0
    ensures FloorShare(amount, v, total) <= FloorShare(amount, w, total)
  {
    MulMonotone(v, w, amount);
    DivMonotone(SatMul(amount, v), SatMul(amount, w), total);
  }

  lemma DivMonotone(x: nat, y: nat, d: nat)
    requires x <= y && d > 0
    ensures x / d <= y / d
  {
    Distribute(y / d, 1, d);
    if y / d < x / d {
      MulMonotone(y / d + 1, x / d, d);
    }
  }

  /** Budgets never grow, the remainder-absorbing last quarter aside. */
  lemma BudgetsNeverIncrease(p: EmissionParams, q: nat, q': nat)
    requires p.enabled && Validate(p) && q <= q' && q' + 1 < p.quarterCount
    ensures BudgetForQuarter(p, q') <= BudgetForQuarter(p, q)
  {
    BudgetIsSplit(p, q);
    BudgetIsSplit(p, q');
    WeightsDecrease(q, q', p.decayBps);
    FloorShareMonotone(p.totalPool, Weights(p)[q'], Weights(p)[q], Sum(Weights(p)));
  }

  /** The exact proportional share, without machine arithmetic. */
  function Proportion(amount: nat, weight: nat, total: nat): nat
    requires total > 0
  {
    amount * weight / total
  }

  function TrueShare(p: EmissionParams, q: nat): nat
    requires q < p.quarterCount
  {
    WeightsPositive(p);
    Proportion(p.totalPool, Weights(p)[q], Sum(Weights(p)))
  }

  /** A saturated product still divides right while it stays below the denominator's next
      multiple after the machine limit. */
  predicate DividesRight(amount: nat, weight: nat, total: nat)
    requires total > 0
  {
    amount * weight < (U128_MAX / total + 1) * total
  }

  lemma FloorShareIsProportionExactly(amount: nat, weight: nat, total: nat)
    requires total > 0
    ensures FloorShare(amount, weight, total) == Proportion(amount, weight, total)
       <==> DividesRight(amount, weight, total)
    ensures FloorShare(amount, weight, total) <= Proportion(amount, weight, total)
  {
    var x := amount * weight;
    DivMonotone(Min(x, U128_MAX), x, total);
    PastEnd(x, U128_MAX / total + 1, total);
    if x > U128_MAX {
      DivMonotone(U128_MAX, x, total);
    } else {
      DivMonotone(x, U128_MAX, total);
    }
  }

  /** A quarter's budget is the true floor share if and only if its product, saturated or not,
      stays below the denominator's next multiple after the 128-bit limit; it is never more. */
  lemma BudgetIsTrueShare(p: EmissionParams, q: nat)
    requires p.enabled && Validate(p) && q + 1 < p.quarterCount
    ensures Sum(Weights(p)) > 0
    ensures BudgetForQuarter(p, q) == TrueShare(p, q)
       <==> DividesRight(p.totalPool, Weights(p)[q], Sum(Weights(p)))
    ensures BudgetForQuarter(p, q) <= TrueShare(p, q)
  {
    hide BudgetForQuarter, WeightAt, Sum;
    BudgetIsSplit(p, q);
    FloorShareIsProportionExactly(p.totalPool, Weights(p)[q], Sum(Weights(p)));
    hide FloorShare, Proportion, DividesRight;
  }

  lemma FloorGap(x: nat, d: nat)
    requires d > 0
    ensures x <= x / d * d + d
  {
  }

  lemma AddGaps(amount: nat, u: nat, v: nat, x: nat, y: nat, n: nat, total: nat)
    requires amount * u <= x * total + n * total && amount * v <= y * total + total
    ensures amount * (u + v) <= (x + y) * total + (n + 1) * total
  {
    Distribute(x, y, total);
    Distribute(u, v, amount);
    Distribute(n, 1, total);
  }

  /** Sum of true floor shares against the exact product: at most one denominator per part. */
  lemma {:induction false} FloorSharesGap(amount: nat, weights: seq<nat>, total: nat)
    requires total > 0
    requires forall i :: 0 <= i < |weights| ==> FitsU128(amount, weights[i])
    ensures amount * Sum(weights) <= Sum(FloorShares(amount, weights, total)) * total + |weights| * total
  {
    var r := FloorShares(amount, weights, total);
    if weights != [] {
      var k := |weights| - 1;
      FloorSharesGap(amount, weights[..k], total);
      assert r[..k] == FloorShares(amount, weights[..k], total);
      assert FitsU128(amount, weights[k]);
      FloorGap(amount * weights[k], total);
      AddGaps(amount, Sum(weights[..k]), weights[k], Sum(r[..k]), r[k], k, total);
    }
  }

  predicate FitsU128(a: nat, b: nat) { a * b <= U128_MAX }

  lemma FloorBetween(x: nat, last: nat, d: nat, n: nat)
    requires d > 0 && x <= last * d && last * d <= x + n * d
    ensures x / d <= last <= x / d + n
  {
    FloorGap(x, d);
    assert x / d * d <= x;
    CancelFactor(x / d, last, d);
    Distribute(x / d, n + 1, d);
    Distribute(n, 1, d);
    if last > x / d + n {
      MulMonotone(x / d + n + 1, last, d);
    }
  }

  /** With no saturation anywhere the last quarter exceeds its own floor share by less than one
      unit per quarter. */
  lemma LastQuarterNearShare(p: EmissionParams)
    requires p.enabled && Validate(p) && p.totalPool * 1_000_000_000_000_000_000 <= U128_MAX
    ensures TrueShare(p, p.quarterCount - 1) <= BudgetForQuarter(p, p.quarterCount - 1)
    ensures BudgetForQuarter(p, p.quarterCount - 1) < TrueShare(p, p.quarterCount - 1) + p.quarterCount
  {
    hide WeightAt;
    var w, k := Weights(p), p.quarterCount - 1;
    var d := Sum(w);
    WeightsPositive(p);
    forall i | 0 <= i < k
      ensures FitsU128(p.totalPool, w[..k][i])
    {
      WeightBelowFirst(i, p.decayBps);
      MulMonotone(w[i], 1_000_000_000_000_000_000, p.totalPool);
    }
    SumPrefixBound(w, k);
    SumPrefix(w, k);
    assert w[..k + 1] == w;
    FloorSharesFit(p.totalPool, w[..k], d);
    FloorSharesBound(p.totalPool, w[..k], d);
    FloorSharesGap(p.totalPool, w[..k], d);
    LastBetween(p.totalPool, Sum(w[..k]), w[k], Sum(FloorShares(p.totalPool, w[..k], d)), k);
  }

  lemma WeightBelowFirst(i: nat, decayBps: nat)
    requires decayBps <= BPS
    ensures WeightAt(i, decayBps) <= 1_000_000_000_000_000_000
  {
    WeightsDecrease(0, i, decayBps);
  }

  lemma LastBetween(amount: nat, before: nat, last: nat, head: nat, n: nat)
    requires before + last > 0 && head <= amount
    requires head * (before + last) <= amount * before
    requires amount * before <= head * (before + last) + n * (before + last)
    ensures Proportion(amount, last, before + last) <= amount - head <= Proportion(amount, last, before + last) + n
  {
    var d := before + last;
    Distribute(amount - head, head, d);
    Distribute(before, last, amount);
    FloorBetween(amount * last, amount - head, d, n);
  }

  /** The mainnet profile saturates: every quarter but the last is cut to dust, and the last one
      releases more than 99.9 percent of the supply. */
  lemma MainnetIsBackloaded()
    ensures Validate(FRACTAL_EMISSION_V3)
    ensures forall q :: 0 <= q < 39 ==> BudgetForQuarter(FRACTAL_EMISSION_V3, q) <= 341 * WEI_PER_FRAC
    ensures 1000 * BudgetForQuarter(FRACTAL_EMISSION_V3, 39) > 999 * MAX_SUPPLY_WEI
  {
    var p := FRACTAL_EMISSION_V3;
    var w := Weights(p);
    var d := Sum(w);
    WeightsPositive(p);
    var split := Split(p.totalPool, w, d);
    forall q | 0 <= q < 39
      ensures split[q] <= 341 * WEI_PER_FRAC && BudgetForQuarter(p, q) == split[q]
    {
      BudgetIsSplit(p, q);
      DivMonotone(SatMul(p.totalPool, w[q]), U128_MAX, d);
      QuotientBound(U128_MAX, d, 1_000_000_000_000_000_000);
    }
    BudgetIsSplit(p, 39);
    SplitExact(p.totalPool, w, d);
    assert split == split[..39] + [split[39]];
    SumAppend(split[..39], split[39]);
    var caps := seq(39, _ => 341 * WEI_PER_FRAC);
    SumPointwiseBound(split[..39], caps);
    SumOfConstant(caps, 341 * WEI_PER_FRAC);
  }

  /** None of those quarters meets the condition for its proportional share. */
  lemma MainnetMissesItsShares(q: nat)
    requires q < 39
    ensures BudgetForQuarter(FRACTAL_EMISSION_V3, q) < TrueShare(FRACTAL_EMISSION_V3, q)
  {
    hide BudgetForQuarter, TrueShare, WeightAt, Sum;
    var p := FRACTAL_EMISSION_V3;
    BudgetIsTrueShare(p, q);
    MainnetWeights(q);
    ProductOvershoots(p.totalPool, Weights(p)[q], Sum(Weights(p)));
  }

  lemma ProductOvershoots(amount: nat, weight: nat, total: nat)
    requires amount == MAX_SUPPLY_WEI && weight >= 10_000_000_000_000_000
    requires 0 < total <= 40_000_000_000_000_000_000
    ensures !DividesRight(amount, weight, total)
  {
    MulMonotone(10_000_000_000_000_000, weight, amount);
    Distribute(U128_MAX / total, 1, total);
    assert U128_MAX / total * total <= U128_MAX;
  }

  lemma MainnetWeights(q: nat)
    requires q < 39
    ensures Weights(FRACTAL_EMISSION_V3)[q] >= 10_000_000_000_000_000
    ensures Sum(Weights(FRACTAL_EMISSION_V3)) <= 40_000_000_000_000_000_000
  {
    hide WeightAt, Sum;
    var w := Weights(FRACTAL_EMISSION_V3);
    FirstWeight(9_400);
    TenQuarters(0);
    TenQuarters(10);
    TenQuarters(20);
    TenQuarters(30);
    WeightsDecrease(q, 40, 9_400);
    forall i | 0 <= i < 40
      ensures w[i] <= 1_000_000_000_000_000_000
    {
      WeightBelowFirst(i, 9_400);
    }
    var caps := seq(40, _ => 1_000_000_000_000_000_000);
    SumPointwiseBound(w, caps);
    SumOfConstant(caps, 1_000_000_000_000_000_000);
  }

  lemma FirstWeight(decayBps: nat)
    ensures WeightAt(0, decayBps) == 1_000_000_000_000_000_000
  {
  }

  /** At six percent a quarter, ten quarters take less than half. */
  lemma TenQuarters(i: nat)
    requires WeightAt(i, 9_400) >= 1_000_000
    ensures 2 * WeightAt(i + 10, 9_400) >= WeightAt(i, 9_400)
  {
    hide WeightAt;
    QuarterKeeps(i);
    QuarterKeeps(i + 1);
    QuarterKeeps(i + 2);
    QuarterKeeps(i + 3);
    QuarterKeeps(i + 4);
    QuarterKeeps(i + 5);
    QuarterKeeps(i + 6);
    QuarterKeeps(i + 7);
    QuarterKeeps(i + 8);
    QuarterKeeps(i + 9);
  }

  lemma QuarterKeeps(i: nat)
    ensures WeightAt(i, 9_400) >= 1_000 ==> 1_000 * WeightAt(i + 1, 9_400) >= 939 * WeightAt(i, 9_400)
  {
    WeightBelowFirst(i, 9_400);
    hide WeightAt;
    var w := WeightAt(i, 9_400);
    assert WeightAt(i + 1, 9_400) == Decay(w, 9_400) by {
      NextWeight(i, 9_400);
    }
  }

  lemma NextWeight(i: nat, decayBps: nat)
    ensures WeightAt(i + 1, decayBps) == Decay(WeightAt(i, decayBps), decayBps)
  {
  }

  lemma QuotientBound(x: nat, d: nat, e: nat)
    requires d >= e > 0
    ensures x / d <= x / e
  {
    assert x / d * d <= x;
    MulMonotone(e, d, x / d);
    DivMonotone(x / d * e, x, e);
    assert x / d * e / e == x / d by {
      DivModOf(x / d, 0, e);
    }
  }
}

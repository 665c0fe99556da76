/** Block finalization: unbonding payouts and the block reward (`crates/core/src/block_finalize.rs`). */
module Finalize {
  import opened Arithmetic
  import opened Collections
  import opened Stake
  import opened StakeShares

  /** The block's inputs, with the two chain parameters the hook reads: whether base fees burn, and
      the unbonding period in force when the block names none. */
  datatype Context = Context(now: nat, period: nat, proposer: nat, signers: seq<nat>, fingerprints: seq<nat>,
                             treasury: nat, reward: nat, baseFee: nat, gasUsed: nat,
                             reaperEnabled: bool, epochLength: nat, burning: bool, defaultPeriod: nat)

  function Period(ctx: Context): nat { if ctx.period > 0 then ctx.period else ctx.defaultPeriod }

  // ----- base-fee burning and the reaper's record -----

  function BurnDue(ctx: Context): nat {
    if ctx.burning && ctx.gasUsed > 0 && ctx.baseFee > 0 then SatMul(ctx.baseFee, ctx.gasUsed) else 0
  }

  /** The counter grows by the burn that is due; the treasury loses what it has of it. */
  function BurnPhase(b: StakeBook, ctx: Context): StakeBook {
    var burn := BurnDue(ctx);
    if burn == 0 then b
    else b.(burned := SatAdd(b.burned, burn),
            balances := if ctx.treasury in b.balances
                        then b.balances[ctx.treasury := SatSub(b.balances[ctx.treasury], burn)] else b.balances)
  }

  /** The first block of an epoch records the epoch. */
  function ReaperPhase(b: StakeBook, ctx: Context): StakeBook {
    if !ctx.reaperEnabled || ctx.epochLength == 0 then b
    else
      var epoch := ctx.now / ctx.epochLength;
      if epoch == 0 || epoch in b.reaperEpochs then b
      else b.(reaperEpochs := b.reaperEpochs + {epoch}, reaperLog := b.reaperLog + [epoch])
  }

  // ----- unbonding -----

  predicate Due(e: UnbondEntry, now: nat) { e.release != 0 && e.release <= now }

  function Matured(queue: seq<UnbondEntry>, now: nat): seq<UnbondEntry> {
    if queue == [] then []
    else
      var k := |queue| - 1;
      Matured(queue[..k], now) + if Due(queue[k], now) then [queue[k]] else []
  }

  function Anchor(e: UnbondEntry, now: nat, period: nat): UnbondEntry {
    if e.release == 0 then e.(release := SatAdd64(now, period)) else e
  }

  /** What stays in the queue, freshly requested entries now carrying a release time. */
  function Remaining(queue: seq<UnbondEntry>, now: nat, period: nat): seq<UnbondEntry> {
    if queue == [] then []
    else
      var k := |queue| - 1;
      Remaining(queue[..k], now, period) + if Due(queue[k], now) then [] else [Anchor(queue[k], now, period)]
  }

  function PayAll(balances: map<nat, nat>, entries: seq<UnbondEntry>): map<nat, nat> {
    if entries == [] then balances
    else
      var k := |entries| - 1;
      var before := PayAll(balances, entries[..k]);
      before[entries[k].owner := SatAdd(Get(before, entries[k].owner), entries[k].amount)]
  }

  function UnbondPhase(b: StakeBook, now: nat, period: nat): StakeBook {
    b.(balances := PayAll(b.balances, Matured(b.unbonding, now)),
       unbonding := Remaining(b.unbonding, now, period))
  }

  // ----- the block reward -----

  function PositionOf(fps: seq<nat>, fp: nat): (r: Option<nat>)
    ensures r.Some? ==> r.value < |fps| && fps[r.value] == fp
  {
    if fps == [] then None
    else if fps[0] == fp then Some(0)
    else match PositionOf(fps[1..], fp)
         case None => None
         case Some(i) => Some(i + 1)
  }

  /** Parent-QC signers and the proposer. */
  function Rewarded(ctx: Context): set<nat> {
    match PositionOf(ctx.fingerprints, ctx.proposer)
    case None => Elements(ctx.signers)
    case Some(i) => Elements(ctx.signers) + {i}
  }

  function EffectiveStake(b: StakeBook, fps: seq<nat>, i: nat): nat {
    Max(if i < |fps| then Get(b.stakes, fps[i]) else 0, 1)
  }

  function EffectiveStakes(b: StakeBook, fps: seq<nat>, order: seq<nat>): (r: seq<nat>)
    ensures |r| == |order|
  {
    seq(|order|, i requires 0 <= i < |order| => EffectiveStake(b, fps, order[i]))
  }

  /** Pays the first `k` parts; an index outside the validator list stops the loop. */
  function PayParts(b: StakeBook, fps: seq<nat>, order: seq<nat>, parts: seq<nat>, k: nat): (StakeBook, Outcome)
    requires k <= |order| == |parts|
  {
    if k == 0 then (b, Ok)
    else
      var before := PayParts(b, fps, order, parts, k - 1);
      if before.1.Err? then before
      else if order[k - 1] >= |fps| then (before.0, Err(InvalidShape))
      else (RewardSpec(before.0, fps[order[k - 1]], parts[k - 1]), Ok)
  }

  function TotalEffective(b: StakeBook, fps: seq<nat>, order: seq<nat>): (r: nat)
    ensures r > 0
  {
    Max(Min(Sum(EffectiveStakes(b, fps, order)), U128_MAX), 1)
  }

  function RewardOrder(ctx: Context): seq<nat> { Ascending(Rewarded(ctx)) }

  function RewardParts(b: StakeBook, ctx: Context): (r: seq<nat>)
    ensures |r| == |RewardOrder(ctx)|
  {
    var order := RewardOrder(ctx);
    Split(ctx.reward, EffectiveStakes(b, ctx.fingerprints, order), TotalEffective(b, ctx.fingerprints, order))
  }

  function SplitReward(b: StakeBook, ctx: Context): (StakeBook, Outcome) {
    if Rewarded(ctx) == {} then
      if ctx.fingerprints == [] then (b, Ok) else (RewardSpec(b, ctx.fingerprints[0], ctx.reward), Ok)
    else PayParts(b, ctx.fingerprints, RewardOrder(ctx), RewardParts(b, ctx), |RewardOrder(ctx)|)
  }

  function RewardPhase(b: StakeBook, ctx: Context): (StakeBook, Outcome) {
    if ctx.reward == 0 then (b, Ok)
    else if Get(b.balances, ctx.treasury) < ctx.reward then (b, Err(InsufficientBalance))
    else SplitReward(b.(balances := b.balances[ctx.treasury := Get(b.balances, ctx.treasury) - ctx.reward]), ctx)
  }

  function BeforeReward(b: StakeBook, ctx: Context): StakeBook {
    UnbondPhase(ReaperPhase(BurnPhase(b, ctx), ctx), ctx.now, Period(ctx))
  }

  function FinalizeSpec(b: StakeBook, ctx: Context): (StakeBook, Outcome) {
    RewardPhase(BeforeReward(b, ctx), ctx)
  }

  // ----- the code -----

  method PayMatured(s: StakeState, now: nat)
    modifies s`balances, s`unbonding
    ensures s.balances == PayAll(old(s.balances), Matured(old(s.unbonding), now))
    ensures s.unbonding == Undue(old(s.unbonding), now)
  {
    var queue := s.unbonding;
    var kept: seq<UnbondEntry> := [];
    for i := 0 to |queue|
      invariant kept == Undue(queue[..i], now)
      invariant s.balances == PayAll(old(s.balances), Matured(queue[..i], now))
    {
      var e := queue[i];
      assert queue[..i + 1][..i] == queue[..i];
      assert Matured(queue[..i + 1], now) == Matured(queue[..i], now) + if Due(e, now) then [e] else [];
      assert Matured(queue[..i], now) + [] == Matured(queue[..i], now);
      if e.release != 0 && e.release <= now {
        PayOneMore(old(s.balances), Matured(queue[..i], now), e);
        s.balances := s.balances[e.owner := SatAdd(Get(s.balances, e.owner), e.amount)];
      } else {
        kept := kept + [e];
      }
    }
    assert queue[..|queue|] == queue;
    s.unbonding := kept;
  }

  function Undue(queue: seq<UnbondEntry>, now: nat): seq<UnbondEntry> {
    if queue == [] then []
    else
      var k := |queue| - 1;
      Undue(queue[..k], now) + if Due(queue[k], now) then [] else [queue[k]]
  }

  lemma PayOneMore(balances: map<nat, nat>, entries: seq<UnbondEntry>, e: UnbondEntry)
    ensures PayAll(balances, entries + [e])
         == PayAll(balances, entries)[e.owner := SatAdd(Get(PayAll(balances, entries), e.owner), e.amount)]
  {
    assert (entries + [e])[..|entries|] == entries;
  }

  function AnchorAll(queue: seq<UnbondEntry>, now: nat, period: nat): seq<UnbondEntry> {
    seq(|queue|, i requires 0 <= i < |queue| => Anchor(queue[i], now, period))
  }

  lemma {:induction false} RemainingIsAnchored(queue: seq<UnbondEntry>, now: nat, period: nat)
    ensures Remaining(queue, now, period) == AnchorAll(Undue(queue, now), now, period)
  {
    if queue != [] {
      RemainingIsAnchored(queue[..|queue| - 1], now, period);
    }
  }

  method AnchorFresh(s: StakeState, now: nat, period: nat)
    modifies s`unbonding
    ensures s.unbonding == AnchorAll(old(s.unbonding), now, period)
  {
    for i := 0 to |s.unbonding|
      invariant |s.unbonding| == |old(s.unbonding)|
      invariant forall j :: 0 <= j < |s.unbonding| ==>
        s.unbonding[j] == if j < i then Anchor(old(s.unbonding)[j], now, period) else old(s.unbonding)[j]
    {
      if s.unbonding[i].release == 0 {
        s.unbonding := s.unbonding[i := s.unbonding[i].(release := SatAdd64(now, period))];
      }
    }
  }

  method BurnBaseFee(s: StakeState, ctx: Context)
    modifies s`burned, s`balances
    ensures s.Value() == BurnPhase(old(s.Value()), ctx)
  {
    if ctx.burning && ctx.gasUsed > 0 && ctx.baseFee > 0 {
      var burn := SatMul(ctx.baseFee, ctx.gasUsed);
      if burn > 0 {
        s.burned := SatAdd(s.burned, burn);
        if ctx.treasury in s.balances {
          var balance := s.balances[ctx.treasury];
          s.balances := s.balances[ctx.treasury := SatSub(balance, Min(burn, balance))];
        }
      }
    }
  }

  method RecordReaperEpoch(s: StakeState, ctx: Context)
    modifies s`reaperEpochs, s`reaperLog
    ensures s.Value() == ReaperPhase(old(s.Value()), ctx)
  {
    if ctx.reaperEnabled && ctx.epochLength > 0 {
      var epoch := ctx.now / ctx.epochLength;
      if epoch > 0 && epoch !in s.reaperEpochs {
        s.reaperEpochs := s.reaperEpochs + {epoch};
        s.reaperLog := s.reaperLog + [epoch];
      }
    }
  }

  /** `finalize_block_hooks`. */
  method FinalizeBlock(s: StakeState, ctx: Context) returns (outcome: Outcome)
    requires ctx.reward <= U128_MAX
    modifies s
    ensures (s.Value(), outcome) == FinalizeSpec(old(s.Value()), ctx)
  {
    hide Matured, PayAll, Undue, AnchorAll, Remaining, SplitReward, BurnPhase, ReaperPhase;
    var period := if ctx.period > 0 then ctx.period else ctx.defaultPeriod;
    BurnBaseFee(s, ctx);
    RecordReaperEpoch(s, ctx);
    RemainingIsAnchored(s.unbonding, ctx.now, period);
    PayMatured(s, ctx.now);
    AnchorFresh(s, ctx.now, period);
    assert s.Value() == BeforeReward(old(s.Value()), ctx);
    if ctx.reward == 0 {
      return Ok;
    }
    if Get(s.balances, ctx.treasury) < ctx.reward {
      return Err(InsufficientBalance);
    }
    s.balances := s.balances[ctx.treasury := Get(s.balances, ctx.treasury) - ctx.reward];
    outcome := PaySigners(s, ctx);
  }

  method PaySigners(s: StakeState, ctx: Context) returns (outcome: Outcome)
    requires ctx.reward <= U128_MAX
    modifies s`stakes, s`shares, s`credits
    ensures (s.Value(), outcome) == SplitReward(old(s.Value()), ctx)
  {
    hide RewardSpec, Split, PayParts, TotalEffective;
    var idxs := Rewarded(ctx);
    if idxs == {} {
      if ctx.fingerprints != [] {
        s.DistributeReward(ctx.fingerprints[0], ctx.reward);
      }
      return Ok;
    }
    var order: seq<nat> := Ascending(idxs);
    AscendingMembers(idxs);
    var eff, total := Effective(s, ctx.fingerprints, order);
    outcome := PayInOrder(s, ctx.fingerprints, order, eff, total, ctx.reward);
  }

  method Effective(s: StakeState, fps: seq<nat>, order: seq<nat>) returns (eff: seq<nat>, total: nat)
    ensures eff == EffectiveStakes(s.Value(), fps, order)
    ensures total == TotalEffective(s.Value(), fps, order)
  {
    eff, total := [], 0;
    ghost var all := EffectiveStakes(s.Value(), fps, order);
    for i := 0 to |order|
      invariant eff == all[..i]
      invariant total == Min(Sum(all[..i]), U128_MAX)
    {
      var w := Max(if order[i] < |fps| then Get(s.stakes, fps[order[i]]) else 0, 1);
      SumPrefix(all, i);
      eff := eff + [w];
      total := SatAdd(total, w);
    }
    assert all[..|order|] == all;
    total := Max(total, 1);
  }

  method PayInOrder(s: StakeState, fps: seq<nat>, order: seq<nat>, eff: seq<nat>, total: nat, reward: nat)
    returns (outcome: Outcome)
    requires reward <= U128_MAX && total > 0 && |order| == |eff| && order != []
    modifies s`stakes, s`shares, s`credits
    ensures (s.Value(), outcome) == PayParts(old(s.Value()), fps, order, Split(reward, eff, total), |order|)
  {
    hide RewardSpec, Split, FloorShare, Sum;
    ghost var parts := Split(reward, eff, total);
    SumEmpty(parts);
    var given: nat := 0;
    for k := 0 to |order|
      invariant given == Min(Sum(parts[..k]), U128_MAX)
      invariant (s.Value(), Ok) == PayParts(old(s.Value()), fps, order, parts, k)
    {
      if order[k] >= |fps| {
        PayPartsStops(old(s.Value()), fps, order, parts, k + 1, |order|);
        return Err(InvalidShape);
      }
      SplitAt(reward, eff, total, k);
      SumPrefix(parts, k);
      PartFits(reward, eff, total, k);
      var share := if k + 1 == |order| then SatSub(reward, given) else FloorShare(reward, eff[k], total);
      given := SatAdd(given, share);
      s.DistributeReward(fps[order[k]], share);
    }
    return Ok;
  }

  lemma PartFits(reward: nat, eff: seq<nat>, total: nat, k: nat)
    requires reward <= U128_MAX && total > 0 && k < |eff|
    ensures FloorShare(reward, eff[k], total) <= U128_MAX
  {
    var p := SatMul(reward, eff[k]);
    MulMonotone(1, total, p / total);
    assert p / total * total <= p;
  }

  lemma {:induction false} PayPartsStops(b: StakeBook, fps: seq<nat>, order: seq<nat>, parts: seq<nat>, i: nat, k: nat)
    requires i <= k <= |order| == |parts| && PayParts(b, fps, order, parts, i).1.Err?
    ensures PayParts(b, fps, order, parts, k) == PayParts(b, fps, order, parts, i)
    decreases k
  {
    if i < k {
      PayPartsStops(b, fps, order, parts, i, k - 1);
    }
  }

  // ----- what burning and recording do -----

  /** The burn counter tells what the treasury lost if and only if the treasury could pay the burn;
      otherwise it runs ahead by the difference. */
  lemma BurnCountedExactly(b: StakeBook, ctx: Context)
    requires b.burned + BurnDue(ctx) <= U128_MAX
    ensures var b' := BurnPhase(b, ctx);
      && b'.burned == b.burned + BurnDue(ctx)
      && MapSum(b'.balances) == MapSum(b.balances) - Min(BurnDue(ctx), Get(b.balances, ctx.treasury))
      && (forall a :: a != ctx.treasury ==> Get(b'.balances, a) == Get(b.balances, a))
      && ((b'.burned + MapSum(b'.balances) == b.burned + MapSum(b.balances))
          <==> BurnDue(ctx) <= Get(b.balances, ctx.treasury))
  {
    hide BurnDue, MapSum;
    if ctx.treasury in b.balances {
      MapSumUpdate(b.balances, ctx.treasury, SatSub(b.balances[ctx.treasury], BurnDue(ctx)));
    }
  }

  ghost predicate LoggedOnce(b: StakeBook) {
    && Elements(b.reaperLog) == b.reaperEpochs
    && forall i, j :: 0 <= i < j < |b.reaperLog| ==> b.reaperLog[i] != b.reaperLog[j]
  }

  /** However many blocks fall into an epoch, its record is written once. */
  lemma ReaperLoggedOnce(b: StakeBook, ctx: Context)
    requires LoggedOnce(b)
    ensures LoggedOnce(ReaperPhase(b, ctx))
    ensures ctx.reaperEnabled && ctx.epochLength > 0 && ctx.now / ctx.epochLength > 0
        ==> ctx.now / ctx.epochLength in Elements(ReaperPhase(b, ctx).reaperLog)
  {
    var log, log' := b.reaperLog, ReaperPhase(b, ctx).reaperLog;
    if log' != log {
      assert log'[..|log|] == log;
      PrefixSet(log', |log|);
      assert log'[..|log| + 1] == log';
    }
  }

  // ----- conservation of the block reward -----

  lemma RewardKeepsQueue(b: StakeBook, fp: nat, reward: nat)
    ensures RewardSpec(b, fp, reward).unbonding == b.unbonding
  {
    hide TakeCommission, Compound;
    CommissionKeepsQueue(b, fp, reward);
    var (b1, net) := TakeCommission(b, fp, reward);
    if Get(b1.stakes, fp) > 0 {
      CompoundKeepsQueue(b1, fp, net);
    }
  }

  lemma CommissionKeepsQueue(b: StakeBook, fp: nat, reward: nat)
    ensures TakeCommission(b, fp, reward).0.unbonding == b.unbonding
    ensures TakeCommission(b, fp, reward).0.stakes == b.stakes
  {
    hide CommissionOf, Operator;
  }

  lemma CompoundKeepsQueue(b: StakeBook, fp: nat, net: nat)
    requires Get(b.stakes, fp) > 0
    ensures Compound(b, fp, net).unbonding == b.unbonding
  {
    hide Owners, Split, AddShares, ValuesInOrder, Ascending;
  }

  /** How many of the first `k` parts are paid: those before the first unknown index. */
  function Served(fps: seq<nat>, order: seq<nat>, k: nat): (r: nat)
    requires k <= |order|
    ensures r <= k
  {
    if k == 0 then 0
    else
      var before := Served(fps, order, k - 1);
      if before == k - 1 && order[k - 1] < |fps| then k else before
  }

  /** The paid parts arrive in full, and they are all of them exactly if the loop succeeds. */
  lemma {:induction false} PayPartsExact(b: StakeBook, fps: seq<nat>, order: seq<nat>, parts: seq<nat>, k: nat)
    requires SharesCovered(b) && k <= |order| == |parts|
    requires forall i :: 0 <= i < |parts| ==> parts[i] <= U128_MAX
    ensures var (b', outcome) := PayParts(b, fps, order, parts, k);
      && SharesCovered(b') && b'.balances == b.balances && b'.unbonding == b.unbonding
      && (outcome.Ok? <==> Served(fps, order, k) == k)
      && MapSum(b'.stakes) + MapSum(b'.credits)
           == MapSum(b.stakes) + MapSum(b.credits) + Sum(parts[..Served(fps, order, k)])
  {
    hide RewardSpec, MapSum, SharesCovered;
    if k > 0 {
      PayPartsExact(b, fps, order, parts, k - 1);
      var before := PayParts(b, fps, order, parts, k - 1).0;
      if Served(fps, order, k - 1) == k - 1 && order[k - 1] < |fps| {
        SumPrefix(parts, k - 1);
        RewardShares(before, fps[order[k - 1]], parts[k - 1]);
        RewardKeepsQueue(before, fps[order[k - 1]], parts[k - 1]);
      }
    }
  }

  /** What a reward that has left the treasury fails to reach: nothing, or the parts from the first
      unknown index on, or all of it if there is no validator. */
  function Unpaid(b: StakeBook, ctx: Context): int {
    if Rewarded(ctx) == {} then if ctx.fingerprints == [] then ctx.reward else 0
    else ctx.reward - Sum(RewardParts(b, ctx)[..Served(ctx.fingerprints, RewardOrder(ctx), |RewardOrder(ctx)|)])
  }

  /** When the reward phase succeeds for a non-empty validator list, the treasury debit reaches
      total stake and reward credits to the last unit, through both nested splits. */
  lemma BlockRewardConserved(b: StakeBook, ctx: Context)
    requires SharesCovered(b) && ctx.reward <= U128_MAX && ctx.fingerprints != []
    requires Sum(EffectiveStakes(b, ctx.fingerprints, RewardOrder(ctx))) <= U128_MAX
    ensures SharesCovered(RewardPhase(b, ctx).0)
    ensures var (b', outcome) := RewardPhase(b, ctx); outcome.Ok? ==>
      && MapSum(b'.balances) + ctx.reward == MapSum(b.balances)
      && MapSum(b'.stakes) + MapSum(b'.credits) == MapSum(b.stakes) + MapSum(b.credits) + ctx.reward
      && (ctx.reward > 0 ==> b'.balances == b.balances[ctx.treasury := Get(b.balances, ctx.treasury) - ctx.reward])
  {
    hide SplitReward, SharesCovered, MapSum, Rewarded, RewardOrder, Sum, Unpaid;
    if 0 < ctx.reward <= Get(b.balances, ctx.treasury) {
      var left: nat := Get(b.balances, ctx.treasury) - ctx.reward;
      var balances := b.balances[ctx.treasury := left];
      MapSumUpdate(b.balances, ctx.treasury, left);
      BalancesAside(b, balances, ctx);
      SplitRewardExact(b.(balances := balances), ctx);
    }
  }

  /** Rewards do not depend on balances. */
  lemma BalancesAside(b: StakeBook, balances: map<nat, nat>, ctx: Context)
    ensures SharesCovered(b) ==> SharesCovered(b.(balances := balances))
    ensures EffectiveStakes(b.(balances := balances), ctx.fingerprints, RewardOrder(ctx))
         == EffectiveStakes(b, ctx.fingerprints, RewardOrder(ctx))
    ensures Unpaid(b.(balances := balances), ctx) == Unpaid(b, ctx)
  {
    hide ShareSum, Rewarded, RewardOrder, Served;
  }

  /** Every reward that has left the treasury reaches stake and credits but for its unpaid parts. */
  lemma SplitRewardExact(b: StakeBook, ctx: Context)
    requires SharesCovered(b) && ctx.reward <= U128_MAX
    requires Sum(EffectiveStakes(b, ctx.fingerprints, RewardOrder(ctx))) <= U128_MAX
    ensures var (b', outcome) := SplitReward(b, ctx);
      && SharesCovered(b') && b'.balances == b.balances && b'.unbonding == b.unbonding
      && MapSum(b'.stakes) + MapSum(b'.credits) == MapSum(b.stakes) + MapSum(b.credits) + ctx.reward - Unpaid(b, ctx)
      && 0 <= Unpaid(b, ctx) <= ctx.reward
      && (outcome.Ok? && ctx.fingerprints != [] ==> Unpaid(b, ctx) == 0)
      && (ctx.fingerprints == [] ==> Unpaid(b, ctx) == ctx.reward)
  {
    hide RewardSpec, SharesCovered, MapSum, Split, Rewarded, Sum, Ascending;
    if Rewarded(ctx) == {} {
      if ctx.fingerprints != [] {
        RewardShares(b, ctx.fingerprints[0], ctx.reward);
        RewardKeepsQueue(b, ctx.fingerprints[0], ctx.reward);
      }
    } else {
      PartsExact(b, ctx);
      var order, parts := RewardOrder(ctx), RewardParts(b, ctx);
      PayPartsExact(b, ctx.fingerprints, order, parts, |order|);
      SumPrefixBound(parts, Served(ctx.fingerprints, order, |order|));
      assert parts[..|order|] == parts;
      hide PayParts, RewardParts;
      if ctx.fingerprints == [] {
        NoneServed(order, |order|);
        SumEmpty(parts);
      }
    }
  }

  lemma PartsExact(b: StakeBook, ctx: Context)
    requires Rewarded(ctx) != {}
    requires Sum(EffectiveStakes(b, ctx.fingerprints, RewardOrder(ctx))) <= U128_MAX
    ensures Sum(RewardParts(b, ctx)) == ctx.reward
    ensures forall i :: 0 <= i < |RewardParts(b, ctx)| ==> RewardParts(b, ctx)[i] <= ctx.reward
  {
    hide Split, Rewarded, Sum;
    AscendingMembers(Rewarded(ctx));
    var order := RewardOrder(ctx);
    var eff := EffectiveStakes(b, ctx.fingerprints, order);
    SumElementBound(eff, 0);
    SplitExact(ctx.reward, eff, TotalEffective(b, ctx.fingerprints, order));
  }

  lemma {:induction false} NoneServed(order: seq<nat>, k: nat)
    requires k <= |order|
    ensures Served([], order, k) == 0
  {
    if k > 0 {
      NoneServed(order, k - 1);
    }
  }
}

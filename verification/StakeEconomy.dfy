/** The staking economy as a whole: deposits, redelegations, withdrawals, slashes and finalized
    blocks, in any order, never create tokens. */
module StakeEconomy {
  import opened Arithmetic
  import opened Collections
  import opened Stake
  import opened StakeShares
  import opened Finalize
  import opened Unbonding

  const INDEX_RANGE: nat := 0x1_0000_0000

  /** Everything anyone holds: balances, stake, reward credits and the unbonding queue. */
  ghost function Holdings(b: StakeBook): nat {
    MapSum(b.balances) + MapSum(b.stakes) + MapSum(b.credits) + Sum(Amounts(b.unbonding))
  }

  // ----- the operations on stake -----

  lemma DepositHoldings(b: StakeBook, signer: nat, fp: nat, amount: nat)
    ensures Holdings(DepositSpec(b, signer, fp, amount).0) == Holdings(b)
  {
    hide MapSum;
    if amount > 0 && signer in b.balances && amount <= b.balances[signer] {
      MapSumUpdate(b.balances, signer, b.balances[signer] - amount);
      MapSumUpdate(b.stakes, fp, Get(b.stakes, fp) + amount);
    }
  }

  lemma ReduceSum<K>(m: map<K, nat>, k: K, amount: nat)
    requires k in m && amount <= m[k]
    ensures MapSum(Reduce(m, k, amount)) == MapSum(m) - amount
  {
    hide MapSum;
    MapSumDrop(m, k);
    MapSumUpdate(m, k, m[k] - amount);
  }

  lemma RedelegateHoldings(b: StakeBook, owner: nat, from: nat, to: nat, amount: nat)
    ensures Holdings(RedelegateSpec(b, owner, from, to, amount).0) == Holdings(b)
  {
    hide MapSum, Reduce;
    if RedelegateRefusal(b, owner, from, to, amount).None? && from in b.stakes && amount <= b.stakes[from] {
      ReduceSum(b.stakes, from, amount);
      var stakes := Reduce(b.stakes, from, amount);
      MapSumUpdate(stakes, to, Get(stakes, to) + amount);
    }
  }

  lemma {:induction false} KeepOthersSum(queue: seq<UnbondEntry>, fp: nat)
    ensures Sum(Amounts(KeepOthers(queue, fp))) <= Sum(Amounts(queue))
  {
    if queue != [] {
      var k := |queue| - 1;
      KeepOthersSum(queue[..k], fp);
      assert queue == queue[..k] + [queue[k]];
      AmountsAppend(queue[..k], [queue[k]]);
      AmountsAppend(KeepOthers(queue[..k], fp), [queue[k]]);
      hide Amounts, Sum;
      assert KeepOthers(queue[..k], fp) + [] == KeepOthers(queue[..k], fp);
    }
  }

  lemma SlashHoldings(b: StakeBook, fp: nat)
    ensures Holdings(SlashSpec(b, fp)) <= Holdings(b)
  {
    hide MapSum, KeepOthers;
    MapSumDrop(b.stakes, fp);
    MapSumMonotone(SlashSpec(b, fp).credits, b.credits);
    KeepOthersSum(b.unbonding, fp);
  }

  lemma WithdrawHoldings(b: StakeBook, signer: nat, fp: nat)
    requires Holdings(b) <= U128_MAX
    ensures Holdings(WithdrawSpec(b, signer, fp)) == Holdings(b)
  {
    hide MapSum;
    MapSumUpdate(b.credits, (signer, fp), 0);
    MapSumDrop(b.credits, (signer, fp));
    MapSumUpdate(b.balances, signer, Get(b.balances, signer) + Get(b.credits, (signer, fp)));
  }

  // ----- blocks -----

  ghost predicate Distinct(fps: seq<nat>) {
    forall i, j :: 0 <= i < j < |fps| ==> fps[i] != fps[j]
  }

  /** The weights of the rewarded validators are their stakes, with one unit for the unstaked. */
  lemma {:induction false} EffectiveBound(b: StakeBook, fps: seq<nat>, order: seq<nat>)
    requires Distinct(fps) && StrictlyAscending(order)
    ensures Sum(EffectiveStakes(b, fps, order)) <= MapSum(b.stakes) + |order|
    decreases |order|
  {
    if order != [] {
      var k := |order| - 1;
      var init, last := order[..k], order[k];
      assert EffectiveStakes(b, fps, order)[..k] == EffectiveStakes(b, fps, init);
      if last < |fps| {
        var less := b.(stakes := b.stakes - {fps[last]});
        EffectiveBound(less, fps, init);
        MapSumDrop(b.stakes, fps[last]);
        assert EffectiveStakes(less, fps, init) == EffectiveStakes(b, fps, init);
      } else {
        EffectiveBound(b, fps, init);
      }
    }
  }

  lemma {:induction false} ElementsSize(s: seq<nat>)
    ensures |Elements(s)| <= |s|
  {
    if s != [] {
      var k := |s| - 1;
      ElementsSize(s[..k]);
      PrefixSet(s, k);
      assert s[..k + 1] == s;
    }
  }

  lemma RewardedSize(ctx: Context)
    ensures |Rewarded(ctx)| <= |ctx.signers| + 1
  {
    ElementsSize(ctx.signers);
  }

  /** What a block context may hold: machine-sized amounts, distinct validators. */
  ghost predicate InBounds(ctx: Context) {
    ctx.reward <= U128_MAX && |ctx.signers| < INDEX_RANGE && Distinct(ctx.fingerprints)
  }

  lemma WeightsFit(b: StakeBook, ctx: Context)
    requires InBounds(ctx) && MapSum(b.stakes) + INDEX_RANGE <= U128_MAX
    ensures Sum(EffectiveStakes(b, ctx.fingerprints, RewardOrder(ctx))) <= U128_MAX
  {
    hide Rewarded, Ascending, Sum, EffectiveStakes;
    AscendingMembers(Rewarded(ctx));
    AscendingSorted(Rewarded(ctx));
    RewardedSize(ctx);
    EffectiveBound(b, ctx.fingerprints, Ascending(Rewarded(ctx)));
  }

  /** What a block takes from the treasury and gives to nobody. */
  function Lost(b: StakeBook, ctx: Context): int {
    if 0 < ctx.reward <= Get(b.balances, ctx.treasury) then Unpaid(b, ctx) else 0
  }

  /** The reward phase never creates tokens and loses exactly the unpaid parts. When it succeeds it
      loses none if and only if there was a validator to pay or nothing to be paid. */
  lemma RewardPhaseHoldings(b: StakeBook, ctx: Context)
    requires SharesCovered(b) && InBounds(ctx) && MapSum(b.stakes) + INDEX_RANGE <= U128_MAX
    ensures var (b', outcome) := RewardPhase(b, ctx);
      && SharesCovered(b') && Holdings(b') == Holdings(b) - Lost(b, ctx) <= Holdings(b)
      && (outcome.Ok? ==> (Lost(b, ctx) == 0 <==> ctx.fingerprints != [] || ctx.reward == 0))
  {
    hide SplitReward, SharesCovered, MapSum, Rewarded, RewardOrder, Sum, EffectiveStakes, Unpaid;
    if 0 < ctx.reward <= Get(b.balances, ctx.treasury) {
      var left: nat := Get(b.balances, ctx.treasury) - ctx.reward;
      var debited := b.(balances := b.balances[ctx.treasury := left]);
      MapSumUpdate(b.balances, ctx.treasury, left);
      BalancesAside(b, debited.balances, ctx);
      WeightsFit(b, ctx);
      SplitRewardExact(debited, ctx);
    }
  }

  lemma UnbondPhaseHoldings(b: StakeBook, now: nat, period: nat)
    requires SharesCovered(b) && Holdings(b) <= U128_MAX
    ensures Holdings(UnbondPhase(b, now, period)) == Holdings(b) && SharesCovered(UnbondPhase(b, now, period))
  {
    hide MapSum, PayAll, Matured, Remaining, ShareSum;
    UnbondConserved(b, now, period);
  }

  lemma BurnHoldings(b: StakeBook, ctx: Context)
    requires SharesCovered(b)
    ensures SharesCovered(BurnPhase(b, ctx))
    ensures Holdings(BurnPhase(b, ctx)) == Holdings(b) - Min(BurnDue(ctx), Get(b.balances, ctx.treasury))
  {
    hide MapSum, ShareSum, BurnDue;
    if ctx.treasury in b.balances {
      MapSumUpdate(b.balances, ctx.treasury, SatSub(b.balances[ctx.treasury], BurnDue(ctx)));
    }
  }

  lemma ReaperHoldings(b: StakeBook, ctx: Context)
    requires SharesCovered(b)
    ensures SharesCovered(ReaperPhase(b, ctx)) && Holdings(ReaperPhase(b, ctx)) == Holdings(b)
  {
    hide MapSum, ShareSum;
  }

  /** What a block takes out of circulation: the burn, as far as the treasury has it, and the parts
      of the reward that reach nobody. */
  function Destroyed(b: StakeBook, ctx: Context): int {
    Min(BurnDue(ctx), Get(b.balances, ctx.treasury)) + Lost(BeforeReward(b, ctx), ctx)
  }

  /** A finalized block conserves but for what it burns and what its reward phase loses: maturing
      entries only change place, and the reward is moved. */
  lemma BlockHoldings(b: StakeBook, ctx: Context)
    requires SharesCovered(b) && InBounds(ctx) && Holdings(b) + INDEX_RANGE <= U128_MAX
    ensures var (b', outcome) := FinalizeSpec(b, ctx);
      && SharesCovered(b') && Holdings(b') == Holdings(b) - Destroyed(b, ctx) <= Holdings(b)
      && (outcome.Ok? ==> (Lost(BeforeReward(b, ctx), ctx) == 0 <==> ctx.fingerprints != [] || ctx.reward == 0))
  {
    hide UnbondPhase, RewardPhase, SharesCovered, MapSum, Sum, Lost, BurnPhase, ReaperPhase, BurnDue;
    BurnHoldings(b, ctx);
    ReaperHoldings(BurnPhase(b, ctx), ctx);
    UnbondPhaseHoldings(ReaperPhase(BurnPhase(b, ctx), ctx), ctx.now, Period(ctx));
    RewardPhaseHoldings(BeforeReward(b, ctx), ctx);
  }

  // ----- runs -----

  datatype EconomyStep =
    | Op(op: StakeOp)
    | Withdraw(signer: nat, fp: nat)
    | Block(ctx: Context)

  /** Rewards enter only through blocks. */
  ghost predicate Admitted(step: EconomyStep) {
    match step
    case Op(op) => !op.Reward?
    case Withdraw(_, _) => true
    case Block(ctx) => InBounds(ctx)
  }

  function After(b: StakeBook, step: EconomyStep): StakeBook {
    match step
    case Op(op) => StakeShares.Step(b, op)
    case Withdraw(signer, fp) => WithdrawSpec(b, signer, fp)
    case Block(ctx) => FinalizeSpec(b, ctx).0
  }

  function Economy(b: StakeBook, steps: seq<EconomyStep>): StakeBook {
    if steps == [] then b else After(Economy(b, steps[..|steps| - 1]), steps[|steps| - 1])
  }

  /** Steps that take nothing from anyone: no slash, and no block that burns, fails or pays nobody. */
  predicate Lossless(b: StakeBook, step: EconomyStep) {
    match step
    case Op(op) => !op.Slash?
    case Withdraw(_, _) => true
    case Block(ctx) =>
      BurnDue(ctx) == 0 && FinalizeSpec(b, ctx).1.Ok? && (ctx.fingerprints != [] || ctx.reward == 0)
  }

  lemma OpHoldings(b: StakeBook, op: StakeOp)
    requires !op.Reward?
    ensures Holdings(StakeShares.Step(b, op)) <= Holdings(b)
    ensures !op.Slash? ==> Holdings(StakeShares.Step(b, op)) == Holdings(b)
  {
    hide DepositSpec, RedelegateSpec, SlashSpec, MapSum, Operator;
    match op
    case Deposit(signer, fp, amount) => DepositHoldings(b, signer, fp, amount);
    case Redelegate(owner, from, to, amount) => RedelegateHoldings(b, owner, from, to, amount);
    case Slash(fp) => SlashHoldings(b, fp);
    case SetCommission(_, _, _) =>
  }

  lemma WithdrawCovered(b: StakeBook, signer: nat, fp: nat)
    requires SharesCovered(b)
    ensures SharesCovered(WithdrawSpec(b, signer, fp))
  {
    hide ShareSum;
  }

  lemma StepHoldings(b: StakeBook, step: EconomyStep)
    requires SharesCovered(b) && Admitted(step) && Holdings(b) + INDEX_RANGE <= U128_MAX
    ensures SharesCovered(After(b, step)) && Holdings(After(b, step)) <= Holdings(b)
    ensures Lossless(b, step) ==> Holdings(After(b, step)) == Holdings(b)
  {
    hide SharesCovered, Holdings, FinalizeSpec, WithdrawSpec, InBounds, StakeShares.Step, Gap;
    hide Lost, BeforeReward, BurnDue;
    match step
    case Op(op) =>
      StepShares(b, op, 0);
      OpHoldings(b, op);
    case Withdraw(signer, fp) =>
      WithdrawHoldings(b, signer, fp);
      WithdrawCovered(b, signer, fp);
    case Block(ctx) => BlockHoldings(b, ctx);
  }

  /** No run creates tokens, failed blocks included, and a run of lossless steps loses none:
      balances, stake, credits and the unbonding queue together keep their value, while every
      fingerprint's shares stay covered by its stake. */
  lemma {:induction false} EconomyNeverInflates(b: StakeBook, steps: seq<EconomyStep>)
    requires SharesCovered(b) && Holdings(b) + INDEX_RANGE <= U128_MAX
    requires forall i :: 0 <= i < |steps| ==> Admitted(steps[i])
    ensures SharesCovered(Economy(b, steps)) && Holdings(Economy(b, steps)) <= Holdings(b)
    ensures (forall i :: 0 <= i < |steps| ==> Lossless(Economy(b, steps[..i]), steps[i]))
        ==> Holdings(Economy(b, steps)) == Holdings(b)
  {
    hide SharesCovered, Holdings, Lossless, After, Admitted;
    if steps != [] {
      var k := |steps| - 1;
      EconomyNeverInflates(b, steps[..k]);
      StepHoldings(Economy(b, steps[..k]), steps[k]);
      assert forall i :: 0 <= i < k ==> steps[..k][..i] == steps[..i];
    }
  }
}

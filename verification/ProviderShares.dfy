/** What each receipt and each worker gets out of a settlement. */
module ProviderShares {
  import opened Arithmetic
  import opened Collections
  import opened Emission
  import opened Ledger

  /** A receipt of score zero counts like one of score one. */
  function WorkOf(r: Receipt): nat { if r.score == 0 then 1 else r.score }

  function TotalWork(receipts: seq<Receipt>): (r: nat)
    ensures receipts != [] ==> r > 0
  {
    if receipts == [] then 0 else WorkOf(receipts[0]) + TotalWork(receipts[1..])
  }

  /** What the entries of `amounts` that stand at receipts of `worker` add up to. */
  function OwnSum(receipts: seq<Receipt>, amounts: seq<nat>, worker: nat): nat
    requires |receipts| == |amounts|
  {
    if receipts == [] then 0
    else
      var k := |receipts| - 1;
      OwnSum(receipts[..k], amounts[..k], worker) + if receipts[k].worker == worker then amounts[k] else 0
  }

  lemma {:induction false} TotalWorkIsSum(receipts: seq<Receipt>)
    ensures Sum(Scores(receipts)) == TotalWork(receipts)
  {
    if receipts != [] {
      var scores := Scores(receipts);
      TotalWorkIsSum(receipts[1..]);
      assert scores == [scores[0]] + Scores(receipts[1..]);
      SumConcat([scores[0]], Scores(receipts[1..]));
      SumAppend([], scores[0]);
      assert [] + [scores[0]] == [scores[0]];
    }
  }

  // ----- receipt by receipt -----

  function Computes(rewards: seq<ProviderReward>): (r: seq<nat>)
    ensures |r| == |rewards|
  {
    seq(|rewards|, i requires 0 <= i < |rewards| => rewards[i].compute)
  }

  function TxCounts(rewards: seq<ProviderReward>): (r: seq<nat>)
    ensures |r| == |rewards|
  {
    seq(|rewards|, i requires 0 <= i < |rewards| => rewards[i].txCount)
  }

  /** The records one settlement appends. */
  function Appended(l: Ledger, receipts: seq<Receipt>): seq<ProviderReward> {
    var rewards := DistributeProviderPool(l, receipts).providers.rewards;
    if |l.providers.rewards| <= |rewards| then rewards[|l.providers.rewards|..] else []
  }

  lemma AppendedRewards(l: Ledger, receipts: seq<Receipt>)
    requires receipts != [] && l.pools.provider > 0
    ensures DistributeProviderPool(l, receipts).providers.rewards == l.providers.rewards + Appended(l, receipts)
    ensures Appended(l, receipts) == ProviderRewards(l.pools.provider, l.emission, receipts)
  {
    hide ProviderRewards, AddOrganic, AddSubsidies, DrainProviderPool;
    var rewards := ProviderRewards(l.pools.provider, l.emission, receipts);
    assert (l.providers.rewards + rewards)[|l.providers.rewards|..] == rewards;
  }

  /** Each receipt but the last is paid in proportion to its work out of the compute budget and an
      equal part of the transaction budget; all of them together are paid both budgets, so the last
      one takes what the floors leave. */
  lemma ReceiptsPaid(l: Ledger, receipts: seq<Receipt>)
    requires receipts != [] && l.pools.provider > 0
    ensures var pool, work, paid := l.pools.provider, l.emission.providerWork, Appended(l, receipts);
      var storage := Min(pool * work.a, U128_MAX) / 10_000;
      var compute := Min(pool * work.b, U128_MAX) / 10_000;
      var tx := Max(pool, storage + compute) - storage - compute;
      && |paid| == |receipts|
      && Sum(Computes(paid)) == compute && Sum(TxCounts(paid)) == tx
      && forall i :: 0 <= i < |receipts| ==>
           && paid[i].receiptId == receipts[i].id && paid[i].worker == receipts[i].worker
           && paid[i].organic == receipts[i].payout
           && paid[i].storageRollover == (if i == 0 then storage else 0)
           && (i + 1 < |receipts| ==>
                 && paid[i].compute == Min(compute * WorkOf(receipts[i]), U128_MAX) / TotalWork(receipts)
                 && paid[i].txCount == tx / |receipts|)
  {
    hide Sum, Split, TotalWork, AddOrganic, AddSubsidies, DistributeProviderPool;
    var pool, p, n := l.pools.provider, l.emission, |receipts|;
    AppendedRewards(l, receipts);
    ScoresPositive(receipts);
    TotalWorkIsSum(receipts);
    var rewards := ProviderRewards(pool, p, receipts);
    var computes := Split(ComputeBudget(pool, p), Scores(receipts), Sum(Scores(receipts)));
    var txs := Split(TxBudget(pool, p), Ones(n), n);
    assert Computes(rewards) == computes && TxCounts(rewards) == txs;
    SplitExact(ComputeBudget(pool, p), Scores(receipts), Sum(Scores(receipts)));
    SplitExact(TxBudget(pool, p), Ones(n), n);
    forall i | 0 <= i < n - 1
      ensures computes[i] == Min(ComputeBudget(pool, p) * WorkOf(receipts[i]), U128_MAX) / TotalWork(receipts)
      ensures txs[i] == TxBudget(pool, p) / n
    {
      SplitAt(ComputeBudget(pool, p), Scores(receipts), Sum(Scores(receipts)), i);
      SplitAt(TxBudget(pool, p), Ones(n), n, i);
    }
  }

  // ----- worker by worker -----

  lemma SaturatingAdds(before: nat, sum: nat, more: nat)
    ensures SatAdd(Min(before + sum, U128_MAX), more) == Min(before + (sum + more), U128_MAX)
  {
  }

  lemma {:induction false} OrganicOf(income: map<nat, nat>, receipts: seq<Receipt>, payouts: seq<nat>, worker: nat)
    requires Get(income, worker) <= U128_MAX
    requires |payouts| == |receipts| && forall i :: 0 <= i < |receipts| ==> payouts[i] == receipts[i].payout
    ensures Get(AddOrganic(income, receipts), worker)
         == Min(Get(income, worker) + OwnSum(receipts, payouts, worker), U128_MAX)
  {
    if receipts != [] {
      var k := |receipts| - 1;
      OrganicOf(income, receipts[..k], payouts[..k], worker);
      SaturatingAdds(Get(income, worker), OwnSum(receipts[..k], payouts[..k], worker), payouts[k]);
    }
  }

  lemma SubsidyStep(income: map<nat, nat>, rewards: seq<ProviderReward>, worker: nat)
    requires rewards != []
    ensures var before := Get(AddSubsidies(income, rewards[..|rewards| - 1]), worker);
      var last := rewards[|rewards| - 1];
      Get(AddSubsidies(income, rewards), worker)
        == if last.worker == worker && last.compute + last.txCount > 0
           then SatAdd(before, last.compute + last.txCount) else before
  {
    var last := rewards[|rewards| - 1];
    assert forall x :: SatAdd(x, SatAdd(last.compute, last.txCount)) == SatAdd(x, last.compute + last.txCount);
  }

  lemma {:induction false} SubsidyOf(income: map<nat, nat>, receipts: seq<Receipt>, rewards: seq<ProviderReward>,
                                     amounts: seq<nat>, worker: nat)
    requires Get(income, worker) <= U128_MAX && |rewards| == |receipts| == |amounts|
    requires forall i :: 0 <= i < |receipts| ==>
      rewards[i].worker == receipts[i].worker && amounts[i] == rewards[i].compute + rewards[i].txCount
    ensures Get(AddSubsidies(income, rewards), worker)
         == Min(Get(income, worker) + OwnSum(receipts, amounts, worker), U128_MAX)
  {
    if receipts != [] {
      var k := |receipts| - 1;
      SubsidyStep(income, rewards, worker);
      SaturatingAdds(Get(income, worker), OwnSum(receipts[..k], amounts[..k], worker), amounts[k]);
      hide AddSubsidies;
      SubsidyOf(income, receipts[..k], rewards[..k], amounts[..k], worker);
    }
  }

  lemma BooksAfter(l: Ledger, receipts: seq<Receipt>)
    requires receipts != [] && l.pools.provider > 0
    ensures var l', paid := DistributeProviderPool(l, receipts), Appended(l, receipts);
      && l'.providers.organic == AddOrganic(l.providers.organic, receipts)
      && l'.providers.subsidy == AddSubsidies(l.providers.subsidy, paid)
      && |paid| == |receipts| && forall i :: 0 <= i < |receipts| ==> paid[i].worker == receipts[i].worker
  {
    AppendedRewards(l, receipts);
    hide AddSubsidies, AddOrganic, DrainProviderPool, Appended, Split, Sum;
  }

  /** A worker's organic income grows by the payouts of its own receipts and its subsidy income by
      what those receipts were paid, to the limit of a `u128`; nobody else's work counts. */
  lemma WorkersPaid(l: Ledger, receipts: seq<Receipt>, payouts: seq<nat>, amounts: seq<nat>, worker: nat)
    requires receipts != [] && l.pools.provider > 0
    requires Get(l.providers.organic, worker) <= U128_MAX && Get(l.providers.subsidy, worker) <= U128_MAX
    requires |payouts| == |amounts| == |receipts| == |Appended(l, receipts)|
    requires forall i :: 0 <= i < |receipts| ==>
      && payouts[i] == receipts[i].payout
      && amounts[i] == Appended(l, receipts)[i].compute + Appended(l, receipts)[i].txCount
    ensures var l' := DistributeProviderPool(l, receipts);
      && Get(l'.providers.organic, worker)
           == Min(Get(l.providers.organic, worker) + OwnSum(receipts, payouts, worker), U128_MAX)
      && Get(l'.providers.subsidy, worker)
           == Min(Get(l.providers.subsidy, worker) + OwnSum(receipts, amounts, worker), U128_MAX)
  {
    hide OwnSum, AddSubsidies, AddOrganic, DistributeProviderPool, Appended;
    BooksAfter(l, receipts);
    OrganicOf(l.providers.organic, receipts, payouts, worker);
    SubsidyOf(l.providers.subsidy, receipts, Appended(l, receipts), amounts, worker);
  }

  /** With an empty pool only the organic income moves. */
  lemma EmptyPoolPays(l: Ledger, receipts: seq<Receipt>, payouts: seq<nat>, worker: nat)
    requires l.pools.provider == 0 && Get(l.providers.organic, worker) <= U128_MAX
    requires |payouts| == |receipts| && forall i :: 0 <= i < |receipts| ==> payouts[i] == receipts[i].payout
    ensures var l' := DistributeProviderPool(l, receipts);
      && l' == l.(providers := l.providers.(organic := l'.providers.organic))
      && Get(l'.providers.organic, worker)
           == Min(Get(l.providers.organic, worker) + OwnSum(receipts, payouts, worker), U128_MAX)
  {
    OrganicOf(l.providers.organic, receipts, payouts, worker);
  }
}

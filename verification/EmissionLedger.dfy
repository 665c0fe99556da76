/** Conservation of protocol-minted tokens over every run: what has been minted is exactly what
    sits in the pools, was rolled over, or was paid out. */
module EmissionLedger {
  import opened Arithmetic
  import opened Collections
  import opened Emission
  import opened Ledger
  import Merkle

  function Subsidies(rewards: seq<ProviderReward>): (r: seq<nat>)
    ensures |r| == |rewards|
  {
    seq(|rewards|, i requires 0 <= i < |rewards| => rewards[i].Subsidy())
  }

  function PayoutAmounts(payouts: seq<LifePayout>): (r: seq<nat>)
    ensures |r| == |payouts|
  {
    seq(|payouts|, i requires 0 <= i < |payouts| => payouts[i].amount)
  }

  function PaidSubsidies(l: Ledger): nat { Sum(Subsidies(l.providers.rewards)) }

  function PaidLife(l: Ledger): nat { Sum(PayoutAmounts(l.life.payouts)) }

  /** The splits a profile may contain for the books to balance. */
  predicate SplitsFit(p: EmissionParams) {
    && p.pools.a + p.pools.b <= BPS
    && p.providerWork.a + p.providerWork.b <= BPS
    && FirstHop(p) <= BPS
  }

  ghost predicate Balanced(l: Ledger) {
    && l.pools.minted == l.pools.provider + l.pools.consensus + l.pools.intelligence + l.pools.rollover
                         + PaidSubsidies(l) + PaidLife(l)
    && l.pools.minted <= MAX_SUPPLY_WEI
    && MapSum(l.providers.subsidy) == PaidSubsidies(l)
    && MapSum(l.life.vesting) == PaidLife(l)
    && forall id :: id in l.life.vesting ==> id.sequence < |l.life.payouts|
  }

  predicate KeepsSplits(call: Call) {
    call.Native? && call.call.SetChainEconomics? ==> SplitsFit(call.call.params)
  }

  /** The books at genesis, under any profile whose splits fit. */
  predicate Genesis(l: Ledger) {
    && l.pools == Pools(0, 0, 0, 0, 0)
    && l.providers == ProviderBook([], map[], map[])
    && l.life.payouts == [] && l.life.vesting == map[]
    && SplitsFit(l.emission)
  }

  // ----- provider distribution -----

  /** Crediting the workers' incomes adds up to the subsidies while nothing saturates. */
  lemma {:induction false} AddSubsidiesSum(income: map<nat, nat>, rewards: seq<ProviderReward>)
    requires MapSum(income) + Sum(Subsidies(rewards)) <= U128_MAX
    ensures MapSum(AddSubsidies(income, rewards)) == MapSum(income) + Sum(Subsidies(rewards))
  {
    if rewards == [] {
      assert Subsidies(rewards) == [];
    } else {
      var k := |rewards| - 1;
      assert Subsidies(rewards)[..k] == Subsidies(rewards[..k]);
      hide AddSubsidies, MapSum;
      AddSubsidiesSum(income, rewards[..k]);
      var before := AddSubsidies(income, rewards[..k]);
      var w, x := rewards[k].worker, rewards[k].Subsidy();
      MapSumUpdate(before, w, Get(before, w) + x);
      AddSubsidiesLast(income, rewards);
    }
  }

  lemma AddSubsidiesLast(income: map<nat, nat>, rewards: seq<ProviderReward>)
    requires rewards != []
    ensures var before, last := AddSubsidies(income, rewards[..|rewards| - 1]), rewards[|rewards| - 1];
      var x := SatAdd(last.compute, last.txCount);
      AddSubsidies(income, rewards)
        == if x > 0 then before[last.worker := SatAdd(Get(before, last.worker), x)] else before
  {
  }

  lemma {:induction false} SubsidiesSplit(rewards: seq<ProviderReward>, computes: seq<nat>, txs: seq<nat>)
    requires |rewards| == |computes| == |txs|
    requires forall i :: 0 <= i < |rewards| ==> rewards[i].compute == computes[i] && rewards[i].txCount == txs[i]
    ensures Sum(Subsidies(rewards)) == Sum(computes) + Sum(txs)
  {
    if rewards != [] {
      var k := |rewards| - 1;
      assert Subsidies(rewards)[..k] == Subsidies(rewards[..k]);
      SubsidiesSplit(rewards[..k], computes[..k], txs[..k]);
    }
  }

  /** The receipts of one settlement receive the compute and transaction budgets to the unit. */
  lemma RewardsExact(pool: nat, p: EmissionParams, receipts: seq<Receipt>)
    requires receipts != []
    ensures Sum(Subsidies(ProviderRewards(pool, p, receipts))) == ComputeBudget(pool, p) + TxBudget(pool, p)
  {
    hide FloorShare, Sum, Split, ComputeBudget, TxBudget, StorageBudget;
    ScoresPositive(receipts);
    var computes := Split(ComputeBudget(pool, p), Scores(receipts), Sum(Scores(receipts)));
    var txs := Split(TxBudget(pool, p), Ones(|receipts|), |receipts|);
    SubsidiesSplit(ProviderRewards(pool, p, receipts), computes, txs);
    SplitExact(ComputeBudget(pool, p), Scores(receipts), Sum(Scores(receipts)));
    SplitExact(TxBudget(pool, p), Ones(|receipts|), |receipts|);
  }

  lemma TwoSharesFit(pool: nat, a: nat, b: nat)
    requires a + b <= BPS
    ensures FloorShare(pool, a, BPS) + FloorShare(pool, b, BPS) <= pool
  {
    SumPair(a, b);
    FloorSharesFit(pool, [a, b], BPS);
    var r := FloorShares(pool, [a, b], BPS);
    assert r == [r[0], r[1]];
    SumPair(r[0], r[1]);
  }

  lemma SumPair(a: nat, b: nat)
    ensures Sum([a, b]) == a + b
  {
    SumAppend([], a);
    SumAppend([a], b);
    assert [] + [a] == [a] && [a] + [b] == [a, b];
  }

  /** A settlement hands out the provider pool exactly when its two floor budgets fit in it. */
  lemma ProviderSplitExactly(pool: nat, p: EmissionParams, receipts: seq<Receipt>)
    requires receipts != []
    ensures StorageBudget(pool, p) + Sum(Subsidies(ProviderRewards(pool, p, receipts))) == pool
       <==> StorageBudget(pool, p) + ComputeBudget(pool, p) <= pool
  {
    RewardsExact(pool, p, receipts);
  }

  /** The work split of a profile is safe for every pool exactly when storage and compute
      together take at most the whole. */
  lemma WorkSplitSafeExactly(p: EmissionParams)
    requires p.providerWork.a <= 0xFFFF && p.providerWork.b <= 0xFFFF
    ensures (forall pool: nat, receipts: seq<Receipt> :: receipts != [] ==>
               StorageBudget(pool, p) + Sum(Subsidies(ProviderRewards(pool, p, receipts))) == pool)
       <==> p.providerWork.a + p.providerWork.b <= BPS
  {
    forall pool: nat, receipts: seq<Receipt> | receipts != []
      ensures StorageBudget(pool, p) + Sum(Subsidies(ProviderRewards(pool, p, receipts))) == pool
         <==> StorageBudget(pool, p) + ComputeBudget(pool, p) <= pool
    {
      ProviderSplitExactly(pool, p, receipts);
    }
    if p.providerWork.a + p.providerWork.b <= BPS {
      forall pool: nat, receipts: seq<Receipt> | receipts != []
        ensures StorageBudget(pool, p) + Sum(Subsidies(ProviderRewards(pool, p, receipts))) == pool
      {
        TwoSharesFit(pool, p.providerWork.a, p.providerWork.b);
      }
    } else {
      ShareOfBps(p.providerWork.a);
      ShareOfBps(p.providerWork.b);
      var receipts := [Receipt(0, 0, 0, 0)];
      assert StorageBudget(BPS, p) + Sum(Subsidies(ProviderRewards(BPS, p, receipts))) != BPS;
    }
  }

  lemma ShareOfBps(a: nat)
    requires a <= 0xFFFF
    ensures FloorShare(BPS, a, BPS) == a
  {
  }

  lemma PaidMore(rewards: seq<ProviderReward>, more: seq<ProviderReward>)
    ensures Sum(Subsidies(rewards + more)) == Sum(Subsidies(rewards)) + Sum(Subsidies(more))
  {
    assert Subsidies(rewards + more) == Subsidies(rewards) + Subsidies(more);
    SumConcat(Subsidies(rewards), Subsidies(more));
  }

  lemma BudgetsOf(pool: nat, p: EmissionParams)
    ensures StorageBudget(pool, p) == FloorShare(pool, p.providerWork.a, BPS)
    ensures ComputeBudget(pool, p) == FloorShare(pool, p.providerWork.b, BPS)
  {
  }

  /** Paying the receipts and rolling over the storage budget use up the pool, and the workers'
      incomes keep up with the rewards. */
  lemma ProvidersPaid(book: ProviderBook, pool: nat, p: EmissionParams, receipts: seq<Receipt>)
    requires receipts != [] && p.providerWork.a + p.providerWork.b <= BPS
    requires MapSum(book.subsidy) == Sum(Subsidies(book.rewards)) && MapSum(book.subsidy) + pool <= U128_MAX
    ensures var book' := PayProviders(book, ProviderRewards(pool, p, receipts));
      && Sum(Subsidies(book'.rewards)) + StorageBudget(pool, p) == Sum(Subsidies(book.rewards)) + pool
      && MapSum(book'.subsidy) == Sum(Subsidies(book'.rewards))
  {
    hide ProviderRewards, StorageBudget, ComputeBudget, Sum, MapSum, AddSubsidies, Subsidies;
    var rewards := ProviderRewards(pool, p, receipts);
    BudgetsOf(pool, p);
    TwoSharesFit(pool, p.providerWork.a, p.providerWork.b);
    ProviderSplitExactly(pool, p, receipts);
    PaidMore(book.rewards, rewards);
    AddSubsidiesSum(book.subsidy, rewards);
  }

  lemma DistributeBalanced(l: Ledger, receipts: seq<Receipt>)
    requires Balanced(l) && SplitsFit(l.emission)
    ensures Balanced(DistributeProviderPool(l, receipts))
    ensures DistributeProviderPool(l, receipts).emission == l.emission
  {
    hide ProviderRewards, StorageBudget, Sum, AddOrganic, MapSum, PayProviders, Subsidies, PayoutAmounts;
    if receipts != [] && l.pools.provider > 0 {
      var book := l.providers.(organic := AddOrganic(l.providers.organic, receipts));
      ProvidersPaid(book, l.pools.provider, l.emission, receipts);
    }
  }

  // ----- life payouts -----

  lemma AppendPayoutBooks(book: LifeBook, c: LifeCommand, kind: PayoutKind, beneficiary: nat, amount: nat, release: nat)
    requires forall id :: id in book.vesting ==> id.sequence < |book.payouts|
    ensures var book' := AppendPayout(book, c, kind, beneficiary, amount, release);
      && Sum(PayoutAmounts(book'.payouts)) == Sum(PayoutAmounts(book.payouts)) + amount
      && MapSum(book'.vesting) == MapSum(book.vesting) + amount
      && (forall id :: id in book'.vesting ==> id.sequence < |book'.payouts|)
      && book'.bonds == book.bonds && book'.commands == book.commands
  {
    var id := PayoutId(c.id, |book.payouts|, kind, beneficiary, amount, release);
    var book' := AppendPayout(book, c, kind, beneficiary, amount, release);
    assert PayoutAmounts(book'.payouts) == PayoutAmounts(book.payouts) + [amount];
    SumAppend(PayoutAmounts(book.payouts), amount);
    assert id !in book.vesting;
    MapSumUpdate(book.vesting, id, amount);
  }

  /** The two payouts of one command add up to what left the intelligence pool. */
  lemma AppendPayoutsBooks(book: LifeBook, c: LifeCommand, royalty: nat, release: nat)
    requires forall id :: id in book.vesting ==> id.sequence < |book.payouts|
    requires royalty <= c.amount && (c.counterparty.None? ==> royalty == 0)
    ensures var book' := AppendPayouts(book, c, royalty, release);
      && Sum(PayoutAmounts(book'.payouts)) == Sum(PayoutAmounts(book.payouts)) + c.amount
      && MapSum(book'.vesting) == MapSum(book.vesting) + c.amount
      && (forall id :: id in book'.vesting ==> id.sequence < |book'.payouts|)
  {
    hide Sum, MapSum, AppendPayout;
    var primary := c.amount - royalty;
    AppendPayoutBooks(book, c, Primary, c.soul, primary, release);
    var book1 := if primary > 0 then AppendPayout(book, c, Primary, c.soul, primary, release) else book;
    if c.counterparty.Some? && royalty > 0 {
      AppendPayoutBooks(book1, c, Royalty, c.counterparty.value, royalty, release);
    }
  }

  lemma RoyaltyFits(c: LifeCommand, p: EmissionParams)
    requires FirstHop(p) <= BPS
    ensures RoyaltyOf(c, p) <= c.amount
  {
    FloorShareBound(c.amount, FirstHop(p), BPS);
    MulMonotone(FirstHop(p), BPS, c.amount);
  }

  lemma AppendPayoutSum(book: LifeBook, c: LifeCommand, kind: PayoutKind, beneficiary: nat, amount: nat, release: nat)
    ensures Sum(PayoutAmounts(AppendPayout(book, c, kind, beneficiary, amount, release).payouts))
         == Sum(PayoutAmounts(book.payouts)) + amount
  {
    var book' := AppendPayout(book, c, kind, beneficiary, amount, release);
    assert PayoutAmounts(book'.payouts) == PayoutAmounts(book.payouts) + [amount];
    SumAppend(PayoutAmounts(book.payouts), amount);
  }

  /** The payouts of a command add up to the larger of its amount and its royalty. */
  lemma PayoutsSum(book: LifeBook, c: LifeCommand, royalty: nat, release: nat)
    requires c.counterparty.None? ==> royalty == 0
    ensures Sum(PayoutAmounts(AppendPayouts(book, c, royalty, release).payouts))
         == Sum(PayoutAmounts(book.payouts)) + Max(c.amount, royalty)
  {
    hide Sum, AppendPayout;
    var primary := SatSub(c.amount, royalty);
    AppendPayoutSum(book, c, Primary, c.soul, primary, release);
    var book1 := if primary > 0 then AppendPayout(book, c, Primary, c.soul, primary, release) else book;
    if c.counterparty.Some? && royalty > 0 {
      AppendPayoutSum(book1, c, Royalty, c.counterparty.value, royalty, release);
    }
  }

  /** A payout never exceeds what left the pool, for any command, exactly when the first royalty
      hop takes at most the whole. */
  lemma RoyaltySafeExactly(p: EmissionParams, book: LifeBook, release: nat)
    requires FirstHop(p) <= 0xFFFF
    ensures (forall c :: Sum(PayoutAmounts(AppendPayouts(book, c, RoyaltyOf(c, p), release).payouts))
                         == Sum(PayoutAmounts(book.payouts)) + c.amount)
       <==> FirstHop(p) <= BPS
  {
    hide Sum, AppendPayouts, FloorShare, FirstHop;
    forall c: LifeCommand
      ensures Sum(PayoutAmounts(AppendPayouts(book, c, RoyaltyOf(c, p), release).payouts))
           == Sum(PayoutAmounts(book.payouts)) + Max(c.amount, RoyaltyOf(c, p))
      ensures FirstHop(p) <= BPS ==> RoyaltyOf(c, p) <= c.amount
    {
      NoPartyNoRoyalty(c, p);
      PayoutsSum(book, c, RoyaltyOf(c, p), release);
      if FirstHop(p) <= BPS {
        RoyaltyFits(c, p);
      }
    }
    if FirstHop(p) > BPS {
      var c := LifeCommand(0, IntelligencePayout, 0, Some(0), 0, BPS, 0);
      ShareOfBps(FirstHop(p));
      assert RoyaltyOf(c, p) == FirstHop(p);
      assert Sum(PayoutAmounts(AppendPayouts(book, c, RoyaltyOf(c, p), release).payouts))
          == Sum(PayoutAmounts(book.payouts)) + FirstHop(p);
    }
  }

  lemma PayoutBalanced(l: Ledger, c: LifeCommand)
    requires Balanced(l) && SplitsFit(l.emission)
    ensures Balanced(IntelligencePayoutSpec(l, c).0)
  {
    hide Sum, MapSum, RoyaltyOf, AppendPayouts;
    RoyaltyFits(c, l.emission);
    NoPartyNoRoyalty(c, l.emission);
    AppendPayoutsBooks(l.life, c, RoyaltyOf(c, l.emission), SatAdd64(c.epoch, l.emission.vestingEpochs));
  }

  lemma NoPartyNoRoyalty(c: LifeCommand, p: EmissionParams)
    ensures c.counterparty.None? ==> RoyaltyOf(c, p) == 0
  {
  }

  // ----- minting -----

  lemma MintBalanced(l: Ledger, height: nat)
    requires Balanced(l) && SplitsFit(l.emission)
    ensures Balanced(MintSpec(l, height).0)
  {
    var e := EmissionForBlock(height, l.emission);
    BlockSplits(height, l.emission);
    hide EmissionForBlock, Sum, MapSum;
  }

  /** A profile divides every emission among the three pools exactly when the provider and
      consensus shares take at most the whole. */
  lemma PoolSplitSafeExactly(p: EmissionParams)
    requires p.pools.a <= 0xFFFF && p.pools.b <= 0xFFFF
    ensures (forall quarter: nat, total: nat ::
               var e := SplitBlock(quarter, total, p); e.provider + e.consensus + e.intelligence == total)
       <==> p.pools.a + p.pools.b <= BPS
  {
    if p.pools.a + p.pools.b <= BPS {
      forall quarter: nat, total: nat
        ensures var e := SplitBlock(quarter, total, p); e.provider + e.consensus + e.intelligence == total
      {
        SplitBlockExact(quarter, total, p);
      }
    } else {
      ShareOfBps(p.pools.a);
      ShareOfBps(p.pools.b);
      var e := SplitBlock(0, BPS, p);
      assert e.provider + e.consensus + e.intelligence > BPS;
    }
  }

  lemma BlockSplits(height: nat, p: EmissionParams)
    requires p.pools.a + p.pools.b <= BPS
    ensures var e := EmissionForBlock(height, p); e.provider + e.consensus + e.intelligence == e.total
  {
    hide SplitBlock, BudgetForQuarter, BlockShare;
    var q := QuarterOf(height, p);
    if q.Some? {
      var budget := BudgetForQuarter(p, q.value);
      SplitBlockExact(q.value, BlockShare(budget, p.blocksPerQuarter, height % p.blocksPerQuarter), p);
    }
  }

  // ----- runs -----

  /** What conservation depends on; the other calls leave all of it alone. */
  ghost predicate SameBooks(l: Ledger, l': Ledger) {
    l'.pools == l.pools && l'.providers == l.providers
    && l'.life.payouts == l.life.payouts && l'.life.vesting == l.life.vesting
  }

  lemma SameBooksBalanced(l: Ledger, l': Ledger)
    requires Balanced(l) && SameBooks(l, l')
    ensures Balanced(l')
  {
  }

  lemma FinishBooks(l: Ledger, signer: nat, bump: bool)
    ensures SameBooks(l, Finish(l, signer, bump).0) && Finish(l, signer, bump).0.emission == l.emission
  {
  }

  lemma FinishBalanced(l: Ledger, signer: nat, bump: bool)
    requires Balanced(l)
    ensures Balanced(Finish(l, signer, bump).0) && Finish(l, signer, bump).0.emission == l.emission
  {
    FinishBooks(l, signer, bump);
    SameBooksBalanced(l, Finish(l, signer, bump).0);
  }

  lemma SettleBatchBalanced(l: Ledger, signer: nat, b: Batch, bump: bool)
    requires Balanced(l) && SplitsFit(l.emission)
    ensures Balanced(SettleBatchSpec(l, signer, b, bump).0)
    ensures SettleBatchSpec(l, signer, b, bump).0.emission == l.emission
  {
    hide Balanced, SignatureRefusal, DistributeProviderPool, Finish, Stored, BatchTotal, InsertReceipts, Debit;
    hide WellIndexed;
    if SettleRefusal(l, signer, b).None? {
      var debited := l.(accounts := Debit(l.accounts, b.operator, BatchTotal(b)));
      SameBooksBalanced(l, debited);
      if SignatureRefusal(l, b).None? {
        var stored := debited.(batches := l.batches[b.id := Stored(b)],
                               receipts := InsertReceipts(l.receipts, b.receipts));
        SameBooksBalanced(l, stored);
        DistributeBalanced(stored, b.receipts);
        var l1 := DistributeProviderPool(stored, b.receipts);
        FinishBalanced(l1, signer, bump);
      }
    }
  }

  lemma SettleReceiptBalanced(l: Ledger, signer: nat, r: Receipt, bump: bool)
    requires Balanced(l) && SplitsFit(l.emission)
    ensures Balanced(SettleReceiptSpec(l, signer, r, bump).0)
    ensures SettleReceiptSpec(l, signer, r, bump).0.emission == l.emission
  {
    hide Balanced, DistributeProviderPool, Finish;
    var stored := l.(receipts := l.receipts[r.id := r]);
    SameBooksBalanced(l, stored);
    DistributeBalanced(stored, [r]);
    var l1 := DistributeProviderPool(stored, [r]);
    FinishBalanced(l1, signer, bump);
  }

  lemma BondSameBooks(l: Ledger, signer: nat, c: LifeCommand)
    ensures SameBooks(l, ProvenanceBondSpec(l, signer, c).0)
  {
    hide Debit;
  }

  lemma ArtifactSameBooks(l: Ledger, c: LifeCommand)
    ensures SameBooks(l, ArtifactSpec(l, c).0)
  {
    hide FileArtifact;
    ArtifactsKeep(l.life, c);
  }

  lemma EconomicsBalanced(l: Ledger, signer: nat, c: LifeCommand)
    requires Balanced(l) && SplitsFit(l.emission)
    ensures Balanced(LifeEconomics(l, signer, c).0)
  {
    hide Balanced, IntelligencePayoutSpec, ProvenanceBondSpec, ArtifactSpec;
    PayoutBalanced(l, c);
    BondSameBooks(l, signer, c);
    ArtifactSameBooks(l, c);
    SameBooksBalanced(l, ProvenanceBondSpec(l, signer, c).0);
    SameBooksBalanced(l, ArtifactSpec(l, c).0);
  }

  lemma EconomicsKeepParams(l: Ledger, signer: nat, c: LifeCommand)
    ensures LifeEconomics(l, signer, c).0.emission == l.emission
  {
    hide AppendPayouts, RoyaltyOf, Debit, FileArtifact;
  }

  lemma RecordBalanced(l: Ledger, id: nat)
    requires Balanced(l)
    ensures Balanced(RecordCommand(l, id)) && RecordCommand(l, id).emission == l.emission
  {
    SameBooksBalanced(l, RecordCommand(l, id));
  }

  lemma LifeBalanced(l: Ledger, signer: nat, c: LifeCommand, bump: bool)
    requires Balanced(l) && SplitsFit(l.emission)
    ensures Balanced(LifeSpec(l, signer, c, bump).0)
    ensures LifeSpec(l, signer, c, bump).0.emission == l.emission
  {
    hide Balanced, Finish, LifeEconomics, RecordCommand;
    EconomicsBalanced(l, signer, c);
    EconomicsKeepParams(l, signer, c);
    var l1 := LifeEconomics(l, signer, c).0;
    RecordBalanced(l1, c.id);
    FinishBalanced(RecordCommand(l1, c.id), signer, bump);
  }

  lemma StakeSameBooks(l: Ledger, signer: nat, amount: nat, bump: bool)
    ensures SameBooks(l, StakeSpec(l, signer, amount, bump).0)
    ensures StakeSpec(l, signer, amount, bump).0.emission == l.emission
  {
    hide Debit, Finish;
    if signer in l.accounts && amount <= l.accounts[signer].balance {
      FinishBooks(l.(accounts := Debit(l.accounts, signer, amount),
                     stakes := l.stakes[signer := Get(l.stakes, signer) + amount]), signer, bump);
    }
  }

  lemma UnstakeSameBooks(l: Ledger, signer: nat, amount: nat, bump: bool)
    ensures SameBooks(l, UnstakeSpec(l, signer, amount, bump).0)
    ensures UnstakeSpec(l, signer, amount, bump).0.emission == l.emission
  {
    hide Credit, Finish;
    if signer in l.stakes && amount <= l.stakes[signer] {
      FinishBooks(l.(stakes := l.stakes[signer := l.stakes[signer] - amount],
                     accounts := Credit(l.accounts, signer, amount)), signer, bump);
    }
  }

  lemma DelegateSameBooks(l: Ledger, signer: nat, validator: nat, amount: nat, bump: bool)
    ensures SameBooks(l, DelegateSpec(l, signer, validator, amount, bump).0)
    ensures DelegateSpec(l, signer, validator, amount, bump).0.emission == l.emission
  {
    hide Debit, Finish;
    if signer in l.accounts && amount <= l.accounts[signer].balance {
      var key := (signer, validator);
      FinishBooks(l.(accounts := Debit(l.accounts, signer, amount),
                     delegated := l.delegated[key := Get(l.delegated, key) + amount]), signer, bump);
    }
  }

  lemma ClaimSameBooks(l: Ledger, signer: nat, id: nat, entry: PayoutEntry, proof: seq<Merkle.Hash<PayoutEntry>>,
                       bump: bool)
    ensures SameBooks(l, ClaimSpec(l, signer, id, entry, proof, bump).0)
    ensures ClaimSpec(l, signer, id, entry, proof, bump).0.emission == l.emission
  {
    hide Credit, Finish, ClaimRefusal;
    FinishBooks(l.(claimed := l.claimed + {(id, entry.index)},
                   accounts := Credit(l.accounts, entry.account, entry.amount)), signer, bump);
  }

  lemma RegisterSameBooks(l: Ledger, signer: nat, pubkey: nat, bump: bool)
    ensures SameBooks(l, RegisterAgentSpec(l, signer, pubkey, bump).0)
    ensures RegisterAgentSpec(l, signer, pubkey, bump).0.emission == l.emission
  {
    hide SatAdd64;
  }

  lemma KeepSameBooks(l: Ledger, signer: nat, call: RecordCall, bump: bool)
    ensures SameBooks(l, KeepSpec(l, signer, call, bump).0)
    ensures KeepSpec(l, signer, call, bump).0.emission == l.emission
  {
    hide Finish, KeepAgents, KeepRecords;
    if call.UpdateAgent? || call.SuspendAgent? {
      FinishBooks(l.(agents := KeepAgents(l, signer, call).0), signer, bump);
    } else {
      FinishBooks(l.(records := KeepRecords(l, signer, call).0), signer, bump);
    }
  }

  lemma OtherCallsSameBooks(l: Ledger, signer: nat, call: NativeCall, bump: bool)
    requires !call.SettleBatch? && !call.SettleReceipt? && !call.Life?
    ensures SameBooks(l, NativeSpec(l, signer, call, bump).0)
    ensures NativeSpec(l, signer, call, bump).0.emission
         == if call.SetChainEconomics? && Governed(l, signer) then call.params else l.emission
  {
    hide Credit, Finish, ClaimSpec, RegisterAgentSpec, KeepSpec, StakeSpec, UnstakeSpec, DelegateSpec;
    match call
    case Stake(amount) => StakeSameBooks(l, signer, amount, bump);
    case Unstake(amount) => UnstakeSameBooks(l, signer, amount, bump);
    case Delegate(validator, amount) => DelegateSameBooks(l, signer, validator, amount, bump);
    case RegisterAgent(pubkey) => RegisterSameBooks(l, signer, pubkey, bump);
    case ClaimPayout(id, account, amount, leafIndex, proof) =>
      ClaimSameBooks(l, signer, id, PayoutEntry(leafIndex, account, amount), proof, bump);
    case Slash(validator) => FinishBooks(l.(stakes := l.stakes - {validator}), signer, bump);
    case WithdrawRewards => FinishBooks(l.(accounts := Credit(l.accounts, signer, 0)), signer, bump);
    case SetChainEconomics(params) => FinishBooks(l.(emission := params), signer, bump);
    case NoOp => FinishBooks(l, signer, bump);
    case Keep(record) => KeepSameBooks(l, signer, record, bump);
  }

  lemma StepBalanced(l: Ledger, call: Call)
    requires Balanced(l) && SplitsFit(l.emission) && KeepsSplits(call)
    ensures Balanced(Step(l, call).0) && SplitsFit(Step(l, call).0.emission)
  {
    hide Balanced, SplitsFit, SettleBatchSpec, SettleReceiptSpec, LifeSpec;
    match call
    case Mint(height) =>
      MintBalanced(l, height);
    case Transfer(from, to, amount) =>
      SameBooksBalanced(l, Step(l, call).0);
    case Native(signer, native, bump) =>
      if native.SettleBatch? {
        SettleBatchBalanced(l, signer, native.batch, bump);
      } else if native.SettleReceipt? {
        SettleReceiptBalanced(l, signer, native.receipt, bump);
      } else if native.Life? {
        LifeBalanced(l, signer, native.command, bump);
      } else {
        OtherCallsSameBooks(l, signer, native, bump);
        hide NativeSpec;
        SameBooksBalanced(l, Step(l, call).0);
      }
  }

  /** From genesis, over any run whose profiles have admissible splits, the minted total equals
      the three pools, the provider rollover, all subsidies and all life payouts; the workers'
      incomes and the vesting book agree with the payout lists; the cap holds; and every one of
      these totals stays below the cap, so no saturating addition to them ever saturates. */
  lemma {:induction false} MintedIsAccountedFor(l: Ledger, calls: seq<Call>)
    requires Genesis(l)
    requires forall i :: 0 <= i < |calls| ==> KeepsSplits(calls[i])
    ensures Balanced(Exec(l, calls)) && SplitsFit(Exec(l, calls).emission)
    ensures var s := Exec(l, calls);
      && s.pools.provider <= MAX_SUPPLY_WEI < U128_MAX && s.pools.consensus <= MAX_SUPPLY_WEI
      && s.pools.intelligence <= MAX_SUPPLY_WEI && s.pools.rollover <= MAX_SUPPLY_WEI
      && forall w :: w in s.providers.subsidy ==> s.providers.subsidy[w] <= MAX_SUPPLY_WEI
  {
    if calls != [] {
      var k := |calls| - 1;
      MintedIsAccountedFor(l, calls[..k]);
      StepBalanced(Exec(l, calls[..k]), calls[k]);
    }
    var s := Exec(l, calls);
    hide Exec, Step;
    forall w | w in s.providers.subsidy
      ensures s.providers.subsidy[w] <= MAX_SUPPLY_WEI
    {
      MapSumRemove(s.providers.subsidy, w);
    }
  }

  // ----- minting the whole schedule -----

  function MintCalls(heights: nat): seq<Call> { seq(heights, h requires 0 <= h => Mint(h)) }

  /** A chain that mints every block once in order never hits the cap, and has minted the
      emitted amount after every block: the whole pool once the schedule is over. */
  lemma {:induction false} MintingFollowsSchedule(l: Ledger, heights: nat)
    requires l.pools.minted == 0 && l.emission.enabled && Validate(l.emission)
    requires l.emission.totalPool <= MAX_SUPPLY_WEI
    requires heights <= l.emission.quarterCount * l.emission.blocksPerQuarter
    ensures Exec(l, MintCalls(heights)).emission == l.emission
    ensures Exec(l, MintCalls(heights)).pools.minted == EmittedBelow(l.emission, heights)
    ensures heights == l.emission.quarterCount * l.emission.blocksPerQuarter
        ==> Exec(l, MintCalls(heights)).pools.minted == l.emission.totalPool
  {
    hide EmissionForBlock;
    EmissionExact(l.emission);
    if heights > 0 {
      var calls := MintCalls(heights);
      assert calls[..heights - 1] == MintCalls(heights - 1);
      MintingFollowsSchedule(l, heights - 1);
      EmittedMonotone(l.emission, heights, l.emission.quarterCount * l.emission.blocksPerQuarter);
      assert calls[heights - 1] == Mint(heights - 1);
    }
  }

  lemma {:induction false} EmittedMonotone(p: EmissionParams, h: nat, h': nat)
    requires h <= h'
    ensures EmittedBelow(p, h) <= EmittedBelow(p, h')
    decreases h'
  {
    hide EmissionForBlock;
    if h < h' {
      EmittedMonotone(p, h, h' - 1);
    }
  }
}

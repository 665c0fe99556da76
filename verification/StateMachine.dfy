/** The execution state as the code keeps it: an object whose `apply_*` methods update maps,
    vectors and counters in place (`crates/core/src/state.rs`). Each method is proved to take the
    state where the ledger specification says, on success and on failure. */
module StateMachine {
  import opened Arithmetic
  import opened Collections
  import opened Merkle
  import opened Emission
  import opened Ledger

  class State {
    var accounts: map<nat, Account>
    var governance: nat
    var agents: AgentBook
    var receipts: map<nat, Receipt>
    var batches: map<nat, StoredBatch>
    var claimed: set<(nat, nat)>
    var stakes: map<nat, nat>
    var delegated: map<(nat, nat), nat>
    var life: LifeBook
    var providers: ProviderBook
    var pools: Pools
    var emission: EmissionParams
    var records: RecordBook

    ghost function Value(): Ledger
      reads this
    {
      Ledger(accounts, governance, agents, receipts, batches, claimed, stakes, delegated, life, providers, pools,
             emission, records)
    }

    method FinishCall(signer: nat, bump: bool) returns (outcome: Outcome)
      modifies this`accounts
      ensures (Value(), outcome) == Finish(old(Value()), signer, bump)
    {
      if bump {
        if signer !in accounts {
          return Err(UnknownSigner);
        }
        var acc := accounts[signer];
        accounts := accounts[signer := acc.(nonce := SatAdd64(acc.nonce, 1))];
      }
      return Ok;
    }

    method ApplyTransfer(from: nat, to: nat, amount: nat) returns (outcome: Outcome)
      modifies this`accounts
      ensures (Value(), outcome) == TransferSpec(old(Value()), from, to, amount)
    {
      hide Credit, Debit;
      if from !in accounts {
        return Err(UnknownSigner);
      }
      if accounts[from].balance < amount {
        return Err(InsufficientBalance);
      }
      accounts := Debit(accounts, from, amount);
      accounts := Credit(accounts, to, amount);
      outcome := FinishCall(from, true);
    }

    method ApplyStake(signer: nat, amount: nat, bump: bool) returns (outcome: Outcome)
      modifies this`accounts, this`stakes
      ensures (Value(), outcome) == StakeSpec(old(Value()), signer, amount, bump)
    {
      hide Finish;
      if signer !in accounts {
        return Err(UnknownSigner);
      }
      if accounts[signer].balance < amount {
        return Err(InsufficientBalance);
      }
      accounts := Debit(accounts, signer, amount);
      stakes := stakes[signer := Get(stakes, signer) + amount];
      outcome := FinishCall(signer, bump);
    }

    method ApplyUnstake(signer: nat, amount: nat, bump: bool) returns (outcome: Outcome)
      modifies this`accounts, this`stakes
      ensures (Value(), outcome) == UnstakeSpec(old(Value()), signer, amount, bump)
    {
      hide Finish;
      if signer !in stakes {
        return Err(NotFound);
      }
      if stakes[signer] < amount {
        return Err(InsufficientBalance);
      }
      stakes := stakes[signer := stakes[signer] - amount];
      accounts := Credit(accounts, signer, amount);
      outcome := FinishCall(signer, bump);
    }

    method ApplyDelegate(signer: nat, validator: nat, amount: nat, bump: bool) returns (outcome: Outcome)
      modifies this`accounts, this`delegated
      ensures (Value(), outcome) == DelegateSpec(old(Value()), signer, validator, amount, bump)
    {
      hide Finish;
      if signer !in accounts {
        return Err(UnknownSigner);
      }
      if accounts[signer].balance < amount {
        return Err(InsufficientBalance);
      }
      accounts := Debit(accounts, signer, amount);
      delegated := delegated[(signer, validator) := Get(delegated, (signer, validator)) + amount];
      outcome := FinishCall(signer, bump);
    }

    method ApplyRegisterAgent(signer: nat, pubkey: nat, bump: bool) returns (outcome: Outcome)
      modifies this`agents, this`accounts
      ensures (Value(), outcome) == RegisterAgentSpec(old(Value()), signer, pubkey, bump)
    {
      hide Finish, SatAdd64;
      var id := agents.nextId;
      agents := agents.(nextId := SatAdd64(agents.nextId, 1));
      if signer in agents.byAddress {
        return Err(AgentIdCollision);
      }
      agents := agents.(records := agents.records[id := Agent(signer, pubkey, false)],
                        byAddress := agents.byAddress[signer := id]);
      outcome := FinishCall(signer, bump);
    }

    method ApplyClaimPayout(signer: nat, batchId: nat, account: nat, amount: nat, leafIndex: nat,
                            proof: seq<Hash<PayoutEntry>>, bump: bool) returns (outcome: Outcome)
      modifies this`accounts, this`claimed
      ensures (Value(), outcome)
           == ClaimSpec(old(Value()), signer, batchId, PayoutEntry(leafIndex, account, amount), proof, bump)
    {
      hide Finish;
      var key := (batchId, leafIndex);
      if key in claimed {
        return Err(AlreadyClaimed);
      }
      var entry := PayoutEntry(leafIndex, account, amount);
      if batchId !in batches {
        return Err(BatchNotFound);
      }
      var ok := VerifyMerkleProof(batches[batchId].payoutRoot, Leaf(entry), leafIndex, proof);
      if !ok {
        return Err(InvalidProof);
      }
      claimed := claimed + {key};
      accounts := Credit(accounts, account, amount);
      outcome := FinishCall(signer, bump);
    }

    /** Everything checked before the operator is debited. */
    method CheckBatch(signer: nat, b: Batch, total: nat) returns (refusal: Option<Error>)
      requires total == BatchTotal(b)
      ensures refusal == SettleRefusal(Value(), signer, b)
    {
      if signer != b.operator {
        return Some(NotAuthorized);
      }
      for i := 0 to |b.entries|
        invariant forall j :: 0 <= j < i ==> b.entries[j].index == j % U32_RANGE
      {
        if b.entries[i].index != i % U32_RANGE {
          return Some(BadPayoutOrdering);
        }
      }
      for i := 0 to |b.receipts|
        invariant forall j :: 0 <= j < i ==> b.receipts[j].id !in receipts
      {
        if b.receipts[i].id in receipts {
          return Some(DuplicateReceipt);
        }
      }
      if b.operator !in accounts {
        return Some(UnknownSigner);
      }
      if accounts[b.operator].balance < total {
        return Some(InsufficientBalance);
      }
      return None;
    }

    method CheckSignature(b: Batch, receiptRoot: Hash<Receipt>, payoutRoot: Hash<PayoutEntry>)
      returns (refusal: Option<Error>)
      requires receiptRoot == Root(LeafHashes(b.receipts)) && payoutRoot == Root(LeafHashes(b.entries))
      ensures refusal == SignatureRefusal(Value(), b)
    {
      if !b.sig.NoSig? && b.operator in agents.byAddress {
        var aid := agents.byAddress[b.operator];
        if aid !in agents.records {
          return Some(NotFound);
        }
        if b.sig != Sig(agents.records[aid].pubkey, b.id, receiptRoot, payoutRoot) {
          return Some(BadSignature);
        }
      }
      return None;
    }

    method StoreReceipts(rs: seq<Receipt>)
      modifies this`receipts
      ensures receipts == InsertReceipts(old(receipts), rs)
    {
      for i := 0 to |rs|
        invariant receipts == InsertReceipts(old(receipts), rs[..i])
      {
        receipts := receipts[rs[i].id := rs[i]];
        assert rs[..i + 1][..i] == rs[..i];
      }
      assert rs[..|rs|] == rs;
    }

    method ApplySettleBatch(signer: nat, b: Batch, bump: bool) returns (outcome: Outcome)
      modifies this`accounts, this`batches, this`receipts, this`providers, this`pools
      ensures (Value(), outcome) == SettleBatchSpec(old(Value()), signer, b, bump)
    {
      hide BatchTotal, SignatureRefusal, Root, LeafHashes, DistributeProviderPool, Finish, InsertReceipts;
      var receiptRoot := MerkleRoot(LeafHashes(b.receipts));
      var payoutRoot := MerkleRoot(LeafHashes(b.entries));
      var total := BatchTotal(b);
      var refusal := CheckBatch(signer, b, total);
      if refusal.Some? {
        return Err(refusal.value);
      }
      assert Value() == old(Value());
      var unsigned := CheckSignature(b, receiptRoot, payoutRoot);
      accounts := Debit(accounts, b.operator, total);
      if unsigned.Some? {
        return Err(unsigned.value);
      }
      batches := batches[b.id := StoredBatch(b.operator, receiptRoot, payoutRoot, |b.receipts| % U32_RANGE,
                                             |b.entries| % U32_RANGE, total, b.submittedAt)];
      StoreReceipts(b.receipts);
      hide SettleRefusal;
      DistributeForReceipts(b.receipts);
      outcome := FinishCall(signer, bump);
    }

    method CreditOrganicIncome(rs: seq<Receipt>)
      modifies this`providers
      ensures providers == old(providers).(organic := AddOrganic(old(providers.organic), rs))
    {
      for i := 0 to |rs|
        invariant providers == old(providers).(organic := AddOrganic(old(providers.organic), rs[..i]))
      {
        providers := providers.(organic := AddIncome(providers.organic, rs[i].worker, rs[i].payout));
        assert rs[..i + 1][..i] == rs[..i];
      }
      assert rs[..|rs|] == rs;
    }

    /** Credits the workers' organic income, then splits the provider pool among the receipts. */
    method DistributeForReceipts(rs: seq<Receipt>)
      modifies this`providers, this`pools
      ensures Value() == DistributeProviderPool(old(Value()), rs)
    {
      hide AddOrganic, PayProviders, ProviderRewards, FloorShare;
      if rs == [] {
        return;
      }
      CreditOrganicIncome(rs);
      var pool := pools.provider;
      if pool == 0 {
        return;
      }
      var storageBudget := FloorShare(pool, emission.providerWork.a, BPS);
      var computeBudget := FloorShare(pool, emission.providerWork.b, BPS);
      var txBudget := SatSub(SatSub(pool, storageBudget), computeBudget);
      pools := pools.(provider := 0, rollover := SatAdd(pools.rollover, storageBudget));
      PayReceipts(rs, pool, storageBudget, computeBudget, txBudget);
    }

    method PayReceipts(rs: seq<Receipt>, ghost pool: nat, storageBudget: nat, computeBudget: nat, txBudget: nat)
      requires rs != [] && pool <= U128_MAX
      requires storageBudget == StorageBudget(pool, emission)
      requires computeBudget == ComputeBudget(pool, emission)
      requires txBudget == TxBudget(pool, emission)
      modifies this`providers
      ensures providers == PayProviders(old(providers), ProviderRewards(pool, emission, rs))
    {
      hide ProviderRewards, StorageBudget, ComputeBudget, TxBudget, FloorShare, Split, Sum;
      var totalScore, count := Sum(Scores(rs)), |rs|;
      ScoresPositive(rs);
      BudgetsFit(pool, emission);
      var paidCompute: nat, paidTx: nat := 0, 0;
      ghost var rewards := ProviderRewards(pool, emission, rs);
      ghost var computes := Split(computeBudget, Scores(rs), totalScore);
      ghost var txs := Split(txBudget, Ones(count), count);
      RewardsSplit(pool, emission, rs);
      SplitExact(computeBudget, Scores(rs), totalScore);
      SplitExact(txBudget, Ones(count), count);
      SumNone(computes);
      SumNone(txs);
      for idx := 0 to |rs|
        invariant paidCompute == Sum(computes[..idx]) && paidTx == Sum(txs[..idx])
        invariant providers == PayProviders(old(providers), rewards[..idx])
      {
        var isLast := idx + 1 == |rs|;
        SplitPrefix(computeBudget, Scores(rs), totalScore, idx);
        SplitPrefix(txBudget, Ones(count), count, idx);
        EqualShare(txBudget, count);
        var compute := if isLast then SatSub(computeBudget, paidCompute)
                       else FloorShare(computeBudget, Max(rs[idx].score, 1), totalScore);
        var tx := if isLast then SatSub(txBudget, paidTx) else txBudget / count;
        paidCompute := AddWithin(paidCompute, compute, computeBudget, computes, idx);
        paidTx := AddWithin(paidTx, tx, txBudget, txs, idx);
        var reward := ProviderReward(rs[idx].id, rs[idx].worker, rs[idx].payout, compute, tx,
                                     if idx == 0 then storageBudget else 0);
        assert reward == rewards[idx];
        PayOneMore(old(providers), rewards, idx);
        AddReward(reward);
      }
      assert rewards[..|rs|] == rewards;
    }

    /** The income entry is touched only by a positive subsidy; the record is always pushed. */
    method AddReward(reward: ProviderReward)
      modifies this`providers
      ensures providers == PayOne(old(providers), reward)
    {
      var subsidy := SatAdd(reward.compute, reward.txCount);
      if subsidy > 0 {
        providers := providers.(subsidy := AddIncome(providers.subsidy, reward.worker, subsidy));
      }
      providers := providers.(rewards := providers.rewards + [reward]);
    }

    /** The code adds with saturation; within the budget that is plain addition. */
    static method AddWithin(paid: nat, part: nat, budget: nat, ghost parts: seq<nat>, ghost i: nat) returns (sum: nat)
      requires i < |parts| && Sum(parts) <= budget <= U128_MAX
      requires paid == Sum(parts[..i]) && part == parts[i]
      ensures sum == Sum(parts[..i + 1])
    {
      SumPrefix(parts, i);
      SumPrefixBound(parts, i + 1);
      sum := SatAdd(paid, part);
    }

    method InsertLifePayout(c: LifeCommand, kind: PayoutKind, beneficiary: nat, amount: nat, release: nat)
      modifies this`life
      ensures life == AppendPayout(old(life), c, kind, beneficiary, amount, release)
    {
      var id := PayoutId(c.id, |life.payouts|, kind, beneficiary, amount, release);
      life := life.(payouts := life.payouts + [LifePayout(id, amount)]);
      life := life.(vesting := life.vesting[id := amount]);
    }

    method ApplyIntelligencePayout(c: LifeCommand) returns (outcome: Outcome)
      modifies this`pools, this`life
      ensures (Value(), outcome) == IntelligencePayoutSpec(old(Value()), c)
    {
      hide AppendPayout, FloorShare;
      var gross := c.amount;
      if gross == 0 {
        return Ok;
      }
      if gross > pools.intelligence {
        return Err(InsufficientIntelligencePool);
      }
      pools := pools.(intelligence := pools.intelligence - gross);
      var firstHop := if emission.royaltyHopsBps == [] then 0 else emission.royaltyHopsBps[0];
      var royalty := if c.counterparty.Some? then FloorShare(gross, firstHop, BPS) else 0;
      var primary := SatSub(gross, royalty);
      var release := SatAdd64(c.epoch, emission.vestingEpochs);
      if primary > 0 {
        InsertLifePayout(c, Primary, c.soul, primary, release);
      }
      if c.counterparty.Some? && royalty > 0 {
        InsertLifePayout(c, Royalty, c.counterparty.value, royalty, release);
      }
      return Ok;
    }

    method ApplyProvenanceBond(signer: nat, c: LifeCommand) returns (outcome: Outcome)
      modifies this`accounts, this`life
      ensures (Value(), outcome) == ProvenanceBondSpec(old(Value()), signer, c)
    {
      if c.amount < emission.provenanceBond {
        return Err(BelowProvenanceBond);
      }
      if signer !in accounts {
        return Err(UnknownSigner);
      }
      if accounts[signer].balance < c.amount {
        return Err(InsufficientBalance);
      }
      if c.soul in life.bonds {
        return Err(DuplicateLifeArtifact);
      }
      accounts := Debit(accounts, signer, c.amount);
      life := life.(bonds := life.bonds[c.soul := Bond(signer, c.amount)]);
      return Ok;
    }

    method RecordArtifact(c: LifeCommand) returns (outcome: Outcome)
      modifies this`life
      ensures (Value(), outcome) == ArtifactSpec(old(Value()), c)
    {
      if c.kind.FeedbackArtifact? {
        if c.payload in life.feedback {
          return Err(DuplicateLifeArtifact);
        }
        life := life.(feedback := life.feedback + {c.payload});
      } else if c.kind.SealedSale? {
        if c.payload in life.sales {
          return Err(DuplicateLifeArtifact);
        }
        life := life.(sales := life.sales + {c.payload});
      }
      return Ok;
    }

    method ApplyLifeCommand(signer: nat, c: LifeCommand, bump: bool) returns (outcome: Outcome)
      modifies this`accounts, this`life, this`pools
      ensures (Value(), outcome) == LifeSpec(old(Value()), signer, c, bump)
    {
      hide Finish, IntelligencePayoutSpec, ProvenanceBondSpec, ArtifactSpec;
      if c.id in life.commands {
        return Err(DuplicateLifeCommand);
      }
      if NeedsGovernance(c.kind) && governance != 0 && signer != governance {
        return Err(NotAuthorized);
      }
      match c.kind {
        case IntelligencePayout => outcome := ApplyIntelligencePayout(c);
        case ProvenanceBond => outcome := ApplyProvenanceBond(signer, c);
        case _ => outcome := RecordArtifact(c);
      }
      if outcome.Err? {
        return;
      }
      life := life.(commands := life.commands + {c.id});
      outcome := FinishCall(signer, bump);
    }

    method MintProtocolEmission(height: nat) returns (outcome: Outcome)
      modifies this`pools
      ensures (Value(), outcome) == MintSpec(old(Value()), height)
    {
      hide EmissionForBlock;
      var e := EmissionForBlock(height, emission);
      if e.total == 0 {
        return Ok;
      }
      var minted := pools.minted + e.total;
      if minted > U128_MAX || minted > MAX_SUPPLY_WEI {
        return Err(SupplyCapExceeded);
      }
      pools := pools.(minted := minted);
      pools := pools.(provider := SatAdd(pools.provider, e.provider));
      pools := pools.(consensus := SatAdd(pools.consensus, e.consensus));
      pools := pools.(intelligence := SatAdd(pools.intelligence, e.intelligence));
      return Ok;
    }

    method ApplySettleReceipt(signer: nat, r: Receipt, bump: bool) returns (outcome: Outcome)
      modifies this`accounts, this`receipts, this`providers, this`pools
      ensures (Value(), outcome) == SettleReceiptSpec(old(Value()), signer, r, bump)
    {
      hide Finish, DistributeProviderPool;
      if r.id in receipts {
        return Err(DuplicateReceipt);
      }
      receipts := receipts[r.id := r];
      DistributeForReceipts([r]);
      outcome := FinishCall(signer, bump);
    }

    method ApplySlash(signer: nat, validator: nat, bump: bool) returns (outcome: Outcome)
      modifies this`accounts, this`stakes
      ensures (Value(), outcome) == SlashSpec(old(Value()), signer, validator, bump)
    {
      hide Finish;
      if governance != 0 && signer != governance {
        return Err(NotAuthorized);
      }
      stakes := stakes - {validator};
      outcome := FinishCall(signer, bump);
    }

    method ApplySetChainEconomics(signer: nat, params: EmissionParams, bump: bool) returns (outcome: Outcome)
      modifies this`accounts, this`emission
      ensures (Value(), outcome) == SetChainEconomicsSpec(old(Value()), signer, params, bump)
    {
      hide Finish;
      if governance != 0 && signer != governance {
        return Err(NotAuthorized);
      }
      emission := params;
      outcome := FinishCall(signer, bump);
    }

    /** Agent updates and suspension, disputes, wallet anchors and proof commitments. */
    method KeepRecord(signer: nat, call: RecordCall, bump: bool) returns (outcome: Outcome)
      modifies this`accounts, this`agents, this`records
      ensures (Value(), outcome) == KeepSpec(old(Value()), signer, call, bump)
    {
      hide Finish, WitnessError;
      if call.UpdateAgent? || call.SuspendAgent? {
        outcome := EditAgent(signer, call);
      } else {
        outcome := EditRecords(signer, call);
      }
      if outcome.Err? {
        return;
      }
      outcome := FinishCall(signer, bump);
    }

    method EditAgent(signer: nat, call: RecordCall) returns (outcome: Outcome)
      requires call.UpdateAgent? || call.SuspendAgent?
      modifies this`agents
      ensures (agents, outcome) == KeepAgents(old(Value()), signer, call)
    {
      match call
      case UpdateAgent(id, newPubkey) =>
        if id !in agents.records {
          return Err(NotFound);
        }
        if agents.records[id].address != signer {
          return Err(NotAuthorized);
        }
        if newPubkey.Some? {
          agents := agents.(records := agents.records[id := agents.records[id].(pubkey := newPubkey.value)]);
        }
        return Ok;
      case SuspendAgent(id) =>
        if governance != 0 && signer != governance {
          return Err(NotAuthorized);
        }
        if id !in agents.records {
          return Err(NotFound);
        }
        agents := agents.(records := agents.records[id := agents.records[id].(suspended := true)]);
        return Ok;
    }

    method EditRecords(signer: nat, call: RecordCall) returns (outcome: Outcome)
      requires !call.UpdateAgent? && !call.SuspendAgent?
      modifies this`records
      ensures (records, outcome) == KeepRecords(old(Value()), signer, call)
    {
      hide SatAdd64;
      match call
      case FileDispute(receiptId, reason, evidence) =>
        var id := records.nextDispute;
        records := records.(nextDispute := SatAdd64(records.nextDispute, 1));
        records := records.(disputes := records.disputes[id := Dispute(receiptId, signer, reason, evidence, 0)]);
        return Ok;
      case ResolveDispute(id, resolution) =>
        if governance != 0 && signer != governance {
          return Err(NotAuthorized);
        }
        if id !in records.disputes {
          return Err(NotFound);
        }
        records := records.(disputes := records.disputes[id := records.disputes[id].(status := resolution)]);
        return Ok;
      case AnchorTaskReceipt(commitment, shown) =>
        var error := WitnessError(commitment, shown);
        if error.Some? {
          return Err(error.value);
        }
        if commitment in records.anchors {
          return Err(DuplicateWalletAnchor);
        }
        records := records.(anchors := records.anchors[commitment := signer]);
        return Ok;
      case CommitProof(proofHash) =>
        if proofHash in records.proofs {
          return Err(DuplicateProofCommitment);
        }
        records := records.(proofs := records.proofs[proofHash := signer]);
        return Ok;
    }

    method ApplyNative(signer: nat, call: NativeCall, bump: bool) returns (outcome: Outcome)
      modifies this
      ensures (Value(), outcome) == NativeSpec(old(Value()), signer, call, bump)
    {
      hide RegisterAgentSpec, SettleBatchSpec, ClaimSpec, StakeSpec, UnstakeSpec, DelegateSpec, LifeSpec;
      hide SettleReceiptSpec, SlashSpec, SetChainEconomicsSpec, Finish, Credit, KeepSpec;
      match call
      case RegisterAgent(pubkey) =>
        outcome := ApplyRegisterAgent(signer, pubkey, bump);
      case SettleReceipt(r) =>
        outcome := ApplySettleReceipt(signer, r, bump);
      case SettleBatch(b) =>
        outcome := ApplySettleBatch(signer, b, bump);
      case ClaimPayout(batchId, account, amount, leafIndex, proof) =>
        outcome := ApplyClaimPayout(signer, batchId, account, amount, leafIndex, proof, bump);
      case Stake(amount) =>
        outcome := ApplyStake(signer, amount, bump);
      case Unstake(amount) =>
        outcome := ApplyUnstake(signer, amount, bump);
      case Slash(validator) =>
        outcome := ApplySlash(signer, validator, bump);
      case Delegate(validator, amount) =>
        outcome := ApplyDelegate(signer, validator, amount, bump);
      case WithdrawRewards =>
        accounts := Credit(accounts, signer, 0);
        outcome := FinishCall(signer, bump);
      case Life(c) =>
        outcome := ApplyLifeCommand(signer, c, bump);
      case SetChainEconomics(params) =>
        outcome := ApplySetChainEconomics(signer, params, bump);
      case NoOp =>
        outcome := FinishCall(signer, bump);
      case Keep(record) =>
        outcome := KeepRecord(signer, record, bump);
    }
  }

  lemma BudgetsFit(pool: nat, p: EmissionParams)
    requires pool <= U128_MAX
    ensures ComputeBudget(pool, p) <= U128_MAX && TxBudget(pool, p) <= U128_MAX
  {
    QuotientBound(SatMul(pool, p.providerWork.b), BPS, 1);
  }

  /** One receipt's part of the transaction budget is an equal share. */
  lemma EqualShare(budget: nat, count: nat)
    requires budget <= U128_MAX && count > 0
    ensures FloorShare(budget, 1, count) == budget / count
  {
  }

  lemma RewardsSplit(pool: nat, p: EmissionParams, rs: seq<Receipt>)
    requires rs != []
    ensures Sum(Scores(rs)) > 0
    ensures forall i :: 0 <= i < |rs| ==>
      ProviderRewards(pool, p, rs)[i]
        == ProviderReward(rs[i].id, rs[i].worker, rs[i].payout,
                          Split(ComputeBudget(pool, p), Scores(rs), Sum(Scores(rs)))[i],
                          Split(TxBudget(pool, p), Ones(|rs|), |rs|)[i],
                          if i == 0 then StorageBudget(pool, p) else 0)
  {
    ScoresPositive(rs);
  }

  lemma SumNone(s: seq<nat>)
    ensures Sum(s[..0]) == 0
  {
  }

  function PayOne(book: ProviderBook, reward: ProviderReward): ProviderBook {
    var subsidy := SatAdd(reward.compute, reward.txCount);
    book.(rewards := book.rewards + [reward],
          subsidy := if subsidy > 0 then AddIncome(book.subsidy, reward.worker, subsidy) else book.subsidy)
  }

  lemma PayOneMore(book: ProviderBook, rewards: seq<ProviderReward>, i: nat)
    requires i < |rewards|
    ensures PayProviders(book, rewards[..i + 1]) == PayOne(PayProviders(book, rewards[..i]), rewards[i])
  {
    assert rewards[..i + 1][..i] == rewards[..i];
    assert rewards[..i + 1] == rewards[..i] + [rewards[i]];
  }
}

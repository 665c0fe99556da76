/** Conservation on the ledger, over every run of calls: tokens are never created, and no batch
    pays out more than was escrowed for it. */
module Supply {
  import opened Arithmetic
  import opened Collections
  import opened Merkle
  import opened Ledger

  // ----- what is conserved -----

  ghost function Balances(accounts: map<nat, Account>): map<nat, nat> {
    map a | a in accounts :: accounts[a].balance
  }

  ghost function BondAmounts(bonds: map<nat, Bond>): map<nat, nat> {
    map b | b in bonds :: bonds[b].amount
  }

  /** The entries below a payout root whose index nobody has claimed yet. */
  ghost function UnclaimedEntries(id: nat, root: Hash<PayoutEntry>, claimed: set<(nat, nat)>): map<PayoutEntry, nat> {
    map e | e in Contents(root) && (id, e.index) !in claimed :: e.amount
  }

  ghost function Escrows(batches: map<nat, StoredBatch>, claimed: set<(nat, nat)>): map<nat, nat> {
    map id | id in batches :: MapSum(UnclaimedEntries(id, batches[id].payoutRoot, claimed))
  }

  /** Balances, stakes, delegations, provenance bonds and unclaimed escrow together. */
  ghost function TotalSupply(l: Ledger): nat {
    MapSum(Balances(l.accounts)) + MapSum(l.stakes) + MapSum(l.delegated)
    + MapSum(BondAmounts(l.life.bonds)) + MapSum(Escrows(l.batches, l.claimed))
  }

  // ----- effects on the parts -----

  lemma CreditSum(accounts: map<nat, Account>, a: nat, amount: nat)
    ensures MapSum(Balances(Credit(accounts, a, amount))) == MapSum(Balances(accounts)) + amount
  {
    var acc := AccountOf(accounts, a);
    assert Balances(Credit(accounts, a, amount)) == Balances(accounts)[a := acc.balance + amount];
    MapSumUpdate(Balances(accounts), a, acc.balance + amount);
  }

  lemma DebitSum(accounts: map<nat, Account>, a: nat, amount: nat)
    requires a in accounts && amount <= accounts[a].balance
    ensures MapSum(Balances(Debit(accounts, a, amount))) == MapSum(Balances(accounts)) - amount
  {
    assert Balances(Debit(accounts, a, amount)) == Balances(accounts)[a := accounts[a].balance - amount];
    MapSumUpdate(Balances(accounts), a, accounts[a].balance - amount);
  }

  /** Bumping a nonce moves no tokens. */
  lemma FinishSupply(l: Ledger, signer: nat, bump: bool)
    ensures TotalSupply(Finish(l, signer, bump).0) == TotalSupply(l)
    ensures var l' := Finish(l, signer, bump).0;
      l' == l.(accounts := l'.accounts)
  {
    var l' := Finish(l, signer, bump).0;
    assert Balances(l'.accounts) == Balances(l.accounts);
  }

  lemma {:induction false} DistinctEntriesFit(entries: seq<PayoutEntry>, m: map<PayoutEntry, nat>)
    requires forall e :: e in m ==> e in entries && m[e] == e.amount
    ensures MapSum(m) <= Sum(Amounts(entries))
  {
    if entries == [] {
      assert m == map[];
    } else {
      var k := |entries| - 1;
      var last := entries[k];
      assert Amounts(entries)[..k] == Amounts(entries[..k]);
      MapSumDrop(m, last);
      DistinctEntriesFit(entries[..k], m - {last});
    }
  }

  /** With no entry twice, the bound is reached. */
  lemma {:induction false} DistinctEntriesSum(entries: seq<PayoutEntry>, m: map<PayoutEntry, nat>)
    requires forall i, j :: 0 <= i < j < |entries| ==> entries[i] != entries[j]
    requires forall e :: e in m <==> e in entries
    requires forall e :: e in m ==> m[e] == e.amount
    ensures MapSum(m) == Sum(Amounts(entries))
  {
    if entries == [] {
      assert m == map[];
    } else {
      var k := |entries| - 1;
      var last := entries[k];
      assert Amounts(entries)[..k] == Amounts(entries[..k]);
      MapSumRemove(m, last);
      DistinctEntriesSum(entries[..k], m - {last});
    }
  }

  lemma IndexedDistinct(entries: seq<PayoutEntry>)
    requires WellIndexed(entries) && |entries| <= U32_RANGE
    ensures forall i, j :: 0 <= i < j < |entries| ==> entries[i] != entries[j]
  {
    assert forall i :: 0 <= i < |entries| ==> entries[i].index == i;
  }

  /** What a root holds in escrow under an id nobody has claimed from is all that was hashed. */
  lemma UntouchedEscrow(id: nat, entries: seq<PayoutEntry>, claimed: set<(nat, nat)>)
    requires WellIndexed(entries) && |entries| <= U32_RANGE && forall i :: (id, i) !in claimed
    ensures MapSum(UnclaimedEntries(id, Root(LeafHashes(entries)), claimed)) == Sum(Amounts(entries))
  {
    RootOfItems(entries);
    IndexedDistinct(entries);
    DistinctEntriesSum(entries, UnclaimedEntries(id, Root(LeafHashes(entries)), claimed));
  }

  /** What a fresh root holds in escrow is covered by the amounts hashed into it. */
  lemma FreshEscrow(id: nat, entries: seq<PayoutEntry>, claimed: set<(nat, nat)>)
    ensures MapSum(UnclaimedEntries(id, Root(LeafHashes(entries)), claimed)) <= Sum(Amounts(entries))
  {
    RootOfItems(entries);
    DistinctEntriesFit(entries, UnclaimedEntries(id, Root(LeafHashes(entries)), claimed));
  }

  /** An accepted claim takes its own amount out of the escrow. */
  lemma ClaimedEscrow(id: nat, root: Hash<PayoutEntry>, claimed: set<(nat, nat)>, entry: PayoutEntry,
                      proof: seq<Hash<PayoutEntry>>)
    requires Climb(Leaf(entry), entry.index, proof) == root && (id, entry.index) !in claimed
    ensures MapSum(UnclaimedEntries(id, root, claimed + {(id, entry.index)})) + entry.amount
         <= MapSum(UnclaimedEntries(id, root, claimed))
  {
    ClimbContents(Leaf(entry), entry.index, proof);
    assert entry in Contents(Leaf(entry));
    var before := UnclaimedEntries(id, root, claimed);
    var after := UnclaimedEntries(id, root, claimed + {(id, entry.index)});
    MapSumRemove(before, entry);
    MapSumMonotone(after, before - {entry});
  }

  lemma OtherEscrow(id: nat, other: nat, root: Hash<PayoutEntry>, claimed: set<(nat, nat)>, index: nat)
    requires other != id
    ensures UnclaimedEntries(other, root, claimed + {(id, index)}) == UnclaimedEntries(other, root, claimed)
  {
  }

  // ----- each call -----

  /** The ledger after a batch has been debited and stored. */
  function Store(l: Ledger, b: Batch, receipts: map<nat, Receipt>): Ledger
    requires b.operator in l.accounts && BatchTotal(b) <= l.accounts[b.operator].balance
  {
    l.(accounts := Debit(l.accounts, b.operator, BatchTotal(b)),
       batches := l.batches[b.id := Stored(b)],
       receipts := receipts)
  }

  ghost function EscrowOf(l: Ledger, id: nat): nat {
    if id in l.batches then MapSum(UnclaimedEntries(id, l.batches[id].payoutRoot, l.claimed)) else 0
  }

  /** Storing a batch trades the operator's debit and the old escrow of its id for the new one. */
  lemma StoreExact(l: Ledger, b: Batch, receipts: map<nat, Receipt>)
    requires b.operator in l.accounts && BatchTotal(b) <= l.accounts[b.operator].balance
    ensures TotalSupply(Store(l, b, receipts)) + BatchTotal(b) + EscrowOf(l, b.id)
         == TotalSupply(l) + EscrowOf(Store(l, b, receipts), b.id)
  {
    hide MapSum, UnclaimedEntries, Root, Debit, BatchTotal;
    DebitSum(l.accounts, b.operator, BatchTotal(b));
    var batches := l.batches[b.id := Stored(b)];
    var escrowed := MapSum(UnclaimedEntries(b.id, Stored(b).payoutRoot, l.claimed));
    assert Escrows(batches, l.claimed) == Escrows(l.batches, l.claimed)[b.id := escrowed];
    MapSumUpdate(Escrows(l.batches, l.claimed), b.id, escrowed);
  }

  /** The operator's debit covers the new escrow up to what the total wraps; whatever a reused id
      still held is gone. */
  lemma StoreSupply(l: Ledger, b: Batch, receipts: map<nat, Receipt>)
    requires b.operator in l.accounts && BatchTotal(b) <= l.accounts[b.operator].balance
    ensures TotalSupply(Store(l, b, receipts)) <= TotalSupply(l) + Wrapped(b)
  {
    hide TotalSupply, MapSum, UnclaimedEntries, Sum, Root, Debit;
    StoreExact(l, b, receipts);
    FreshEscrow(b.id, b.entries, l.claimed);
  }

  lemma DebitSupply(l: Ledger, a: nat, amount: nat)
    requires a in l.accounts && amount <= l.accounts[a].balance
    ensures TotalSupply(l.(accounts := Debit(l.accounts, a, amount))) == TotalSupply(l) - amount
  {
    DebitSum(l.accounts, a, amount);
  }

  lemma SettleStored(l: Ledger, signer: nat, b: Batch, bump: bool)
    requires SettleRefusal(l, signer, b).None? && SignatureRefusal(l, b).None?
    ensures var stored := Store(l, b, InsertReceipts(l.receipts, b.receipts));
      var l' := SettleBatchSpec(l, signer, b, bump).0;
      TotalSupply(l') == TotalSupply(stored) && l'.batches == stored.batches && l'.claimed == l.claimed
  {
    hide TotalSupply, DistributeProviderPool, Finish, Stored, Debit, SignatureRefusal, InsertReceipts, WellIndexed;
    hide BatchTotal;
    var stored := Store(l, b, InsertReceipts(l.receipts, b.receipts));
    DistributeKeeps(stored, b.receipts);
    FinishSupply(DistributeProviderPool(stored, b.receipts), signer, bump);
  }

  lemma SettleSupply(l: Ledger, signer: nat, b: Batch, bump: bool)
    ensures TotalSupply(SettleBatchSpec(l, signer, b, bump).0)
         <= TotalSupply(l) + if SettleRefusal(l, signer, b).None? && SignatureRefusal(l, b).None? then Wrapped(b) else 0
  {
    hide TotalSupply, DistributeProviderPool, Finish, Stored, Debit, SignatureRefusal, InsertReceipts, WellIndexed;
    hide BatchTotal, Wrapped;
    if SettleRefusal(l, signer, b).None? {
      DebitSupply(l, b.operator, BatchTotal(b));
      if SignatureRefusal(l, b).None? {
        StoreSupply(l, b, InsertReceipts(l.receipts, b.receipts));
        SettleStored(l, signer, b, bump);
      }
    }
  }

  /** Exactly when a settlement creates nothing: under an id that is new and unclaimed, the supply
      grows by what the batch total wraps, so it does not grow if and only if the amounts sum to a
      `u128`. */
  lemma FreshSettleExactly(l: Ledger, signer: nat, b: Batch, bump: bool)
    requires SettleRefusal(l, signer, b).None? && SignatureRefusal(l, b).None?
    requires b.id !in l.batches && (forall i :: (b.id, i) !in l.claimed) && |b.entries| <= U32_RANGE
    ensures var l' := SettleBatchSpec(l, signer, b, bump).0;
      && EscrowOf(l', b.id) == BatchTotal(b) + Wrapped(b)
      && TotalSupply(l') == TotalSupply(l) + Wrapped(b)
      && (TotalSupply(l') <= TotalSupply(l) <==> Sum(Amounts(b.entries)) <= U128_MAX)
  {
    SettleStored(l, signer, b, bump);
    StoreExact(l, b, InsertReceipts(l.receipts, b.receipts));
    UntouchedEscrow(b.id, b.entries, l.claimed);
    FitsExactly(b);
    hide TotalSupply, MapSum, UnclaimedEntries, Sum, Root, Debit, SettleBatchSpec, InsertReceipts, SignatureRefusal;
  }

  /** Provider rewards live outside the accounts. */
  lemma DistributeKeeps(l: Ledger, receipts: seq<Receipt>)
    ensures var l' := DistributeProviderPool(l, receipts);
      l' == l.(providers := l'.providers, pools := l'.pools)
    ensures TotalSupply(DistributeProviderPool(l, receipts)) == TotalSupply(l)
  {
    hide MapSum, Balances, BondAmounts, Escrows, PayProviders, ProviderRewards, AddOrganic, DrainProviderPool;
  }

  lemma ClaimSupply(l: Ledger, signer: nat, id: nat, entry: PayoutEntry, proof: seq<Hash<PayoutEntry>>, bump: bool)
    ensures TotalSupply(ClaimSpec(l, signer, id, entry, proof, bump).0) <= TotalSupply(l)
  {
    hide Finish, MapSum, Contents, Climb, UnclaimedEntries, Credit;
    if ClaimRefusal(l, id, entry, proof).None? {
      var claimed := l.claimed + {(id, entry.index)};
      var l1 := l.(claimed := claimed, accounts := Credit(l.accounts, entry.account, entry.amount));
      CreditSum(l.accounts, entry.account, entry.amount);
      ClaimedEscrow(id, l.batches[id].payoutRoot, l.claimed, entry, proof);
      var rest := MapSum(UnclaimedEntries(id, l.batches[id].payoutRoot, claimed));
      forall other | other in l.batches && other != id
        ensures UnclaimedEntries(other, l.batches[other].payoutRoot, claimed)
             == UnclaimedEntries(other, l.batches[other].payoutRoot, l.claimed)
      {
        OtherEscrow(id, other, l.batches[other].payoutRoot, l.claimed, entry.index);
      }
      assert Escrows(l.batches, claimed) == Escrows(l.batches, l.claimed)[id := rest];
      MapSumUpdate(Escrows(l.batches, l.claimed), id, rest);
      FinishSupply(l1, signer, bump);
    }
  }

  lemma TransferSupply(l: Ledger, from: nat, to: nat, amount: nat)
    ensures TotalSupply(TransferSpec(l, from, to, amount).0) == TotalSupply(l)
  {
    if from in l.accounts && amount <= l.accounts[from].balance {
      DebitSum(l.accounts, from, amount);
      CreditSum(Debit(l.accounts, from, amount), to, amount);
      FinishSupply(l.(accounts := Credit(Debit(l.accounts, from, amount), to, amount)), from, true);
    }
  }

  lemma StakeSupply(l: Ledger, signer: nat, amount: nat, bump: bool)
    ensures TotalSupply(StakeSpec(l, signer, amount, bump).0) == TotalSupply(l)
  {
    hide Finish, MapSum;
    if signer in l.accounts && amount <= l.accounts[signer].balance {
      DebitSum(l.accounts, signer, amount);
      MapSumUpdate(l.stakes, signer, Get(l.stakes, signer) + amount);
      FinishSupply(l.(accounts := Debit(l.accounts, signer, amount),
                      stakes := l.stakes[signer := Get(l.stakes, signer) + amount]), signer, bump);
    }
  }

  lemma UnstakeSupply(l: Ledger, signer: nat, amount: nat, bump: bool)
    ensures TotalSupply(UnstakeSpec(l, signer, amount, bump).0) == TotalSupply(l)
  {
    hide Finish, MapSum;
    if signer in l.stakes && amount <= l.stakes[signer] {
      CreditSum(l.accounts, signer, amount);
      MapSumUpdate(l.stakes, signer, l.stakes[signer] - amount);
      FinishSupply(l.(stakes := l.stakes[signer := l.stakes[signer] - amount],
                      accounts := Credit(l.accounts, signer, amount)), signer, bump);
    }
  }

  lemma DelegateSupply(l: Ledger, signer: nat, validator: nat, amount: nat, bump: bool)
    ensures TotalSupply(DelegateSpec(l, signer, validator, amount, bump).0) == TotalSupply(l)
  {
    hide Finish, MapSum;
    if signer in l.accounts && amount <= l.accounts[signer].balance {
      var key := (signer, validator);
      DebitSum(l.accounts, signer, amount);
      MapSumUpdate(l.delegated, key, Get(l.delegated, key) + amount);
      FinishSupply(l.(accounts := Debit(l.accounts, signer, amount),
                      delegated := l.delegated[key := Get(l.delegated, key) + amount]), signer, bump);
    }
  }

  /** Slashing is the only one of these that destroys tokens. */
  lemma SlashSupply(l: Ledger, signer: nat, validator: nat, bump: bool)
    ensures TotalSupply(SlashSpec(l, signer, validator, bump).0)
         == TotalSupply(l) - if Governed(l, signer) then Get(l.stakes, validator) else 0
  {
    hide Finish, MapSum;
    MapSumDrop(l.stakes, validator);
    FinishSupply(l.(stakes := l.stakes - {validator}), signer, bump);
  }

  lemma WithdrawSupply(l: Ledger, signer: nat, bump: bool)
    ensures TotalSupply(Finish(l.(accounts := Credit(l.accounts, signer, 0)), signer, bump).0) == TotalSupply(l)
  {
    hide Finish, MapSum;
    CreditSum(l.accounts, signer, 0);
    FinishSupply(l.(accounts := Credit(l.accounts, signer, 0)), signer, bump);
  }

  lemma BondSupply(l: Ledger, signer: nat, c: LifeCommand)
    ensures TotalSupply(ProvenanceBondSpec(l, signer, c).0) == TotalSupply(l)
  {
    hide MapSum;
    var l1 := ProvenanceBondSpec(l, signer, c).0;
    if ProvenanceBondSpec(l, signer, c).1.Ok? {
      DebitSum(l.accounts, signer, c.amount);
      assert BondAmounts(l1.life.bonds) == BondAmounts(l.life.bonds)[c.soul := c.amount];
      MapSumUpdate(BondAmounts(l.life.bonds), c.soul, c.amount);
    }
  }

  lemma PayoutSupply(l: Ledger, c: LifeCommand)
    ensures TotalSupply(IntelligencePayoutSpec(l, c).0) == TotalSupply(l)
  {
    hide MapSum, RoyaltyOf, AppendPayouts;
    PayoutsKeepBonds(l.life, c, RoyaltyOf(c, l.emission), SatAdd64(c.epoch, l.emission.vestingEpochs));
  }

  lemma ArtifactSupply(l: Ledger, c: LifeCommand)
    ensures TotalSupply(ArtifactSpec(l, c).0) == TotalSupply(l)
  {
    hide MapSum, Balances, BondAmounts, Escrows, FileArtifact;
    ArtifactsKeep(l.life, c);
  }

  lemma RecordSupply(l: Ledger, id: nat)
    ensures TotalSupply(RecordCommand(l, id)) == TotalSupply(l)
  {
  }

  lemma LifeSupply(l: Ledger, signer: nat, c: LifeCommand, bump: bool)
    ensures TotalSupply(LifeSpec(l, signer, c, bump).0) == TotalSupply(l)
  {
    hide Finish, TotalSupply, IntelligencePayoutSpec, ProvenanceBondSpec, ArtifactSpec, RecordCommand;
    PayoutSupply(l, c);
    ArtifactSupply(l, c);
    BondSupply(l, signer, c);
    var l1 := LifeEconomics(l, signer, c).0;
    RecordSupply(l1, c.id);
    FinishSupply(RecordCommand(l1, c.id), signer, bump);
  }

  lemma PayoutsKeepBonds(book: LifeBook, c: LifeCommand, royalty: nat, release: nat)
    ensures AppendPayouts(book, c, royalty, release).bonds == book.bonds
  {
  }

  /** What a call adds to the supply at most: nothing, but for a batch whose total wraps. */
  function Created(l: Ledger, call: Call): nat {
    if Stores(l, call) then Wrapped(call.call.batch) else 0
  }

  /** No single call increases the supply by more than its batch total wraps, whether it succeeds
      or fails. */
  lemma StepSupply(l: Ledger, call: Call)
    ensures TotalSupply(Step(l, call).0) <= TotalSupply(l) + Created(l, call)
  {
    hide TotalSupply, Finish, SettleBatchSpec, ClaimSpec, LifeSpec, TransferSpec, StakeSpec, UnstakeSpec;
    hide DelegateSpec, SlashSpec, Wrapped, SettleRefusal, SignatureRefusal, KeepSpec;
    match call
    case Transfer(from, to, amount) => TransferSupply(l, from, to, amount);
    case Mint(height) => MintSupply(l, height);
    case Native(signer, native, bump) =>
      match native
      case SettleBatch(b) => SettleSupply(l, signer, b, bump);
      case ClaimPayout(id, account, amount, leafIndex, proof) =>
        ClaimSupply(l, signer, id, PayoutEntry(leafIndex, account, amount), proof, bump);
      case Life(c) => LifeSupply(l, signer, c, bump);
      case RegisterAgent(_) => BookkeepingSupply(l, signer, native, bump);
      case SettleReceipt(_) => BookkeepingSupply(l, signer, native, bump);
      case SetChainEconomics(_) => BookkeepingSupply(l, signer, native, bump);
      case NoOp => BookkeepingSupply(l, signer, native, bump);
      case Keep(record) => KeepSupply(l, signer, record, bump);
      case Stake(amount) => StakeSupply(l, signer, amount, bump);
      case Unstake(amount) => UnstakeSupply(l, signer, amount, bump);
      case Delegate(validator, amount) => DelegateSupply(l, signer, validator, amount, bump);
      case Slash(validator) => SlashSupply(l, signer, validator, bump);
      case WithdrawRewards => WithdrawSupply(l, signer, bump);
  }

  lemma MintSupply(l: Ledger, height: nat)
    ensures TotalSupply(MintSpec(l, height).0) == TotalSupply(l)
  {
  }

  lemma RegisterSupply(l: Ledger, signer: nat, pubkey: nat, bump: bool)
    ensures TotalSupply(RegisterAgentSpec(l, signer, pubkey, bump).0) == TotalSupply(l)
  {
    hide Finish, MapSum, Balances, BondAmounts, Escrows, SatAdd64;
    var id := l.agents.nextId;
    FinishSupply(l.(agents := AgentBook(SatAdd64(id, 1), l.agents.records[id := Agent(signer, pubkey, false)],
                                        l.agents.byAddress[signer := id])), signer, bump);
  }

  lemma KeepSupply(l: Ledger, signer: nat, call: RecordCall, bump: bool)
    ensures TotalSupply(KeepSpec(l, signer, call, bump).0) == TotalSupply(l)
  {
    hide Finish, MapSum, Balances, BondAmounts, Escrows, KeepAgents, KeepRecords;
    if call.UpdateAgent? || call.SuspendAgent? {
      FinishSupply(l.(agents := KeepAgents(l, signer, call).0), signer, bump);
    } else {
      FinishSupply(l.(records := KeepRecords(l, signer, call).0), signer, bump);
    }
  }

  lemma BookkeepingSupply(l: Ledger, signer: nat, call: NativeCall, bump: bool)
    requires call.RegisterAgent? || call.SettleReceipt? || call.SetChainEconomics? || call.NoOp?
    ensures TotalSupply(NativeSpec(l, signer, call, bump).0) == TotalSupply(l)
  {
    hide Finish, MapSum, DistributeProviderPool, Balances, BondAmounts, Escrows, RegisterAgentSpec;
    match call
    case RegisterAgent(pubkey) => RegisterSupply(l, signer, pubkey, bump);
    case SettleReceipt(r) =>
      var l1 := l.(receipts := l.receipts[r.id := r]);
      DistributeKeeps(l1, [r]);
      FinishSupply(DistributeProviderPool(l1, [r]), signer, bump);
    case SetChainEconomics(params) =>
      FinishSupply(l.(emission := params), signer, bump);
    case NoOp =>
      FinishSupply(l, signer, bump);
  }

  ghost function CreatedBy(l: Ledger, calls: seq<Call>): nat {
    if calls == [] then 0
    else CreatedBy(l, calls[..|calls| - 1]) + Created(Exec(l, calls[..|calls| - 1]), calls[|calls| - 1])
  }

  lemma {:induction false} NothingCreated(l: Ledger, calls: seq<Call>)
    requires forall i :: 0 <= i < |calls| ==> Fits(calls[i])
    ensures CreatedBy(l, calls) == 0
  {
    hide Exec, SettleRefusal, SignatureRefusal, Wrapped;
    if calls != [] {
      var k := |calls| - 1;
      NothingCreated(l, calls[..k]);
      if IsSettle(calls[k]) {
        FitsExactly(calls[k].call.batch);
      }
    }
  }

  /** Native tokens are never created but by wrapping: over any run of calls, failed ones included,
      the total of balances, stakes, delegations, bonds and unclaimed escrow grows by no more than
      the stored batches wrap. If every batch sums to a `u128` it does not grow at all; hence, if it
      starts within a `u128`, no balance ever leaves that range. */
  lemma {:induction false} SupplyNeverIncreases(l: Ledger, calls: seq<Call>)
    ensures TotalSupply(Exec(l, calls)) <= TotalSupply(l) + CreatedBy(l, calls)
    ensures (forall i :: 0 <= i < |calls| ==> Fits(calls[i])) ==>
      && TotalSupply(Exec(l, calls)) <= TotalSupply(l)
      && forall a :: a in Exec(l, calls).accounts ==> Exec(l, calls).accounts[a].balance <= TotalSupply(l)
  {
    if calls != [] {
      SupplyNeverIncreases(l, calls[..|calls| - 1]);
      StepSupply(Exec(l, calls[..|calls| - 1]), calls[|calls| - 1]);
    }
    var l' := Exec(l, calls);
    hide Exec, Step, Created;
    if forall i :: 0 <= i < |calls| ==> Fits(calls[i]) {
      NothingCreated(l, calls);
      forall a | a in l'.accounts
        ensures l'.accounts[a].balance <= TotalSupply(l)
      {
        MapSumRemove(Balances(l'.accounts), a);
      }
    }
  }
}

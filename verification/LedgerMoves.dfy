/** Who gains and who loses by each ledger call, account by account. */
module LedgerMoves {
  import opened Arithmetic
  import opened Collections
  import opened Merkle
  import opened Emission
  import opened Ledger
  import opened EmissionLedger

  function BalanceOf(l: Ledger, a: nat): nat { if a in l.accounts then l.accounts[a].balance else 0 }

  function NonceOf(l: Ledger, a: nat): nat { if a in l.accounts then l.accounts[a].nonce else 0 }

  /** Nobody outside `who` sees a change of its account, and only `created` may be new. */
  ghost predicate OthersKeep(l: Ledger, l': Ledger, who: set<nat>, created: set<nat>) {
    && l'.accounts.Keys == l.accounts.Keys + created
    && forall a :: a in l.accounts && a !in who ==> l'.accounts[a] == l.accounts[a]
  }

  /** The nonce of `signer`, and no other, moves by one if the call bumps it. */
  ghost predicate NonceMoves(l: Ledger, l': Ledger, signer: nat, bump: bool) {
    && (forall a :: a != signer ==> NonceOf(l', a) == NonceOf(l, a))
    && NonceOf(l', signer) == if bump then Min(NonceOf(l, signer) + 1, U64_MAX) else NonceOf(l, signer)
  }

  /** A transfer that is covered moves the amount from sender to recipient; every other one is
      refused and moves nothing. */
  lemma TransferMoves(l: Ledger, from: nat, to: nat, amount: nat)
    ensures var (l', outcome) := TransferSpec(l, from, to, amount);
      if from !in l.accounts then l' == l && outcome == Err(UnknownSigner)
      else if BalanceOf(l, from) < amount then l' == l && outcome == Err(InsufficientBalance)
      else
        && outcome == Ok && l' == l.(accounts := l'.accounts)
        && (from != to ==> BalanceOf(l', from) == BalanceOf(l, from) - amount
                           && BalanceOf(l', to) == BalanceOf(l, to) + amount)
        && (from == to ==> BalanceOf(l', from) == BalanceOf(l, from))
        && OthersKeep(l, l', {from, to}, {to}) && NonceMoves(l, l', from, true)
  {
  }

  lemma FinishMoves(l: Ledger, signer: nat, bump: bool)
    ensures var (l', outcome) := Finish(l, signer, bump);
      && l' == l.(accounts := l'.accounts) && OthersKeep(l, l', {signer}, {})
      && (forall a :: BalanceOf(l', a) == BalanceOf(l, a))
      && (if bump && signer !in l.accounts then l' == l && outcome == Err(UnknownSigner)
          else outcome == Ok && NonceMoves(l, l', signer, bump))
  {
  }

  /** Staking moves the amount from the signer's balance to the signer's stake. */
  lemma StakeMoves(l: Ledger, signer: nat, amount: nat, bump: bool)
    ensures var (l', outcome) := StakeSpec(l, signer, amount, bump);
      if signer !in l.accounts then l' == l && outcome == Err(UnknownSigner)
      else if BalanceOf(l, signer) < amount then l' == l && outcome == Err(InsufficientBalance)
      else
        && outcome == Ok && l' == l.(accounts := l'.accounts, stakes := l'.stakes)
        && BalanceOf(l', signer) == BalanceOf(l, signer) - amount
        && l'.stakes == l.stakes[signer := Get(l.stakes, signer) + amount]
        && OthersKeep(l, l', {signer}, {}) && NonceMoves(l, l', signer, bump)
  {
    hide Finish;
    if signer in l.accounts && amount <= l.accounts[signer].balance {
      FinishMoves(l.(accounts := Debit(l.accounts, signer, amount),
                     stakes := l.stakes[signer := Get(l.stakes, signer) + amount]), signer, bump);
    }
  }

  /** Unstaking moves it back. */
  lemma UnstakeMoves(l: Ledger, signer: nat, amount: nat, bump: bool)
    ensures var (l', outcome) := UnstakeSpec(l, signer, amount, bump);
      if signer !in l.stakes then l' == l && outcome == Err(NotFound)
      else if l.stakes[signer] < amount then l' == l && outcome == Err(InsufficientBalance)
      else
        && outcome == Ok && l' == l.(accounts := l'.accounts, stakes := l'.stakes)
        && BalanceOf(l', signer) == BalanceOf(l, signer) + amount
        && l'.stakes == l.stakes[signer := l.stakes[signer] - amount]
        && OthersKeep(l, l', {signer}, {signer}) && NonceMoves(l, l', signer, bump)
  {
    hide Finish;
    if signer in l.stakes && amount <= l.stakes[signer] {
      FinishMoves(l.(stakes := l.stakes[signer := l.stakes[signer] - amount],
                     accounts := Credit(l.accounts, signer, amount)), signer, bump);
    }
  }

  /** Delegating moves the amount from the signer's balance to the entry of signer and validator. */
  lemma DelegateMoves(l: Ledger, signer: nat, validator: nat, amount: nat, bump: bool)
    ensures var (l', outcome) := DelegateSpec(l, signer, validator, amount, bump);
      if signer !in l.accounts then l' == l && outcome == Err(UnknownSigner)
      else if BalanceOf(l, signer) < amount then l' == l && outcome == Err(InsufficientBalance)
      else
        && outcome == Ok && l' == l.(accounts := l'.accounts, delegated := l'.delegated)
        && BalanceOf(l', signer) == BalanceOf(l, signer) - amount
        && l'.delegated == l.delegated[(signer, validator) := Get(l.delegated, (signer, validator)) + amount]
        && OthersKeep(l, l', {signer}, {}) && NonceMoves(l, l', signer, bump)
  {
    hide Finish;
    if signer in l.accounts && amount <= l.accounts[signer].balance {
      var key := (signer, validator);
      FinishMoves(l.(accounts := Debit(l.accounts, signer, amount),
                     delegated := l.delegated[key := Get(l.delegated, key) + amount]), signer, bump);
    }
  }

  /** An accepted claim pays the account its entry names, whoever sends it, and is marked paid even
      if the sender turns out to be unknown. */
  lemma ClaimMoves(l: Ledger, signer: nat, id: nat, entry: PayoutEntry, proof: seq<Hash<PayoutEntry>>, bump: bool)
    requires ClaimRefusal(l, id, entry, proof).None?
    ensures var (l', outcome) := ClaimSpec(l, signer, id, entry, proof, bump);
      && l' == l.(accounts := l'.accounts, claimed := l.claimed + {(id, entry.index)})
      && BalanceOf(l', entry.account) == BalanceOf(l, entry.account) + entry.amount
      && (forall a :: a != entry.account ==> BalanceOf(l', a) == BalanceOf(l, a))
      && l'.accounts.Keys == l.accounts.Keys + {entry.account}
      && outcome == (if bump && signer !in l.accounts && signer != entry.account then Err(UnknownSigner) else Ok)
      && (outcome == Ok ==> NonceMoves(l, l', signer, bump))
  {
    hide Finish, ClaimRefusal;
    var paid := l.(claimed := l.claimed + {(id, entry.index)},
                   accounts := Credit(l.accounts, entry.account, entry.amount));
    FinishMoves(paid, signer, bump);
  }

  /** A refused settlement touches nothing before the debit; after it the operator, and nobody else,
      has lost the batch total, whether the signature is accepted or not. */
  lemma SettleMoves(l: Ledger, signer: nat, b: Batch, bump: bool)
    ensures var (l', outcome) := SettleBatchSpec(l, signer, b, bump);
      if SettleRefusal(l, signer, b).Some? then l' == l && outcome == Err(SettleRefusal(l, signer, b).value)
      else
        && BalanceOf(l', b.operator) == BalanceOf(l, b.operator) - BatchTotal(b)
        && OthersKeep(l, l', {b.operator}, {})
        && (SignatureRefusal(l, b).Some? ==> outcome == Err(SignatureRefusal(l, b).value)
                                             && l' == l.(accounts := l'.accounts))
        && (SignatureRefusal(l, b).None? ==> outcome == Ok && NonceMoves(l, l', signer, bump))
  {
    hide Finish, SignatureRefusal, DistributeProviderPool, Stored, BatchTotal, InsertReceipts, WellIndexed;
    if SettleRefusal(l, signer, b).None? && SignatureRefusal(l, b).None? {
      var stored := l.(accounts := Debit(l.accounts, b.operator, BatchTotal(b)),
                       batches := l.batches[b.id := Stored(b)],
                       receipts := InsertReceipts(l.receipts, b.receipts));
      DistributeAccounts(stored, b.receipts);
      FinishMoves(DistributeProviderPool(stored, b.receipts), signer, bump);
    }
  }

  lemma DistributeAccounts(l: Ledger, receipts: seq<Receipt>)
    ensures DistributeProviderPool(l, receipts).accounts == l.accounts
  {
    hide PayProviders, ProviderRewards, AddOrganic, DrainProviderPool;
  }

  /** A bond is taken from the signer and recorded under the artifact, in the signer's name. */
  lemma BondMoves(l: Ledger, signer: nat, c: LifeCommand)
    requires ProvenanceBondSpec(l, signer, c).1.Ok?
    ensures var l' := ProvenanceBondSpec(l, signer, c).0;
      && l' == l.(accounts := l'.accounts, life := l'.life)
      && BalanceOf(l', signer) == BalanceOf(l, signer) - c.amount
      && OthersKeep(l, l', {signer}, {}) && NonceMoves(l, l', signer, false)
      && c.soul !in l.life.bonds && l.emission.provenanceBond <= c.amount
      && l'.life == l.life.(bonds := l.life.bonds[c.soul := Bond(signer, c.amount)])
  {
  }

  /** A new agent is filed under the next id and found under its address; an address that has one
      already is refused, at the cost of an id. */
  lemma RegisterMoves(l: Ledger, signer: nat, pubkey: nat, bump: bool)
    ensures var (l', outcome) := RegisterAgentSpec(l, signer, pubkey, bump);
      && l'.agents.nextId == Min(l.agents.nextId + 1, U64_MAX)
      && (if signer in l.agents.byAddress
          then outcome == Err(AgentIdCollision)
               && l'.agents.records == l.agents.records && l'.agents.byAddress == l.agents.byAddress
          else l'.agents.records == l.agents.records[l.agents.nextId := Agent(signer, pubkey, false)]
               && l'.agents.byAddress == l.agents.byAddress[signer := l.agents.nextId])
      && (forall a :: BalanceOf(l', a) == BalanceOf(l, a))
  {
  }

  /** A stored batch files all its receipts and forgets none. */
  lemma {:induction false} ReceiptsFiled(receipts: map<nat, Receipt>, added: seq<Receipt>, id: nat)
    ensures id in InsertReceipts(receipts, added)
       <==> id in receipts || exists i :: 0 <= i < |added| && added[i].id == id
  {
    if added != [] {
      var k := |added| - 1;
      ReceiptsFiled(receipts, added[..k], id);
      if i :| 0 <= i < |added| && added[i].id == id && i < k {
        assert added[..k][i].id == id;
      }
    }
  }

  // ----- emission -----

  lemma PartOf(total: nat, bps: nat)
    requires total <= MAX_SUPPLY_WEI && bps <= BPS
    ensures SatMul(total, bps) / BPS == total * bps / BPS
  {
    MulMonotone(total, MAX_SUPPLY_WEI, bps);
    MulMonotone(bps, BPS, MAX_SUPPLY_WEI);
  }

  lemma BlockParts(height: nat, p: EmissionParams)
    requires p.pools.a + p.pools.b <= BPS && EmissionForBlock(height, p).total <= MAX_SUPPLY_WEI
    ensures var e := EmissionForBlock(height, p);
      && e.provider == e.total * p.pools.a / BPS && e.consensus == e.total * p.pools.b / BPS
      && e.intelligence == e.total - e.provider - e.consensus
  {
    hide BudgetForQuarter, BlockShare;
    var e := EmissionForBlock(height, p);
    PartOf(e.total, p.pools.a);
    PartOf(e.total, p.pools.b);
    BlockSplits(height, p);
  }

  /** Minting puts the provider's and the consensus share of a block into their pools and the rest
      into the intelligence pool, and touches nothing else. */
  lemma MintMoves(l: Ledger, height: nat)
    requires Balanced(l) && SplitsFit(l.emission) && MintSpec(l, height).1.Ok?
    ensures var l' := MintSpec(l, height).0;
      var total := l'.pools.minted - l.pools.minted;
      && l' == l.(pools := l'.pools) && total == EmissionForBlock(height, l.emission).total
      && l'.pools.provider == l.pools.provider + total * l.emission.pools.a / BPS
      && l'.pools.consensus == l.pools.consensus + total * l.emission.pools.b / BPS
      && l'.pools.intelligence == l.pools.intelligence + total
           - total * l.emission.pools.a / BPS - total * l.emission.pools.b / BPS
      && l'.pools.rollover == l.pools.rollover
  {
    var e := EmissionForBlock(height, l.emission);
    MintBalanced(l, height);
    if e.total > 0 {
      BlockParts(height, l.emission);
    } else {
      NothingOfNothing(l.emission.pools.a);
      NothingOfNothing(l.emission.pools.b);
    }
    hide EmissionForBlock, Sum, MapSum, Subsidies, PayoutAmounts;
  }

  lemma NothingOfNothing(bps: nat)
    ensures 0 * bps / BPS == 0
  {
  }

  // ----- life payouts -----

  /** One payout, as it appears in the list. */
  function PayoutOf(c: LifeCommand, sequence: nat, kind: PayoutKind, beneficiary: nat, amount: nat, release: nat)
    : LifePayout
  {
    LifePayout(PayoutId(c.id, sequence, kind, beneficiary, amount, release), amount)
  }

  /** An intelligence payout adds the primary payout to the soul and then the royalty to the
      counterparty, each unless it is zero, under the release epoch of the profile; the vesting book
      gains the same entries. */
  lemma PayoutBeneficiaries(l: Ledger, c: LifeCommand)
    requires 0 < c.amount <= l.pools.intelligence && FirstHop(l.emission) <= BPS && c.amount <= MAX_SUPPLY_WEI
    ensures var (l', outcome) := IntelligencePayoutSpec(l, c);
      var hop := if l.emission.royaltyHopsBps == [] then 0 else l.emission.royaltyHopsBps[0];
      var royalty := if c.counterparty.Some? then c.amount * hop / BPS else 0;
      var release := Min(c.epoch + l.emission.vestingEpochs, U64_MAX);
      var n := |l.life.payouts|;
      var primary := if royalty < c.amount then [PayoutOf(c, n, Primary, c.soul, c.amount - royalty, release)] else [];
      var second := if royalty > 0
                    then [PayoutOf(c, n + |primary|, Royalty, c.counterparty.value, royalty, release)] else [];
      && outcome == Ok && l'.pools.intelligence == l.pools.intelligence - c.amount
      && l'.life.payouts == l.life.payouts + primary + second
      && l'.life.vesting.Keys == l.life.vesting.Keys + (set p | p in primary + second :: p.id)
      && (forall p :: p in primary + second ==> l'.life.vesting[p.id] == p.amount)
  {
    PartOf(c.amount, FirstHop(l.emission));
    RoyaltyFits(c, l.emission);
  }
}

/** Batch escrow and claims over whole runs: who can claim what, and how much is ever paid. */
module Escrow {
  import opened Arithmetic
  import opened Collections
  import opened Merkle
  import opened Ledger
  import opened Supply

  // ----- what one call does to batches and claims -----

  predicate IsClaim(call: Call) { call.Native? && call.call.ClaimPayout? }

  function ClaimedEntry(call: Call): PayoutEntry
    requires IsClaim(call)
  {
    PayoutEntry(call.call.leafIndex, call.call.account, call.call.amount)
  }

  predicate Pays(l: Ledger, call: Call) {
    IsClaim(call) && ClaimRefusal(l, call.call.batchId, ClaimedEntry(call), call.call.proof).None?
  }

  lemma FinishKeeps(l: Ledger, signer: nat, bump: bool)
    ensures Finish(l, signer, bump).0.batches == l.batches
    ensures Finish(l, signer, bump).0.claimed == l.claimed
  {
  }

  /** Only a stored batch changes the batches, only an accepted claim the claims. */
  lemma StepBatches(l: Ledger, call: Call)
    ensures Step(l, call).0.batches
         == if Stores(l, call) then l.batches[call.call.batch.id := Stored(call.call.batch)] else l.batches
    ensures Step(l, call).0.claimed
         == if Pays(l, call) then l.claimed + {(call.call.batchId, call.call.leafIndex)} else l.claimed
  {
    if IsSettle(call) {
      SettleBatches(l, call.signer, call.call.batch, call.bump);
    } else if IsClaim(call) {
      ClaimBatches(l, call.signer, call.call.batchId, ClaimedEntry(call), call.call.proof, call.bump);
    } else {
      OtherBatches(l, call);
    }
    hide SettleBatchSpec, ClaimSpec, SettleRefusal, SignatureRefusal, ClaimRefusal;
  }

  lemma SettleBatches(l: Ledger, signer: nat, b: Batch, bump: bool)
    ensures SettleBatchSpec(l, signer, b, bump).0.claimed == l.claimed
    ensures SettleBatchSpec(l, signer, b, bump).0.batches
         == if SettleRefusal(l, signer, b).None? && SignatureRefusal(l, b).None?
            then l.batches[b.id := Stored(b)] else l.batches
  {
    hide SignatureRefusal, DistributeProviderPool, Finish, Stored, BatchTotal, InsertReceipts, WellIndexed;
    if SettleRefusal(l, signer, b).None? && SignatureRefusal(l, b).None? {
      var stored := l.(accounts := Debit(l.accounts, b.operator, BatchTotal(b)),
                       batches := l.batches[b.id := Stored(b)],
                       receipts := InsertReceipts(l.receipts, b.receipts));
      DistributeKeeps(stored, b.receipts);
      FinishKeeps(DistributeProviderPool(stored, b.receipts), signer, bump);
    }
  }

  lemma ClaimBatches(l: Ledger, signer: nat, id: nat, entry: PayoutEntry, proof: seq<Hash<PayoutEntry>>, bump: bool)
    ensures ClaimSpec(l, signer, id, entry, proof, bump).0.batches == l.batches
    ensures ClaimSpec(l, signer, id, entry, proof, bump).0.claimed
         == if ClaimRefusal(l, id, entry, proof).None? then l.claimed + {(id, entry.index)} else l.claimed
  {
    hide ClaimRefusal;
  }

  lemma OtherBatches(l: Ledger, call: Call)
    requires !IsSettle(call) && !IsClaim(call)
    ensures Step(l, call).0.batches == l.batches && Step(l, call).0.claimed == l.claimed
  {
    match call
    case Transfer(from, to, amount) =>
    case Mint(height) =>
    case Native(signer, native, bump) =>
      NativeBatches(l, signer, native, bump);
      hide NativeSpec;
  }

  lemma NativeBatches(l: Ledger, signer: nat, call: NativeCall, bump: bool)
    requires !call.SettleBatch? && !call.ClaimPayout?
    ensures NativeSpec(l, signer, call, bump).0.batches == l.batches
    ensures NativeSpec(l, signer, call, bump).0.claimed == l.claimed
  {
    hide Finish, DistributeProviderPool, Credit, Debit, LifeSpec, SatAdd64, KeepSpec;
    match call
    case RegisterAgent(pubkey) =>
      var id := l.agents.nextId;
      FinishKeeps(l.(agents := AgentBook(SatAdd64(id, 1), l.agents.records[id := Agent(signer, pubkey, false)],
                                         l.agents.byAddress[signer := id])), signer, bump);
    case SettleReceipt(r) =>
      var l1 := l.(receipts := l.receipts[r.id := r]);
      DistributeKeeps(l1, [r]);
      FinishKeeps(DistributeProviderPool(l1, [r]), signer, bump);
    case Life(c) => LifeBatches(l, signer, c, bump);
    case SetChainEconomics(params) => FinishKeeps(l.(emission := params), signer, bump);
    case NoOp => FinishKeeps(l, signer, bump);
    case Keep(record) => KeepBatches(l, signer, record, bump);
    case WithdrawRewards => FinishKeeps(l.(accounts := Credit(l.accounts, signer, 0)), signer, bump);
    case Slash(validator) => FinishKeeps(l.(stakes := l.stakes - {validator}), signer, bump);
    case Stake(_) => StakingBatches(l, signer, call, bump);
    case Unstake(_) => StakingBatches(l, signer, call, bump);
    case Delegate(_, _) => StakingBatches(l, signer, call, bump);
  }

  lemma KeepBatches(l: Ledger, signer: nat, call: RecordCall, bump: bool)
    ensures KeepSpec(l, signer, call, bump).0.batches == l.batches
    ensures KeepSpec(l, signer, call, bump).0.claimed == l.claimed
  {
    hide Finish, KeepAgents, KeepRecords;
    if call.UpdateAgent? || call.SuspendAgent? {
      FinishKeeps(l.(agents := KeepAgents(l, signer, call).0), signer, bump);
    } else {
      FinishKeeps(l.(records := KeepRecords(l, signer, call).0), signer, bump);
    }
  }

  lemma LifeBatches(l: Ledger, signer: nat, c: LifeCommand, bump: bool)
    ensures LifeSpec(l, signer, c, bump).0.batches == l.batches && LifeSpec(l, signer, c, bump).0.claimed == l.claimed
  {
    EconomicsKeepBatches(l, signer, c);
    hide LifeEconomics, Finish;
    FinishKeeps(RecordCommand(LifeEconomics(l, signer, c).0, c.id), signer, bump);
  }

  lemma EconomicsKeepBatches(l: Ledger, signer: nat, c: LifeCommand)
    ensures LifeEconomics(l, signer, c).0.batches == l.batches
    ensures LifeEconomics(l, signer, c).0.claimed == l.claimed
  {
    hide AppendPayouts, RoyaltyOf, Debit, FileArtifact;
  }

  lemma StakingBatches(l: Ledger, signer: nat, call: NativeCall, bump: bool)
    requires call.Stake? || call.Unstake? || call.Delegate?
    ensures NativeSpec(l, signer, call, bump).0.batches == l.batches
    ensures NativeSpec(l, signer, call, bump).0.claimed == l.claimed
  {
    hide Credit, Debit;
  }

  // ----- histories -----

  /** The entries of the batch last stored under `id`. */
  ghost function LastSettled(l: Ledger, calls: seq<Call>, id: nat): Option<seq<PayoutEntry>> {
    if calls == [] then None
    else
      var k := |calls| - 1;
      if Stores(Exec(l, calls[..k]), calls[k]) && calls[k].call.batch.id == id
      then Some(calls[k].call.batch.entries)
      else LastSettled(l, calls[..k], id)
  }

  /** What a call debits an operator for `id`, settlements that fail on their signature included. */
  function DebitedBy(l: Ledger, call: Call, id: nat): nat {
    if Debits(l, call) && call.call.batch.id == id then BatchTotal(call.call.batch) else 0
  }

  /** What the debit of a call falls short of the amounts it escrows, because its total wraps. */
  function WrappedBy(l: Ledger, call: Call, id: nat): nat {
    if Stores(l, call) && call.call.batch.id == id then Wrapped(call.call.batch) else 0
  }

  /** What a call pays to a claimant of `id`. */
  function PaidBy(l: Ledger, call: Call, id: nat): nat {
    if Pays(l, call) && call.call.batchId == id then call.call.amount else 0
  }

  ghost function Debited(l: Ledger, calls: seq<Call>, id: nat): nat {
    if calls == [] then 0
    else
      var k := |calls| - 1;
      Debited(l, calls[..k], id) + DebitedBy(Exec(l, calls[..k]), calls[k], id)
  }

  ghost function WrappedUnder(l: Ledger, calls: seq<Call>, id: nat): nat {
    if calls == [] then 0
    else
      var k := |calls| - 1;
      WrappedUnder(l, calls[..k], id) + WrappedBy(Exec(l, calls[..k]), calls[k], id)
  }

  ghost function Paid(l: Ledger, calls: seq<Call>, id: nat): nat {
    if calls == [] then 0
    else
      var k := |calls| - 1;
      Paid(l, calls[..k], id) + PaidBy(Exec(l, calls[..k]), calls[k], id)
  }

  // ----- the escrow bound -----

  lemma StepEscrow(l: Ledger, call: Call, id: nat)
    ensures PaidBy(l, call, id) + EscrowOf(Step(l, call).0, id)
         <= EscrowOf(l, id) + DebitedBy(l, call, id) + WrappedBy(l, call, id)
  {
    StepBatches(l, call);
    hide Step, MapSum, UnclaimedEntries, SettleRefusal, SignatureRefusal, Sum, Climb;
    if Stores(l, call) {
      FreshEscrow(id, call.call.batch.entries, l.claimed);
    } else if Pays(l, call) {
      if call.call.batchId == id {
        ClaimedEscrow(id, l.batches[id].payoutRoot, l.claimed, ClaimedEntry(call), call.call.proof);
      } else if id in l.batches {
        OtherEscrow(call.call.batchId, id, l.batches[id].payoutRoot, l.claimed, call.call.leafIndex);
      }
    }
  }

  lemma {:induction false} NothingWrapped(l: Ledger, calls: seq<Call>, id: nat)
    requires forall i :: 0 <= i < |calls| ==> Fits(calls[i])
    ensures WrappedUnder(l, calls, id) == 0
  {
    hide Exec, SettleRefusal, SignatureRefusal, Wrapped;
    if calls != [] {
      var k := |calls| - 1;
      NothingWrapped(l, calls[..k], id);
      if IsSettle(calls[k]) {
        FitsExactly(calls[k].call.batch);
      }
    }
  }

  /** No batch id ever pays out more than was debited for it and wrapped away under it, reused ids
      included: what has been paid and what can still be claimed are together covered. If every
      batch sums to a `u128`, the debits alone cover them. */
  lemma {:induction false} EscrowBound(l: Ledger, calls: seq<Call>, id: nat)
    requires id !in l.batches
    ensures Paid(l, calls, id) + EscrowOf(Exec(l, calls), id) <= Debited(l, calls, id) + WrappedUnder(l, calls, id)
    ensures (forall i :: 0 <= i < |calls| ==> Fits(calls[i])) ==>
      Paid(l, calls, id) + EscrowOf(Exec(l, calls), id) <= Debited(l, calls, id)
  {
    if calls != [] {
      var k := |calls| - 1;
      EscrowBound(l, calls[..k], id);
      StepEscrow(Exec(l, calls[..k]), calls[k], id);
      hide Step, EscrowOf, DebitedBy, WrappedBy, PaidBy;
    }
    hide *;
    if forall i :: 0 <= i < |calls| ==> Fits(calls[i]) {
      NothingWrapped(l, calls, id);
    }
  }

  /** Exactly when the debit of a first settlement covers its claims. */
  lemma DebitCoversExactly(l: Ledger, call: Call)
    requires Stores(l, call) && |call.call.batch.entries| <= U32_RANGE
    requires call.call.batch.id !in l.batches && forall i :: (call.call.batch.id, i) !in l.claimed
    ensures EscrowOf(Step(l, call).0, call.call.batch.id) <= BatchTotal(call.call.batch)
       <==> Sum(Amounts(call.call.batch.entries)) <= U128_MAX
  {
    FreshSettleExactly(l, call.signer, call.call.batch, call.bump);
    FitsExactly(call.call.batch);
    hide SettleBatchSpec, EscrowOf, Wrapped, BatchTotal, TotalSupply, Sum;
  }

  // ----- a batch that wraps -----

  const HALF: nat := 0x8000_0000_0000_0000_0000_0000_0000_0000

  /** Two entries of 2^127 each: they sum to zero in a `u128`. */
  function WrappingBatch(id: nat, operator: nat): Batch {
    Batch(id, operator, [], [PayoutEntry(0, operator, HALF), PayoutEntry(1, operator, HALF)], 0, NoSig)
  }

  function WrappingRun(id: nat, operator: nat): seq<Call> {
    var b := WrappingBatch(id, operator);
    [Native(operator, SettleBatch(b), false),
     Native(operator, ClaimPayout(id, operator, HALF, 0, Path(LeafHashes(b.entries), 0)), false)]
  }

  lemma WrappingTotal(id: nat, operator: nat)
    ensures Sum(Amounts(WrappingBatch(id, operator).entries)) == U128_RANGE
    ensures BatchTotal(WrappingBatch(id, operator)) == 0 && WellIndexed(WrappingBatch(id, operator).entries)
  {
    var amounts := Amounts(WrappingBatch(id, operator).entries);
    SumPrefix(amounts, 0);
    SumPrefix(amounts, 1);
    assert amounts[..2] == amounts;
  }

  /** The wrapping batch is settled for nothing, in any state that knows the operator and not the
      id. */
  lemma WrappingSettles(l: Ledger, id: nat, operator: nat)
    requires operator in l.accounts
    ensures var call := WrappingRun(id, operator)[0]; Stores(l, call)
    ensures var l' := Step(l, WrappingRun(id, operator)[0]).0;
      l'.accounts == l.accounts && l'.claimed == l.claimed
      && l'.batches == l.batches[id := Stored(WrappingBatch(id, operator))]
  {
    WrappingTotal(id, operator);
    var call := WrappingRun(id, operator)[0];
    StepBatches(l, call);
    hide Stored, BatchTotal, WellIndexed;
    assert Debit(l.accounts, operator, 0) == l.accounts;
  }

  /** Settling it under an unused id creates 2^128 units of claimable escrow out of nothing. */
  lemma WrappingInflates(l: Ledger, id: nat, operator: nat)
    requires operator in l.accounts && id !in l.batches && forall i :: (id, i) !in l.claimed
    ensures TotalSupply(Step(l, WrappingRun(id, operator)[0]).0) == TotalSupply(l) + U128_RANGE
  {
    WrappingTotal(id, operator);
    WrappingSettles(l, id, operator);
    FreshSettleExactly(l, operator, WrappingBatch(id, operator), false);
    hide SettleBatchSpec, TotalSupply, Sum, BatchTotal, EscrowOf;
  }

  /** It then pays: in every such state the operator, debited nothing, claims 2^127 units. */
  lemma WrappingOverpays(l: Ledger, id: nat, operator: nat)
    requires operator in l.accounts && (id, 0) !in l.claimed
    ensures var calls := WrappingRun(id, operator);
      && Debited(l, calls, id) == 0 && Paid(l, calls, id) == HALF
      && Exec(l, calls).accounts == Credit(l.accounts, operator, HALF)
  {
    var calls := WrappingRun(id, operator);
    var b := WrappingBatch(id, operator);
    WrappingTotal(id, operator);
    WrappingSettles(l, id, operator);
    assert calls[..2] == calls && calls[..1] == [calls[0]] && calls[..0] == [];
    var l1 := Step(l, calls[0]).0;
    ExecStep(l, calls, 0);
    ExecStep(l, calls, 1);
    assert Pays(l1, calls[1]) by {
      PathComplete(LeafHashes(b.entries), 0);
    }
    hide Step, Stores, Pays, BatchTotal;
    RunOfTwo(l, calls, id);
    ClaimCredits(l1, calls[1]);
  }

  lemma RunOfTwo(l: Ledger, calls: seq<Call>, id: nat)
    requires |calls| == 2
    ensures var l1 := Step(l, calls[0]).0;
      && Exec(l, calls) == Step(l1, calls[1]).0
      && Debited(l, calls, id) == DebitedBy(l, calls[0], id) + DebitedBy(l1, calls[1], id)
      && Paid(l, calls, id) == PaidBy(l, calls[0], id) + PaidBy(l1, calls[1], id)
  {
    hide Step, DebitedBy, PaidBy;
    var first := calls[..1];
    assert first[..0] == [];
    assert Exec(l, first) == Step(l, calls[0]).0;
    assert Debited(l, first, id) == DebitedBy(l, calls[0], id);
    assert Paid(l, first, id) == PaidBy(l, calls[0], id);
  }

  /** A paid claim made without a nonce arrives at its account. */
  lemma ClaimCredits(l: Ledger, call: Call)
    requires Pays(l, call) && !call.bump
    ensures Step(l, call).0.accounts == Credit(l.accounts, call.call.account, call.call.amount)
  {
  }

  // ----- claim soundness and completeness -----

  /** The stored roots are those of the histories' entries. */
  lemma {:induction false} BatchesMatchHistory(l: Ledger, calls: seq<Call>, id: nat)
    requires l.batches == map[]
    ensures id in Exec(l, calls).batches <==> LastSettled(l, calls, id).Some?
    ensures LastSettled(l, calls, id).Some? ==>
      var entries := LastSettled(l, calls, id).value;
      && WellIndexed(entries)
      && Exec(l, calls).batches[id].payoutRoot == Root(LeafHashes(entries))
  {
    if calls != [] {
      var k := |calls| - 1;
      BatchesMatchHistory(l, calls[..k], id);
      StepBatches(Exec(l, calls[..k]), calls[k]);
      hide Step, Root, SignatureRefusal, BatchTotal;
    }
  }

  /** An index is part of what is hashed, so the leaf it leads to is the one it names: an index
      outside the list leads to an entry that carries a smaller one. */
  lemma ProvedEntry(entries: seq<PayoutEntry>, entry: PayoutEntry, proof: seq<Hash<PayoutEntry>>)
    requires WellIndexed(entries) && Climb(Leaf(entry), entry.index, proof) == Root(LeafHashes(entries))
    ensures entry.index < |entries| && entries[entry.index] == entry
  {
    hide Climb, Root;
    ProvableExactlyMembers(entries, entry);
    UncheckedIndexExactly(entries, entry, entry.index);
    var m := Mirror(entry.index, |entries|);
    assert entries[m].index == m % U32_RANGE <= m;
  }

  /** Exactly which claims are accepted in a reachable state: those of the entry that the batch
      last settled under this id holds at this index, while that index is unclaimed. */
  lemma ClaimableExactly(l: Ledger, calls: seq<Call>, id: nat, entry: PayoutEntry)
    requires l.batches == map[]
    ensures (exists proof :: ClaimRefusal(Exec(l, calls), id, entry, proof).None?)
       <==> && LastSettled(l, calls, id).Some?
            && entry.index < |LastSettled(l, calls, id).value|
            && LastSettled(l, calls, id).value[entry.index] == entry
            && (id, entry.index) !in Exec(l, calls).claimed
  {
    BatchesMatchHistory(l, calls, id);
    var l' := Exec(l, calls);
    var settled := LastSettled(l, calls, id);
    hide Exec, LastSettled, Root, Climb;
    if proof :| ClaimRefusal(l', id, entry, proof).None? {
      ProvedEntry(settled.value, entry, proof);
    }
    if settled.Some? && entry.index < |settled.value| && settled.value[entry.index] == entry
       && (id, entry.index) !in l'.claimed {
      var leaves := LeafHashes(settled.value);
      PathComplete(leaves, entry.index);
      assert ClaimRefusal(l', id, entry, Path(leaves, entry.index)).None?;
    }
  }

  lemma {:induction false} ClaimsAreForever(l: Ledger, calls: seq<Call>, i: nat)
    requires i <= |calls|
    ensures Exec(l, calls[..i]).claimed <= Exec(l, calls).claimed
    decreases |calls|
  {
    hide *;
    if i == |calls| {
      assert calls[..i] == calls;
    } else {
      var k := |calls| - 1;
      assert calls[..k][..i] == calls[..i];
      ClaimsAreForever(l, calls[..k], i);
      ExecStep(l, calls, k);
      assert calls[..k + 1] == calls;
      StepClaims(Exec(l, calls[..k]), calls[k]);
    }
  }

  lemma StepClaims(l: Ledger, call: Call)
    ensures l.claimed <= Step(l, call).0.claimed
  {
    StepBatches(l, call);
    hide *;
  }

  /** An index of a batch id is paid at most once in a run, even if the id is settled again. */
  lemma PaidAtMostOnce(l: Ledger, calls: seq<Call>, i: nat, j: nat)
    requires i < j < |calls|
    requires Pays(Exec(l, calls[..i]), calls[i]) && Pays(Exec(l, calls[..j]), calls[j])
    ensures (calls[i].call.batchId, calls[i].call.leafIndex) != (calls[j].call.batchId, calls[j].call.leafIndex)
  {
    StepBatches(Exec(l, calls[..i]), calls[i]);
    ExecStep(l, calls, i);
    assert calls[..j][..i + 1] == calls[..i + 1];
    ClaimsAreForever(l, calls[..j], i + 1);
    hide Step;
  }
}

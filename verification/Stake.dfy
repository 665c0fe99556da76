/** Consensus stake, shares, delegation rewards and slashing (`crates/core/src/consensus_stake.rs`). */
module Stake {
  import opened Arithmetic
  import opened Collections

  const MAX_COMMISSION_BPS: nat := 10_000

  datatype UnbondEntry = UnbondEntry(owner: nat, fp: nat, amount: nat, release: nat)

  /** The part of the state these functions touch. Shares and credits are keyed by (owner,
      fingerprint); of the validator registry and of the reaper's chain records only the keys and
      epochs matter here. */
  datatype StakeBook = StakeBook(
    balances: map<nat, nat>,
    stakes: map<nat, nat>,
    shares: map<(nat, nat), nat>,
    commission: map<nat, nat>,
    credits: map<(nat, nat), nat>,
    unbonding: seq<UnbondEntry>,
    registry: set<nat>,
    burned: nat,
    reaperEpochs: set<nat>,
    reaperLog: seq<nat>)

  datatype Error = InvalidShape | UnknownSigner | InsufficientBalance | NotFound | NotAuthorized

  datatype Outcome = Ok | Err(error: Error)

  // ----- shares of a fingerprint -----

  function Owners(shares: map<(nat, nat), nat>, fp: nat): set<nat> {
    set k | k in shares && k.1 == fp :: k.0
  }

  function ShareMap(shares: map<(nat, nat), nat>, fp: nat): (r: map<nat, nat>)
    ensures r.Keys == Owners(shares, fp)
  {
    map o | o in Owners(shares, fp) :: shares[(o, fp)]
  }

  ghost function ShareSum(shares: map<(nat, nat), nat>, fp: nat): nat { MapSum(ShareMap(shares, fp)) }

  function ValuesAt(m: map<nat, nat>, order: seq<nat>): (r: seq<nat>)
    requires forall i :: 0 <= i < |order| ==> order[i] in m
    ensures |r| == |order|
  {
    seq(|order|, i requires 0 <= i < |order| => m[order[i]])
  }

  function ValuesInOrder(m: map<nat, nat>): (r: seq<nat>)
    ensures |r| == |Ascending(m.Keys)|
  {
    AscendingMembers(m.Keys);
    ValuesAt(m, Ascending(m.Keys))
  }

  lemma {:induction false} ValuesAtSum(m: map<nat, nat>, order: seq<nat>)
    requires StrictlyAscending(order) && |order| == |m|
    requires forall i :: 0 <= i < |order| ==> order[i] in m
    ensures Sum(ValuesAt(m, order)) == MapSum(m)
  {
    if order == [] {
      assert m == map[];
    } else {
      var k := |order| - 1;
      var rest := m - {order[k]};
      MapSumRemove(m, order[k]);
      assert rest.Keys == m.Keys - {order[k]};
      ValuesAtSum(rest, order[..k]);
      assert ValuesAt(m, order)[..k] == ValuesAt(rest, order[..k]);
    }
  }

  lemma ValuesInOrderSum(m: map<nat, nat>)
    ensures Sum(ValuesInOrder(m)) == MapSum(m)
  {
    AscendingMembers(m.Keys);
    AscendingSorted(m.Keys);
    assert |m.Keys| == |m|;
    ValuesAtSum(m, Ascending(m.Keys));
  }

  /** The owner with the largest (share, address) among those listed. */
  function LargestHolder(shares: map<nat, nat>, owners: seq<nat>): (r: Option<nat>)
    requires forall i :: 0 <= i < |owners| ==> owners[i] in shares
    ensures r.Some? ==> r.value in owners
    ensures r.None? <==> owners == []
  {
    if owners == [] then None
    else
      var k := |owners| - 1;
      match LargestHolder(shares, owners[..k])
      case None => Some(owners[k])
      case Some(best) => if Outranks(shares, owners[k], best) then Some(owners[k]) else Some(best)
  }

  predicate Outranks(shares: map<nat, nat>, a: nat, b: nat)
    requires a in shares && b in shares
  {
    shares[a] > shares[b] || (shares[a] == shares[b] && a > b)
  }

  function Operator(b: StakeBook, fp: nat): Option<nat> {
    AscendingMembers(Owners(b.shares, fp));
    LargestHolder(ShareMap(b.shares, fp), Ascending(Owners(b.shares, fp)))
  }

  lemma {:induction false} LargestHolderOutranks(shares: map<nat, nat>, owners: seq<nat>, o: nat)
    requires forall i :: 0 <= i < |owners| ==> owners[i] in shares
    requires o in owners && o != LargestHolder(shares, owners).value
    ensures Outranks(shares, LargestHolder(shares, owners).value, o)
  {
    var k := |owners| - 1;
    if o in owners[..k] && o != LargestHolder(shares, owners[..k]).value {
      LargestHolderOutranks(shares, owners[..k], o);
    }
  }

  /** The operator is the unique holder no other holder outranks. */
  lemma OperatorIsLargest(b: StakeBook, fp: nat, o: nat)
    requires o in Owners(b.shares, fp)
    ensures Operator(b, fp).Some?
    ensures Operator(b, fp).value in Owners(b.shares, fp)
    ensures o != Operator(b, fp).value ==> Outranks(ShareMap(b.shares, fp), Operator(b, fp).value, o)
  {
    AscendingMembers(Owners(b.shares, fp));
    if o != Operator(b, fp).value {
      LargestHolderOutranks(ShareMap(b.shares, fp), Ascending(Owners(b.shares, fp)), o);
    }
  }

  // ----- the operations -----

  function DepositSpec(b: StakeBook, signer: nat, fp: nat, amount: nat): (StakeBook, Outcome) {
    if amount == 0 then (b, Err(InvalidShape))
    else if signer !in b.balances then (b, Err(UnknownSigner))
    else if b.balances[signer] < amount then (b, Err(InsufficientBalance))
    else (b.(balances := b.balances[signer := b.balances[signer] - amount],
             stakes := b.stakes[fp := Get(b.stakes, fp) + amount],
             shares := b.shares[(signer, fp) := Get(b.shares, (signer, fp)) + amount]), Ok)
  }

  /** `share -= amount`, dropping the entry when it reaches zero. */
  function Reduce<K>(m: map<K, nat>, k: K, amount: nat): map<K, nat>
    requires k in m && amount <= m[k]
  {
    if m[k] == amount then m - {k} else m[k := m[k] - amount]
  }

  /** The checks made before anything is changed. */
  function RedelegateRefusal(b: StakeBook, owner: nat, from: nat, to: nat, amount: nat): Option<Error> {
    if amount == 0 || from == to then Some(InvalidShape)
    else if (owner, from) !in b.shares then Some(NotFound)
    else if b.shares[(owner, from)] < amount then Some(InsufficientBalance)
    else None
  }

  function RedelegateSpec(b: StakeBook, owner: nat, from: nat, to: nat, amount: nat): (StakeBook, Outcome) {
    match RedelegateRefusal(b, owner, from, to, amount)
    case Some(e) => (b, Err(e))
    case None =>
      var b1 := b.(shares := Reduce(b.shares, (owner, from), amount));
      if from !in b.stakes then (b1, Err(NotFound))
      else if b.stakes[from] < amount then (b1, Err(InsufficientBalance))
      else
        var stakes := Reduce(b.stakes, from, amount);
        (b1.(stakes := stakes[to := Get(stakes, to) + amount],
             shares := b1.shares[(owner, to) := Get(b1.shares, (owner, to)) + amount]), Ok)
  }

  function SlashSpec(b: StakeBook, fp: nat): StakeBook {
    b.(stakes := b.stakes - {fp},
       shares := map k | k in b.shares && k.1 != fp :: b.shares[k],
       unbonding := KeepOthers(b.unbonding, fp),
       commission := b.commission - {fp},
       credits := map k | k in b.credits && k.1 != fp :: b.credits[k],
       registry := b.registry - {fp})
  }

  function KeepOthers(entries: seq<UnbondEntry>, fp: nat): seq<UnbondEntry> {
    if entries == [] then []
    else
      var k := |entries| - 1;
      KeepOthers(entries[..k], fp) + if entries[k].fp != fp then [entries[k]] else []
  }

  function SetCommissionSpec(b: StakeBook, signer: nat, fp: nat, bps: nat): (StakeBook, Outcome) {
    if bps > MAX_COMMISSION_BPS then (b, Err(InvalidShape))
    else
      match Operator(b, fp)
      case None => (b, Err(NotFound))
      case Some(operator) =>
        if signer != operator then (b, Err(NotAuthorized))
        else (b.(commission := b.commission[fp := bps]), Ok)
  }

  /** `WITHDRAW_REWARDS`: the credit moves to the balance and its entry disappears. */
  function WithdrawSpec(b: StakeBook, signer: nat, fp: nat): StakeBook {
    var amount := Get(b.credits, (signer, fp));
    b.(credits := b.credits - {(signer, fp)},
       balances := if amount > 0 then b.balances[signer := SatAdd(Get(b.balances, signer), amount)] else b.balances)
  }

  function AddShares(shares: map<(nat, nat), nat>, fp: nat, owners: seq<nat>, adds: seq<nat>): map<(nat, nat), nat>
    requires |owners| == |adds|
  {
    if owners == [] then shares
    else
      var k := |owners| - 1;
      var before := AddShares(shares, fp, owners[..k], adds[..k]);
      if adds[k] > 0 then before[(owners[k], fp) := Get(before, (owners[k], fp)) + adds[k]] else before
  }

  function CommissionOf(b: StakeBook, fp: nat, reward: nat): nat {
    FloorShare(reward, Min(Get(b.commission, fp), MAX_COMMISSION_BPS), MAX_COMMISSION_BPS)
  }

  /** The commission goes to the operator's credits, or stays in the net if there is none. */
  function TakeCommission(b: StakeBook, fp: nat, reward: nat): (StakeBook, nat) {
    var commission := CommissionOf(b, fp, reward);
    var net := SatSub(reward, commission);
    if commission == 0 then (b, net)
    else
      match Operator(b, fp)
      case None => (b, SatAdd(net, commission))
      case Some(op) => (b.(credits := b.credits[(op, fp) := Get(b.credits, (op, fp)) + commission]), net)
  }

  /** The net reward compounds into the shares in proportion. */
  function Compound(b: StakeBook, fp: nat, net: nat): StakeBook
    requires Get(b.stakes, fp) > 0
  {
    var grown := b.stakes[fp := Get(b.stakes, fp) + net];
    var owners := Ascending(Owners(b.shares, fp));
    if net == 0 then b
    else if owners == [] then b.(stakes := grown)
    else
      b.(stakes := grown,
         shares := AddShares(b.shares, fp, owners,
                             Split(net, ValuesInOrder(ShareMap(b.shares, fp)), Get(b.stakes, fp))))
  }

  function RewardSpec(b: StakeBook, fp: nat, reward: nat): StakeBook {
    if reward == 0 then b
    else if Get(b.stakes, fp) == 0 then b.(stakes := b.stakes[fp := Get(b.stakes, fp) + reward])
    else
      var taken := TakeCommission(b, fp, reward);
      Compound(taken.0, fp, taken.1)
  }

  // ----- the object the code mutates -----

  class StakeState {
    var balances: map<nat, nat>
    var stakes: map<nat, nat>
    var shares: map<(nat, nat), nat>
    var commission: map<nat, nat>
    var credits: map<(nat, nat), nat>
    var unbonding: seq<UnbondEntry>
    var registry: set<nat>
    var burned: nat
    var reaperEpochs: set<nat>
    var reaperLog: seq<nat>

    ghost function Value(): StakeBook
      reads this
    {
      StakeBook(balances, stakes, shares, commission, credits, unbonding, registry, burned, reaperEpochs, reaperLog)
    }

    method Deposit(signer: nat, fp: nat, amount: nat) returns (outcome: Outcome)
      modifies this`balances, this`stakes, this`shares
      ensures (Value(), outcome) == DepositSpec(old(Value()), signer, fp, amount)
    {
      if amount == 0 {
        return Err(InvalidShape);
      }
      if signer !in balances {
        return Err(UnknownSigner);
      }
      if balances[signer] < amount {
        return Err(InsufficientBalance);
      }
      balances := balances[signer := balances[signer] - amount];
      stakes := stakes[fp := Get(stakes, fp) + amount];
      shares := shares[(signer, fp) := Get(shares, (signer, fp)) + amount];
      return Ok;
    }

    method Redelegate(owner: nat, from: nat, to: nat, amount: nat) returns (outcome: Outcome)
      modifies this`stakes, this`shares
      ensures (Value(), outcome) == RedelegateSpec(old(Value()), owner, from, to, amount)
    {
      if amount == 0 || from == to {
        return Err(InvalidShape);
      }
      if (owner, from) !in shares {
        return Err(NotFound);
      }
      var share := shares[(owner, from)];
      if share < amount {
        return Err(InsufficientBalance);
      }
      shares := if share == amount then shares - {(owner, from)} else shares[(owner, from) := share - amount];
      if from !in stakes {
        return Err(NotFound);
      }
      if stakes[from] < amount {
        return Err(InsufficientBalance);
      }
      stakes := if stakes[from] == amount then stakes - {from} else stakes[from := stakes[from] - amount];
      stakes := stakes[to := Get(stakes, to) + amount];
      shares := shares[(owner, to) := Get(shares, (owner, to)) + amount];
      return Ok;
    }

    method Slash(fp: nat)
      modifies this`stakes, this`shares, this`unbonding, this`commission, this`credits, this`registry
      ensures Value() == SlashSpec(old(Value()), fp)
    {
      hide KeepOthers;
      stakes := stakes - {fp};
      shares := map k | k in shares && k.1 != fp :: shares[k];
      unbonding := KeepOthers(unbonding, fp);
      commission := commission - {fp};
      credits := map k | k in credits && k.1 != fp :: credits[k];
      registry := registry - {fp};
    }

    method SetCommission(signer: nat, fp: nat, bps: nat) returns (outcome: Outcome)
      modifies this`commission
      ensures (Value(), outcome) == SetCommissionSpec(old(Value()), signer, fp, bps)
    {
      if bps > MAX_COMMISSION_BPS {
        return Err(InvalidShape);
      }
      var operator := FindOperator(fp);
      if operator.None? {
        return Err(NotFound);
      }
      if signer != operator.value {
        return Err(NotAuthorized);
      }
      commission := commission[fp := bps];
      return Ok;
    }

    method Withdraw(signer: nat, fp: nat)
      modifies this`credits, this`balances
      ensures Value() == WithdrawSpec(old(Value()), signer, fp)
    {
      var amount := Get(credits, (signer, fp));
      credits := credits - {(signer, fp)};
      if amount > 0 {
        balances := balances[signer := SatAdd(Get(balances, signer), amount)];
      }
    }

    method FindOperator(fp: nat) returns (operator: Option<nat>)
      ensures operator == Operator(Value(), fp)
    {
      var owners: seq<nat> := Ascending(Owners(shares, fp));
      AscendingMembers(Owners(shares, fp));
      operator := None;
      for i := 0 to |owners|
        invariant operator == LargestHolder(ShareMap(shares, fp), owners[..i])
      {
        assert owners[..i + 1][..i] == owners[..i];
        if operator.None? || Outranks(ShareMap(shares, fp), owners[i], operator.value) {
          operator := Some(owners[i]);
        }
      }
      assert owners[..|owners|] == owners;
    }

    /** `distribute_fingerprint_block_reward`. */
    method DistributeReward(fp: nat, reward: nat)
      requires reward <= U128_MAX
      modifies this`stakes, this`shares, this`credits
      ensures Value() == RewardSpec(old(Value()), fp, reward)
    {
      hide TakeCommission, Compound;
      if reward == 0 {
        return;
      }
      var total := Get(stakes, fp);
      if total == 0 {
        stakes := stakes[fp := Get(stakes, fp) + reward];
        return;
      }
      var net := ChargeCommission(fp, reward);
      CompoundNet(fp, net, total);
    }

    method ChargeCommission(fp: nat, reward: nat) returns (net: nat)
      requires reward <= U128_MAX
      modifies this`credits
      ensures (Value(), net) == TakeCommission(old(Value()), fp, reward)
      ensures net <= U128_MAX
    {
      hide Operator, FloorShare;
      var bps := Min(Get(commission, fp), MAX_COMMISSION_BPS);
      var commissionPaid := FloorShare(reward, bps, MAX_COMMISSION_BPS);
      net := SatSub(reward, commissionPaid);
      if commissionPaid > 0 {
        var operator := FindOperator(fp);
        if operator.Some? {
          credits := credits[(operator.value, fp) := Get(credits, (operator.value, fp)) + commissionPaid];
        } else {
          net := SatAdd(net, commissionPaid);
        }
      }
    }

    method CompoundNet(fp: nat, net: nat, total: nat)
      requires total == Get(stakes, fp) > 0 && net <= U128_MAX
      modifies this`stakes, this`shares
      ensures Value() == Compound(old(Value()), fp, net)
    {
      hide Split, ValuesInOrder, AddShares, Ascending, ShareMap, Owners;
      if net == 0 {
        return;
      }
      var owners: seq<nat> := Ascending(Owners(shares, fp));
      if owners != [] {
        CompoundShares(fp, net, total, owners);
      }
      stakes := stakes[fp := Get(stakes, fp) + net];
    }

    /** Each holder gets its floor share; the last one gets what is left. */
    method CompoundShares(fp: nat, net: nat, total: nat, owners: seq<nat>)
      requires total > 0 && net <= U128_MAX
      requires owners == Ascending(Owners(shares, fp)) && owners != []
      modifies this`shares
      ensures shares == AddShares(old(shares), fp, owners,
                                  Split(net, ValuesInOrder(ShareMap(old(shares), fp)), total))
    {
      var holdings: seq<nat> := ValuesInOrder(ShareMap(shares, fp));
      PayHolders(fp, net, total, owners, holdings);
    }

    method PayHolders(fp: nat, net: nat, total: nat, owners: seq<nat>, holdings: seq<nat>)
      requires total > 0 && net <= U128_MAX
      requires |owners| == |holdings| && owners != []
      modifies this`shares
      ensures shares == AddShares(old(shares), fp, owners, Split(net, holdings, total))
    {
      hide Split, FloorShare, Sum, AddShares;
      ghost var adds := Split(net, holdings, total);
      SumEmpty(adds);
      AddSharesNone(shares, fp, owners, adds);
      var given: nat := 0;
      for k := 0 to |owners|
        invariant given == Min(Sum(adds[..k]), U128_MAX)
        invariant shares == AddShares(old(shares), fp, owners[..k], adds[..k])
      {
        SplitAt(net, holdings, total, k);
        SumPrefix(adds, k);
        var add := if k + 1 == |owners| then SatSub(net, given) else FloorShare(net, holdings[k], total);
        AddSharesStep(old(shares), fp, owners, adds, k);
        given := SatAdd(given, add);
        if add > 0 {
          shares := shares[(owners[k], fp) := Get(shares, (owners[k], fp)) + add];
        }
      }
      assert owners[..|owners|] == owners && adds[..|adds|] == adds;
    }
  }

  lemma AddSharesNone(shares: map<(nat, nat), nat>, fp: nat, owners: seq<nat>, adds: seq<nat>)
    requires |owners| == |adds|
    ensures AddShares(shares, fp, owners[..0], adds[..0]) == shares
  {
  }

  lemma AddSharesStep(shares: map<(nat, nat), nat>, fp: nat, owners: seq<nat>, adds: seq<nat>, k: nat)
    requires |owners| == |adds| && k < |owners|
    ensures var before := AddShares(shares, fp, owners[..k], adds[..k]);
      AddShares(shares, fp, owners[..k + 1], adds[..k + 1])
        == if adds[k] > 0 then before[(owners[k], fp) := Get(before, (owners[k], fp)) + adds[k]] else before
  {
    assert owners[..k + 1][..k] == owners[..k] && adds[..k + 1][..k] == adds[..k];
  }

  lemma SumEmpty(s: seq<nat>)
    ensures Sum(s[..0]) == 0
  {
  }
}

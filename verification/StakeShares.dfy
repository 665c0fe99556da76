/** The share invariant of consensus stake over every run of operations. */
module StakeShares {
  import opened Arithmetic
  import opened Collections
  import opened Stake

  /** The shares of each fingerprint are positive and covered by its stake. */
  ghost predicate SharesCovered(b: StakeBook) {
    && (forall k :: k in b.shares ==> b.shares[k] > 0)
    && (forall fp :: ShareSum(b.shares, fp) <= Get(b.stakes, fp))
  }

  /** Stake that belongs to no shareholder. */
  ghost function Gap(b: StakeBook, fp: nat): int { Get(b.stakes, fp) - ShareSum(b.shares, fp) }

  // ----- how shares move -----

  lemma OwnersMember(shares: map<(nat, nat), nat>, fp: nat, o: nat)
    ensures o in Owners(shares, fp) <==> (o, fp) in shares
  {
    if (o, fp) in shares {
      assert (o, fp).1 == fp;
    }
  }

  lemma OwnersMembers(shares: map<(nat, nat), nat>, fp: nat)
    ensures forall o :: o in Owners(shares, fp) <==> (o, fp) in shares
  {
    forall o
      ensures o in Owners(shares, fp) <==> (o, fp) in shares
    {
      OwnersMember(shares, fp, o);
    }
  }

  /** Setting one share changes the share map of its own fingerprint only. */
  lemma ShareMapUpdate(shares: map<(nat, nat), nat>, owner: nat, fp: nat, v: nat, other: nat)
    ensures ShareMap(shares[(owner, fp) := v], other)
         == if other == fp then ShareMap(shares, fp)[owner := v] else ShareMap(shares, other)
  {
    OwnersMembers(shares, other);
    OwnersMembers(shares[(owner, fp) := v], other);
    hide Owners;
  }

  lemma ShareMapDrop(shares: map<(nat, nat), nat>, owner: nat, fp: nat, other: nat)
    ensures ShareMap(shares - {(owner, fp)}, other)
         == if other == fp then ShareMap(shares, fp) - {owner} else ShareMap(shares, other)
  {
    OwnersMembers(shares, other);
    OwnersMembers(shares - {(owner, fp)}, other);
    hide Owners;
  }

  lemma ShareLookup(shares: map<(nat, nat), nat>, owner: nat, fp: nat)
    ensures Get(ShareMap(shares, fp), owner) == Get(shares, (owner, fp))
  {
    OwnersMember(shares, fp, owner);
  }

  lemma ShareUpdate(shares: map<(nat, nat), nat>, owner: nat, fp: nat, v: nat, other: nat)
    ensures ShareSum(shares[(owner, fp) := v], other)
         == if other == fp then ShareSum(shares, fp) - Get(shares, (owner, fp)) + v else ShareSum(shares, other)
    ensures Get(shares, (owner, fp)) <= ShareSum(shares, fp)
  {
    ShareMapUpdate(shares, owner, fp, v, other);
    ShareLookup(shares, owner, fp);
    hide ShareMap;
    MapSumUpdate(ShareMap(shares, fp), owner, v);
  }

  lemma ShareDrop(shares: map<(nat, nat), nat>, owner: nat, fp: nat, other: nat)
    ensures ShareSum(shares - {(owner, fp)}, other)
         == if other == fp then ShareSum(shares, fp) - Get(shares, (owner, fp)) else ShareSum(shares, other)
  {
    ShareMapDrop(shares, owner, fp, other);
    ShareLookup(shares, owner, fp);
    hide ShareMap;
    MapSumDrop(ShareMap(shares, fp), owner);
  }

  lemma ShareReduce(shares: map<(nat, nat), nat>, owner: nat, fp: nat, amount: nat, other: nat)
    requires (owner, fp) in shares && amount <= shares[(owner, fp)]
    ensures ShareSum(Reduce(shares, (owner, fp), amount), other)
         == if other == fp then ShareSum(shares, fp) - amount else ShareSum(shares, other)
  {
    ShareUpdate(shares, owner, fp, shares[(owner, fp)] - amount, other);
    ShareDrop(shares, owner, fp, other);
  }

  lemma ReduceGet<K>(m: map<K, nat>, k: K, amount: nat, other: K)
    requires k in m && amount <= m[k]
    ensures Get(Reduce(m, k, amount), other) == if other == k then m[k] - amount else Get(m, other)
  {
  }

  lemma {:induction false} AddSharesSum(shares: map<(nat, nat), nat>, fp: nat, owners: seq<nat>, adds: seq<nat>,
                                        other: nat)
    requires |owners| == |adds|
    ensures ShareSum(AddShares(shares, fp, owners, adds), other)
         == ShareSum(shares, other) + if other == fp then Sum(adds) else 0
  {
    hide ShareSum;
    if owners != [] {
      var k := |owners| - 1;
      AddSharesSum(shares, fp, owners[..k], adds[..k], other);
      var before := AddShares(shares, fp, owners[..k], adds[..k]);
      ShareUpdate(before, owners[k], fp, Get(before, (owners[k], fp)) + adds[k], other);
    }
  }

  lemma {:induction false} AddSharesPositive(shares: map<(nat, nat), nat>, fp: nat, owners: seq<nat>, adds: seq<nat>)
    requires |owners| == |adds| && forall k :: k in shares ==> shares[k] > 0
    ensures forall k :: k in AddShares(shares, fp, owners, adds) ==> AddShares(shares, fp, owners, adds)[k] > 0
  {
    if owners != [] {
      AddSharesPositive(shares, fp, owners[..|owners| - 1], adds[..|owners| - 1]);
    }
  }

  // ----- deposits, redelegations, slashing -----

  lemma DepositShares(b: StakeBook, signer: nat, fp: nat, amount: nat)
    requires SharesCovered(b)
    ensures SharesCovered(DepositSpec(b, signer, fp, amount).0)
    ensures forall other :: Gap(DepositSpec(b, signer, fp, amount).0, other) == Gap(b, other)
  {
    hide ShareSum;
    var b' := DepositSpec(b, signer, fp, amount).0;
    forall other
      ensures Gap(b', other) == Gap(b, other)
    {
      ShareUpdate(b.shares, signer, fp, Get(b.shares, (signer, fp)) + amount, other);
    }
    CoveredByGaps(b, b');
  }

  lemma CoveredByGaps(b: StakeBook, b': StakeBook)
    requires SharesCovered(b)
    requires forall k :: k in b'.shares ==> b'.shares[k] > 0
    requires forall fp :: Gap(b', fp) >= Gap(b, fp)
    ensures SharesCovered(b')
  {
    hide ShareSum;
    forall fp
      ensures ShareSum(b'.shares, fp) <= Get(b'.stakes, fp)
    {
      assert Gap(b', fp) >= Gap(b, fp);
      assert ShareSum(b.shares, fp) <= Get(b.stakes, fp);
    }
  }

  /** Once its share check has passed, a redelegation cannot fail: the shares it moves are covered
      by the stake it moves. It changes no gap. */
  lemma RedelegateShares(b: StakeBook, owner: nat, from: nat, to: nat, amount: nat)
    requires SharesCovered(b)
    ensures RedelegateSpec(b, owner, from, to, amount).1.Ok? <==> RedelegateRefusal(b, owner, from, to, amount).None?
    ensures RedelegateSpec(b, owner, from, to, amount).1.Err? ==> RedelegateSpec(b, owner, from, to, amount).0 == b
    ensures SharesCovered(RedelegateSpec(b, owner, from, to, amount).0)
    ensures forall fp :: Gap(RedelegateSpec(b, owner, from, to, amount).0, fp) == Gap(b, fp)
  {
    if RedelegateRefusal(b, owner, from, to, amount).None? {
      hide ShareSum, Reduce;
      ShareUpdate(b.shares, owner, from, 0, from);
      assert ShareSum(b.shares, from) <= Get(b.stakes, from);
      forall fp
        ensures Gap(RedelegateSpec(b, owner, from, to, amount).0, fp) == Gap(b, fp)
      {
        RedelegateGap(b, owner, from, to, amount, fp);
      }
      ReducePositive(b.shares, (owner, from), amount);
      CoveredByGaps(b, RedelegateSpec(b, owner, from, to, amount).0);
    }
  }

  lemma ReducePositive<K(!new)>(m: map<K, nat>, k: K, amount: nat)
    requires k in m && amount <= m[k] && forall j :: j in m ==> m[j] > 0
    ensures forall j :: j in Reduce(m, k, amount) ==> Reduce(m, k, amount)[j] > 0
  {
  }

  lemma RedelegateGap(b: StakeBook, owner: nat, from: nat, to: nat, amount: nat, fp: nat)
    requires RedelegateRefusal(b, owner, from, to, amount).None?
    requires from in b.stakes && amount <= b.stakes[from]
    ensures Gap(RedelegateSpec(b, owner, from, to, amount).0, fp) == Gap(b, fp)
  {
    hide ShareSum, Reduce;
    var reduced := Reduce(b.shares, (owner, from), amount);
    ShareReduce(b.shares, owner, from, amount, fp);
    ShareUpdate(reduced, owner, to, Get(reduced, (owner, to)) + amount, fp);
    ReduceGet(b.stakes, from, amount, fp);
    ReduceGet(b.stakes, from, amount, to);
  }

  lemma SlashShares(b: StakeBook, fp: nat)
    requires SharesCovered(b)
    ensures SharesCovered(SlashSpec(b, fp))
    ensures Gap(SlashSpec(b, fp), fp) == 0
    ensures forall other :: other != fp ==> Gap(SlashSpec(b, fp), other) == Gap(b, other)
  {
    hide ShareSum;
    forall other
      ensures ShareSum(SlashSpec(b, fp).shares, other) == if other == fp then 0 else ShareSum(b.shares, other)
    {
      SlashedShares(b.shares, fp, other);
    }
    CoveredAfterSlash(b, SlashSpec(b, fp), fp);
  }

  lemma CoveredAfterSlash(b: StakeBook, b': StakeBook, fp: nat)
    requires SharesCovered(b) && b'.stakes == b.stakes - {fp}
    requires forall k :: k in b'.shares ==> k in b.shares && b'.shares[k] == b.shares[k]
    requires forall other :: ShareSum(b'.shares, other) == if other == fp then 0 else ShareSum(b.shares, other)
    ensures SharesCovered(b')
  {
    hide ShareSum;
    forall other
      ensures ShareSum(b'.shares, other) <= Get(b'.stakes, other)
    {
      assert ShareSum(b.shares, other) <= Get(b.stakes, other);
    }
  }

  lemma SlashedShares(shares: map<(nat, nat), nat>, fp: nat, other: nat)
    ensures var slashed := map k | k in shares && k.1 != fp :: shares[k];
      ShareSum(slashed, other) == if other == fp then 0 else ShareSum(shares, other)
  {
    var slashed := map k | k in shares && k.1 != fp :: shares[k];
    OwnersMembers(shares, other);
    OwnersMembers(slashed, other);
    hide Owners;
    if other == fp {
      assert ShareMap(slashed, other) == map[];
    } else {
      assert ShareMap(slashed, other) == ShareMap(shares, other);
    }
  }

  // ----- rewards -----

  lemma CommissionFits(b: StakeBook, fp: nat, reward: nat)
    ensures CommissionOf(b, fp, reward) <= reward
  {
    var bps := Min(Get(b.commission, fp), MAX_COMMISSION_BPS);
    FloorShareBound(reward, bps, MAX_COMMISSION_BPS);
    MulMonotone(bps, MAX_COMMISSION_BPS, reward);
  }

  lemma TakeCommissionKeeps(b: StakeBook, fp: nat, reward: nat)
    requires reward <= U128_MAX
    ensures var (b', net) := TakeCommission(b, fp, reward);
      && b' == b.(credits := b'.credits)
      && MapSum(b'.credits) + net == MapSum(b.credits) + reward
      && (Owners(b.shares, fp) == {} ==> net == reward)
      && net <= reward
  {
    hide CommissionOf, Operator, MapSum, Owners;
    var commission := CommissionOf(b, fp, reward);
    CommissionFits(b, fp, reward);
    NoOwnersNoOperator(b, fp);
    if commission > 0 && Operator(b, fp).Some? {
      var key := (Operator(b, fp).value, fp);
      MapSumUpdate(b.credits, key, Get(b.credits, key) + commission);
    }
  }

  lemma NoOwnersNoOperator(b: StakeBook, fp: nat)
    ensures Owners(b.shares, fp) == {} ==> Operator(b, fp).None?
  {
    AscendingMembers(Owners(b.shares, fp));
  }

  lemma CompoundShares(b: StakeBook, fp: nat, net: nat, other: nat)
    requires SharesCovered(b) && Get(b.stakes, fp) > 0
    ensures Gap(Compound(b, fp, net), other)
         == Gap(b, other) + if other == fp && Owners(b.shares, fp) == {} then net else 0
    ensures MapSum(Compound(b, fp, net).stakes) == MapSum(b.stakes) + net
    ensures forall k :: k in Compound(b, fp, net).shares ==> Compound(b, fp, net).shares[k] > 0
  {
    hide ShareSum;
    var owners: seq<nat> := Ascending(Owners(b.shares, fp));
    AscendingMembers(Owners(b.shares, fp));
    MapSumUpdate(b.stakes, fp, Get(b.stakes, fp) + net);
    if owners != [] && net > 0 {
      var holdings: seq<nat> := ValuesInOrder(ShareMap(b.shares, fp));
      HoldingsSum(b.shares, fp);
      SplitExact(net, holdings, Get(b.stakes, fp));
      AddSharesSum(b.shares, fp, owners, Split(net, holdings, Get(b.stakes, fp)), other);
      AddSharesPositive(b.shares, fp, owners, Split(net, holdings, Get(b.stakes, fp)));
    }
  }

  lemma HoldingsSum(shares: map<(nat, nat), nat>, fp: nat)
    ensures Sum(ValuesInOrder(ShareMap(shares, fp))) == ShareSum(shares, fp)
  {
    ValuesInOrderSum(ShareMap(shares, fp));
  }

  lemma NoStakeNoOwners(b: StakeBook, fp: nat)
    requires SharesCovered(b) && Get(b.stakes, fp) == 0
    ensures Owners(b.shares, fp) == {}
  {
    assert ShareSum(b.shares, fp) == 0;
    if o :| o in Owners(b.shares, fp) {
      OwnersMember(b.shares, fp, o);
      MapSumRemove(ShareMap(b.shares, fp), o);
    }
  }

  /** A reward reaches stake and credits to the last unit. It widens a gap only when it lands on
      a fingerprint without shareholders, and then by exactly the reward. */
  lemma RewardShares(b: StakeBook, fp: nat, reward: nat)
    requires SharesCovered(b) && reward <= U128_MAX
    ensures SharesCovered(RewardSpec(b, fp, reward))
    ensures forall other ::
      Gap(RewardSpec(b, fp, reward), other)
        == Gap(b, other) + if other == fp && Owners(b.shares, fp) == {} then reward else 0
    ensures MapSum(RewardSpec(b, fp, reward).stakes) + MapSum(RewardSpec(b, fp, reward).credits)
         == MapSum(b.stakes) + MapSum(b.credits) + reward
    ensures RewardSpec(b, fp, reward).balances == b.balances
  {
    hide ShareSum, TakeCommission, Compound, Owners;
    var b' := RewardSpec(b, fp, reward);
    if reward > 0 && Get(b.stakes, fp) == 0 {
      NoStakeNoOwners(b, fp);
      MapSumUpdate(b.stakes, fp, reward);
    } else if reward > 0 {
      TakeCommissionKeeps(b, fp, reward);
      var (b1, net) := TakeCommission(b, fp, reward);
      assert SharesCovered(b1);
      CompoundShares(b1, fp, net, fp);
      CompoundKeeps(b1, fp, net);
      forall other
        ensures Gap(b', other) == Gap(b, other) + if other == fp && Owners(b.shares, fp) == {} then reward else 0
      {
        CompoundShares(b1, fp, net, other);
        assert Gap(b1, other) == Gap(b, other);
      }
    }
    CoveredByGaps(b, b');
  }

  lemma CompoundKeeps(b: StakeBook, fp: nat, net: nat)
    requires Get(b.stakes, fp) > 0
    ensures Compound(b, fp, net).credits == b.credits && Compound(b, fp, net).balances == b.balances
  {
  }

  // ----- runs -----

  datatype StakeOp =
    | Deposit(signer: nat, fp: nat, amount: nat)
    | Redelegate(owner: nat, from: nat, to: nat, moved: nat)
    | Reward(rewarded: nat, reward: nat)
    | Slash(slashed: nat)
    | SetCommission(setter: nat, commissioned: nat, bps: nat)

  function Step(b: StakeBook, op: StakeOp): StakeBook {
    match op
    case Deposit(signer, fp, amount) => DepositSpec(b, signer, fp, amount).0
    case Redelegate(owner, from, to, amount) => RedelegateSpec(b, owner, from, to, amount).0
    case Reward(fp, reward) => RewardSpec(b, fp, reward)
    case Slash(fp) => SlashSpec(b, fp)
    case SetCommission(signer, fp, bps) => SetCommissionSpec(b, signer, fp, bps).0
  }

  function Run(b: StakeBook, ops: seq<StakeOp>): StakeBook {
    if ops == [] then b else Step(Run(b, ops[..|ops| - 1]), ops[|ops| - 1])
  }

  /** The reward that an operation leaves without an owner at `fp`. */
  function Unowned(b: StakeBook, op: StakeOp, fp: nat): nat {
    if op.Reward? && op.rewarded == fp && Owners(b.shares, fp) == {} then op.reward else 0
  }

  predicate InRange(op: StakeOp) { op.Reward? ==> op.reward <= U128_MAX }

  lemma StepShares(b: StakeBook, op: StakeOp, fp: nat)
    requires SharesCovered(b) && InRange(op)
    ensures SharesCovered(Step(b, op))
    ensures Gap(Step(b, op), fp) == if op == Slash(fp) then 0 else Gap(b, fp) + Unowned(b, op, fp)
  {
    hide DepositSpec, RedelegateSpec, RewardSpec, SlashSpec, SetCommissionSpec, Owners, ShareSum;
    match op
    case Deposit(signer, f, amount) => DepositShares(b, signer, f, amount);
    case Redelegate(owner, from, to, amount) => RedelegateShares(b, owner, from, to, amount);
    case Reward(f, reward) => RewardShares(b, f, reward);
    case Slash(f) => SlashShares(b, f);
    case SetCommission(signer, f, bps) => CommissionShares(b, signer, f, bps);
  }

  lemma CommissionShares(b: StakeBook, signer: nat, fp: nat, bps: nat)
    ensures var b' := SetCommissionSpec(b, signer, fp, bps).0;
      b'.shares == b.shares && b'.stakes == b.stakes
  {
    hide Operator;
  }

  ghost function UnownedTotal(b: StakeBook, ops: seq<StakeOp>, fp: nat): nat {
    if ops == [] then 0
    else
      var k := |ops| - 1;
      UnownedTotal(b, ops[..k], fp) + Unowned(Run(b, ops[..k]), ops[k], fp)
  }

  /** Over every run of deposits, redelegations, rewards, slashes and commission changes the
      shares stay covered, and a gap never exceeds where it started plus the rewards that fell on
      the fingerprint while nobody held a share. */
  lemma {:induction false} SharesAlwaysCovered(b: StakeBook, ops: seq<StakeOp>, fp: nat)
    requires SharesCovered(b)
    requires forall i :: 0 <= i < |ops| ==> InRange(ops[i])
    ensures SharesCovered(Run(b, ops))
    ensures 0 <= Gap(Run(b, ops), fp) <= Gap(b, fp) + UnownedTotal(b, ops, fp)
    ensures (forall i :: 0 <= i < |ops| ==> ops[i] != Slash(fp))
        ==> Gap(Run(b, ops), fp) == Gap(b, fp) + UnownedTotal(b, ops, fp)
  {
    hide Step, Unowned, ShareSum;
    if ops != [] {
      var k := |ops| - 1;
      SharesAlwaysCovered(b, ops[..k], fp);
      StepShares(Run(b, ops[..k]), ops[k], fp);
    }
  }
}

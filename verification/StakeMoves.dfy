/** Who gains and who loses by each staking operation, owner by owner. */
module StakeMoves {
  import opened Arithmetic
  import opened Collections
  import opened Stake
  import opened StakeShares

  // ----- deposits, redelegations, withdrawals -----

  /** A deposit moves the amount from the signer's balance to the stake of the fingerprint and to the
      signer's share of it. */
  lemma DepositMoves(b: StakeBook, signer: nat, fp: nat, amount: nat)
    ensures var (b', outcome) := DepositSpec(b, signer, fp, amount);
      if outcome.Err? then
        && b' == b && (amount == 0 || signer !in b.balances || b.balances[signer] < amount)
      else
        && amount > 0 && amount <= Get(b.balances, signer)
        && b' == b.(balances := b'.balances, stakes := b'.stakes, shares := b'.shares)
        && Get(b'.balances, signer) == Get(b.balances, signer) - amount
        && Get(b'.stakes, fp) == Get(b.stakes, fp) + amount
        && Get(b'.shares, (signer, fp)) == Get(b.shares, (signer, fp)) + amount
        && (forall a :: a != signer ==> Get(b'.balances, a) == Get(b.balances, a))
        && (forall f :: f != fp ==> Get(b'.stakes, f) == Get(b.stakes, f))
        && (forall k :: k != (signer, fp) ==> Get(b'.shares, k) == Get(b.shares, k))
  {
  }

  /** A redelegation moves the amount between two shares of the same owner and between the two
      stakes, and leaves every other share and stake alone. */
  lemma RedelegateMoves(b: StakeBook, owner: nat, from: nat, to: nat, amount: nat)
    requires RedelegateSpec(b, owner, from, to, amount).1.Ok?
    ensures var b' := RedelegateSpec(b, owner, from, to, amount).0;
      && from != to && 0 < amount <= Get(b.shares, (owner, from))
      && b' == b.(stakes := b'.stakes, shares := b'.shares)
      && Get(b'.shares, (owner, from)) == Get(b.shares, (owner, from)) - amount
      && Get(b'.shares, (owner, to)) == Get(b.shares, (owner, to)) + amount
      && Get(b'.stakes, from) == Get(b.stakes, from) - amount
      && Get(b'.stakes, to) == Get(b.stakes, to) + amount
      && (forall k :: k != (owner, from) && k != (owner, to) ==> Get(b'.shares, k) == Get(b.shares, k))
      && (forall f :: f != from && f != to ==> Get(b'.stakes, f) == Get(b.stakes, f))
      && (b.shares[(owner, from)] == amount ==> (owner, from) !in b'.shares)
  {
  }

  /** A withdrawal pays the signer's own credit of the fingerprint and clears it. */
  lemma WithdrawMoves(b: StakeBook, signer: nat, fp: nat)
    requires Get(b.balances, signer) + Get(b.credits, (signer, fp)) <= U128_MAX
    ensures var b' := WithdrawSpec(b, signer, fp);
      && b' == b.(balances := b'.balances, credits := b'.credits)
      && Get(b'.balances, signer) == Get(b.balances, signer) + Get(b.credits, (signer, fp))
      && (forall a :: a != signer ==> Get(b'.balances, a) == Get(b.balances, a))
      && b'.credits == b.credits - {(signer, fp)}
  {
  }

  // ----- slashing and commission rates -----

  /** How often an entry stands in the queue. */
  function Count(queue: seq<UnbondEntry>, e: UnbondEntry): nat {
    if queue == [] then 0 else Count(queue[..|queue| - 1], e) + if queue[|queue| - 1] == e then 1 else 0
  }

  lemma CountSnoc(queue: seq<UnbondEntry>, last: UnbondEntry, e: UnbondEntry)
    ensures Count(queue + [last], e) == Count(queue, e) + if last == e then 1 else 0
  {
    assert (queue + [last])[..|queue|] == queue;
  }

  lemma {:induction false} KeptCount(queue: seq<UnbondEntry>, fp: nat, e: UnbondEntry)
    ensures Count(KeepOthers(queue, fp), e) == if e.fp == fp then 0 else Count(queue, e)
  {
    if queue != [] {
      var k := |queue| - 1;
      KeptCount(queue[..k], fp, e);
      CountSnoc(KeepOthers(queue[..k], fp), queue[k], e);
      assert KeepOthers(queue[..k], fp) + [] == KeepOthers(queue[..k], fp);
    }
  }

  /** A slash wipes out the fingerprint: its stake, shares, credits, rate, registration and queued
      entries; whatever belongs to another fingerprint, and every balance, stays. */
  lemma SlashMoves(b: StakeBook, fp: nat, e: UnbondEntry)
    ensures var b' := SlashSpec(b, fp);
      && b'.balances == b.balances
      && (forall f :: Get(b'.stakes, f) == if f == fp then 0 else Get(b.stakes, f))
      && (forall k :: Get(b'.shares, k) == if k.1 == fp then 0 else Get(b.shares, k))
      && (forall k :: Get(b'.credits, k) == if k.1 == fp then 0 else Get(b.credits, k))
      && (forall f :: Get(b'.commission, f) == if f == fp then 0 else Get(b.commission, f))
      && (forall f :: f in b'.registry <==> f in b.registry && f != fp)
      && Count(b'.unbonding, e) == if e.fp == fp then 0 else Count(b.unbonding, e)
  {
    KeptCount(b.unbonding, fp, e);
    hide KeepOthers, Count;
  }

  // ----- rewards -----

  /** No holder of the fingerprint has a larger share, or an equal one and a larger address. */
  ghost predicate LeadsHolders(shares: map<(nat, nat), nat>, fp: nat, op: nat) {
    && (op, fp) in shares
    && forall o :: (o, fp) in shares && o != op ==>
         shares[(o, fp)] < shares[(op, fp)] || (shares[(o, fp)] == shares[(op, fp)] && o < op)
  }

  lemma OperatorLeads(b: StakeBook, fp: nat, op: nat)
    requires LeadsHolders(b.shares, fp, op)
    ensures Operator(b, fp) == Some(op)
  {
    OwnersMembers(b.shares, fp);
    OperatorIsLargest(b, fp, op);
    hide Operator;
  }

  /** Some holder leads, if there is one at all. */
  lemma SomeoneLeads(b: StakeBook, fp: nat, o: nat) returns (op: nat)
    requires (o, fp) in b.shares
    ensures LeadsHolders(b.shares, fp, op)
  {
    OwnersMembers(b.shares, fp);
    OperatorIsLargest(b, fp, o);
    op := Operator(b, fp).value;
    forall o' | (o', fp) in b.shares && o' != op
      ensures b.shares[(o', fp)] < b.shares[(op, fp)] || (b.shares[(o', fp)] == b.shares[(op, fp)] && o' < op)
    {
      OperatorIsLargest(b, fp, o');
    }
  }

  /** A rate is set exactly by the leading holder and exactly up to the whole, for its fingerprint only. */
  lemma CommissionSet(b: StakeBook, signer: nat, fp: nat, bps: nat)
    ensures var (b', outcome) := SetCommissionSpec(b, signer, fp, bps);
      && (outcome.Ok? <==> bps <= 10_000 && LeadsHolders(b.shares, fp, signer))
      && b' == if outcome.Ok? then b.(commission := b.commission[fp := bps]) else b
  {
    OwnersMembers(b.shares, fp);
    NoOwnersNoOperator(b, fp);
    if LeadsHolders(b.shares, fp, signer) {
      OperatorLeads(b, fp, signer);
    }
    if o :| (o, fp) in b.shares {
      var op := SomeoneLeads(b, fp, o);
      OperatorLeads(b, fp, op);
    }
    hide Operator;
  }

  lemma {:induction false} AddSharesAt(shares: map<(nat, nat), nat>, fp: nat, owners: seq<nat>, adds: seq<nat>)
    requires |owners| == |adds| && StrictlyAscending(owners)
    requires forall i :: 0 <= i < |owners| ==> (owners[i], fp) in shares
    ensures var shares' := AddShares(shares, fp, owners, adds);
      && shares'.Keys == shares.Keys
      && (forall i :: 0 <= i < |owners| ==> shares'[(owners[i], fp)] == shares[(owners[i], fp)] + adds[i])
      && (forall k :: k in shares && (k.1 != fp || k.0 !in owners) ==> shares'[k] == shares[k])
  {
    if owners != [] {
      var k := |owners| - 1;
      AddSharesAt(shares, fp, owners[..k], adds[..k]);
      var before := AddShares(shares, fp, owners[..k], adds[..k]);
      assert owners[k] !in owners[..k];
      assert before[(owners[k], fp)] == shares[(owners[k], fp)];
      assert forall i :: 0 <= i < k ==> owners[..k][i] == owners[i] && adds[..k][i] == adds[i];
    }
  }

  /** The owners in order, each with its own share as its weight. */
  lemma HolderAt(shares: map<(nat, nat), nat>, fp: nat, o: nat) returns (i: nat)
    requires (o, fp) in shares
    ensures var owners, held := Ascending(Owners(shares, fp)), ValuesInOrder(ShareMap(shares, fp));
      && i < |owners| == |held| && owners[i] == o && held[i] == shares[(o, fp)]
      && (i + 1 == |owners| <==> forall o' :: (o', fp) in shares ==> o' <= o)
  {
    OwnersMembers(shares, fp);
    AscendingMembers(Owners(shares, fp));
    AscendingSorted(Owners(shares, fp));
    var owners: seq<nat> := Ascending(Owners(shares, fp));
    hide Ascending, Owners;
    i :| 0 <= i < |owners| && owners[i] == o;
    if i + 1 < |owners| {
      assert owners[i + 1] in owners;
      assert (owners[i + 1], fp) in shares;
    }
    forall o' | (o', fp) in shares
      ensures i + 1 == |owners| ==> o' <= o
    {
      assert o' in owners;
    }
  }

  lemma HoldersListed(shares: map<(nat, nat), nat>, fp: nat)
    ensures var owners: seq<nat> := Ascending(Owners(shares, fp));
      && StrictlyAscending(owners)
      && (forall i :: 0 <= i < |owners| ==> (owners[i], fp) in shares)
      && (forall o :: (o, fp) in shares <==> o in owners)
      && |owners| == |ValuesInOrder(ShareMap(shares, fp))|
  {
    OwnersMembers(shares, fp);
    AscendingMembers(Owners(shares, fp));
    AscendingSorted(Owners(shares, fp));
    var owners: seq<nat> := Ascending(Owners(shares, fp));
    hide Ascending, Owners;
    assert forall i :: 0 <= i < |owners| ==> owners[i] in owners;
  }

  /** Some holder has a larger address. */
  ghost predicate NotLast(shares: map<(nat, nat), nat>, fp: nat, o: nat) {
    exists o' :: o < o' && (o', fp) in shares
  }

  /** The floor of `net` times the share over the stake, the product capped as a `u128`. */
  function Proportional(net: nat, share: nat, stake: nat): nat {
    if stake == 0 then 0 else Min(net * share, U128_MAX) / stake
  }

  /** Each holder but the one of the largest address gains in proportion to its own share; nobody
      joins or leaves, and nothing moves at another fingerprint. */
  ghost predicate GrowsInProportion(shares: map<(nat, nat), nat>, shares': map<(nat, nat), nat>, fp: nat,
                                    net: nat, stake: nat) {
    && shares'.Keys == shares.Keys
    && (forall k :: k in shares && k.1 != fp ==> Get(shares', k) == Get(shares, k))
    && (forall o :: (o, fp) in shares && NotLast(shares, fp, o) ==>
          Get(shares', (o, fp)) == Get(shares, (o, fp)) + Proportional(net, Get(shares, (o, fp)), stake))
  }

  lemma HolderGain(shares: map<(nat, nat), nat>, fp: nat, net: nat, stake: nat, o: nat)
    requires stake > 0 && (o, fp) in shares && NotLast(shares, fp, o)
    requires |ValuesInOrder(ShareMap(shares, fp))| == |Ascending(Owners(shares, fp))|
    ensures var owners: seq<nat> := Ascending(Owners(shares, fp));
      Get(AddShares(shares, fp, owners, Split(net, ValuesInOrder(ShareMap(shares, fp)), stake)), (o, fp))
        == Get(shares, (o, fp)) + Proportional(net, Get(shares, (o, fp)), stake)
  {
    HoldersListed(shares, fp);
    var i := HolderAt(shares, fp, o);
    hide AddShares, Split, Ascending, ValuesInOrder, ShareMap, Owners, Sum;
    var owners: seq<nat> := Ascending(Owners(shares, fp));
    var held: seq<nat> := ValuesInOrder(ShareMap(shares, fp));
    AddSharesAt(shares, fp, owners, Split(net, held, stake));
    SplitAt(net, held, stake, i);
  }

  lemma CompoundMoves(b: StakeBook, fp: nat, net: nat)
    requires Get(b.stakes, fp) > 0 && exists o :: (o, fp) in b.shares
    ensures var b' := Compound(b, fp, net);
      && b' == b.(stakes := b.stakes[fp := Get(b.stakes, fp) + net], shares := b'.shares)
      && GrowsInProportion(b.shares, b'.shares, fp, net, Get(b.stakes, fp))
  {
    var stake := Get(b.stakes, fp);
    HoldersListed(b.shares, fp);
    var owners: seq<nat> := Ascending(Owners(b.shares, fp));
    var held: seq<nat> := ValuesInOrder(ShareMap(b.shares, fp));
    hide AddShares, Split, Ascending, ValuesInOrder, ShareMap, Owners, Sum, Proportional;
    if net == 0 {
      forall share: nat
        ensures Proportional(0, share, stake) == 0
      {
        NothingShared(share, stake);
      }
      assert b.stakes[fp := Get(b.stakes, fp) + 0] == b.stakes;
    } else {
      AddSharesAt(b.shares, fp, owners, Split(net, held, stake));
      forall o | (o, fp) in b.shares && NotLast(b.shares, fp, o)
        ensures Get(Compound(b, fp, net).shares, (o, fp))
             == Get(b.shares, (o, fp)) + Proportional(net, Get(b.shares, (o, fp)), stake)
      {
        HolderGain(b.shares, fp, net, stake, o);
      }
    }
  }

  lemma NothingShared(share: nat, stake: nat)
    ensures Proportional(0, share, stake) == 0
  {
  }

  /** The floor of the reward times the commission rate, which counts as at most the whole. */
  function CommissionDue(b: StakeBook, fp: nat, reward: nat): nat {
    Min(reward * Min(Get(b.commission, fp), 10_000), U128_MAX) / 10_000
  }

  /** The commission goes to the leading holder of the fingerprint and to no other credit. */
  lemma CommissionMoves(b: StakeBook, fp: nat, reward: nat, op: nat)
    requires LeadsHolders(b.shares, fp, op) && reward <= U128_MAX
    ensures var commission := CommissionDue(b, fp, reward);
      var (b', net) := TakeCommission(b, fp, reward);
      && commission <= reward && net == reward - commission
      && b' == b.(credits := b'.credits)
      && b'.credits == (if commission == 0 then b.credits
                        else b.credits[(op, fp) := Get(b.credits, (op, fp)) + commission])
  {
    OperatorLeads(b, fp, op);
    CommissionFits(b, fp, reward);
    hide Operator;
  }

  /** What every owner gets out of a reward on a fingerprint with shareholders: the leading holder is
      credited the commission; of the rest, each holder's share grows by its floor proportion of the
      stake, and the largest address takes what is left, since all shares together grow by all of it.
      Nothing moves at any other fingerprint. */
  lemma OwnersPaid(b: StakeBook, fp: nat, reward: nat, op: nat)
    requires SharesCovered(b) && 0 < reward <= U128_MAX && LeadsHolders(b.shares, fp, op)
    ensures var commission := CommissionDue(b, fp, reward);
      var b' := RewardSpec(b, fp, reward);
      && commission <= reward && Get(b.stakes, fp) > 0
      && b'.credits == (if commission == 0 then b.credits
                        else b.credits[(op, fp) := Get(b.credits, (op, fp)) + commission])
      && b'.stakes == b.stakes[fp := Get(b.stakes, fp) + (reward - commission)]
      && GrowsInProportion(b.shares, b'.shares, fp, reward - commission, Get(b.stakes, fp))
      && ShareSum(b'.shares, fp) == ShareSum(b.shares, fp) + (reward - commission)
  {
    hide TakeCommission, Compound, Owners, GrowsInProportion, SharesCovered, CommissionDue, RewardSpec;
    HolderHasStake(b, fp, op);
    CommissionMoves(b, fp, reward, op);
    RewardInSteps(b, fp, reward);
    var (b1, net) := TakeCommission(b, fp, reward);
    assert (op, fp) in b1.shares;
    hide LeadsHolders;
    CompoundMoves(b1, fp, net);
    SharesGrowBy(b, fp, reward, op, net);
  }

  lemma RewardInSteps(b: StakeBook, fp: nat, reward: nat)
    requires reward > 0 && Get(b.stakes, fp) > 0
    ensures Get(TakeCommission(b, fp, reward).0.stakes, fp) > 0
    ensures RewardSpec(b, fp, reward) == Compound(TakeCommission(b, fp, reward).0, fp, TakeCommission(b, fp, reward).1)
  {
    hide Compound, CommissionOf, Operator;
  }

  lemma SharesGrowBy(b: StakeBook, fp: nat, reward: nat, o: nat, net: nat)
    requires SharesCovered(b) && reward <= U128_MAX && (o, fp) in b.shares
    requires Get(RewardSpec(b, fp, reward).stakes, fp) == Get(b.stakes, fp) + net
    ensures ShareSum(RewardSpec(b, fp, reward).shares, fp) == ShareSum(b.shares, fp) + net
  {
    hide ShareSum, RewardSpec, Owners, SharesCovered;
    RewardShares(b, fp, reward);
    OwnersMember(b.shares, fp, o);
    assert Gap(RewardSpec(b, fp, reward), fp) == Gap(b, fp);
  }

  lemma HolderHasStake(b: StakeBook, fp: nat, o: nat)
    requires SharesCovered(b) && (o, fp) in b.shares
    ensures Get(b.stakes, fp) > 0
  {
    ShareUpdate(b.shares, o, fp, 0, fp);
    assert ShareSum(b.shares, fp) <= Get(b.stakes, fp);
  }

  /** Without shareholders the whole reward is stake of the fingerprint and nobody is credited. */
  lemma UnownedReward(b: StakeBook, fp: nat, reward: nat)
    requires 0 < reward <= U128_MAX && forall o :: (o, fp) !in b.shares
    ensures RewardSpec(b, fp, reward) == b.(stakes := b.stakes[fp := Get(b.stakes, fp) + reward])
  {
    OwnersMembers(b.shares, fp);
    NoOwnersNoOperator(b, fp);
    CommissionFits(b, fp, reward);
    AscendingMembers(Owners(b.shares, fp));
    hide Operator, CommissionOf;
  }
}

/** Who is paid by a finalized block, and how much: unbonding owners, and validators fingerprint by
    fingerprint. */
module BlockPayees {
  import opened Arithmetic
  import opened Collections
  import opened Stake
  import opened StakeShares
  import opened StakeMoves
  import opened Finalize
  import Validators

  // ----- unbonding -----

  /** What the entries of `owner` add up to. */
  function OwnedAmount(entries: seq<UnbondEntry>, owner: nat): nat {
    if entries == [] then 0
    else (if entries[0].owner == owner then entries[0].amount else 0) + OwnedAmount(entries[1..], owner)
  }

  lemma {:induction false} OwnedAppend(entries: seq<UnbondEntry>, e: UnbondEntry, owner: nat)
    ensures OwnedAmount(entries + [e], owner)
         == OwnedAmount(entries, owner) + if e.owner == owner then e.amount else 0
  {
    if entries == [] {
      assert entries + [e] == [e];
    } else {
      OwnedAppend(entries[1..], e, owner);
      assert (entries + [e])[1..] == entries[1..] + [e];
    }
  }

  lemma {:induction false} PaidToOwner(balances: map<nat, nat>, entries: seq<UnbondEntry>, owner: nat)
    requires Get(balances, owner) <= U128_MAX
    ensures Get(PayAll(balances, entries), owner)
         == Min(Get(balances, owner) + OwnedAmount(entries, owner), U128_MAX)
  {
    if entries != [] {
      var k := |entries| - 1;
      PaidToOwner(balances, entries[..k], owner);
      OwnedAppend(entries[..k], entries[k], owner);
      assert entries == entries[..k] + [entries[k]];
    }
  }

  /** A block pays each owner exactly its own due entries, to the limit of a `u128`. */
  lemma OwnersUnbonded(b: StakeBook, now: nat, period: nat, owner: nat)
    requires Get(b.balances, owner) <= U128_MAX
    ensures var b' := UnbondPhase(b, now, period);
      && b' == b.(balances := b'.balances, unbonding := b'.unbonding)
      && Get(b'.balances, owner)
           == Min(Get(b.balances, owner) + OwnedAmount(Matured(b.unbonding, now), owner), U128_MAX)
  {
    hide PayAll, Matured, Remaining, OwnedAmount;
    PaidToOwner(b.balances, Matured(b.unbonding, now), owner);
  }

  // ----- what a fingerprint is worth -----

  /** The stake of a fingerprint and all reward credits on it. */
  ghost function Worth(b: StakeBook, fp: nat): nat { Get(b.stakes, fp) + ShareSum(b.credits, fp) }

  /** A reward on a fingerprint is worth itself there and nothing elsewhere. */
  lemma RewardWorth(b: StakeBook, fp: nat, reward: nat, other: nat)
    requires SharesCovered(b) && reward <= U128_MAX
    ensures Worth(RewardSpec(b, fp, reward), other) == Worth(b, other) + if other == fp then reward else 0
  {
    hide ShareSum, SharesCovered, RewardSpec, LeadsHolders, GrowsInProportion, CommissionDue;
    if reward == 0 {
      NoReward(b, fp);
    } else if o :| (o, fp) in b.shares {
      var op := SomeoneLeads(b, fp, o);
      OwnersPaid(b, fp, reward, op);
      ShareUpdate(b.credits, op, fp, Get(b.credits, (op, fp)) + CommissionDue(b, fp, reward), other);
    } else {
      UnownedReward(b, fp, reward);
    }
  }

  lemma NoReward(b: StakeBook, fp: nat)
    ensures RewardSpec(b, fp, 0) == b
  {
  }

  /** What the first `k` parts bring to `fp`. */
  function Received(fps: seq<nat>, order: seq<nat>, parts: seq<nat>, k: nat, fp: nat): nat
    requires k <= |order| == |parts|
  {
    if k == 0 then 0
    else
      Received(fps, order, parts, k - 1, fp)
      + if order[k - 1] < |fps| && fps[order[k - 1]] == fp then parts[k - 1] else 0
  }

  lemma {:induction false} PartsWorth(b: StakeBook, fps: seq<nat>, order: seq<nat>, parts: seq<nat>, k: nat, fp: nat)
    requires SharesCovered(b) && k <= |order| == |parts|
    requires forall i :: 0 <= i < |parts| ==> parts[i] <= U128_MAX
    requires forall i :: 0 <= i < k ==> order[i] < |fps|
    ensures PayParts(b, fps, order, parts, k).1.Ok? && SharesCovered(PayParts(b, fps, order, parts, k).0)
    ensures Worth(PayParts(b, fps, order, parts, k).0, fp) == Worth(b, fp) + Received(fps, order, parts, k, fp)
  {
    hide RewardSpec, SharesCovered, Worth;
    if k > 0 {
      PartsWorth(b, fps, order, parts, k - 1, fp);
      var before := PayParts(b, fps, order, parts, k - 1).0;
      RewardShares(before, fps[order[k - 1]], parts[k - 1]);
      RewardWorth(before, fps[order[k - 1]], parts[k - 1], fp);
    }
  }

  ghost predicate Distinct(fps: seq<nat>) {
    forall i, j :: 0 <= i < j < |fps| ==> fps[i] != fps[j]
  }

  /** Over distinct fingerprints and indices, each fingerprint receives the one part of its index. */
  lemma {:induction false} ReceivedOnce(fps: seq<nat>, order: seq<nat>, parts: seq<nat>, k: nat, i: nat)
    requires Distinct(fps) && StrictlyAscending(order) && k <= |order| == |parts| && i < |fps|
    ensures forall j :: 0 <= j < k && order[j] == i ==> Received(fps, order, parts, k, fps[i]) == parts[j]
    ensures i !in order[..k] ==> Received(fps, order, parts, k, fps[i]) == 0
  {
    if k > 0 {
      ReceivedOnce(fps, order, parts, k - 1, i);
      assert order[..k] == order[..k - 1] + [order[k - 1]];
      if order[k - 1] == i {
        assert i !in order[..k - 1];
      }
    }
  }

  lemma {:induction false} ReceivedNothing(fps: seq<nat>, order: seq<nat>, parts: seq<nat>, k: nat, fp: nat)
    requires k <= |order| == |parts| && fp !in fps
    ensures Received(fps, order, parts, k, fp) == 0
  {
    if k > 0 {
      ReceivedNothing(fps, order, parts, k - 1, fp);
    }
  }

  // ----- who is paid, and how much -----

  /** The known signers of the parent certificate and the proposer. */
  ghost function Payees(ctx: Context): set<nat> {
    set i | 0 <= i < |ctx.fingerprints| && (i in ctx.signers || ctx.fingerprints[i] == ctx.proposer)
  }

  /** A validator weighs its stake, and at least one. */
  function WeightsOf(b: StakeBook, fps: seq<nat>): (r: seq<nat>)
    ensures |r| == |fps|
  {
    seq(|fps|, i requires 0 <= i < |fps| => if Get(b.stakes, fps[i]) == 0 then 1 else Get(b.stakes, fps[i]))
  }

  /** The floor of the reward times each weight over the weight of all payees. */
  ghost function FloorDues(b: StakeBook, ctx: Context): (r: seq<nat>)
    ensures |r| == |ctx.fingerprints|
  {
    var w := WeightsOf(b, ctx.fingerprints);
    var total := Validators.Weight(Payees(ctx), w);
    seq(|w|, i requires 0 <= i < |w| => Proportional(ctx.reward, w[i], total))
  }

  /** What validator `i` is due: nothing if it is no payee, its floor share if a payee comes after it,
      and what the other payees leave if it is the last. */
  ghost function Due(b: StakeBook, ctx: Context, i: nat): int
    requires i < |ctx.fingerprints|
  {
    if i !in Payees(ctx) then 0
    else if exists j :: j in Payees(ctx) && i < j then FloorDues(b, ctx)[i]
    else ctx.reward - Validators.Weight(Payees(ctx) - {i}, FloorDues(b, ctx))
  }

  lemma {:induction false} PositionFound(fps: seq<nat>, fp: nat)
    ensures PositionOf(fps, fp).None? ==> fp !in fps
  {
    if fps != [] {
      PositionFound(fps[1..], fp);
    }
  }

  lemma RewardedArePayees(ctx: Context)
    requires Distinct(ctx.fingerprints) && forall s :: s in ctx.signers ==> s < |ctx.fingerprints|
    ensures Rewarded(ctx) == Payees(ctx)
  {
    PositionFound(ctx.fingerprints, ctx.proposer);
  }

  /** Listing the elements of a set in order and adding up their weights gives the set's weight. */
  lemma {:induction false} ListedWeight(order: seq<nat>, values: seq<nat>, w: seq<nat>)
    requires StrictlyAscending(order) && |values| == |order|
    requires forall j :: 0 <= j < |order| ==> order[j] < |w| && values[j] == w[order[j]]
    ensures Sum(values) == Validators.Weight(Elements(order), w)
  {
    hide Validators.Weight;
    if order == [] {
      assert Elements(order) == {};
      Validators.WeightEmpty(w);
    } else {
      var k := |order| - 1;
      ListedWeight(order[..k], values[..k], w);
      PrefixSet(order, k);
      assert order[..k + 1] == order;
      assert order[k] !in Elements(order[..k]);
      Validators.WeightAdd(Elements(order[..k]), order[k], w);
    }
  }

  lemma OrderOf(ctx: Context)
    requires Rewarded(ctx) == Payees(ctx)
    ensures var order: seq<nat> := RewardOrder(ctx);
      && StrictlyAscending(order) && Elements(order) == Payees(ctx) && |order| == |Payees(ctx)|
      && forall j :: 0 <= j < |order| ==> order[j] < |ctx.fingerprints| && order[j] in Payees(ctx)
  {
    AscendingMembers(Rewarded(ctx));
    AscendingSorted(Rewarded(ctx));
    var order: seq<nat> := RewardOrder(ctx);
    assert order == Ascending(Rewarded(ctx));
    hide RewardOrder, Rewarded, Ascending;
    forall j | 0 <= j < |order|
      ensures order[j] < |ctx.fingerprints| && order[j] in Payees(ctx)
    {
      assert order[j] in order;
    }
  }

  /** The code's total is the weight of the payees. */
  lemma TotalIsWeight(b: StakeBook, ctx: Context)
    requires Rewarded(ctx) == Payees(ctx) && Payees(ctx) != {}
    requires Validators.Weight(Payees(ctx), WeightsOf(b, ctx.fingerprints)) <= U128_MAX
    ensures Sum(EffectiveStakes(b, ctx.fingerprints, RewardOrder(ctx))) <= U128_MAX
    ensures TotalEffective(b, ctx.fingerprints, RewardOrder(ctx))
         == Validators.Weight(Payees(ctx), WeightsOf(b, ctx.fingerprints))
  {
    OrderOf(ctx);
    hide RewardOrder, Rewarded, Payees, Validators.Weight, Sum;
    var order: seq<nat> := RewardOrder(ctx);
    var eff := EffectiveStakes(b, ctx.fingerprints, order);
    ListedWeight(order, eff, WeightsOf(b, ctx.fingerprints));
    assert order != [] by {
      assert |order| == |Payees(ctx)|;
    }
    SumElementBound(eff, 0);
  }

  lemma DueEarly(b: StakeBook, ctx: Context, i: nat, j: nat)
    requires i in Payees(ctx) && j in Payees(ctx) && i < j
    ensures Due(b, ctx, i) == FloorDues(b, ctx)[i]
  {
    hide FloorDues, Payees, Validators.Weight;
    assert i < |ctx.fingerprints| by {
      PayeeKnown(ctx, i);
    }
  }

  lemma DueLast(b: StakeBook, ctx: Context, i: nat)
    requires i in Payees(ctx) && forall j :: j in Payees(ctx) ==> j <= i
    ensures Due(b, ctx, i) == ctx.reward - Validators.Weight(Payees(ctx) - {i}, FloorDues(b, ctx))
  {
    hide FloorDues, Payees, Validators.Weight;
    assert i < |ctx.fingerprints| by {
      PayeeKnown(ctx, i);
    }
  }

  lemma PayeeKnown(ctx: Context, i: nat)
    ensures i in Payees(ctx) ==> i < |ctx.fingerprints|
  {
  }

  /** Each part of the reward is what its validator is due. */
  lemma PartIsDue(b: StakeBook, ctx: Context, j: nat)
    requires Rewarded(ctx) == Payees(ctx) && j < |RewardOrder(ctx)|
    requires Validators.Weight(Payees(ctx), WeightsOf(b, ctx.fingerprints)) <= U128_MAX
    ensures RewardOrder(ctx)[j] < |ctx.fingerprints|
    ensures RewardParts(b, ctx)[j] == Due(b, ctx, RewardOrder(ctx)[j])
  {
    hide RewardParts, EffectiveStakes, TotalEffective, Split, RewardOrder, Rewarded, Validators.Weight, Sum;
    hide Due, FloorDues, WeightsOf, Payees, Elements;
    OrderOf(ctx);
    var order: seq<nat> := RewardOrder(ctx);
    assert order[j] in Payees(ctx);
    TotalIsWeight(b, ctx);
    if j + 1 < |order| {
      PartAt(b, ctx, j);
      assert order[j + 1] in Payees(ctx);
      DueEarly(b, ctx, order[j], order[j + 1]);
    } else {
      LastPayee(ctx, order, j);
      DueLast(b, ctx, order[j]);
      LastPart(b, ctx, j);
    }
  }

  lemma LastPart(b: StakeBook, ctx: Context, j: nat)
    requires Rewarded(ctx) == Payees(ctx) && j + 1 == |RewardOrder(ctx)|
    requires Sum(EffectiveStakes(b, ctx.fingerprints, RewardOrder(ctx))) <= U128_MAX
    requires TotalEffective(b, ctx.fingerprints, RewardOrder(ctx))
          == Validators.Weight(Payees(ctx), WeightsOf(b, ctx.fingerprints))
    ensures RewardParts(b, ctx)[j]
         == ctx.reward - Validators.Weight(Elements(RewardOrder(ctx)[..j]), FloorDues(b, ctx))
  {
    hide RewardParts, EffectiveStakes, TotalEffective, Split, RewardOrder, Rewarded, Validators.Weight, Sum;
    hide FloorDues, WeightsOf, Payees, Elements;
    OrderOf(ctx);
    var order: seq<nat> := RewardOrder(ctx);
    var parts := RewardParts(b, ctx);
    assert Rewarded(ctx) != {} by {
      assert |order| == |Payees(ctx)|;
    }
    PartsExact(b, ctx);
    forall i | 0 <= i < j
      ensures parts[..j][i] == FloorDues(b, ctx)[order[..j][i]]
    {
      PartAt(b, ctx, i);
    }
    ListedWeight(order[..j], parts[..j], FloorDues(b, ctx));
    SumPrefix(parts, j);
    assert parts[..j + 1] == parts;
  }

  lemma LastPayee(ctx: Context, order: seq<nat>, j: nat)
    requires StrictlyAscending(order) && Elements(order) == Payees(ctx) && j + 1 == |order|
    ensures Elements(order[..j]) == Payees(ctx) - {order[j]}
    ensures forall i :: i in Payees(ctx) ==> i <= order[j]
  {
    hide Payees;
    PrefixSet(order, j);
    assert order[..j + 1] == order;
    assert order[j] !in Elements(order[..j]);
    forall i | i in Payees(ctx)
      ensures i <= order[j]
    {
      assert i in order;
    }
  }

  lemma PartAt(b: StakeBook, ctx: Context, j: nat)
    requires Rewarded(ctx) == Payees(ctx) && j < |RewardOrder(ctx)|
    requires RewardOrder(ctx)[j] < |ctx.fingerprints|
    requires TotalEffective(b, ctx.fingerprints, RewardOrder(ctx))
          == Validators.Weight(Payees(ctx), WeightsOf(b, ctx.fingerprints))
    ensures j + 1 < |RewardOrder(ctx)| ==> RewardParts(b, ctx)[j] == FloorDues(b, ctx)[RewardOrder(ctx)[j]]
  {
    hide RewardOrder, Rewarded, Validators.Weight, Sum, Split, Payees;
    var order := RewardOrder(ctx);
    var eff := EffectiveStakes(b, ctx.fingerprints, order);
    SplitAt(ctx.reward, eff, TotalEffective(b, ctx.fingerprints, order), j);
  }

  // ----- the theorem -----

  /** The reward phase succeeds exactly if there is nothing to pay, or the treasury can pay and every
      signer is known, the list being non-empty or not. */
  lemma PaysExactlyWhen(b: StakeBook, ctx: Context)
    ensures RewardPhase(b, ctx).1.Ok?
       <==> || ctx.reward == 0
            || (ctx.reward <= Get(b.balances, ctx.treasury)
                && forall s :: s in ctx.signers ==> s < |ctx.fingerprints|)
  {
    if 0 < ctx.reward <= Get(b.balances, ctx.treasury) {
      var left: nat := Get(b.balances, ctx.treasury) - ctx.reward;
      SplitSucceeds(b.(balances := b.balances[ctx.treasury := left]), ctx);
    }
    hide SplitReward;
  }

  lemma SplitSucceeds(b: StakeBook, ctx: Context)
    ensures SplitReward(b, ctx).1.Ok? <==> forall s :: s in ctx.signers ==> s < |ctx.fingerprints|
  {
    hide RewardParts, RewardSpec, Ascending;
    AscendingMembers(Rewarded(ctx));
    var order: seq<nat> := RewardOrder(ctx);
    if Rewarded(ctx) == {} {
      assert forall s :: s in ctx.signers ==> s in Elements(ctx.signers);
    } else {
      StopsAtUnknown(b, ctx.fingerprints, order, RewardParts(b, ctx), |order|);
      assert forall s :: s in ctx.signers ==> s in Rewarded(ctx) && s in order;
      assert forall j :: 0 <= j < |order| ==> order[j] in order && order[j] in Rewarded(ctx);
    }
  }

  lemma {:induction false} StopsAtUnknown(b: StakeBook, fps: seq<nat>, order: seq<nat>, parts: seq<nat>, k: nat)
    requires k <= |order| == |parts|
    ensures PayParts(b, fps, order, parts, k).1.Ok? <==> forall i :: 0 <= i < k ==> order[i] < |fps|
  {
    hide RewardSpec;
    if k > 0 {
      StopsAtUnknown(b, fps, order, parts, k - 1);
    }
  }

  lemma SplitPays(b: StakeBook, ctx: Context, fp: nat)
    requires SharesCovered(b) && ctx.reward <= U128_MAX
    requires Rewarded(ctx) == Payees(ctx) && Payees(ctx) != {}
    requires Validators.Weight(Payees(ctx), WeightsOf(b, ctx.fingerprints)) <= U128_MAX
    ensures Worth(SplitReward(b, ctx).0, fp)
         == Worth(b, fp) + Received(ctx.fingerprints, RewardOrder(ctx), RewardParts(b, ctx), |RewardOrder(ctx)|, fp)
  {
    hide RewardParts, EffectiveStakes, TotalEffective, RewardOrder, Rewarded, Validators.Weight, Sum, Payees;
    hide Worth, SharesCovered, WeightsOf, Elements, PayParts;
    OrderOf(ctx);
    TotalIsWeight(b, ctx);
    PartsExact(b, ctx);
    PartsWorth(b, ctx.fingerprints, RewardOrder(ctx), RewardParts(b, ctx), |RewardOrder(ctx)|, fp);
  }

  function Debited(b: StakeBook, ctx: Context): StakeBook
    requires ctx.reward <= Get(b.balances, ctx.treasury)
  {
    b.(balances := b.balances[ctx.treasury := Get(b.balances, ctx.treasury) - ctx.reward])
  }

  lemma DebitedFirst(b: StakeBook, ctx: Context)
    requires 0 < ctx.reward <= Get(b.balances, ctx.treasury)
    ensures RewardPhase(b, ctx) == SplitReward(Debited(b, ctx), ctx)
  {
    hide SplitReward;
  }

  lemma WorthGrows(b: StakeBook, ctx: Context, fp: nat)
    requires SharesCovered(b) && 0 < ctx.reward <= U128_MAX && ctx.reward <= Get(b.balances, ctx.treasury)
    requires Rewarded(ctx) == Payees(ctx) && Payees(ctx) != {}
    requires Validators.Weight(Payees(ctx), WeightsOf(b, ctx.fingerprints)) <= U128_MAX
    ensures Worth(RewardPhase(b, ctx).0, fp)
         == Worth(b, fp) + Received(ctx.fingerprints, RewardOrder(ctx), RewardParts(Debited(b, ctx), ctx),
                                    |RewardOrder(ctx)|, fp)
  {
    hide SplitReward, RewardPhase, SharesCovered, Validators.Weight, Payees, Rewarded, WeightsOf, Received;
    hide Worth, RewardOrder, RewardParts, Debited;
    DebitedFirst(b, ctx);
    DebitAside(b, ctx);
    SplitPays(Debited(b, ctx), ctx, fp);
  }

  lemma DebitAside(b: StakeBook, ctx: Context)
    requires ctx.reward <= Get(b.balances, ctx.treasury)
    ensures SharesCovered(b) ==> SharesCovered(Debited(b, ctx))
    ensures WeightsOf(Debited(b, ctx), ctx.fingerprints) == WeightsOf(b, ctx.fingerprints)
    ensures forall i :: 0 <= i < |ctx.fingerprints| ==> Due(Debited(b, ctx), ctx, i) == Due(b, ctx, i)
    ensures forall fp :: Worth(Debited(b, ctx), fp) == Worth(b, fp)
  {
    hide SharesCovered, WeightsOf, Due, Worth;
    BalancesAside(b, Debited(b, ctx).balances, ctx);
    BalancesAsideDue(b, Debited(b, ctx).balances, ctx);
  }

  /** Validator by validator: every payee receives exactly what it is due, every other validator and
      every fingerprint off the list nothing. */
  lemma PayeesPaid(b: StakeBook, ctx: Context)
    requires SharesCovered(b) && 0 < ctx.reward <= U128_MAX && Distinct(ctx.fingerprints)
    requires RewardPhase(b, ctx).1.Ok? && Payees(ctx) != {}
    requires Validators.Weight(Payees(ctx), WeightsOf(b, ctx.fingerprints)) <= U128_MAX
    ensures var b' := RewardPhase(b, ctx).0;
      && (forall i :: 0 <= i < |ctx.fingerprints| ==>
            Worth(b', ctx.fingerprints[i]) == Worth(b, ctx.fingerprints[i]) + Due(b, ctx, i))
      && (forall fp :: fp !in ctx.fingerprints ==> Worth(b', fp) == Worth(b, fp))
  {
    hide SplitReward, RewardPhase, SharesCovered, Validators.Weight, Payees, Rewarded, WeightsOf, Received;
    hide Worth, RewardOrder, RewardParts, Debited, Due, Distinct;
    PaysExactlyWhen(b, ctx);
    RewardedArePayees(ctx);
    DebitAside(b, ctx);
    var b' := RewardPhase(b, ctx).0;
    forall i | 0 <= i < |ctx.fingerprints|
      ensures Worth(b', ctx.fingerprints[i]) == Worth(b, ctx.fingerprints[i]) + Due(b, ctx, i)
    {
      WorthGrows(b, ctx, ctx.fingerprints[i]);
      ReceivesItsDue(Debited(b, ctx), ctx, i);
    }
    forall fp | fp !in ctx.fingerprints
      ensures Worth(b', fp) == Worth(b, fp)
    {
      WorthGrows(b, ctx, fp);
      ReceivedNothing(ctx.fingerprints, RewardOrder(ctx), RewardParts(Debited(b, ctx), ctx), |RewardOrder(ctx)|, fp);
    }
  }

  lemma BalancesAsideDue(b: StakeBook, balances: map<nat, nat>, ctx: Context)
    ensures WeightsOf(b.(balances := balances), ctx.fingerprints) == WeightsOf(b, ctx.fingerprints)
    ensures forall i :: 0 <= i < |ctx.fingerprints| ==> Due(b.(balances := balances), ctx, i) == Due(b, ctx, i)
    ensures forall fp :: Worth(b.(balances := balances), fp) == Worth(b, fp)
  {
    assert WeightsOf(b.(balances := balances), ctx.fingerprints) == WeightsOf(b, ctx.fingerprints);
    assert FloorDues(b.(balances := balances), ctx) == FloorDues(b, ctx);
    hide FloorDues, WeightsOf, Payees, Validators.Weight, ShareSum;
  }

  lemma ReceivesItsDue(b: StakeBook, ctx: Context, i: nat)
    requires Distinct(ctx.fingerprints) && i < |ctx.fingerprints| && Rewarded(ctx) == Payees(ctx)
    requires Validators.Weight(Payees(ctx), WeightsOf(b, ctx.fingerprints)) <= U128_MAX
    ensures Received(ctx.fingerprints, RewardOrder(ctx), RewardParts(b, ctx), |RewardOrder(ctx)|, ctx.fingerprints[i])
         == Due(b, ctx, i)
  {
    hide RewardParts, RewardOrder, Rewarded, Validators.Weight, Payees, WeightsOf, Received, FloorDues;
    OrderOf(ctx);
    var order: seq<nat> := RewardOrder(ctx);
    ReceivedOnce(ctx.fingerprints, order, RewardParts(b, ctx), |order|, i);
    assert order[..|order|] == order;
    if i in Payees(ctx) {
      assert i in Elements(order);
      var j :| 0 <= j < |order| && order[j] == i;
      PartIsDue(b, ctx, j);
    } else {
      assert i !in Elements(order);
    }
  }

  /** With no payee at all the first validator of the list receives everything. */
  lemma FirstPaidAlone(b: StakeBook, ctx: Context, fp: nat)
    requires SharesCovered(b) && 0 < ctx.reward <= Get(b.balances, ctx.treasury) && ctx.reward <= U128_MAX
    requires ctx.signers == [] && ctx.proposer !in ctx.fingerprints && ctx.fingerprints != []
    ensures RewardPhase(b, ctx).1.Ok?
    ensures Worth(RewardPhase(b, ctx).0, fp) == Worth(b, fp) + if fp == ctx.fingerprints[0] then ctx.reward else 0
  {
    hide SplitReward, RewardPhase, SharesCovered, Worth, Debited, RewardSpec;
    DebitedFirst(b, ctx);
    DebitAside(b, ctx);
    NobodyRewarded(Debited(b, ctx), ctx);
    RewardWorth(Debited(b, ctx), ctx.fingerprints[0], ctx.reward, fp);
  }

  lemma NobodyRewarded(b: StakeBook, ctx: Context)
    requires ctx.signers == [] && ctx.proposer !in ctx.fingerprints && ctx.fingerprints != []
    ensures SplitReward(b, ctx) == (RewardSpec(b, ctx.fingerprints[0], ctx.reward), Ok)
  {
    hide RewardSpec, RewardParts, PayParts;
    assert Rewarded(ctx) == {};
  }
}

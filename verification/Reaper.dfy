/** What an epoch of the reaper conserves and guarantees, through any cascade of deaths. */
module Reaper {
  import opened Arithmetic
  import opened Collections
  import opened Emission
  import opened Life

  ghost function Balances(souls: Souls): map<nat, nat> { map id | id in souls :: souls[id].balance }

  ghost function Wealth(souls: Souls): nat { MapSum(Balances(souls)) }

  function Burned(settlements: seq<Settlement>): (r: seq<nat>)
    ensures |r| == |settlements|
  {
    seq(|settlements|, i requires 0 <= i < |settlements| => settlements[i].burned)
  }

  /** Rent actually collected in the pass. */
  ghost function Collected(souls: Souls, p: Params): map<nat, nat> {
    map id | id in souls :: if souls[id].Living() then RentPaid(souls[id], p) else 0
  }

  // ----- wealth under single changes -----

  lemma WealthUpdate(souls: Souls, id: nat, s: Soul)
    ensures Wealth(souls[id := s]) == Wealth(souls) - (if id in souls then souls[id].balance else 0) + s.balance
    ensures id in souls ==> souls[id].balance <= Wealth(souls)
  {
    assert Balances(souls[id := s]) == Balances(souls)[id := s.balance];
    MapSumUpdate(Balances(souls), id, s.balance);
  }

  lemma {:induction false} MapSumAdd(a: map<nat, nat>, b: map<nat, nat>, c: map<nat, nat>)
    requires a.Keys == b.Keys == c.Keys && forall k :: k in c ==> a[k] + b[k] == c[k]
    ensures MapSum(a) + MapSum(b) == MapSum(c)
    decreases |c|
  {
    if c != map[] {
      var k :| k in c;
      MapSumRemove(a, k);
      MapSumRemove(b, k);
      MapSumRemove(c, k);
      MapSumAdd(a - {k}, b - {k}, c - {k});
    } else {
      assert a == map[] && b == map[];
    }
  }

  lemma RentConserves(souls: Souls, p: Params)
    ensures Wealth(ChargeRent(souls, p, LivingIds(souls))) + MapSum(Collected(souls, p)) == Wealth(souls)
  {
    hide RentCharge;
    MapSumAdd(Balances(ChargeRent(souls, p, LivingIds(souls))), Collected(souls, p), Balances(souls));
  }

  /** Interest is debt, never balance. */
  lemma {:induction false} AccrueKeepsBalances(souls: Souls, loans: map<nat, Loan>, ids: seq<nat>, p: Params)
    requires forall i :: 0 <= i < |ids| ==> ids[i] in loans
    ensures Balances(Accrue(souls, loans, ids, p).0) == Balances(souls)
    ensures forall id :: id in souls ==>
      id in Accrue(souls, loans, ids, p).0
      && Accrue(souls, loans, ids, p).0[id] == souls[id].(debt := Accrue(souls, loans, ids, p).0[id].debt)
  {
    if ids != [] {
      AccrueKeepsBalances(souls, loans, ids[..|ids| - 1], p);
    }
  }

  lemma MarkKeepsBalances(souls: Souls, epoch: nat)
    ensures Balances(MarkInsolvent(souls, epoch, souls.Keys)) == Balances(souls)
  {
  }

  lemma PreparedConserves(souls: Souls, loans: map<nat, Loan>, p: Params, epoch: nat)
    ensures Wealth(Prepared(souls, loans, p, epoch)) + MapSum(Collected(souls, p)) == Wealth(souls)
    ensures Prepared(souls, loans, p, epoch).Keys == souls.Keys
  {
    AscendingMembers(loans.Keys);
    var charged := ChargeRent(souls, p, LivingIds(souls));
    var accrued := Accrue(charged, loans, Ascending(loans.Keys), p).0;
    RentConserves(souls, p);
    AccrueKeepsBalances(charged, loans, Ascending(loans.Keys), p);
    MarkKeepsBalances(accrued, epoch);
    hide ChargeRent, Accrue, MarkSoul, Collected, MapSum;
    assert accrued.Keys == Balances(accrued).Keys == Balances(charged).Keys;
    ChargedKeys(souls, p);
  }

  lemma ChargedKeys(souls: Souls, p: Params)
    ensures ChargeRent(souls, p, LivingIds(souls)).Keys == souls.Keys
  {
  }

  // ----- inheritance -----

  /** Only living souls are kin. */
  lemma {:induction false} OnlyLivingLives(souls: Souls, ids: seq<nat>)
    ensures forall x :: x in OnlyLiving(souls, ids) ==> x in souls && souls[x].Living()
  {
    if ids != [] {
      OnlyLivingLives(souls, ids[..|ids| - 1]);
    }
  }

  lemma {:induction false} InsertMembers(sorted: seq<nat>, x: nat)
    ensures multiset(Insert(sorted, x)) == multiset(sorted) + multiset{x}
  {
    if sorted != [] && x > sorted[0] {
      InsertMembers(sorted[1..], x);
      assert sorted == [sorted[0]] + sorted[1..];
    }
  }

  lemma {:induction false} SortedMembers(ids: seq<nat>)
    ensures multiset(Sorted(ids)) == multiset(ids)
  {
    if ids != [] {
      SortedMembers(ids[1..]);
      InsertMembers(Sorted(ids[1..]), ids[0]);
      assert ids == [ids[0]] + ids[1..];
    }
  }

  /** Heirs exist and live; so the dead soul is never its own heir, whatever its will says. */
  lemma KinLives(souls: Souls, lineage: Lineage, wills: seq<Will>, id: nat)
    ensures forall x :: x in KinSet(souls, lineage, wills, id) ==> x in souls && souls[x].Living()
    ensures id in souls && !souls[id].Living() ==> id !in KinSet(souls, lineage, wills, id)
  {
    if id in souls {
      var will := WillOf(wills, id);
      OnlyLivingLives(souls, if will.Some? then will.value.heirs else []);
      OnlyLivingLives(souls, ChildrenOf(lineage, id));
      if souls[id].parent.Some? {
        var siblings := OnlyLiving(souls, Without(ChildrenOf(lineage, souls[id].parent.value), id));
        OnlyLivingLives(souls, Without(ChildrenOf(lineage, souls[id].parent.value), id));
        SortedMembers(siblings);
        assert forall x :: x in Sorted(siblings) ==> x in multiset(Sorted(siblings));
      }
    }
  }

  lemma TwoSouls(souls: Souls, a: nat, b: nat)
    requires a in souls && b in souls && a != b
    ensures souls[a].balance + souls[b].balance <= Wealth(souls)
  {
    MapSumRemove(Balances(souls), a);
    MapSumRemove(Balances(souls) - {a}, b);
  }

  /** Paying `n` heirs adds exactly their parts, changes nothing but balances, and touches nobody
      who is not an heir. No balance can saturate: what an heir holds and the estate are parts of
      one wealth that fits a `u64`. */
  lemma {:induction false} PayHeirsAdds(souls: Souls, heirs: seq<nat>, dead: nat, estate: nat, n: nat)
    requires n <= |heirs| && forall x :: x in heirs ==> x in souls && x != dead
    requires dead in souls && souls[dead].balance == estate && Wealth(souls) <= U64_MAX
    ensures heirs != [] ==> QuarterPart(estate, |heirs|, n) <= estate
    ensures heirs != [] ==> Wealth(PayHeirs(souls, heirs, estate, n)) == Wealth(souls) + QuarterPart(estate, |heirs|, n)
    ensures PayHeirs(souls, heirs, estate, n).Keys == souls.Keys
    ensures forall id :: id in souls ==>
      PayHeirs(souls, heirs, estate, n)[id] == souls[id].(balance := PayHeirs(souls, heirs, estate, n)[id].balance)
    ensures forall id :: id in souls && id !in heirs ==> PayHeirs(souls, heirs, estate, n)[id] == souls[id]
  {
    hide BlockShare, QuarterPart, Wealth;
    if heirs != [] {
      PartFits(estate, |heirs|, n);
      QuarterPartSteps(estate, |heirs|, 0);
    }
    if n > 0 {
      PayHeirsAdds(souls, heirs, dead, estate, n - 1);
      var before := PayHeirs(souls, heirs, estate, n - 1);
      var h, part := heirs[n - 1], BlockShare(estate, |heirs|, n - 1);
      QuarterPartSteps(estate, |heirs|, n - 1);
      assert h in heirs && dead !in heirs;
      WealthUpdate(before, h, before[h].(balance := before[h].balance + part));
      TwoSouls(before, h, dead);
      assert before[h].balance + part <= U64_MAX;
    }
  }

  lemma PartFits(estate: nat, k: nat, n: nat)
    requires 0 < k && n <= k
    ensures QuarterPart(estate, k, n) <= estate
  {
    MulMonotone(n, k, estate / k);
    assert estate == estate / k * k + estate % k;
  }

  /** Settling an estate moves it to the heirs, or burns it, to the unit; the dead soul is left
      with nothing and nobody changes status. */
  lemma SettleConserves(souls: Souls, heirs: seq<nat>, dead: nat, epoch: nat)
    requires dead in souls && forall x :: x in heirs ==> x in souls && x != dead
    requires Wealth(souls) <= U64_MAX
    ensures var (souls', record) := Settle(souls, heirs, dead, epoch);
      && Wealth(souls') + record.burned == Wealth(souls)
      && souls'.Keys == souls.Keys
      && souls'[dead].balance == 0
      && (forall id :: id in souls ==> souls'[id] == souls[id].(balance := souls'[id].balance))
      && (forall id :: id in souls && id !in heirs && id != dead ==> souls'[id] == souls[id])
  {
    hide Wealth, PayHeirs, QuarterPart;
    var estate := souls[dead].balance;
    if heirs == [] || estate == 0 {
      WealthUpdate(souls, dead, souls[dead].(balance := 0));
    } else {
      PayHeirsAdds(souls, heirs, dead, estate, |heirs|);
      QuarterPartSteps(estate, |heirs|, 0);
      var paid := PayHeirs(souls, heirs, estate, |heirs|);
      WealthUpdate(paid, dead, paid[dead].(balance := 0));
    }
  }

  // ----- births -----

  ghost predicate Injective(names: HeirNames) {
    forall d, i, d', i' :: names(d, i) == names(d', i') ==> d == d' && i == i'
  }

  /** No soul carries the name of one of the first `n` heirs of `dead`. */
  ghost predicate Unnamed(souls: Souls, names: HeirNames, dead: nat, n: nat) {
    forall i :: 0 <= i < n ==> names(dead, i) !in souls
  }

  lemma {:induction false} SpawnAdds(state: (Souls, Lineage), p: Params, names: HeirNames, dead: nat, epoch: nat,
                                     unborn: seq<nat>, n: nat)
    requires n <= |unborn| && Injective(names) && Unnamed(state.0, names, dead, n)
    ensures var souls := Spawn(state, p, names, dead, epoch, unborn, n).0;
      && Wealth(souls) == Wealth(state.0) + n * p.childGrant
      && (forall id :: id in state.0 ==> id in souls && souls[id] == state.0[id])
      && (forall id :: id in souls && id !in state.0 ==>
            souls[id].Living() && souls[id].insolventSince == None && IsHeirName(names, dead, n, id))
  {
    hide Wealth;
    if n > 0 {
      SpawnAdds(state, p, names, dead, epoch, unborn, n - 1);
      var souls := Spawn(state, p, names, dead, epoch, unborn, n - 1).0;
      var id := names(dead, n - 1);
      assert !IsHeirName(names, dead, n - 1, id);
      WealthUpdate(souls, id, Child(p, dead, epoch, unborn[n - 1]));
      Distribute(n - 1, 1, p.childGrant);
      assert IsHeirName(names, dead, n, id);
      forall x | x in souls && x !in state.0
        ensures IsHeirName(names, dead, n, x)
      {
        assert IsHeirName(names, dead, n - 1, x);
      }
    }
  }

  ghost predicate IsHeirName(names: HeirNames, dead: nat, n: nat, id: nat) {
    exists i :: 0 <= i < n && names(dead, i) == id
  }

  // ----- one death -----

  lemma KillKeepsWealth(souls: Souls, id: nat, epoch: nat, reason: DeathReason)
    requires id in souls
    ensures Wealth(KillSoul(souls, id, epoch, reason)) == Wealth(souls)
  {
    WealthUpdate(souls, id, KillSoul(souls, id, epoch, reason)[id]);
  }

  /** What one death does: the books balance, the soul is dead and empty, every other dead soul is
      untouched, and the living keep everything but possibly gain balance. */
  lemma DieConserves(w: World, p: Params, names: HeirNames, wills: seq<Will>, id: nat, epoch: nat, reason: DeathReason)
    requires id in w.souls && w.souls[id].Living()
    requires Injective(names) && Unnamed(w.souls, names, id, |Unborn(wills, id)|)
    requires Wealth(w.souls) + |Unborn(wills, id)| * p.childGrant <= U64_MAX
    ensures var w' := Die(w, p, names, wills, id, epoch, reason);
      && w'.spawned == w.spawned + |Unborn(wills, id)|
      && |w'.settlements| == |w.settlements| + 1 && w'.settlements[..|w.settlements|] == w.settlements
      && Wealth(w'.souls) + w'.settlements[|w.settlements|].burned
           == Wealth(w.souls) + |Unborn(wills, id)| * p.childGrant
      && id in w'.souls && w'.souls[id].death == Some((epoch, reason))
      && !w'.souls[id].Living() && w'.souls[id].balance == 0
      && (forall x :: x in w.souls && x != id ==>
            x in w'.souls && w'.souls[x] == w.souls[x].(balance := w'.souls[x].balance))
      && (forall x :: x in w.souls && x != id && !w.souls[x].Living() ==> w'.souls[x] == w.souls[x])
      && (forall x :: x in w'.souls && x !in w.souls ==>
            w'.souls[x].Living() && w'.souls[x].insolventSince == None
            && IsHeirName(names, id, |Unborn(wills, id)|, x))
  {
    hide Wealth, Spawn, KinSet, Settle, IsHeirName, Injective, Unborn;
    var unborn := Unborn(wills, id);
    var killed := KillSoul(w.souls, id, epoch, reason);
    KillKeepsWealth(w.souls, id, epoch, reason);
    assert Unnamed(killed, names, id, |unborn|);
    SpawnAdds((killed, w.lineage), p, names, id, epoch, unborn, |unborn|);
    var (souls, lineage) := Spawn((killed, w.lineage), p, names, id, epoch, unborn, |unborn|);
    KinLives(souls, lineage, wills, id);
    WealthUpdate(souls, id, souls[id]);
    SettleConserves(souls, KinSet(souls, lineage, wills, id), id, epoch);
  }

  // ----- the whole loop -----

  /** Wealth, burned remainders and child grants relative to the start of the loop. */
  ghost predicate Accounted(w: World, w': World, p: Params) {
    && w'.spawned >= w.spawned
    && Wealth(w'.souls) + Sum(Burned(w'.settlements)) + w.spawned * p.childGrant
         == Wealth(w.souls) + Sum(Burned(w.settlements)) + w'.spawned * p.childGrant
    && Sum(Burned(w.settlements)) <= Sum(Burned(w'.settlements))
  }

  /** Souls of the start keep everything but balance until they die; those outside `done` have
      not changed status; those in `done` are dead exactly if they were or their fate said so. */
  ghost predicate Fates(w: World, w': World, p: Params, done: seq<nat>, epoch: nat) {
    forall x :: x in w.souls ==> FateMet(w.souls[x], w'.souls, x, p, x in done, epoch)
  }

  ghost predicate FateMet(s: Soul, souls': Souls, x: nat, p: Params, done: bool, epoch: nat) {
    && x in souls'
    && (!s.Living() ==> souls'[x] == s)
    && (s.Living() ==>
          var fate := FateOf(s, p, epoch);
          if done && fate.Some?
          then souls'[x].status == Dead && souls'[x].balance == 0 && souls'[x].death == Some((epoch, fate.value))
          else souls'[x] == s.(balance := souls'[x].balance))
  }

  /** Everyone else is a living, solvent heir of a soul in `done`. */
  ghost predicate Newborn(w: World, w': World, names: HeirNames, done: seq<nat>) {
    forall x :: x in w'.souls && x !in w.souls ==>
      w'.souls[x].Living() && w'.souls[x].insolventSince == None && NamedAfter(names, done, x)
  }

  ghost predicate NamedAfter(names: HeirNames, done: seq<nat>, x: nat) {
    exists d, i :: d in done && names(d, i) == x
  }

  /** Hypotheses of the loop: heir names are fresh, and the wealth it starts from plus all grants
      it makes fit a `u64`. */
  ghost predicate Ready(w: World, p: Params, names: HeirNames, wills: seq<Will>, ids: seq<nat>, epoch: nat) {
    && Injective(names)
    && StrictlyAscending(ids)
    && (forall d :: d in ids ==> d in w.souls && Unnamed(w.souls, names, d, |Unborn(wills, d)|))
    && Wealth(w.souls) + Granted(w, p, names, wills, ids, epoch, |ids|) <= U64_MAX
  }

  ghost function Granted(w: World, p: Params, names: HeirNames, wills: seq<Will>, ids: seq<nat>, epoch: nat, n: nat)
    : int
    requires n <= |ids|
  {
    (ReapAll(w, p, names, wills, ids, epoch, n).spawned - w.spawned) * p.childGrant
  }

  lemma ReapSpawns(w: World, p: Params, names: HeirNames, wills: seq<Will>, id: nat, epoch: nat)
    ensures Reap(w, p, names, wills, id, epoch).spawned >= w.spawned
  {
    hide Spawn, Settle, KinSet, KillSoul;
  }

  lemma {:induction false} GrantedGrows(w: World, p: Params, names: HeirNames, wills: seq<Will>, ids: seq<nat>,
                                        epoch: nat, n: nat, m: nat)
    requires n <= m <= |ids|
    ensures Granted(w, p, names, wills, ids, epoch, n) <= Granted(w, p, names, wills, ids, epoch, m)
    decreases m
  {
    hide Reap;
    if n < m {
      GrantedGrows(w, p, names, wills, ids, epoch, n, m - 1);
      var before := ReapAll(w, p, names, wills, ids, epoch, m - 1);
      var after := ReapAll(w, p, names, wills, ids, epoch, m);
      ReapSpawns(before, p, names, wills, ids[m - 1], epoch);
      GrowingProduct(before.spawned - w.spawned, after.spawned - w.spawned, p.childGrant);
    }
  }

  lemma GrowingProduct(x: int, y: int, c: nat)
    requires x <= y
    ensures x * c <= y * c
  {
  }

  lemma FateIgnoresBalance(s: Soul, balance: nat, p: Params, epoch: nat)
    ensures FateOf(s.(balance := balance), p, epoch) == FateOf(s, p, epoch)
  {
  }

  lemma BurnedMore(settlements: seq<Settlement>, more: seq<Settlement>)
    requires |more| == |settlements| + 1 && more[..|settlements|] == settlements
    ensures Sum(Burned(more)) == Sum(Burned(settlements)) + more[|settlements|].burned
  {
    assert Burned(more)[..|settlements|] == Burned(settlements);
  }

  /** An heir's name is still free when its parent's turn comes. */
  lemma StillUnnamed(w: World, w': World, names: HeirNames, done: seq<nat>, d: nat, n: nat)
    requires Injective(names) && Newborn(w, w', names, done) && d !in done && Unnamed(w.souls, names, d, n)
    ensures Unnamed(w'.souls, names, d, n)
  {
    forall i | 0 <= i < n
      ensures names(d, i) !in w'.souls
    {
      assert !NamedAfter(names, done, names(d, i));
    }
  }

  /** The turn of `id`, from a state that has met the fates of `done`. */
  lemma ReapStep(w: World, w': World, p: Params, names: HeirNames, wills: seq<Will>, done: seq<nat>, id: nat,
                 epoch: nat)
    requires Accounted(w, w', p) && Fates(w, w', p, done, epoch) && Newborn(w, w', names, done)
    requires Injective(names) && id in w.souls && id !in done && Unnamed(w.souls, names, id, |Unborn(wills, id)|)
    requires Wealth(w.souls) + (Reap(w', p, names, wills, id, epoch).spawned - w.spawned) * p.childGrant <= U64_MAX
    ensures var w'' := Reap(w', p, names, wills, id, epoch);
      Accounted(w, w'', p) && Fates(w, w'', p, done + [id], epoch) && Newborn(w, w'', names, done + [id])
  {
    hide Wealth, Die, Injective, Unnamed, Unborn;
    assert FateMet(w.souls[id], w'.souls, id, p, false, epoch);
    FateIgnoresBalance(w.souls[id], w'.souls[id].balance, p, epoch);
    var w'' := Reap(w', p, names, wills, id, epoch);
    var fate := FateOf(w'.souls[id], p, epoch);
    if fate.None? {
      MoreDone(w, w', p, names, done, id, epoch);
    } else {
      var k := |Unborn(wills, id)|;
      StillUnnamed(w, w', names, done, id, k);
      SpawnedBy(w', p, names, wills, id, epoch, fate.value);
      WealthSoFar(w, w', p, k);
      DieConserves(w', p, names, wills, id, epoch, fate.value);
      DeathAccounted(w, w', w'', p, k);
      DeathFates(w, w', w'', p, names, done, id, epoch, k);
    }
  }

  /** Before its children are born, what the world holds and they will receive is within bounds. */
  lemma WealthSoFar(w: World, w': World, p: Params, k: nat)
    requires Accounted(w, w', p)
    requires Wealth(w.souls) + (w'.spawned + k - w.spawned) * p.childGrant <= U64_MAX
    ensures Wealth(w'.souls) + k * p.childGrant <= U64_MAX
  {
    hide Wealth, Burned;
    Distribute(w'.spawned - w.spawned, k, p.childGrant);
    Distribute(w'.spawned - w.spawned, w.spawned, p.childGrant);
  }

  lemma SpawnedBy(w: World, p: Params, names: HeirNames, wills: seq<Will>, id: nat, epoch: nat, reason: DeathReason)
    requires id in w.souls
    ensures Die(w, p, names, wills, id, epoch, reason).spawned == w.spawned + |Unborn(wills, id)|
  {
    hide Settle, KinSet, Unborn, KillSoul;
    SpawnKeepsIds((KillSoul(w.souls, id, epoch, reason), w.lineage), p, names, id, epoch, Unborn(wills, id),
                  |Unborn(wills, id)|);
    KillKeepsId(w.souls, id, epoch, reason);
  }

  lemma KillKeepsId(souls: Souls, id: nat, epoch: nat, reason: DeathReason)
    requires id in souls
    ensures id in KillSoul(souls, id, epoch, reason)
  {
  }

  lemma MoreDone(w: World, w': World, p: Params, names: HeirNames, done: seq<nat>, id: nat, epoch: nat)
    requires Fates(w, w', p, done, epoch) && Newborn(w, w', names, done)
    requires id in w.souls && FateOf(w.souls[id], p, epoch).None?
    ensures Fates(w, w', p, done + [id], epoch) && Newborn(w, w', names, done + [id])
  {
    forall x | x in w.souls
      ensures FateMet(w.souls[x], w'.souls, x, p, x in done + [id], epoch)
    {
      assert FateMet(w.souls[x], w'.souls, x, p, x in done, epoch);
      assert x in done + [id] <==> x in done || x == id;
    }
    forall x | x in w'.souls && x !in w.souls
      ensures NamedAfter(names, done + [id], x)
    {
      NamedAfterMore(names, done, id, x);
    }
  }

  lemma NamedAfterMore(names: HeirNames, done: seq<nat>, id: nat, x: nat)
    requires NamedAfter(names, done, x)
    ensures NamedAfter(names, done + [id], x)
  {
    var d, i :| d in done && names(d, i) == x;
    assert d in done + [id];
  }

  lemma DeathAccounted(w: World, w': World, w'': World, p: Params, k: nat)
    requires Accounted(w, w', p) && w''.spawned == w'.spawned + k
    requires |w''.settlements| == |w'.settlements| + 1 && w''.settlements[..|w'.settlements|] == w'.settlements
    requires Wealth(w''.souls) + w''.settlements[|w'.settlements|].burned == Wealth(w'.souls) + k * p.childGrant
    ensures Accounted(w, w'', p)
  {
    hide Wealth, Burned, Sum;
    BurnedMore(w'.settlements, w''.settlements);
    Distribute(w'.spawned, k, p.childGrant);
  }

  lemma DeathFates(w: World, w': World, w'': World, p: Params, names: HeirNames, done: seq<nat>, id: nat, epoch: nat,
                   k: nat)
    requires Fates(w, w', p, done, epoch) && Newborn(w, w', names, done) && id in w.souls && id !in done
    requires w.souls[id].Living() && FateOf(w.souls[id], p, epoch).Some?
    requires id in w'.souls && id in w''.souls
    requires w''.souls[id].death == Some((epoch, FateOf(w.souls[id], p, epoch).value))
    requires !w''.souls[id].Living() && w''.souls[id].balance == 0
    requires forall x :: x in w'.souls && x != id ==>
      x in w''.souls && w''.souls[x] == w'.souls[x].(balance := w''.souls[x].balance)
    requires forall x :: x in w'.souls && x != id && !w'.souls[x].Living() ==> w''.souls[x] == w'.souls[x]
    requires forall x :: x in w''.souls && x !in w'.souls ==>
      w''.souls[x].Living() && w''.souls[x].insolventSince == None && IsHeirName(names, id, k, x)
    ensures Fates(w, w'', p, done + [id], epoch) && Newborn(w, w'', names, done + [id])
  {
    hide FateOf;
    forall x | x in w.souls
      ensures FateMet(w.souls[x], w''.souls, x, p, x in done + [id], epoch)
    {
      assert FateMet(w.souls[x], w'.souls, x, p, x in done, epoch);
      assert x in done + [id] <==> x in done || x == id;
    }
    forall x | x in w''.souls && x !in w.souls
      ensures w''.souls[x].Living() && w''.souls[x].insolventSince == None && NamedAfter(names, done + [id], x)
    {
      if x in w'.souls {
        assert NamedAfter(names, done, x);
        NamedAfterMore(names, done, id, x);
      } else {
        var i :| 0 <= i < k && names(id, i) == x;
        assert id in done + [id];
      }
    }
  }

  lemma {:induction false} LoopHolds(w: World, p: Params, names: HeirNames, wills: seq<Will>, ids: seq<nat>,
                                     epoch: nat, n: nat)
    requires n <= |ids| && Ready(w, p, names, wills, ids, epoch)
    ensures var w' := ReapAll(w, p, names, wills, ids, epoch, n);
      Accounted(w, w', p) && Fates(w, w', p, ids[..n], epoch) && Newborn(w, w', names, ids[..n])
  {
    hide Accounted, Fates, Newborn, Reap, Wealth, Injective, Unnamed;
    if n == 0 {
      LoopStarts(w, p, names, epoch);
      assert ids[..0] == [];
    } else {
      LoopHolds(w, p, names, wills, ids, epoch, n - 1);
      GrantedGrows(w, p, names, wills, ids, epoch, n, |ids|);
      assert ids[n - 1] in ids && ids[n - 1] !in ids[..n - 1];
      assert ids[..n] == ids[..n - 1] + [ids[n - 1]];
      ReapStep(w, ReapAll(w, p, names, wills, ids, epoch, n - 1), p, names, wills, ids[..n - 1], ids[n - 1], epoch);
    }
  }

  lemma LoopStarts(w: World, p: Params, names: HeirNames, epoch: nat)
    ensures Accounted(w, w, p) && Fates(w, w, p, [], epoch) && Newborn(w, w, names, [])
  {
    hide Wealth, FateOf;
  }

  /** Conservation of one epoch, through any cascade of deaths: what souls hold afterwards, the
      rent they paid and the estates that were burned equal what they held before plus the child
      grants. And the dead are exactly those the rules condemn: a soul that was alive when the
      death loop began is dead afterwards if and only if its natural end or its insolvency grace
      had come, and then it is left with nothing. */
  lemma ReaperConserves(w: World, loans: map<nat, Loan>, p: Params, names: HeirNames, wills: seq<Will>, epoch: nat)
    requires var start := w.(souls := Prepared(w.souls, loans, p, epoch));
      Ready(start, p, names, wills, Ascending(start.souls.Keys), epoch)
    ensures var w' := ReaperSpec(w, loans, p, names, wills, epoch);
      && Wealth(w'.souls) + MapSum(Collected(w.souls, p)) + Sum(Burned(w'.settlements)) + w.spawned * p.childGrant
           == Wealth(w.souls) + Sum(Burned(w.settlements)) + w'.spawned * p.childGrant
      && forall x :: x in w.souls ==> x in w'.souls
    ensures var souls, souls' := Prepared(w.souls, loans, p, epoch), ReaperSpec(w, loans, p, names, wills, epoch).souls;
      forall x :: x in souls && x in souls' && souls[x].Living() ==>
        && (!souls'[x].Living() <==> FateOf(souls[x], p, epoch).Some?)
        && (souls[x].naturalDeath <= epoch ==> !souls'[x].Living())
        && (!souls'[x].Living() ==> souls'[x].balance == 0)
  {
    hide Prepared, Wealth, MapSum, Collected, ReapAll, Newborn, Sum, Ready;
    var start := w.(souls := Prepared(w.souls, loans, p, epoch));
    var ids: seq<nat> := Ascending(start.souls.Keys);
    AscendingMembers(start.souls.Keys);
    PreparedConserves(w.souls, loans, p, epoch);
    LoopHolds(start, p, names, wills, ids, epoch, |ids|);
    assert ids[..|ids|] == ids;
    var w' := ReaperSpec(w, loans, p, names, wills, epoch);
    assert w' == ReapAll(start, p, names, wills, ids, epoch, |ids|);
    forall x | x in start.souls
      ensures FateMet(start.souls[x], w'.souls, x, p, true, epoch)
    {
      assert FateMet(start.souls[x], w'.souls, x, p, x in ids, epoch);
    }
  }
}

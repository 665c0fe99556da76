/** Who inherits from a dead soul, and how much. */
module Inheritance {
  import opened Arithmetic
  import opened Collections
  import opened Emission
  import opened Life
  import opened Reaper

  // ----- who is alive once the unborn heirs are born -----

  ghost predicate AliveAfter(souls: Souls, names: HeirNames, dead: nat, births: nat, x: nat) {
    (x in souls && x != dead && souls[x].Living()) || IsHeirName(names, dead, births, x)
  }

  /** The listed ids that are alive after the births, in the order they are listed. */
  ghost function Survivors(souls: Souls, names: HeirNames, dead: nat, births: nat, ids: seq<nat>): seq<nat> {
    if ids == [] then []
    else
      (if AliveAfter(souls, names, dead, births, ids[0]) then [ids[0]] else [])
      + Survivors(souls, names, dead, births, ids[1..])
  }

  function BirthNames(names: HeirNames, dead: nat, births: nat): (r: seq<nat>)
    ensures |r| == births
  {
    seq(births, i requires 0 <= i => names(dead, i))
  }

  /** A survivor is one who is listed and alive. */
  lemma {:induction false} SurvivorsMembers(souls: Souls, names: HeirNames, dead: nat, births: nat, ids: seq<nat>,
                                            x: nat)
    ensures x in Survivors(souls, names, dead, births, ids)
       <==> x in ids && AliveAfter(souls, names, dead, births, x)
  {
    hide AliveAfter;
    if ids != [] {
      SurvivorsMembers(souls, names, dead, births, ids[1..], x);
      assert x in ids <==> x == ids[0] || x in ids[1..];
    }
  }

  lemma {:induction false} SurvivorsSnoc(souls: Souls, names: HeirNames, dead: nat, births: nat, ids: seq<nat>, y: nat)
    ensures Survivors(souls, names, dead, births, ids + [y])
         == Survivors(souls, names, dead, births, ids)
            + if AliveAfter(souls, names, dead, births, y) then [y] else []
  {
    hide AliveAfter;
    if ids == [] {
      assert ids + [y] == [y] && [y][1..] == [];
    } else {
      SurvivorsSnoc(souls, names, dead, births, ids[1..], y);
      assert (ids + [y])[1..] == ids[1..] + [y];
    }
  }

  // ----- the state after the births -----

  lemma {:induction false} Births(state: (Souls, Lineage), p: Params, names: HeirNames, dead: nat, epoch: nat,
                                  unborn: seq<nat>, n: nat)
    requires n <= |unborn| && Injective(names)
    ensures var souls := Spawn(state, p, names, dead, epoch, unborn, n).0;
      forall i :: 0 <= i < n ==> names(dead, i) in souls && souls[names(dead, i)] == Child(p, dead, epoch, unborn[i])
  {
    hide Child, ChildrenOf, Injective;
    if n > 0 {
      Births(state, p, names, dead, epoch, unborn, n - 1);
      var id := names(dead, n - 1);
      forall i | 0 <= i < n - 1
        ensures names(dead, i) != id
      {
        NamesDiffer(names, dead, i, n - 1);
      }
    }
  }

  lemma NamesDiffer(names: HeirNames, dead: nat, i: nat, j: nat)
    requires Injective(names) && i != j
    ensures names(dead, i) != names(dead, j)
  {
  }

  lemma {:induction false} BirthsListed(state: (Souls, Lineage), p: Params, names: HeirNames, dead: nat, epoch: nat,
                                        unborn: seq<nat>, n: nat)
    requires n <= |unborn|
    ensures var lineage := Spawn(state, p, names, dead, epoch, unborn, n).1;
      && ChildrenOf(lineage, dead) == ChildrenOf(state.1, dead) + BirthNames(names, dead, n)
      && (forall y :: y != dead ==> ChildrenOf(lineage, y) == ChildrenOf(state.1, y))
  {
    hide Child;
    if n > 0 {
      BirthsListed(state, p, names, dead, epoch, unborn, n - 1);
      assert BirthNames(names, dead, n) == BirthNames(names, dead, n - 1) + [names(dead, n - 1)];
    }
  }

  /** After the births, the living are exactly the survivors and the newborn; the survivors hold what
      they held and the newborn hold the grant. */
  ghost predicate Born(souls: Souls, born: Souls, p: Params, names: HeirNames, dead: nat, births: nat) {
    && (forall x :: (x in born && born[x].Living()) <==> AliveAfter(souls, names, dead, births, x))
    && (forall x :: x in born ==>
          born[x].balance == if x in souls then souls[x].balance else p.childGrant)
    && (forall x :: x in souls ==> x in born)
  }

  lemma BornState(souls: Souls, lineage: Lineage, p: Params, names: HeirNames, dead: nat, epoch: nat,
                  reason: DeathReason, unborn: seq<nat>)
    requires dead in souls && Injective(names) && Unnamed(souls, names, dead, |unborn|)
    ensures var killed := KillSoul(souls, dead, epoch, reason);
      var (born, lineage') := Spawn((killed, lineage), p, names, dead, epoch, unborn, |unborn|);
      && Born(souls, born, p, names, dead, |unborn|)
      && dead in born && !born[dead].Living() && born[dead].parent == souls[dead].parent
      && ChildrenOf(lineage', dead) == ChildrenOf(lineage, dead) + BirthNames(names, dead, |unborn|)
      && (forall y :: y != dead ==> ChildrenOf(lineage', y) == ChildrenOf(lineage, y))
  {
    var killed := KillSoul(souls, dead, epoch, reason);
    assert Unnamed(killed, names, dead, |unborn|);
    SpawnAdds((killed, lineage), p, names, dead, epoch, unborn, |unborn|);
    Births((killed, lineage), p, names, dead, epoch, unborn, |unborn|);
    BirthsListed((killed, lineage), p, names, dead, epoch, unborn, |unborn|);
    hide Spawn, Injective, Wealth, ChildrenOf;
  }

  lemma {:induction false} OnlyLivingSurvive(souls: Souls, born: Souls, p: Params, names: HeirNames, dead: nat,
                                             births: nat, ids: seq<nat>)
    requires Born(souls, born, p, names, dead, births)
    ensures OnlyLiving(born, ids) == Survivors(souls, names, dead, births, ids)
  {
    hide AliveAfter;
    if ids != [] {
      var k := |ids| - 1;
      OnlyLivingSurvive(souls, born, p, names, dead, births, ids[..k]);
      SurvivorsSnoc(souls, names, dead, births, ids[..k], ids[k]);
      assert ids == ids[..k] + [ids[k]];
    }
  }

  lemma {:induction false} WithoutTheDead(born: Souls, ids: seq<nat>, dead: nat)
    requires dead in born && !born[dead].Living()
    ensures OnlyLiving(born, Without(ids, dead)) == OnlyLiving(born, ids)
  {
    if ids != [] {
      var k := |ids| - 1;
      WithoutTheDead(born, ids[..k], dead);
      var rest := Without(ids[..k], dead);
      assert (rest + [ids[k]])[..|rest|] == rest;
      assert rest + [] == rest;
    }
  }

  // ----- what the heirs gain -----

  /** Equal parts of the estate for everyone listed, one unit more for the first ones. */
  function PartOf(estate: nat, heirs: nat, i: nat): nat
    requires heirs > 0
  {
    estate / heirs + if i < estate % heirs then 1 else 0
  }

  /** What the places of `x` among the first `n` of the list bring it. */
  function Gain(heirs: seq<nat>, estate: nat, n: nat, x: nat): nat
    requires n <= |heirs|
  {
    if n == 0 then 0
    else Gain(heirs, estate, n - 1, x) + if heirs[n - 1] == x then PartOf(estate, |heirs|, n - 1) else 0
  }

  /** In a list without repetitions an heir gains the part of its place, and nobody else anything. */
  lemma {:induction false} GainOnce(heirs: seq<nat>, estate: nat, n: nat, x: nat)
    requires n <= |heirs| && forall i, j :: 0 <= i < j < |heirs| ==> heirs[i] != heirs[j]
    ensures forall i :: 0 <= i < n && heirs[i] == x ==> Gain(heirs, estate, n, x) == PartOf(estate, |heirs|, i)
    ensures x !in heirs[..n] ==> Gain(heirs, estate, n, x) == 0
  {
    hide PartOf;
    if n > 0 {
      GainOnce(heirs, estate, n - 1, x);
      assert heirs[..n] == heirs[..n - 1] + [heirs[n - 1]];
      if heirs[n - 1] == x {
        assert x !in heirs[..n - 1];
      }
    }
  }

  lemma {:induction false} PaidGain(souls: Souls, heirs: seq<nat>, dead: nat, estate: nat, n: nat, x: nat)
    requires n <= |heirs| && forall y :: y in heirs ==> y in souls && y != dead
    requires dead in souls && souls[dead].balance == estate && Wealth(souls) <= U64_MAX && x in souls
    ensures x in PayHeirs(souls, heirs, estate, n)
    ensures PayHeirs(souls, heirs, estate, n)[x].balance == souls[x].balance + Gain(heirs, estate, n, x)
  {
    hide BlockShare, QuarterPart, Wealth, PartOf;
    PayHeirsAdds(souls, heirs, dead, estate, n);
    if n > 0 {
      PaidGain(souls, heirs, dead, estate, n - 1, x);
      PayHeirsAdds(souls, heirs, dead, estate, n - 1);
      var before := PayHeirs(souls, heirs, estate, n - 1);
      var h := heirs[n - 1];
      assert h in heirs && dead !in heirs;
      PartIsShare(estate, |heirs|, n - 1);
      RoomForPart(before, h, dead, Wealth(souls), |heirs|, n);
    }
  }

  lemma PartIsShare(estate: nat, heirs: nat, i: nat)
    requires heirs > 0
    ensures BlockShare(estate, heirs, i) == PartOf(estate, heirs, i)
  {
  }

  /** An heir that is about to receive its part does not saturate: what it holds, what the others
      have received and the estate are parts of one wealth. */
  lemma RoomForPart(before: Souls, h: nat, dead: nat, wealth: nat, heirs: nat, n: nat)
    requires h in before && dead in before && h != dead && 0 < n <= heirs && wealth <= U64_MAX
    requires Wealth(before) == wealth + QuarterPart(before[dead].balance, heirs, n - 1)
    ensures before[h].balance + BlockShare(before[dead].balance, heirs, n - 1) <= U64_MAX
  {
    hide Wealth, QuarterPart, BlockShare;
    Reaper.PartFits(before[dead].balance, heirs, n);
    QuarterPartSteps(before[dead].balance, heirs, n - 1);
    TwoSouls(before, h, dead);
  }

  // ----- who the heirs are -----

  /** The will that counts is the first one of the soul. */
  lemma {:induction false} FirstWillCounts(wills: seq<Will>, id: nat)
    ensures WillOf(wills, id).None? ==> forall i :: 0 <= i < |wills| ==> wills[i].soul != id
    ensures WillOf(wills, id).Some? ==>
      exists i :: 0 <= i < |wills| && wills[i].soul == id && WillOf(wills, id).value == wills[i]
                  && forall j :: 0 <= j < i ==> wills[j].soul != id
  {
    if wills != [] {
      FirstWillCounts(wills[1..], id);
      if wills[0].soul == id {
        assert WillOf(wills, id).value == wills[0];
      } else if WillOf(wills, id).Some? {
        var i :| 0 <= i < |wills[1..]| && wills[1..][i].soul == id && WillOf(wills, id).value == wills[1..][i]
                 && forall j :: 0 <= j < i ==> wills[1..][j].soul != id;
        assert wills[i + 1] == wills[1..][i];
        assert forall j :: 0 < j < i + 1 ==> wills[j] == wills[1..][j - 1];
      } else {
        assert forall j :: 0 < j < |wills| ==> wills[j] == wills[1..][j - 1];
      }
    }
  }

  function NamedBy(wills: seq<Will>, id: nat): seq<nat> {
    var will := WillOf(wills, id);
    if will.Some? then will.value.heirs else []
  }

  /** The heirs the will names, as far as they live. */
  ghost function LivingNamed(w: World, names: HeirNames, wills: seq<Will>, id: nat): seq<nat> {
    Survivors(w.souls, names, id, |Unborn(wills, id)|, NamedBy(wills, id))
  }

  /** The children in the lineage, as far as they live, and then the newborn. */
  ghost function LivingChildren(w: World, names: HeirNames, wills: seq<Will>, id: nat): seq<nat> {
    var births := |Unborn(wills, id)|;
    Survivors(w.souls, names, id, births, ChildrenOf(w.lineage, id) + BirthNames(names, id, births))
  }

  /** The other children of the parent, as far as they live. */
  ghost function LivingSiblings(w: World, names: HeirNames, wills: seq<Will>, id: nat): seq<nat>
    requires id in w.souls
  {
    var parent := w.souls[id].parent;
    if parent.None? then []
    else Survivors(w.souls, names, id, |Unborn(wills, id)|, ChildrenOf(w.lineage, parent.value))
  }

  lemma {:induction false} InsertSorts(sorted: seq<nat>, x: nat)
    requires forall i, j :: 0 <= i < j < |sorted| ==> sorted[i] <= sorted[j]
    ensures forall i, j :: 0 <= i < j < |Insert(sorted, x)| ==> Insert(sorted, x)[i] <= Insert(sorted, x)[j]
  {
    if sorted != [] && x > sorted[0] {
      InsertSorts(sorted[1..], x);
      var rest := Insert(sorted[1..], x);
      InsertMembers(sorted[1..], x);
      forall i | 0 <= i < |rest|
        ensures sorted[0] <= rest[i]
      {
        assert rest[i] in multiset(rest);
        assert rest[i] == x || rest[i] in sorted[1..];
      }
    }
  }

  /** Siblings are listed in ascending order, each as often as in the lineage. */
  lemma {:induction false} SortedSorts(ids: seq<nat>)
    ensures forall i, j :: 0 <= i < j < |Sorted(ids)| ==> Sorted(ids)[i] <= Sorted(ids)[j]
    ensures multiset(Sorted(ids)) == multiset(ids)
  {
    SortedMembers(ids);
    if ids != [] {
      SortedSorts(ids[1..]);
      InsertSorts(Sorted(ids[1..]), ids[0]);
    }
  }

  /** Named heirs come first; children only if no named heir lives; siblings only if no child does. */
  lemma KinOrder(w: World, born: Souls, lineage: Lineage, p: Params, names: HeirNames, wills: seq<Will>, id: nat)
    requires id in w.souls && id in born && !born[id].Living() && born[id].parent == w.souls[id].parent
    requires Born(w.souls, born, p, names, id, |Unborn(wills, id)|)
    requires ChildrenOf(lineage, id) == ChildrenOf(w.lineage, id) + BirthNames(names, id, |Unborn(wills, id)|)
    requires forall y :: y != id ==> ChildrenOf(lineage, y) == ChildrenOf(w.lineage, y)
    ensures var named, children := LivingNamed(w, names, wills, id), LivingChildren(w, names, wills, id);
      KinSet(born, lineage, wills, id)
        == if named != [] then named
           else if children != [] then children
           else Sorted(LivingSiblings(w, names, wills, id))
  {
    var births := |Unborn(wills, id)|;
    OnlyLivingSurvive(w.souls, born, p, names, id, births, NamedBy(wills, id));
    OnlyLivingSurvive(w.souls, born, p, names, id, births, ChildrenOf(lineage, id));
    hide Born, OnlyLiving, Survivors, Sorted, Without;
    if w.souls[id].parent.Some? {
      var parent := w.souls[id].parent.value;
      OnlyLivingSurvive(w.souls, born, p, names, id, births, ChildrenOf(lineage, parent));
      WithoutTheDead(born, ChildrenOf(lineage, parent), id);
      if parent == id && births == 0 {
        assert ChildrenOf(lineage, id) == ChildrenOf(w.lineage, id);
      } else if parent == id {
        NewbornSurvive(w.souls, names, id, births, ChildrenOf(w.lineage, id));
      }
    } else {
      SortedNothing();
    }
  }

  lemma SortedNothing()
    ensures Sorted([]) == []
  {
  }

  lemma NewbornSurvive(souls: Souls, names: HeirNames, dead: nat, births: nat, ids: seq<nat>)
    requires births > 0
    ensures Survivors(souls, names, dead, births, ids + BirthNames(names, dead, births)) != []
  {
    var all := ids + BirthNames(names, dead, births);
    assert all[|ids|] == names(dead, 0);
    assert IsHeirName(names, dead, births, names(dead, 0));
    SurvivorsMembers(souls, names, dead, births, all, names(dead, 0));
  }

  // ----- the theorem -----

  /** The estate goes to `heirs` and to nobody else: every soul ends with what it held, or its grant
      if it is newborn, and the parts of its places in the list; the record says so, and without
      heirs the estate is burned. */
  ghost predicate Inherit(w: World, w': World, p: Params, id: nat, epoch: nat, heirs: seq<nat>)
    requires id in w.souls
  {
    var estate := w.souls[id].balance;
    && (forall x :: x in w'.souls && x != id ==>
          w'.souls[x].balance
            == (if x in w.souls then w.souls[x].balance else p.childGrant) + Gain(heirs, estate, |heirs|, x))
    && |w'.settlements| == |w.settlements| + 1
    && var record := w'.settlements[|w.settlements|];
       && record.dead == id && record.epoch == epoch
       && record.burned == (if heirs == [] then estate else 0)
       && (heirs != [] && estate > 0 ==>
             && |record.paid| == |heirs|
             && forall i :: 0 <= i < |heirs| ==> record.paid[i] == (heirs[i], PartOf(estate, |heirs|, i)))
  }

  lemma {:induction false} NothingGained(heirs: seq<nat>, n: nat, x: nat)
    requires n <= |heirs|
    ensures Gain(heirs, 0, n, x) == 0
  {
    if n > 0 {
      NothingGained(heirs, n - 1, x);
      ZeroParts(|heirs|, n - 1);
    }
  }

  lemma ZeroParts(heirs: nat, i: nat)
    requires heirs > 0
    ensures PartOf(0, heirs, i) == 0
  {
  }

  lemma SettleGives(born: Souls, heirs: seq<nat>, dead: nat, epoch: nat, x: nat)
    requires dead in born && forall y :: y in heirs ==> y in born && y != dead
    requires Wealth(born) <= U64_MAX && x in born && x != dead
    ensures var souls' := Settle(born, heirs, dead, epoch).0;
      x in souls' && souls'[x].balance == born[x].balance + Gain(heirs, born[dead].balance, |heirs|, x)
  {
    hide Wealth, PayHeirs, PartOf, BlockShare;
    var estate := born[dead].balance;
    if estate == 0 {
      NothingGained(heirs, |heirs|, x);
    } else if heirs != [] {
      PaidGain(born, heirs, dead, estate, |heirs|, x);
      PayHeirsAdds(born, heirs, dead, estate, |heirs|);
      hide Gain;
    }
  }

  lemma SettleRecords(born: Souls, heirs: seq<nat>, dead: nat, epoch: nat)
    requires dead in born
    ensures var record, estate := Settle(born, heirs, dead, epoch).1, born[dead].balance;
      && record.dead == dead && record.epoch == epoch && record.burned == (if heirs == [] then estate else 0)
      && (heirs != [] && estate > 0 ==>
            && |record.paid| == |heirs|
            && forall i :: 0 <= i < |heirs| ==> record.paid[i] == (heirs[i], PartOf(estate, |heirs|, i)))
  {
    hide PayHeirs, Clear;
    if heirs != [] {
      forall i | 0 <= i < |heirs|
        ensures BlockShare(born[dead].balance, |heirs|, i) == PartOf(born[dead].balance, |heirs|, i)
      {
        PartIsShare(born[dead].balance, |heirs|, i);
      }
    }
    hide BlockShare, PartOf;
  }

  /** Who takes the estate of `id`. */
  ghost predicate EstateTaken(w: World, w': World, p: Params, names: HeirNames, wills: seq<Will>, id: nat, epoch: nat)
    requires id in w.souls
  {
    var named, children := LivingNamed(w, names, wills, id), LivingChildren(w, names, wills, id);
    && (named != [] ==> Inherit(w, w', p, id, epoch, named))
    && (named == [] && children != [] ==> Inherit(w, w', p, id, epoch, children))
    && (named == [] && children == [] ==> Inherit(w, w', p, id, epoch, Sorted(LivingSiblings(w, names, wills, id))))
  }

  /** One death: the living heirs named in the will take the estate, and nobody else; if none of them
      lives, the living children do, newborn included; if there is none, the living siblings in
      ascending order; and if there is none either, it is burned. */
  lemma WhoInherits(w: World, p: Params, names: HeirNames, wills: seq<Will>, id: nat, epoch: nat, reason: DeathReason)
    requires id in w.souls && w.souls[id].Living()
    requires Injective(names) && Unnamed(w.souls, names, id, |Unborn(wills, id)|)
    requires Wealth(w.souls) + |Unborn(wills, id)| * p.childGrant <= U64_MAX
    ensures EstateTaken(w, Die(w, p, names, wills, id, epoch, reason), p, names, wills, id, epoch)
  {
    hide Wealth, Spawn, KinSet, Settle, Injective, Unborn, Unnamed, KillSoul, Inherit;
    hide LivingNamed, LivingChildren, LivingSiblings, Sorted;
    var unborn := Unborn(wills, id);
    var killed := KillSoul(w.souls, id, epoch, reason);
    var (born, lineage) := Spawn((killed, w.lineage), p, names, id, epoch, unborn, |unborn|);
    BornState(w.souls, w.lineage, p, names, id, epoch, reason, unborn);
    KinOrder(w, born, lineage, p, names, wills, id);
    BornWealth(w, p, names, wills, id, epoch, reason);
    HeirsTake(w, born, lineage, p, names, wills, id, epoch, Die(w, p, names, wills, id, epoch, reason));
  }

  lemma BornWealth(w: World, p: Params, names: HeirNames, wills: seq<Will>, id: nat, epoch: nat, reason: DeathReason)
    requires id in w.souls && Injective(names) && Unnamed(w.souls, names, id, |Unborn(wills, id)|)
    ensures var unborn := Unborn(wills, id);
      Wealth(Spawn((KillSoul(w.souls, id, epoch, reason), w.lineage), p, names, id, epoch, unborn, |unborn|).0)
        == Wealth(w.souls) + |unborn| * p.childGrant
  {
    hide Wealth, Spawn, Injective, Unborn;
    KillKeepsWealth(w.souls, id, epoch, reason);
    assert Unnamed(KillSoul(w.souls, id, epoch, reason), names, id, |Unborn(wills, id)|);
    SpawnAdds((KillSoul(w.souls, id, epoch, reason), w.lineage), p, names, id, epoch, Unborn(wills, id),
              |Unborn(wills, id)|);
  }

  lemma HeirsTake(w: World, born: Souls, lineage: Lineage, p: Params, names: HeirNames, wills: seq<Will>, id: nat,
                  epoch: nat, w': World)
    requires id in w.souls && id in born && !born[id].Living()
    requires Born(w.souls, born, p, names, id, |Unborn(wills, id)|) && Wealth(born) <= U64_MAX
    requires var settled := Settle(born, KinSet(born, lineage, wills, id), id, epoch);
      w'.souls == settled.0 && w'.settlements == w.settlements + [settled.1]
    ensures Inherit(w, w', p, id, epoch, KinSet(born, lineage, wills, id))
  {
    hide Wealth, KinSet, Settle, Unborn, Gain, PartOf, AliveAfter;
    var heirs := KinSet(born, lineage, wills, id);
    KinLives(born, lineage, wills, id);
    SettleConserves(born, heirs, id, epoch);
    SettleRecords(born, heirs, id, epoch);
    assert born[id].balance == w.souls[id].balance;
    forall x | x in w'.souls && x != id
      ensures w'.souls[x].balance == (if x in w.souls then w.souls[x].balance else p.childGrant)
                                     + Gain(heirs, w.souls[id].balance, |heirs|, x)
    {
      SettleGives(born, heirs, id, epoch, x);
    }
  }

  /** The same at every turn of an epoch, however many deaths came before: if the soul whose turn it
      is is condemned, its estate is taken as the will, the lineage and the living then stand. */
  lemma InheritsAtTurn(w: World, p: Params, names: HeirNames, wills: seq<Will>, ids: seq<nat>, epoch: nat, n: nat)
    requires n < |ids| && Ready(w, p, names, wills, ids, epoch)
    requires var before := ReapAll(w, p, names, wills, ids, epoch, n);
      ids[n] in before.souls && FateOf(before.souls[ids[n]], p, epoch).Some?
    ensures EstateTaken(ReapAll(w, p, names, wills, ids, epoch, n), ReapAll(w, p, names, wills, ids, epoch, n + 1),
                        p, names, wills, ids[n], epoch)
  {
    hide Accounted, Fates, Wealth, Injective, Unnamed, Die, EstateTaken, FateOf, Unborn;
    var before, id := ReapAll(w, p, names, wills, ids, epoch, n), ids[n];
    var reason := FateOf(before.souls[id], p, epoch).value;
    assert before.souls[id].Living() by {
      FateMeansAlive(before.souls[id], p, epoch);
    }
    LoopHolds(w, p, names, wills, ids, epoch, n);
    assert id in ids && id !in ids[..n];
    StillUnnamed(w, before, names, ids[..n], id, |Unborn(wills, id)|);
    GrantedGrows(w, p, names, wills, ids, epoch, n + 1, |ids|);
    SpawnedBy(before, p, names, wills, id, epoch, reason);
    WealthSoFar(w, before, p, |Unborn(wills, id)|);
    WhoInherits(before, p, names, wills, id, epoch, reason);
  }

  lemma FateMeansAlive(s: Soul, p: Params, epoch: nat)
    requires FateOf(s, p, epoch).Some?
    ensures s.Living()
  {
  }
}

/** Agent souls and the reaper's epoch pass (`crates/agent-life/src/lib.rs`). */
module Life {
  import opened Arithmetic
  import opened Collections
  import opened Emission

  const U64_RANGE: nat := U64_MAX + 1

  datatype Status = Alive | Quarantined | Dead

  datatype DeathReason = Natural | Insolvency

  datatype Soul = Soul(status: Status, balance: nat, debt: nat, naturalDeath: nat, genomeBytes: Option<nat>,
                       parent: Option<nat>, insolventSince: Option<nat>, death: Option<(nat, DeathReason)>)
  {
    predicate Living() { status != Dead }

    predicate Insolvent() { debt > 0 && balance == 0 }
  }

  datatype Loan = Loan(borrower: nat, outstanding: nat, bps: nat, accepted: bool)

  /** Wills are listed in the order of their ids. */
  datatype Will = Will(soul: nat, heirs: seq<nat>, unborn: seq<nat>)

  datatype Settlement = Settlement(dead: nat, epoch: nat, paid: seq<(nat, nat)>, burned: nat)

  datatype Params = Params(baseRent: nat, rentPerKb: nat, discountBps: int, loanBps: nat, childGrant: nat,
                           naturalLife: nat, insolvencyGrace: nat)

  type Souls = map<nat, Soul>

  type Lineage = map<nat, seq<nat>>

  /** The identifier of the heir a dead soul spawns from the given entry of its will. */
  type HeirNames = (nat, nat) -> nat

  // ----- rent, interest, insolvency -----

  function RentCharge(p: Params, genomeBytes: Option<nat>): nat {
    var bytes := if genomeBytes.Some? then genomeBytes.value else 0;
    var subtotal := p.baseRent + CeilDiv(bytes, 1024) * p.rentPerKb;
    var scaled := subtotal * (10_000 - p.discountBps);
    if scaled <= 0 then 0 else scaled / 10_000 % U64_RANGE
  }

  function RentPaid(s: Soul, p: Params): nat { Min(RentCharge(p, s.genomeBytes), s.balance) }

  function PayRent(s: Soul, p: Params): Soul {
    s.(balance := s.balance - RentPaid(s, p), debt := s.debt + RentCharge(p, s.genomeBytes) - RentPaid(s, p))
  }

  /** Rent charged to the souls in `who`. */
  function ChargeRent(souls: Souls, p: Params, who: set<nat>): Souls {
    map id | id in souls :: if id in who then PayRent(souls[id], p) else souls[id]
  }

  function LivingIds(souls: Souls): set<nat> { set id | id in souls && souls[id].Living() }

  function Interest(loan: Loan, p: Params): nat {
    CeilDiv(Min(loan.outstanding * Max(loan.bps, p.loanBps), U64_MAX), 10_000)
  }

  function AddDebt(souls: Souls, id: nat, amount: nat): Souls {
    if id in souls then souls[id := souls[id].(debt := SatAdd64(souls[id].debt, amount))] else souls
  }

  function AccrueOne(state: (Souls, map<nat, Loan>), id: nat, p: Params): (Souls, map<nat, Loan>)
    requires id in state.1
  {
    var loan := state.1[id];
    var interest := Interest(loan, p);
    if !loan.accepted || interest == 0 then state
    else (AddDebt(state.0, loan.borrower, interest),
          state.1[id := loan.(outstanding := SatAdd64(loan.outstanding, interest))])
  }

  function Accrue(souls: Souls, loans: map<nat, Loan>, ids: seq<nat>, p: Params): (r: (Souls, map<nat, Loan>))
    requires forall i :: 0 <= i < |ids| ==> ids[i] in loans
    ensures r.1.Keys == loans.Keys
  {
    if ids == [] then (souls, loans)
    else AccrueOne(Accrue(souls, loans, ids[..|ids| - 1], p), ids[|ids| - 1], p)
  }

  function GrownLoan(loan: Loan, p: Params): Loan {
    if loan.accepted && Interest(loan, p) > 0
    then loan.(outstanding := SatAdd64(loan.outstanding, Interest(loan, p))) else loan
  }

  /** The loans in `who` with one epoch of interest. */
  function GrownLoans(loans: map<nat, Loan>, p: Params, who: set<nat>): map<nat, Loan> {
    map id | id in loans :: if id in who then GrownLoan(loans[id], p) else loans[id]
  }

  /** No loan's interest depends on another loan or on a soul: every accepted loan grows once. */
  lemma {:induction false} AccrueGrowsLoans(souls: Souls, loans: map<nat, Loan>, ids: seq<nat>, p: Params)
    requires StrictlyAscending(ids) && forall i :: 0 <= i < |ids| ==> ids[i] in loans
    ensures Accrue(souls, loans, ids, p).1 == GrownLoans(loans, p, Elements(ids))
  {
    hide Interest, Elements;
    if ids == [] {
      NoElements(ids);
      assert ids[..0] == ids;
    } else {
      var k := |ids| - 1;
      AccrueGrowsLoans(souls, loans, ids[..k], p);
      FreshElement(ids, k);
      assert ids[..k + 1] == ids;
    }
  }

  lemma LoansGrow(souls: Souls, loans: map<nat, Loan>, p: Params)
    ensures (AscendingMembers(loans.Keys); Accrue(souls, loans, Ascending(loans.Keys), p).1)
         == GrownLoans(loans, p, loans.Keys)
  {
    hide Accrue, GrownLoans, Elements;
    var ids: seq<nat> := Ascending(loans.Keys);
    AscendingMembers(loans.Keys);
    AscendingSorted(loans.Keys);
    assert forall i :: 0 <= i < |ids| ==> ids[i] in ids;
    AccrueGrowsLoans(souls, loans, ids, p);
    AllElements(ids, loans.Keys);
    assert ids[..|ids|] == ids;
  }

  function MarkSoul(s: Soul, epoch: nat): Soul {
    if !s.Living() then s
    else if s.Insolvent() then
      s.(insolventSince := if s.insolventSince.None? then Some(epoch) else s.insolventSince, status := Quarantined)
    else s.(insolventSince := None, status := if s.status == Quarantined then Alive else s.status)
  }

  function MarkInsolvent(souls: Souls, epoch: nat, who: set<nat>): Souls {
    map id | id in souls :: if id in who then MarkSoul(souls[id], epoch) else souls[id]
  }

  // ----- death, heirs, inheritance -----

  function WillOf(wills: seq<Will>, id: nat): Option<Will> {
    if wills == [] then None
    else if wills[0].soul == id then Some(wills[0])
    else WillOf(wills[1..], id)
  }

  function KillSoul(souls: Souls, id: nat, epoch: nat, reason: DeathReason): Souls
    requires id in souls
  {
    souls[id := souls[id].(status := Dead, death := Some((epoch, reason)))]
  }

  function Child(p: Params, parent: nat, epoch: nat, genomeBytes: nat): Soul {
    Soul(Alive, p.childGrant, 0, epoch + p.naturalLife, Some(genomeBytes), Some(parent), None, None)
  }

  function ChildrenOf(lineage: Lineage, id: nat): seq<nat> { if id in lineage then lineage[id] else [] }

  /** The first `n` unborn heirs of `dead` come to life, each with the child grant. */
  function Spawn(state: (Souls, Lineage), p: Params, names: HeirNames, dead: nat, epoch: nat, unborn: seq<nat>, n: nat)
    : (Souls, Lineage)
    requires n <= |unborn|
  {
    if n == 0 then state
    else
      var (souls, lineage) := Spawn(state, p, names, dead, epoch, unborn, n - 1);
      var id := names(dead, n - 1);
      (souls[id := Child(p, dead, epoch, unborn[n - 1])], lineage[dead := ChildrenOf(lineage, dead) + [id]])
  }

  function OnlyLiving(souls: Souls, ids: seq<nat>): seq<nat> {
    if ids == [] then []
    else
      var k := |ids| - 1;
      OnlyLiving(souls, ids[..k]) + if ids[k] in souls && souls[ids[k]].Living() then [ids[k]] else []
  }

  function Without(ids: seq<nat>, x: nat): seq<nat> {
    if ids == [] then []
    else
      var k := |ids| - 1;
      Without(ids[..k], x) + if ids[k] != x then [ids[k]] else []
  }

  function Insert(sorted: seq<nat>, x: nat): seq<nat> {
    if sorted == [] || x <= sorted[0] then [x] + sorted else [sorted[0]] + Insert(sorted[1..], x)
  }

  function Sorted(ids: seq<nat>): seq<nat> {
    if ids == [] then [] else Insert(Sorted(ids[1..]), ids[0])
  }

  /** Living named heirs; failing those, living children; failing those, living siblings. */
  function KinSet(souls: Souls, lineage: Lineage, wills: seq<Will>, id: nat): seq<nat> {
    if id !in souls then []
    else
      var will := WillOf(wills, id);
      var named := OnlyLiving(souls, if will.Some? then will.value.heirs else []);
      if named != [] then named
      else
        var children := OnlyLiving(souls, ChildrenOf(lineage, id));
        if children != [] then children
        else if souls[id].parent.None? then []
        else Sorted(OnlyLiving(souls, Without(ChildrenOf(lineage, souls[id].parent.value), id)))
  }

  function PayHeir(souls: Souls, id: nat, amount: nat): Souls {
    if id in souls then souls[id := souls[id].(balance := SatAdd64(souls[id].balance, amount))] else souls
  }

  /** The first `n` heirs receive equal parts, the first ones one unit more. */
  function PayHeirs(souls: Souls, heirs: seq<nat>, estate: nat, n: nat): Souls
    requires n <= |heirs|
  {
    if n == 0 then souls
    else PayHeir(PayHeirs(souls, heirs, estate, n - 1), heirs[n - 1], BlockShare(estate, |heirs|, n - 1))
  }

  function Clear(souls: Souls, id: nat): Souls {
    if id in souls then souls[id := souls[id].(balance := 0)] else souls
  }

  function Payouts(heirs: seq<nat>, estate: nat): seq<(nat, nat)> {
    seq(|heirs|, i requires 0 <= i < |heirs| => (heirs[i], BlockShare(estate, |heirs|, i)))
  }

  function Settle(souls: Souls, heirs: seq<nat>, dead: nat, epoch: nat): (Souls, Settlement)
    requires dead in souls
  {
    var estate := souls[dead].balance;
    if heirs == [] || estate == 0 then (Clear(souls, dead), Settlement(dead, epoch, [], estate))
    else (Clear(PayHeirs(souls, heirs, estate, |heirs|), dead), Settlement(dead, epoch, Payouts(heirs, estate), 0))
  }

  // ----- the death loop -----

  datatype World = World(souls: Souls, lineage: Lineage, settlements: seq<Settlement>, spawned: nat)

  function Unborn(wills: seq<Will>, id: nat): seq<nat> {
    var will := WillOf(wills, id);
    if will.Some? then will.value.unborn else []
  }

  function Die(w: World, p: Params, names: HeirNames, wills: seq<Will>, id: nat, epoch: nat, reason: DeathReason): World
    requires id in w.souls
  {
    var unborn := Unborn(wills, id);
    var killed := KillSoul(w.souls, id, epoch, reason);
    var (souls, lineage) := Spawn((killed, w.lineage), p, names, id, epoch, unborn, |unborn|);
    if id !in souls then w.(souls := souls, lineage := lineage)
    else
      var (settled, record) := Settle(souls, KinSet(souls, lineage, wills, id), id, epoch);
      World(settled, lineage, w.settlements + [record], w.spawned + |unborn|)
  }

  function FateOf(s: Soul, p: Params, epoch: nat): Option<DeathReason> {
    if !s.Living() then None
    else if s.naturalDeath <= epoch then Some(Natural)
    else if s.insolventSince.Some? && SatSub(epoch, s.insolventSince.value) >= p.insolvencyGrace then Some(Insolvency)
    else None
  }

  function Reap(w: World, p: Params, names: HeirNames, wills: seq<Will>, id: nat, epoch: nat): World {
    if id !in w.souls then w
    else
      match FateOf(w.souls[id], p, epoch)
      case None => w
      case Some(reason) => Die(w, p, names, wills, id, epoch, reason)
  }

  /** The loop over the first `n` ids. */
  function ReapAll(w: World, p: Params, names: HeirNames, wills: seq<Will>, ids: seq<nat>, epoch: nat, n: nat): World
    requires n <= |ids|
  {
    if n == 0 then w else Reap(ReapAll(w, p, names, wills, ids, epoch, n - 1), p, names, wills, ids[n - 1], epoch)
  }

  /** The souls as the death loop finds them: rent charged, interest accrued, insolvency marked. */
  function Prepared(souls: Souls, loans: map<nat, Loan>, p: Params, epoch: nat): Souls {
    AscendingMembers(loans.Keys);
    var charged := ChargeRent(souls, p, LivingIds(souls));
    var accrued := Accrue(charged, loans, Ascending(loans.Keys), p).0;
    MarkInsolvent(accrued, epoch, accrued.Keys)
  }

  function ReaperSpec(w: World, loans: map<nat, Loan>, p: Params, names: HeirNames, wills: seq<Will>, epoch: nat)
    : World
  {
    var souls := Prepared(w.souls, loans, p, epoch);
    var ids := Ascending(souls.Keys);
    ReapAll(w.(souls := souls), p, names, wills, ids, epoch, |ids|)
  }

  // ----- the object the code mutates -----

  class LifeState {
    var souls: Souls
    var lineage: Lineage
    var loans: map<nat, Loan>
    var wills: seq<Will>
    var settlements: seq<Settlement>
    var spawned: nat

    ghost function Value(): World
      reads this
    {
      World(souls, lineage, settlements, spawned)
    }

    method ChargeRents(p: Params)
      modifies this`souls
      ensures souls == ChargeRent(old(souls), p, LivingIds(old(souls)))
    {
      hide PayRent, ChargeRent, Elements;
      var alive: seq<nat> := Ascending(LivingIds(souls));
      AscendingMembers(LivingIds(souls));
      AscendingSorted(LivingIds(souls));
      ChargeNobody(souls, p);
      NoElements(alive);
      for i := 0 to |alive|
        invariant souls == ChargeRent(old(souls), p, Elements(alive[..i]))
      {
        FreshElement(alive, i);
        assert alive[i] in alive;
        ChargeOneMore(old(souls), p, Elements(alive[..i]), alive[i]);
        souls := souls[alive[i] := PayRent(souls[alive[i]], p)];
      }
      AllElements(alive, LivingIds(old(souls)));
    }

    method AccrueInterest(p: Params)
      modifies this`souls, this`loans
      ensures (souls, loans)
           == (AscendingMembers(old(loans).Keys); Accrue(old(souls), old(loans), Ascending(old(loans).Keys), p))
    {
      hide AccrueOne, Accrue;
      var ids: seq<nat> := Ascending(loans.Keys);
      AscendingMembers(loans.Keys);
      assert forall j :: 0 <= j < |ids| ==> ids[j] in ids;
      AccrueNothing(souls, loans, ids, p);
      for i := 0 to |ids|
        invariant loans.Keys == old(loans).Keys
        invariant (souls, loans) == Accrue(old(souls), old(loans), ids[..i], p)
      {
        AccrueStep(old(souls), old(loans), ids, p, i);
        AccrueLoan(ids[i], p);
      }
      assert ids[..|ids|] == ids;
    }

    method AccrueLoan(id: nat, p: Params)
      requires id in loans
      modifies this`souls, this`loans
      ensures (souls, loans) == AccrueOne((old(souls), old(loans)), id, p)
      ensures loans.Keys == old(loans).Keys
    {
      hide Interest, AddDebt;
      var loan := loans[id];
      var interest := Interest(loan, p);
      if !loan.accepted || interest == 0 {
        return;
      }
      loans := loans[id := loan.(outstanding := SatAdd64(loan.outstanding, interest))];
      souls := AddDebt(souls, loan.borrower, interest);
    }

    method MarkInsolventSouls(epoch: nat)
      modifies this`souls
      ensures souls == MarkInsolvent(old(souls), epoch, old(souls).Keys)
    {
      hide MarkSoul, MarkInsolvent, Elements;
      var ids: seq<nat> := Ascending(souls.Keys);
      AscendingMembers(souls.Keys);
      AscendingSorted(souls.Keys);
      MarkNobody(souls, epoch);
      NoElements(ids);
      for i := 0 to |ids|
        invariant souls == MarkInsolvent(old(souls), epoch, Elements(ids[..i]))
      {
        FreshElement(ids, i);
        assert ids[i] in ids;
        MarkOneMore(old(souls), epoch, Elements(ids[..i]), ids[i]);
        var marked := MarkedSoul(souls[ids[i]], epoch);
        souls := souls[ids[i] := marked];
      }
      AllElements(ids, old(souls).Keys);
    }

    static method MarkedSoul(soul: Soul, epoch: nat) returns (s: Soul)
      ensures s == MarkSoul(soul, epoch)
    {
      s := soul;
      if s.status == Dead {
        return;
      }
      if s.debt > 0 && s.balance == 0 {
        if s.insolventSince.None? {
          s := s.(insolventSince := Some(epoch));
        }
        if s.status != Quarantined {
          s := s.(status := Quarantined);
        }
      } else {
        s := s.(insolventSince := None);
        if s.status == Quarantined {
          s := s.(status := Alive);
        }
      }
    }

    method SpawnUnbornHeirs(p: Params, names: HeirNames, dead: nat, epoch: nat) returns (count: nat)
      modifies this`souls, this`lineage
      ensures count == |Unborn(wills, dead)|
      ensures (souls, lineage) == Spawn((old(souls), old(lineage)), p, names, dead, epoch, Unborn(wills, dead), count)
    {
      var unborn := Unborn(wills, dead);
      count := 0;
      for i := 0 to |unborn|
        invariant count == i
        invariant (souls, lineage) == Spawn((old(souls), old(lineage)), p, names, dead, epoch, unborn, i)
      {
        var id := names(dead, i);
        lineage := lineage[dead := ChildrenOf(lineage, dead) + [id]];
        souls := souls[id := Child(p, dead, epoch, unborn[i])];
        count := count + 1;
      }
    }

    method SettleInheritance(dead: nat, epoch: nat)
      requires dead in souls
      modifies this`souls, this`settlements
      ensures var settled := Settle(old(souls), KinSet(old(souls), lineage, wills, dead), dead, epoch);
        souls == settled.0 && settlements == old(settlements) + [settled.1]
    {
      hide KinSet;
      var heirs := KinSet(souls, lineage, wills, dead);
      var estate := souls[dead].balance;
      if heirs == [] || estate == 0 {
        souls := Clear(souls, dead);
        settlements := settlements + [Settlement(dead, epoch, [], estate)];
        return;
      }
      var payouts := PayInheritance(heirs, estate);
      souls := Clear(souls, dead);
      settlements := settlements + [Settlement(dead, epoch, payouts, 0)];
    }

    method PayInheritance(heirs: seq<nat>, estate: nat) returns (payouts: seq<(nat, nat)>)
      requires heirs != []
      modifies this`souls
      ensures souls == PayHeirs(old(souls), heirs, estate, |heirs|)
      ensures payouts == Payouts(heirs, estate)
    {
      hide PayHeir;
      var base := estate / |heirs|;
      var dust := estate - base * |heirs|;
      assert dust == estate % |heirs|;
      payouts := [];
      for i := 0 to |heirs|
        invariant souls == PayHeirs(old(souls), heirs, estate, i)
        invariant dust == SatSub(estate % |heirs|, i)
        invariant payouts == Payouts(heirs, estate)[..i]
      {
        var extra := if dust > 0 then 1 else 0;
        dust := SatSub(dust, extra);
        var amount := base + extra;
        assert amount == BlockShare(estate, |heirs|, i);
        souls := PayHeir(souls, heirs[i], amount);
        payouts := payouts + [(heirs[i], amount)];
      }
      assert Payouts(heirs, estate)[..|heirs|] == Payouts(heirs, estate);
    }

    method KillAndSettle(p: Params, names: HeirNames, id: nat, epoch: nat, reason: DeathReason)
      requires id in souls
      modifies this`souls, this`lineage, this`settlements, this`spawned
      ensures Value() == Die(old(Value()), p, names, wills, id, epoch, reason)
    {
      hide Settle, KinSet, Unborn;
      souls := KillSoul(souls, id, epoch, reason);
      var count := SpawnUnbornHeirs(p, names, id, epoch);
      SpawnKeepsIds((KillSoul(old(souls), id, epoch, reason), old(lineage)), p, names, id, epoch,
                    Unborn(wills, id), count);
      spawned := spawned + count;
      SettleInheritance(id, epoch);
    }

    /** Rent, interest and insolvency marks, in this order. */
    method Prepare(p: Params, epoch: nat)
      modifies this`souls, this`loans
      ensures souls == Prepared(old(souls), old(loans), p, epoch)
      ensures loans == GrownLoans(old(loans), p, old(loans).Keys)
    {
      hide ChargeRent, Accrue, MarkInsolvent, GrownLoans;
      ChargeRents(p);
      AscendingMembers(loans.Keys);
      LoansGrow(souls, loans, p);
      AccrueInterest(p);
      MarkInsolventSouls(epoch);
    }

    method RunDeaths(p: Params, names: HeirNames, ids: seq<nat>, epoch: nat)
      modifies this`souls, this`lineage, this`settlements, this`spawned
      ensures Value() == ReapAll(old(Value()), p, names, wills, ids, epoch, |ids|)
    {
      hide Die, FateOf;
      for i := 0 to |ids|
        invariant Value() == ReapAll(old(Value()), p, names, wills, ids, epoch, i)
      {
        if ids[i] in souls {
          var fate := FateOf(souls[ids[i]], p, epoch);
          if fate.Some? {
            KillAndSettle(p, names, ids[i], epoch, fate.value);
          }
        }
      }
    }

    /** One epoch of the reaper. */
    method ReaperEpoch(p: Params, names: HeirNames, epoch: nat)
      modifies this`souls, this`lineage, this`loans, this`settlements, this`spawned
      ensures Value() == ReaperSpec(old(Value()), old(loans), p, names, wills, epoch)
      ensures loans == GrownLoans(old(loans), p, old(loans).Keys)
    {
      hide Prepared, ReapAll, GrownLoans;
      Prepare(p, epoch);
      RunDeaths(p, names, Ascending(souls.Keys), epoch);
    }
  }

  lemma {:induction false} SpawnKeepsIds(state: (Souls, Lineage), p: Params, names: HeirNames, dead: nat, epoch: nat,
                                         unborn: seq<nat>, n: nat)
    requires n <= |unborn|
    ensures forall id :: id in state.0 ==> id in Spawn(state, p, names, dead, epoch, unborn, n).0
  {
    if n > 0 {
      SpawnKeepsIds(state, p, names, dead, epoch, unborn, n - 1);
    }
  }

  // ----- steps of the loops -----

  lemma NoElements(s: seq<nat>)
    ensures Elements(s[..0]) == {}
  {
  }

  lemma FreshElement(s: seq<nat>, i: nat)
    requires StrictlyAscending(s) && i < |s|
    ensures s[i] !in Elements(s[..i])
    ensures Elements(s[..i + 1]) == Elements(s[..i]) + {s[i]}
  {
    PrefixSet(s, i);
  }

  lemma AllElements(s: seq<nat>, ids: set<nat>)
    requires forall x :: x in s <==> x in ids
    ensures Elements(s[..|s|]) == ids
  {
    assert s[..|s|] == s;
  }

  lemma AccrueNothing(souls: Souls, loans: map<nat, Loan>, ids: seq<nat>, p: Params)
    ensures Accrue(souls, loans, ids[..0], p) == (souls, loans)
  {
  }

  lemma AccrueStep(souls: Souls, loans: map<nat, Loan>, ids: seq<nat>, p: Params, i: nat)
    requires i < |ids| && forall j :: 0 <= j < |ids| ==> ids[j] in loans
    ensures Accrue(souls, loans, ids[..i + 1], p) == AccrueOne(Accrue(souls, loans, ids[..i], p), ids[i], p)
  {
    hide AccrueOne;
    assert ids[..i + 1][..i] == ids[..i];
  }

  lemma ChargeNobody(souls: Souls, p: Params)
    ensures ChargeRent(souls, p, {}) == souls
  {
  }

  lemma ChargeOneMore(souls: Souls, p: Params, who: set<nat>, id: nat)
    requires id in souls && id !in who
    ensures id in ChargeRent(souls, p, who) && ChargeRent(souls, p, who)[id] == souls[id]
    ensures ChargeRent(souls, p, who + {id}) == ChargeRent(souls, p, who)[id := PayRent(souls[id], p)]
  {
    hide PayRent;
  }

  lemma MarkNobody(souls: Souls, epoch: nat)
    ensures MarkInsolvent(souls, epoch, {}) == souls
  {
  }

  lemma MarkOneMore(souls: Souls, epoch: nat, who: set<nat>, id: nat)
    requires id in souls && id !in who
    ensures id in MarkInsolvent(souls, epoch, who) && MarkInsolvent(souls, epoch, who)[id] == souls[id]
    ensures MarkInsolvent(souls, epoch, who + {id})
         == MarkInsolvent(souls, epoch, who)[id := MarkSoul(souls[id], epoch)]
  {
    hide MarkSoul;
  }
}

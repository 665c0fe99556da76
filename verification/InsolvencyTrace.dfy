/** Why a soul dies of insolvency: the trace of reaper passes behind every such death. */
module InsolvencyTrace {
  import opened Collections
  import opened Emission
  import opened Life

  /** What one pass found: its epoch and the living souls that had debt and no balance. */
  datatype Mark = Mark(epoch: nat, insolvent: set<nat>)

  /** A reaper pass, or anything else that edits souls in between. */
  datatype TraceStep =
    | Pass(epoch: nat, loans: map<nat, Loan>, wills: seq<Will>)
    | Outside(souls: Souls)

  /** The souls as the marking pass finds them. */
  function Accrued(souls: Souls, loans: map<nat, Loan>, p: Params): Souls {
    AscendingMembers(loans.Keys);
    Accrue(ChargeRent(souls, p, LivingIds(souls)), loans, Ascending(loans.Keys), p).0
  }

  function InsolventIds(souls: Souls): set<nat> {
    set id | id in souls && souls[id].Living() && souls[id].Insolvent()
  }

  /** Nobody gains or shifts an insolvency date, and nobody comes back to life with one. */
  ghost predicate DatesKept(souls: Souls, souls': Souls) {
    forall x :: x in souls' && souls'[x].Living() && souls'[x].insolventSince.Some? ==>
      x in souls && souls[x].Living() && souls[x].insolventSince == souls'[x].insolventSince
  }

  function After(w: World, p: Params, names: HeirNames, step: TraceStep): World {
    match step
    case Pass(epoch, loans, wills) => ReaperSpec(w, loans, p, names, wills, epoch)
    case Outside(souls) => w.(souls := souls)
  }

  function MarksOf(w: World, p: Params, step: TraceStep): seq<Mark> {
    match step
    case Pass(epoch, loans, _) => [Mark(epoch, InsolventIds(Accrued(w.souls, loans, p)))]
    case Outside(_) => []
  }

  function Run(w: World, p: Params, names: HeirNames, steps: seq<TraceStep>): World {
    if steps == [] then w
    else After(Run(w, p, names, steps[..|steps| - 1]), p, names, steps[|steps| - 1])
  }

  function History(w: World, p: Params, names: HeirNames, steps: seq<TraceStep>): seq<Mark> {
    if steps == [] then []
    else
      var k := |steps| - 1;
      History(w, p, names, steps[..k]) + MarksOf(Run(w, p, names, steps[..k]), p, steps[k])
  }

  /** Outside edits respect insolvency dates: they change balances and debts and add newborns. */
  ghost predicate Admissible(w: World, p: Params, names: HeirNames, steps: seq<TraceStep>) {
    forall i :: 0 <= i < |steps| && steps[i].Outside? ==> DatesKept(Run(w, p, names, steps[..i]).souls, steps[i].souls)
  }

  /** `x` was found insolvent by a pass of epoch `since` and by every pass after it. */
  ghost predicate Tracked(history: seq<Mark>, x: nat, since: nat) {
    exists j :: 0 <= j < |history| && history[j].epoch == since
             && forall k :: j <= k < |history| ==> x in history[k].insolvent
  }

  ghost predicate AllTracked(souls: Souls, history: seq<Mark>) {
    forall x :: x in souls && souls[x].Living() && souls[x].insolventSince.Some? ==>
      Tracked(history, x, souls[x].insolventSince.value)
  }

  // ----- dates are kept by everything but marking -----

  lemma AllTrackedKept(souls: Souls, souls': Souls, history: seq<Mark>)
    requires AllTracked(souls, history) && DatesKept(souls, souls')
    ensures AllTracked(souls', history)
  {
    hide Tracked;
  }

  lemma RentKeepsDates(souls: Souls, p: Params, who: set<nat>)
    ensures DatesKept(souls, ChargeRent(souls, p, who))
  {
    hide RentCharge, RentPaid;
  }

  lemma {:induction false} AccrueKeepsDates(souls: Souls, loans: map<nat, Loan>, ids: seq<nat>, p: Params)
    requires forall i :: 0 <= i < |ids| ==> ids[i] in loans
    ensures DatesKept(souls, Accrue(souls, loans, ids, p).0)
  {
    hide Interest;
    if ids != [] {
      AccrueKeepsDates(souls, loans, ids[..|ids| - 1], p);
    }
  }

  lemma AccruedKeepsDates(souls: Souls, loans: map<nat, Loan>, p: Params)
    ensures DatesKept(souls, Accrued(souls, loans, p))
  {
    AscendingMembers(loans.Keys);
    RentKeepsDates(souls, p, LivingIds(souls));
    AccrueKeepsDates(ChargeRent(souls, p, LivingIds(souls)), loans, Ascending(loans.Keys), p);
    hide ChargeRent, Accrue;
  }

  lemma {:induction false} SpawnKeepsDates(state: (Souls, Lineage), p: Params, names: HeirNames, dead: nat, epoch: nat,
                                           unborn: seq<nat>, n: nat)
    requires n <= |unborn|
    ensures DatesKept(state.0, Spawn(state, p, names, dead, epoch, unborn, n).0)
  {
    if n > 0 {
      SpawnKeepsDates(state, p, names, dead, epoch, unborn, n - 1);
    }
  }

  lemma {:induction false} PayHeirsKeepsDates(souls: Souls, heirs: seq<nat>, estate: nat, n: nat)
    requires n <= |heirs|
    ensures DatesKept(souls, PayHeirs(souls, heirs, estate, n))
  {
    hide BlockShare;
    if n > 0 {
      PayHeirsKeepsDates(souls, heirs, estate, n - 1);
    }
  }

  lemma SettleKeepsDates(souls: Souls, heirs: seq<nat>, dead: nat, epoch: nat)
    requires dead in souls
    ensures DatesKept(souls, Settle(souls, heirs, dead, epoch).0)
  {
    PayHeirsKeepsDates(souls, heirs, souls[dead].balance, |heirs|);
    hide PayHeirs;
  }

  lemma DieKeepsDates(w: World, p: Params, names: HeirNames, wills: seq<Will>, id: nat, epoch: nat, reason: DeathReason)
    requires id in w.souls
    ensures DatesKept(w.souls, Die(w, p, names, wills, id, epoch, reason).souls)
  {
    var unborn := Unborn(wills, id);
    var killed := KillSoul(w.souls, id, epoch, reason);
    assert DatesKept(w.souls, killed);
    hide Spawn, Settle, KinSet, Unborn;
    SpawnKeepsDates((killed, w.lineage), p, names, id, epoch, unborn, |unborn|);
    var (souls, lineage) := Spawn((killed, w.lineage), p, names, id, epoch, unborn, |unborn|);
    if id in souls {
      SettleKeepsDates(souls, KinSet(souls, lineage, wills, id), id, epoch);
    }
  }

  lemma {:induction false} ReapAllKeepsDates(w: World, p: Params, names: HeirNames, wills: seq<Will>, ids: seq<nat>,
                                             epoch: nat, n: nat)
    requires n <= |ids|
    ensures DatesKept(w.souls, ReapAll(w, p, names, wills, ids, epoch, n).souls)
  {
    hide Die, FateOf;
    if n > 0 {
      ReapAllKeepsDates(w, p, names, wills, ids, epoch, n - 1);
      var before := ReapAll(w, p, names, wills, ids, epoch, n - 1);
      if ids[n - 1] in before.souls && FateOf(before.souls[ids[n - 1]], p, epoch).Some? {
        DieKeepsDates(before, p, names, wills, ids[n - 1], epoch, FateOf(before.souls[ids[n - 1]], p, epoch).value);
      }
    }
  }

  // ----- marking -----

  /** Right after the marking pass a living soul is quarantined exactly if it has debt and no
      balance, and exactly then it carries an insolvency date. */
  lemma QuarantinedExactly(souls: Souls, epoch: nat, x: nat)
    requires x in souls
    ensures var after := MarkInsolvent(souls, epoch, souls.Keys)[x];
      && (after.Living() <==> souls[x].Living())
      && (after.Living() ==> (after.status == Quarantined <==> after.debt > 0 && after.balance == 0))
      && (after.Living() ==> (after.insolventSince.Some? <==> after.Insolvent()))
      && after.debt == souls[x].debt && after.balance == souls[x].balance
  {
  }

  lemma TrackedLonger(history: seq<Mark>, mark: Mark, x: nat, since: nat)
    requires Tracked(history, x, since) && x in mark.insolvent
    ensures Tracked(history + [mark], x, since)
  {
    var j :| 0 <= j < |history| && history[j].epoch == since
             && forall k :: j <= k < |history| ==> x in history[k].insolvent;
    assert (history + [mark])[j] == history[j];
    forall k | j <= k < |history + [mark]|
      ensures x in (history + [mark])[k].insolvent
    {
      if k < |history| {
        assert (history + [mark])[k] == history[k];
      }
    }
  }

  lemma TrackedNow(history: seq<Mark>, mark: Mark, x: nat)
    requires x in mark.insolvent
    ensures Tracked(history + [mark], x, mark.epoch)
  {
    assert (history + [mark])[|history|] == mark;
  }

  lemma MarkingTracks(souls: Souls, history: seq<Mark>, epoch: nat)
    requires AllTracked(souls, history)
    ensures AllTracked(MarkInsolvent(souls, epoch, souls.Keys), history + [Mark(epoch, InsolventIds(souls))])
  {
    hide Tracked;
    var mark := Mark(epoch, InsolventIds(souls));
    var marked := MarkInsolvent(souls, epoch, souls.Keys);
    forall x | x in marked && marked[x].Living() && marked[x].insolventSince.Some?
      ensures Tracked(history + [mark], x, marked[x].insolventSince.value)
    {
      assert x in mark.insolvent;
      TrackedNow(history, mark, x);
      if souls[x].insolventSince.Some? {
        TrackedLonger(history, mark, x, souls[x].insolventSince.value);
      }
    }
  }

  /** After the marks of a pass, the dates of all living souls are accounted for by the history. */
  lemma PassTracks(souls: Souls, loans: map<nat, Loan>, p: Params, epoch: nat, history: seq<Mark>)
    requires AllTracked(souls, history)
    ensures AllTracked(Prepared(souls, loans, p, epoch),
                       history + [Mark(epoch, InsolventIds(Accrued(souls, loans, p)))])
  {
    hide AllTracked, DatesKept, MarkInsolvent, InsolventIds, ChargeRent, Accrue;
    AccruedKeepsDates(souls, loans, p);
    AllTrackedKept(souls, Accrued(souls, loans, p), history);
    MarkingTracks(Accrued(souls, loans, p), history, epoch);
  }

  lemma {:induction false} RunTracks(w: World, p: Params, names: HeirNames, steps: seq<TraceStep>)
    requires AllTracked(w.souls, []) && Admissible(w, p, names, steps)
    ensures AllTracked(Run(w, p, names, steps).souls, History(w, p, names, steps))
  {
    hide AllTracked, ReapAll, Prepared, Accrued;
    if steps != [] {
      var k := |steps| - 1;
      assert Admissible(w, p, names, steps[..k]) by {
        forall i | 0 <= i < k && steps[..k][i].Outside?
          ensures DatesKept(Run(w, p, names, steps[..k][..i]).souls, steps[..k][i].souls)
        {
          assert steps[..k][..i] == steps[..i];
        }
      }
      RunTracks(w, p, names, steps[..k]);
      var before, history := Run(w, p, names, steps[..k]), History(w, p, names, steps[..k]);
      match steps[k]
      case Outside(souls) =>
        assert history + [] == history;
        AllTrackedKept(before.souls, souls, history);
      case Pass(epoch, loans, wills) =>
        PassTracks(before.souls, loans, p, epoch, history);
        var start := before.(souls := Prepared(before.souls, loans, p, epoch));
        var ids := Ascending(start.souls.Keys);
        ReapAllKeepsDates(start, p, names, wills, ids, epoch, |ids|);
        AllTrackedKept(start.souls, ReapAll(start, p, names, wills, ids, epoch, |ids|).souls,
                       history + [Mark(epoch, InsolventIds(Accrued(before.souls, loans, p)))]);
    }
  }

  /** Epochs never go back. */
  ghost predicate Forward(history: seq<Mark>, epoch: nat) {
    forall i :: 0 <= i < |history| ==> history[i].epoch <= epoch
  }

  /** Every insolvency death has a long enough trace behind it. In any run that starts without
      insolvency dates, if the pass of `epoch` condemns a soul for insolvency at its turn in the
      death loop, then some pass at least the grace period earlier found it insolvent, and so
      did every pass since, this one included. */
  lemma InsolventDeathHasTrace(w: World, p: Params, names: HeirNames, steps: seq<TraceStep>, epoch: nat,
                               loans: map<nat, Loan>, wills: seq<Will>, n: nat) returns (since: nat)
    requires AllTracked(w.souls, []) && Admissible(w, p, names, steps)
    requires var before := Run(w, p, names, steps);
      var start := before.(souls := Prepared(before.souls, loans, p, epoch));
      var ids := Ascending(start.souls.Keys);
      && n < |ids|
      && var atTurn := ReapAll(start, p, names, wills, ids, epoch, n).souls;
         ids[n] in atTurn && FateOf(atTurn[ids[n]], p, epoch) == Some(Insolvency)
    requires Forward(History(w, p, names, steps), epoch)
    ensures since + p.insolvencyGrace <= epoch
    ensures var before := Run(w, p, names, steps);
      var x := Ascending(Prepared(before.souls, loans, p, epoch).Keys)[n];
      Tracked(History(w, p, names, steps) + [Mark(epoch, InsolventIds(Accrued(before.souls, loans, p)))], x, since)
  {
    hide AllTracked, DatesKept, ReapAll, Prepared, Accrued, Run, History, InsolventIds, Ascending;
    var before := Run(w, p, names, steps);
    var start := before.(souls := Prepared(before.souls, loans, p, epoch));
    var ids := Ascending(start.souls.Keys);
    var history := History(w, p, names, steps) + [Mark(epoch, InsolventIds(Accrued(before.souls, loans, p)))];
    RunTracks(w, p, names, steps);
    PassTracks(before.souls, loans, p, epoch, History(w, p, names, steps));
    ReapAllKeepsDates(start, p, names, wills, ids, epoch, n);
    var atTurn := ReapAll(start, p, names, wills, ids, epoch, n).souls;
    AllTrackedKept(start.souls, atTurn, history);
    since := atTurn[ids[n]].insolventSince.value;
    TrackedDate(atTurn, history, ids[n]);
    var j :| 0 <= j < |history| && history[j].epoch == since
             && forall k :: j <= k < |history| ==> ids[n] in history[k].insolvent;
    assert since <= epoch;
  }

  lemma TrackedDate(souls: Souls, history: seq<Mark>, x: nat)
    requires AllTracked(souls, history) && x in souls && souls[x].Living() && souls[x].insolventSince.Some?
    ensures Tracked(history, x, souls[x].insolventSince.value)
  {
  }
}

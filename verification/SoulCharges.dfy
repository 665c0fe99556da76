/** What each soul is charged and when it is condemned. */
module SoulCharges {
  import opened Arithmetic
  import opened Collections
  import opened Life

  // ----- rent -----

  /** Rent is the floor of the discounted sum of the base rent and the rent per started kilobyte. */
  lemma RentIsDue(p: Params, bytes: nat, kilobytes: nat)
    requires bytes <= kilobytes * 1024 < bytes + 1024
    requires var subtotal := p.baseRent + kilobytes * p.rentPerKb;
      subtotal * (10_000 - p.discountBps) < 10_000 * U64_RANGE
    ensures var subtotal := p.baseRent + kilobytes * p.rentPerKb;
      var charge := RentCharge(p, Some(bytes));
      && (p.discountBps >= 10_000 ==> charge == 0)
      && (p.discountBps <= 10_000 ==>
            10_000 * charge <= subtotal * (10_000 - p.discountBps) < 10_000 * (charge + 1))
    ensures bytes == 0 ==> RentCharge(p, None) == RentCharge(p, Some(bytes))
  {
    assert CeilDiv(bytes, 1024) == kilobytes;
    var subtotal := p.baseRent + kilobytes * p.rentPerKb;
    DiscountSign(subtotal, p.discountBps);
  }

  lemma DiscountSign(subtotal: nat, discount: int)
    ensures discount >= 10_000 ==> subtotal * (10_000 - discount) <= 0
    ensures discount <= 10_000 ==> subtotal * (10_000 - discount) >= 0
  {
  }

  /** A soul pays its rent out of its balance and owes what the balance does not cover. */
  lemma RentSplits(s: Soul, p: Params)
    ensures var s' := PayRent(s, p);
      && s' == s.(balance := s'.balance, debt := s'.debt)
      && s'.balance <= s.balance && s'.debt >= s.debt
      && (s.balance - s'.balance) + (s'.debt - s.debt) == RentCharge(p, s.genomeBytes)
      && (s'.debt > s.debt ==> s'.balance == 0)
  {
    hide RentCharge;
  }

  // ----- interest -----

  /** Interest is the ceiling of the outstanding amount times the larger of the two rates. */
  lemma InterestIsDue(loan: Loan, p: Params, rate: nat)
    requires rate >= loan.bps && rate >= p.loanBps && (rate == loan.bps || rate == p.loanBps)
    requires loan.outstanding * rate <= U64_MAX
    ensures loan.outstanding * rate <= 10_000 * Interest(loan, p) < loan.outstanding * rate + 10_000
  {
    assert Max(loan.bps, p.loanBps) == rate;
  }

  /** What the accepted loans of `borrower` among those listed accrue together. */
  function AccruedBy(loans: map<nat, Loan>, ids: seq<nat>, p: Params, borrower: nat): nat
    requires forall i :: 0 <= i < |ids| ==> ids[i] in loans
  {
    if ids == [] then 0
    else
      var loan := loans[ids[|ids| - 1]];
      AccruedBy(loans, ids[..|ids| - 1], p, borrower)
      + if loan.accepted && loan.borrower == borrower then Interest(loan, p) else 0
  }

  /** Each soul's debt grows by the interest of its own loans, to the limit of a `u64`, and nothing
      else of it changes. */
  lemma {:induction false} DebtsGrow(souls: Souls, loans: map<nat, Loan>, ids: seq<nat>, p: Params, x: nat)
    requires StrictlyAscending(ids) && forall i :: 0 <= i < |ids| ==> ids[i] in loans
    requires x in souls && souls[x].debt <= U64_MAX
    ensures var souls' := Accrue(souls, loans, ids, p).0;
      && x in souls' && souls'[x] == souls[x].(debt := souls'[x].debt)
      && souls'[x].debt == Min(souls[x].debt + AccruedBy(loans, ids, p, x), U64_MAX)
  {
    hide Interest;
    if ids != [] {
      var k := |ids| - 1;
      DebtsGrow(souls, loans, ids[..k], p, x);
      AccrueGrowsLoans(souls, loans, ids[..k], p);
      assert ids[k] !in Elements(ids[..k]);
      hide GrownLoan, Elements;
    }
  }

  // ----- fates -----

  /** A soul is condemned to die of old age exactly from its natural end on, and for insolvency
      exactly when it has not reached that end and has been insolvent for the grace period. */
  lemma FateExactly(s: Soul, p: Params, epoch: nat)
    ensures FateOf(s, p, epoch) == Some(Natural) <==> s.status != Dead && s.naturalDeath <= epoch
    ensures FateOf(s, p, epoch) == Some(Insolvency)
       <==> && s.status != Dead && epoch < s.naturalDeath && s.insolventSince.Some?
            && Max(epoch, s.insolventSince.value) - s.insolventSince.value >= p.insolvencyGrace
  {
  }
}

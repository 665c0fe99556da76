/** When unbonding requests are paid, over every run of requests and blocks. */
module Unbonding {
  import opened Arithmetic
  import opened Collections
  import opened Stake
  import opened Finalize

  datatype Event =
    | Request(owner: nat, fp: nat, amount: nat)
    | Block(now: nat, period: nat)

  /** Block timestamps are positive. */
  predicate Clocked(events: seq<Event>) {
    forall i :: 0 <= i < |events| && events[i].Block? ==> events[i].now > 0
  }

  /** The queue after a run: requests join with release time zero, blocks run the unbonding phase. */
  function Queue(events: seq<Event>): seq<UnbondEntry> {
    if events == [] then []
    else
      var k := |events| - 1;
      var before := Queue(events[..k]);
      match events[k]
      case Request(owner, fp, amount) => before + [UnbondEntry(owner, fp, amount, 0)]
      case Block(now, period) => Remaining(before, now, period)
  }

  /** What block `p` pays. */
  function PaidBy(events: seq<Event>, p: nat): seq<UnbondEntry>
    requires p < |events| && events[p].Block?
  {
    Matured(Queue(events[..p]), events[p].now)
  }

  // ----- the schedule, request by request -----

  /** The first block at or after position `i`. */
  function FirstBlock(events: seq<Event>, i: nat): (r: Option<nat>)
    requires i <= |events|
    ensures r.Some? ==> i <= r.value < |events| && events[r.value].Block?
    ensures r.Some? ==> forall j :: i <= j < r.value ==> !events[j].Block?
    ensures r.None? ==> forall j :: i <= j < |events| ==> !events[j].Block?
    decreases |events| - i
  {
    if i == |events| then None else if events[i].Block? then Some(i) else FirstBlock(events, i + 1)
  }

  function ReleaseOf(anchor: Event): nat
    requires anchor.Block?
  {
    SatAdd64(anchor.now, anchor.period)
  }

  predicate Reaches(event: Event, release: nat) { event.Block? && release <= event.now }

  /** The first block at or after position `i` whose timestamp reaches `release`. */
  function FirstReaching(events: seq<Event>, i: nat, release: nat): (r: Option<nat>)
    requires i <= |events|
    ensures r.Some? ==> i <= r.value < |events| && Reaches(events[r.value], release)
    ensures r.Some? ==> forall j :: i <= j < r.value ==> !Reaches(events[j], release)
    ensures r.None? ==> forall j :: i <= j < |events| ==> !Reaches(events[j], release)
    decreases |events| - i
  {
    if i == |events| then None
    else if Reaches(events[i], release) then Some(i)
    else FirstReaching(events, i + 1, release)
  }

  /** A request is anchored by the first block after it, and paid by the first block after that
      anchor whose timestamp reaches the anchor's time plus the period then in force. */
  function PayBlock(events: seq<Event>, r: nat): Option<nat>
    requires r < |events|
  {
    match FirstBlock(events, r + 1)
    case None => None
    case Some(a) => FirstReaching(events, a + 1, ReleaseOf(events[a]))
  }

  /** The release time a request carries after the first `k` events. */
  function ReleaseAt(events: seq<Event>, r: nat, k: nat): nat
    requires r < k <= |events|
  {
    match FirstBlock(events, r + 1)
    case None => 0
    case Some(a) => if a < k then ReleaseOf(events[a]) else 0
  }

  function EntryAt(events: seq<Event>, r: nat, k: nat): UnbondEntry
    requires r < k <= |events| && events[r].Request?
  {
    UnbondEntry(events[r].owner, events[r].fp, events[r].amount, ReleaseAt(events, r, k))
  }

  predicate PaidBefore(events: seq<Event>, r: nat, k: nat)
    requires r < |events|
  {
    PayBlock(events, r).Some? && PayBlock(events, r).value < k
  }

  /** The requests among the first `n` events that are still unpaid after `k` events, in order. */
  function Outstanding(events: seq<Event>, k: nat, n: nat): seq<UnbondEntry>
    requires n <= k <= |events|
  {
    if n == 0 then []
    else
      Outstanding(events, k, n - 1)
      + if events[n - 1].Request? && !PaidBefore(events, n - 1, k) then [EntryAt(events, n - 1, k)] else []
  }

  /** The requests among the first `n` events that are scheduled for block `p`, in order. */
  function Scheduled(events: seq<Event>, p: nat, n: nat): seq<UnbondEntry>
    requires n <= p < |events|
  {
    if n == 0 then []
    else
      Scheduled(events, p, n - 1)
      + if events[n - 1].Request? && PayBlock(events, n - 1) == Some(p) then [EntryAt(events, n - 1, p)] else []
  }

  // ----- the queue follows the schedule -----

  /** One more event and one outstanding request: due now, anchored now, or unchanged. */
  lemma RequestStep(events: seq<Event>, r: nat, k: nat)
    requires Clocked(events) && r < k < |events| && events[r].Request? && !PaidBefore(events, r, k)
    ensures events[k].Request? ==>
      !PaidBefore(events, r, k + 1) && EntryAt(events, r, k + 1) == EntryAt(events, r, k)
    ensures events[k].Block? ==>
      && (Due(EntryAt(events, r, k), events[k].now) <==> PayBlock(events, r) == Some(k))
      && (PaidBefore(events, r, k + 1) <==> PayBlock(events, r) == Some(k))
      && (PayBlock(events, r) != Some(k) ==>
            EntryAt(events, r, k + 1) == Anchor(EntryAt(events, r, k), events[k].now, events[k].period))
  {
    var a := FirstBlock(events, r + 1);
    if events[k].Block? {
      assert a.Some? && a.value <= k;
      assert ReleaseOf(events[a.value]) > 0;
    }
  }

  lemma {:induction false} OutstandingAfterRequest(events: seq<Event>, k: nat, n: nat)
    requires Clocked(events) && n <= k < |events| && events[k].Request?
    ensures Outstanding(events, k + 1, n) == Outstanding(events, k, n)
  {
    hide PayBlock, EntryAt;
    if n > 0 {
      OutstandingAfterRequest(events, k, n - 1);
      if events[n - 1].Request? && !PaidBefore(events, n - 1, k) {
        RequestStep(events, n - 1, k);
      }
    }
  }

  lemma {:induction false} OutstandingAfterBlock(events: seq<Event>, k: nat, n: nat)
    requires Clocked(events) && n <= k < |events| && events[k].Block?
    ensures Outstanding(events, k + 1, n) == Remaining(Outstanding(events, k, n), events[k].now, events[k].period)
    ensures Scheduled(events, k, n) == Matured(Outstanding(events, k, n), events[k].now)
  {
    hide PayBlock, EntryAt, Due, Anchor;
    if n > 0 {
      OutstandingAfterBlock(events, k, n - 1);
      var before := Outstanding(events, k, n - 1);
      if events[n - 1].Request? && !PaidBefore(events, n - 1, k) {
        RequestStep(events, n - 1, k);
        assert (before + [EntryAt(events, n - 1, k)])[..|before|] == before;
      } else {
        assert before + [] == before;
      }
    }
  }

  /** The queue holds exactly the outstanding requests, each with its release time. */
  lemma {:induction false} QueueIsOutstanding(events: seq<Event>, k: nat)
    requires Clocked(events) && k <= |events|
    ensures Queue(events[..k]) == Outstanding(events, k, k)
  {
    if k > 0 {
      QueueIsOutstanding(events, k - 1);
      assert events[..k][..k - 1] == events[..k - 1];
      if events[k - 1].Request? {
        OutstandingAfterRequest(events, k - 1, k - 1);
        NewRequest(events, k - 1);
      } else {
        OutstandingAfterBlock(events, k - 1, k - 1);
      }
      hide Outstanding, PayBlock, Remaining, Matured;
      LastOutstanding(events, k);
    }
  }

  lemma LastOutstanding(events: seq<Event>, k: nat)
    requires 0 < k <= |events|
    ensures Outstanding(events, k, k)
         == Outstanding(events, k, k - 1)
            + if events[k - 1].Request? && !PaidBefore(events, k - 1, k) then [EntryAt(events, k - 1, k)] else []
  {
  }

  lemma NewRequest(events: seq<Event>, r: nat)
    requires r < |events| && events[r].Request?
    ensures !PaidBefore(events, r, r + 1)
    ensures EntryAt(events, r, r + 1) == UnbondEntry(events[r].owner, events[r].fp, events[r].amount, 0)
  {
  }

  /** Every block pays exactly the requests scheduled for it, in request order. */
  lemma BlocksPayTheSchedule(events: seq<Event>, p: nat)
    requires Clocked(events) && p < |events| && events[p].Block?
    ensures PaidBy(events, p) == Scheduled(events, p, p)
  {
    QueueIsOutstanding(events, p);
    OutstandingAfterBlock(events, p, p);
  }

  /** What the schedule promises each request: it is paid in one block only, strictly after the
      block that anchored it, with the anchor's deadline reached there and nowhere in between;
      and any later block that reaches the deadline implies that it has been paid by then. */
  lemma ScheduleMeaning(events: seq<Event>, r: nat, a: nat)
    requires r < |events| && FirstBlock(events, r + 1) == Some(a)
    ensures r < a
    ensures forall p :: PayBlock(events, r) == Some(p) ==>
      && a < p < |events| && events[p].Block? && events[p].now >= SatAdd64(events[a].now, events[a].period)
      && (forall q :: a < q < p && events[q].Block? ==> events[q].now < SatAdd64(events[a].now, events[a].period))
    ensures forall q ::
      (a < q < |events| && events[q].Block? && events[q].now >= SatAdd64(events[a].now, events[a].period))
      ==> PaidBefore(events, r, q + 1)
  {
    var found := FirstReaching(events, a + 1, ReleaseOf(events[a]));
    assert forall q :: a < q < |events| ==> (Reaches(events[q], ReleaseOf(events[a]))
      <==> events[q].Block? && events[q].now >= SatAdd64(events[a].now, events[a].period));
  }

  // ----- payouts conserve -----

  function Amounts(queue: seq<UnbondEntry>): (r: seq<nat>)
    ensures |r| == |queue|
  {
    seq(|queue|, i requires 0 <= i < |queue| => queue[i].amount)
  }

  lemma AmountsAppend(queue: seq<UnbondEntry>, more: seq<UnbondEntry>)
    ensures Sum(Amounts(queue + more)) == Sum(Amounts(queue)) + Sum(Amounts(more))
  {
    assert Amounts(queue + more) == Amounts(queue) + Amounts(more);
    SumConcat(Amounts(queue), Amounts(more));
  }

  lemma {:induction false} QueueDivides(queue: seq<UnbondEntry>, now: nat, period: nat)
    ensures Sum(Amounts(Matured(queue, now))) + Sum(Amounts(Remaining(queue, now, period))) == Sum(Amounts(queue))
  {
    if queue != [] {
      var k := |queue| - 1;
      QueueDivides(queue[..k], now, period);
      assert queue == queue[..k] + [queue[k]];
      AmountsAppend(queue[..k], [queue[k]]);
      AmountsAppend(Matured(queue[..k], now), [queue[k]]);
      AmountsAppend(Remaining(queue[..k], now, period), [Anchor(queue[k], now, period)]);
      assert Amounts([Anchor(queue[k], now, period)]) == Amounts([queue[k]]);
      hide Amounts, Sum;
      assert Matured(queue[..k], now) + [] == Matured(queue[..k], now);
      assert Remaining(queue[..k], now, period) + [] == Remaining(queue[..k], now, period);
    }
  }

  lemma {:induction false} PayAllSum(balances: map<nat, nat>, entries: seq<UnbondEntry>)
    requires MapSum(balances) + Sum(Amounts(entries)) <= U128_MAX
    ensures MapSum(PayAll(balances, entries)) == MapSum(balances) + Sum(Amounts(entries))
  {
    if entries != [] {
      var k := |entries| - 1;
      assert Amounts(entries)[..k] == Amounts(entries[..k]);
      PayAllSum(balances, entries[..k]);
      var before := PayAll(balances, entries[..k]);
      MapSumUpdate(before, entries[k].owner, Get(before, entries[k].owner) + entries[k].amount);
    }
  }

  /** The unbonding phase moves tokens from the queue to balances without loss, as long as they
      fit a `u128` together. */
  lemma UnbondConserved(b: StakeBook, now: nat, period: nat)
    requires MapSum(b.balances) + Sum(Amounts(b.unbonding)) <= U128_MAX
    ensures var b' := UnbondPhase(b, now, period);
      MapSum(b'.balances) + Sum(Amounts(b'.unbonding)) == MapSum(b.balances) + Sum(Amounts(b.unbonding))
  {
    QueueDivides(b.unbonding, now, period);
    PayAllSum(b.balances, Matured(b.unbonding, now));
  }
}

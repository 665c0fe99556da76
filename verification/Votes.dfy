/** Votes, the vote pool and quorum certificates (`crates/bft-wire/src/vote.rs`). */
module Votes {
  import opened Arithmetic
  import opened Collections
  import opened Validators

  datatype Vote = Vote(view: nat, height: nat, header: nat, index: nat, signature: Signature)
  {
    function Body(): Message { VoteMessage(view, height, header) }

    function SlotKey(): (nat, nat) { (view, header) }

    predicate Verifies(vs: ValidatorSet) {
      index < |vs| && signature == Signed(vs[index].key, Body())
    }
  }

  datatype FormedQc = FormedQc(qc: QuorumCertificate, signers: seq<nat>)
  {
    function Body(): Message { VoteMessage(qc.view, qc.height, qc.header) }

    ghost function SignerSet(): set<nat> { Elements(signers) }
  }

  datatype VoteError =
    | ValidatorIndexOutOfRange(idx: nat, n: nat)
    | InsufficientSigners(got: nat, need: nat)
    | InsufficientSigningStake(stake: nat, stakeNeed: nat)
    | DuplicateSignerIndex(dup: nat)
    | StakeWeightsLen(len: nat, lenNeed: nat)
    | Bls

  datatype Verdict = Accepted | Rejected(error: VoteError)

  datatype RecordOutcome =
    | Recorded | ReachedQuorum | DuplicateValidator | StakeWeightsLenMismatch | OutOfRange | BadSignature

  type Slot = map<nat, Vote>

  type Entries = map<(nat, nat), Slot>

  // ----- certificate verification -----

  /** The first complaint of the signer scan: a repeated index, or one outside the set. */
  function ScanError(signers: seq<nat>, n: nat): Option<VoteError> {
    if signers == [] then None
    else
      var init, x := signers[..|signers| - 1], signers[|signers| - 1];
      match ScanError(init, n)
      case Some(e) => Some(e)
      case None =>
        if x in init then Some(DuplicateSignerIndex(x))
        else if x >= n then Some(ValidatorIndexOutOfRange(x, n))
        else None
  }

  lemma {:induction false} ScanClean(signers: seq<nat>, n: nat)
    ensures ScanError(signers, n).None?
       <==> && (forall i :: 0 <= i < |signers| ==> signers[i] < n)
            && (forall i, j :: 0 <= i < j < |signers| ==> signers[i] != signers[j])
  {
    if signers != [] {
      var init, x := signers[..|signers| - 1], signers[|signers| - 1];
      ScanClean(init, n);
      assert forall i :: 0 <= i < |init| ==> init[i] == signers[i];
    }
  }

  /** A clean scan of a prefix stays clean, and a complaint about a prefix is final. */
  lemma {:induction false} ScanPrefix(signers: seq<nat>, n: nat, i: nat)
    requires i <= |signers| && ScanError(signers[..i], n).Some?
    ensures ScanError(signers, n) == ScanError(signers[..i], n)
    decreases |signers|
  {
    if i == |signers| {
      assert signers[..i] == signers;
    } else {
      var init := signers[..|signers| - 1];
      assert init[..i] == signers[..i];
      ScanPrefix(init, n, i);
    }
  }

  function VerifyFormedQcSpec(formed: FormedQc, vs: ValidatorSet, weights: Option<seq<nat>>): Verdict {
    var n, k := |vs|, QuorumThreshold(vs);
    if weights.Some? && |weights.value| != n then Rejected(StakeWeightsLen(|weights.value|, n))
    else
      match ScanError(formed.signers, n)
      case Some(e) => Rejected(e)
      case None =>
        ScanClean(formed.signers, n);
        var signers := Elements(formed.signers);
        if weights.None? || TotalStake(weights.value) == 0 then
          if |formed.signers| < k then Rejected(InsufficientSigners(|formed.signers|, k))
          else AggregateVerdict(formed, vs)
        else
          var need := QuorumStakeThreshold(TotalStake(weights.value), k, n);
          var stake := Min(Weight(signers, weights.value), U128_MAX);
          if stake < need then Rejected(InsufficientSigningStake(stake, need))
          else AggregateVerdict(formed, vs)
  }

  function AggregateVerdict(formed: FormedQc, vs: ValidatorSet): Verdict
    requires forall i :: 0 <= i < |formed.signers| ==> formed.signers[i] < |vs|
  {
    if AggregateVerifies(formed.qc.aggregate, formed.Body(), KeysAt(vs, formed.signers)) then Accepted
    else Rejected(Bls)
  }

  function StakeIn(signers: set<nat>, weights: Option<seq<nat>>): nat {
    if weights.None? then 0 else Min(Weight(signers, weights.value), U128_MAX)
  }

  lemma StakeInAdd(signers: set<nat>, x: nat, weights: Option<seq<nat>>)
    requires x !in signers
    ensures StakeIn({}, weights) == 0
    ensures StakeIn(signers + {x}, weights)
         == if weights.Some? && x < |weights.value| then SatAdd(StakeIn(signers, weights), weights.value[x])
            else StakeIn(signers, weights)
  {
    if weights.Some? {
      WeightEmpty(weights.value);
      WeightAdd(signers, x, weights.value);
    }
  }

  /** The loop over `signer_indices`. */
  method ScanSigners(signers: seq<nat>, vs: ValidatorSet, weights: Option<seq<nat>>)
    returns (error: Option<VoteError>, pubkeys: seq<nat>, signingStake: nat)
    requires weights.Some? ==> |weights.value| == |vs|
    ensures error == ScanError(signers, |vs|)
    ensures error.None? ==>
      && (forall i :: 0 <= i < |signers| ==> signers[i] < |vs|)
      && pubkeys == KeysAt(vs, signers)
      && signingStake == StakeIn(Elements(signers), weights)
  {
    hide Weight, StakeIn;
    var seen: set<nat> := {};
    error, pubkeys, signingStake := None, [], 0;
    assert Elements(signers[..0]) == {};
    StakeInAdd({}, 0, weights);
    for i := 0 to |signers|
      invariant ScanError(signers[..i], |vs|).None? && error.None?
      invariant forall j :: 0 <= j < i ==> signers[j] < |vs|
      invariant seen == Elements(signers[..i])
      invariant |pubkeys| == i && forall j :: 0 <= j < i ==> pubkeys[j] == vs[signers[j]].key
      invariant signingStake == StakeIn(seen, weights)
    {
      var idx := signers[i];
      assert signers[..i + 1][..i] == signers[..i];
      PrefixSet(signers, i);
      if idx in seen {
        ScanPrefix(signers, |vs|, i + 1);
        error := Some(DuplicateSignerIndex(idx));
        return;
      }
      if idx >= |vs| {
        ScanPrefix(signers, |vs|, i + 1);
        error := Some(ValidatorIndexOutOfRange(idx, |vs|));
        return;
      }
      pubkeys := pubkeys + [vs[idx].key];
      StakeInAdd(seen, idx, weights);
      if weights.Some? {
        signingStake := SatAdd(signingStake, weights.value[idx]);
      }
      seen := seen + {idx};
    }
    assert signers[..|signers|] == signers;
  }

  method VerifyFormedQc(formed: FormedQc, vs: ValidatorSet, weights: Option<seq<nat>>)
    returns (verdict: Verdict)
    ensures verdict == VerifyFormedQcSpec(formed, vs, weights)
  {
    var threshold, n := QuorumThreshold(vs), |vs|;
    if weights.Some? && |weights.value| != n {
      return Rejected(StakeWeightsLen(|weights.value|, n));
    }
    var error, pubkeys, signingStake := ScanSigners(formed.signers, vs, weights);
    if error.Some? {
      return Rejected(error.value);
    }
    if weights.None? || TotalStake(weights.value) == 0 {
      if |formed.signers| < threshold {
        return Rejected(InsufficientSigners(|formed.signers|, threshold));
      }
    } else {
      var need := QuorumStakeThreshold(TotalStake(weights.value), threshold, n);
      if signingStake < need {
        return Rejected(InsufficientSigningStake(signingStake, need));
      }
    }
    return if AggregateVerifies(formed.qc.aggregate, formed.Body(), pubkeys) then Accepted else Rejected(Bls);
  }

  lemma {:induction false} DistinctLength(s: seq<nat>)
    requires forall i, j :: 0 <= i < j < |s| ==> s[i] != s[j]
    ensures |Elements(s)| == |s|
  {
    if s != [] {
      var k := |s| - 1;
      DistinctLength(s[..k]);
      PrefixSet(s, k);
      assert s[..k + 1] == s;
    }
  }

  /** What acceptance means: distinct known signers that form a quorum, every one of whom signed
      exactly this certificate's body. */
  lemma AcceptedMeans(formed: FormedQc, vs: ValidatorSet, weights: Option<seq<nat>>)
    ensures VerifyFormedQcSpec(formed, vs, weights).Accepted?
       <==> && (forall i :: 0 <= i < |formed.signers| ==> formed.signers[i] < |vs|)
            && (forall i, j :: 0 <= i < j < |formed.signers| ==> formed.signers[i] != formed.signers[j])
            && QuorumMet(formed.SignerSet(), vs, weights) == Some(true)
            && formed.qc.aggregate.parts == multiset(SignaturesOver(KeysAt(vs, formed.signers), formed.Body()))
  {
    ScanClean(formed.signers, |vs|);
    if ScanError(formed.signers, |vs|).None? {
      DistinctLength(formed.signers);
      if formed.signers == [] {
        assert formed.SignerSet() == {};
        QuorumMonotone({}, {}, vs, weights);
      }
    }
  }

  lemma AcceptedSignerSigned(formed: FormedQc, vs: ValidatorSet, weights: Option<seq<nat>>, i: nat)
    requires VerifyFormedQcSpec(formed, vs, weights).Accepted? && i in formed.SignerSet()
    ensures i < |vs| && Signed(vs[i].key, formed.Body()) in formed.qc.aggregate.parts
  {
    AcceptedMeans(formed, vs, weights);
    var j :| 0 <= j < |formed.signers| && formed.signers[j] == i;
    SignerSigned(formed.qc.aggregate, formed.Body(), KeysAt(vs, formed.signers), j);
  }

  // ----- the pool -----

  method StakeOfKeys(keys: set<nat>, w: seq<nat>) returns (sum: nat)
    ensures sum == Min(Weight(keys, w), U128_MAX)
  {
    hide Weight;
    var order: seq<nat> := Ascending(keys);
    AscendingMembers(keys);
    AscendingSorted(keys);
    StakeInAdd({}, 0, Some(w));
    assert Elements(order[..0]) == {};
    sum := 0;
    for j := 0 to |order|
      invariant sum == StakeIn(Elements(order[..j]), Some(w))
    {
      PrefixSet(order, j);
      assert order[j] !in order[..j];
      StakeInAdd(Elements(order[..j]), order[j], Some(w));
      if order[j] < |w| {
        sum := SatAdd(sum, w[order[j]]);
      }
    }
    assert Elements(order[..|order|]) == keys;
  }

  method SlotQuorumMet(slot: Slot, vs: ValidatorSet, weights: Option<seq<nat>>) returns (met: Option<bool>)
    ensures met == QuorumMet(slot.Keys, vs, weights)
  {
    var n, k := |vs|, QuorumThreshold(vs);
    match weights
    case None =>
      return Some(|slot| >= k);
    case Some(w) =>
      if |w| != n {
        return None;
      }
      if TotalStake(w) == 0 {
        return Some(|slot| >= k);
      }
      var sum := StakeOfKeys(slot.Keys, w);
      return Some(sum >= QuorumStakeThreshold(TotalStake(w), k, n));
  }

  function SlotAt(entries: Entries, key: (nat, nat)): Slot {
    if key in entries then entries[key] else map[]
  }

  function RecordSpec(entries: Entries, vote: Vote, vs: ValidatorSet, weights: Option<seq<nat>>)
    : (Entries, RecordOutcome)
  {
    if vote.index >= |vs| then (entries, OutOfRange)
    else if !vote.Verifies(vs) then (entries, BadSignature)
    else
      var slot := SlotAt(entries, vote.SlotKey());
      var touched := entries[vote.SlotKey() := slot];
      if vote.index in slot then (touched, DuplicateValidator)
      else
        match QuorumMet(slot.Keys, vs, weights)
        case None => (touched, StakeWeightsLenMismatch)
        case Some(before) =>
          var slot' := slot[vote.index := vote];
          var after := QuorumMet(slot'.Keys, vs, weights);
          (entries[vote.SlotKey() := slot'],
           if !before && after == Some(true) then ReachedQuorum else Recorded)
  }

  function SlotSignatures(slot: Slot, signers: seq<nat>): seq<Signature>
    requires forall i :: 0 <= i < |signers| ==> signers[i] in slot
  {
    seq(|signers|, i requires 0 <= i < |signers| => slot[signers[i]].signature)
  }

  function TryFormQcSpec(entries: Entries, view: nat, height: nat, header: nat,
                         vs: ValidatorSet, weights: Option<seq<nat>>): Option<FormedQc>
  {
    if (view, header) !in entries then None
    else
      var slot := entries[(view, header)];
      if QuorumMet(slot.Keys, vs, weights) != Some(true) then None
      else
        AscendingMembers(slot.Keys);
        var signers := Ascending(slot.Keys);
        match AggregateOf(SlotSignatures(slot, signers))
        case None => None
        case Some(aggregate) => Some(FormedQc(QC(view, height, header, aggregate), signers))
  }

  class VotePool {
    var entries: Entries

    constructor ()
      ensures entries == map[]
    {
      entries := map[];
    }

    method Record(vote: Vote, vs: ValidatorSet, weights: Option<seq<nat>>) returns (outcome: RecordOutcome)
      modifies this
      ensures (entries, outcome) == RecordSpec(old(entries), vote, vs, weights)
    {
      if vote.index >= |vs| {
        return OutOfRange;
      }
      if vote.signature != Signed(vs[vote.index].key, vote.Body()) {
        return BadSignature;
      }
      var key := (vote.view, vote.header);
      if key !in entries {
        entries := entries[key := map[]];
      }
      var slot := entries[key];
      assert entries == old(entries)[key := slot];
      if vote.index in slot {
        return DuplicateValidator;
      }
      var before := SlotQuorumMet(slot, vs, weights);
      if before.None? {
        return StakeWeightsLenMismatch;
      }
      slot := slot[vote.index := vote];
      entries := entries[key := slot];
      assert entries == old(entries)[key := slot];
      var after := SlotQuorumMet(slot, vs, weights);
      outcome := if !before.value && after == Some(true) then ReachedQuorum else Recorded;
    }

    method TryFormQc(view: nat, height: nat, header: nat, vs: ValidatorSet, weights: Option<seq<nat>>)
      returns (formed: Option<FormedQc>)
      ensures formed == TryFormQcSpec(entries, view, height, header, vs, weights)
    {
      if (view, header) !in entries {
        return None;
      }
      var slot := entries[(view, header)];
      var met := SlotQuorumMet(slot, vs, weights);
      if met != Some(true) {
        return None;
      }
      AscendingMembers(slot.Keys);
      var signers := Ascending(slot.Keys);
      var aggregate := AggregateOf(SlotSignatures(slot, signers));
      if aggregate.None? {
        return None;
      }
      return Some(FormedQc(QC(view, height, header, aggregate.value), signers));
    }

    /** Drops the slots whose lowest-indexed vote is below `minHeight`; an empty slot stays. */
    method PruneBelowHeight(minHeight: nat)
      modifies this
      ensures entries == PruneSpec(old(entries), minHeight)
    {
      entries := map key | key in entries && KeepsSlot(entries[key], minHeight) :: entries[key];
    }
  }

  predicate KeepsSlot(slot: Slot, minHeight: nat) {
    slot == map[] || slot[Least(slot.Keys)].height >= minHeight
  }

  function PruneSpec(entries: Entries, minHeight: nat): Entries {
    map key | key in entries && KeepsSlot(entries[key], minHeight) :: entries[key]
  }

  // ----- what every pool holds -----

  /** Every stored vote is filed under its own key and index and carries a valid signature. */
  ghost predicate PoolInv(entries: Entries, vs: ValidatorSet) {
    forall key :: key in entries ==>
      forall i :: i in entries[key] ==>
        && entries[key][i].index == i
        && entries[key][i].SlotKey() == key
        && entries[key][i].Verifies(vs)
  }

  lemma RecordKeepsInv(entries: Entries, vote: Vote, vs: ValidatorSet, weights: Option<seq<nat>>)
    requires PoolInv(entries, vs)
    ensures PoolInv(RecordSpec(entries, vote, vs, weights).0, vs)
  {
    hide QuorumMet, Weight, Sum;
  }

  lemma PruneKeepsInv(entries: Entries, vs: ValidatorSet, minHeight: nat)
    requires PoolInv(entries, vs)
    ensures PoolInv(PruneSpec(entries, minHeight), vs)
  {
  }

  // ----- the tally over a whole run -----

  /** The pool after recording `votes` in order, from empty. */
  function Pool(votes: seq<Vote>, vs: ValidatorSet, weights: Option<seq<nat>>): Entries {
    if votes == [] then map[]
    else RecordSpec(Pool(votes[..|votes| - 1], vs, weights), votes[|votes| - 1], vs, weights).0
  }

  function Outcome(votes: seq<Vote>, vs: ValidatorSet, weights: Option<seq<nat>>, i: nat): RecordOutcome
    requires i < |votes|
  {
    RecordSpec(Pool(votes[..i], vs, weights), votes[i], vs, weights).1
  }

  /** A certificate can be formed for this slot (at any height the caller names). */
  predicate Formable(entries: Entries, key: (nat, nat), vs: ValidatorSet, weights: Option<seq<nat>>) {
    TryFormQcSpec(entries, key.0, 0, key.1, vs, weights).Some?
  }

  lemma {:induction false} PoolSatisfiesInv(votes: seq<Vote>, vs: ValidatorSet, weights: Option<seq<nat>>)
    ensures PoolInv(Pool(votes, vs, weights), vs)
  {
    if votes != [] {
      var init := votes[..|votes| - 1];
      PoolSatisfiesInv(init, vs, weights);
      RecordKeepsInv(Pool(init, vs, weights), votes[|votes| - 1], vs, weights);
    }
  }

  /** A pool holds nothing but votes it was given. */
  lemma {:induction false} PoolHoldsReceived(votes: seq<Vote>, vs: ValidatorSet, weights: Option<seq<nat>>,
                                             key: (nat, nat), i: nat)
    requires key in Pool(votes, vs, weights) && i in Pool(votes, vs, weights)[key]
    ensures Pool(votes, vs, weights)[key][i] in votes
  {
    hide QuorumMet, Weight, Sum;
    var k := |votes| - 1;
    var before := Pool(votes[..k], vs, weights);
    if key in before && i in before[key] {
      PoolHoldsReceived(votes[..k], vs, weights, key, i);
    }
  }

  lemma FormableIsQuorum(entries: Entries, key: (nat, nat), vs: ValidatorSet, weights: Option<seq<nat>>)
    requires PoolInv(entries, vs)
    ensures Formable(entries, key, vs, weights)
       <==> QuorumMet(SlotAt(entries, key).Keys, vs, weights) == Some(true)
  {
    var slot := SlotAt(entries, key);
    QuorumMonotone({}, {}, vs, weights);
    AscendingMembers(slot.Keys);
    if QuorumMet(slot.Keys, vs, weights) == Some(true) {
      assert slot.Keys != {};
      var signatures := SlotSignatures(slot, Ascending(slot.Keys));
      assert Malformed !in signatures;
    }
  }

  /** One record changes the certificate status of its own slot only, never revokes it, and
      reports `ReachedQuorum` exactly when it grants it. */
  lemma RecordStep(entries: Entries, vote: Vote, vs: ValidatorSet, weights: Option<seq<nat>>, key: (nat, nat))
    requires PoolInv(entries, vs)
    ensures var (entries', outcome) := RecordSpec(entries, vote, vs, weights);
      && (Formable(entries, key, vs, weights) ==> Formable(entries', key, vs, weights))
      && ((outcome == ReachedQuorum && vote.SlotKey() == key)
            <==> (!Formable(entries, key, vs, weights) && Formable(entries', key, vs, weights)))
  {
    hide Formable, QuorumMet, Weight, Sum;
    var entries' := RecordSpec(entries, vote, vs, weights).0;
    RecordKeepsInv(entries, vote, vs, weights);
    FormableIsQuorum(entries, key, vs, weights);
    FormableIsQuorum(entries', key, vs, weights);
    QuorumMonotone(SlotAt(entries, key).Keys, SlotAt(entries', key).Keys, vs, weights);
  }

  lemma PoolStep(votes: seq<Vote>, vs: ValidatorSet, weights: Option<seq<nat>>, i: nat)
    requires i < |votes|
    ensures RecordSpec(Pool(votes[..i], vs, weights), votes[i], vs, weights)
         == (Pool(votes[..i + 1], vs, weights), Outcome(votes, vs, weights, i))
  {
    assert votes[..i + 1][..i] == votes[..i];
  }

  lemma {:induction false} FormableStays(votes: seq<Vote>, vs: ValidatorSet, weights: Option<seq<nat>>,
                                         key: (nat, nat), i: nat, j: nat)
    requires i <= j <= |votes| && Formable(Pool(votes[..i], vs, weights), key, vs, weights)
    ensures Formable(Pool(votes[..j], vs, weights), key, vs, weights)
    decreases j
  {
    hide *;
    if i < j {
      FormableStays(votes, vs, weights, key, i, j - 1);
      PoolStep(votes, vs, weights, j - 1);
      PoolSatisfiesInv(votes[..j - 1], vs, weights);
      RecordStep(Pool(votes[..j - 1], vs, weights), votes[j - 1], vs, weights, key);
    }
  }

  ghost predicate Announces(votes: seq<Vote>, vs: ValidatorSet, weights: Option<seq<nat>>, key: (nat, nat), i: nat)
    requires i < |votes|
  {
    votes[i].SlotKey() == key && Outcome(votes, vs, weights, i) == ReachedQuorum
  }

  /** `ReachedQuorum` is announced at step i exactly when certificates can be formed after
      step i and at every later point, and could be formed at no earlier point. */
  lemma AnnouncedAtFirstQuorum(votes: seq<Vote>, vs: ValidatorSet, weights: Option<seq<nat>>,
                               key: (nat, nat), i: nat)
    requires i < |votes|
    ensures Announces(votes, vs, weights, key, i)
       <==> && (forall j :: 0 <= j <= i ==> !Formable(Pool(votes[..j], vs, weights), key, vs, weights))
            && (forall j :: i < j <= |votes| ==> Formable(Pool(votes[..j], vs, weights), key, vs, weights))
  {
    PoolStep(votes, vs, weights, i);
    PoolSatisfiesInv(votes[..i], vs, weights);
    RecordStep(Pool(votes[..i], vs, weights), votes[i], vs, weights, key);
    forall j | 0 <= j <= |votes| && Formable(Pool(votes[..j], vs, weights), key, vs, weights)
      ensures forall k :: j <= k <= |votes| ==> Formable(Pool(votes[..k], vs, weights), key, vs, weights)
    {
      forall k | j <= k <= |votes|
        ensures Formable(Pool(votes[..k], vs, weights), key, vs, weights)
      {
        FormableStays(votes, vs, weights, key, j, k);
      }
    }
  }

  /** Whole runs: a slot is announced exactly once if it ends with a certificate and never
      otherwise. */
  lemma {:induction false} AnnouncedExactlyOnce(votes: seq<Vote>, vs: ValidatorSet, weights: Option<seq<nat>>,
                                                key: (nat, nat))
    ensures forall i, j :: 0 <= i < j < |votes| && Announces(votes, vs, weights, key, i)
                           ==> !Announces(votes, vs, weights, key, j)
    ensures (exists i :: 0 <= i < |votes| && Announces(votes, vs, weights, key, i))
       <==> Formable(Pool(votes, vs, weights), key, vs, weights)
  {
    assert votes[..|votes|] == votes;
    forall i | 0 <= i < |votes|
      ensures Announces(votes, vs, weights, key, i)
         <==> && (forall j :: 0 <= j <= i ==> !Formable(Pool(votes[..j], vs, weights), key, vs, weights))
              && (forall j :: i < j <= |votes| ==> Formable(Pool(votes[..j], vs, weights), key, vs, weights))
    {
      AnnouncedAtFirstQuorum(votes, vs, weights, key, i);
    }
    if Formable(Pool(votes, vs, weights), key, vs, weights) {
      var k := FirstFormable(votes, vs, weights, key);
      assert Announces(votes, vs, weights, key, k);
    }
  }

  lemma EmptyNotFormable(vs: ValidatorSet, weights: Option<seq<nat>>, key: (nat, nat))
    ensures !Formable(Pool([], vs, weights), key, vs, weights)
  {
  }

  lemma FirstFormable(votes: seq<Vote>, vs: ValidatorSet, weights: Option<seq<nat>>, key: (nat, nat)) returns (k: nat)
    requires Formable(Pool(votes, vs, weights), key, vs, weights)
    ensures k < |votes|
    ensures forall j :: 0 <= j <= k ==> !Formable(Pool(votes[..j], vs, weights), key, vs, weights)
    ensures forall j :: k < j <= |votes| ==> Formable(Pool(votes[..j], vs, weights), key, vs, weights)
  {
    hide *;
    EmptyNotFormable(vs, weights, key);
    assert votes[..|votes|] == votes;
    k := |votes|;
    while k > 0 && Formable(Pool(votes[..k - 1], vs, weights), key, vs, weights)
      invariant k <= |votes|
      invariant forall j :: k <= j <= |votes| ==> Formable(Pool(votes[..j], vs, weights), key, vs, weights)
    {
      k := k - 1;
    }
    assert votes[..0] == [];
    k := k - 1;
    forall j | 0 <= j <= k
      ensures !Formable(Pool(votes[..j], vs, weights), key, vs, weights)
    {
      if Formable(Pool(votes[..j], vs, weights), key, vs, weights) {
        FormableStays(votes, vs, weights, key, j, k);
      }
    }
  }

  // ----- a formed certificate verifies exactly when its slot is of one height -----

  function SignaturesOf(keys: seq<nat>, bodies: seq<Message>): seq<Signature>
    requires |keys| == |bodies|
  {
    seq(|keys|, i requires 0 <= i < |keys| => Signed(keys[i], bodies[i]))
  }

  lemma SameBodies(keys: seq<nat>, bodies: seq<Message>, body: Message)
    requires |keys| == |bodies|
    ensures multiset(SignaturesOf(keys, bodies)) == multiset(SignaturesOver(keys, body))
       <==> forall i :: 0 <= i < |bodies| ==> bodies[i] == body
  {
    var held, wanted := SignaturesOf(keys, bodies), SignaturesOver(keys, body);
    if i :| 0 <= i < |bodies| && bodies[i] != body {
      assert held[i] in multiset(held);
      assert held[i] !in multiset(wanted);
    } else {
      assert held == wanted;
    }
  }

  /** The certificate formed from a slot lists the slot's validators and aggregates their votes. */
  lemma FormedFromSlot(entries: Entries, view: nat, height: nat, header: nat,
                       vs: ValidatorSet, weights: Option<seq<nat>>) returns (bodies: seq<Message>)
    requires PoolInv(entries, vs)
    requires TryFormQcSpec(entries, view, height, header, vs, weights).Some?
    ensures var formed := TryFormQcSpec(entries, view, height, header, vs, weights).value;
      && formed.Body() == VoteMessage(view, height, header)
      && formed.SignerSet() == entries[(view, header)].Keys
      && QuorumMet(formed.SignerSet(), vs, weights) == Some(true)
      && (forall i :: 0 <= i < |formed.signers| ==> formed.signers[i] < |vs|)
      && (forall i, j :: 0 <= i < j < |formed.signers| ==> formed.signers[i] != formed.signers[j])
      && |bodies| == |formed.signers|
      && (forall i :: 0 <= i < |bodies| ==>
            bodies[i] == VoteMessage(view, entries[(view, header)][formed.signers[i]].height, header))
      && formed.qc.aggregate.parts == multiset(SignaturesOf(KeysAt(vs, formed.signers), bodies))
  {
    hide Weight, Sum, QuorumMet, QuorumThreshold, QuorumStakeThreshold, Ascending;
    var formed := TryFormQcSpec(entries, view, height, header, vs, weights).value;
    var slot, signers := entries[(view, header)], formed.signers;
    AscendingMembers(slot.Keys);
    AscendingSorted(slot.Keys);
    bodies := seq(|signers|, j requires 0 <= j < |signers| => slot[signers[j]].Body());
    assert SlotSignatures(slot, signers) == SignaturesOf(KeysAt(vs, signers), bodies);
  }

  lemma InEntries(entries: Entries, view: nat, height: nat, header: nat, vs: ValidatorSet, weights: Option<seq<nat>>)
    requires TryFormQcSpec(entries, view, height, header, vs, weights).Some?
    ensures (view, header) in entries
  {
  }

  lemma FormedQcVerifiesExactly(entries: Entries, view: nat, height: nat, header: nat,
                                vs: ValidatorSet, weights: Option<seq<nat>>)
    requires PoolInv(entries, vs)
    requires TryFormQcSpec(entries, view, height, header, vs, weights).Some?
    ensures VerifyFormedQcSpec(TryFormQcSpec(entries, view, height, header, vs, weights).value, vs, weights).Accepted?
       <==> forall i :: i in entries[(view, header)] ==> entries[(view, header)][i].height == height
  {
    hide TryFormQcSpec, VerifyFormedQcSpec, QuorumMet, SignaturesOf, SignaturesOver, KeysAt, PoolInv;
    assert (view, header) in entries by {
      InEntries(entries, view, height, header, vs, weights);
    }
    var slot := entries[(view, header)];
    var formed := TryFormQcSpec(entries, view, height, header, vs, weights).value;
    var bodies := FormedFromSlot(entries, view, height, header, vs, weights);
    AcceptedMeans(formed, vs, weights);
    SameBodies(KeysAt(vs, formed.signers), bodies, formed.Body());
    assert forall i :: i in slot ==> i in formed.SignerSet() && i in formed.signers;
    assert forall j :: 0 <= j < |bodies| ==> formed.signers[j] in formed.SignerSet();
  }

  /** Pruning forms no new certificate, and one that verifies survives it, unchanged, if and only if
      its height reaches the bound. */
  lemma PrunedCertificates(entries: Entries, view: nat, height: nat, header: nat,
                           vs: ValidatorSet, weights: Option<seq<nat>>, minHeight: nat)
    requires PoolInv(entries, vs)
    ensures var formed := TryFormQcSpec(entries, view, height, header, vs, weights);
      var after := TryFormQcSpec(PruneSpec(entries, minHeight), view, height, header, vs, weights);
      && (after.Some? ==> after == formed)
      && (formed.Some? && VerifyFormedQcSpec(formed.value, vs, weights).Accepted? ==>
            (after == formed <==> height >= minHeight))
  {
    hide VerifyFormedQcSpec;
    var formed := TryFormQcSpec(entries, view, height, header, vs, weights);
    if formed.Some? {
      FormedQcVerifiesExactly(entries, view, height, header, vs, weights);
      QuorumMonotone({}, {}, vs, weights);
    }
    hide QuorumMet, AggregateOf, SlotSignatures, Ascending, PoolInv;
  }

  // ----- what an off-height vote does to its slot -----

  /** The vote of step `i` enters the pool. */
  ghost predicate Enters(votes: seq<Vote>, vs: ValidatorSet, weights: Option<seq<nat>>, i: nat)
    requires i < |votes|
  {
    Outcome(votes, vs, weights, i) == Recorded || Outcome(votes, vs, weights, i) == ReachedQuorum
  }

  ghost predicate Holds(entries: Entries, vote: Vote) {
    vote.SlotKey() in entries && vote.index in entries[vote.SlotKey()]
    && entries[vote.SlotKey()][vote.index] == vote
  }

  /** A record files the vote if it enters, and neither drops nor replaces another. */
  lemma RecordHolds(entries: Entries, vote: Vote, vs: ValidatorSet, weights: Option<seq<nat>>, v: Vote)
    ensures var (entries', outcome) := RecordSpec(entries, vote, vs, weights);
      Holds(entries', v) <==> Holds(entries, v) || (v == vote && (outcome == Recorded || outcome == ReachedQuorum))
  {
    hide QuorumMet, Weight, Sum;
  }

  /** The pool holds exactly the votes that entered it. */
  lemma {:induction false} PoolHoldsEntered(votes: seq<Vote>, vs: ValidatorSet, weights: Option<seq<nat>>, k: nat,
                                            v: Vote)
    requires k <= |votes|
    ensures Holds(Pool(votes[..k], vs, weights), v)
       <==> exists i :: 0 <= i < k && votes[i] == v && Enters(votes, vs, weights, i)
  {
    if k > 0 {
      PoolHoldsEntered(votes, vs, weights, k - 1, v);
      PoolStep(votes, vs, weights, k - 1);
      RecordHolds(Pool(votes[..k - 1], vs, weights), votes[k - 1], vs, weights, v);
      hide Pool, RecordSpec, Holds, Outcome, QuorumMet;
      EntersAt(votes, vs, weights, k, v);
    }
  }

  lemma EntersAt(votes: seq<Vote>, vs: ValidatorSet, weights: Option<seq<nat>>, k: nat, v: Vote)
    requires 0 < k <= |votes|
    ensures (exists i :: 0 <= i < k && votes[i] == v && Enters(votes, vs, weights, i))
       <==> || (exists i :: 0 <= i < k - 1 && votes[i] == v && Enters(votes, vs, weights, i))
            || (votes[k - 1] == v && Enters(votes, vs, weights, k - 1))
  {
    hide Enters;
  }

  lemma SlotVotesHeld(entries: Entries, vs: ValidatorSet, key: (nat, nat), height: nat)
    requires PoolInv(entries, vs) && key in entries
    ensures (forall i :: i in entries[key] ==> entries[key][i].height == height)
       <==> (forall v :: Holds(entries, v) && v.SlotKey() == key ==> v.height == height)
  {
    if i :| i in entries[key] && entries[key][i].height != height {
      assert Holds(entries, entries[key][i]);
    }
  }

  /** Over a run: the certificate of a slot verifies at a height if and only if no vote of another
      height has entered the slot so far. Hence one that has spoils the slot for good. */
  lemma VerifiesUnlessSpoiled(votes: seq<Vote>, vs: ValidatorSet, weights: Option<seq<nat>>,
                              view: nat, height: nat, header: nat, k: nat)
    requires k <= |votes|
    requires TryFormQcSpec(Pool(votes[..k], vs, weights), view, height, header, vs, weights).Some?
    ensures VerifyFormedQcSpec(TryFormQcSpec(Pool(votes[..k], vs, weights), view, height, header, vs, weights).value,
                               vs, weights).Accepted?
       <==> forall i :: 0 <= i < k && Enters(votes, vs, weights, i) && votes[i].SlotKey() == (view, header)
                        ==> votes[i].height == height
  {
    hide TryFormQcSpec, VerifyFormedQcSpec, Pool, PoolInv, Holds, Enters;
    var entries := Pool(votes[..k], vs, weights);
    PoolSatisfiesInv(votes[..k], vs, weights);
    InEntries(entries, view, height, header, vs, weights);
    FormedQcVerifiesExactly(entries, view, height, header, vs, weights);
    SlotVotesHeld(entries, vs, (view, header), height);
    forall v
      ensures Holds(entries, v) <==> exists i :: 0 <= i < k && votes[i] == v && Enters(votes, vs, weights, i)
    {
      PoolHoldsEntered(votes, vs, weights, k, v);
    }
  }

  lemma SpoiledForGood(votes: seq<Vote>, vs: ValidatorSet, weights: Option<seq<nat>>, height: nat, i: nat, k: nat)
    requires i < k <= |votes| && Enters(votes, vs, weights, i) && votes[i].height != height
    ensures var entries := Pool(votes[..k], vs, weights);
      var formed := TryFormQcSpec(entries, votes[i].view, height, votes[i].header, vs, weights);
      formed.Some? ==> VerifyFormedQcSpec(formed.value, vs, weights).Rejected?
  {
    hide TryFormQcSpec, VerifyFormedQcSpec, Pool, Enters;
    if TryFormQcSpec(Pool(votes[..k], vs, weights), votes[i].view, height, votes[i].header, vs, weights).Some? {
      VerifiesUnlessSpoiled(votes, vs, weights, votes[i].view, height, votes[i].header, k);
    }
  }

  /** Everyone votes for header 0 at height 0, but validator 0 puts height 1 in its vote. */
  function SpoiledVote(vs: ValidatorSet, i: nat): Vote
    requires i < |vs|
  {
    var height := if i == 0 then 1 else 0;
    Vote(0, height, 0, i, Signed(vs[i].key, VoteMessage(0, height, 0)))
  }

  function SpoiledVotes(vs: ValidatorSet): (r: seq<Vote>)
    ensures |r| == |vs|
  {
    seq(|vs|, i requires 0 <= i < |vs| => SpoiledVote(vs, i))
  }

  /** A valid vote of a validator that has none in the slot yet always enters. */
  lemma NewVoteEnters(entries: Entries, vote: Vote, vs: ValidatorSet)
    requires vote.Verifies(vs) && vote.index !in SlotAt(entries, vote.SlotKey())
    ensures var (entries', outcome) := RecordSpec(entries, vote, vs, None);
      && SlotAt(entries', vote.SlotKey()) == SlotAt(entries, vote.SlotKey())[vote.index := vote]
      && (outcome == Recorded || outcome == ReachedQuorum)
  {
    hide QuorumThreshold;
  }

  lemma {:induction false} SpoiledPool(vs: ValidatorSet, k: nat)
    requires k <= |vs|
    ensures var slot := SlotAt(Pool(SpoiledVotes(vs)[..k], vs, None), (0, 0));
      |slot| == k && forall i :: i in slot <==> 0 <= i < k
    ensures forall i :: 0 <= i < k ==> Enters(SpoiledVotes(vs), vs, None, i)
  {
    hide *;
    var votes := SpoiledVotes(vs);
    if k == 0 {
      assert votes[..0] == [];
      EmptySlot(vs, (0, 0));
    } else {
      SpoiledPool(vs, k - 1);
      var before := Pool(votes[..k - 1], vs, None);
      SpoiledVoteValid(vs, k - 1);
      PoolStep(votes, vs, None, k - 1);
      NewVoteEnters(before, votes[k - 1], vs);
      EntersMeans(votes, vs, None, k - 1);
    }
  }

  lemma EmptySlot(vs: ValidatorSet, key: (nat, nat))
    ensures SlotAt(Pool([], vs, None), key) == map[]
  {
  }

  lemma SpoiledVoteValid(vs: ValidatorSet, i: nat)
    requires i < |vs|
    ensures var vote := SpoiledVotes(vs)[i]; vote.Verifies(vs) && vote.index == i && vote.SlotKey() == (0, 0)
  {
  }

  lemma EntersMeans(votes: seq<Vote>, vs: ValidatorSet, weights: Option<seq<nat>>, i: nat)
    requires i < |votes|
    ensures Enters(votes, vs, weights, i)
       <==> Outcome(votes, vs, weights, i) == Recorded || Outcome(votes, vs, weights, i) == ReachedQuorum
  {
  }

  /** One validator is enough: in every set of two or more there is a run in which all sign the same
      header at one height but one, the slot reaches its quorum, a certificate is formed for any
      height asked for, and none of them verifies. */
  lemma OneVoteSpoils(vs: ValidatorSet, height: nat)
    requires |vs| >= 2
    ensures forall i :: 0 < i < |vs| ==> SpoiledVotes(vs)[i].height == 0
    ensures var formed := TryFormQcSpec(Pool(SpoiledVotes(vs), vs, None), 0, height, 0, vs, None);
      formed.Some? && VerifyFormedQcSpec(formed.value, vs, None).Rejected?
  {
    hide TryFormQcSpec, VerifyFormedQcSpec, Pool, Enters, SlotAt;
    var votes, n := SpoiledVotes(vs), |vs|;
    SpoiledPool(vs, n);
    PoolSatisfiesInv(votes, vs, None);
    assert votes[..n] == votes;
    FormsAtAnyHeight(Pool(votes, vs, None), vs, None, (0, 0), height);
    SpoiledForGood(votes, vs, None, height, if height == 1 then 1 else 0, n);
  }

  lemma FormsAtAnyHeight(entries: Entries, vs: ValidatorSet, weights: Option<seq<nat>>, key: (nat, nat), height: nat)
    requires PoolInv(entries, vs) && QuorumMet(SlotAt(entries, key).Keys, vs, weights) == Some(true)
    ensures TryFormQcSpec(entries, key.0, height, key.1, vs, weights).Some?
  {
    FormableIsQuorum(entries, key, vs, weights);
  }
}

/** Validator sets, quorum thresholds and ideal signatures
    (`crates/bft-wire/src/validators.rs`, `quorum.rs`, `qc.rs`). */
module Validators {
  import opened Arithmetic
  import opened Collections

  // ----- messages and ideal signatures -----

  /** What a validator signs. Vote and timeout bodies encode to different lengths, so no byte
      string is both. */
  datatype Message =
    | VoteMessage(view: nat, height: nat, header: nat)
    | TimeoutMessage(view: nat, highQc: QuorumCertificate)

  /** A signature is the fact that `key` signed `message`; anything else is malformed. */
  datatype Signature = Signed(key: nat, message: Message) | Malformed

  /** Aggregation forgets the order of its parts and nothing else. */
  datatype Aggregate = Aggregate(parts: multiset<Signature>)

  datatype QuorumCertificate = QC(view: nat, height: nat, header: nat, aggregate: Aggregate)

  type HashQc = QuorumCertificate -> nat

  ghost predicate CollisionFree(hash: HashQc) {
    forall p, q :: hash(p) == hash(q) ==> p == q
  }

  function SignaturesOver(keys: seq<nat>, message: Message): seq<Signature> {
    seq(|keys|, i requires 0 <= i < |keys| => Signed(keys[i], message))
  }

  /** `AggregateSignature::verify`: every listed key signed this one message. */
  predicate AggregateVerifies(aggregate: Aggregate, message: Message, keys: seq<nat>) {
    keys != [] && aggregate.parts == multiset(SignaturesOver(keys, message))
  }

  /** `AggregateSignature::from_signatures`. */
  function AggregateOf(signatures: seq<Signature>): Option<Aggregate> {
    if signatures == [] || Malformed in signatures then None
    else Some(Aggregate(multiset(signatures)))
  }

  lemma SignerSigned(aggregate: Aggregate, message: Message, keys: seq<nat>, i: nat)
    requires AggregateVerifies(aggregate, message, keys) && i < |keys|
    ensures Signed(keys[i], message) in aggregate.parts
  {
    assert SignaturesOver(keys, message)[i] == Signed(keys[i], message);
  }

  // ----- validator sets -----

  datatype Validator = Validator(fingerprint: nat, key: nat)

  type ValidatorSet = seq<Validator>

  function FaultBound(n: nat): nat { SatSub(n, 1) / 3 }

  function QuorumThreshold(vs: ValidatorSet): nat { Max(2 * FaultBound(|vs|) + 1, 1) }

  function CeilDivU128(a: nat, b: nat): nat {
    if b == 0 then 0 else SatAdd(a, SatSub(b, 1)) / b
  }

  function QuorumStakeThreshold(total: nat, k: nat, n: nat): nat {
    if total == 0 || n == 0 || k == 0 then 0
    else Max(CeilDivU128(SatMul(total, k), n), 1)
  }

  function KeysAt(vs: ValidatorSet, indices: seq<nat>): (r: seq<nat>)
    requires forall i :: 0 <= i < |indices| ==> indices[i] < |vs|
    ensures |r| == |indices|
  {
    seq(|indices|, i requires 0 <= i < |indices| => vs[indices[i]].key)
  }

  /** `position(|e| e.fingerprint == fp)`. */
  function IndexOf(vs: ValidatorSet, fp: nat): (r: Option<nat>)
    ensures r.Some? ==> r.value < |vs| && vs[r.value].fingerprint == fp
    ensures r.Some? ==> forall j :: 0 <= j < r.value ==> vs[j].fingerprint != fp
    ensures r.None? ==> forall j :: 0 <= j < |vs| ==> vs[j].fingerprint != fp
  {
    if vs == [] then None
    else if vs[0].fingerprint == fp then Some(0)
    else match IndexOf(vs[1..], fp)
         case None => (assert forall j :: 1 <= j < |vs| ==> vs[j] == vs[1..][j - 1]; None)
         case Some(i) => (assert forall j :: 1 <= j < |vs| ==> vs[j] == vs[1..][j - 1]; Some(i + 1))
  }

  ghost predicate DistinctFingerprints(vs: ValidatorSet) {
    forall i, j :: 0 <= i < j < |vs| ==> vs[i].fingerprint != vs[j].fingerprint
  }

  // ----- weight of a set of validators -----

  /** Total weight of the validators in `s`; indices outside `w` weigh nothing. */
  function Weight(s: set<nat>, w: seq<nat>): nat {
    if w == [] then 0
    else Weight(s, w[..|w| - 1]) + if |w| - 1 in s then w[|w| - 1] else 0
  }

  function Ones(n: nat): seq<nat> { seq(n, _ => 1) }

  lemma {:induction false} WeightInclusionExclusion(a: set<nat>, b: set<nat>, w: seq<nat>)
    ensures Weight(a, w) + Weight(b, w) == Weight(a + b, w) + Weight(a * b, w)
  {
    if w != [] {
      WeightInclusionExclusion(a, b, w[..|w| - 1]);
    }
  }

  lemma {:induction false} WeightBound(s: set<nat>, w: seq<nat>)
    ensures Weight(s, w) <= Sum(w)
  {
    if w != [] {
      WeightBound(s, w[..|w| - 1]);
    }
  }

  lemma {:induction false} WeightMonotone(a: set<nat>, b: set<nat>, w: seq<nat>)
    requires a <= b
    ensures Weight(a, w) <= Weight(b, w)
  {
    if w != [] {
      WeightMonotone(a, b, w[..|w| - 1]);
    }
  }

  lemma {:induction false} WeightEmpty(w: seq<nat>)
    ensures Weight({}, w) == 0
  {
    if w != [] {
      WeightEmpty(w[..|w| - 1]);
    }
  }

  lemma {:induction false} WeightAdd(s: set<nat>, x: nat, w: seq<nat>)
    requires x !in s
    ensures Weight(s + {x}, w) == Weight(s, w) + if x < |w| then w[x] else 0
  {
    if w != [] {
      WeightAdd(s, x, w[..|w| - 1]);
    }
  }

  /** Counting is weighing with ones. */
  lemma {:induction false} WeightOfOnes(s: set<nat>, n: nat)
    requires forall x :: x in s ==> x < n
    ensures Weight(s, Ones(n)) == |s|
  {
    if n == 0 {
      assert s == {};
    } else {
      var w := Ones(n);
      assert w[..n - 1] == Ones(n - 1);
      if n - 1 in s {
        WeightOfOnes(s - {n - 1}, n - 1);
        WeightAdd(s - {n - 1}, n - 1, Ones(n - 1));
        assert s - {n - 1} + {n - 1} == s;
      } else {
        WeightOfOnes(s, n - 1);
      }
    }
  }

  // ----- what counts as a quorum -----

  /** The `u128` sum of the weights, as a release build computes it. */
  function TotalStake(w: seq<nat>): nat { Sum(w) % (U128_MAX + 1) }

  lemma TotalStakeFits(w: seq<nat>)
    requires Sum(w) <= U128_MAX
    ensures TotalStake(w) == Sum(w)
  {
  }

  /** The test shared by tallying and certificate verification; `None` when the weights do not
      fit the set. With no stake at all, stake mode falls back to counting. */
  function QuorumMet(signers: set<nat>, vs: ValidatorSet, weights: Option<seq<nat>>): Option<bool> {
    var k := QuorumThreshold(vs);
    match weights
    case None => Some(|signers| >= k)
    case Some(w) =>
      if |w| != |vs| then None
      else if TotalStake(w) == 0 then Some(|signers| >= k)
      else Some(Min(Weight(signers, w), U128_MAX) >= QuorumStakeThreshold(TotalStake(w), k, |vs|))
  }

  lemma StakeThresholdPositive(total: nat, k: nat, n: nat)
    requires total > 0 && k > 0 && n > 0
    ensures QuorumStakeThreshold(total, k, n) >= 1
  {
  }

  /** A quorum is never empty, and adding validators never loses one. */
  lemma QuorumMonotone(a: set<nat>, b: set<nat>, vs: ValidatorSet, weights: Option<seq<nat>>)
    requires a <= b
    ensures QuorumMet({}, vs, weights) != Some(true)
    ensures QuorumMet(a, vs, weights) == Some(true) ==> QuorumMet(b, vs, weights) == Some(true)
  {
    assert |a| <= |b| by {
      assert b == a + (b - a);
    }
    if weights.Some? && |weights.value| == |vs| {
      WeightEmpty(weights.value);
      WeightMonotone(a, b, weights.value);
      if TotalStake(weights.value) > 0 {
        assert weights.value != [];
        StakeThresholdPositive(TotalStake(weights.value), QuorumThreshold(vs), |vs|);
      }
    }
  }

  // ----- quorum intersection -----

  lemma UnionInRange(a: set<nat>, b: set<nat>, n: nat)
    requires forall x :: x in a || x in b ==> x < n
    ensures |a + b| <= n && |a| + |b| == |a + b| + |a * b|
  {
    WeightOfOnes(a, n);
    WeightOfOnes(b, n);
    WeightOfOnes(a + b, n);
    WeightOfOnes(a * b, n);
    WeightInclusionExclusion(a, b, Ones(n));
    WeightBound(a + b, Ones(n));
    SumOfConstant(Ones(n), 1);
  }

  /** Counting mode: two quorums share at least 4f + 2 - n validators. */
  lemma CountQuorumsIntersect(a: set<nat>, b: set<nat>, vs: ValidatorSet)
    requires forall x :: x in a || x in b ==> x < |vs|
    requires |a| >= QuorumThreshold(vs) && |b| >= QuorumThreshold(vs)
    ensures |a * b| >= 4 * FaultBound(|vs|) + 2 - |vs|
  {
    UnionInRange(a, b, |vs|);
  }

  /** Stake mode: two quorums share at least twice the threshold minus the stake there is. The
      threshold is taken from the machine total, the stake is not. */
  lemma StakeQuorumsIntersect(a: set<nat>, b: set<nat>, vs: ValidatorSet, w: seq<nat>)
    requires |w| == |vs| && 0 < TotalStake(w)
    requires QuorumMet(a, vs, Some(w)) == Some(true) && QuorumMet(b, vs, Some(w)) == Some(true)
    ensures Weight(a * b, w) >= 2 * QuorumStakeThreshold(TotalStake(w), QuorumThreshold(vs), |vs|) - Sum(w)
  {
    WeightInclusionExclusion(a, b, w);
    WeightBound(a + b, w);
  }

  // ----- exactly which totals the stake threshold protects -----

  function Spread(x: nat, y: nat, z: nat, n: nat): (w: seq<nat>)
    requires n >= 3
    ensures |w| == n
  {
    [x, y, z] + seq(n - 3, _ => 0)
  }

  lemma SpreadSum(x: nat, y: nat, z: nat, n: nat)
    requires n >= 3
    ensures Sum(Spread(x, y, z, n)) == x + y + z
  {
    hide Sum;
    var tail := seq(n - 3, _ => 0);
    SumConcat([x, y, z], tail);
    SumOfConstant(tail, 0);
    SumThree(x, y, z);
  }

  lemma SumThree(x: nat, y: nat, z: nat)
    ensures Sum([x, y, z]) == x + y + z
  {
    SumAppend([], x);
    SumAppend([x], y);
    SumAppend([x, y], z);
    assert [] + [x] == [x] && [x] + [y] == [x, y] && [x, y] + [z] == [x, y, z];
  }

  lemma PairWeight(i: nat, j: nat, w: seq<nat>)
    requires i < j < |w|
    ensures Weight({i}, w) == w[i] && Weight({j}, w) == w[j] && Weight({i, j}, w) == w[i] + w[j]
  {
    hide Weight;
    WeightEmpty(w);
    WeightAdd({}, i, w);
    WeightAdd({}, j, w);
    WeightAdd({i}, j, w);
    assert {} + {i} == {i} && {} + {j} == {j} && {i} + {j} == {i, j};
  }

  /** Two quorums of the given total and threshold that share as little as they can. */
  lemma LeastOverlap(vs: ValidatorSet, total: nat) returns (w: seq<nat>, a: set<nat>, b: set<nat>)
    requires |vs| >= 3 && 0 < total <= U128_MAX
    requires var t := QuorumStakeThreshold(total, QuorumThreshold(vs), |vs|); 3 * (2 * t - total) <= total
    ensures |w| == |vs| && Sum(w) == total
    ensures QuorumMet(a, vs, Some(w)) == Some(true) && QuorumMet(b, vs, Some(w)) == Some(true)
    ensures 3 * Weight(a * b, w) <= total
  {
    hide QuorumStakeThreshold, QuorumThreshold, Weight, Sum;
    var t, n := QuorumStakeThreshold(total, QuorumThreshold(vs), |vs|), |vs|;
    if 2 * t >= total {
      w, a, b := Spread(total - t, total - t, 2 * t - total, n), {0, 2}, {1, 2};
      SpreadSum(total - t, total - t, 2 * t - total, n);
      PairWeight(0, 2, w);
      PairWeight(1, 2, w);
      assert a * b == {2};
    } else {
      w, a, b := Spread(t, total - t, 0, n), {0}, {1};
      SpreadSum(t, total - t, 0, n);
      PairWeight(0, 1, w);
      WeightEmpty(w);
      assert a * b == {};
    }
  }

  /** A stake threshold forces more than a third of the stake to be shared, whatever the weights,
      exactly when three times it exceeds twice the total: a test on the total alone. */
  lemma StakeThresholdSafeExactly(vs: ValidatorSet, total: nat)
    requires |vs| >= 3 && 0 < total <= U128_MAX
    ensures (forall w, a, b :: (|w| == |vs| && Sum(w) == total
                                && QuorumMet(a, vs, Some(w)) == Some(true) && QuorumMet(b, vs, Some(w)) == Some(true))
                               ==> 3 * Weight(a * b, w) > total)
       <==> 3 * QuorumStakeThreshold(total, QuorumThreshold(vs), |vs|) > 2 * total
  {
    hide QuorumStakeThreshold, QuorumThreshold;
    var t := QuorumStakeThreshold(total, QuorumThreshold(vs), |vs|);
    if 3 * t > 2 * total {
      forall w, a, b | (|w| == |vs| && Sum(w) == total
                        && QuorumMet(a, vs, Some(w)) == Some(true) && QuorumMet(b, vs, Some(w)) == Some(true))
        ensures 3 * Weight(a * b, w) > total
      {
        TotalStakeFits(w);
        StakeQuorumsIntersect(a, b, vs, w);
      }
    } else {
      var w, a, b := LeastOverlap(vs, total);
    }
  }

  /** Below saturation the threshold is the true ceiling. */
  lemma StakeThresholdIsCeiling(total: nat, k: nat, n: nat)
    requires total > 0 && 0 < k && 0 < n && total * k + n - 1 <= U128_MAX
    ensures QuorumStakeThreshold(total, k, n) == CeilDiv(total * k, n)
    ensures QuorumStakeThreshold(total, k, n) * n >= total * k
  {
    var x := total * k;
    assert x >= 1 by {
      MulMonotone(1, k, total);
    }
    var c := (x + n - 1) / n;
    assert x + n - 1 == c * n + (x + n - 1) % n;
  }

  /** With n = 3f + 1 and unsaturated arithmetic the shared stake exceeds a third. */
  lemma StakeOverlapExceedsThird(total: nat, f: nat, threshold: nat)
    requires total > 0 && threshold * (3 * f + 1) >= total * (2 * f + 1)
    ensures 3 * (2 * threshold - total) > total
  {
    assert 3 * (total * (2 * f + 1)) == total * (6 * f + 2) + total;
    assert 3 * (threshold * (3 * f + 1)) == (3 * threshold) * (3 * f + 1);
    assert (2 * total) * (3 * f + 1) == total * (6 * f + 2);
    if 3 * threshold <= 2 * total {
      MulMonotone(3 * threshold, 2 * total, 3 * f + 1);
    }
  }
}

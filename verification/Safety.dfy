/** Safety of the certificate layer over whole runs: what signatures exist decides what can be
    certified and who can be slashed. */
module Safety {
  import opened Arithmetic
  import opened Collections
  import opened Validators
  import opened Votes
  import opened Timeouts
  import opened Misbehavior

  // ----- runs -----

  /** The holder of `key` signs `message`. Everything else anyone sends is built from these. */
  datatype Action = Sign(key: nat, message: Message)

  ghost function SignedBy(run: seq<Action>): set<Signature> {
    set a | a in run :: Signed(a.key, a.message)
  }

  /** Honest keys never sign what equivocates with their own past; others sign anything. */
  ghost predicate Run(run: seq<Action>, honest: set<nat>) {
    forall i :: 0 <= i < |run| && run[i].key in honest ==> MaySign(SignedBy(run[..i]), run[i])
  }

  ghost predicate MaySign(signed: set<Signature>, action: Action) {
    forall m :: Signed(action.key, m) in signed ==> !Equivocates(m, action.message)
  }

  lemma EquivocatesSymmetric(m: Message, m': Message)
    ensures Equivocates(m, m') == Equivocates(m', m)
    ensures !Equivocates(m, m)
  {
  }

  lemma {:induction false} HonestStayDisciplined(run: seq<Action>, honest: set<nat>, key: nat)
    requires Run(run, honest) && key in honest
    ensures Disciplined(SignedBy(run), key)
  {
    forall m, m' | Signed(key, m) in SignedBy(run) && Signed(key, m') in SignedBy(run)
      ensures !Equivocates(m, m')
    {
      var i :| 0 <= i < |run| && run[i] == Sign(key, m);
      var j :| 0 <= j < |run| && run[j] == Sign(key, m');
      EquivocatesSymmetric(m, m');
      if i < j {
        assert run[i] in run[..j];
        assert Signed(key, m) in SignedBy(run[..j]);
      } else if j < i {
        assert run[j] in run[..i];
        assert Signed(key, m') in SignedBy(run[..i]);
      }
    }
  }

  /** Unforgeability: whatever well-formed signatures these are, someone made them. */
  ghost predicate Available(signatures: set<Signature>, signed: set<Signature>) {
    forall s :: s in signatures ==> s.Malformed? || s in signed
  }

  lemma AvailableDiscipline(carried: set<Signature>, signed: set<Signature>, key: nat)
    requires Available(carried, signed) && Disciplined(signed, key)
    ensures Disciplined(carried, key)
  {
  }

  // ----- slashing -----

  /** No honest validator is ever the offender of accepted evidence, whatever evidence anyone
      assembles from the signatures of the run. */
  lemma HonestNeverSlashed(run: seq<Action>, honest: set<nat>, hash: HashQc, ev: Evidence,
                           vs: ValidatorSet, weights: Option<seq<nat>>, fp: nat)
    requires Run(run, honest) && Available(Carried(ev), SignedBy(run))
    requires VerifyEvidence(hash, ev, vs, weights, fp).Valid?
    ensures IndexOf(vs, fp).Some? && vs[IndexOf(vs, fp).value].key !in honest
  {
    AcceptedEvidenceProvesFault(hash, ev, vs, weights, fp);
    var key := vs[IndexOf(vs, fp).value].key;
    if key in honest {
      HonestStayDisciplined(run, honest, key);
      AvailableDiscipline(Carried(ev), SignedBy(run), key);
    }
  }

  ghost predicate Slashable(hash: HashQc, signed: set<Signature>, vs: ValidatorSet, weights: Option<seq<nat>>,
                            fp: nat) {
    exists ev :: Available(Carried(ev), signed) && VerifyEvidence(hash, ev, vs, weights, fp).Valid?
  }

  /** A validator found under its fingerprint can be slashed exactly when it equivocated. */
  lemma SlashableExactly(hash: HashQc, signed: set<Signature>, vs: ValidatorSet, weights: Option<seq<nat>>, i: nat)
    requires CollisionFree(hash)
    requires i < |vs| && IndexOf(vs, vs[i].fingerprint) == Some(i)
    ensures Slashable(hash, signed, vs, weights, vs[i].fingerprint) <==> !Disciplined(signed, vs[i].key)
  {
    var fp, key := vs[i].fingerprint, vs[i].key;
    if ev :| Available(Carried(ev), signed) && VerifyEvidence(hash, ev, vs, weights, fp).Valid? {
      AcceptedEvidenceProvesFault(hash, ev, vs, weights, fp);
      if Disciplined(signed, key) {
        AvailableDiscipline(Carried(ev), signed, key);
      }
    }
    if !Disciplined(signed, key) {
      var m, m' :| Signed(key, m) in signed && Signed(key, m') in signed && Equivocates(m, m');
      var ev := EvidenceOf(i, vs, m, m');
      assert Available(Carried(ev), signed);
      EvidenceAccepted(hash, vs, weights, i, m, m');
    }
  }

  function EvidenceOf(i: nat, vs: ValidatorSet, m: Message, m': Message): Evidence
    requires i < |vs| && Equivocates(m, m')
  {
    var fp, s, s' := vs[i].fingerprint, Signed(vs[i].key, m), Signed(vs[i].key, m');
    match m
    case VoteMessage(v, h, x) => DoubleVote(fp, Vote(v, h, x, i, s), Vote(v, h, m'.header, i, s'))
    case TimeoutMessage(v, q) => TimeoutEquivocation(fp, Timeout(v, q, i, s), Timeout(v, m'.highQc, i, s'))
  }

  lemma EvidenceAccepted(hash: HashQc, vs: ValidatorSet, weights: Option<seq<nat>>, i: nat, m: Message, m': Message)
    requires CollisionFree(hash)
    requires i < |vs| && IndexOf(vs, vs[i].fingerprint) == Some(i) && Equivocates(m, m')
    ensures VerifyEvidence(hash, EvidenceOf(i, vs, m, m'), vs, weights, vs[i].fingerprint).Valid?
  {
  }

  // ----- accountable safety -----

  predicate Conflicting(a: FormedQc, b: FormedQc) {
    a.qc.view == b.qc.view && a.qc.height == b.qc.height && a.qc.header != b.qc.header
  }

  ghost predicate Certified(a: FormedQc, vs: ValidatorSet, weights: Option<seq<nat>>) {
    VerifyFormedQcSpec(a, vs, weights).Accepted?
  }

  ghost function Shared(a: FormedQc, b: FormedQc): set<nat> { a.SignerSet() * b.SignerSet() }

  /** Every shared signer of two conflicting certificates is caught: the two certificates are
      themselves accepted evidence against it, provided its fingerprint leads to it. */
  lemma SharedSignersCaught(hash: HashQc, a: FormedQc, b: FormedQc, vs: ValidatorSet, weights: Option<seq<nat>>, i: nat)
    requires Certified(a, vs, weights) && Certified(b, vs, weights) && Conflicting(a, b) && i in Shared(a, b)
    ensures i < |vs|
    ensures IndexOf(vs, vs[i].fingerprint) == Some(i)
        ==> VerifyEvidence(hash, ConflictingQc(vs[i].fingerprint, a, b), vs, weights, vs[i].fingerprint).Valid?
    ensures DistinctFingerprints(vs) ==> IndexOf(vs, vs[i].fingerprint) == Some(i)
  {
    AcceptedMeans(a, vs, weights);
    hide VerifyFormedQcSpec;
  }

  /** How many: at least 4f + 2 - n validators when votes are counted, and at least twice the
      threshold minus the total when stake is weighed. */
  lemma AccountableSafety(a: FormedQc, b: FormedQc, vs: ValidatorSet, weights: Option<seq<nat>>)
    requires Certified(a, vs, weights) && Certified(b, vs, weights)
    ensures weights.None? || TotalStake(weights.value) == 0
        ==> |Shared(a, b)| >= 4 * FaultBound(|vs|) + 2 - |vs|
    ensures weights.Some? && TotalStake(weights.value) > 0
        ==> Weight(Shared(a, b), weights.value)
              >= 2 * QuorumStakeThreshold(TotalStake(weights.value), QuorumThreshold(vs), |vs|) - Sum(weights.value)
  {
    AcceptedMeans(a, vs, weights);
    AcceptedMeans(b, vs, weights);
    hide VerifyFormedQcSpec;
    if weights.None? || TotalStake(weights.value) == 0 {
      CountQuorumsIntersect(a.SignerSet(), b.SignerSet(), vs);
    } else {
      StakeQuorumsIntersect(a.SignerSet(), b.SignerSet(), vs, weights.value);
    }
  }

  ghost function QcSignatures(a: FormedQc): set<Signature> { set s | s in a.qc.aggregate.parts }

  ghost function Faulty(vs: ValidatorSet, honest: set<nat>): set<nat> {
    set i | 0 <= i < |vs| && vs[i].key !in honest
  }

  /** In a run, the shared signers of two conflicting certificates are all faulty. */
  lemma SharedSignersFaulty(run: seq<Action>, honest: set<nat>, a: FormedQc, b: FormedQc,
                            vs: ValidatorSet, weights: Option<seq<nat>>)
    requires Run(run, honest)
    requires Certified(a, vs, weights) && Available(QcSignatures(a), SignedBy(run))
    requires Certified(b, vs, weights) && Available(QcSignatures(b), SignedBy(run))
    requires Conflicting(a, b)
    ensures Shared(a, b) <= Faulty(vs, honest)
  {
    forall i | i in Shared(a, b)
      ensures i in Faulty(vs, honest)
    {
      AcceptedSignerSigned(a, vs, weights, i);
      AcceptedSignerSigned(b, vs, weights, i);
      hide VerifyFormedQcSpec;
      var key := vs[i].key;
      assert Signed(key, a.Body()) in QcSignatures(a) && Signed(key, b.Body()) in QcSignatures(b);
      assert Equivocates(a.Body(), b.Body());
      if key in honest {
        HonestStayDisciplined(run, honest, key);
      }
    }
  }

  lemma SubsetSize(a: set<nat>, b: set<nat>)
    requires a <= b
    ensures |a| <= |b|
  {
    assert b == a + (b - a);
  }

  /** Agreement by counting: with n = 3f + 1 validators of whom at most f are faulty, no run
      yields two certificates at one (view, height) for different headers. */
  lemma AgreementByCount(run: seq<Action>, honest: set<nat>, a: FormedQc, b: FormedQc,
                         vs: ValidatorSet, weights: Option<seq<nat>>)
    requires Run(run, honest)
    requires weights.None? || TotalStake(weights.value) == 0
    requires |vs| == 3 * FaultBound(|vs|) + 1 && |Faulty(vs, honest)| <= FaultBound(|vs|)
    requires Certified(a, vs, weights) && Available(QcSignatures(a), SignedBy(run))
    requires Certified(b, vs, weights) && Available(QcSignatures(b), SignedBy(run))
    requires a.qc.view == b.qc.view && a.qc.height == b.qc.height
    ensures a.qc.header == b.qc.header
  {
    if a.qc.header != b.qc.header {
      SharedSignersFaulty(run, honest, a, b, vs, weights);
      AccountableSafety(a, b, vs, weights);
      SubsetSize(Shared(a, b), Faulty(vs, honest));
    }
  }

  /** Agreement by stake: the same with faulty validators holding at most a third of the stake,
      as long as the threshold computation does not saturate. */
  lemma AgreementByStake(run: seq<Action>, honest: set<nat>, a: FormedQc, b: FormedQc,
                         vs: ValidatorSet, w: seq<nat>)
    requires Run(run, honest)
    requires |vs| == 3 * FaultBound(|vs|) + 1 && |w| == |vs| && Sum(w) > 0
    requires Sum(w) * QuorumThreshold(vs) + |vs| - 1 <= U128_MAX
    requires 3 * Weight(Faulty(vs, honest), w) <= Sum(w)
    requires Certified(a, vs, Some(w)) && Available(QcSignatures(a), SignedBy(run))
    requires Certified(b, vs, Some(w)) && Available(QcSignatures(b), SignedBy(run))
    requires a.qc.view == b.qc.view && a.qc.height == b.qc.height
    ensures a.qc.header == b.qc.header
  {
    var f := FaultBound(|vs|);
    MulMonotone(1, QuorumThreshold(vs), Sum(w));
    TotalStakeFits(w);
    StakeThresholdIsCeiling(Sum(w), QuorumThreshold(vs), |vs|);
    StakeOverlapExceedsThird(Sum(w), f, QuorumStakeThreshold(Sum(w), QuorumThreshold(vs), |vs|));
    if a.qc.header != b.qc.header {
      SharedSignersFaulty(run, honest, a, b, vs, Some(w));
      AccountableSafety(a, b, vs, Some(w));
      WeightMonotone(Shared(a, b), Faulty(vs, honest), w);
    }
  }

  /** What either mode of agreement asks of the set: n = 3f + 1, and at most f faulty validators
      when votes are counted, at most a third of the stake, unsaturated, when they are weighed. */
  ghost predicate Protected(vs: ValidatorSet, weights: Option<seq<nat>>, honest: set<nat>) {
    && |vs| == 3 * FaultBound(|vs|) + 1
    && if weights.None? || TotalStake(weights.value) == 0
       then |Faulty(vs, honest)| <= FaultBound(|vs|)
       else && |weights.value| == |vs|
            && Sum(weights.value) * QuorumThreshold(vs) + |vs| - 1 <= U128_MAX
            && 3 * Weight(Faulty(vs, honest), weights.value) <= Sum(weights.value)
  }

  lemma Agreement(run: seq<Action>, honest: set<nat>, a: FormedQc, b: FormedQc,
                  vs: ValidatorSet, weights: Option<seq<nat>>)
    requires Run(run, honest) && Protected(vs, weights, honest)
    requires Certified(a, vs, weights) && Available(QcSignatures(a), SignedBy(run))
    requires Certified(b, vs, weights) && Available(QcSignatures(b), SignedBy(run))
    requires a.qc.view == b.qc.view && a.qc.height == b.qc.height
    ensures a.qc.header == b.qc.header
  {
    hide Certified, Run, Available, QcSignatures;
    if weights.None? || TotalStake(weights.value) == 0 {
      AgreementByCount(run, honest, a, b, vs, weights);
    } else {
      AgreementByStake(run, honest, a, b, vs, weights.value);
    }
  }

  // ----- certificates formed by vote pools -----

  ghost function VoteSignatures(votes: seq<Vote>): set<Signature> { set v | v in votes :: v.signature }

  /** The certificate a node forms at the end of its votes. */
  function Formed(votes: seq<Vote>, vs: ValidatorSet, weights: Option<seq<nat>>, view: nat, height: nat, header: nat)
    : Option<FormedQc>
  {
    TryFormQcSpec(Votes.Pool(votes, vs, weights), view, height, header, vs, weights)
  }

  /** A certificate formed by a pool is labelled as asked and aggregates signatures the pool
      received. */
  lemma FormedFromReceived(votes: seq<Vote>, vs: ValidatorSet, weights: Option<seq<nat>>,
                           view: nat, height: nat, header: nat)
    requires Formed(votes, vs, weights, view, height, header).Some?
    ensures var formed := Formed(votes, vs, weights, view, height, header).value;
      && formed.qc.view == view && formed.qc.height == height && formed.qc.header == header
      && QcSignatures(formed) <= VoteSignatures(votes)
  {
    var entries := Votes.Pool(votes, vs, weights);
    var formed := Formed(votes, vs, weights, view, height, header).value;
    var slot := entries[(view, header)];
    AscendingMembers(slot.Keys);
    var signatures := Votes.SlotSignatures(slot, formed.signers);
    forall s | s in QcSignatures(formed)
      ensures s in VoteSignatures(votes)
    {
      assert s in signatures;
      var j :| 0 <= j < |signatures| && signatures[j] == s;
      PoolHoldsReceived(votes, vs, weights, (view, header), formed.signers[j]);
    }
  }

  ghost predicate FormsVerified(votes: seq<Vote>, vs: ValidatorSet, weights: Option<seq<nat>>,
                                view: nat, height: nat, header: nat) {
    var formed := Formed(votes, vs, weights, view, height, header);
    formed.Some? && Certified(formed.value, vs, weights)
  }

  /** Two nodes that collect votes independently, in any order and with any junk in between, never
      form verifying certificates for different headers at one (view, height), whether votes are
      counted or weighed. */
  lemma PoolsAgree(run: seq<Action>, honest: set<nat>, votes: seq<Vote>, votes': seq<Vote>, vs: ValidatorSet,
                   weights: Option<seq<nat>>, view: nat, height: nat, header: nat, header': nat)
    requires Run(run, honest) && Protected(vs, weights, honest)
    requires Available(VoteSignatures(votes), SignedBy(run)) && Available(VoteSignatures(votes'), SignedBy(run))
    requires FormsVerified(votes, vs, weights, view, height, header)
    requires FormsVerified(votes', vs, weights, view, height, header')
    ensures header == header'
  {
    hide Formed, Protected, Certified, Run;
    FormedFromReceived(votes, vs, weights, view, height, header);
    FormedFromReceived(votes', vs, weights, view, height, header');
    var a := Formed(votes, vs, weights, view, height, header).value;
    var b := Formed(votes', vs, weights, view, height, header').value;
    Agreement(run, honest, a, b, vs, weights);
  }

  // ----- timeout certificates -----

  ghost function CertSignatures(c: TimeoutCert): set<Signature> { set s | s in c.aggregate.parts }

  ghost function SharedTimeouts(a: TimeoutCert, b: TimeoutCert): set<nat> { Elements(a.signers) * Elements(b.signers) }

  /** An accepted timeout certificate names a quorum of known validators who all signed it. */
  lemma AcceptedTimeoutMeans(c: TimeoutCert, vs: ValidatorSet)
    requires CertVerifies(c, vs)
    ensures |Elements(c.signers)| >= QuorumThreshold(vs)
    ensures forall i :: i in Elements(c.signers) ==> i < |vs| && Signed(vs[i].key, c.Body()) in CertSignatures(c)
  {
    ScanClean(c.signers, |vs|);
    DistinctLength(c.signers);
    forall i | i in Elements(c.signers)
      ensures i < |vs| && Signed(vs[i].key, c.Body()) in CertSignatures(c)
    {
      var j :| 0 <= j < |c.signers| && c.signers[j] == i;
      SignerSigned(c.aggregate, c.Body(), KeysAt(vs, c.signers), j);
    }
  }

  /** The evidence a signer of two timeout certificates of one view leaves behind. */
  function TimeoutEvidence(a: TimeoutCert, b: TimeoutCert, vs: ValidatorSet, i: nat): Evidence
    requires i < |vs|
  {
    TimeoutEquivocation(vs[i].fingerprint,
                        Timeout(a.view, a.highQc, i, Signed(vs[i].key, a.Body())),
                        Timeout(b.view, b.highQc, i, Signed(vs[i].key, b.Body())))
  }

  /** Two accepted timeout certificates share at least 4f + 2 - n signers. */
  lemma TimeoutOverlap(a: TimeoutCert, b: TimeoutCert, vs: ValidatorSet)
    requires CertVerifies(a, vs) && CertVerifies(b, vs)
    ensures |SharedTimeouts(a, b)| >= 4 * FaultBound(|vs|) + 2 - |vs|
    ensures forall i :: i in SharedTimeouts(a, b) ==> i < |vs|
  {
    AcceptedTimeoutMeans(a, vs);
    AcceptedTimeoutMeans(b, vs);
    hide CertVerifies;
    CountQuorumsIntersect(Elements(a.signers), Elements(b.signers), vs);
  }

  /** If they are of one view and their high QCs differ, signatures taken from the two aggregates
      convict every shared signer whose fingerprint leads to it. */
  lemma SharedTimeoutsCaught(hash: HashQc, a: TimeoutCert, b: TimeoutCert, vs: ValidatorSet,
                             weights: Option<seq<nat>>, i: nat)
    requires CollisionFree(hash) && CertVerifies(a, vs) && CertVerifies(b, vs)
    requires a.view == b.view && a.highQc != b.highQc && i in SharedTimeouts(a, b)
    ensures i < |vs|
    ensures Carried(TimeoutEvidence(a, b, vs, i)) <= CertSignatures(a) + CertSignatures(b)
    ensures IndexOf(vs, vs[i].fingerprint) == Some(i)
        ==> VerifyEvidence(hash, TimeoutEvidence(a, b, vs, i), vs, weights, vs[i].fingerprint).Valid?
  {
    AcceptedTimeoutMeans(a, vs);
    AcceptedTimeoutMeans(b, vs);
    hide CertVerifies, QuorumThreshold, VerifyFormedQcSpec, CertSignatures;
  }

  /** Timeout agreement: with n = 3f + 1 validators of whom at most f are faulty, all accepted
      timeout certificates of a view carry the same high QC. */
  lemma TimeoutAgreement(run: seq<Action>, honest: set<nat>, a: TimeoutCert, b: TimeoutCert, vs: ValidatorSet)
    requires Run(run, honest)
    requires |vs| == 3 * FaultBound(|vs|) + 1 && |Faulty(vs, honest)| <= FaultBound(|vs|)
    requires CertVerifies(a, vs) && Available(CertSignatures(a), SignedBy(run))
    requires CertVerifies(b, vs) && Available(CertSignatures(b), SignedBy(run))
    requires a.view == b.view
    ensures a.highQc == b.highQc
  {
    AcceptedTimeoutMeans(a, vs);
    AcceptedTimeoutMeans(b, vs);
    TimeoutOverlap(a, b, vs);
    hide CertVerifies;
    if a.highQc != b.highQc {
      forall i | i in SharedTimeouts(a, b)
        ensures i in Faulty(vs, honest)
      {
        assert Equivocates(a.Body(), b.Body());
        if vs[i].key in honest {
          HonestStayDisciplined(run, honest, vs[i].key);
        }
      }
      SubsetSize(SharedTimeouts(a, b), Faulty(vs, honest));
    }
  }

  // ----- exactly which set sizes the threshold protects -----

  function Span(lo: nat, hi: nat): seq<nat>
    requires lo <= hi
  {
    seq(hi - lo, i => lo + i)
  }

  lemma {:induction false} SpanSize(lo: nat, hi: nat)
    requires lo <= hi
    ensures |Elements(Span(lo, hi))| == hi - lo
    ensures forall x :: x in Elements(Span(lo, hi)) <==> lo <= x < hi
  {
    var s := Span(lo, hi);
    DistinctLength(s);
    forall x | lo <= x < hi
      ensures x in s
    {
      assert s[x - lo] == x;
    }
  }

  function CertificateOf(vs: ValidatorSet, signers: seq<nat>, header: nat): FormedQc
    requires forall i :: 0 <= i < |signers| ==> signers[i] < |vs|
  {
    FormedQc(QC(0, 0, header, Aggregate(multiset(SignaturesOver(KeysAt(vs, signers), VoteMessage(0, 0, header))))),
             signers)
  }

  lemma SpanCertified(vs: ValidatorSet, lo: nat, hi: nat, header: nat)
    requires lo <= hi <= |vs| && hi - lo == QuorumThreshold(vs)
    ensures forall i :: 0 <= i < |Span(lo, hi)| ==> Span(lo, hi)[i] < |vs|
    ensures Certified(CertificateOf(vs, Span(lo, hi), header), vs, None)
  {
    SpanSize(lo, hi);
    AcceptedMeans(CertificateOf(vs, Span(lo, hi), header), vs, None);
    hide VerifyFormedQcSpec;
  }

  /** A count threshold of 2f + 1 forces more than f shared signers exactly when n = 3f + 1:
      for every other size there are two conflicting certificates that need at most f faults. */
  lemma ThresholdSafeExactly(vs: ValidatorSet)
    requires vs != []
    ensures (forall a, b :: Certified(a, vs, None) && Certified(b, vs, None) && Conflicting(a, b)
                            ==> |Shared(a, b)| > FaultBound(|vs|))
       <==> |vs| % 3 == 1
  {
    hide Certified, Shared;
    if |vs| % 3 == 1 {
      forall a, b | Certified(a, vs, None) && Certified(b, vs, None) && Conflicting(a, b)
        ensures |Shared(a, b)| > FaultBound(|vs|)
      {
        AccountableSafety(a, b, vs, None);
      }
    } else {
      var a, b := ConflictWithFewFaults(vs);
    }
  }

  lemma ConflictWithFewFaults(vs: ValidatorSet) returns (a: FormedQc, b: FormedQc)
    requires vs != [] && |vs| % 3 != 1
    ensures Certified(a, vs, None) && Certified(b, vs, None) && Conflicting(a, b)
    ensures |Shared(a, b)| <= FaultBound(|vs|)
  {
    hide Certified, FaultBound, QuorumThreshold;
    OverlapBound(vs);
    var n, k := |vs|, QuorumThreshold(vs);
    SpanCertified(vs, 0, k, 0);
    SpanCertified(vs, n - k, n, 1);
    a, b := CertificateOf(vs, Span(0, k), 0), CertificateOf(vs, Span(n - k, n), 1);
    SpanSize(0, k);
    SpanSize(n - k, n);
    SpanSize(Min(n - k, k), k);
    var middle: set<nat> := Elements(Span(Min(n - k, k), k));
    assert Shared(a, b) <= middle by {
      hide Elements, Span;
    }
    SubsetSize(Shared(a, b), middle);
  }

  lemma OverlapBound(vs: ValidatorSet)
    requires vs != [] && |vs| % 3 != 1
    ensures QuorumThreshold(vs) <= |vs|
    ensures QuorumThreshold(vs) - Min(|vs| - QuorumThreshold(vs), QuorumThreshold(vs)) <= FaultBound(|vs|)
  {
  }
}

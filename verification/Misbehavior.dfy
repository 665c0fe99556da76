/** Slashable evidence (`crates/bft-wire/src/misbehavior.rs`). */
module Misbehavior {
  import opened Collections
  import opened Validators
  import opened Votes
  import opened Timeouts

  datatype Evidence =
    | DoubleVote(offender: nat, voteA: Vote, voteB: Vote)
    | ConflictingQc(offender: nat, qcA: FormedQc, qcB: FormedQc)
    | TimeoutEquivocation(offender: nat, timeoutA: Timeout, timeoutB: Timeout)

  datatype EvidenceVerdict = Valid | FingerprintMismatch | InvalidEvidence

  function VerifyEvidence(hash: HashQc, ev: Evidence, vs: ValidatorSet, weights: Option<seq<nat>>, expected: nat)
    : EvidenceVerdict
  {
    if ev.offender != expected then FingerprintMismatch
    else
      match IndexOf(vs, ev.offender)
      case None => InvalidEvidence
      case Some(idx) =>
        match ev
        case DoubleVote(_, a, b) =>
          if a.index != idx || b.index != idx then InvalidEvidence
          else if a.view != b.view || a.height != b.height then InvalidEvidence
          else if a.header == b.header then InvalidEvidence
          else if !a.Verifies(vs) || !b.Verifies(vs) then InvalidEvidence
          else Valid
        case ConflictingQc(_, a, b) =>
          if a.qc.view != b.qc.view || a.qc.height != b.qc.height then InvalidEvidence
          else if a.qc.header == b.qc.header then InvalidEvidence
          else if idx !in a.signers || idx !in b.signers then InvalidEvidence
          else if VerifyFormedQcSpec(a, vs, weights).Rejected? then InvalidEvidence
          else if VerifyFormedQcSpec(b, vs, weights).Rejected? then InvalidEvidence
          else Valid
        case TimeoutEquivocation(_, a, b) =>
          if a.index != idx || b.index != idx then InvalidEvidence
          else if a.view != b.view then InvalidEvidence
          else if hash(a.highQc) == hash(b.highQc) then InvalidEvidence
          else if !a.Verifies(vs) || !b.Verifies(vs) then InvalidEvidence
          else Valid
  }

  /** The signatures a piece of evidence carries. */
  ghost function Carried(ev: Evidence): set<Signature> {
    match ev
    case DoubleVote(_, a, b) => {a.signature, b.signature}
    case ConflictingQc(_, a, b) =>
      (set s | s in a.qc.aggregate.parts) + (set s | s in b.qc.aggregate.parts)
    case TimeoutEquivocation(_, a, b) => {a.signature, b.signature}
  }

  /** Two messages no validator may sign both of: votes for different headers at one
      (view, height), or timeouts of one view with different high QCs. */
  predicate Equivocates(m: Message, m': Message) {
    match (m, m')
    case (VoteMessage(v, h, x), VoteMessage(v', h', x')) => v == v' && h == h' && x != x'
    case (TimeoutMessage(v, q), TimeoutMessage(v', q')) => v == v' && q != q'
    case _ => false
  }

  ghost predicate Disciplined(signed: set<Signature>, key: nat) {
    forall m, m' :: Signed(key, m) in signed && Signed(key, m') in signed ==> !Equivocates(m, m')
  }

  /** Accepted evidence carries two equivocating signatures of the offender it names. */
  lemma AcceptedEvidenceProvesFault(hash: HashQc, ev: Evidence, vs: ValidatorSet, weights: Option<seq<nat>>, fp: nat)
    requires VerifyEvidence(hash, ev, vs, weights, fp).Valid?
    ensures IndexOf(vs, fp).Some?
    ensures !Disciplined(Carried(ev), vs[IndexOf(vs, fp).value].key)
  {
    var i := IndexOf(vs, fp).value;
    var key := vs[i].key;
    match ev
    case DoubleVote(_, a, b) =>
      assert Signed(key, a.Body()) in Carried(ev) && Signed(key, b.Body()) in Carried(ev);
      assert Equivocates(a.Body(), b.Body());
    case ConflictingQc(_, a, b) =>
      AcceptedSignerSigned(a, vs, weights, i);
      AcceptedSignerSigned(b, vs, weights, i);
      hide VerifyFormedQcSpec;
      assert Signed(key, a.Body()) in Carried(ev) && Signed(key, b.Body()) in Carried(ev);
      assert Equivocates(a.Body(), b.Body());
    case TimeoutEquivocation(_, a, b) =>
      assert Signed(key, a.Body()) in Carried(ev) && Signed(key, b.Body()) in Carried(ev);
      assert Equivocates(a.Body(), b.Body());
  }
}

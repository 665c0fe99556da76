/** View timeouts, the timeout pool and timeout certificates (`crates/bft-wire/src/timeout.rs`). */
module Timeouts {
  import opened Collections
  import opened Validators
  import Votes

  datatype Timeout = Timeout(view: nat, highQc: QuorumCertificate, index: nat, signature: Signature)
  {
    function Body(): Message { TimeoutMessage(view, highQc) }

    predicate Verifies(vs: ValidatorSet) {
      index < |vs| && signature == Signed(vs[index].key, Body())
    }

    function Key(hash: HashQc): (nat, nat) { (view, hash(highQc)) }
  }

  datatype TimeoutCert = TimeoutCert(view: nat, highQc: QuorumCertificate, aggregate: Aggregate, signers: seq<nat>)
  {
    function Body(): Message { TimeoutMessage(view, highQc) }
  }

  datatype Outcome = Recorded | ReachedQuorum | DuplicateValidator | OutOfRange | BadSignature

  type Slot = map<nat, Timeout>

  type Entries = map<(nat, nat), Slot>

  // ----- specification -----

  function SlotAt(entries: Entries, key: (nat, nat)): Slot {
    if key in entries then entries[key] else map[]
  }

  function RecordSpec(hash: HashQc, entries: Entries, t: Timeout, vs: ValidatorSet): (Entries, Outcome) {
    if t.index >= |vs| then (entries, OutOfRange)
    else if !t.Verifies(vs) then (entries, BadSignature)
    else
      var slot := SlotAt(entries, t.Key(hash));
      if t.index in slot then (entries, DuplicateValidator)
      else
        var slot' := slot[t.index := t];
        (entries[t.Key(hash) := slot'],
         if |slot| < QuorumThreshold(vs) <= |slot'| then ReachedQuorum else Recorded)
  }

  function SlotSignatures(slot: Slot, signers: seq<nat>): seq<Signature>
    requires forall i :: 0 <= i < |signers| ==> signers[i] in slot
  {
    seq(|signers|, i requires 0 <= i < |signers| => slot[signers[i]].signature)
  }

  function FormCert(entries: Entries, view: nat, hqh: nat, vs: ValidatorSet): Option<TimeoutCert> {
    if (view, hqh) !in entries then None
    else
      var slot := entries[(view, hqh)];
      if |slot| < QuorumThreshold(vs) then None
      else
        AscendingMembers(slot.Keys);
        var signers := Ascending(slot.Keys);
        var first := slot[signers[0]];
        if exists i :: i in slot && slot[i].highQc != first.highQc then None
        else
          match AggregateOf(SlotSignatures(slot, signers))
          case None => None
          case Some(aggregate) => Some(TimeoutCert(view, first.highQc, aggregate, signers))
  }

  predicate CertVerifies(cert: TimeoutCert, vs: ValidatorSet) {
    && |cert.signers| >= QuorumThreshold(vs)
    && Votes.ScanError(cert.signers, |vs|).None?
    && (Votes.ScanClean(cert.signers, |vs|);
        AggregateVerifies(cert.aggregate, cert.Body(), KeysAt(vs, cert.signers)))
  }

  /** Lexicographic order on (height, view, hash) of the certified high QC. */
  predicate Beats(c: TimeoutCert, h: nat, c': TimeoutCert, h': nat) {
    var (a, b) := (c.highQc, c'.highQc);
    || a.height > b.height
    || (a.height == b.height && a.view > b.view)
    || (a.height == b.height && a.view == b.view && h > h')
  }

  predicate Candidate(entries: Entries, vs: ValidatorSet, view: nat, h: nat, cert: TimeoutCert) {
    FormCert(entries, view, h, vs) == Some(cert) && CertVerifies(cert, vs)
  }

  ghost predicate IsBest(entries: Entries, vs: ValidatorSet, view: nat, keys: set<(nat, nat)>,
                         h: nat, cert: TimeoutCert) {
    && (view, h) in keys
    && Candidate(entries, vs, view, h, cert)
    && forall h', c' :: (view, h') in keys && h' != h && Candidate(entries, vs, view, h', c') ==> Beats(cert, h, c', h')
  }

  ghost predicate NoCandidate(entries: Entries, vs: ValidatorSet, view: nat, keys: set<(nat, nat)>) {
    forall h', c' :: (view, h') in keys ==> !Candidate(entries, vs, view, h', c')
  }

  // ----- the code -----

  method VerifyFormedTimeoutCert(cert: TimeoutCert, vs: ValidatorSet) returns (ok: bool)
    ensures ok == CertVerifies(cert, vs)
  {
    if |cert.signers| < QuorumThreshold(vs) {
      return false;
    }
    var error, pubkeys, _ := Votes.ScanSigners(cert.signers, vs, None);
    if error.Some? {
      return false;
    }
    return AggregateVerifies(cert.aggregate, cert.Body(), pubkeys);
  }

  class TimeoutPool {
    var entries: Entries

    constructor ()
      ensures entries == map[]
    {
      entries := map[];
    }

    method Record(hash: HashQc, t: Timeout, vs: ValidatorSet) returns (outcome: Outcome)
      modifies this
      ensures (entries, outcome) == RecordSpec(hash, old(entries), t, vs)
    {
      if t.index >= |vs| {
        return OutOfRange;
      }
      if t.signature != Signed(vs[t.index].key, t.Body()) {
        return BadSignature;
      }
      var key := (t.view, hash(t.highQc));
      var slot := SlotAt(entries, key);
      if t.index in slot {
        return DuplicateValidator;
      }
      var prevCount := |slot|;
      slot := slot[t.index := t];
      entries := entries[key := slot];
      outcome := if prevCount < QuorumThreshold(vs) <= |slot| then ReachedQuorum else Recorded;
    }

    method TryFormTimeoutCert(view: nat, hqh: nat, vs: ValidatorSet) returns (cert: Option<TimeoutCert>)
      ensures cert == FormCert(entries, view, hqh, vs)
    {
      if (view, hqh) !in entries {
        return None;
      }
      var slot := entries[(view, hqh)];
      if |slot| < QuorumThreshold(vs) {
        return None;
      }
      AscendingMembers(slot.Keys);
      var signers := Ascending(slot.Keys);
      var first := slot[signers[0]];
      for i := 1 to |signers|
        invariant forall j :: 0 <= j < i ==> slot[signers[j]].highQc == first.highQc
      {
        if slot[signers[i]].highQc != first.highQc {
          return None;
        }
      }
      assert forall i :: i in slot ==> i in signers;
      var aggregate := AggregateOf(SlotSignatures(slot, signers));
      if aggregate.None? {
        return None;
      }
      return Some(TimeoutCert(view, first.highQc, aggregate.value, signers));
    }

    /** The search keeps the best certificate seen so far. */
    method TryFormBestTimeoutCertForView(view: nat, vs: ValidatorSet) returns (best: Option<TimeoutCert>, ghost at: nat)
      ensures best.None? ==> NoCandidate(entries, vs, view, entries.Keys)
      ensures best.Some? ==> IsBest(entries, vs, view, entries.Keys, at, best.value)
    {
      hide BestOver, Candidate, Beats, CertVerifies;
      var todo, done := entries.Keys, {};
      var bestHash := 0;
      best := None;
      EmptyBest(entries, vs, view);
      while todo != {}
        invariant todo + done == entries.Keys && todo !! done
        invariant BestOver(entries, vs, view, done, best, bestHash)
        decreases |todo|
      {
        var key :| key in todo;
        ghost var before := done;
        todo, done := todo - {key}, done + {key};
        if key.0 != view || |entries[key]| < QuorumThreshold(vs) {
          SkipKey(entries, vs, view, before, key, best, bestHash);
          continue;
        }
        var formed := TryFormTimeoutCert(view, key.1, vs);
        if formed.None? {
          SkipKey(entries, vs, view, before, key, best, bestHash);
          continue;
        }
        var ok := VerifyFormedTimeoutCert(formed.value, vs);
        if !ok {
          SkipKey(entries, vs, view, before, key, best, bestHash);
          continue;
        }
        TakeKey(entries, vs, view, before, key, best, bestHash, formed.value);
        if best.None? || Beats(formed.value, key.1, best.value, bestHash) {
          best, bestHash := formed, key.1;
        }
      }
      assert done == entries.Keys;
      at := bestHash;
      BestMeans(entries, vs, view, done, best, bestHash);
    }

    method PruneViewsBefore(minKeepView: nat)
      modifies this
      ensures entries == PruneSpec(old(entries), minKeepView)
    {
      entries := map key | key in entries && key.0 >= minKeepView :: entries[key];
    }
  }

  function PruneSpec(entries: Entries, minKeepView: nat): Entries {
    map key | key in entries && key.0 >= minKeepView :: entries[key]
  }

  /** Pruning loses the certificates of the earlier views and none other: a kept view forms the same
      certificates and has the same best one, a dropped view has none. */
  lemma PrunedViews(entries: Entries, vs: ValidatorSet, minKeepView: nat, view: nat, h: nat, cert: TimeoutCert)
    ensures var pruned := PruneSpec(entries, minKeepView);
      if view < minKeepView then NoCandidate(pruned, vs, view, pruned.Keys)
      else
        && FormCert(pruned, view, h, vs) == FormCert(entries, view, h, vs)
        && (IsBest(pruned, vs, view, pruned.Keys, h, cert) == IsBest(entries, vs, view, entries.Keys, h, cert))
        && (NoCandidate(pruned, vs, view, pruned.Keys) == NoCandidate(entries, vs, view, entries.Keys))
  {
    var pruned := PruneSpec(entries, minKeepView);
    assert forall h': nat :: (view, h') in pruned <==> view >= minKeepView && (view, h') in entries;
    forall h': nat, c'
      ensures Candidate(pruned, vs, view, h', c') <==> view >= minKeepView && Candidate(entries, vs, view, h', c')
    {
    }
    assert view < minKeepView || FormCert(pruned, view, h, vs) == FormCert(entries, view, h, vs);
    hide FormCert, Candidate, Beats, PruneSpec;
  }

  ghost predicate BestOver(entries: Entries, vs: ValidatorSet, view: nat, keys: set<(nat, nat)>,
                           best: Option<TimeoutCert>, h: nat) {
    if best.None? then NoCandidate(entries, vs, view, keys)
    else IsBest(entries, vs, view, keys, h, best.value)
  }

  lemma EmptyBest(entries: Entries, vs: ValidatorSet, view: nat)
    ensures BestOver(entries, vs, view, {}, None, 0)
  {
  }

  lemma BestMeans(entries: Entries, vs: ValidatorSet, view: nat, keys: set<(nat, nat)>, best: Option<TimeoutCert>,
                  h: nat)
    requires BestOver(entries, vs, view, keys, best, h)
    ensures best.None? ==> NoCandidate(entries, vs, view, keys)
    ensures best.Some? ==> IsBest(entries, vs, view, keys, h, best.value)
  {
  }

  /** A slot that yields no certificate, or an invalid one, does not count. */
  lemma SkipKey(entries: Entries, vs: ValidatorSet, view: nat, keys: set<(nat, nat)>, key: (nat, nat),
                best: Option<TimeoutCert>, h: nat)
    requires BestOver(entries, vs, view, keys, best, h) && key in entries
    requires || key.0 != view || |entries[key]| < QuorumThreshold(vs)
             || FormCert(entries, view, key.1, vs).None?
             || !CertVerifies(FormCert(entries, view, key.1, vs).value, vs)
    ensures BestOver(entries, vs, view, keys + {key}, best, h)
  {
    assert key.0 == view ==> forall c :: !Candidate(entries, vs, view, key.1, c);
    hide FormCert, CertVerifies;
  }

  lemma TakeKey(entries: Entries, vs: ValidatorSet, view: nat, keys: set<(nat, nat)>, key: (nat, nat),
                best: Option<TimeoutCert>, h: nat, cert: TimeoutCert)
    requires BestOver(entries, vs, view, keys, best, h) && key !in keys && key.0 == view
    requires FormCert(entries, view, key.1, vs) == Some(cert) && CertVerifies(cert, vs)
    ensures if best.None? || Beats(cert, key.1, best.value, h)
            then BestOver(entries, vs, view, keys + {key}, Some(cert), key.1)
            else BestOver(entries, vs, view, keys + {key}, best, h)
  {
    assert forall c :: Candidate(entries, vs, view, key.1, c) <==> c == cert;
    if best.Some? {
      assert forall c :: Candidate(entries, vs, view, h, c) <==> c == best.value;
    }
    hide Candidate;
  }

  // ----- what every pool holds -----

  ghost predicate PoolInv(hash: HashQc, entries: Entries, vs: ValidatorSet) {
    forall key :: key in entries ==>
      forall i :: i in entries[key] ==>
        && entries[key][i].index == i
        && entries[key][i].Key(hash) == key
        && entries[key][i].Verifies(vs)
  }

  lemma RecordKeepsInv(hash: HashQc, entries: Entries, t: Timeout, vs: ValidatorSet)
    requires PoolInv(hash, entries, vs)
    ensures PoolInv(hash, RecordSpec(hash, entries, t, vs).0, vs)
  {
    hide QuorumThreshold;
  }

  /** In a pool of valid timeouts, every slot with a quorum yields a certificate that verifies:
      the candidates are exactly the quorum slots. */
  lemma QuorumSlotIsCandidate(hash: HashQc, entries: Entries, vs: ValidatorSet, view: nat, h: nat)
    requires CollisionFree(hash) && PoolInv(hash, entries, vs)
    requires (view, h) in entries && |entries[(view, h)]| >= QuorumThreshold(vs)
    ensures FormCert(entries, view, h, vs).Some?
    ensures Candidate(entries, vs, view, h, FormCert(entries, view, h, vs).value)
    ensures hash(FormCert(entries, view, h, vs).value.highQc) == h
  {
    hide CollisionFree, Ascending;
    var slot := entries[(view, h)];
    var signers: seq<nat> := Ascending(slot.Keys);
    AscendingMembers(slot.Keys);
    AscendingSorted(slot.Keys);
    var first := slot[signers[0]];
    assert first.Key(hash) == (view, h);
    forall i | i in slot
      ensures i < |vs| && slot[i].Body() == first.Body() && slot[i].signature == Signed(vs[i].key, first.Body())
    {
      HashDetermines(hash, slot[i].highQc, first.highQc);
    }
    forall j | 0 <= j < |signers|
      ensures signers[j] in slot && signers[j] < |vs|
      ensures slot[signers[j]].signature == Signed(vs[signers[j]].key, first.Body())
    {
      assert signers[j] in signers;
    }
    SlotCertificate(slot, signers, first.Body(), vs);
  }

  lemma HashDetermines(hash: HashQc, p: QuorumCertificate, q: QuorumCertificate)
    requires CollisionFree(hash) && hash(p) == hash(q)
    ensures p == q
  {
  }

  lemma SlotCertificate(slot: Slot, signers: seq<nat>, body: Message, vs: ValidatorSet)
    requires signers != [] && StrictlyAscending(signers)
    requires forall i :: 0 <= i < |signers| ==>
      signers[i] in slot && signers[i] < |vs| && slot[signers[i]].signature == Signed(vs[signers[i]].key, body)
    ensures Votes.ScanError(signers, |vs|).None?
    ensures AggregateOf(SlotSignatures(slot, signers)).Some?
    ensures AggregateVerifies(AggregateOf(SlotSignatures(slot, signers)).value, body, KeysAt(vs, signers))
  {
    Votes.ScanClean(signers, |vs|);
    assert SlotSignatures(slot, signers) == SignaturesOver(KeysAt(vs, signers), body);
  }

  /** The best certificate of a view: there is one exactly when some slot of the view has a
      quorum; it verifies, and it strictly beats the certificate of every other quorum slot. */
  lemma BestIsUniqueMaximum(hash: HashQc, entries: Entries, vs: ValidatorSet, view: nat)
    requires CollisionFree(hash) && PoolInv(hash, entries, vs)
    ensures NoCandidate(entries, vs, view, entries.Keys)
       <==> forall h :: (view, h) in entries ==> |entries[(view, h)]| < QuorumThreshold(vs)
    ensures forall h, cert :: IsBest(entries, vs, view, entries.Keys, h, cert) ==>
      && CertVerifies(cert, vs) && cert.view == view && hash(cert.highQc) == h
      && (forall h' :: (view, h') in entries && h' != h && |entries[(view, h')]| >= QuorumThreshold(vs)
            ==> FormCert(entries, view, h', vs).Some? && Beats(cert, h, FormCert(entries, view, h', vs).value, h'))
    ensures forall h, cert, h', cert' ::
      (IsBest(entries, vs, view, entries.Keys, h, cert) && IsBest(entries, vs, view, entries.Keys, h', cert'))
      ==> h == h' && cert == cert'
  {
    forall h | (view, h) in entries && |entries[(view, h)]| >= QuorumThreshold(vs)
      ensures FormCert(entries, view, h, vs).Some?
      ensures Candidate(entries, vs, view, h, FormCert(entries, view, h, vs).value)
      ensures hash(FormCert(entries, view, h, vs).value.highQc) == h
    {
      QuorumSlotIsCandidate(hash, entries, vs, view, h);
    }
    forall h: nat, cert | Candidate(entries, vs, view, h, cert)
      ensures (view, h) in entries && |entries[(view, h)]| >= QuorumThreshold(vs) && cert.view == view
    {
    }
    hide FormCert, CertVerifies;
  }

  lemma CertIsQuorum(hash: HashQc, entries: Entries, vs: ValidatorSet, key: (nat, nat))
    requires CollisionFree(hash) && PoolInv(hash, entries, vs)
    ensures FormCert(entries, key.0, key.1, vs).Some? <==> |SlotAt(entries, key)| >= QuorumThreshold(vs)
  {
    if key in entries && |entries[key]| >= QuorumThreshold(vs) {
      QuorumSlotIsCandidate(hash, entries, vs, key.0, key.1);
    }
  }

  /** A record reports `ReachedQuorum` exactly if it is what makes a certificate formable. */
  lemma AnnouncesFirstCert(hash: HashQc, entries: Entries, t: Timeout, vs: ValidatorSet)
    requires CollisionFree(hash) && PoolInv(hash, entries, vs)
    ensures var (entries', outcome) := RecordSpec(hash, entries, t, vs);
      var (view, h) := t.Key(hash);
      outcome == ReachedQuorum <==> FormCert(entries, view, h, vs).None? && FormCert(entries', view, h, vs).Some?
  {
    RecordKeepsInv(hash, entries, t, vs);
    CertIsQuorum(hash, entries, vs, t.Key(hash));
    CertIsQuorum(hash, RecordSpec(hash, entries, t, vs).0, vs, t.Key(hash));
    hide FormCert, QuorumThreshold, PoolInv, CollisionFree;
  }

  /** What "best" ranks by: no candidate of the view certifies a greater height, among those of its
      height none a later view, and among those of its height and view none has a greater hash. */
  lemma BestRank(entries: Entries, vs: ValidatorSet, view: nat, h: nat, cert: TimeoutCert, h': nat, cert': TimeoutCert)
    requires IsBest(entries, vs, view, entries.Keys, h, cert)
    requires (view, h') in entries && Candidate(entries, vs, view, h', cert')
    ensures cert'.highQc.height <= cert.highQc.height
    ensures cert'.highQc.height == cert.highQc.height ==> cert'.highQc.view <= cert.highQc.view
    ensures cert'.highQc.height == cert.highQc.height && cert'.highQc.view == cert.highQc.view ==> h' <= h
  {
    if h' == h {
      assert cert' == cert;
    }
    hide FormCert, CertVerifies;
  }

  // ----- the pool is a function of the set of valid timeouts received -----

  function Pool(hash: HashQc, ts: seq<Timeout>, vs: ValidatorSet): Entries {
    if ts == [] then map[]
    else RecordSpec(hash, Pool(hash, ts[..|ts| - 1], vs), ts[|ts| - 1], vs).0
  }

  ghost function ValidOnes(ts: seq<Timeout>, vs: ValidatorSet): set<Timeout> {
    set t | t in ts && t.Verifies(vs)
  }

  /** The entries hold exactly the timeouts of `valid`, each in its own place. */
  ghost predicate Holds(hash: HashQc, entries: Entries, valid: set<Timeout>) {
    && (forall key :: key in entries ==> entries[key] != map[])
    && (forall key, i :: key in entries && i in entries[key] ==>
          entries[key][i] in valid && entries[key][i].Key(hash) == key && entries[key][i].index == i)
    && (forall t :: t in valid ==> t.Key(hash) in entries && t.index in entries[t.Key(hash)])
  }

  /** A valid timeout is determined by where it is filed. */
  lemma PlaceDetermines(hash: HashQc, vs: ValidatorSet, s: Timeout, t: Timeout)
    requires CollisionFree(hash) && s.Verifies(vs) && t.Verifies(vs)
    requires s.Key(hash) == t.Key(hash) && s.index == t.index
    ensures s == t
  {
  }

  lemma InsertHolds(hash: HashQc, entries: Entries, valid: set<Timeout>, t: Timeout)
    requires Holds(hash, entries, valid) && t.index !in SlotAt(entries, t.Key(hash))
    ensures Holds(hash, entries[t.Key(hash) := SlotAt(entries, t.Key(hash))[t.index := t]], valid + {t})
  {
  }

  lemma RecordHolds(hash: HashQc, entries: Entries, valid: set<Timeout>, t: Timeout, vs: ValidatorSet)
    requires CollisionFree(hash) && Holds(hash, entries, valid) && t.Verifies(vs)
    requires forall s :: s in valid ==> s.Verifies(vs)
    ensures Holds(hash, RecordSpec(hash, entries, t, vs).0, valid + {t})
  {
    hide CollisionFree, QuorumThreshold;
    var key := t.Key(hash);
    if key in entries && t.index in entries[key] {
      PlaceDetermines(hash, vs, t, entries[key][t.index]);
      hide Holds;
      assert valid + {t} == valid;
    } else {
      hide Holds;
      InsertHolds(hash, entries, valid, t);
    }
  }

  lemma {:induction false} PoolHoldsValid(hash: HashQc, ts: seq<Timeout>, vs: ValidatorSet)
    requires CollisionFree(hash)
    ensures Holds(hash, Pool(hash, ts, vs), ValidOnes(ts, vs))
  {
    if ts != [] {
      var init, t := ts[..|ts| - 1], ts[|ts| - 1];
      PoolHoldsValid(hash, init, vs);
      hide CollisionFree, Holds;
      assert ts == init + [t];
      if t.Verifies(vs) {
        assert ValidOnes(ts, vs) == ValidOnes(init, vs) + {t};
        RecordHolds(hash, Pool(hash, init, vs), ValidOnes(init, vs), t, vs);
      } else {
        assert ValidOnes(ts, vs) == ValidOnes(init, vs);
      }
    }
  }

  lemma EntryIncluded(hash: HashQc, vs: ValidatorSet, a: Entries, b: Entries, valid: set<Timeout>,
                      key: (nat, nat), j: nat)
    requires CollisionFree(hash) && Holds(hash, a, valid) && Holds(hash, b, valid)
    requires forall t :: t in valid ==> t.Verifies(vs)
    requires key in a && j in a[key]
    ensures key in b && j in b[key] && a[key][j] == b[key][j]
  {
    hide CollisionFree;
    var t := a[key][j];
    assert t in valid && t.Key(hash) == key && t.index == j;
    PlaceDetermines(hash, vs, t, b[key][j]);
  }

  lemma HoldsDetermines(hash: HashQc, vs: ValidatorSet, a: Entries, b: Entries, valid: set<Timeout>)
    requires CollisionFree(hash) && Holds(hash, a, valid) && Holds(hash, b, valid)
    requires forall t :: t in valid ==> t.Verifies(vs)
    ensures a == b
  {
    forall key, j | key in a && j in a[key]
      ensures key in b && j in b[key] && a[key][j] == b[key][j]
    {
      EntryIncluded(hash, vs, a, b, valid, key, j);
    }
    forall key, j | key in b && j in b[key]
      ensures key in a && j in a[key]
    {
      EntryIncluded(hash, vs, b, a, valid, key, j);
    }
    NestedEqual(a, b);
  }

  lemma NestedEqual(a: Entries, b: Entries)
    requires forall key :: key in a ==> a[key] != map[]
    requires forall key :: key in b ==> b[key] != map[]
    requires forall key, j :: key in a && j in a[key] ==> key in b && j in b[key] && a[key][j] == b[key][j]
    requires forall key, j :: key in b && j in b[key] ==> key in a && j in a[key]
    ensures a == b
  {
    assert forall key :: key in a ==> key in b && a[key] == b[key] by {
      forall key | key in a
        ensures key in b && a[key] == b[key]
      {
        var j :| j in a[key];
      }
    }
    forall key | key in b
      ensures key in a
    {
      var j :| j in b[key];
    }
  }

  /** Order and repetition do not matter: equal sets of valid timeouts give equal pools. */
  lemma PoolDependsOnSetOnly(hash: HashQc, ts: seq<Timeout>, us: seq<Timeout>, vs: ValidatorSet)
    requires CollisionFree(hash) && ValidOnes(ts, vs) == ValidOnes(us, vs)
    ensures Pool(hash, ts, vs) == Pool(hash, us, vs)
  {
    PoolHoldsValid(hash, ts, vs);
    PoolHoldsValid(hash, us, vs);
    HoldsDetermines(hash, vs, Pool(hash, ts, vs), Pool(hash, us, vs), ValidOnes(ts, vs));
  }
}

/** Data-availability sidecars: erasure-coded shares, reconstruction, and sampling receipts
    (`crates/consensus/src/lib.rs`). */
module DataAvailability {
  import opened Arithmetic
  import opened Collections
  import opened Merkle

  type Shard = seq<bv8>

  /** What a share commitment hashes. */
  datatype ShareBody = ShareBody(namespace: nat, index: nat, isParity: bool, data: Shard)

  type Commitment = Hash<ShareBody>

  datatype Share = Share(namespace: nat, index: nat, isParity: bool, data: Shard, commitment: Commitment)

  datatype Sidecar = Sidecar(namespace: nat, originalLen: nat, shareSize: nat, dataCount: nat, parityCount: nat,
                             shares: seq<Share>)

  datatype DaError =
    | Namespace | WrongRoot | OriginalLen | ShareCount | ShareIndex | ShareCommitment
    | InsufficientSamples | SampleMissing | InsufficientShares | ErasureCoding

  datatype Result<+T> = Ok(value: T) | Err(error: DaError)

  // ----- the erasure codec, as a parameter -----

  /** `supports` is whether a codec of this shape exists; `parity` computes the parity shards or
      fails; `restore` fills in missing shards or fails. */
  datatype Codec = Codec(supports: (nat, nat) -> bool,
                         parity: (seq<Shard>, nat) -> Option<seq<Shard>>,
                         restore: (seq<Option<Shard>>, nat, nat) -> Option<seq<Shard>>)

  ghost predicate Even(shards: seq<Shard>, size: nat) {
    forall i :: 0 <= i < |shards| ==> |shards[i]| == size
  }

  function Present(slots: seq<Option<Shard>>): set<nat> { set i: nat | i < |slots| && slots[i].Some? }

  ghost predicate Agrees(slots: seq<Option<Shard>>, shards: seq<Shard>) {
    |slots| == |shards| && forall i :: 0 <= i < |slots| && slots[i].Some? ==> slots[i].value == shards[i]
  }

  ghost predicate Encodes(codec: Codec, data: seq<Shard>, m: nat, size: nat) {
    var parity := codec.parity(data, m);
    parity.Some? && |parity.value| == m && Even(parity.value, size)
  }

  ghost predicate Restores(codec: Codec, data: seq<Shard>, m: nat, slots: seq<Option<Shard>>)
    requires codec.parity(data, m).Some?
  {
    var shards := data + codec.parity(data, m).value;
    Agrees(slots, shards) && |Present(slots)| >= |data| ==> codec.restore(slots, |data|, m) == Some(shards)
  }

  /** The one fact assumed of the codec: any `k` correct shards determine all of them. */
  ghost predicate Correct(codec: Codec) {
    && (forall k: nat, m: nat :: codec.supports(k, m) ==> k + m <= U32_MAX)
    && (forall data, m, size :: codec.supports(|data|, m) && Even(data, size) ==> Encodes(codec, data, m, size))
    && (forall data, m, size, slots :: codec.supports(|data|, m) && Even(data, size) && Encodes(codec, data, m, size)
                                       ==> Restores(codec, data, m, slots))
  }

  /** Repetition: with one data shard every parity shard is a copy of it. */
  const REPETITION: Codec := Codec((k, m) => k == 1 && m < U32_MAX, RepeatParity, RepeatRestore)

  function RepeatParity(data: seq<Shard>, m: nat): Option<seq<Shard>> {
    if data == [] then None else Some(seq(m, _ => data[0]))
  }

  function RepeatRestore(slots: seq<Option<Shard>>, k: nat, m: nat): Option<seq<Shard>> {
    if Present(slots) == {} then None
    else
      var shard := slots[Least(Present(slots))].value;
      Some(seq(k + m, _ => shard))
  }

  /** The assumption can be met: the repetition code restores everything from any one shard. */
  lemma RepetitionIsCorrect()
    ensures Correct(REPETITION)
  {
    forall data: seq<Shard>, m: nat, size: nat, slots: seq<Option<Shard>> |
      REPETITION.supports(|data|, m) && Even(data, size) && Encodes(REPETITION, data, m, size)
      ensures Restores(REPETITION, data, m, slots)
    {
      var all := data + RepeatParity(data, m).value;
      if Agrees(slots, all) && |Present(slots)| >= |data| {
        assert Present(slots) != {};
        var i := Least(Present(slots));
        assert forall j :: 0 <= j < |all| ==> all[j] == data[0];
        assert slots[i].value == data[0];
        assert RepeatRestore(slots, 1, m).value == all;
      }
    }
  }

  // ----- building a sidecar -----

  function CommitmentOf(namespace: nat, index: nat, isParity: bool, data: Shard): Commitment {
    Leaf(ShareBody(namespace, index, isParity, data))
  }

  function Zeros(n: nat): Shard { seq(n, _ => 0) }

  /** The `i`-th share-sized piece of the payload, padded with zeros. */
  function Chunk(payload: Shard, size: nat, i: nat): (r: Shard)
    requires size > 0 && i * size <= |payload|
    ensures |r| == size
  {
    var start := i * size;
    var end := Min(start + size, |payload|);
    payload[start..end] + Zeros(size - (end - start))
  }

  lemma ChunkInRange(payload: Shard, size: nat, i: nat)
    requires size > 0 && i < CeilDiv(|payload|, size)
    ensures i * size < |payload|
  {
    var k := CeilDiv(|payload|, size);
    assert k * size <= |payload| + size - 1;
    MulMonotone(i + 1, k, size);
    Distribute(i, 1, size);
  }

  function Chunks(payload: Shard, size: nat, n: nat): (r: seq<Shard>)
    requires size > 0 && n <= CeilDiv(|payload|, size)
    ensures |r| == n
  {
    if n == 0 then []
    else
      ChunkInRange(payload, size, n - 1);
      Chunks(payload, size, n - 1) + [Chunk(payload, size, n - 1)]
  }

  function DefaultParityCount(dataCount: nat): nat { Max(CeilDiv(Min(dataCount * 1, U32_MAX), 1), 1) }

  function ShareAt(namespace: nat, shards: seq<Shard>, dataCount: nat, i: nat): Share
    requires i < |shards|
  {
    Share(namespace, i, i >= dataCount, shards[i], CommitmentOf(namespace, i, i >= dataCount, shards[i]))
  }

  function SharesOf(namespace: nat, shards: seq<Shard>, dataCount: nat): (r: seq<Share>)
    ensures |r| == |shards|
  {
    seq(|shards|, i requires 0 <= i < |shards| => ShareAt(namespace, shards, dataCount, i))
  }

  function BuildSpec(codec: Codec, payload: Shard, namespace: nat, requested: nat): Result<Sidecar> {
    var size := Max(requested, 1);
    if payload == [] then Ok(Sidecar(namespace, 0, size, 0, 0, []))
    else
      var k := CeilDiv(|payload|, size);
      var m := DefaultParityCount(k % (U32_MAX + 1));
      if !codec.supports(k, m) then Err(ErasureCoding)
      else
        var data := Chunks(payload, size, k);
        match codec.parity(data, m)
        case None => Err(ErasureCoding)
        case Some(parity) => Ok(Sidecar(namespace, |payload|, size, k, m, SharesOf(namespace, data + parity, k)))
  }

  method BuildDaSidecar(codec: Codec, payload: Shard, namespace: nat, requested: nat) returns (r: Result<Sidecar>)
    ensures r == BuildSpec(codec, payload, namespace, requested)
  {
    var size := Max(requested, 1);
    if payload == [] {
      return Ok(Sidecar(namespace, 0, size, 0, 0, []));
    }
    var k := CeilDiv(|payload|, size);
    var m := DefaultParityCount(k % (U32_MAX + 1));
    if !codec.supports(k, m) {
      return Err(ErasureCoding);
    }
    var shards: seq<Shard> := [];
    for i := 0 to k
      invariant shards == Chunks(payload, size, i)
    {
      ChunkInRange(payload, size, i);
      var start := i * size;
      var end := Min(start + size, |payload|);
      shards := shards + [payload[start..end] + Zeros(size - (end - start))];
    }
    var parity := codec.parity(shards, m);
    if parity.None? {
      return Err(ErasureCoding);
    }
    shards := shards + parity.value;
    var shares: seq<Share> := [];
    for i := 0 to |shards|
      invariant shares == SharesOf(namespace, shards, k)[..i]
    {
      shares := shares + [Share(namespace, i, i >= k, shards[i], CommitmentOf(namespace, i, i >= k, shards[i]))];
    }
    assert SharesOf(namespace, shards, k)[..|shards|] == SharesOf(namespace, shards, k);
    return Ok(Sidecar(namespace, |payload|, size, k, m, shares));
  }

  // ----- reconstructing the payload -----

  function LayoutError(s: Sidecar): Option<DaError> {
    if s.shareSize == 0 then Some(OriginalLen)
    else
      var required := if s.originalLen == 0 then 0 else CeilDiv(s.originalLen, s.shareSize);
      if required > U32_MAX then Some(ShareCount)
      else if s.dataCount != required then Some(ShareCount)
      else if s.originalLen == 0 then
        if s.dataCount != 0 || s.parityCount != 0 || s.shares != [] then Some(ShareCount) else None
      else if s.parityCount == 0 then Some(ShareCount)
      else if s.dataCount + s.parityCount > U32_MAX then Some(ShareCount)
      else if |s.shares| != s.dataCount + s.parityCount then Some(ShareCount)
      else None
  }

  function ShareError(s: Sidecar, share: Share): Option<DaError> {
    if share.namespace != s.namespace then Some(Namespace)
    else if share.index >= s.dataCount + s.parityCount then Some(ShareIndex)
    else if share.isParity != (share.index >= s.dataCount) then Some(ShareIndex)
    else if |share.data| != s.shareSize then Some(OriginalLen)
    else if share.commitment != CommitmentOf(share.namespace, share.index, share.isParity, share.data)
    then Some(ShareCommitment)
    else None
  }

  /** The slots after the first `n` shares, or the first complaint about one of them. */
  function FillSlots(s: Sidecar, shares: seq<Share>, n: nat): (r: Result<seq<Option<Shard>>>)
    requires n <= |shares|
    ensures r.Ok? ==> |r.value| == s.dataCount + s.parityCount
  {
    if n == 0 then Ok(seq(s.dataCount + s.parityCount, _ => None))
    else
      match FillSlots(s, shares, n - 1)
      case Err(e) => Err(e)
      case Ok(slots) =>
        match ShareError(s, shares[n - 1])
        case Some(e) => Err(e)
        case None => Ok(slots[shares[n - 1].index := Some(shares[n - 1].data)])
  }

  function Flatten(shards: seq<Shard>, n: nat): Shard
    requires n <= |shards|
  {
    if n == 0 then [] else Flatten(shards, n - 1) + shards[n - 1]
  }

  function Truncated(bytes: Shard, len: nat): Shard { if len < |bytes| then bytes[..len] else bytes }

  function Recover(codec: Codec, s: Sidecar, slots: seq<Option<Shard>>): Result<Shard> {
    if |Present(slots)| < s.dataCount then Err(InsufficientShares)
    else if !codec.supports(s.dataCount, s.parityCount) then Err(ErasureCoding)
    else
      match codec.restore(slots, s.dataCount, s.parityCount)
      case None => Err(ErasureCoding)
      case Some(shards) =>
        if |shards| < s.dataCount then Err(ErasureCoding)
        else Ok(Truncated(Flatten(shards, s.dataCount), s.originalLen))
  }

  function ReconstructSpec(codec: Codec, s: Sidecar, shares: seq<Share>): Result<Shard> {
    match LayoutError(s)
    case Some(e) => Err(e)
    case None =>
      if s.originalLen == 0 then Ok([])
      else
        match FillSlots(s, shares, |shares|)
        case Err(e) => Err(e)
        case Ok(slots) => Recover(codec, s, slots)
  }

  method ReconstructDaPayload(codec: Codec, s: Sidecar, shares: seq<Share>) returns (r: Result<Shard>)
    ensures r == ReconstructSpec(codec, s, shares)
  {
    var layout := LayoutError(s);
    if layout.Some? {
      return Err(layout.value);
    }
    if s.originalLen == 0 {
      return Ok([]);
    }
    var slots: seq<Option<Shard>> := seq(s.dataCount + s.parityCount, _ => None);
    for i := 0 to |shares|
      invariant FillSlots(s, shares, i) == Ok(slots)
    {
      var error := ShareError(s, shares[i]);
      if error.Some? {
        FillStops(s, shares, i + 1, |shares|);
        return Err(error.value);
      }
      slots := slots[shares[i].index := Some(shares[i].data)];
    }
    hide FillSlots;
    if |Present(slots)| < s.dataCount {
      return Err(InsufficientShares);
    }
    if !codec.supports(s.dataCount, s.parityCount) {
      return Err(ErasureCoding);
    }
    var restored := codec.restore(slots, s.dataCount, s.parityCount);
    if restored.None? || |restored.value| < s.dataCount {
      return Err(ErasureCoding);
    }
    var out: Shard := [];
    for i := 0 to s.dataCount
      invariant out == Flatten(restored.value, i)
    {
      out := out + restored.value[i];
    }
    return Ok(Truncated(out, s.originalLen));
  }

  lemma {:induction false} FillStops(s: Sidecar, shares: seq<Share>, i: nat, n: nat)
    requires i <= n <= |shares| && FillSlots(s, shares, i).Err?
    ensures FillSlots(s, shares, n) == FillSlots(s, shares, i)
    decreases n
  {
    if i < n {
      FillStops(s, shares, i, n - 1);
    }
  }

  // ----- round trip -----

  /** The chunk that starts where the bytes laid so far end. */
  lemma AppendChunk(payload: Shard, size: nat, i: nat, before: Shard)
    requires size > 0 && i * size < |payload| && before == payload[..i * size]
    ensures |before + Chunk(payload, size, i)| == (i + 1) * size
    ensures var len := Min((i + 1) * size, |payload|);
      (before + Chunk(payload, size, i))[..len] == payload[..len]
  {
    Distribute(i, 1, size);
    AppendPadded(payload, i * size, size, Chunk(payload, size, i));
  }

  lemma AppendPadded(payload: Shard, start: nat, size: nat, chunk: Shard)
    requires start < |payload| && |chunk| == size
    requires var end := Min(start + size, |payload|); chunk[..end - start] == payload[start..end]
    ensures var end := Min(start + size, |payload|); (payload[..start] + chunk)[..end] == payload[..end]
  {
    var end := Min(start + size, |payload|);
    assert payload[..end] == payload[..start] + payload[start..end];
    assert (payload[..start] + chunk)[..end] == payload[..start] + chunk[..end - start];
  }

  lemma FlattenStep(shards: seq<Shard>, n: nat)
    requires n < |shards|
    ensures Flatten(shards, n + 1) == Flatten(shards, n) + shards[n]
  {
  }

  /** The first `n` chunks, laid end to end, start with the payload's first bytes. */
  lemma {:induction false} FlattenChunks(payload: Shard, size: nat, n: nat, more: seq<Shard>)
    requires size > 0 && n <= CeilDiv(|payload|, size)
    ensures |Flatten(Chunks(payload, size, n) + more, n)| == n * size
    ensures var len := Min(n * size, |payload|); Flatten(Chunks(payload, size, n) + more, n)[..len] == payload[..len]
  {
    if n > 0 {
      ChunkInRange(payload, size, n - 1);
      var chunk := Chunk(payload, size, n - 1);
      FlattenChunks(payload, size, n - 1, [chunk] + more);
      var shards := Chunks(payload, size, n) + more;
      assert shards == Chunks(payload, size, n - 1) + ([chunk] + more) && shards[n - 1] == chunk;
      hide Chunks, Chunk, Flatten, CeilDiv;
      var before := Flatten(shards, n - 1);
      assert before == before[..(n - 1) * size];
      AppendChunk(payload, size, n - 1, before);
      FlattenStep(shards, n - 1);
    }
  }

  lemma {:induction false} ChunksEven(payload: Shard, size: nat, n: nat)
    requires size > 0 && n <= CeilDiv(|payload|, size)
    ensures Even(Chunks(payload, size, n), size)
  {
    hide Chunk;
    if n > 0 {
      ChunkInRange(payload, size, n - 1);
      ChunksEven(payload, size, n - 1);
    }
  }

  /** The shares come from the sidecar. */
  ghost predicate Genuine(s: Sidecar, given: seq<Share>) {
    forall i :: 0 <= i < |given| ==> given[i] in s.shares
  }

  function IndexSet(given: seq<Share>, n: nat): set<nat>
    requires n <= |given|
  {
    set i | 0 <= i < n :: given[i].index
  }

  ghost predicate WellBuilt(s: Sidecar, shards: seq<Shard>) {
    && |shards| == s.dataCount + s.parityCount && Even(shards, s.shareSize)
    && s.shares == SharesOf(s.namespace, shards, s.dataCount)
  }

  /** Genuine shares are all accepted, and fill exactly the slots they are indexed for. */
  lemma {:induction false} GenuineFill(s: Sidecar, shards: seq<Shard>, given: seq<Share>, n: nat)
    requires WellBuilt(s, shards) && Genuine(s, given) && n <= |given|
    ensures FillSlots(s, given, n).Ok?
    ensures Agrees(FillSlots(s, given, n).value, shards)
    ensures Present(FillSlots(s, given, n).value) == IndexSet(given, n)
  {
    if n > 0 {
      GenuineFill(s, shards, given, n - 1);
      var share := given[n - 1];
      var j :| 0 <= j < |s.shares| && s.shares[j] == share;
      assert share == ShareAt(s.namespace, shards, s.dataCount, j);
      assert IndexSet(given, n) == IndexSet(given, n - 1) + {share.index};
    }
  }

  lemma FlattenPrefix(payload: Shard, size: nat, more: seq<Shard>)
    requires size > 0 && payload != []
    ensures var k := CeilDiv(|payload|, size);
      Truncated(Flatten(Chunks(payload, size, k) + more, k), |payload|) == payload
  {
    hide Chunks, Flatten, CeilDiv;
    var k := CeilDiv(|payload|, size);
    FlattenChunks(payload, size, k, more);
    CeilBounds(|payload|, size);
    var flat := Flatten(Chunks(payload, size, k) + more, k);
    assert Min(k * size, |payload|) == |payload|;
    assert payload[..|payload|] == payload;
    assert |flat| == |payload| ==> flat[..|payload|] == flat;
  }

  lemma CeilBounds(n: nat, size: nat)
    requires n > 0 && size > 0
    ensures CeilDiv(n, size) > 0 && CeilDiv(n, size) * size >= n
  {
    var k := (n + size - 1) / size;
    assert n + size - 1 == k * size + (n + size - 1) % size;
  }

  /** Every sub-collection of a built sidecar's shares, in any order and with repetitions,
      reconstructs exactly the payload if it covers as many distinct indices as there are data
      shares, and is refused as insufficient otherwise. */
  lemma DaRoundTrip(codec: Codec, payload: Shard, namespace: nat, requested: nat, given: seq<Share>)
    requires Correct(codec) && payload != []
    requires BuildSpec(codec, payload, namespace, requested).Ok?
    requires Genuine(BuildSpec(codec, payload, namespace, requested).value, given)
    ensures var s := BuildSpec(codec, payload, namespace, requested).value;
      ReconstructSpec(codec, s, given)
        == if |IndexSet(given, |given|)| >= s.dataCount then Ok(payload) else Err(InsufficientShares)
  {
    hide Chunks, IndexSet, FillSlots, Flatten;
    var s := BuildSpec(codec, payload, namespace, requested).value;
    var data := Chunks(payload, s.shareSize, s.dataCount);
    var parity := codec.parity(data, s.parityCount).value;
    var shards := data + parity;
    ChunksEven(payload, s.shareSize, s.dataCount);
    CeilBounds(|payload|, s.shareSize);
    assert Encodes(codec, data, s.parityCount, s.shareSize);
    assert WellBuilt(s, shards);
    assert LayoutError(s).None?;
    GenuineFill(s, shards, given, |given|);
    var slots := FillSlots(s, given, |given|).value;
    assert Restores(codec, data, s.parityCount, slots);
    FlattenPrefix(payload, s.shareSize, parity);
  }

  /** The empty payload round-trips through any shares at all. */
  lemma EmptyRoundTrip(codec: Codec, namespace: nat, requested: nat, given: seq<Share>)
    ensures BuildSpec(codec, [], namespace, requested).Ok?
    ensures ReconstructSpec(codec, BuildSpec(codec, [], namespace, requested).value, given) == Ok([])
  {
  }

  // ----- sampling receipts -----

  datatype Sample = Sample(index: nat, isParity: bool, commitment: Commitment, path: seq<Commitment>)

  datatype Receipt = Receipt(namespace: nat, root: Commitment, shareCount: nat, seed: nat, sampleCount: nat,
                             samples: seq<Sample>)

  function Commitments(s: Sidecar): (r: seq<Commitment>)
    ensures |r| == |s.shares|
  {
    seq(|s.shares|, i requires 0 <= i < |s.shares| => s.shares[i].commitment)
  }

  function DaRoot(s: Sidecar): Commitment { Root(Commitments(s)) }

  /** One step of the linear congruential generator on 64-bit words. */
  function NextState(state: nat): nat {
    (state * 6364136223846793005 + 1442695040888963407) % (U64_MAX + 1)
  }

  function StateAfter(seed: nat, steps: nat): nat {
    if steps == 0 then seed else NextState(StateAfter(seed, steps - 1))
  }

  function Reduced(state: nat, shareCount: nat): (r: nat)
    requires shareCount > 0
    ensures r < shareCount
  {
    state % (U32_MAX + 1) % shareCount
  }

  function SampleIndex(seed: nat, shareCount: nat, i: nat): (r: nat)
    requires shareCount > 0
    ensures r < shareCount
  {
    Reduced(StateAfter(seed, i + 1), shareCount)
  }

  /** The indexes a seed selects; none if there is nothing to sample. */
  function SampleIndexes(seed: nat, shareCount: nat, sampleCount: nat): seq<nat> {
    if shareCount == 0 then []
    else seq(sampleCount, i requires 0 <= i => SampleIndex(seed, shareCount, i))
  }

  method DeterministicSampleIndexes(seed: nat, shareCount: nat, sampleCount: nat) returns (indexes: seq<nat>)
    ensures indexes == SampleIndexes(seed, shareCount, sampleCount)
  {
    hide NextState, Reduced;
    indexes := [];
    if shareCount == 0 || sampleCount == 0 {
      return;
    }
    var state := seed;
    for i := 0 to sampleCount
      invariant state == StateAfter(seed, i)
      invariant |indexes| == i && forall j :: 0 <= j < i ==> indexes[j] == SampleIndex(seed, shareCount, j)
    {
      state := NextState(state);
      indexes := indexes + [Reduced(state, shareCount)];
    }
  }

  function SampleOf(s: Sidecar, index: nat): Sample
    requires index < |s.shares|
  {
    Sample(index, s.shares[index].isParity, s.shares[index].commitment, Path(Commitments(s), index))
  }

  /** The samples of the first `n` indexes, or the first complaint. */
  function TakeSamples(s: Sidecar, indexes: seq<nat>, n: nat): Result<seq<Sample>>
    requires n <= |indexes|
  {
    if n == 0 then Ok([])
    else
      match TakeSamples(s, indexes, n - 1)
      case Err(e) => Err(e)
      case Ok(samples) =>
        var index := indexes[n - 1];
        if index >= |s.shares| then Err(SampleMissing)
        else if s.shares[index].index != index then Err(ShareIndex)
        else Ok(samples + [SampleOf(s, index)])
  }

  function BuildReceiptSpec(s: Sidecar, expected: Commitment, seed: nat, sampleCount: nat): Result<Receipt> {
    if DaRoot(s) != expected then Err(WrongRoot)
    else if |s.shares| > U32_MAX then Err(ShareCount)
    else
      var indexes := SampleIndexes(seed, |s.shares|, sampleCount);
      match TakeSamples(s, indexes, |indexes|)
      case Err(e) => Err(e)
      case Ok(samples) => Ok(Receipt(s.namespace, expected, |s.shares|, seed, sampleCount, samples))
  }

  method BuildDaSamplingReceipt(s: Sidecar, expected: Commitment, seed: nat, sampleCount: nat)
    returns (r: Result<Receipt>)
    ensures r == BuildReceiptSpec(s, expected, seed, sampleCount)
  {
    hide SampleIndexes, Root;
    var actual := MerkleRoot(Commitments(s));
    if actual != expected {
      return Err(WrongRoot);
    }
    if |s.shares| > U32_MAX {
      return Err(ShareCount);
    }
    var indexes := DeterministicSampleIndexes(seed, |s.shares|, sampleCount);
    var samples: seq<Sample> := [];
    for i := 0 to |indexes|
      invariant TakeSamples(s, indexes, i) == Ok(samples)
    {
      var index := indexes[i];
      if index >= |s.shares| {
        SamplingStops(s, indexes, i + 1, |indexes|);
        return Err(SampleMissing);
      }
      if s.shares[index].index != index {
        SamplingStops(s, indexes, i + 1, |indexes|);
        return Err(ShareIndex);
      }
      var path := MerklePathFromHashes(Commitments(s), index);
      samples := samples + [Sample(index, s.shares[index].isParity, s.shares[index].commitment, path)];
    }
    return Ok(Receipt(s.namespace, expected, |s.shares|, seed, sampleCount, samples));
  }

  lemma {:induction false} SamplingStops(s: Sidecar, indexes: seq<nat>, i: nat, n: nat)
    requires i <= n <= |indexes| && TakeSamples(s, indexes, i).Err?
    ensures TakeSamples(s, indexes, n) == TakeSamples(s, indexes, i)
    decreases n
  {
    if i < n {
      SamplingStops(s, indexes, i, n - 1);
    }
  }

  function SampleError(sample: Sample, expectedIndex: nat, shareCount: nat, root: Commitment): Option<DaError> {
    if sample.index != expectedIndex || sample.index >= shareCount then Some(ShareIndex)
    else if !AcceptsPath(sample.commitment, sample.index, shareCount, sample.path, root) then Some(ShareCommitment)
    else None
  }

  /** The first complaint about the first `n` samples. */
  function SamplesError(receipt: Receipt, n: nat): Option<DaError>
    requires 0 < receipt.shareCount && n <= |receipt.samples|
  {
    if n == 0 then None
    else
      match SamplesError(receipt, n - 1)
      case Some(e) => Some(e)
      case None =>
        SampleError(receipt.samples[n - 1], SampleIndex(receipt.seed, receipt.shareCount, n - 1), receipt.shareCount,
                    receipt.root)
  }

  function ReceiptError(receipt: Receipt, root: Commitment, namespace: nat, minSamples: nat): Option<DaError> {
    if receipt.namespace != namespace then Some(Namespace)
    else if receipt.root != root then Some(WrongRoot)
    else if receipt.sampleCount < minSamples || |receipt.samples| < minSamples then Some(InsufficientSamples)
    else if |receipt.samples| != receipt.sampleCount then Some(SampleMissing)
    else if receipt.shareCount == 0 then if receipt.sampleCount == 0 then None else Some(ShareCount)
    else SamplesError(receipt, |receipt.samples|)
  }

  method VerifyDaSamplingReceipt(receipt: Receipt, root: Commitment, namespace: nat, minSamples: nat)
    returns (error: Option<DaError>)
    ensures error == ReceiptError(receipt, root, namespace, minSamples)
  {
    if receipt.namespace != namespace {
      return Some(Namespace);
    }
    if receipt.root != root {
      return Some(WrongRoot);
    }
    if receipt.sampleCount < minSamples || |receipt.samples| < minSamples {
      return Some(InsufficientSamples);
    }
    if |receipt.samples| != receipt.sampleCount {
      return Some(SampleMissing);
    }
    if receipt.shareCount == 0 {
      return if receipt.sampleCount == 0 then None else Some(ShareCount);
    }
    var indexes := DeterministicSampleIndexes(receipt.seed, receipt.shareCount, receipt.sampleCount);
    hide SampleIndex, AcceptsPath;
    for i := 0 to |receipt.samples|
      invariant SamplesError(receipt, i) == None
    {
      var sample := receipt.samples[i];
      var ok := VerifyMerklePath(sample.commitment, sample.index, receipt.shareCount, sample.path, receipt.root);
      if sample.index != indexes[i] || sample.index >= receipt.shareCount {
        VerifyingStops(receipt, i + 1, |receipt.samples|);
        return Some(ShareIndex);
      }
      if !ok {
        VerifyingStops(receipt, i + 1, |receipt.samples|);
        return Some(ShareCommitment);
      }
    }
    return None;
  }

  lemma {:induction false} VerifyingStops(receipt: Receipt, i: nat, n: nat)
    requires 0 < receipt.shareCount && i <= n <= |receipt.samples| && SamplesError(receipt, i).Some?
    ensures SamplesError(receipt, n) == SamplesError(receipt, i)
    decreases n
  {
    hide SampleError;
    if i < n {
      VerifyingStops(receipt, i, n - 1);
    }
  }

  /** Every sample is the sidecar's own share at the index the seed selects, with its own path. */
  ghost predicate Faithful(s: Sidecar, receipt: Receipt, n: nat)
    requires n <= |receipt.samples| && s.shares != []
  {
    forall i :: 0 <= i < n ==>
      && receipt.samples[i].index == SampleIndex(receipt.seed, |s.shares|, i)
      && receipt.samples[i].commitment == s.shares[receipt.samples[i].index].commitment
      && receipt.samples[i].path == Path(Commitments(s), receipt.samples[i].index)
  }

  lemma {:induction false} SamplesFaithful(s: Sidecar, receipt: Receipt, n: nat)
    requires s.shares != [] && receipt.shareCount == |s.shares| && receipt.root == DaRoot(s) && n <= |receipt.samples|
    ensures SamplesError(receipt, n).None? <==> Faithful(s, receipt, n)
  {
    hide SampleIndex, Path, AcceptsPath;
    if n > 0 {
      SamplesFaithful(s, receipt, n - 1);
      var sample := receipt.samples[n - 1];
      AcceptsPathExactly(Commitments(s), sample.commitment, sample.index, sample.path);
    }
  }

  /** Receipt soundness and completeness at the true share count: against the root of a non-empty
      sidecar a receipt is accepted exactly if it has the right namespace and enough samples and
      every sample carries the sidecar's own commitment at the index the seed selects. */
  lemma ReceiptAcceptedExactly(s: Sidecar, receipt: Receipt, namespace: nat, minSamples: nat)
    requires s.shares != [] && receipt.shareCount == |s.shares|
    ensures ReceiptError(receipt, DaRoot(s), namespace, minSamples).None?
       <==> && receipt.namespace == namespace && receipt.root == DaRoot(s)
            && |receipt.samples| == receipt.sampleCount >= minSamples
            && Faithful(s, receipt, |receipt.samples|)
  {
    hide Faithful, SamplesError;
    if receipt.root == DaRoot(s) {
      SamplesFaithful(s, receipt, |receipt.samples|);
    }
  }

  lemma {:induction false} SamplesTaken(s: Sidecar, seed: nat, sampleCount: nat, n: nat)
    requires s.shares != [] && n <= sampleCount
    requires forall i :: 0 <= i < |s.shares| ==> s.shares[i].index == i
    ensures TakeSamples(s, SampleIndexes(seed, |s.shares|, sampleCount), n).Ok?
    ensures var samples := TakeSamples(s, SampleIndexes(seed, |s.shares|, sampleCount), n).value;
      |samples| == n && forall i :: 0 <= i < n ==> samples[i] == SampleOf(s, SampleIndex(seed, |s.shares|, i))
  {
    hide SampleIndex, SampleOf;
    if n > 0 {
      SamplesTaken(s, seed, sampleCount, n - 1);
    }
  }

  /** Every receipt built over a well-indexed, non-empty sidecar verifies, whatever the seed. */
  lemma BuiltReceiptVerifies(s: Sidecar, seed: nat, sampleCount: nat, minSamples: nat)
    requires 0 < |s.shares| <= U32_MAX && minSamples <= sampleCount
    requires forall i :: 0 <= i < |s.shares| ==> s.shares[i].index == i
    ensures BuildReceiptSpec(s, DaRoot(s), seed, sampleCount).Ok?
    ensures var receipt := BuildReceiptSpec(s, DaRoot(s), seed, sampleCount).value;
      ReceiptError(receipt, DaRoot(s), s.namespace, minSamples).None?
  {
    hide SampleIndex, Path, TakeSamples, ReceiptError;
    SamplesTaken(s, seed, sampleCount, sampleCount);
    var receipt := BuildReceiptSpec(s, DaRoot(s), seed, sampleCount).value;
    ReceiptAcceptedExactly(s, receipt, s.namespace, minSamples);
  }
}

/** The native ledger as a value: what every call of `crates/core/src/state.rs` does to the
    state, failed calls included. */
module Ledger {
  import opened Arithmetic
  import opened Collections
  import opened Merkle
  import opened Emission

  type U128 = x: nat | x <= U128_MAX witness 0

  const U32_RANGE: nat := 0x1_0000_0000
  const U128_RANGE: nat := U128_MAX + 1

  datatype Account = Account(nonce: nat, balance: nat)

  datatype PayoutEntry = PayoutEntry(index: nat, account: nat, amount: nat)

  datatype Receipt = Receipt(id: nat, worker: nat, score: nat, payout: nat)

  datatype StoredBatch = StoredBatch(operator: nat, receiptRoot: Hash<Receipt>, payoutRoot: Hash<PayoutEntry>,
                                     receiptCount: nat, payoutCount: nat, totalPayout: nat, submittedAt: nat)

  /** The all-zero signature is "no signature"; any other either binds a key to these roots or
      verifies under no key. */
  datatype OperatorSig =
    | NoSig
    | Sig(key: nat, batchId: nat, receiptRoot: Hash<Receipt>, payoutRoot: Hash<PayoutEntry>)
    | BadSig

  datatype Batch = Batch(id: nat, operator: nat, receipts: seq<Receipt>, entries: seq<PayoutEntry>,
                         submittedAt: nat, sig: OperatorSig)

  datatype Agent = Agent(address: nat, pubkey: nat, suspended: bool)

  datatype Bond = Bond(signer: nat, amount: nat)

  datatype PayoutKind = Primary | Royalty

  /** The preimage of the payout id; it contains the position in the payout list. */
  datatype PayoutId = PayoutId(command: nat, sequence: nat, kind: PayoutKind, beneficiary: nat, amount: nat,
                               release: nat)

  datatype LifePayout = LifePayout(id: PayoutId, amount: nat)

  datatype ProviderReward = ProviderReward(receiptId: nat, worker: nat, organic: nat,
                                           compute: nat, txCount: nat, storageRollover: nat)
  {
    function Subsidy(): nat { compute + txCount }
  }

  /** `Administrative` stands for the governed kinds without economics, `Plain` for the open ones. */
  datatype LifeKind = IntelligencePayout | ProvenanceBond | FeedbackArtifact | SealedSale | Administrative | Plain

  datatype LifeCommand = LifeCommand(id: nat, kind: LifeKind, soul: nat, counterparty: Option<nat>, epoch: nat,
                                     amount: nat, payload: nat)

  datatype Error =
    | UnknownSigner | InsufficientBalance | NotAuthorized | NotFound | InvalidProof | AgentIdCollision
    | DuplicateReceipt | BadPayoutOrdering | AlreadyClaimed | BatchNotFound | BadSignature
    | DuplicateLifeCommand | SupplyCapExceeded | InsufficientIntelligencePool | BelowProvenanceBond
    | DuplicateLifeArtifact | InvalidShape | WalletCommitmentMismatch | WalletFeatureDisabled
    | DuplicateWalletAnchor | DuplicateProofCommitment

  datatype Outcome = Ok | Err(error: Error)

  datatype AgentBook = AgentBook(nextId: nat, records: map<nat, Agent>, byAddress: map<nat, nat>)

  datatype LifeBook = LifeBook(commands: set<nat>, payouts: seq<LifePayout>, vesting: map<PayoutId, nat>,
                               bonds: map<nat, Bond>, feedback: set<nat>, sales: set<nat>)

  datatype Dispute = Dispute(receiptId: nat, filer: nat, reason: nat, evidence: nat, status: nat)

  datatype RecordBook = RecordBook(disputes: map<nat, Dispute>, nextDispute: nat, anchors: map<nat, nat>,
                                   proofs: map<nat, nat>)

  datatype ProviderBook = ProviderBook(rewards: seq<ProviderReward>, organic: map<nat, nat>, subsidy: map<nat, nat>)

  datatype Pools = Pools(minted: nat, provider: U128, consensus: nat, intelligence: nat, rollover: nat)

  datatype Ledger = Ledger(
    accounts: map<nat, Account>,
    governance: nat,
    agents: AgentBook,
    receipts: map<nat, Receipt>,
    batches: map<nat, StoredBatch>,
    claimed: set<(nat, nat)>,
    stakes: map<nat, nat>,
    delegated: map<(nat, nat), nat>,
    life: LifeBook,
    providers: ProviderBook,
    pools: Pools,
    emission: EmissionParams,
    records: RecordBook)

  /** The witness of a wallet anchor: none, not decodable, one that commits to a value, or one sent to
      a build without wallet support. */
  datatype Witness = Absent | Undecodable | Commits(value: nat) | Unsupported

  /** The calls that only keep records. */
  datatype RecordCall =
    | UpdateAgent(agent: nat, newPubkey: Option<nat>)
    | SuspendAgent(suspect: nat)
    | FileDispute(receiptId: nat, reason: nat, evidence: nat)
    | ResolveDispute(dispute: nat, resolution: nat)
    | AnchorTaskReceipt(commitment: nat, shown: Witness)
    | CommitProof(proofHash: nat)

  datatype NativeCall =
    | RegisterAgent(pubkey: nat)
    | SettleReceipt(receipt: Receipt)
    | SettleBatch(batch: Batch)
    | ClaimPayout(batchId: nat, account: nat, amount: nat, leafIndex: nat, proof: seq<Hash<PayoutEntry>>)
    | Stake(stake: nat)
    | Unstake(unstake: nat)
    | Slash(slashed: nat)
    | Delegate(validator: nat, delegation: nat)
    | WithdrawRewards
    | Life(command: LifeCommand)
    | SetChainEconomics(params: EmissionParams)
    | NoOp
    | Keep(record: RecordCall)

  /** `bump` is false for calls made through an EVM precompile. */
  datatype Call =
    | Transfer(from: nat, to: nat, sent: nat)
    | Native(signer: nat, call: NativeCall, bump: bool)
    | Mint(height: nat)

  // ----- accounts -----

  function AccountOf(accounts: map<nat, Account>, a: nat): Account {
    if a in accounts then accounts[a] else Account(0, 0)
  }

  /** `entry(a).or_insert(zero).balance += amount`. */
  function Credit(accounts: map<nat, Account>, a: nat, amount: nat): map<nat, Account> {
    var acc := AccountOf(accounts, a);
    accounts[a := acc.(balance := acc.balance + amount)]
  }

  function Debit(accounts: map<nat, Account>, a: nat, amount: nat): map<nat, Account>
    requires a in accounts && amount <= accounts[a].balance
  {
    accounts[a := accounts[a].(balance := accounts[a].balance - amount)]
  }

  function BumpNonce(l: Ledger, signer: nat): (Ledger, Outcome) {
    if signer !in l.accounts then (l, Err(UnknownSigner))
    else
      var acc := l.accounts[signer];
      (l.(accounts := l.accounts[signer := acc.(nonce := SatAdd64(acc.nonce, 1))]), Ok)
  }

  /** The common tail of a successful call. */
  function Finish(l: Ledger, signer: nat, bump: bool): (Ledger, Outcome) {
    if bump then BumpNonce(l, signer) else (l, Ok)
  }

  function TransferSpec(l: Ledger, from: nat, to: nat, amount: nat): (Ledger, Outcome) {
    if from !in l.accounts then (l, Err(UnknownSigner))
    else if l.accounts[from].balance < amount then (l, Err(InsufficientBalance))
    else BumpNonce(l.(accounts := Credit(Debit(l.accounts, from, amount), to, amount)), from)
  }

  function Governed(l: Ledger, signer: nat): bool { l.governance == 0 || signer == l.governance }

  // ----- provider rewards -----

  function Scores(receipts: seq<Receipt>): (r: seq<nat>)
    ensures |r| == |receipts|
  {
    seq(|receipts|, i requires 0 <= i < |receipts| => Max(receipts[i].score, 1))
  }

  function Ones(n: nat): (r: seq<nat>)
    ensures |r| == n
  {
    seq(n, _ => 1)
  }

  lemma ScoresPositive(receipts: seq<Receipt>)
    requires receipts != []
    ensures Sum(Scores(receipts)) > 0 && Sum(Ones(|receipts|)) == |receipts|
  {
    SumElementBound(Scores(receipts), 0);
    SumOfConstant(Ones(|receipts|), 1);
  }

  function AddIncome(income: map<nat, nat>, worker: nat, amount: nat): map<nat, nat> {
    income[worker := SatAdd(Get(income, worker), amount)]
  }

  function AddOrganic(income: map<nat, nat>, receipts: seq<Receipt>): map<nat, nat> {
    if receipts == [] then income
    else
      var k := |receipts| - 1;
      AddIncome(AddOrganic(income, receipts[..k]), receipts[k].worker, receipts[k].payout)
  }

  function AddSubsidies(income: map<nat, nat>, rewards: seq<ProviderReward>): map<nat, nat> {
    if rewards == [] then income
    else
      var k := |rewards| - 1;
      var before := AddSubsidies(income, rewards[..k]);
      if SatAdd(rewards[k].compute, rewards[k].txCount) > 0
      then AddIncome(before, rewards[k].worker, SatAdd(rewards[k].compute, rewards[k].txCount))
      else before
  }

  function StorageBudget(pool: nat, p: EmissionParams): nat { FloorShare(pool, p.providerWork.a, BPS) }

  function ComputeBudget(pool: nat, p: EmissionParams): nat { FloorShare(pool, p.providerWork.b, BPS) }

  function TxBudget(pool: nat, p: EmissionParams): nat {
    SatSub(SatSub(pool, StorageBudget(pool, p)), ComputeBudget(pool, p))
  }

  function ProviderRewards(pool: nat, p: EmissionParams, receipts: seq<Receipt>): (r: seq<ProviderReward>)
    requires receipts != []
    ensures |r| == |receipts|
  {
    ScoresPositive(receipts);
    var computes := Split(ComputeBudget(pool, p), Scores(receipts), Sum(Scores(receipts)));
    var txs := Split(TxBudget(pool, p), Ones(|receipts|), |receipts|);
    seq(|receipts|, i requires 0 <= i < |receipts| =>
      ProviderReward(receipts[i].id, receipts[i].worker, receipts[i].payout, computes[i], txs[i],
                     if i == 0 then StorageBudget(pool, p) else 0))
  }

  function PayProviders(book: ProviderBook, rewards: seq<ProviderReward>): ProviderBook {
    book.(rewards := book.rewards + rewards, subsidy := AddSubsidies(book.subsidy, rewards))
  }

  function DrainProviderPool(pools: Pools, p: EmissionParams): Pools {
    pools.(provider := 0, rollover := SatAdd(pools.rollover, StorageBudget(pools.provider, p)))
  }

  function DistributeProviderPool(l: Ledger, receipts: seq<Receipt>): Ledger {
    if receipts == [] then l
    else
      var book := l.providers.(organic := AddOrganic(l.providers.organic, receipts));
      if l.pools.provider == 0 then l.(providers := book)
      else
        l.(providers := PayProviders(book, ProviderRewards(l.pools.provider, l.emission, receipts)),
           pools := DrainProviderPool(l.pools, l.emission))
  }

  function SettleReceiptSpec(l: Ledger, signer: nat, r: Receipt, bump: bool): (Ledger, Outcome) {
    if r.id in l.receipts then (l, Err(DuplicateReceipt))
    else Finish(DistributeProviderPool(l.(receipts := l.receipts[r.id := r]), [r]), signer, bump)
  }

  // ----- batches and claims -----

  /** `e.index == i as u32` for every position. */
  predicate WellIndexed(entries: seq<PayoutEntry>) {
    forall i :: 0 <= i < |entries| ==> entries[i].index == i % U32_RANGE
  }

  function Amounts(entries: seq<PayoutEntry>): (r: seq<nat>)
    ensures |r| == |entries|
  {
    seq(|entries|, i requires 0 <= i < |entries| => entries[i].amount)
  }

  /** The `u128` sum of the batch, as a release build computes it. */
  function BatchTotal(b: Batch): nat { Sum(Amounts(b.entries)) % U128_RANGE }

  function InsertReceipts(receipts: map<nat, Receipt>, added: seq<Receipt>): map<nat, Receipt> {
    if added == [] then receipts
    else
      var k := |added| - 1;
      InsertReceipts(receipts, added[..k])[added[k].id := added[k]]
  }

  function Stored(b: Batch): StoredBatch {
    StoredBatch(b.operator, Root(LeafHashes(b.receipts)), Root(LeafHashes(b.entries)),
                |b.receipts| % U32_RANGE, |b.entries| % U32_RANGE, BatchTotal(b), b.submittedAt)
  }

  /** The checks made before the operator is debited. */
  function SettleRefusal(l: Ledger, signer: nat, b: Batch): Option<Error> {
    if signer != b.operator then Some(NotAuthorized)
    else if !WellIndexed(b.entries) then Some(BadPayoutOrdering)
    else if exists i :: 0 <= i < |b.receipts| && b.receipts[i].id in l.receipts then Some(DuplicateReceipt)
    else if b.operator !in l.accounts then Some(UnknownSigner)
    else if l.accounts[b.operator].balance < BatchTotal(b) then Some(InsufficientBalance)
    else None
  }

  /** The signature check, made only for registered operators that sent one. */
  function SignatureRefusal(l: Ledger, b: Batch): Option<Error> {
    if b.sig.NoSig? || b.operator !in l.agents.byAddress then None
    else
      var aid := l.agents.byAddress[b.operator];
      if aid !in l.agents.records then Some(NotFound)
      else if b.sig != Sig(l.agents.records[aid].pubkey, b.id,
                           Root(LeafHashes(b.receipts)), Root(LeafHashes(b.entries)))
      then Some(BadSignature)
      else None
  }

  function SettleBatchSpec(l: Ledger, signer: nat, b: Batch, bump: bool): (Ledger, Outcome) {
    match SettleRefusal(l, signer, b)
    case Some(e) => (l, Err(e))
    case None =>
      var debited := l.(accounts := Debit(l.accounts, b.operator, BatchTotal(b)));
      match SignatureRefusal(l, b)
      case Some(e) => (debited, Err(e))
      case None =>
        Finish(DistributeProviderPool(debited.(batches := l.batches[b.id := Stored(b)],
                                   receipts := InsertReceipts(l.receipts, b.receipts)),
                          b.receipts),
               signer, bump)
  }

  function ClaimRefusal(l: Ledger, batchId: nat, entry: PayoutEntry, proof: seq<Hash<PayoutEntry>>): Option<Error> {
    if (batchId, entry.index) in l.claimed then Some(AlreadyClaimed)
    else if batchId !in l.batches then Some(BatchNotFound)
    else if Climb(Leaf(entry), entry.index, proof) != l.batches[batchId].payoutRoot then Some(InvalidProof)
    else None
  }

  function ClaimSpec(l: Ledger, signer: nat, batchId: nat, entry: PayoutEntry, proof: seq<Hash<PayoutEntry>>,
                     bump: bool)
    : (Ledger, Outcome)
  {
    match ClaimRefusal(l, batchId, entry, proof)
    case Some(e) => (l, Err(e))
    case None =>
      Finish(l.(claimed := l.claimed + {(batchId, entry.index)},
                accounts := Credit(l.accounts, entry.account, entry.amount)),
             signer, bump)
  }

  // ----- stakes -----

  function StakeSpec(l: Ledger, signer: nat, amount: nat, bump: bool): (Ledger, Outcome) {
    if signer !in l.accounts then (l, Err(UnknownSigner))
    else if l.accounts[signer].balance < amount then (l, Err(InsufficientBalance))
    else Finish(l.(accounts := Debit(l.accounts, signer, amount),
                   stakes := l.stakes[signer := Get(l.stakes, signer) + amount]), signer, bump)
  }

  function UnstakeSpec(l: Ledger, signer: nat, amount: nat, bump: bool): (Ledger, Outcome) {
    if signer !in l.stakes then (l, Err(NotFound))
    else if l.stakes[signer] < amount then (l, Err(InsufficientBalance))
    else Finish(l.(stakes := l.stakes[signer := l.stakes[signer] - amount],
                   accounts := Credit(l.accounts, signer, amount)), signer, bump)
  }

  function SlashSpec(l: Ledger, signer: nat, validator: nat, bump: bool): (Ledger, Outcome) {
    if !Governed(l, signer) then (l, Err(NotAuthorized))
    else Finish(l.(stakes := l.stakes - {validator}), signer, bump)
  }

  function DelegateSpec(l: Ledger, signer: nat, validator: nat, amount: nat, bump: bool): (Ledger, Outcome) {
    if signer !in l.accounts then (l, Err(UnknownSigner))
    else if l.accounts[signer].balance < amount then (l, Err(InsufficientBalance))
    else Finish(l.(accounts := Debit(l.accounts, signer, amount),
                   delegated := l.delegated[(signer, validator) := Get(l.delegated, (signer, validator)) + amount]),
                signer, bump)
  }

  function RegisterAgentSpec(l: Ledger, signer: nat, pubkey: nat, bump: bool): (Ledger, Outcome) {
    var id := l.agents.nextId;
    var bumped := l.agents.(nextId := SatAdd64(id, 1));
    if signer in l.agents.byAddress then (l.(agents := bumped), Err(AgentIdCollision))
    else Finish(l.(agents := bumped.(records := bumped.records[id := Agent(signer, pubkey, false)],
                                     byAddress := bumped.byAddress[signer := id])), signer, bump)
  }

  // ----- life commands -----

  function AppendPayout(book: LifeBook, c: LifeCommand, kind: PayoutKind, beneficiary: nat, amount: nat, release: nat)
    : LifeBook
  {
    var id := PayoutId(c.id, |book.payouts|, kind, beneficiary, amount, release);
    book.(payouts := book.payouts + [LifePayout(id, amount)], vesting := book.vesting[id := amount])
  }

  function FirstHop(p: EmissionParams): nat {
    if p.royaltyHopsBps == [] then 0 else p.royaltyHopsBps[0]
  }

  function RoyaltyOf(c: LifeCommand, p: EmissionParams): nat {
    if c.counterparty.Some? then FloorShare(c.amount, FirstHop(p), BPS) else 0
  }

  /** The primary payout and, for a second party, its royalty. */
  function AppendPayouts(book: LifeBook, c: LifeCommand, royalty: nat, release: nat): LifeBook {
    var primary := SatSub(c.amount, royalty);
    var book1 := if primary > 0 then AppendPayout(book, c, Primary, c.soul, primary, release) else book;
    if c.counterparty.Some? && royalty > 0
    then AppendPayout(book1, c, Royalty, c.counterparty.value, royalty, release) else book1
  }

  function IntelligencePayoutSpec(l: Ledger, c: LifeCommand): (Ledger, Outcome) {
    if c.amount == 0 then (l, Ok)
    else if c.amount > l.pools.intelligence then (l, Err(InsufficientIntelligencePool))
    else
      (l.(pools := l.pools.(intelligence := l.pools.intelligence - c.amount),
          life := AppendPayouts(l.life, c, RoyaltyOf(c, l.emission),
                                SatAdd64(c.epoch, l.emission.vestingEpochs))), Ok)
  }

  function ProvenanceBondSpec(l: Ledger, signer: nat, c: LifeCommand): (Ledger, Outcome) {
    if c.amount < l.emission.provenanceBond then (l, Err(BelowProvenanceBond))
    else if signer !in l.accounts then (l, Err(UnknownSigner))
    else if l.accounts[signer].balance < c.amount then (l, Err(InsufficientBalance))
    else if c.soul in l.life.bonds then (l, Err(DuplicateLifeArtifact))
    else (l.(accounts := Debit(l.accounts, signer, c.amount),
             life := l.life.(bonds := l.life.bonds[c.soul := Bond(signer, c.amount)])), Ok)
  }

  /** Feedback artifacts and sealed sales are recorded once per payload. */
  function FileArtifact(book: LifeBook, c: LifeCommand): (LifeBook, Outcome) {
    match c.kind
    case FeedbackArtifact =>
      if c.payload in book.feedback then (book, Err(DuplicateLifeArtifact))
      else (book.(feedback := book.feedback + {c.payload}), Ok)
    case SealedSale =>
      if c.payload in book.sales then (book, Err(DuplicateLifeArtifact))
      else (book.(sales := book.sales + {c.payload}), Ok)
    case _ => (book, Ok)
  }

  lemma ArtifactsKeep(book: LifeBook, c: LifeCommand)
    ensures var book' := FileArtifact(book, c).0;
      book'.payouts == book.payouts && book'.vesting == book.vesting && book'.bonds == book.bonds
  {
  }

  function ArtifactSpec(l: Ledger, c: LifeCommand): (Ledger, Outcome) {
    (l.(life := FileArtifact(l.life, c).0), FileArtifact(l.life, c).1)
  }

  function LifeEconomics(l: Ledger, signer: nat, c: LifeCommand): (Ledger, Outcome) {
    match c.kind
    case IntelligencePayout => IntelligencePayoutSpec(l, c)
    case ProvenanceBond => ProvenanceBondSpec(l, signer, c)
    case _ => ArtifactSpec(l, c)
  }

  function RecordCommand(l: Ledger, id: nat): Ledger {
    l.(life := l.life.(commands := l.life.commands + {id}))
  }

  predicate NeedsGovernance(kind: LifeKind) { kind.IntelligencePayout? || kind.Administrative? }

  function LifeSpec(l: Ledger, signer: nat, c: LifeCommand, bump: bool): (Ledger, Outcome) {
    if c.id in l.life.commands then (l, Err(DuplicateLifeCommand))
    else if NeedsGovernance(c.kind) && !Governed(l, signer) then (l, Err(NotAuthorized))
    else
      var done := LifeEconomics(l, signer, c);
      if done.1.Err? then done else Finish(RecordCommand(done.0, c.id), signer, bump)
  }

  // ----- minting -----

  function MintSpec(l: Ledger, height: nat): (Ledger, Outcome) {
    var e := EmissionForBlock(height, l.emission);
    var minted := l.pools.minted + e.total;
    if e.total == 0 then (l, Ok)
    else if minted > U128_MAX || minted > MAX_SUPPLY_WEI then (l, Err(SupplyCapExceeded))
    else (l.(pools := Pools(minted,
                            SatAdd(l.pools.provider, e.provider),
                            SatAdd(l.pools.consensus, e.consensus),
                            SatAdd(l.pools.intelligence, e.intelligence),
                            l.pools.rollover)), Ok)
  }

  function SetChainEconomicsSpec(l: Ledger, signer: nat, params: EmissionParams, bump: bool): (Ledger, Outcome) {
    if !Governed(l, signer) then (l, Err(NotAuthorized))
    else Finish(l.(emission := params), signer, bump)
  }

  // ----- records -----

  function WitnessError(commitment: nat, shown: Witness): Option<Error> {
    match shown
    case Absent => None
    case Undecodable => Some(InvalidShape)
    case Commits(value) => if value == commitment then None else Some(WalletCommitmentMismatch)
    case Unsupported => Some(WalletFeatureDisabled)
  }

  function KeepAgents(l: Ledger, signer: nat, call: RecordCall): (AgentBook, Outcome)
    requires call.UpdateAgent? || call.SuspendAgent?
  {
    var agents := l.agents;
    match call
    case UpdateAgent(id, newPubkey) =>
      if id !in agents.records then (agents, Err(NotFound))
      else if agents.records[id].address != signer then (agents, Err(NotAuthorized))
      else if newPubkey.None? then (agents, Ok)
      else (agents.(records := agents.records[id := agents.records[id].(pubkey := newPubkey.value)]), Ok)
    case SuspendAgent(id) =>
      if !Governed(l, signer) then (agents, Err(NotAuthorized))
      else if id !in agents.records then (agents, Err(NotFound))
      else (agents.(records := agents.records[id := agents.records[id].(suspended := true)]), Ok)
  }

  function KeepRecords(l: Ledger, signer: nat, call: RecordCall): (RecordBook, Outcome)
    requires !call.UpdateAgent? && !call.SuspendAgent?
  {
    var book := l.records;
    match call
    case FileDispute(receiptId, reason, evidence) =>
      (book.(nextDispute := SatAdd64(book.nextDispute, 1),
             disputes := book.disputes[book.nextDispute := Dispute(receiptId, signer, reason, evidence, 0)]), Ok)
    case ResolveDispute(id, resolution) =>
      if !Governed(l, signer) then (book, Err(NotAuthorized))
      else if id !in book.disputes then (book, Err(NotFound))
      else (book.(disputes := book.disputes[id := book.disputes[id].(status := resolution)]), Ok)
    case AnchorTaskReceipt(commitment, shown) =>
      if WitnessError(commitment, shown).Some? then (book, Err(WitnessError(commitment, shown).value))
      else if commitment in book.anchors then (book, Err(DuplicateWalletAnchor))
      else (book.(anchors := book.anchors[commitment := signer]), Ok)
    case CommitProof(proofHash) =>
      if proofHash in book.proofs then (book, Err(DuplicateProofCommitment))
      else (book.(proofs := book.proofs[proofHash := signer]), Ok)
  }

  function KeepSpec(l: Ledger, signer: nat, call: RecordCall, bump: bool): (Ledger, Outcome) {
    if call.UpdateAgent? || call.SuspendAgent? then
      var (agents, outcome) := KeepAgents(l, signer, call);
      if outcome.Err? then (l, outcome) else Finish(l.(agents := agents), signer, bump)
    else
      var (records, outcome) := KeepRecords(l, signer, call);
      if outcome.Err? then (l, outcome) else Finish(l.(records := records), signer, bump)
  }

  // ----- dispatch and runs -----

  function NativeSpec(l: Ledger, signer: nat, call: NativeCall, bump: bool): (Ledger, Outcome) {
    match call
    case RegisterAgent(pubkey) => RegisterAgentSpec(l, signer, pubkey, bump)
    case SettleReceipt(r) => SettleReceiptSpec(l, signer, r, bump)
    case SettleBatch(b) => SettleBatchSpec(l, signer, b, bump)
    case ClaimPayout(batchId, account, amount, leafIndex, proof) =>
      ClaimSpec(l, signer, batchId, PayoutEntry(leafIndex, account, amount), proof, bump)
    case Stake(amount) => StakeSpec(l, signer, amount, bump)
    case Unstake(amount) => UnstakeSpec(l, signer, amount, bump)
    case Slash(validator) => SlashSpec(l, signer, validator, bump)
    case Delegate(validator, amount) => DelegateSpec(l, signer, validator, amount, bump)
    case WithdrawRewards => Finish(l.(accounts := Credit(l.accounts, signer, 0)), signer, bump)
    case Life(c) => LifeSpec(l, signer, c, bump)
    case SetChainEconomics(params) => SetChainEconomicsSpec(l, signer, params, bump)
    case NoOp => Finish(l, signer, bump)
    case Keep(record) => KeepSpec(l, signer, record, bump)
  }

  function Step(l: Ledger, call: Call): (Ledger, Outcome) {
    match call
    case Transfer(from, to, amount) => TransferSpec(l, from, to, amount)
    case Native(signer, native, bump) => NativeSpec(l, signer, native, bump)
    case Mint(height) => MintSpec(l, height)
  }

  function Exec(l: Ledger, calls: seq<Call>): Ledger {
    if calls == [] then l
    else Step(Exec(l, calls[..|calls| - 1]), calls[|calls| - 1]).0
  }

  lemma ExecStep(l: Ledger, calls: seq<Call>, k: nat)
    requires k < |calls|
    ensures Exec(l, calls[..k + 1]) == Step(Exec(l, calls[..k]), calls[k]).0
  {
    hide Step;
    assert calls[..k + 1][..k] == calls[..k];
  }

  // ----- settlements in a run -----

  predicate IsSettle(call: Call) { call.Native? && call.call.SettleBatch? }

  predicate Debits(l: Ledger, call: Call) {
    IsSettle(call) && SettleRefusal(l, call.signer, call.call.batch).None?
  }

  predicate Stores(l: Ledger, call: Call) {
    Debits(l, call) && SignatureRefusal(l, call.call.batch).None?
  }

  /** By how much a batch's amounts exceed the total the operator is debited. */
  function Wrapped(b: Batch): nat {
    Sum(Amounts(b.entries)) - BatchTotal(b)
  }

  /** Nothing is wrapped away exactly if the amounts sum to a `u128`. */
  predicate Fits(call: Call) {
    IsSettle(call) ==> Sum(Amounts(call.call.batch.entries)) <= U128_MAX
  }

  lemma FitsExactly(b: Batch)
    ensures Wrapped(b) == 0 <==> Sum(Amounts(b.entries)) <= U128_MAX
  {
  }
}

# A verified model of the Fractal chain's core

A Dafny model of the parts of the chain that keep state over unbounded runs, with proofs about every
run. `dafny verify dfyconfig.toml` checks all of it. Six subsystems:

- **Certificates and evidence** (`Validators`, `Votes`, `Timeouts`, `Misbehavior`, `Safety`): vote and
  timeout pools, quorum certificates, slashable evidence, and safety over all signing runs.
- **Merkle trees** (`Merkle`): roots, paths and both verifiers.
- **The native ledger** (`Ledger`, `StateMachine`, `LedgerMoves`, `ProviderShares`, `Supply`, `Escrow`,
  `EmissionLedger`): the `State` object and its `apply_*` methods, who gains and loses by each call, token
  conservation, batch escrow and claims, emission books.
- **Emission** (`Emission`): the decaying quarter schedule with 128-bit saturation written out.
- **Staking** (`Stake`, `StakeMoves`, `StakeShares`, `Finalize`, `BlockPayees`, `Unbonding`, `StakeEconomy`):
  shares, rewards owner by owner, slashing, block rewards validator by validator, the unbonding queue, and the
  economy they form together.
- **Souls and data availability** (`Life`, `SoulCharges`, `Reaper`, `Inheritance`, `InsolvencyTrace`,
  `DataAvailability`): the reaper's epoch pass with cascading deaths, who inherits, and erasure-coded sidecars
  with sampling receipts.

`Arithmetic` and `Collections` hold saturating arithmetic, the proportional split that four components
share, ordered iteration and sums over maps.

Objects the code mutates are classes (`VotePool`, `TimeoutPool`, `State`, `StakeState`, `LifeState`); every
method is proved to take the object where a function on values says, error paths included. The lemmas
are about those functions, so they hold of the methods.

## Modelling decisions

- Signatures are ideal: a signature is the term "this key signed this message", an aggregate is the
  multiset of its parts, and nothing verifies that was not signed. Everything else an attacker sends is
  arbitrary.
- Hashes are free terms (`Zero`, `Leaf`, `Node`), so digests are equal exactly when their inputs are. The
  certificate hash is a parameter that lemmas require to be injective where they need it.
- Integers are unbounded; saturation, `as u32` truncation and the wrapping `u128` sums of a batch and of
  the stake weights are written out. Where the code would overflow instead, the lemma carries the bound:
  a `u128` bound on the stake of a staking economy, a `u64` bound on the wealth of souls.
- Addresses, identifiers and fingerprints are numbers in the order the code's maps iterate.
- The erasure codec is a parameter assumed to restore all shards from any `k` correct ones.

## What turned out to matter

- The count threshold 2f + 1 with f = (n - 1) / 3 protects against f faults only for n = 3f + 1. The
  21-validator fixture (`crates/bft-wire/src/validators.rs:90-96`) is not of that form: two conflicting
  certificates there may share 5 signers while f = 6 (`Safety.ThresholdSafeExactly`). A stake threshold
  protects a third of the stake if and only if three times it exceeds twice the total
  (`Validators.StakeThresholdSafeExactly`), which saturation and other set sizes can break.
- A batch total is a plain `u128` sum (`crates/core/src/state.rs:885`). Amounts that sum to 2^128 settle for
  nothing and can then be claimed (`Escrow.WrappingInflates`, `Escrow.WrappingOverpays`). A settlement creates
  nothing if and only if its amounts sum to a `u128` (`Supply.FreshSettleExactly`, `Escrow.DebitCoversExactly`).
- Slots are keyed by view and header alone, so one recorded vote with another height spoils its slot for good,
  and one validator is enough (`Votes.VerifiesUnlessSpoiled`, `Votes.OneVoteSpoils`).
- The mainnet emission profile saturates its products, so nearly the whole supply is released in the last
  quarter; the total is exact all the same (`Emission.MainnetIsBackloaded`, `Emission.EmissionExact`). A budget
  is the proportional share if and only if its product stays below the next multiple of the denominator after
  2^128 (`Emission.BudgetIsTrueShare`), which no mainnet quarter but the last does
  (`Emission.MainnetMissesItsShares`).
- A profile set by governance is not validated. Books stay balanced only while three pairs of shares are at
  most the whole, each with its exact condition (`EmissionLedger.WorkSplitSafeExactly`,
  `EmissionLedger.PoolSplitSafeExactly`, `EmissionLedger.RoyaltySafeExactly`).
- The core crate's proof verifier binds the index exactly inside the list, with no length check; every index
  outside mirrors to some leaf (`Merkle.UncheckedIndexExactly`). Claims are sound for any index because it is
  part of the hashed entry (`Escrow.ProvedEntry`).
- A successful block with an empty validator list debits the treasury and pays nobody, and one that fails on an
  unknown signer index loses exactly the parts not yet paid (`StakeEconomy.RewardPhaseHoldings`). The burn
  counter runs ahead of the treasury whenever the burn exceeds its balance (`Finalize.BurnCountedExactly`).

## Model

| member | source | states |
|---|---|---|
| `Safety.AccountableSafety` | crates/bft-wire/src/vote.rs:358-433 | Any two accepted certificates share at least 4f + 2 - n signers when votes are counted (also when the machine total is zero), and stake of at least twice the threshold minus the stake there is when it is weighed, wrapped totals included |
| `Safety.SharedSignersCaught` | crates/bft-wire/src/misbehavior.rs:101-181 | Every shared signer of two accepted conflicting certificates is convicted by those two certificates, whenever its fingerprint leads back to it; with distinct fingerprints it always does |
| `Safety.SharedSignersFaulty` | crates/bft-wire/src/misbehavior.rs:125-152 | In any run, whoever signed both of two conflicting certificates is not among the honest |
| `Safety.AgreementByCount` | crates/bft-wire/src/validators.rs:140-144 | n = 3f + 1 and at most f faulty validators: no run yields accepted certificates for two headers at one (view, height) |
| `Safety.AgreementByStake` | crates/bft-wire/src/quorum.rs:12-21 | The same when the faulty hold at most a third of the stake and the threshold computation does not saturate |
| `Safety.Agreement` | crates/bft-wire/src/vote.rs:358-433 | Both modes in one statement, under the protection each of them needs |
| `Safety.PoolsAgree` | crates/bft-wire/src/vote.rs:293-318 | With n = 3f + 1 and at most f faulty validators, or at most a third of the stake faulty and no saturation when votes are weighed: two nodes that tally independently, whatever they receive and in whatever order, never form verifying certificates for different headers at one (view, height) |
| `Safety.FormedFromReceived` | crates/bft-wire/src/vote.rs:293-318 | A pool can only aggregate signatures it received, under the labels it was asked for |
| `Safety.ThresholdSafeExactly` | crates/bft-wire/src/validators.rs:140-144 | More than f shared signers are forced for every pair of conflicting certificates if and only if n mod 3 = 1 |
| `Safety.ConflictWithFewFaults` | crates/bft-wire/src/validators.rs:140-144 | For every other set size, two accepted conflicting certificates whose shared signers number at most f |
| `Safety.AcceptedTimeoutMeans` | crates/bft-wire/src/timeout.rs:242-277 | An accepted timeout certificate names a quorum of known validators who all signed its view and high QC |
| `Safety.TimeoutOverlap` | crates/bft-wire/src/timeout.rs:242-277 | Two accepted timeout certificates share at least 4f + 2 - n signers |
| `Safety.SharedTimeoutsCaught` | crates/bft-wire/src/misbehavior.rs:153-175 | If two accepted timeout certificates of a view carry different high QCs, signatures taken from their aggregates convict every shared signer |
| `Safety.TimeoutAgreement` | crates/bft-wire/src/timeout.rs:242-277 | n = 3f + 1 and at most f faulty: all accepted timeout certificates of a view carry the same high QC |
| `Safety.HonestStayDisciplined` | crates/bft-wire/src/misbehavior.rs:15-21 | Validators that never sign against their own past never hold two equivocating signatures, over any run |
| `Safety.HonestNeverSlashed` | crates/bft-wire/src/misbehavior.rs:89-181 | No evidence assembled from the signatures of a run, by anyone, convicts an honest validator |
| `Safety.SlashableExactly` | crates/bft-wire/src/misbehavior.rs:101-181 | Some evidence built from the existing signatures is accepted against a validator if and only if it signed two equivocating messages |
| `Misbehavior.AcceptedEvidenceProvesFault` | crates/bft-wire/src/misbehavior.rs:101-181 | Accepted evidence of any of the three kinds carries two equivocating signatures of the validator it names |
| `Validators.CountQuorumsIntersect` | crates/bft-wire/src/validators.rs:140-144 | Two counted quorums overlap in at least 4f + 2 - n validators |
| `Validators.StakeQuorumsIntersect` | crates/bft-wire/src/quorum.rs:12-21 | Two stake quorums overlap in at least 2t - T of the stake, t being computed from the possibly wrapped machine total |
| `Validators.StakeThresholdSafeExactly` | crates/bft-wire/src/quorum.rs:12-21 | Every two stake quorums share more than a third of a given total, whatever the weights, if and only if three times the threshold exceeds twice the total |
| `Validators.LeastOverlap` | crates/bft-wire/src/quorum.rs:12-21 | For every other total, weights and two quorums that share at most a third |
| `Validators.StakeThresholdIsCeiling` | crates/bft-wire/src/quorum.rs:3-21 | Below saturation the stake threshold is the exact ceiling of T k / n |
| `Validators.StakeOverlapExceedsThird` | crates/bft-wire/src/quorum.rs:12-21 | At n = 3f + 1 the guaranteed stake overlap exceeds a third of the total |
| `Validators.QuorumMonotone` | crates/bft-wire/src/vote.rs:177-206 | The empty set is never a quorum and more votes never lose one, in both modes |
| `Validators.IndexOf` | crates/bft-wire/src/misbehavior.rs:89-97 | Finds the first validator with the fingerprint, and reports none only if there is none |
| `Votes.ScanSigners` | crates/bft-wire/src/vote.rs:376-405 | The signer loop reports the first duplicate or unknown index; otherwise it has collected every key and the saturated stake of exactly the signer set |
| `Votes.VerifyFormedQc` | crates/bft-wire/src/vote.rs:358-433 | The verifier reaches the specified verdict, error included, for every certificate, set and weight list |
| `Votes.AcceptedMeans` | crates/bft-wire/src/vote.rs:358-433 | Acceptance holds if and only if signers are distinct and known, form a quorum, and the aggregate is exactly their signatures over the certificate body |
| `Votes.AcceptedSignerSigned` | crates/bft-wire/src/vote.rs:420-431 | Every listed signer of an accepted certificate signed its body |
| `Votes.StakeOfKeys` | crates/bft-wire/src/vote.rs:193-204 | The saturating stake loop over a slot computes the capped weight of its key set |
| `Votes.SlotQuorumMet` | crates/bft-wire/src/vote.rs:177-206 | The slot test equals the quorum predicate the verifier uses, fallback to counting and length mismatch included |
| `Votes.VotePool.Record` | crates/bft-wire/src/vote.rs:222-258 | New pool and outcome are those of the specification, for accepted, duplicate, forged, unknown and mismatched votes |
| `Votes.VotePool.TryFormQc` | crates/bft-wire/src/vote.rs:293-318 | Forms a certificate from the slot exactly when it is a quorum and aggregates |
| `Votes.PrunedCertificates` | crates/bft-wire/src/vote.rs:326-341 | Pruning forms no new certificate, and one that verifies can still be formed, unchanged, if and only if its height reaches the bound |
| `Votes.RecordKeepsInv` | crates/bft-wire/src/vote.rs:222-258 | Stored votes stay filed under their own key and index with valid signatures |
| `Votes.PruneKeepsInv` | crates/bft-wire/src/vote.rs:326-341 | Pruning keeps the same invariant |
| `Votes.RecordStep` | crates/bft-wire/src/vote.rs:222-258 | A record never revokes a certificate, touches no other slot, and reports ReachedQuorum if and only if it is what makes one formable |
| `Votes.FormableIsQuorum` | crates/bft-wire/src/vote.rs:293-318 | In every valid pool a certificate can be formed if and only if the slot is a quorum |
| `Votes.FormableStays` | crates/bft-wire/src/vote.rs:293-318 | Without pruning, a slot that once yields a certificate always does |
| `Votes.AnnouncedAtFirstQuorum` | crates/bft-wire/src/vote.rs:222-258 | ReachedQuorum is announced at a step if and only if a certificate is formable from then on and was never before |
| `Votes.AnnouncedExactlyOnce` | crates/bft-wire/src/vote.rs:222-258 | Over any run a slot is announced at most once, and once if and only if it ends with a certificate |
| `Votes.PoolHoldsReceived` | crates/bft-wire/src/vote.rs:222-258 | Pools hold nothing but votes they were given |
| `Votes.FormedQcVerifiesExactly` | crates/bft-wire/src/vote.rs:293-318 | A formed certificate is accepted, in both modes, if and only if all votes of its slot name the height it was formed for |
| `Votes.PoolHoldsEntered` | crates/bft-wire/src/vote.rs:222-258 | At every point of a run the pool holds exactly the votes reported as recorded |
| `Votes.VerifiesUnlessSpoiled` | crates/bft-wire/src/vote.rs:222-318 | Over a run, the certificate of a slot verifies at a height if and only if no vote of another height has been recorded in the slot so far |
| `Votes.SpoiledForGood` | crates/bft-wire/src/vote.rs:222-318 | Once a vote of another height is recorded, every later certificate of its slot is refused |
| `Votes.OneVoteSpoils` | crates/bft-wire/src/vote.rs:222-318 | In every set of two or more, a run in which one validator alone names another height ends with a quorum whose certificates verify at no height |
| `Timeouts.TimeoutPool.Record` | crates/bft-wire/src/timeout.rs:133-163 | New pool and outcome are those of the specification on every path |
| `Timeouts.TimeoutPool.TryFormTimeoutCert` | crates/bft-wire/src/timeout.rs:171-199 | Forms a certificate exactly for a quorum slot whose timeouts agree on the high QC |
| `Timeouts.TimeoutPool.TryFormBestTimeoutCertForView` | crates/bft-wire/src/timeout.rs:201-231 | The search, in whatever order it visits slots, returns the candidate that beats all other candidates of the view, or none if there is none |
| `Timeouts.PrunedViews` | crates/bft-wire/src/timeout.rs:237-239 | A kept view forms the same certificates and has the same best one; a dropped view has none |
| `Timeouts.VerifyFormedTimeoutCert` | crates/bft-wire/src/timeout.rs:242-277 | Accepts exactly distinct known signers in quorum number who all signed this view and high QC |
| `Timeouts.RecordKeepsInv` | crates/bft-wire/src/timeout.rs:133-163 | Stored timeouts stay valid and filed under their own place |
| `Timeouts.QuorumSlotIsCandidate` | crates/bft-wire/src/timeout.rs:171-199 | In a pool of valid timeouts every quorum slot yields a certificate that verifies and carries the high QC of its key |
| `Timeouts.BestIsUniqueMaximum` | crates/bft-wire/src/timeout.rs:201-231 | A best certificate exists if and only if the view has a quorum slot; it verifies, is unique, and strictly beats every other quorum slot by (height, view, hash) |
| `Timeouts.BestRank` | crates/bft-wire/src/timeout.rs:201-231 | No candidate of the view certifies a greater height than the best one, none of its height a later view, none of both a greater hash |
| `Timeouts.AnnouncesFirstCert` | crates/bft-wire/src/timeout.rs:133-163 | A record reports ReachedQuorum if and only if it is what makes a certificate formable |
| `Timeouts.PoolHoldsValid` | crates/bft-wire/src/timeout.rs:133-163 | The pool holds exactly the valid timeouts received, each in its own place |
| `Timeouts.PoolDependsOnSetOnly` | crates/bft-wire/src/timeout.rs:133-163 | Two deliveries with the same set of valid timeouts give equal pools, whatever their order, repetitions and junk |
| `Merkle.MerkleRoot` | crates/core/src/merkle.rs:14-34 | The level-halving loop computes the root of the recursive tree |
| `Merkle.VerifyMerkleProof` | crates/core/src/merkle.rs:37-54 | Accepts exactly the proofs that climb from the leaf to the root |
| `Merkle.MerkleProof` | crates/core/src/merkle.rs:57-87 | Returns the sibling path of an index in range and nothing otherwise |
| `Merkle.MerklePathFromHashes` | crates/consensus/src/lib.rs:799-833 | Computes the same path as the core crate, or the empty path out of range |
| `Merkle.MerklePathLen` | crates/consensus/src/lib.rs:1386-1393 | Counts the levels of the tree |
| `Merkle.VerifyMerklePath` | crates/consensus/src/lib.rs:1395-1419 | Accepts exactly paths of the prescribed length that climb to the root from an index in range |
| `Merkle.PathComplete` | crates/core/src/merkle.rs:57-87 | Every leaf's path has the prescribed length and leads to the root |
| `Merkle.RootInjective` | crates/consensus/src/lib.rs:777-797 | Equal roots of equally long leaf lists imply equal lists |
| `Merkle.PathSound` | crates/consensus/src/lib.rs:1395-1419 | At the true leaf count an accepted path proves the leaf at that index, and it is the only such path |
| `Merkle.AcceptsPathExactly` | crates/consensus/src/lib.rs:1395-1419 | Acceptance at the true leaf count if and only if leaf and path are those of the index |
| `Merkle.ProvableExactlyMembers` | crates/core/src/merkle.rs:37-54 | Without any length check an item is provable if and only if it was hashed as a leaf |
| `Merkle.UncheckedAcceptsExactly` | crates/core/src/merkle.rs:37-54 | The core verifier accepts, for every index, exactly one item with exactly one proof: the item the index mirrors to |
| `Merkle.UncheckedIndexExactly` | crates/core/src/merkle.rs:37-54 | An item is provable at an index if and only if it is the mirrored one, which is the item at that index whenever the index is in range: without a length check the index is bound exactly inside the list |
| `Merkle.UncheckedIndexIsFree` | crates/core/src/merkle.rs:37-54 | For every list and every index outside it, the core verifier accepts some item and proof, and the length-checked verifier none |
| `Emission.DecayWeights` | crates/core/src/chain_economics.rs:435-443 | The loop produces the saturating geometric weights |
| `Emission.BudgetIsSplit` | crates/core/src/chain_economics.rs:405-426 | Quarter budgets are one proportional split of the pool by the weights |
| `Emission.ProjectedTotalExact` | crates/core/src/chain_economics.rs:429-433 | For every enabled valid profile the budgets sum to the pool, however products saturate |
| `Emission.EmissionExact` | crates/core/src/chain_economics.rs:361-386 | All blocks of the schedule together emit exactly the pool, and no later block emits anything |
| `Emission.SplitBlockExact` | crates/core/src/chain_economics.rs:388-402 | A block's emission is divided among the three pools without loss |
| `Emission.BudgetsNeverIncrease` | crates/core/src/chain_economics.rs:405-443 | Budgets never grow from quarter to quarter, the last aside |
| `Emission.BudgetIsTrueShare` | crates/core/src/chain_economics.rs:405-426 | A budget is the true floor share if and only if its product stays below the next multiple of the denominator after 2^128; it is never above it |
| `Emission.FloorShareIsProportionExactly` | crates/core/src/chain_economics.rs:417-425 | The same for any saturating product divided by any denominator |
| `Emission.LastQuarterNearShare` | crates/core/src/chain_economics.rs:417-425 | Without saturation the last budget is at least its floor share and exceeds it by less than the number of quarters |
| `Emission.MainnetIsBackloaded` | crates/core/src/chain_economics.rs:102-127 | The mainnet profile saturates: 39 quarters get at most 341 tokens each and the last more than 99.9 percent of the supply |
| `Emission.MainnetMissesItsShares` | crates/core/src/chain_economics.rs:102-127 | On the mainnet profile every quarter but the last falls short of its proportional share |
| `Emission.QuarterPartSteps` | crates/core/src/chain_economics.rs:370-386 | A quarter's base-plus-remainder block shares add up to its budget |
| `Emission.BlockEmission` | crates/core/src/chain_economics.rs:370-386 | Block r of quarter q emits an equal part of that quarter's budget, and one unit more exactly in the first blocks that share the remainder |
| `Emission.WeightsDecay` | crates/core/src/chain_economics.rs:435-443 | The weights start at 10^18 and each is the floor of the one before times the decay rate |
| `Arithmetic.SplitExact` | crates/core/src/state.rs:949-1000 | A floor split whose last part takes the remainder hands out exactly the amount, saturated products included |
| `StateMachine.State.ApplyTransfer` | crates/core/src/state.rs:544-572 | The object follows the ledger specification on every path; what that moves, account by account, is `LedgerMoves.TransferMoves` |
| `StateMachine.State.ApplyStake` | crates/core/src/state.rs:721-740 | Follows the ledger specification for an unknown signer, a short balance and success; tokens move from balance to stake (`Supply.StakeSupply`) |
| `StateMachine.State.ApplyUnstake` | crates/core/src/state.rs:741-759 | Follows the specification on every path; a nonce failure after the credit leaves the credit in place |
| `StateMachine.State.ApplyDelegate` | crates/core/src/state.rs:771-790 | Follows the specification on every path; tokens move from balance to the (signer, validator) entry |
| `StateMachine.State.ApplySlash` | crates/core/src/state.rs:760-770 | Follows the specification; only governance, or anyone when none is set, removes the stake |
| `StateMachine.State.ApplyRegisterAgent` | crates/core/src/state.rs:594-625 | Follows the specification; the id counter moves even when the call fails |
| `StateMachine.State.ApplySettleReceipt` | crates/core/src/state.rs:656-666 | Follows the specification: a new receipt draws the whole provider pool, a known one nothing |
| `StateMachine.State.CheckBatch` | crates/core/src/state.rs:868-894 | The checks before the debit, loops included, report the first reason to refuse |
| `StateMachine.State.CheckSignature` | crates/core/src/state.rs:895-906 | Refuses exactly a present signature of a registered operator that does not bind these roots |
| `StateMachine.State.ApplySettleBatch` | crates/core/src/state.rs:862-925 | Follows the specification; a bad signature is found after the debit and leaves it in place |
| `StateMachine.State.DistributeForReceipts` | crates/core/src/state.rs:927-1008 | Organic income, storage rollover and the two nested splits leave the specified books; what each receipt and worker gets is `ProviderShares.ReceiptsPaid` and `WorkersPaid` |
| `StateMachine.State.PayReceipts` | crates/core/src/state.rs:955-1006 | The loop with its two running totals pays each receipt its part of the two splits and saturates nowhere |
| `StateMachine.State.ApplyClaimPayout` | crates/core/src/state.rs:1240-1276 | Pays, marks and bumps, or refuses for the first reason that applies |
| `StateMachine.State.ApplyIntelligencePayout` | crates/core/src/state.rs:1110-1156 | Pool debit, primary payout and royalty as specified |
| `StateMachine.State.InsertLifePayout` | crates/core/src/state.rs:1158-1199 | Payout list and vesting book grow together under an id that contains the position |
| `StateMachine.State.ApplyProvenanceBond` | crates/core/src/state.rs:1201-1238 | Bonds at least the minimum, once per artifact |
| `StateMachine.State.ApplyLifeCommand` | crates/core/src/state.rs:1010-1108 | Deduplication, governance and economics in the code's order, for every kind of command |
| `StateMachine.State.RecordArtifact` | crates/core/src/state.rs:1071-1107 | Feedback artifacts and sealed sales are recorded once per payload; the other kinds change nothing |
| `StateMachine.State.MintProtocolEmission` | crates/core/src/state.rs:273-296 | Mints the block's emission into the pools or refuses at the cap |
| `StateMachine.State.ApplySetChainEconomics` | crates/core/src/state.rs:851-858 | Replaces the profile, by governance only |
| `StateMachine.State.ApplyNative` | crates/core/src/state.rs:587-860 | The dispatcher refines the ledger specification for every native call |
| `StateMachine.State.KeepRecord` | crates/core/src/state.rs:627-841 | The calls that only keep records end as specified, refusals changing nothing |
| `StateMachine.State.EditAgent` | crates/core/src/state.rs:627-655 | Only its owner updates an agent and only governance suspends one |
| `StateMachine.State.EditRecords` | crates/core/src/state.rs:681-841 | Disputes, wallet anchors and proof commitments are filed once and resolved by governance |
| `LedgerMoves.TransferMoves` | crates/core/src/state.rs:544-572 | A covered transfer takes the amount from the sender and gives it to the recipient, leaves every other account alone and moves the sender's nonce; to oneself it keeps the balance; any other transfer is refused for the first reason that applies and changes nothing |
| `LedgerMoves.FinishMoves` | crates/core/src/state.rs:507-514 | The nonce bump moves one nonce and no balance, or fails for an unknown signer |
| `LedgerMoves.StakeMoves` | crates/core/src/state.rs:721-740 | The amount moves from the signer's balance to the signer's stake, or nothing does |
| `LedgerMoves.UnstakeMoves` | crates/core/src/state.rs:741-759 | It moves back to the same signer, whose account is created if need be |
| `LedgerMoves.DelegateMoves` | crates/core/src/state.rs:771-790 | It moves to the entry of signer and validator |
| `LedgerMoves.ClaimMoves` | crates/core/src/state.rs:1240-1276 | An accepted claim pays the account its entry names, whoever sends it and with or without a nonce, and stays marked even if the sender is unknown |
| `LedgerMoves.SettleMoves` | crates/core/src/state.rs:862-925 | The operator and nobody else loses the batch total, also when the signature is refused; a settlement refused earlier changes nothing |
| `LedgerMoves.BondMoves` | crates/core/src/state.rs:1201-1238 | A bond of at least the minimum is taken from the signer and recorded in the signer's name, once per artifact |
| `LedgerMoves.RegisterMoves` | crates/core/src/state.rs:594-625 | A new agent is filed under the next id and found under its address; a known address is refused at the cost of an id |
| `LedgerMoves.ReceiptsFiled` | crates/core/src/state.rs:917-919 | A stored batch files all its receipts and forgets none |
| `LedgerMoves.MintMoves` | crates/core/src/state.rs:273-296 | Minting puts the provider's and the consensus share of the block into their own pools, the rest into the intelligence pool, and touches nothing else |
| `LedgerMoves.PayoutBeneficiaries` | crates/core/src/state.rs:1110-1199 | The soul gets the amount less the royalty and the counterparty the royalty, in this order, each unless it is zero, with the vesting entries to match |
| `ProviderShares.ReceiptsPaid` | crates/core/src/state.rs:945-1004 | Each receipt but the last is paid the floor of the compute budget times max(score, 1) over the sum of those, and an equal part of the transaction budget; together they are paid both budgets |
| `ProviderShares.WorkersPaid` | crates/core/src/state.rs:933-984 | A worker's organic income grows by the payouts of its own receipts and its subsidy income by what those receipts were paid |
| `ProviderShares.EmptyPoolPays` | crates/core/src/state.rs:930-944 | With an empty pool only organic income moves |
| `Supply.StepSupply` | crates/core/src/state.rs:587-860 | No single call, successful or failed, increases balances + stakes + delegations + bonds + unclaimed escrow by more than a stored batch total wraps |
| `Supply.SupplyNeverIncreases` | crates/core/src/state.rs:544-1276 | The same over every run, without hypotheses; if every batch sums to a u128 the total never increases, and no balance ever exceeds the initial total |
| `Supply.FreshSettleExactly` | crates/core/src/state.rs:862-925 | A batch stored under a new, unclaimed id increases the supply by exactly what its total wraps; so it creates nothing if and only if its amounts sum to a u128 |
| `Supply.UntouchedEscrow` | crates/core/src/state.rs:882-925 | Under an unclaimed id the escrow of a batch is the unwrapped sum of its amounts |
| `Supply.SlashSupply` | crates/core/src/state.rs:760-770 | A slash destroys exactly the validator's stake when authorised and nothing otherwise |
| `Supply.TransferSupply` | crates/core/src/state.rs:544-572 | A transfer, also to oneself, keeps the total exactly |
| `Supply.StoreSupply` | crates/core/src/state.rs:886-916 | The operator's debit covers everything the new root puts in escrow up to what the total wraps, a reused id included |
| `Supply.StoreExact` | crates/core/src/state.rs:886-916 | Storing a batch trades the debit and the old escrow of its id for the new escrow, to the unit |
| `Supply.ClaimedEscrow` | crates/core/src/state.rs:1240-1276 | An accepted claim takes at least its amount out of the escrow of its batch |
| `Escrow.StepBatches` | crates/core/src/state.rs:862-925 | Only a settlement that passes all checks changes batches, only an accepted claim the claim set |
| `Escrow.EscrowBound` | crates/core/src/state.rs:862-1276 | Over any run, what was paid under a batch id plus what can still be claimed never exceeds what was debited for it plus what its totals wrapped, reused ids and failed settlements included; the debits alone cover it if every batch sums to a u128 |
| `Escrow.DebitCoversExactly` | crates/core/src/state.rs:862-925 | The debit of a first settlement covers its claims if and only if the amounts sum to a u128 |
| `Escrow.WrappingInflates` | crates/core/src/state.rs:885-894 | Two entries of 2^127 settle for nothing in any state that knows the operator, and put 2^128 units in escrow |
| `Escrow.WrappingOverpays` | crates/core/src/state.rs:862-1276 | The operator then claims 2^127 units having been debited none |
| `Escrow.BatchesMatchHistory` | crates/core/src/state.rs:907-919 | The stored root of an id is that of the entries last settled under it |
| `Escrow.ClaimableExactly` | crates/core/src/state.rs:1240-1276 | In a reachable state some proof makes a claim succeed if and only if the entry is the one last settled under that id at that index and the index is unclaimed, for batches of any size and sum |
| `Escrow.ProvedEntry` | crates/core/src/state.rs:1254-1263 | The index is hashed with the entry, so a proof accepted at an index proves the entry at that index |
| `Escrow.ClaimsAreForever` | crates/core/src/state.rs:1264-1264 | Claim marks are never removed |
| `Escrow.PaidAtMostOnce` | crates/core/src/state.rs:1250-1253 | No (batch id, index) is paid twice in a run, even if the id is settled again |
| `EmissionLedger.RewardsExact` | crates/core/src/state.rs:955-1006 | The receipts of a settlement receive the compute and transaction budgets to the unit |
| `EmissionLedger.ProviderSplitExactly` | crates/core/src/state.rs:943-954 | A settlement hands out the provider pool without creating tokens if and only if the two floor budgets fit in it |
| `EmissionLedger.WorkSplitSafeExactly` | crates/core/src/state.rs:943-954 | A profile splits every pool exactly if and only if storage and compute take at most 10000 bps together |
| `EmissionLedger.PoolSplitSafeExactly` | crates/core/src/chain_economics.rs:388-402 | A profile divides every block's emission exactly if and only if provider and consensus shares take at most 10000 bps together |
| `EmissionLedger.RoyaltySafeExactly` | crates/core/src/state.rs:1110-1156 | Payouts add up to what left the intelligence pool, for every command, if and only if the first royalty hop takes at most 10000 bps |
| `EmissionLedger.ProvidersPaid` | crates/core/src/state.rs:927-1008 | Rewards and rollover use up the provider pool, and workers' incomes keep up with the reward list |
| `EmissionLedger.AddSubsidiesSum` | crates/core/src/state.rs:976-984 | The workers' income books grow by exactly the subsidies |
| `EmissionLedger.AppendPayoutsBooks` | crates/core/src/state.rs:1110-1199 | Primary payout and royalty add up to what left the intelligence pool, in the list and in the vesting book |
| `EmissionLedger.StepBalanced` | crates/core/src/state.rs:587-860 | Every call keeps the emission books balanced |
| `EmissionLedger.MintedIsAccountedFor` | crates/core/src/state.rs:273-296 | From empty books under any admissible profile, over any run with admissible splits: minted = three pools + rollover + subsidies + life payouts, at most the cap, and no saturating total ever saturates |
| `EmissionLedger.MintingFollowsSchedule` | crates/core/src/state.rs:273-296 | Minting every block once never meets the cap and has minted exactly the pool when the schedule ends |
| `Stake.StakeState.Deposit` | crates/core/src/consensus_stake.rs:11-43 | New books and outcome as specified on every path |
| `Stake.StakeState.Redelegate` | crates/core/src/consensus_stake.rs:171-209 | Follows the specification, with the early share debit of its late failures |
| `Stake.StakeState.Slash` | crates/core/src/consensus_stake.rs:242-262 | Stake, shares, queue, commission, credits and registration of the fingerprint are gone and nothing else |
| `Stake.StakeState.SetCommission` | crates/core/src/consensus_stake.rs:67-85 | Only the operator can set it and only up to the whole |
| `Stake.StakeState.Withdraw` | crates/core/src/consensus_stake.rs:88-105 | The credit moves to the balance and disappears |
| `Stake.StakeState.FindOperator` | crates/core/src/consensus_stake.rs:47-54 | The scan finds the specified operator |
| `Stake.OperatorIsLargest` | crates/core/src/consensus_stake.rs:47-54 | The operator outranks every other shareholder by (share, address) |
| `Stake.StakeState.DistributeReward` | crates/core/src/consensus_stake.rs:117-168 | Commission and compounding loop leave the specified books; what each owner gets is `StakeMoves.OwnersPaid` |
| `StakeShares.DepositShares` | crates/core/src/consensus_stake.rs:11-43 | A deposit keeps shares covered and moves no gap |
| `StakeShares.RedelegateShares` | crates/core/src/consensus_stake.rs:171-209 | A redelegation succeeds if and only if its share check passes, a refused one changes nothing, and no gap moves |
| `StakeShares.SlashShares` | crates/core/src/consensus_stake.rs:242-251 | A slash closes the gap of its fingerprint and leaves all others |
| `StakeShares.RewardShares` | crates/core/src/consensus_stake.rs:117-168 | A reward reaches stake and credits to the unit and widens a gap only where there is no shareholder, by exactly the reward |
| `StakeShares.SharesAlwaysCovered` | crates/core/src/consensus_stake.rs:11-251 | Over every run shares stay covered by stake; a gap is at most where it started plus rewards that fell on nobody, and exactly that without a slash |
| `StakeMoves.DepositMoves` | crates/core/src/consensus_stake.rs:11-43 | A deposit moves the amount from the signer's balance to the fingerprint's stake and the signer's share of it, or is refused and moves nothing |
| `StakeMoves.RedelegateMoves` | crates/core/src/consensus_stake.rs:171-209 | A redelegation moves the amount between two shares of one owner and between the two stakes, and nothing else |
| `StakeMoves.WithdrawMoves` | crates/core/src/consensus_stake.rs:88-105 | A withdrawal pays the signer's own credit and clears it |
| `StakeMoves.SlashMoves` | crates/core/src/consensus_stake.rs:242-262 | A slash wipes out everything of its fingerprint, queued entries included, and leaves every other entry as often as it was |
| `StakeMoves.CommissionSet` | crates/core/src/consensus_stake.rs:67-85 | A rate is set if and only if the leading holder asks for at most the whole, and for its fingerprint only |
| `StakeMoves.OperatorLeads` | crates/core/src/consensus_stake.rs:47-54 | The holder no other outranks is the operator |
| `StakeMoves.OwnersPaid` | crates/core/src/consensus_stake.rs:117-168 | The commission is credited to the leading holder and to no other; of the rest each holder gains the floor of its own share's proportion of the stake, the largest address what is left; nobody joins, and nothing moves at another fingerprint |
| `StakeMoves.UnownedReward` | crates/core/src/consensus_stake.rs:117-149 | Without shareholders the whole reward is stake and nobody is credited |
| `Finalize.PayMatured` | crates/core/src/block_finalize.rs:102-115 | Pays exactly the due entries in queue order and keeps the others |
| `Finalize.AnchorFresh` | crates/core/src/block_finalize.rs:117-122 | Gives exactly the fresh entries a release time |
| `Finalize.FinalizeBlock` | crates/core/src/block_finalize.rs:42-192 | The whole hook, burn and reaper record included, reaches the specified books and outcome, failures after the treasury debit included; who is paid is `BlockPayees.PayeesPaid` and `BlockPayees.OwnersUnbonded` |
| `Finalize.BurnBaseFee` | crates/core/src/block_finalize.rs:53-63 | The counter takes the whole saturated burn, the treasury only what it has |
| `Finalize.BurnCountedExactly` | crates/core/src/block_finalize.rs:53-63 | The burn counter equals what the treasury lost if and only if the treasury could pay the burn; nobody else pays |
| `Finalize.RecordReaperEpoch` | crates/core/src/block_finalize.rs:65-99 | The first block of an epoch, and no other, records it |
| `Finalize.ReaperLoggedOnce` | crates/core/src/block_finalize.rs:65-99 | However many blocks fall into an epoch, its record is written once |
| `Finalize.PayInOrder` | crates/core/src/block_finalize.rs:172-189 | The reward loop pays the specified split and stops at an unknown index |
| `Finalize.PayPartsExact` | crates/core/src/block_finalize.rs:172-189 | The parts before the first unknown index arrive in full, and the loop succeeds if and only if that is all of them |
| `Finalize.SplitRewardExact` | crates/core/src/block_finalize.rs:143-191 | A reward that has left the treasury reaches stake and credits but for exactly the parts not paid |
| `Finalize.BlockRewardConserved` | crates/core/src/block_finalize.rs:124-191 | On success the treasury debit equals the growth of stake plus credits, through both nested floor splits |
| `BlockPayees.PaysExactlyWhen` | crates/core/src/block_finalize.rs:124-191 | The reward phase succeeds if and only if there is nothing to pay, or the treasury can pay and every signer index is known |
| `BlockPayees.PayeesPaid` | crates/core/src/block_finalize.rs:143-191 | Validator by validator: the known parent signers and the proposer gain, in stake and credits, the floor of the reward times max(stake, 1) over the weight of all of them, the last what the others leave; every other fingerprint gains nothing |
| `BlockPayees.FirstPaidAlone` | crates/core/src/block_finalize.rs:155-160 | With neither signers nor a known proposer the first validator gains the whole reward |
| `BlockPayees.RewardWorth` | crates/core/src/consensus_stake.rs:117-168 | A reward on a fingerprint is worth itself there, in stake and credits, and nothing elsewhere |
| `BlockPayees.OwnersUnbonded` | crates/core/src/block_finalize.rs:102-115 | A block pays each owner exactly its own due entries |
| `Unbonding.QueueIsOutstanding` | crates/core/src/block_finalize.rs:102-122 | At every point of a run the queue is exactly the requests not yet paid, in order, with their release times |
| `Unbonding.BlocksPayTheSchedule` | crates/core/src/block_finalize.rs:102-122 | Each block pays exactly the requests scheduled for it |
| `Unbonding.ScheduleMeaning` | crates/core/src/block_finalize.rs:102-122 | The schedule is: one block only, strictly after the anchoring block, the first whose time reaches anchor time plus the period then in force |
| `Unbonding.UnbondConserved` | crates/core/src/block_finalize.rs:102-122 | Payouts move tokens from queue to balances without loss |
| `StakeEconomy.EffectiveBound` | crates/core/src/block_finalize.rs:157-170 | Effective weights of distinct validators add up to at most the stake plus one per index |
| `StakeEconomy.RewardPhaseHoldings` | crates/core/src/block_finalize.rs:124-191 | The reward phase creates nothing and loses exactly the parts not yet paid when it fails; when it succeeds it loses none if and only if there was a validator to pay or nothing to pay |
| `StakeEconomy.BlockHoldings` | crates/core/src/block_finalize.rs:42-192 | The same for a whole finalized block: holdings shrink by exactly what is burned and what is left unpaid |
| `StakeEconomy.StepHoldings` | crates/core/src/consensus_stake.rs:11-262 | Every staking step keeps the share invariant and creates nothing |
| `StakeEconomy.EconomyNeverInflates` | crates/core/src/block_finalize.rs:42-192 | Over any run of deposits, redelegations, commission changes, withdrawals, slashes and blocks, balances + stake + credits + queue never grow, and stay equal over lossless steps |
| `Life.LifeState.ChargeRents` | crates/agent-life/src/lib.rs:272-306 | Exactly the living are charged, once, with the shortfall becoming debt |
| `Life.LifeState.AccrueInterest` | crates/agent-life/src/lib.rs:711-748 | Accepted loans accrue in id order as specified |
| `Life.LifeState.MarkInsolventSouls` | crates/agent-life/src/lib.rs:750-790 | Every soul ends up marked by the rule |
| `Life.LifeState.SpawnUnbornHeirs` | crates/agent-life/src/lib.rs:792-823 | One child per unborn heir, in will order |
| `Life.LifeState.SettleInheritance` | crates/agent-life/src/lib.rs:580-628 | Estate and settlement record as specified; who takes the estate is `Inheritance.WhoInherits` |
| `Life.LifeState.PayInheritance` | crates/agent-life/src/lib.rs:600-613 | The dust loop pays equal parts with one unit more for the first heirs |
| `Life.LifeState.KillAndSettle` | crates/agent-life/src/lib.rs:652-676 | One death: mark, spawn, settle, in this order |
| `Life.LifeState.ReaperEpoch` | crates/agent-life/src/lib.rs:630-676 | The pass refines its specification from any state, and every accepted loan has grown by one epoch of interest |
| `Life.LifeState.Prepare` | crates/agent-life/src/lib.rs:636-651 | Rent, interest and marks in this order, loans included |
| `Life.AccrueGrowsLoans` | crates/agent-life/src/lib.rs:711-748 | Every accepted loan grows once, whatever the other loans and the souls |
| `Reaper.RentConserves` | crates/agent-life/src/lib.rs:272-306 | Balances lost to rent are the rent collected |
| `Reaper.KinLives` | crates/agent-life/src/lib.rs:538-578 | All heirs the rule selects exist and live, and the dead soul is never its own heir; which souls they are is `Inheritance.KinOrder` |
| `Reaper.PayHeirsAdds` | crates/agent-life/src/lib.rs:600-613 | The heirs receive the estate to the unit |
| `Reaper.SettleConserves` | crates/agent-life/src/lib.rs:580-628 | A settlement moves or burns exactly the estate |
| `Reaper.SpawnAdds` | crates/agent-life/src/lib.rs:792-823 | Spawning adds one grant per heir and touches nobody else |
| `Reaper.DieConserves` | crates/agent-life/src/lib.rs:652-676 | One death conserves up to grants and burned remainder |
| `Inheritance.WhoInherits` | crates/agent-life/src/lib.rs:538-628 | The living heirs named in the first will take the estate and nobody else does; if none lives, the living children, newborn included; if none, the living siblings in ascending order; if none, it is burned; each place in the list brings an equal part, the first ones one unit more, and the settlement record says so |
| `Inheritance.InheritsAtTurn` | crates/agent-life/src/lib.rs:652-676 | The same at every turn of an epoch, however many deaths came before it |
| `Inheritance.KinOrder` | crates/agent-life/src/lib.rs:538-578 | The order of precedence, stated on the souls before the death |
| `Inheritance.GainOnce` | crates/agent-life/src/lib.rs:600-613 | In a list without repetitions each heir gains the part of its place, and nobody else anything |
| `Inheritance.FirstWillCounts` | crates/agent-life/src/lib.rs:542-549 | The will that counts is the first one of the soul |
| `Inheritance.SortedSorts` | crates/agent-life/src/lib.rs:565-575 | Siblings are listed in ascending order, each as often as in the lineage |
| `SoulCharges.RentIsDue` | crates/agent-life/src/lib.rs:285-294 | Rent is the floor of the discounted sum of base rent and rent per started kilobyte, and nothing at a full discount |
| `SoulCharges.RentSplits` | crates/agent-life/src/lib.rs:295-297 | A soul pays out of its balance and owes exactly what the balance does not cover |
| `SoulCharges.InterestIsDue` | crates/agent-life/src/lib.rs:724-730 | Interest is the ceiling of the outstanding amount times the larger of the two rates |
| `SoulCharges.DebtsGrow` | crates/agent-life/src/lib.rs:711-748 | Each soul's debt grows by the interest of its own accepted loans and nothing else of it changes |
| `SoulCharges.FateExactly` | crates/agent-life/src/lib.rs:652-676 | A living soul is condemned by age exactly from its natural end on, and for insolvency exactly before that end and after the grace period |
| `Reaper.ReaperConserves` | crates/agent-life/src/lib.rs:630-676 | Through any cascade: balances after + rent + burned = balances before + grants; a soul alive at the death loop is dead after it if and only if its natural end or its grace had come, and then holds nothing |
| `InsolvencyTrace.QuarantinedExactly` | crates/agent-life/src/lib.rs:750-790 | Right after marking a living soul is quarantined, and carries a date, if and only if it has debt and no balance |
| `InsolvencyTrace.RunTracks` | crates/agent-life/src/lib.rs:630-676 | Over any run every insolvency date is backed by an unbroken series of passes |
| `InsolvencyTrace.InsolventDeathHasTrace` | crates/agent-life/src/lib.rs:664-676 | A death for insolvency is preceded by a finding at least the grace period earlier, confirmed by every pass since |
| `DataAvailability.BuildDaSidecar` | crates/consensus/src/lib.rs:1545-1600 | The chunk, pad and encode loops build the specified sidecar |
| `DataAvailability.ReconstructDaPayload` | crates/consensus/src/lib.rs:1737-1788 | The share checks, slot filling and truncation reach the specified result, with the first error |
| `DataAvailability.DaRoundTrip` | crates/consensus/src/lib.rs:1545-1819 | Any genuine shares, in any order and with repetitions, give back exactly the payload if they cover enough distinct indices, and InsufficientShares if not |
| `DataAvailability.EmptyRoundTrip` | crates/consensus/src/lib.rs:1545-1819 | The empty payload round-trips whatever shares are offered |
| `DataAvailability.RepetitionIsCorrect` | crates/consensus/src/lib.rs:1571-1579 | The assumption on the codec can be met, shown by the repetition code for one data shard and any number of parity shards |
| `DataAvailability.DeterministicSampleIndexes` | crates/consensus/src/lib.rs:1421-1429 | The generator loop yields the indexes the seed determines |
| `DataAvailability.BuildDaSamplingReceipt` | crates/consensus/src/lib.rs:1431-1472 | Builds the specified receipt or the first error |
| `DataAvailability.VerifyDaSamplingReceipt` | crates/consensus/src/lib.rs:1474-1515 | Reports the first complaint, or none |
| `DataAvailability.ReceiptAcceptedExactly` | crates/consensus/src/lib.rs:1474-1515 | At the true share count a receipt is accepted if and only if every sample is the sidecar's own commitment and path at the index the seed selects |
| `DataAvailability.BuiltReceiptVerifies` | crates/consensus/src/lib.rs:1431-1515 | Every receipt built over a well-indexed non-empty sidecar verifies, for any seed and sample count |

## Left out

- Cryptography: keccak, BLS, ed25519 and Reed-Solomon are replaced by ideal terms and one codec hypothesis.
- EVM execution, transaction scopes, the nonce check of the transaction wrapper and owned-object versions.
- Record identifiers, events, reports, and the fields of receipts, agents, disputes and life records that no modelled branch reads; settlements of the reaper are a list rather than a map by identifier.
- Registration of validators and the listings of permissionless ones.
- Overflow of plain additions to balances, stakes and delegations: `Supply.SupplyNeverIncreases` shows that it cannot happen from a total within a `u128` while batches sum to a `u128`; past a batch that wraps, the model goes on with unbounded amounts.
- Loan principal, repayment, owner top-ups and life extensions of souls: accepting a loan credits the borrower without debiting the lender, so no conservation claim covers them; `InsolvencyTrace` admits them as arbitrary edits between passes.
- Heir identifiers are an injective function of the dead soul and the position instead of a formatted string, and soul status is one of three values instead of a string.
- Slashing of queued unbonding entries within the schedule theorem: `Unbonding` covers runs without a slash.
- Pruning within the tally theorems: `Votes.AnnouncedExactlyOnce` covers runs without it; what pruning keeps is in `Votes.PrunedCertificates`.
- Leader rotation, `validator_set_from_registry`, `prune_view`.
- Validity proofs, payload digests, block building and replay in `crates/consensus`.
- The HyperBFT pipeline and optimistic modules, which are not part of the build of their crate.
- DataAvailability.RepetitionIsCorrect: gives a correct codec for one data shard only; for more the codec stays a hypothesis.

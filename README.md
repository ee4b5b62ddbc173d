# HotStuff signature verification, block production and helpers — a Dafny model

This project models five pieces of a HotStuff-family consensus node written in Go:

- **Staking-signature verifier** (`StakingSig`, `stakingsig_verifier.dfy`). It checks one BLS staking signature against the bytes of a full block. It also checks an "aggregate", which is a list of signatures paired with a list of signer keys. Each Go `(bool, error)` result is a `Check(valid, err)`. The aggregate check is a method with a loop. It is proved equal to a recursive scan (`ScanFrom`), and lemmas describe that scan without reference to its steps.
- **Block proposal producer** (`BlockProducer`, `block_producer.dfy`). It derives the parent id from the certified block and asks the builder for a payload. It sets the height to the parent's height plus one, as a wrapping `uint64`. It assembles the block, wraps it with the empty consensus payload and signs it.
- **Transaction pool** (`TxPool`, `txpool.dfy`). A class whose `transactions` map, keyed by transaction hash, is updated in place by `Insert` and `Remove`.
- **Message converters** (`Proto` and `Types` in `messages.dfy`; `Messageable` in `messageable.dfy`). Field-copying conversions between wire messages and internal values, with round-trip and order-preservation lemmas. Also the stub converters, which return empty values.
- **Request qualifiers** (`Requester`, `requester.dfy`). An attempt bound and a retry-after time check.

`Base` (`base.dfy`) holds `uint64`, bytes, `Option` and `Result`.

Foreign code becomes function-typed parameters or datatype fields, so every statement holds whatever that code computes from its arguments. This covers the BLS `Verify`, the KMAC hasher, `BlockToBytesForSign`, `flow.HashToID`, `BlockMRH`, the builder, the signer, `GetSelfIdxForView`, `tx.Hash()`, `crypto.BytesToHash`/`BytesToSig` and `Bytes()`. Where a round trip needs `BytesToHash` to invert `Bytes()`, that inverse is a hypothesis of the lemma and holds only for the values at hand. The clock read by `RetryAfterQualifier` is an explicit `now` argument.

Three facts about the code shape the model:

- The producer does not compare the parent's view with the requested view, so a parent whose view is not below it still yields a proposal (`BlockProducer.NoParentViewCheck`).
- A builder error makes the producer panic. The model returns the `BuilderPanic` outcome, which carries the builder's error.
- The single-signature check returns `(bool, error)` and not a bool alone, so an invalid signature (`false`, no error) stays distinct from a failure of the primitive (`false` with an error).

## Model

| member | source | states |
|---|---|---|
| StakingSig.NewStakingSigVerifier | engine/consensus/hotstuff/signature/stakingsig_verifier.go:20-24 | the verifier's hasher is the one the KMAC constructor builds from the tag, fixed once for all later checks |
| StakingSig.VerifyStakingSig | engine/consensus/hotstuff/signature/stakingsig_verifier.go:37-44 | checks against the block's own signing bytes with the verifier's hasher: a primitive error gives false with the wrapped error; otherwise the primitive's validity with no error; never true with an error |
| StakingSig.ScanFrom | engine/consensus/hotstuff/signature/stakingsig_verifier.go:69-81 | the in-order scan from index i is never true with an error, and any error it returns is an aggregate error naming an index between i and the list end |
| StakingSig.AggregatedVerdict | engine/consensus/hotstuff/signature/stakingsig_verifier.go:57-82 | lists of unequal length give false with no error; the verdict is never true with an error |
| StakingSig.VerifyAggregatedStakingSignature | engine/consensus/hotstuff/signature/stakingsig_verifier.go:57-82 | the loop with early returns computes exactly the aggregate verdict (length check, one message from the block, first non-accepted pair decides) |
| StakingSig.ScanFromAccepts | engine/consensus/hotstuff/signature/stakingsig_verifier.go:69-81 | the scan from i accepts iff every pair from i on is valid with no error |
| StakingSig.ScanFromFirstRejection | engine/consensus/hotstuff/signature/stakingsig_verifier.go:69-80 | if pairs i..k-1 are accepted and pair k is not, the scan from i returns pair k's error wrapped with index k, or false with no error when pair k is merely invalid |
| StakingSig.AggregateAcceptsIff | engine/consensus/hotstuff/signature/stakingsig_verifier.go:62-81 | the aggregate is (true, nil) iff the lengths match and every pair i verifies valid with no error against the block's bytes under the verifier's hasher |
| StakingSig.FirstRejectionDecides | engine/consensus/hotstuff/signature/stakingsig_verifier.go:69-80 | the first index whose check is not accepted decides: its error (with the index) gives (false, error), mere invalidity gives (false, nil) |
| StakingSig.LaterPairsNotExamined | engine/consensus/hotstuff/signature/stakingsig_verifier.go:69-80 | changing the pairs after the first rejected one, or what the primitive says about them, does not change the verdict |
| StakingSig.LengthMismatchIsFalseNotError | engine/consensus/hotstuff/signature/stakingsig_verifier.go:62-64 | mismatched signature and key counts give false, not an error |
| StakingSig.EmptyAggregateAccepted | engine/consensus/hotstuff/signature/stakingsig_verifier.go:62-81 | two empty lists verify as (true, nil) |
| StakingSig.SingletonMatchesSingle | engine/consensus/hotstuff/signature/stakingsig_verifier.go:37-82 | a one-pair aggregate has the same validity as the single check on that pair, and errs exactly when it does, with the same underlying error |
| StakingSig.OnlyTheBlockBytesMatter | engine/consensus/hotstuff/signature/stakingsig_verifier.go:38-66 | both checks see the block only through its signing bytes: blocks with equal bytes get equal verdicts |
| BlockProducer.NewBlockProposalProducer | engine/consensus/hotstuff/block_producer.go:19-27 | construction never fails and keeps signer, view state, builder and chain id |
| BlockProducer.MakeBlockProposal | engine/consensus/hotstuff/block_producer.go:29-69 | a builder error yields no proposal (the panic, carrying that error); otherwise the block has the requested view, the parent's QC, the builder's payload for the parent id, parent height + 1 (wrapping to 0 at the uint64 top), the chain id, the empty consensus payload, and the signer's signature over that unsigned proposal for the self index of the view |
| BlockProducer.ParentID | engine/consensus/hotstuff/block_producer.go:43 | the parent identifier is `HashToID` of the certified block's Merkle root hash, read from the block and not from the QC |
| BlockProducer.MakeBlockForView | engine/consensus/hotstuff/block_producer.go:40-54 | a block exists exactly when the builder succeeds on the parent id, and a failure carries the builder's error; the block has the requested view, the parent's QC, the builder's payload hash, the parent's height + 1 as a wrapping uint64, and the producer's chain id |
| BlockProducer.Propose | engine/consensus/hotstuff/block_producer.go:56-62 | the unsigned proposal carries the block unchanged and the empty consensus payload |
| BlockProducer.SignBlockProposal | engine/consensus/hotstuff/block_producer.go:64-69 | the signed proposal carries the unsigned proposal's block and consensus payload, and the signer's signature over that proposal for the self index of the proposal's view |
| BlockProducer.HeightIsParentPlusOne | engine/consensus/hotstuff/block_producer.go:49-50 | below the uint64 top, a successful proposal's height is exactly the parent's height plus one |
| BlockProducer.NoParentViewCheck | engine/consensus/hotstuff/block_producer.go:41-53 | a parent whose view is not below the requested view still yields a proposal for the requested view |
| BlockProducer.ParentEntersOnlyThroughQCHeightAndID | engine/consensus/hotstuff/block_producer.go:41-53 | parents with the same QC, height and identifier give the same proposal when the builder answers their parent id the same way |
| Base.AddU64 | engine/consensus/hotstuff/block_producer.go:50 | uint64 addition: the exact sum when it fits, the sum minus 2^64 when it does not |
| TxPool.TxPool.constructor | internal/roles/collect/txpool/txpool.go:19-23 | a new pool holds no transactions |
| TxPool.TxPool.Insert | internal/roles/collect/txpool/txpool.go:26-31 | the map becomes the old map with tx stored under its hash (overwriting); other hashes unchanged; re-inserting the stored tx changes nothing; every entry stays under its own transaction's hash |
| TxPool.TxPool.Get | internal/roles/collect/txpool/txpool.go:33-37 | returns the transaction stored under the hash, or the zero transaction when there is none; in a valid pool a found transaction's own hash is the one looked up |
| TxPool.TxPool.Contains | internal/roles/collect/txpool/txpool.go:39-47 | true exactly when the hash is a key of the pool |
| TxPool.TxPool.Remove | internal/roles/collect/txpool/txpool.go:49-57 | the map becomes the old map minus the listed hashes: listed hashes absent, unlisted entries unchanged, absent hashes a no-op |
| TxPool.InsertThenLookUp | internal/roles/collect/txpool/txpool.go:26-47 | after inserting tx, Contains of its hash is true and Get of its hash returns tx |
| TxPool.RemoveThenLookUp | internal/roles/collect/txpool/txpool.go:33-57 | after removing a list of hashes, Contains is false for each and Get returns the zero transaction |
| Messageable.RegisterRoundTrip | grpc/utils/messageable.go:9-21 | an internal register converted to a message and back is the register itself |
| Messageable.RegisterMessageRoundTrip | grpc/utils/messageable.go:9-21 | a register message converted to the internal value and back is the message itself |
| Messageable.RegisterFromMessage | grpc/utils/messageable.go:9-14 | copies the id and the value |
| Messageable.RegisterToMessage | grpc/utils/messageable.go:16-21 | copies the id and the value |
| Messageable.RegistersFromMessage | grpc/utils/messageable.go:24-27 | the converted list has the message's length, element i being register i converted |
| Messageable.RegistersToMessage | grpc/utils/messageable.go:37-40 | the message list has the value's length, element i being register i converted |
| Messageable.RegistersRoundTrip | grpc/utils/messageable.go:23-47 | register lists round-trip in both directions |
| Messageable.IntermediateRegistersFromMessage | grpc/utils/messageable.go:23-34 | keeps ComputeUsed, keeps the number and order of registers converting each, and reads the hash with BytesToHash |
| Messageable.IntermediateRegistersToMessage | grpc/utils/messageable.go:36-47 | keeps ComputeUsed, keeps the number and order of registers converting each, and writes the hash's bytes |
| Messageable.IntermediateRegistersRoundTrip | grpc/utils/messageable.go:23-47 | an internal value round-trips when BytesToHash inverts Bytes on its hash |
| Messageable.IntermediateRegistersMessageRoundTrip | grpc/utils/messageable.go:23-47 | a message round-trips when its hash bytes are well-formed |
| Messageable.PartTransactionsFromMessage | grpc/utils/messageable.go:114-117 | same length and order, each element converted by the IntermediateRegisters converter |
| Messageable.PartTransactionsToMessage | grpc/utils/messageable.go:129-132 | same length and order, each element converted by the IntermediateRegisters converter |
| Messageable.InvalidExecutionReceiptChallengeFromMessage | grpc/utils/messageable.go:113-126 | keeps PartIndex, and the length and order of PartTransactions, each converted; the receipt hash and both signatures are read from their bytes |
| Messageable.InvalidExecutionReceiptChallengeToMessage | grpc/utils/messageable.go:128-141 | keeps PartIndex, and the length and order of PartTransactions, each converted; the receipt hash and both signatures are written as bytes |
| Messageable.InvalidExecutionReceiptChallengeRoundTrip | grpc/utils/messageable.go:113-141 | a challenge round-trips when its hashes and signatures, the nested ones included, survive the trip through bytes |
| Messageable.InvalidExecutionReceiptChallengeMessageRoundTrip | grpc/utils/messageable.go:113-141 | a challenge message round-trips when all its hash and signature bytes are well-formed |
| Messageable.ResultApprovalFromMessage | grpc/utils/messageable.go:143-151 | copies BlockHeight and Proof unchanged; the hash and both signatures are read from their bytes |
| Messageable.ResultApprovalToMessage | grpc/utils/messageable.go:153-161 | copies BlockHeight and Proof unchanged; the hash and both signatures are written as bytes |
| Messageable.ResultApprovalRoundTrip | grpc/utils/messageable.go:143-161 | BlockHeight and Proof are copied unchanged in both directions; with the hash and signature conversions inverse on the values at hand, both round trips are the identity |
| Messageable.TransactionRegisterFromMessage | grpc/utils/messageable.go:49-51 | returns the empty TransactionRegister whatever the message |
| Messageable.TransactionRegisterToMessage | grpc/utils/messageable.go:53-55 | returns the empty TransactionRegister message whatever the value |
| Messageable.CollectionFromMessage | grpc/utils/messageable.go:57-59 | returns the empty Collection whatever the message |
| Messageable.CollectionToMessage | grpc/utils/messageable.go:61-63 | returns the empty Collection message whatever the value |
| Messageable.SignedCollectionHashFromMessage | grpc/utils/messageable.go:65-67 | returns the empty SignedCollectionHash whatever the message |
| Messageable.SignedCollectionHashToMessage | grpc/utils/messageable.go:69-71 | returns the empty SignedCollectionHash message whatever the value |
| Messageable.BlockFromMessage | grpc/utils/messageable.go:73-75 | returns the empty Block whatever the message |
| Messageable.BlockToMessage | grpc/utils/messageable.go:77-79 | returns the empty Block message whatever the value |
| Messageable.BlockSealFromMessage | grpc/utils/messageable.go:81-83 | returns the empty BlockSeal whatever the message |
| Messageable.BlockSealToMessage | grpc/utils/messageable.go:85-87 | returns the empty BlockSeal message whatever the value |
| Messageable.TransactionFromMessage | grpc/utils/messageable.go:89-91 | returns the empty Transaction whatever the message |
| Messageable.TransactionToMessage | grpc/utils/messageable.go:93-95 | returns the empty Transaction message whatever the value |
| Messageable.SignedTransactionFromMessage | grpc/utils/messageable.go:97-99 | returns the empty SignedTransaction whatever the message |
| Messageable.SignedTransactionToMessage | grpc/utils/messageable.go:101-103 | returns the empty SignedTransaction message whatever the value |
| Messageable.ExecutionReceiptFromMessage | grpc/utils/messageable.go:105-107 | returns the empty ExecutionReceipt whatever the message |
| Messageable.ExecutionReceiptToMessage | grpc/utils/messageable.go:109-111 | returns the empty ExecutionReceipt message whatever the value |
| Messageable.StubsYieldEmpty | grpc/utils/messageable.go:49-111 | all sixteen stub converters return the empty value whatever the input |
| Messageable.StubsDoNotRoundTrip | grpc/utils/messageable.go:49-111 | for each of the eight stub types, a round trip returns the message unchanged only when the message is already empty |
| Requester.MaxAttemptQualifier | engine/verification/requester/utils.go:9-13 | the qualifier accepts exactly when attempts < maxAttempts, for all times |
| Requester.RetryAfterQualifier | engine/verification/requester/utils.go:15-19 | the qualifier accepts exactly when lastAttempt + retryAfter is strictly before now, for every attempt count |
| Requester.ZeroMaxAttemptsRejectsAll | engine/verification/requester/utils.go:9-13 | with maxAttempts = 0 nothing qualifies |
| Requester.MaxAttemptIgnoresTimeAndIsMonotone | engine/verification/requester/utils.go:10-11 | the verdict is the same for any times, and accepting a attempts implies accepting every a' <= a |
| Requester.RetryAfterIgnoresAttemptsAndNeedsStrictlyLater | engine/verification/requester/utils.go:15-19 | the verdict does not depend on the attempt count; now equal to lastAttempt + retryAfter rejects, one nanosecond later accepts |

## Left out

- BLS cryptography: `Verify`, `NewBLS_KMAC` and `BlockToBytesForSign` are foreign, so they are parameters. Nothing is claimed about unforgeability or domain separation, beyond every check using the verifier's one hasher.
- `flow.HashToID`, `BlockMRH`, `tx.Hash()`, `crypto.BytesToHash`/`BytesToSig` and `Bytes()` are foreign and are parameters. The Go map key `string(hash.Bytes())` is taken to be the hash itself.
- Error texts: the `fmt.Errorf` wrappings are the constructors `StakingSigError` and `AggregatedSigError(index, cause)`, not strings.
- BlockProducer.MakeBlockProposal: does not state that the builder is called exactly once. A pure model cannot count calls. It states that the payload is the builder's answer for the parent id.
- BlockProducer.MakeBlockProposal: a panic is modelled as the `BuilderPanic` outcome, not as unwinding the caller's stack.
- BlockProducer.ParentEntersOnlyThroughQCHeightAndID: the builder and the view state are modelled as fixed functions of their argument. The Go builder reads a mutable mempool, so the lemma compares only calls that see the same builder answers.
- BlockProducer.MakeBlockProposal: "embeds exactly the QC" is value equality, not identity of the Go pointer.
- The fields of `QuorumCertificate`, `ConsensusPayload`, `SignedTransaction` and the stub message types are not visible in these files. Each of these types carries placeholder fields. The empty consensus payload and the zero transaction are the values with empty content.
- TxPool: the `sync.RWMutex` is not modelled, because the operations are modelled as sequential. The missing lock in `Get` is a concurrency concern and is out of scope.
- Messageable: nil message pointers and nil list elements are not modelled. Go's nil-safe getters return zero fields in those cases.
- Requester: time is an integer count of nanoseconds. Go's monotonic clock reading and the overflow behaviour of `time.Time.Add` are not modelled.
- The rest of the repository is not part of this model. That includes the network engines, the emulator RPC server, the marketplace simulator, the bootstrap CLI, the storage adapters and the generated mocks. The vote/QC aggregator and the committee and leader logic are missing from these files, so they are not part of this model either.

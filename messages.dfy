/**
 * The two sides of the message converters: the wire messages (`Proto`) and
 * the node's internal types (`Types`).  Where the converters copy fields the
 * fields are modelled; the types whose converters are stubs carry one opaque
 * `content` field that stands for whatever fields they have.
 */
module Proto {
  import opened Base

  datatype Register = Register(id: Bytes, value: Bytes)

  datatype IntermediateRegisters = IntermediateRegisters(
    transactionHash: Bytes,
    registers: seq<Register>,
    computeUsed: uint64)

  datatype InvalidExecutionReceiptChallenge = InvalidExecutionReceiptChallenge(
    executionReceiptHash: Bytes,
    executionReceiptSignature: Bytes,
    partIndex: uint64,
    partTransactions: seq<IntermediateRegisters>,
    signature: Bytes)

  datatype ResultApproval = ResultApproval(
    blockHeight: uint64,
    executionReceiptHash: Bytes,
    resultApprovalSignature: Bytes,
    proof: Bytes,
    signature: Bytes)

  datatype TransactionRegister = TransactionRegister(content: Bytes)
  datatype Collection = Collection(content: Bytes)
  datatype SignedCollectionHash = SignedCollectionHash(content: Bytes)
  datatype Block = Block(content: Bytes)
  datatype BlockSeal = BlockSeal(content: Bytes)
  datatype Transaction = Transaction(content: Bytes)
  datatype SignedTransaction = SignedTransaction(content: Bytes)
  datatype ExecutionReceipt = ExecutionReceipt(content: Bytes)
}

module Types {
  import opened Base

  /** `crypto.Hash`; its representation is not part of this model. */
  datatype Hash = Hash(digest: Bytes)

  /** `crypto.Signature`; its representation is not part of this model. */
  datatype Signature = Signature(raw: Bytes)

  datatype Register = Register(id: Bytes, value: Bytes)

  datatype IntermediateRegisters = IntermediateRegisters(
    transactionHash: Hash,
    registers: seq<Register>,
    computeUsed: uint64)

  datatype InvalidExecutionReceiptChallenge = InvalidExecutionReceiptChallenge(
    executionReceiptHash: Hash,
    executionReceiptSignature: Signature,
    partIndex: uint64,
    partTransactions: seq<IntermediateRegisters>,
    signature: Signature)

  datatype ResultApproval = ResultApproval(
    blockHeight: uint64,
    executionReceiptHash: Hash,
    resultApprovalSignature: Signature,
    proof: Bytes,
    signature: Signature)

  datatype TransactionRegister = TransactionRegister(content: Bytes)
  datatype Collection = Collection(content: Bytes)
  datatype SignedCollectionHash = SignedCollectionHash(content: Bytes)
  datatype Block = Block(content: Bytes)
  datatype BlockSeal = BlockSeal(content: Bytes)
  datatype Transaction = Transaction(content: Bytes)
  datatype SignedTransaction = SignedTransaction(content: Bytes)
  datatype ExecutionReceipt = ExecutionReceipt(content: Bytes)
}

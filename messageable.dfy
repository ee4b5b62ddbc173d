/**
 * Converters between wire messages and internal types, each a `FromMessage`
 * (message to internal value) and a `ToMessage` (internal value to message).
 *
 * Hashes and signatures cross the boundary through foreign conversions
 * (`crypto.BytesToHash`, `crypto.BytesToSig`, and the values' `Bytes()`); a
 * `CryptoCodec` carries them.  Nothing is known of them, so a round trip is
 * proved under the hypothesis that they invert each other on the values at
 * hand.  The lists of nested values, which the Go converters build by
 * appending inside a loop, are sequence maps that keep length and order.
 */
module Messageable {
  import opened Base
  import Proto
  import Types

  datatype CryptoCodec = CryptoCodec(
    bytesToHash: Bytes -> Types.Hash,        // crypto.BytesToHash
    hashBytes: Types.Hash -> Bytes,          // Hash.Bytes
    bytesToSig: Bytes -> Types.Signature,    // crypto.BytesToSig
    sigBytes: Types.Signature -> Bytes)      // Signature.Bytes

  /** `h` survives being turned into bytes and back. */
  predicate HashRoundTrips(c: CryptoCodec, h: Types.Hash) {
    c.bytesToHash(c.hashBytes(h)) == h
  }

  /** `b` is the byte form of the hash read from it: well-formed hash bytes. */
  predicate HashBytesWellFormed(c: CryptoCodec, b: Bytes) {
    c.hashBytes(c.bytesToHash(b)) == b
  }

  /** `s` survives being turned into bytes and back. */
  predicate SigRoundTrips(c: CryptoCodec, s: Types.Signature) {
    c.bytesToSig(c.sigBytes(s)) == s
  }

  /** `b` is the byte form of the signature read from it: well-formed signature bytes. */
  predicate SigBytesWellFormed(c: CryptoCodec, b: Bytes) {
    c.sigBytes(c.bytesToSig(b)) == b
  }

  // ---------------------------------------------------------------------------
  // Register

  /** Copies the id and the value. */
  function RegisterFromMessage(m: Proto.Register): (r: Types.Register)
    ensures r.id == m.id && r.value == m.value
  {
    Types.Register(m.id, m.value)
  }

  /** Copies the id and the value. */
  function RegisterToMessage(t: Types.Register): (m: Proto.Register)
    ensures m.id == t.id && m.value == t.value
  {
    Proto.Register(t.id, t.value)
  }

  /** An internal register survives the trip through its message. */
  lemma RegisterRoundTrip(r: Types.Register)
    ensures RegisterFromMessage(RegisterToMessage(r)) == r
  {
  }

  /** A register message survives the trip through the internal value. */
  lemma RegisterMessageRoundTrip(m: Proto.Register)
    ensures RegisterToMessage(RegisterFromMessage(m)) == m
  {
  }

  /** The registers of a message, converted one by one and kept in order. */
  function RegistersFromMessage(ms: seq<Proto.Register>): (rs: seq<Types.Register>)
    ensures |rs| == |ms|
    ensures forall i :: 0 <= i < |ms| ==> rs[i] == RegisterFromMessage(ms[i])
  {
    if ms == [] then [] else [RegisterFromMessage(ms[0])] + RegistersFromMessage(ms[1..])
  }

  /** The registers of an internal value, converted one by one and kept in order. */
  function RegistersToMessage(rs: seq<Types.Register>): (ms: seq<Proto.Register>)
    ensures |ms| == |rs|
    ensures forall i :: 0 <= i < |rs| ==> ms[i] == RegisterToMessage(rs[i])
  {
    if rs == [] then [] else [RegisterToMessage(rs[0])] + RegistersToMessage(rs[1..])
  }

  lemma RegistersRoundTrip(rs: seq<Types.Register>, ms: seq<Proto.Register>)
    ensures RegistersFromMessage(RegistersToMessage(rs)) == rs
    ensures RegistersToMessage(RegistersFromMessage(ms)) == ms
  {
    var rs' := RegistersFromMessage(RegistersToMessage(rs));
    forall i | 0 <= i < |rs| ensures rs'[i] == rs[i] {
      RegisterRoundTrip(rs[i]);
    }
    var ms' := RegistersToMessage(RegistersFromMessage(ms));
    forall i | 0 <= i < |ms| ensures ms'[i] == ms[i] {
      RegisterMessageRoundTrip(ms[i]);
    }
  }

  // ---------------------------------------------------------------------------
  // IntermediateRegisters

  /** Keeps the compute used, converts every register in order, and reads the hash from its bytes. */
  function IntermediateRegistersFromMessage(c: CryptoCodec, m: Proto.IntermediateRegisters)
    : (t: Types.IntermediateRegisters)
    ensures t.computeUsed == m.computeUsed
    ensures |t.registers| == |m.registers|
    ensures forall i :: 0 <= i < |m.registers| ==> t.registers[i] == RegisterFromMessage(m.registers[i])
    ensures t.transactionHash == c.bytesToHash(m.transactionHash)
  {
    Types.IntermediateRegisters(c.bytesToHash(m.transactionHash), RegistersFromMessage(m.registers), m.computeUsed)
  }

  /** Keeps the compute used, converts every register in order, and writes the hash as bytes. */
  function IntermediateRegistersToMessage(c: CryptoCodec, t: Types.IntermediateRegisters)
    : (m: Proto.IntermediateRegisters)
    ensures m.computeUsed == t.computeUsed
    ensures |m.registers| == |t.registers|
    ensures forall i :: 0 <= i < |t.registers| ==> m.registers[i] == RegisterToMessage(t.registers[i])
    ensures m.transactionHash == c.hashBytes(t.transactionHash)
  {
    Proto.IntermediateRegisters(c.hashBytes(t.transactionHash), RegistersToMessage(t.registers), t.computeUsed)
  }

  /** An internal value survives the trip through a message when its hash survives the trip through bytes. */
  lemma IntermediateRegistersRoundTrip(c: CryptoCodec, t: Types.IntermediateRegisters)
    requires HashRoundTrips(c, t.transactionHash)
    ensures IntermediateRegistersFromMessage(c, IntermediateRegistersToMessage(c, t)) == t
  {
    RegistersRoundTrip(t.registers, []);
  }

  /** A message survives the trip through an internal value when its hash bytes are well-formed. */
  lemma IntermediateRegistersMessageRoundTrip(c: CryptoCodec, m: Proto.IntermediateRegisters)
    requires HashBytesWellFormed(c, m.transactionHash)
    ensures IntermediateRegistersToMessage(c, IntermediateRegistersFromMessage(c, m)) == m
  {
    RegistersRoundTrip([], m.registers);
  }

  /** The part transactions of a challenge message, converted one by one and kept in order. */
  function PartTransactionsFromMessage(c: CryptoCodec, ms: seq<Proto.IntermediateRegisters>)
    : (ts: seq<Types.IntermediateRegisters>)
    ensures |ts| == |ms|
    ensures forall i :: 0 <= i < |ms| ==> ts[i] == IntermediateRegistersFromMessage(c, ms[i])
  {
    if ms == [] then [] else [IntermediateRegistersFromMessage(c, ms[0])] + PartTransactionsFromMessage(c, ms[1..])
  }

  /** The part transactions of a challenge, converted one by one and kept in order. */
  function PartTransactionsToMessage(c: CryptoCodec, ts: seq<Types.IntermediateRegisters>)
    : (ms: seq<Proto.IntermediateRegisters>)
    ensures |ms| == |ts|
    ensures forall i :: 0 <= i < |ts| ==> ms[i] == IntermediateRegistersToMessage(c, ts[i])
  {
    if ts == [] then [] else [IntermediateRegistersToMessage(c, ts[0])] + PartTransactionsToMessage(c, ts[1..])
  }

  // ---------------------------------------------------------------------------
  // InvalidExecutionReceiptChallenge

  function InvalidExecutionReceiptChallengeFromMessage(c: CryptoCodec, m: Proto.InvalidExecutionReceiptChallenge)
    : (t: Types.InvalidExecutionReceiptChallenge)
    ensures t.executionReceiptHash == c.bytesToHash(m.executionReceiptHash)
    ensures t.executionReceiptSignature == c.bytesToSig(m.executionReceiptSignature)
    ensures t.signature == c.bytesToSig(m.signature)
    ensures t.partIndex == m.partIndex
    ensures |t.partTransactions| == |m.partTransactions|
    ensures forall i :: 0 <= i < |m.partTransactions| ==>
              t.partTransactions[i] == IntermediateRegistersFromMessage(c, m.partTransactions[i])
  {
    Types.InvalidExecutionReceiptChallenge(
      c.bytesToHash(m.executionReceiptHash),
      c.bytesToSig(m.executionReceiptSignature),
      m.partIndex,
      PartTransactionsFromMessage(c, m.partTransactions),
      c.bytesToSig(m.signature))
  }

  function InvalidExecutionReceiptChallengeToMessage(c: CryptoCodec, t: Types.InvalidExecutionReceiptChallenge)
    : (m: Proto.InvalidExecutionReceiptChallenge)
    ensures m.executionReceiptHash == c.hashBytes(t.executionReceiptHash)
    ensures m.executionReceiptSignature == c.sigBytes(t.executionReceiptSignature)
    ensures m.signature == c.sigBytes(t.signature)
    ensures m.partIndex == t.partIndex
    ensures |m.partTransactions| == |t.partTransactions|
    ensures forall i :: 0 <= i < |t.partTransactions| ==>
              m.partTransactions[i] == IntermediateRegistersToMessage(c, t.partTransactions[i])
  {
    Proto.InvalidExecutionReceiptChallenge(
      c.hashBytes(t.executionReceiptHash),
      c.sigBytes(t.executionReceiptSignature),
      t.partIndex,
      PartTransactionsToMessage(c, t.partTransactions),
      c.sigBytes(t.signature))
  }

  /** A challenge survives the trip through a message when all its hashes and signatures survive the trip through bytes. */
  lemma {:induction false} InvalidExecutionReceiptChallengeRoundTrip(c: CryptoCodec, t: Types.InvalidExecutionReceiptChallenge)
    requires HashRoundTrips(c, t.executionReceiptHash)
    requires SigRoundTrips(c, t.executionReceiptSignature) && SigRoundTrips(c, t.signature)
    requires forall i :: 0 <= i < |t.partTransactions| ==> HashRoundTrips(c, t.partTransactions[i].transactionHash)
    ensures InvalidExecutionReceiptChallengeFromMessage(c, InvalidExecutionReceiptChallengeToMessage(c, t)) == t
  {
    var t' := InvalidExecutionReceiptChallengeFromMessage(c, InvalidExecutionReceiptChallengeToMessage(c, t));
    forall i | 0 <= i < |t.partTransactions| ensures t'.partTransactions[i] == t.partTransactions[i] {
      IntermediateRegistersRoundTrip(c, t.partTransactions[i]);
    }
  }

  /** A challenge message survives the trip through an internal value when all its hash and signature bytes are well-formed. */
  lemma {:induction false} InvalidExecutionReceiptChallengeMessageRoundTrip(c: CryptoCodec,
                                                                            m: Proto.InvalidExecutionReceiptChallenge)
    requires HashBytesWellFormed(c, m.executionReceiptHash)
    requires SigBytesWellFormed(c, m.executionReceiptSignature) && SigBytesWellFormed(c, m.signature)
    requires forall i :: 0 <= i < |m.partTransactions| ==> HashBytesWellFormed(c, m.partTransactions[i].transactionHash)
    ensures InvalidExecutionReceiptChallengeToMessage(c, InvalidExecutionReceiptChallengeFromMessage(c, m)) == m
  {
    var m' := InvalidExecutionReceiptChallengeToMessage(c, InvalidExecutionReceiptChallengeFromMessage(c, m));
    forall i | 0 <= i < |m.partTransactions| ensures m'.partTransactions[i] == m.partTransactions[i] {
      IntermediateRegistersMessageRoundTrip(c, m.partTransactions[i]);
    }
  }

  // ---------------------------------------------------------------------------
  // ResultApproval

  /** Copies the block height and the proof; reads the hash and the signatures from their bytes. */
  function ResultApprovalFromMessage(c: CryptoCodec, m: Proto.ResultApproval): (t: Types.ResultApproval)
    ensures t.blockHeight == m.blockHeight && t.proof == m.proof
    ensures t.executionReceiptHash == c.bytesToHash(m.executionReceiptHash)
    ensures t.resultApprovalSignature == c.bytesToSig(m.resultApprovalSignature)
    ensures t.signature == c.bytesToSig(m.signature)
  {
    Types.ResultApproval(
      m.blockHeight,
      c.bytesToHash(m.executionReceiptHash),
      c.bytesToSig(m.resultApprovalSignature),
      m.proof,
      c.bytesToSig(m.signature))
  }

  /** Copies the block height and the proof; writes the hash and the signatures as bytes. */
  function ResultApprovalToMessage(c: CryptoCodec, t: Types.ResultApproval): (m: Proto.ResultApproval)
    ensures m.blockHeight == t.blockHeight && m.proof == t.proof
    ensures m.executionReceiptHash == c.hashBytes(t.executionReceiptHash)
    ensures m.resultApprovalSignature == c.sigBytes(t.resultApprovalSignature)
    ensures m.signature == c.sigBytes(t.signature)
  {
    Proto.ResultApproval(
      t.blockHeight,
      c.hashBytes(t.executionReceiptHash),
      c.sigBytes(t.resultApprovalSignature),
      t.proof,
      c.sigBytes(t.signature))
  }

  /**
   * Block height and proof are copied unchanged both ways, whatever the
   * foreign conversions do; with those inverse on the values at hand, both
   * round trips are the identity.
   */
  lemma ResultApprovalRoundTrip(c: CryptoCodec, t: Types.ResultApproval, m: Proto.ResultApproval)
    ensures ResultApprovalFromMessage(c, m).blockHeight == m.blockHeight
    ensures ResultApprovalFromMessage(c, m).proof == m.proof
    ensures ResultApprovalToMessage(c, t).blockHeight == t.blockHeight
    ensures ResultApprovalToMessage(c, t).proof == t.proof
    ensures HashRoundTrips(c, t.executionReceiptHash) && SigRoundTrips(c, t.resultApprovalSignature)
            && SigRoundTrips(c, t.signature)
            ==> ResultApprovalFromMessage(c, ResultApprovalToMessage(c, t)) == t
    ensures HashBytesWellFormed(c, m.executionReceiptHash) && SigBytesWellFormed(c, m.resultApprovalSignature)
            && SigBytesWellFormed(c, m.signature)
            ==> ResultApprovalToMessage(c, ResultApprovalFromMessage(c, m)) == m
  {
  }

  // ---------------------------------------------------------------------------
  // Stub converters: they return the empty value whatever they are given.

  function TransactionRegisterFromMessage(m: Proto.TransactionRegister): (r: Types.TransactionRegister)
    ensures r.content == []
  {
    Types.TransactionRegister([])
  }

  function TransactionRegisterToMessage(t: Types.TransactionRegister): (r: Proto.TransactionRegister)
    ensures r.content == []
  {
    Proto.TransactionRegister([])
  }

  function CollectionFromMessage(m: Proto.Collection): (r: Types.Collection)
    ensures r.content == []
  {
    Types.Collection([])
  }

  function CollectionToMessage(t: Types.Collection): (r: Proto.Collection)
    ensures r.content == []
  {
    Proto.Collection([])
  }

  function SignedCollectionHashFromMessage(m: Proto.SignedCollectionHash): (r: Types.SignedCollectionHash)
    ensures r.content == []
  {
    Types.SignedCollectionHash([])
  }

  function SignedCollectionHashToMessage(t: Types.SignedCollectionHash): (r: Proto.SignedCollectionHash)
    ensures r.content == []
  {
    Proto.SignedCollectionHash([])
  }

  function BlockFromMessage(m: Proto.Block): (r: Types.Block)
    ensures r.content == []
  {
    Types.Block([])
  }

  function BlockToMessage(t: Types.Block): (r: Proto.Block)
    ensures r.content == []
  {
    Proto.Block([])
  }

  function BlockSealFromMessage(m: Proto.BlockSeal): (r: Types.BlockSeal)
    ensures r.content == []
  {
    Types.BlockSeal([])
  }

  function BlockSealToMessage(t: Types.BlockSeal): (r: Proto.BlockSeal)
    ensures r.content == []
  {
    Proto.BlockSeal([])
  }

  function TransactionFromMessage(m: Proto.Transaction): (r: Types.Transaction)
    ensures r.content == []
  {
    Types.Transaction([])
  }

  function TransactionToMessage(t: Types.Transaction): (r: Proto.Transaction)
    ensures r.content == []
  {
    Proto.Transaction([])
  }

  function SignedTransactionFromMessage(m: Proto.SignedTransaction): (r: Types.SignedTransaction)
    ensures r.content == []
  {
    Types.SignedTransaction([])
  }

  function SignedTransactionToMessage(t: Types.SignedTransaction): (r: Proto.SignedTransaction)
    ensures r.content == []
  {
    Proto.SignedTransaction([])
  }

  function ExecutionReceiptFromMessage(m: Proto.ExecutionReceipt): (r: Types.ExecutionReceipt)
    ensures r.content == []
  {
    Types.ExecutionReceipt([])
  }

  function ExecutionReceiptToMessage(t: Types.ExecutionReceipt): (r: Proto.ExecutionReceipt)
    ensures r.content == []
  {
    Proto.ExecutionReceipt([])
  }

  /** Every stub converter, in either direction, yields the empty value for every input. */
  lemma StubsYieldEmpty(
    m1: Proto.TransactionRegister, t1: Types.TransactionRegister,
    m2: Proto.Collection, t2: Types.Collection,
    m3: Proto.SignedCollectionHash, t3: Types.SignedCollectionHash,
    m4: Proto.Block, t4: Types.Block,
    m5: Proto.BlockSeal, t5: Types.BlockSeal,
    m6: Proto.Transaction, t6: Types.Transaction,
    m7: Proto.SignedTransaction, t7: Types.SignedTransaction,
    m8: Proto.ExecutionReceipt, t8: Types.ExecutionReceipt)
    ensures TransactionRegisterFromMessage(m1).content == [] && TransactionRegisterToMessage(t1).content == []
    ensures CollectionFromMessage(m2).content == [] && CollectionToMessage(t2).content == []
    ensures SignedCollectionHashFromMessage(m3).content == [] && SignedCollectionHashToMessage(t3).content == []
    ensures BlockFromMessage(m4).content == [] && BlockToMessage(t4).content == []
    ensures BlockSealFromMessage(m5).content == [] && BlockSealToMessage(t5).content == []
    ensures TransactionFromMessage(m6).content == [] && TransactionToMessage(t6).content == []
    ensures SignedTransactionFromMessage(m7).content == [] && SignedTransactionToMessage(t7).content == []
    ensures ExecutionReceiptFromMessage(m8).content == [] && ExecutionReceiptToMessage(t8).content == []
  {
  }

  /** So a stub round trip keeps only the empty value: any other message is lost. */
  lemma StubsDoNotRoundTrip(
    m1: Proto.TransactionRegister, m2: Proto.Collection, m3: Proto.SignedCollectionHash, m4: Proto.Block,
    m5: Proto.BlockSeal, m6: Proto.Transaction, m7: Proto.SignedTransaction, m8: Proto.ExecutionReceipt)
    ensures TransactionRegisterToMessage(TransactionRegisterFromMessage(m1)) == m1 <==> m1.content == []
    ensures CollectionToMessage(CollectionFromMessage(m2)) == m2 <==> m2.content == []
    ensures SignedCollectionHashToMessage(SignedCollectionHashFromMessage(m3)) == m3 <==> m3.content == []
    ensures BlockToMessage(BlockFromMessage(m4)) == m4 <==> m4.content == []
    ensures BlockSealToMessage(BlockSealFromMessage(m5)) == m5 <==> m5.content == []
    ensures TransactionToMessage(TransactionFromMessage(m6)) == m6 <==> m6.content == []
    ensures SignedTransactionToMessage(SignedTransactionFromMessage(m7)) == m7 <==> m7.content == []
    ensures ExecutionReceiptToMessage(ExecutionReceiptFromMessage(m8)) == m8 <==> m8.content == []
  {
  }
}

/**
 * Verifier for signatures made with staking keys: one signature (a vote) or a
 * list of signatures standing in for an aggregate (a quorum certificate).
 *
 * The BLS primitives are foreign: the key's `Verify`, the KMAC hasher built
 * from a tag, and `BlockToBytesForSign`.  They are parameters here, so every
 * statement below holds whatever they compute.  Each Go `(bool, error)` pair is
 * a `Check`.
 */
module StakingSig {
  import opened Base

  type Signature = Bytes
  type PublicKey = Bytes
  type Message = Bytes

  /** The hasher the BLS library builds from a domain tag; its state is opaque. */
  datatype Hasher = Hasher(state: Bytes)

  /** Errors: those raised by the BLS library, and the two wrappings the verifier adds. */
  datatype Error =
    | CryptoFault(detail: string)
    | StakingSigError(cause: Error)                      // "cannot verify staking sig: %w"
    | AggregatedSigError(index: nat, cause: Error)       // "cannot verify aggregated staking sig for (i)-th sig: %w"

  /** A Go `(valid bool, err error)` result; `err == None` is a nil error. */
  datatype Check = Check(valid: bool, err: Option<Error>)

  /** `signerKey.Verify(sig, msg, hasher)`, which may return any pair. */
  type KeyVerify = (PublicKey, Signature, Message, Hasher) -> Check

  /** A check that let verification go on: valid, and no error. */
  predicate Accepts(c: Check) {
    c.valid && c.err.None?
  }

  datatype StakingSigVerifier = StakingSigVerifier(stakingHasher: Hasher)

  /** The verifier fixes, once, the hasher that every later check uses. */
  function NewStakingSigVerifier(stakingSigTag: string, newBlsKmac: string -> Hasher): (s: StakingSigVerifier)
    ensures s.stakingHasher == newBlsKmac(stakingSigTag)
  {
    StakingSigVerifier(newBlsKmac(stakingSigTag))
  }

  /**
   * One signature against the message derived from the full block (never from
   * fields that travel with the vote).  An error of the primitive becomes a
   * wrapped error with `false`; otherwise its verdict is returned with no error.
   */
  function VerifyStakingSig<B>(s: StakingSigVerifier, sig: Signature, block: B, signerKey: PublicKey,
                               verify: KeyVerify, blockToBytesForSign: B -> Message): (r: Check)
    ensures r.err.Some? ==> !r.valid
    ensures var c := verify(signerKey, sig, blockToBytesForSign(block), s.stakingHasher);
            && (c.err.Some? ==> r == Check(false, Some(StakingSigError(c.err.value))))
            && (c.err.None? ==> r == Check(c.valid, None))
  {
    var msg := blockToBytesForSign(block);
    var c := verify(signerKey, sig, msg, s.stakingHasher);
    if c.err.Some? then Check(false, Some(StakingSigError(c.err.value))) else Check(c.valid, None)
  }

  /**
   * The pairs from index `i` on, examined in order: the first pair whose check
   * errs or rejects ends the scan and decides the verdict.  Never true with an error.
   */
  function ScanFrom(aggsig: seq<Signature>, signerKeys: seq<PublicKey>, i: nat, msg: Message, h: Hasher,
                    verify: KeyVerify): (r: Check)
    requires i <= |aggsig| == |signerKeys|
    ensures r.valid ==> r.err.None?
    ensures r.err.Some? ==> r.err.value.AggregatedSigError? && i <= r.err.value.index < |aggsig|
    decreases |aggsig| - i
  {
    if i == |aggsig| then Check(true, None)
    else
      var c := verify(signerKeys[i], aggsig[i], msg, h);
      if c.err.Some? then Check(false, Some(AggregatedSigError(i, c.err.value)))
      else if !c.valid then Check(false, None)
      else ScanFrom(aggsig, signerKeys, i + 1, msg, h, verify)
  }

  /** What `VerifyAggregatedStakingSignature` returns. */
  function AggregatedVerdict<B>(s: StakingSigVerifier, aggsig: seq<Signature>, block: B, signerKeys: seq<PublicKey>,
                                verify: KeyVerify, blockToBytesForSign: B -> Message): (r: Check)
    ensures |aggsig| != |signerKeys| ==> r == Check(false, None)
    ensures r.valid ==> r.err.None?
  {
    if |aggsig| != |signerKeys| then Check(false, None)
    else ScanFrom(aggsig, signerKeys, 0, blockToBytesForSign(block), s.stakingHasher, verify)
  }

  /** The aggregate as a list: every pair is checked against one block-derived message. */
  method VerifyAggregatedStakingSignature<B>(s: StakingSigVerifier, aggsig: seq<Signature>, block: B,
                                             signerKeys: seq<PublicKey>, verify: KeyVerify,
                                             blockToBytesForSign: B -> Message) returns (r: Check)
    ensures r == AggregatedVerdict(s, aggsig, block, signerKeys, verify, blockToBytesForSign)
  {
    if |aggsig| != |signerKeys| {
      return Check(false, None);
    }
    var msg := blockToBytesForSign(block);
    for i := 0 to |aggsig|
      invariant ScanFrom(aggsig, signerKeys, 0, msg, s.stakingHasher, verify)
             == ScanFrom(aggsig, signerKeys, i, msg, s.stakingHasher, verify)
    {
      var signerKey := signerKeys[i];
      var c := verify(signerKey, aggsig[i], msg, s.stakingHasher);
      if c.err.Some? {
        return Check(false, Some(AggregatedSigError(i, c.err.value)));
      }
      if !c.valid {
        return Check(false, None);
      }
    }
    return Check(true, None);
  }

  // ---------------------------------------------------------------------------
  // Properties of the aggregate verdict

  lemma {:induction false} ScanFromAccepts(aggsig: seq<Signature>, signerKeys: seq<PublicKey>, i: nat,
                                           msg: Message, h: Hasher, verify: KeyVerify)
    requires i <= |aggsig| == |signerKeys|
    ensures Accepts(ScanFrom(aggsig, signerKeys, i, msg, h, verify))
        <==> forall j :: i <= j < |aggsig| ==> Accepts(verify(signerKeys[j], aggsig[j], msg, h))
    decreases |aggsig| - i
  {
    if i < |aggsig| {
      ScanFromAccepts(aggsig, signerKeys, i + 1, msg, h, verify);
    }
  }

  lemma {:induction false} ScanFromFirstRejection(aggsig: seq<Signature>, signerKeys: seq<PublicKey>, i: nat, k: nat,
                                                  msg: Message, h: Hasher, verify: KeyVerify)
    requires i <= k < |aggsig| == |signerKeys|
    requires forall j :: i <= j < k ==> Accepts(verify(signerKeys[j], aggsig[j], msg, h))
    requires !Accepts(verify(signerKeys[k], aggsig[k], msg, h))
    ensures var c := verify(signerKeys[k], aggsig[k], msg, h);
            ScanFrom(aggsig, signerKeys, i, msg, h, verify)
            == if c.err.Some? then Check(false, Some(AggregatedSigError(k, c.err.value))) else Check(false, None)
    decreases k - i
  {
    if i < k {
      ScanFromFirstRejection(aggsig, signerKeys, i + 1, k, msg, h, verify);
    }
  }

  /**
   * The aggregate is `(true, nil)` exactly when both lists have the same length
   * and every pair verifies, with no error, against the block's message under
   * the verifier's hasher.
   */
  lemma AggregateAcceptsIff<B>(s: StakingSigVerifier, aggsig: seq<Signature>, block: B, signerKeys: seq<PublicKey>,
                               verify: KeyVerify, blockToBytesForSign: B -> Message)
    ensures Accepts(AggregatedVerdict(s, aggsig, block, signerKeys, verify, blockToBytesForSign))
        <==> && |aggsig| == |signerKeys|
             && forall i :: 0 <= i < |aggsig| ==>
                  Accepts(verify(signerKeys[i], aggsig[i], blockToBytesForSign(block), s.stakingHasher))
  {
    if |aggsig| == |signerKeys| {
      ScanFromAccepts(aggsig, signerKeys, 0, blockToBytesForSign(block), s.stakingHasher, verify);
    }
  }

  /**
   * The first pair whose check is not accepted decides the verdict: its error,
   * wrapped with its index, or a plain `(false, nil)` when it is only invalid.
   */
  lemma FirstRejectionDecides<B>(s: StakingSigVerifier, aggsig: seq<Signature>, block: B, signerKeys: seq<PublicKey>,
                                 verify: KeyVerify, blockToBytesForSign: B -> Message, k: nat)
    requires k < |aggsig| == |signerKeys|
    requires forall j :: 0 <= j < k ==>
               Accepts(verify(signerKeys[j], aggsig[j], blockToBytesForSign(block), s.stakingHasher))
    requires !Accepts(verify(signerKeys[k], aggsig[k], blockToBytesForSign(block), s.stakingHasher))
    ensures var c := verify(signerKeys[k], aggsig[k], blockToBytesForSign(block), s.stakingHasher);
            AggregatedVerdict(s, aggsig, block, signerKeys, verify, blockToBytesForSign)
            == if c.err.Some? then Check(false, Some(AggregatedSigError(k, c.err.value))) else Check(false, None)
  {
    ScanFromFirstRejection(aggsig, signerKeys, 0, k, blockToBytesForSign(block), s.stakingHasher, verify);
  }

  /**
   * Pairs after the first rejected one are never examined: changing them, or
   * what the primitive says about them, leaves the verdict as it was.
   */
  lemma LaterPairsNotExamined<B>(s: StakingSigVerifier, block: B, verify: KeyVerify, verify': KeyVerify,
                                 blockToBytesForSign: B -> Message,
                                 aggsig: seq<Signature>, signerKeys: seq<PublicKey>,
                                 aggsig': seq<Signature>, signerKeys': seq<PublicKey>, k: nat)
    requires k < |aggsig| == |signerKeys| && k < |aggsig'| == |signerKeys'|
    requires aggsig[..k + 1] == aggsig'[..k + 1] && signerKeys[..k + 1] == signerKeys'[..k + 1]
    requires forall j :: 0 <= j <= k ==>
               verify(signerKeys[j], aggsig[j], blockToBytesForSign(block), s.stakingHasher)
               == verify'(signerKeys[j], aggsig[j], blockToBytesForSign(block), s.stakingHasher)
    requires forall j :: 0 <= j < k ==>
               Accepts(verify(signerKeys[j], aggsig[j], blockToBytesForSign(block), s.stakingHasher))
    requires !Accepts(verify(signerKeys[k], aggsig[k], blockToBytesForSign(block), s.stakingHasher))
    ensures AggregatedVerdict(s, aggsig, block, signerKeys, verify, blockToBytesForSign)
         == AggregatedVerdict(s, aggsig', block, signerKeys', verify', blockToBytesForSign)
  {
    var msg := blockToBytesForSign(block);
    forall j | 0 <= j <= k
      ensures aggsig'[j] == aggsig[j] && signerKeys'[j] == signerKeys[j]
    {
      assert aggsig'[j] == aggsig'[..k + 1][j] && aggsig[j] == aggsig[..k + 1][j];
      assert signerKeys'[j] == signerKeys'[..k + 1][j] && signerKeys[j] == signerKeys[..k + 1][j];
    }
    FirstRejectionDecides(s, aggsig, block, signerKeys, verify, blockToBytesForSign, k);
    FirstRejectionDecides(s, aggsig', block, signerKeys', verify', blockToBytesForSign, k);
  }

  /** Lists of different lengths are rejected with `(false, nil)`: false, but no error. */
  lemma LengthMismatchIsFalseNotError<B>(s: StakingSigVerifier, aggsig: seq<Signature>, block: B,
                                         signerKeys: seq<PublicKey>, verify: KeyVerify,
                                         blockToBytesForSign: B -> Message)
    requires |aggsig| != |signerKeys|
    ensures AggregatedVerdict(s, aggsig, block, signerKeys, verify, blockToBytesForSign) == Check(false, None)
  {
  }

  /** Two empty lists verify, whatever the block. */
  lemma EmptyAggregateAccepted<B>(s: StakingSigVerifier, block: B, verify: KeyVerify, blockToBytesForSign: B -> Message)
    ensures AggregatedVerdict(s, [], block, [], verify, blockToBytesForSign) == Check(true, None)
  {
  }

  /**
   * A one-pair aggregate agrees with `VerifyStakingSig` on that pair: the same
   * validity, and an error exactly when it errs (wrapped with index 0 instead).
   */
  lemma SingletonMatchesSingle<B>(s: StakingSigVerifier, sig: Signature, block: B, signerKey: PublicKey,
                                  verify: KeyVerify, blockToBytesForSign: B -> Message)
    ensures var agg := AggregatedVerdict(s, [sig], block, [signerKey], verify, blockToBytesForSign);
            var one := VerifyStakingSig(s, sig, block, signerKey, verify, blockToBytesForSign);
            && agg.valid == one.valid
            && agg.err.Some? == one.err.Some?
            && (one.err.Some? ==> agg.err == Some(AggregatedSigError(0, one.err.value.cause)))
  {
    var msg := blockToBytesForSign(block);
    assert ScanFrom([sig], [signerKey], 1, msg, s.stakingHasher, verify) == Check(true, None);
  }

  /**
   * The block enters only through its signing bytes: blocks with the same
   * bytes are indistinguishable to both checks.
   */
  lemma OnlyTheBlockBytesMatter<B>(s: StakingSigVerifier, aggsig: seq<Signature>, b1: B, b2: B,
                                   signerKeys: seq<PublicKey>, verify: KeyVerify, blockToBytesForSign: B -> Message)
    requires blockToBytesForSign(b1) == blockToBytesForSign(b2)
    ensures AggregatedVerdict(s, aggsig, b1, signerKeys, verify, blockToBytesForSign)
         == AggregatedVerdict(s, aggsig, b2, signerKeys, verify, blockToBytesForSign)
    ensures forall sig, key :: VerifyStakingSig(s, sig, b1, key, verify, blockToBytesForSign)
                            == VerifyStakingSig(s, sig, b2, key, verify, blockToBytesForSign)
  {
  }
}

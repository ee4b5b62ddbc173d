/**
 * The leader's block proposal producer: it builds a block on top of a quorum
 * certificate's block, wraps it with a consensus payload and signs it.
 *
 * The builder, the signer, the view state and the block hashing are foreign
 * collaborators; they are function-valued fields or parameters, so every
 * statement below holds whatever they compute.
 */
module BlockProducer {
  import opened Base

  type Identifier = Bytes
  type Hash = Bytes
  type Signature = Bytes

  /** A quorum certificate; the producer passes it through without reading it. */
  datatype QuorumCertificate = QuorumCertificate(view: uint64, blockMRH: Hash, aggregatedSignature: seq<Signature>)

  datatype Block = Block(view: uint64, qc: QuorumCertificate, payloadHash: Hash, height: uint64, chainID: string)

  /** A block together with the certificate for it. */
  datatype QCBlock = QCBlock(qc: QuorumCertificate, block: Block)

  /** Consensus-only data beside the block; its fields are not part of this model. */
  datatype ConsensusPayload = ConsensusPayload(content: Bytes)

  /** `types.ConsensusPayload{}`, the zero value. */
  const EmptyConsensusPayload := ConsensusPayload([])

  datatype UnsignedBlockProposal = UnsignedBlockProposal(block: Block, consensusPayload: ConsensusPayload)

  datatype BlockProposal = BlockProposal(block: Block, consensusPayload: ConsensusPayload, signature: Signature)

  /** The view of an unsigned proposal is its block's. */
  function View(p: UnsignedBlockProposal): (v: uint64) {
    p.block.view
  }

  /** An error the builder returns. */
  datatype BuildError = BuildError(detail: string)

  /** An error the producer's constructor could return; the code never returns one. */
  datatype ConstructionError = ConstructionError(detail: string)

  /** A proposal, or the panic the builder's error raises. */
  datatype ProposalResult = Proposed(proposal: BlockProposal) | BuilderPanic(cause: BuildError)

  datatype BlockProposalProducer = BlockProposalProducer(
    signBlockProposal: (UnsignedBlockProposal, nat) -> Signature,  // Signer.SignBlockProposal
    getSelfIdxForView: uint64 -> nat,                              // ViewState.GetSelfIdxForView
    buildOn: Identifier -> Result<Hash, BuildError>,               // module.Builder.BuildOn
    chainID: string)

  /** The block hashing used to name a parent: `flow.HashToID(block.BlockMRH())`. */
  datatype BlockHashing = BlockHashing(blockMRH: Block -> Hash, hashToID: Hash -> Identifier)

  /** The constructor never fails and keeps its four collaborators as given. */
  function NewBlockProposalProducer(signer: (UnsignedBlockProposal, nat) -> Signature, viewState: uint64 -> nat,
                                    builder: Identifier -> Result<Hash, BuildError>,
                                    chainID: string): (r: Result<BlockProposalProducer, ConstructionError>)
    ensures r.Success? && r.value.chainID == chainID
    ensures r.value.signBlockProposal == signer && r.value.getSelfIdxForView == viewState && r.value.buildOn == builder
  {
    Success(BlockProposalProducer(signer, viewState, builder, chainID))
  }

  /**
   * The identifier of the block a certificate certifies: the identifier of its
   * Merkle root hash, so it is read from the block and not from the certificate.
   */
  function ParentID(hashing: BlockHashing, qcblock: QCBlock): (id: Identifier)
    ensures id == hashing.hashToID(hashing.blockMRH(qcblock.block))
  {
    hashing.hashToID(hashing.blockMRH(qcblock.block))
  }

  /** The new block for `view` on top of `qcblock`, with the payload the builder chose for that parent. */
  function MakeBlockForView(bp: BlockProposalProducer, hashing: BlockHashing, view: uint64, qcblock: QCBlock)
    : (r: Result<Block, BuildError>)
    ensures r.Success? <==> bp.buildOn(ParentID(hashing, qcblock)).Success?
    ensures r.Failure? ==> r.error == bp.buildOn(ParentID(hashing, qcblock)).error
    ensures r.Success? ==>
              && r.value.view == view
              && r.value.qc == qcblock.qc
              && r.value.payloadHash == bp.buildOn(ParentID(hashing, qcblock)).value
              && r.value.height == AddU64(qcblock.block.height, 1)
              && r.value.chainID == bp.chainID
  {
    match bp.buildOn(ParentID(hashing, qcblock))
    case Failure(err) => Failure(err)
    case Success(payloadHash) =>
      var height := AddU64(qcblock.block.height, 1);
      Success(Block(view, qcblock.qc, payloadHash, height, bp.chainID))
  }

  /** The block with the empty consensus payload. */
  function Propose(block: Block): (r: UnsignedBlockProposal)
    ensures r.block == block && r.consensusPayload == EmptyConsensusPayload
  {
    UnsignedBlockProposal(block, EmptyConsensusPayload)
  }

  /**
   * The signed proposal: signing does not alter what it signs, and the
   * signature is the signer's over exactly that unsigned proposal, for the index
   * the view state gives this replica in the proposal's view.
   */
  function SignBlockProposal(bp: BlockProposalProducer, proposal: UnsignedBlockProposal): (r: BlockProposal)
    ensures r.block == proposal.block
    ensures r.consensusPayload == proposal.consensusPayload
    ensures r.signature == bp.signBlockProposal(proposal, bp.getSelfIdxForView(proposal.block.view))
  {
    var sig := bp.signBlockProposal(proposal, bp.getSelfIdxForView(View(proposal)));
    BlockProposal(proposal.block, proposal.consensusPayload, sig)
  }

  /**
   * A proposal for `view` on top of `qcblock`: the builder's error, if any,
   * means no proposal; otherwise the block carries the requested view, the
   * certificate it was built on, the payload the builder returned for that
   * parent, the parent's height plus one (wrapping as a `uint64`), the chain
   * id, the empty consensus payload, and the signer's signature over exactly
   * that unsigned proposal.
   */
  function MakeBlockProposal(bp: BlockProposalProducer, hashing: BlockHashing, view: uint64, qcblock: QCBlock)
    : (r: ProposalResult)
    ensures bp.buildOn(ParentID(hashing, qcblock)).Failure? <==> r.BuilderPanic?
    ensures r.BuilderPanic? ==> r.cause == bp.buildOn(ParentID(hashing, qcblock)).error
    ensures r.Proposed? ==>
              var b := r.proposal.block;
              && b.view == view
              && b.qc == qcblock.qc
              && b.payloadHash == bp.buildOn(ParentID(hashing, qcblock)).value
              && (qcblock.block.height < U64_MODULUS - 1 ==> b.height == qcblock.block.height + 1)
              && (qcblock.block.height == U64_MODULUS - 1 ==> b.height == 0)
              && b.chainID == bp.chainID
              && r.proposal.consensusPayload == EmptyConsensusPayload
              && r.proposal.signature
                 == bp.signBlockProposal(UnsignedBlockProposal(b, EmptyConsensusPayload), bp.getSelfIdxForView(view))
  {
    match MakeBlockForView(bp, hashing, view, qcblock)
    case Failure(err) => BuilderPanic(err)
    case Success(block) =>
      var unsigned := Propose(block);
      Proposed(SignBlockProposal(bp, unsigned))
  }

  /** Away from the top of the `uint64` range a proposal's height is exactly one above its parent's. */
  lemma HeightIsParentPlusOne(bp: BlockProposalProducer, hashing: BlockHashing, view: uint64, qcblock: QCBlock)
    requires qcblock.block.height < U64_MODULUS - 1
    requires bp.buildOn(ParentID(hashing, qcblock)).Success?
    ensures var r := MakeBlockProposal(bp, hashing, view, qcblock);
            r.Proposed? && r.proposal.block.height == qcblock.block.height + 1
  {
  }

  /**
   * The producer does not compare the parent's view with the requested one:
   * a parent whose view is not below `view` still yields a proposal for `view`.
   */
  lemma NoParentViewCheck(bp: BlockProposalProducer, hashing: BlockHashing, view: uint64, qcblock: QCBlock)
    requires qcblock.block.view >= view
    requires bp.buildOn(ParentID(hashing, qcblock)).Success?
    ensures var r := MakeBlockProposal(bp, hashing, view, qcblock);
            r.Proposed? && r.proposal.block.view == view <= qcblock.block.view
  {
  }

  /**
   * The proposal depends on the parent only through its certificate, its
   * height and its identifier: two parents that agree on those give the same
   * proposal.
   */
  lemma ParentEntersOnlyThroughQCHeightAndID(bp: BlockProposalProducer, hashing: BlockHashing, view: uint64,
                                             q1: QCBlock, q2: QCBlock)
    requires q1.qc == q2.qc && q1.block.height == q2.block.height
    requires ParentID(hashing, q1) == ParentID(hashing, q2)
    ensures MakeBlockProposal(bp, hashing, view, q1) == MakeBlockProposal(bp, hashing, view, q2)
  {
  }
}

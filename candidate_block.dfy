/**
 * The candidate block: the consensus value validators agree on. It wraps a proto
 * block (the deploys to execute) with the time it was proposed and the validators
 * it accuses of equivocation.
 */
module CandidateBlocks {
  type Digest = nat
  type Timestamp = nat
  type PublicKey = nat
  type DeployHash = nat

  /** The parts of a proto block the candidate block uses: its hash and its two deploy lists. */
  datatype ProtoBlock = ProtoBlock(hash: Digest, wasmDeploys: seq<DeployHash>, transfers: seq<DeployHash>)

  datatype CandidateBlock = CandidateBlock(protoBlock: ProtoBlock, timestamp: Timestamp, accusations: seq<PublicKey>)

  /**
   * What the block hash is computed from: the proto block's hash, followed by the
   * serialised pair of timestamp and accusations.
   */
  datatype HashInput = HashInput(protoBlockHash: Digest, timestamp: Timestamp, accusations: seq<PublicKey>)

  /** `CandidateBlock::new`: the accessors give back exactly the arguments. */
  function New(protoBlock: ProtoBlock, timestamp: Timestamp, accusations: seq<PublicKey>): (cb: CandidateBlock)
    ensures ProtoBlockOf(cb) == protoBlock
    ensures TimestampOf(cb) == timestamp
    ensures AccusationsOf(cb) == accusations
  {
    CandidateBlock(protoBlock, timestamp, accusations)
  }

  function ProtoBlockOf(cb: CandidateBlock): ProtoBlock {
    cb.protoBlock
  }

  function TimestampOf(cb: CandidateBlock): Timestamp {
    cb.timestamp
  }

  function AccusationsOf(cb: CandidateBlock): seq<PublicKey> {
    cb.accusations
  }

  /** Two candidate blocks are equal exactly when they were built from equal arguments. */
  lemma NewInjective(p: ProtoBlock, t: Timestamp, a: seq<PublicKey>, p': ProtoBlock, t': Timestamp, a': seq<PublicKey>)
    ensures New(p, t, a) == New(p', t', a') <==> p == p' && t == t' && a == a'
  {
    if New(p, t, a) == New(p', t', a') {
      assert ProtoBlockOf(New(p, t, a)) == ProtoBlockOf(New(p', t', a'));
    }
  }

  /**
   * `CandidateBlock::hash`: the hasher applied to the proto block's hash, the timestamp
   * and the accusations. The hash function itself is a parameter.
   */
  function Hash(cb: CandidateBlock, hasher: HashInput -> Digest): Digest {
    hasher(HashInput(cb.protoBlock.hash, cb.timestamp, cb.accusations))
  }

  /**
   * The hash sees the proto block only through the proto block's own hash: candidates
   * agreeing on that, the timestamp and the accusations have equal hashes, whatever
   * their deploy lists.
   */
  lemma HashDeterminedByInputs(cb1: CandidateBlock, cb2: CandidateBlock, hasher: HashInput -> Digest)
    requires cb1.protoBlock.hash == cb2.protoBlock.hash
    requires cb1.timestamp == cb2.timestamp && cb1.accusations == cb2.accusations
    ensures Hash(cb1, hasher) == Hash(cb2, hasher)
  {
  }

  /**
   * With a hasher free of collisions, equal candidate hashes mean equal proto block
   * hashes, timestamps and accusations.
   */
  lemma HashCollisionFree(cb1: CandidateBlock, cb2: CandidateBlock, hasher: HashInput -> Digest)
    requires forall x, y :: hasher(x) == hasher(y) ==> x == y
    requires Hash(cb1, hasher) == Hash(cb2, hasher)
    ensures cb1.protoBlock.hash == cb2.protoBlock.hash
    ensures cb1.timestamp == cb2.timestamp && cb1.accusations == cb2.accusations
  {
    var x := HashInput(cb1.protoBlock.hash, cb1.timestamp, cb1.accusations);
    var y := HashInput(cb2.protoBlock.hash, cb2.timestamp, cb2.accusations);
    assert hasher(x) == hasher(y);
  }

  /** `needs_validation`: a block with any deploy or transfer must be validated before voting on it. */
  predicate NeedsValidation(cb: CandidateBlock)
    ensures NeedsValidation(cb) <==> |cb.protoBlock.wasmDeploys| > 0 || |cb.protoBlock.transfers| > 0
    ensures !NeedsValidation(cb) <==> cb.protoBlock.wasmDeploys + cb.protoBlock.transfers == []
  {
    cb.protoBlock.wasmDeploys != [] || cb.protoBlock.transfers != []
  }

  /** `From<CandidateBlock> for ProtoBlock`: the wrapped proto block, unchanged. */
  function IntoProtoBlock(cb: CandidateBlock): (p: ProtoBlock)
    ensures p == ProtoBlockOf(cb)
  {
    cb.protoBlock
  }

  lemma IntoProtoBlockOfNew(p: ProtoBlock, t: Timestamp, a: seq<PublicKey>)
    ensures IntoProtoBlock(New(p, t, a)) == p
  {
  }

  /** The `ConsensusValueT` implementation: `hash` is the candidate block's hash. */
  function ConsensusValueHash(cb: CandidateBlock, hasher: HashInput -> Digest): (d: Digest)
    ensures d == Hash(cb, hasher)
  {
    Hash(cb, hasher)
  }

  /** The `ConsensusValueT` implementation: `needs_validation` is the candidate block's. */
  predicate ConsensusValueNeedsValidation(cb: CandidateBlock)
    ensures ConsensusValueNeedsValidation(cb) <==> NeedsValidation(cb)
  {
    NeedsValidation(cb)
  }
}

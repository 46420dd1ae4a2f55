/** Values that the SV2 test miner passes between its driver and its worker threads. */
module MiningTypes {
  import opened Words

  /**
   * A 256-bit target, kept as the term that built it. Comparing a hash with a
   * target is left to a function parameter, so every interpretation is covered.
   */
  datatype Target = FromLeBytes(bytes: seq<Byte>) | FromCompact(nbits: U32)

  datatype MiningWork = MiningWork(
    channelId: U32,
    jobId: U32,
    version: U32,
    prevHash: seq<Byte>,
    merkleRoot: seq<Byte>,
    nbits: U32,
    ntime: U32,
    target: Target)

  datatype FoundShare = FoundShare(
    channelId: U32,
    sequenceNumber: U32,
    jobId: U32,
    nonce: U32,
    ntime: U32,
    version: U32)

  datatype Header = Header(
    version: U32,
    prevBlockHash: seq<Byte>,
    merkleRoot: seq<Byte>,
    time: U32,
    bits: U32,
    nonce: U32)

  /** Whether the hash of a header meets a target: foreign code, left arbitrary. */
  type Meets = (Target, Header) -> bool

  /** A (nonce, ntime) pair that a worker puts into a header. */
  datatype Candidate = Candidate(nonce: U32, ntime: U32)

  function BuildHeader(work: MiningWork, c: Candidate): Header {
    Header(work.version, work.prevHash, work.merkleRoot, c.ntime, work.nbits, c.nonce)
  }

  predicate Hits(meets: Meets, work: MiningWork, c: Candidate) {
    meets(work.target, BuildHeader(work, c))
  }

  /** The share a winning worker sends; the driver numbers it later. */
  function ShareOf(work: MiningWork, c: Candidate): FoundShare {
    FoundShare(work.channelId, 0, work.jobId, c.nonce, c.ntime, work.version)
  }
}

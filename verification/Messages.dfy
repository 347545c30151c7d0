/** The records that travel between nodes: transactions, votes, attestations, proposals. */
module Messages {
  import opened Bytes

  // core/tx/tx.go: TxType
  const TRANSFER: byte := 1
  const MISS_EVIDENCE: byte := 2
  const CONTRACT_DEPLOY: byte := 3
  const CONTRACT_CALL: byte := 4
  const BOND: byte := 5
  const UNBOND: byte := 6
  const FINALIZE_UNBOND: byte := 7
  const CLAIM_REWARDS: byte := 8
  const EQUIV_EVIDENCE: byte := 9

  /**
   * A transaction. K is the type of the keys in it: 32 raw bytes on the wire,
   * an account of the ledger inside block application.
   */
  datatype Tx<K> = Tx(
    kind: byte,
    sender: Bytes,
    receiver: Bytes,
    value: int,
    nonce: u64,
    senderKey: K,
    receiverKey: K,
    senderSig: Bytes64,
    receiverSig: Bytes64,
    missedHeight: u64,
    missedProposer: K,
    skipIndex: u32,
    wasm: Bytes,
    initArgs: Bytes,
    callData: Bytes,
    evidenceA: Bytes,
    evidenceB: Bytes)

  type WireTx = Tx<Bytes32>

  // core/consensus/vote.go: VoteType
  const PREVOTE: byte := 1
  const PRECOMMIT: byte := 2

  /** The nil block hash. */
  const NIL: Bytes32 := ZERO32

  /** What a vote says, without the signature over it. */
  datatype Ballot = Ballot(kind: byte, height: u64, round: u32, block: Bytes32, voter: Bytes32)

  datatype Vote = Vote(ballot: Ballot, sig: Bytes64)

  datatype Attestation = Attestation(height: u64, round: u32, block: Bytes32, votes: seq<Vote>)

  const EMPTY_ATTESTATION := Attestation(0, 0, NIL, [])

  datatype Proposal = Proposal(
    height: u64,
    round: u32,
    proposer: Bytes32,
    prevRoot: Bytes32,
    txs: seq<WireTx>,
    prevAttestation: Attestation,
    sig: Bytes64)
}

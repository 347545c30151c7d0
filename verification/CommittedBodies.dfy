/** Agreement down to the transactions: the block hash is the digest of the proposal's signing bytes. */
module CommittedBodies {
  import opened Bytes
  import opened Messages
  import opened Quorum
  import opened Protocol
  import opened Agreement
  import P = ProposalCodec

  /** BlockHashForChain and SerializeProposal over a hash function and the proposal codec. */
  ghost predicate HashesBytes(env: Env, sha: Bytes -> Bytes32, b: P.BatchCoder, chain: Bytes) {
    && (forall p :: env.hash(p) == sha(P.ProposalSignBytes(b, p, chain)))
    && (forall p :: env.encodes(p) <==> P.BodyError(b, p).None?)
  }

  /** Two serialisable proposals with one hash have one body, or their signing bytes collide. */
  lemma OneHashOneBody(env: Env, sha: Bytes -> Bytes32, b: P.BatchCoder, chain: Bytes, p: Proposal, q: Proposal)
    returns (x: Bytes, y: Bytes)
    requires HashesBytes(env, sha, b, chain) && P.BatchLaw(b)
    requires env.encodes(p) && env.encodes(q) && env.hash(p) == env.hash(q)
    ensures P.SameBody(b, p, q) || (x != y && sha(x) == sha(y))
  {
    x, y := P.ProposalSignBytes(b, p, chain), P.ProposalSignBytes(b, q, chain);
    if x == y { P.ProposalSignBytesInjective(b, p, q, chain); }
  }

  /**
   * Two nodes that commit a height in the same round commit the same header, attestation and
   * transactions, up to what the wire normalises, or they exhibit a collision of the hash function.
   */
  lemma CommittedBodiesAgree(env: Env, ws: seq<World>, es: seq<Event>, j: Key, k: Key, i: nat,
                             sha: Bytes -> Bytes32, b: P.BatchCoder, chain: Bytes)
    returns (x: Bytes, y: Bytes)
    requires env.Valid() && IsWorldRun(env, ws, es) && HashesBytes(env, sha, b, chain) && P.BatchLaw(b)
    requires j in ws[|es|].nodes && k in ws[|es|].nodes
    requires i < |ws[|es|].nodes[j].disk.chain| && i < |ws[|es|].nodes[k].disk.chain|
    requires ws[|es|].nodes[j].disk.chain[i].round == ws[|es|].nodes[k].disk.chain[i].round
    requires i + 1 < U64 ==> FewFaults(env, ws[0], Lapsed(ws, es), Slot(i + 1, ws[|es|].nodes[j].disk.chain[i].round, PRECOMMIT))
    ensures var c, d := ws[|es|].nodes[j].disk.chain[i], ws[|es|].nodes[k].disk.chain[i];
            P.SameBody(b, c.proposal, d.proposal) || (x != y && sha(x) == sha(y))
  {
    CommitsAgree(env, ws, es, j, k, i);
    x, y := OneHashOneBody(env, sha, b, chain, ws[|es|].nodes[j].disk.chain[i].proposal, ws[|es|].nodes[k].disk.chain[i].proposal);
  }
}

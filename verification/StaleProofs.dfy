/** Proofs from a tree that a failed update has left inconsistent: core/tree/tree.go and core/tree/proof.go. */
module StaleProofs {
  import opened Wrappers
  import opened Errors
  import opened Bytes
  import opened Nodes
  import opened Coarsening
  import opened TreeProofs
  import opened RGTree
  import opened ProofGeneration

  /** A failed update leaves layers that proofs can still be generated from. */
  lemma StillTiered(h: Hasher, was: seq<seq<Node>>, now: seq<seq<Node>>)
    requires Stack(h, was) && SameFrame(was, now)
    ensures Tiered(now)
  {
    forall l | 0 <= l < |now| - 1 ensures |now[l + 1]| == Groups(|now[l]|) {
      assert Coarsened(h, was[l]) == Ok(was[l + 1]);
    }
  }

  /**
   * A failed update keeps the cached root, which is that of the old leaves. A proof generated for a
   * leaf that was replaced before the failure is rejected by it, or exhibits a collision.
   */
  lemma StaleProofRejected(h: Hasher, was: seq<seq<Node>>, now: seq<seq<Node>>, chosen: seq<Update>, taken: nat,
                           err: Option<Code>, j: nat, id: Bytes32, proof: seq<Step>, root: Bytes32)
    returns (f: Face, g: Face)
    requires Stack(h, was) && Digest(h, was[|was| - 1][0].face) == Ok(root)
    requires Ascending(chosen) && Aftermath(h, was, now, chosen, taken, err) && j < taken
    requires Atomic(chosen[j].tx).value.face != was[0][chosen[j].index].face && Atomic(chosen[j].tx).value.face.children == [id]
    requires Follows(now, chosen[j].index, proof)
    ensures !Accepted(h, proof, id, root) || Collide(h, f, g)
  {
    var u := chosen[j];
    assert u == chosen[..taken][j] && u in chosen[..taken];
    PatchedExactly(was[0], chosen[..taken], now[0], u);
    f, g := now[0][u.index].face, now[0][u.index].face;
    if Accepted(h, proof, id, root) { f, g := PositionSound(h, was, proof, id, u.index, root); }
  }
}

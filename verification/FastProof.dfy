/** The verifier that hashes out of one shared buffer: core/tree/proof.go. */
module FastProof {
  import opened Wrappers
  import opened Bytes
  import opened Layout
  import opened Nodes
  import opened NodeCodec
  import opened Coarsening
  import opened TreeBuild
  import opened TreeProofs

  /** Its answer; None is the index panic on a child index beyond three. */
  ghost function Answer(h: Hasher, proof: seq<Step>, id: Bytes32, root: Bytes32): Option<bool> {
    if proof == [] || proof[0].scale != 1 then Some(false)
    else if !Indexed(proof) then None
    else Some(Hashed(h, proof, id) == root)
  }

  lemma HashedOn(h: Hasher, proof: seq<Step>, id: Bytes32, i: nat)
    requires 0 < i < |proof|
    ensures Hashed(h, proof[..i + 1], id) == h.of(InnerFace(proof[i], Hashed(h, proof[..i], id)))
  {
    var more := proof[..i + 1];
    assert more[..i] == proof[..i] && more[i] == proof[i];
  }

  lemma IndexedOn(proof: seq<Step>, i: nat)
    requires 0 < i < |proof|
    ensures Indexed(proof[..i + 1]) <==> Indexed(proof[..i]) && proof[i].childIdx < 4
  {
    assert forall j :: 0 < j < i ==> proof[..i][j] == proof[..i + 1][j];
  }

  /**
   * On proofs with child indices below four the canonical verifier accepts exactly what this one
   * accepts and whose inner steps have a valid scale above one.
   */
  lemma CanonicalIsFastWithScales(h: Hasher, proof: seq<Step>, id: Bytes32, root: Bytes32)
    requires Indexed(proof)
    ensures Accepted(h, proof, id, root) <==> Answer(h, proof, id, root) == Some(true) && InnerScales(proof)
  {
    if proof != [] { ClimbIsHashed(h, proof, id); }
  }

  /** So the two agree on every proof of that shape. */
  lemma VerifiersAgree(h: Hasher, proof: seq<Step>, id: Bytes32, root: Bytes32)
    requires Indexed(proof) && InnerScales(proof)
    ensures Answer(h, proof, id, root) == Some(Accepted(h, proof, id, root))
  {
    if proof != [] { ClimbIsHashed(h, proof, id); }
  }

  /** And differ on the others for the root they hash to: a scale of two is hashed all the same. */
  lemma VerifiersDiffer(h: Hasher, proof: seq<Step>, id: Bytes32)
    requires proof != [] && proof[0].scale == 1 && Indexed(proof) && !InnerScales(proof)
    ensures var root := Hashed(h, proof, id); Answer(h, proof, id, root) == Some(true) && !Accepted(h, proof, id, root)
  {
    ClimbIsHashed(h, proof, id);
  }

  /** Soundness down to bytes: a named leaf, the padding constant, or a collision of the hash function. */
  lemma FastSound(sha: Bytes -> Bytes32, layers: seq<seq<Node>>, proof: seq<Step>, id: Bytes32, root: Bytes32)
    returns (x: Bytes, y: Bytes)
    requires Stack(With(sha), layers) && Uniform(layers[0], 1) && Digest(With(sha), layers[|layers| - 1][0].face) == Ok(root)
    requires Answer(With(sha), proof, id, root) == Some(true)
    ensures Named(With(sha), layers[0], id) || (x != y && sha(x) == sha(y))
  {
    var h, top := With(sha), layers[|layers| - 1][0].face;
    assert InTree(h, layers, top);
    var f, g := Descend(h, layers, proof, id, top);
    x, y := Encode(f), Encode(g);
    if Collide(h, f, g) { CollidingBytes(sha, f, g); }
  }

  class Verifier {
    /** compactBuf, kept between calls. */
    const buf: array<byte>

    ghost predicate Valid() {
      buf.Length == 210
    }

    constructor ()
      ensures Valid() && fresh(buf)
    {
      buf := new byte[210];
    }

    method PutHeader(scale: u32, volume: u256, variance: u256, sig: byte, count: nat, ghost f: Face)
      requires Valid() && f.scale == scale && f.volume == volume && f.variance == variance && f.sig == sig
      requires |f.children| == count
      modifies buf
      ensures buf[..82] + Flat(f.children) == Encode(f)
    {
      ghost var whole := Encode(f);
      ghost var tail4 := BE(count, 2) + Flat(f.children);
      ghost var tail3 := [sig] + tail4;
      ghost var tail2 := BE(variance, 32) + tail3;
      ghost var tail1 := BE(volume, 32) + tail2;
      assert buf[..0] + (DOMAIN + (BE(scale, 4) + tail1)) == whole;
      var pos := Put(buf, 0, DOMAIN, BE(scale, 4) + tail1, whole);
      pos := Put(buf, pos, BE(scale, 4), tail1, whole);
      pos := Put(buf, pos, BE(volume, 32), tail2, whole);
      pos := Put(buf, pos, BE(variance, 32), tail3, whole);
      pos := Put(buf, pos, [sig], tail4, whole);
      pos := Put(buf, pos, BE(count, 2), Flat(f.children), whole);
    }

    method HashLeaf(sha: Bytes -> Bytes32, s: Step, id: Bytes32) returns (current: Bytes32)
      requires Valid()
      modifies buf
      ensures current == With(sha).of(LeafFace(s, id))
    {
      ghost var f := LeafFace(s, id);
      PutHeader(1, s.volume, s.variance, s.sig, 1, f);
      assert f.children[0] == id && f.children[1..] == [];
      var pos := Put(buf, 82, id, [], Encode(f));
      assert buf[..114] + [] == buf[..114];
      current := sha(buf[..114]);
    }

    /** Writes the four children in order; the sibling taken is j, or j - 1 past the child index. */
    method HashInner(sha: Bytes -> Bytes32, s: Step, below: Bytes32) returns (current: Bytes32)
      requires Valid() && s.childIdx < 4
      modifies buf
      ensures current == With(sha).of(InnerFace(s, below))
    {
      ghost var f := InnerFace(s, below);
      PutHeader(s.scale, s.volume, s.variance, s.sig, 4, f);
      var pos := 82;
      for j := 0 to 4
        invariant pos == 82 + 32 * j
        invariant buf[..pos] + Flat(f.children[j..]) == Encode(f)
      {
        var child := if j == s.childIdx then below else s.siblings[if j > s.childIdx then j - 1 else j];
        assert child == f.children[j];
        pos := Put(buf, pos, child, Flat(f.children[j + 1..]), Encode(f));
      }
      assert buf[..210] + Flat(f.children[4..]) == buf[..];
      current := sha(buf[..]);
    }

    /** VerifyProof, whatever the buffer held before. */
    method VerifyProof(sha: Bytes -> Bytes32, proof: seq<Step>, id: Bytes32, root: Bytes32) returns (r: Option<bool>)
      requires Valid()
      modifies buf
      ensures r == Answer(With(sha), proof, id, root)
    {
      if |proof| == 0 || proof[0].scale != 1 { return Some(false); }
      var current := HashLeaf(sha, proof[0], id);
      for i := 1 to |proof|
        invariant Indexed(proof[..i]) && current == Hashed(With(sha), proof[..i], id)
      {
        if proof[i].childIdx >= 4 { return None; }
        HashedOn(With(sha), proof, id, i);
        IndexedOn(proof, i);
        current := HashInner(sha, proof[i], current);
      }
      assert proof[..|proof|] == proof;
      return Some(current == root);
    }
  }
}

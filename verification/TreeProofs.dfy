/** Inclusion proofs: core/tree/proof.go. */
module TreeProofs {
  import opened Wrappers
  import opened Errors
  import opened Bytes
  import opened Nodes
  import opened Coarsening
  import opened TreeBuild

  const ZERO_DIGEST: Bytes32 := ZERO32
  const NO_SIBLINGS: seq<Bytes32> := [ZERO_DIGEST, ZERO_DIGEST, ZERO_DIGEST]

  type Three = s: seq<Bytes32> | |s| == 3 witness NO_SIBLINGS

  datatype Step = Step(scale: u32, volume: u256, variance: u256, sig: byte, siblings: Three, childIdx: byte)

  // ---------------------------------------------------------------- verification

  /** The four children a step claims. A child index beyond three leaves no room for the current digest. */
  function Placed(s: Step, current: Bytes32): (c: seq<Bytes32>)
    ensures |c| == 4
  {
    if s.childIdx < 4 then s.siblings[..s.childIdx] + [current] + s.siblings[s.childIdx..] else s.siblings + [ZERO_DIGEST]
  }

  function InnerFace(s: Step, current: Bytes32): Face {
    Face(s.scale, s.volume, s.variance, s.sig, Placed(s, current))
  }

  function LeafFace(s: Step, id: Bytes32): Face {
    Face(1, s.volume, s.variance, s.sig, [id])
  }

  /** The root a proof leads to when every node on the way serializes. */
  function Climb(h: Hasher, proof: seq<Step>, id: Bytes32): Result<Bytes32, Code>
    requires proof != []
  {
    var m := |proof| - 1;
    if m == 0 then Digest(h, LeafFace(proof[0], id))
    else
      match Climb(h, proof[..m], id)
      case Err(c) => Err(c)
      case Ok(current) => Digest(h, InnerFace(proof[m], current))
  }

  predicate Accepted(h: Hasher, proof: seq<Step>, id: Bytes32, root: Bytes32) {
    proof != [] && proof[0].scale == 1 && Climb(h, proof, id) == Ok(root)
  }

  /** The same without asking whether the nodes serialize. */
  function Hashed(h: Hasher, proof: seq<Step>, id: Bytes32): Bytes32
    requires proof != []
  {
    var m := |proof| - 1;
    if m == 0 then h.of(LeafFace(proof[0], id)) else h.of(InnerFace(proof[m], Hashed(h, proof[..m], id)))
  }

  predicate Indexed(proof: seq<Step>) {
    forall i :: 0 < i < |proof| ==> proof[i].childIdx < 4
  }

  predicate Inner(s: Step) {
    ValidScale(s.scale) && s.scale > 1
  }

  predicate InnerScales(proof: seq<Step>) {
    forall i :: 0 < i < |proof| ==> Inner(proof[i])
  }

  lemma InnerDigest(h: Hasher, s: Step, current: Bytes32)
    ensures Digest(h, InnerFace(s, current)).Ok? <==> Inner(s)
    ensures Inner(s) ==> Digest(h, InnerFace(s, current)) == Ok(h.of(InnerFace(s, current)))
  {
  }

  /** A proof climbs exactly when its inner steps have inner scales, and then by plain hashing. */
  lemma {:induction false} ClimbIsHashed(h: Hasher, proof: seq<Step>, id: Bytes32)
    requires proof != []
    ensures Climb(h, proof, id).Ok? <==> InnerScales(proof)
    ensures InnerScales(proof) ==> Climb(h, proof, id) == Ok(Hashed(h, proof, id))
  {
    var m := |proof| - 1;
    if m > 0 {
      ClimbIsHashed(h, proof[..m], id);
      if Climb(h, proof[..m], id).Ok? { InnerDigest(h, proof[m], Climb(h, proof[..m], id).value); }
      InnerScalesStep(proof);
    }
  }

  lemma InnerScalesStep(proof: seq<Step>)
    requires |proof| > 1
    ensures InnerScales(proof) <==> InnerScales(proof[..|proof| - 1]) && Inner(proof[|proof| - 1])
  {
  }

  /** verifyProofCanonical. */
  method VerifyCanonical(h: Hasher, proof: seq<Step>, id: Bytes32, root: Bytes32) returns (ok: bool)
    ensures ok == Accepted(h, proof, id, root)
  {
    if |proof| == 0 || proof[0].scale != 1 { return false; }
    var leaf := Digest(h, LeafFace(proof[0], id));
    assert proof[..1][0] == proof[0];
    var current := leaf.value;
    for i := 1 to |proof|
      invariant Climb(h, proof[..i], id) == Ok(current)
    {
      var children := Place(proof[i], current);
      var s := proof[i];
      var above := Digest(h, Face(s.scale, s.volume, s.variance, s.sig, children));
      assert proof[..i + 1][..i] == proof[..i];
      if above.Err? {
        ClimbStays(h, proof, id, i + 1);
        return false;
      }
      current := above.value;
    }
    assert proof[..|proof|] == proof;
    return current == root;
  }

  /** Fills the four slots from the left, taking siblings in turn. */
  method Place(s: Step, current: Bytes32) returns (children: seq<Bytes32>)
    ensures children == Placed(s, current)
  {
    children := [];
    var next := 0;
    for j := 0 to 4
      invariant |children| == j && next == if s.childIdx < j then j - 1 else if j == 4 then 3 else j
      invariant s.childIdx >= j ==> children == s.siblings[..next] + if j == 4 then [ZERO_DIGEST] else []
      invariant s.childIdx < j ==> children == s.siblings[..s.childIdx] + [current] + s.siblings[s.childIdx..next]
    {
      if j == s.childIdx {
        children := children + [current];
      } else if next < 3 {
        children := children + [s.siblings[next]];
        next := next + 1;
      } else {
        children := children + [ZERO_DIGEST];
      }
    }
  }

  lemma {:induction false} ClimbStays(h: Hasher, proof: seq<Step>, id: Bytes32, k: nat)
    requires 0 < k <= |proof| && Climb(h, proof[..k], id).Err?
    ensures Climb(h, proof, id).Err?
  {
    var m := |proof| - 1;
    if k <= m {
      assert proof[..m][..k] == proof[..k];
      ClimbStays(h, proof[..m], id, k);
    } else {
      assert proof[..k] == proof;
    }
  }

  // ---------------------------------------------------------------- the children of a parent

  lemma {:induction false} TallyChildren(h: Hasher, chunk: seq<Node>, i: nat)
    requires Tallied(h, chunk).Ok? && i < |chunk|
    ensures Digest(h, chunk[i].face) == Ok(Tallied(h, chunk).value.children[i])
  {
    if i < |chunk| - 1 { TallyChildren(h, chunk[..|chunk| - 1], i); }
  }

  /** Child j of parent p: a node of the layer below or its padding. */
  function ChildFace(h: Hasher, layer: seq<Node>, p: nat, j: nat): Result<Face, Code>
    requires 4 * p < |layer|
  {
    if 4 * p + j < |layer| then Ok(layer[4 * p + j].face) else NullFace(h, layer[0].face.scale)
  }

  lemma ChildDigest(h: Hasher, layer: seq<Node>, p: nat, j: nat)
    requires 4 * p < |layer| && j < 4 && Grain(h, layer, p).Ok?
    ensures |Grain(h, layer, p).value.face.children| == 4 && ChildFace(h, layer, p, j).Ok?
    ensures Digest(h, ChildFace(h, layer, p, j).value) == Ok(Grain(h, layer, p).value.face.children[j])
  {
    TallyChildren(h, Chunk(h, layer, p).value, j);
  }

  lemma ParentGrain(h: Hasher, layers: seq<seq<Node>>, l: nat, p: nat)
    requires Stack(h, layers) && 0 < l < |layers| && p < |layers[l]|
    ensures 4 * p < |layers[l - 1]| && Grain(h, layers[l - 1], p) == Ok(layers[l][p])
  {
    assert Coarsened(h, layers[l - 1]) == Ok(layers[l - 1 + 1]);
    ParentAt(h, layers[l - 1], Groups(|layers[l - 1]|), p);
  }

  // ---------------------------------------------------------------- soundness

  /** The face is that of a node of the tree, or of padding. */
  ghost predicate InTree(h: Hasher, layers: seq<seq<Node>>, f: Face) {
    || (exists l, p :: 0 <= l < |layers| && 0 <= p < |layers[l]| && layers[l][p].face == f)
    || (ValidScale(f.scale) && NullFace(h, f.scale) == Ok(f))
  }

  /** A leaf of the tree has the child, or it is the padding constant. */
  ghost predicate Named(h: Hasher, leaves: seq<Node>, id: Bytes32) {
    id == h.nullPad || exists p :: 0 <= p < |leaves| && leaves[p].face.children == [id]
  }

  /** Two different nodes with the same digest. */
  ghost predicate Collide(h: Hasher, f: Face, g: Face) {
    f != g && h.of(f) == h.of(g)
  }

  /** Below a face of the tree are faces of the tree, up to a single child, which is named. */
  lemma NullChild(h: Hasher, f: Face, j: nat) returns (below: Face)
    requires ValidScale(f.scale) && NullFace(h, f.scale) == Ok(f) && |f.children| == 4 && j < 4
    ensures ValidScale(below.scale) && NullFace(h, below.scale) == Ok(below) && h.of(below) == f.children[j]
  {
    below := NullFace(h, f.scale / 4).value;
  }

  lemma NodeChild(h: Hasher, layers: seq<seq<Node>>, l: nat, p: nat, j: nat) returns (below: Face)
    requires Stack(h, layers) && 0 < l < |layers| && p < |layers[l]| && j < 4
    ensures |layers[l][p].face.children| == 4 && InTree(h, layers, below) && h.of(below) == layers[l][p].face.children[j]
  {
    ParentGrain(h, layers, l, p);
    var layer := layers[l - 1];
    ChildDigest(h, layer, p, j);
    below := ChildFace(h, layer, p, j).value;
    if 4 * p + j < |layer| { assert layers[l - 1][4 * p + j].face == below; }
  }

  lemma TreeChild(h: Hasher, layers: seq<seq<Node>>, f: Face, j: nat) returns (below: Face)
    requires Stack(h, layers) && Uniform(layers[0], 1) && InTree(h, layers, f) && |f.children| == 4 && j < 4
    ensures InTree(h, layers, below) && h.of(below) == f.children[j]
  {
    if ValidScale(f.scale) && NullFace(h, f.scale) == Ok(f) {
      below := NullChild(h, f, j);
    } else {
      var l, p :| 0 <= l < |layers| && 0 <= p < |layers[l]| && layers[l][p].face == f;
      assert l > 0;
      below := NodeChild(h, layers, l, p, j);
    }
  }

  lemma TreeLeaf(h: Hasher, layers: seq<seq<Node>>, f: Face, id: Bytes32)
    requires Stack(h, layers) && InTree(h, layers, f) && f.children == [id]
    ensures Named(h, layers[0], id)
  {
    if !(ValidScale(f.scale) && NullFace(h, f.scale) == Ok(f)) {
      var l, p :| 0 <= l < |layers| && 0 <= p < |layers[l]| && layers[l][p].face == f;
      if l > 0 {
        ParentGrain(h, layers, l, p);
        GrainShape(h, layers[l - 1], p);
        assert false;
      }
    }
  }

  /** A node of the tree or padding has the zero digest. */
  ghost predicate HasZero(h: Hasher, layers: seq<seq<Node>>) {
    exists f :: InTree(h, layers, f) && h.of(f) == ZERO_DIGEST
  }

  /**
   * A proof that hashes to a face of the tree names a leaf or exhibits a collision on its way.
   * A child index beyond three puts the zero digest in the last place, which the tree must then have.
   */
  lemma {:induction false} Descend(h: Hasher, layers: seq<seq<Node>>, proof: seq<Step>, id: Bytes32, target: Face)
    returns (f: Face, g: Face)
    requires Stack(h, layers) && Uniform(layers[0], 1) && InTree(h, layers, target)
    requires proof != [] && Hashed(h, proof, id) == h.of(target)
    ensures Named(h, layers[0], id) || Collide(h, f, g) || (!Indexed(proof) && HasZero(h, layers))
    decreases |proof|
  {
    var m := |proof| - 1;
    f := if m == 0 then LeafFace(proof[0], id) else InnerFace(proof[m], Hashed(h, proof[..m], id));
    g := target;
    if f == g {
      if m == 0 {
        TreeLeaf(h, layers, target, id);
      } else if proof[m].childIdx < 4 {
        var below := TreeChild(h, layers, target, proof[m].childIdx);
        assert target.children[proof[m].childIdx] == Hashed(h, proof[..m], id);
        f, g := Descend(h, layers, proof[..m], id, below);
      } else {
        var below := TreeChild(h, layers, target, 3);
        assert target.children[3] == ZERO_DIGEST;
      }
    }
  }

  /**
   * Soundness: whatever is accepted against a tree's root names a real leaf or the padding
   * constant, or the proof yields two different nodes with the same digest, or it has a child
   * index beyond three and some node of the tree has the zero digest.
   */
  lemma ProofSound(h: Hasher, layers: seq<seq<Node>>, proof: seq<Step>, id: Bytes32, root: Bytes32)
    returns (f: Face, g: Face)
    requires Stack(h, layers) && Uniform(layers[0], 1) && Digest(h, layers[|layers| - 1][0].face) == Ok(root)
    requires Accepted(h, proof, id, root)
    ensures Named(h, layers[0], id) || Collide(h, f, g) || (!Indexed(proof) && HasZero(h, layers))
  {
    ClimbIsHashed(h, proof, id);
    var top := layers[|layers| - 1][0].face;
    assert InTree(h, layers, top);
    f, g := Descend(h, layers, proof, id, top);
  }

  // ---------------------------------------------------------------- positions

  /** The position of a leaf's ancestor. */
  function Ancestor(idx: nat, l: nat): nat {
    if l == 0 then idx else Ancestor(idx, l - 1) / 4
  }

  /** The child indices are those of a leaf's ancestors. */
  predicate OnPath(proof: seq<Step>, idx: nat) {
    forall l :: 0 < l < |proof| ==> proof[l].childIdx == Ancestor(idx, l - 1) % 4
  }

  lemma OnPathMore(proof: seq<Step>, s: Step, idx: nat)
    requires proof != [] && OnPath(proof, idx) && s.childIdx == Ancestor(idx, |proof| - 1) % 4
    ensures OnPath(proof + [s], idx) && (proof + [s])[0] == proof[0]
  {
  }

  /** The child a step names has the digest that the step was given. */
  lemma StepDown(h: Hasher, layer: seq<Node>, parent: Node, pos: nat, s: Step, current: Bytes32)
    requires pos < |layer| && Grain(h, layer, pos / 4) == Ok(parent)
    requires s.childIdx == pos % 4 && InnerFace(s, current) == parent.face
    ensures current == h.of(layer[pos].face)
  {
    ChildDigest(h, layer, pos / 4, pos % 4);
    assert Placed(s, current)[pos % 4] == current;
  }

  /** A proof along a leaf's positions that hashes to its ancestor starts from that leaf, or exhibits a collision. */
  lemma {:induction false} DescendTo(h: Hasher, layers: seq<seq<Node>>, proof: seq<Step>, id: Bytes32, idx: nat, l: nat)
    returns (f: Face, g: Face)
    requires Stack(h, layers) && idx < |layers[0]| && l < |layers| && |proof| == l + 1 && OnPath(proof, idx)
    requires Ancestor(idx, l) < |layers[l]| && Hashed(h, proof, id) == h.of(layers[l][Ancestor(idx, l)].face)
    ensures LeafFace(proof[0], id) == layers[0][idx].face || Collide(h, f, g)
    decreases l
  {
    g := layers[l][Ancestor(idx, l)].face;
    if l == 0 {
      f := LeafFace(proof[0], id);
    } else {
      f := InnerFace(proof[l], Hashed(h, proof[..l], id));
      if f == g {
        AncestorInside(h, layers, idx, l - 1);
        ParentGrain(h, layers, l, Ancestor(idx, l));
        StepDown(h, layers[l - 1], layers[l][Ancestor(idx, l)], Ancestor(idx, l - 1), proof[l], Hashed(h, proof[..l], id));
        f, g := DescendTo(h, layers, proof[..l], id, idx, l - 1);
      }
    }
  }

  /** Whatever is accepted along the positions of a leaf is that leaf, or the proof exhibits a collision. */
  lemma PositionSound(h: Hasher, layers: seq<seq<Node>>, proof: seq<Step>, id: Bytes32, idx: nat, root: Bytes32)
    returns (f: Face, g: Face)
    requires Stack(h, layers) && idx < |layers[0]| && Digest(h, layers[|layers| - 1][0].face) == Ok(root)
    requires |proof| == |layers| && OnPath(proof, idx) && Accepted(h, proof, id, root)
    ensures LeafFace(proof[0], id) == layers[0][idx].face || Collide(h, f, g)
  {
    ClimbIsHashed(h, proof, id);
    AncestorInside(h, layers, idx, |layers| - 1);
    f, g := DescendTo(h, layers, proof, id, idx, |layers| - 1);
  }

  // ---------------------------------------------------------------- completeness

  /** The digests of a parent's other three children. */
  function Others(children: seq<Bytes32>, j: nat): (s: Three)
    requires |children| == 4 && j < 4
  {
    children[..j] + children[j + 1..]
  }

  function StepTo(parent: Node, j: nat): Step
    requires |parent.face.children| == 4 && j < 4
  {
    Step(parent.face.scale, parent.face.volume, parent.face.variance, parent.face.sig, Others(parent.face.children, j), j)
  }

  function FirstStep(leaf: Node): Step {
    Step(leaf.face.scale, leaf.face.volume, leaf.face.variance, leaf.face.sig, NO_SIBLINGS, 0)
  }

  lemma {:induction false} AncestorInside(h: Hasher, layers: seq<seq<Node>>, idx: nat, l: nat)
    requires Stack(h, layers) && idx < |layers[0]| && l < |layers|
    ensures Ancestor(idx, l) < |layers[l]|
    ensures l > 0 ==> |layers[l][Ancestor(idx, l)].face.children| == 4
  {
    if l > 0 {
      AncestorInside(h, layers, idx, l - 1);
      assert Coarsened(h, layers[l - 1]) == Ok(layers[l - 1 + 1]);
      ParentGrain(h, layers, l, Ancestor(idx, l));
      GrainShape(h, layers[l - 1], Ancestor(idx, l));
    }
  }

  /** The proof for a leaf up to a level: one step per level, naming its path. */
  function Path(h: Hasher, layers: seq<seq<Node>>, idx: nat, l: nat): (proof: seq<Step>)
    requires Stack(h, layers) && idx < |layers[0]| && l < |layers|
    ensures |proof| == l + 1
  {
    if l == 0 then [FirstStep(layers[0][idx])]
    else
      AncestorInside(h, layers, idx, l);
      Path(h, layers, idx, l - 1) + [StepTo(layers[l][Ancestor(idx, l)], Ancestor(idx, l - 1) % 4)]
  }

  lemma PutBack(children: seq<Bytes32>, j: nat)
    requires |children| == 4 && j < 4
    ensures Others(children, j)[..j] + [children[j]] + Others(children, j)[j..] == children
  {
  }

  lemma StepClimbs(h: Hasher, layer: seq<Node>, parent: Node, p: nat, j: nat)
    requires 4 * p + j < |layer| && j < 4 && Grain(h, layer, p) == Ok(parent) && Proper(parent.face) && |parent.face.children| == 4
    ensures Digest(h, InnerFace(StepTo(parent, j), h.of(layer[4 * p + j].face))) == Ok(h.of(parent.face))
  {
    ChildDigest(h, layer, p, j);
    PutBack(parent.face.children, j);
  }

  /** The path of a leaf climbs to its ancestors' digests. */
  lemma {:induction false} PathClimbs(h: Hasher, layers: seq<seq<Node>>, idx: nat, l: nat, id: Bytes32)
    requires Stack(h, layers) && Uniform(layers[0], 1) && idx < |layers[0]| && l < |layers|
    requires layers[0][idx].face.children == [id]
    ensures Ancestor(idx, l) < |layers[l]|
    ensures Climb(h, Path(h, layers, idx, l), id) == Ok(h.of(layers[l][Ancestor(idx, l)].face))
  {
    AncestorInside(h, layers, idx, l);
    var path := Path(h, layers, idx, l);
    if l > 0 {
      PathClimbs(h, layers, idx, l - 1, id);
      assert path[..l] == Path(h, layers, idx, l - 1);
      var pos, p := Ancestor(idx, l - 1), Ancestor(idx, l);
      ParentGrain(h, layers, l, p);
      LevelUniform(h, layers, l);
      StepClimbs(h, layers[l - 1], layers[l][p], p, pos % 4);
    }
  }

  /** Completeness: the generated proof of every leaf is accepted against the root. */
  lemma ProofComplete(h: Hasher, layers: seq<seq<Node>>, idx: nat, id: Bytes32, root: Bytes32)
    requires Stack(h, layers) && Uniform(layers[0], 1) && idx < |layers[0]| && layers[0][idx].face.children == [id]
    requires Digest(h, layers[|layers| - 1][0].face) == Ok(root)
    ensures Accepted(h, Path(h, layers, idx, |layers| - 1), id, root) && Indexed(Path(h, layers, idx, |layers| - 1))
  {
    var top := |layers| - 1;
    PathClimbs(h, layers, idx, top, id);
    PathIndexed(h, layers, idx, top);
  }

  lemma {:induction false} PathIndexed(h: Hasher, layers: seq<seq<Node>>, idx: nat, l: nat)
    requires Stack(h, layers) && idx < |layers[0]| && l < |layers|
    ensures Indexed(Path(h, layers, idx, l)) && Path(h, layers, idx, l)[0] == FirstStep(layers[0][idx])
  {
    if l > 0 {
      PathIndexed(h, layers, idx, l - 1);
      AncestorInside(h, layers, idx, l);
      IndexedMore(Path(h, layers, idx, l - 1), StepTo(layers[l][Ancestor(idx, l)], Ancestor(idx, l - 1) % 4));
    }
  }

  lemma IndexedMore(proof: seq<Step>, s: Step)
    requires proof != [] && Indexed(proof) && s.childIdx < 4
    ensures Indexed(proof + [s]) && (proof + [s])[0] == proof[0]
  {
  }
}

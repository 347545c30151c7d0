/** Generating inclusion proofs, from a retained tree and from transactions: core/tree/proof.go. */
module ProofGeneration {
  import opened Wrappers
  import opened Errors
  import opened Bytes
  import opened Nodes
  import opened Coarsening
  import opened TreeProofs
  import opened RGTree

  /** The digests gathered so far: the first k children without the j-th. */
  function Gathered(children: seq<Bytes32>, j: nat, k: nat): seq<Bytes32>
    requires k <= |children|
  {
    if k <= j then children[..k] else children[..j] + children[j + 1..k]
  }

  /** The digest of a node or of padding, whichever fails first. */
  function PaddingDigest(h: Hasher, scale: u32): Result<Bytes32, Code> {
    match NullFace(h, scale)
    case Err(c) => Err(c)
    case Ok(f) => Digest(h, f)
  }

  /** So far these are the siblings in whatever parent the layer has there. */
  ghost predicate Collected(h: Hasher, layer: seq<Node>, p: nat, o: nat, k: nat, siblings: seq<Bytes32>)
    requires 4 * p < |layer|
  {
    && k <= 4 && |siblings| == (if o < k then k - 1 else k)
    && (Grain(h, layer, p).Ok? ==>
          |Grain(h, layer, p).value.face.children| == 4 && siblings == Gathered(Grain(h, layer, p).value.face.children, o, k))
  }

  lemma CollectNone(h: Hasher, layer: seq<Node>, p: nat, o: nat)
    requires 4 * p < |layer|
    ensures Collected(h, layer, p, o, 0, [])
  {
    if Grain(h, layer, p).Ok? { ChildDigest(h, layer, p, 0); }
  }

  lemma CollectOne(h: Hasher, layer: seq<Node>, p: nat, o: nat, k: nat, siblings: seq<Bytes32>, d: Result<Bytes32, Code>)
    requires 4 * p < |layer| && k < 4 && k != o && Collected(h, layer, p, o, k, siblings)
    requires d == if 4 * p + k < |layer| then Digest(h, layer[4 * p + k].face) else PaddingDigest(h, layer[0].face.scale)
    ensures d.Ok? ==> Collected(h, layer, p, o, k + 1, siblings + [d.value])
    ensures Grain(h, layer, p).Ok? ==> d.Ok?
  {
    if Grain(h, layer, p).Ok? {
      ChildDigest(h, layer, p, k);
      GatherOne(Grain(h, layer, p).value.face.children, o, k);
    }
  }

  lemma CollectSelf(h: Hasher, layer: seq<Node>, p: nat, o: nat, siblings: seq<Bytes32>)
    requires 4 * p < |layer| && o < 4 && Collected(h, layer, p, o, o, siblings)
    ensures Collected(h, layer, p, o, o + 1, siblings)
  {
    if Grain(h, layer, p).Ok? { GatherOne(Grain(h, layer, p).value.face.children, o, o); }
  }

  /** The siblings of child o of parent p: the other real children in order, then padding. */
  method Siblings(h: Hasher, layer: seq<Node>, p: nat, o: nat) returns (r: Result<seq<Bytes32>, Code>)
    requires 4 * p + o < |layer| && o < 4
    ensures r.Ok? ==> |r.value| == 3
    ensures Grain(h, layer, p).Ok? ==>
              |Grain(h, layer, p).value.face.children| == 4 && r == Ok(Others(Grain(h, layer, p).value.face.children, o))
  {
    var siblings, k := [], 0;
    CollectNone(h, layer, p, o);
    while k < 4 && 4 * p + k < |layer|
      invariant 4 * p + k <= |layer| && Collected(h, layer, p, o, k, siblings)
    {
      if k != o {
        var d := Digest(h, layer[4 * p + k].face);
        CollectOne(h, layer, p, o, k, siblings, d);
        if d.Err? { return Err(d.error); }
        siblings := siblings + [d.value];
      } else {
        CollectSelf(h, layer, p, o, siblings);
      }
      k := k + 1;
    }
    while |siblings| < 3
      invariant o < k && (k < 4 ==> 4 * p + k >= |layer|) && Collected(h, layer, p, o, k, siblings)
      decreases 4 - k
    {
      var d := PaddingDigest(h, layer[0].face.scale);
      CollectOne(h, layer, p, o, k, siblings, d);
      if d.Err? { return Err(d.error); }
      siblings, k := siblings + [d.value], k + 1;
    }
    if Grain(h, layer, p).Ok? { GatheredAll(Grain(h, layer, p).value.face.children, o, k); }
    return Ok(siblings);
  }

  lemma GatheredAll(children: seq<Bytes32>, j: nat, k: nat)
    requires |children| == 4 && j < 4 && j < k <= 4 && |Gathered(children, j, k)| >= 3
    ensures Gathered(children, j, k) == Others(children, j)
  {
    assert children[j + 1..4] == children[j + 1..];
  }

  lemma GatherOne(children: seq<Bytes32>, j: nat, k: nat)
    requires k < |children|
    ensures Gathered(children, j, k + 1) == Gathered(children, j, k) + if k == j then [] else [children[k]]
  {
    if k < j {
      assert children[..k + 1] == children[..k] + [children[k]];
    } else if k == j {
      assert children[..j] + children[j + 1..j + 1] == children[..j] + [];
    } else {
      assert children[j + 1..k + 1] == children[j + 1..k] + [children[k]];
    }
  }

  /** One step up from a position. */
  method StepUp(h: Hasher, layer: seq<Node>, parent: Node, pos: nat) returns (r: Result<Step, Code>)
    requires pos < |layer|
    ensures r.Ok? ==> r.value.childIdx == pos % 4
    ensures Grain(h, layer, pos / 4) == Ok(parent) ==> |parent.face.children| == 4 && r == Ok(StepTo(parent, pos % 4))
  {
    var siblings := Siblings(h, layer, pos / 4, pos % 4);
    if siblings.Err? { return Err(siblings.error); }
    var f := parent.face;
    return Ok(Step(f.scale, f.volume, f.variance, f.sig, siblings.value, pos % 4));
  }

  /** Every layer has a place for each group of the layer below. */
  predicate Tiered(layers: seq<seq<Node>>) {
    layers != [] && forall l :: 0 <= l < |layers| - 1 ==> |layers[l + 1]| == Groups(|layers[l]|)
  }

  /** The proof starts from the leaf and names the positions on its way up. */
  ghost predicate Follows(layers: seq<seq<Node>>, idx: nat, proof: seq<Step>)
    requires layers != [] && idx < |layers[0]|
  {
    |proof| == |layers| && proof[0] == FirstStep(layers[0][idx]) && OnPath(proof, idx)
  }

  /**
   * Tree.GenerateProof, also on layers that a failed update has left inconsistent: then the proof
   * still starts from the leaf and follows its positions, and on a tree it is the leaf's path.
   */
  method GenerateProof(h: Hasher, layers: seq<seq<Node>>, idx: int) returns (r: Result<seq<Step>, Code>)
    requires Tiered(layers)
    ensures !(0 <= idx < |layers[0]|) ==> r == Err(CanonicalEncodingDistortion)
    ensures 0 <= idx < |layers[0]| && r.Ok? ==> Follows(layers, idx, r.value)
    ensures 0 <= idx < |layers[0]| && Stack(h, layers) ==> r == Ok(Path(h, layers, idx, |layers| - 1))
  {
    if idx < 0 || idx >= |layers[0]| { return Err(CanonicalEncodingDistortion); }
    var pos, steps := idx, [FirstStep(layers[0][idx])];
    for level := 0 to |layers| - 1
      invariant 0 <= pos < |layers[level]| && Climbed(h, layers, idx, level, pos, steps)
    {
      var step := StepUp(h, layers[level], layers[level + 1][pos / 4], pos);
      ClimbOne(h, layers, idx, level, pos, steps, step);
      if step.Err? { return Err(step.error); }
      steps := steps + [step.value];
      pos := pos / 4;
    }
    return Ok(steps);
  }

  ghost predicate Climbed(h: Hasher, layers: seq<seq<Node>>, idx: nat, level: nat, pos: nat, steps: seq<Step>)
    requires level < |layers| && idx < |layers[0]|
  {
    && pos == Ancestor(idx, level)
    && |steps| == level + 1 && steps[0] == FirstStep(layers[0][idx]) && OnPath(steps, idx)
    && (Stack(h, layers) ==> steps == Path(h, layers, idx, level))
  }

  lemma ClimbOne(h: Hasher, layers: seq<seq<Node>>, idx: nat, level: nat, pos: nat, steps: seq<Step>, step: Result<Step, Code>)
    requires level + 1 < |layers| && idx < |layers[0]| && pos < |layers[level]| && pos / 4 < |layers[level + 1]|
    requires Climbed(h, layers, idx, level, pos, steps)
    requires step.Ok? ==> step.value.childIdx == pos % 4
    requires var parent := layers[level + 1][pos / 4];
             Grain(h, layers[level], pos / 4) == Ok(parent) ==> |parent.face.children| == 4 && step == Ok(StepTo(parent, pos % 4))
    ensures step.Ok? ==> Climbed(h, layers, idx, level + 1, pos / 4, steps + [step.value])
    ensures Stack(h, layers) ==> step.Ok?
  {
    if step.Ok? { OnPathMore(steps, step.value, idx); }
    if Stack(h, layers) { StepOfTree(h, layers, idx, level); }
  }

  lemma StepOfTree(h: Hasher, layers: seq<seq<Node>>, idx: nat, level: nat)
    requires Stack(h, layers) && level + 1 < |layers| && idx < |layers[0]|
    ensures var pos, p := Ancestor(idx, level), Ancestor(idx, level + 1);
            && 4 * p < |layers[level]| && p < |layers[level + 1]|
            && Grain(h, layers[level], p) == Ok(layers[level + 1][p]) && |layers[level + 1][p].face.children| == 4
            && Path(h, layers, idx, level + 1) == Path(h, layers, idx, level) + [StepTo(layers[level + 1][p], pos % 4)]
  {
    PathPrefix(h, layers, idx, level);
    ParentGrain(h, layers, level + 1, Ancestor(idx, level + 1));
  }

  /** Paths only read the layers they pass. */
  lemma {:induction false} PathPrefix(h: Hasher, layers: seq<seq<Node>>, idx: nat, l: nat)
    requires Stack(h, layers) && idx < |layers[0]| && l < |layers| - 1
    ensures Ancestor(idx, l + 1) < |layers[l + 1]| && |layers[l + 1][Ancestor(idx, l + 1)].face.children| == 4
    ensures Path(h, layers, idx, l + 1)
            == Path(h, layers, idx, l) + [StepTo(layers[l + 1][Ancestor(idx, l + 1)], Ancestor(idx, l) % 4)]
  {
    AncestorInside(h, layers, idx, l + 1);
  }

  /** GenerateProof over transactions builds each layer as it climbs, and yields the retained tree's proof. */
  method GenerateFromTxs(h: Hasher, txs: seq<LeafTx>, idx: int) returns (r: Result<seq<Step>, Code>)
    ensures !(0 <= idx < |txs|) ==> r == Err(CanonicalEncodingDistortion)
    ensures 0 <= idx < |txs| && Atomics(txs).Err? ==> r == Err(Atomics(txs).error)
    ensures 0 <= idx < |txs| && Atomics(txs).Ok? ==>
              match Layers(h, Atomics(txs).value)
              case Err(c) => r == Err(c)
              case Ok(layers) => Stack(h, layers) && r == Ok(Path(h, layers, idx, |layers| - 1))
  {
    if idx < 0 || idx >= |txs| { return Err(CanonicalEncodingDistortion); }
    var leaves := AtomicLayer(txs);
    if leaves.Err? { return Err(leaves.error); }
    r := ClimbFrom(h, leaves.value, idx);
  }

  method ClimbFrom(h: Hasher, leaves: seq<Node>, idx: nat) returns (r: Result<seq<Step>, Code>)
    requires idx < |leaves|
    ensures match Layers(h, leaves)
            case Err(c) => r == Err(c)
            case Ok(layers) => Stack(h, layers) && r == Ok(Path(h, layers, idx, |layers| - 1))
  {
    var layer, pos, steps := leaves, idx, [FirstStep(leaves[idx])];
    ghost var below: seq<seq<Node>> := [];
    AtStart(h, leaves, idx);
    while |layer| > 1
      invariant 0 <= pos < |layer| && OnTheWay(h, leaves, below, layer, idx, pos, steps)
      decreases |layer|
    {
      var above := CoarsenLayer(h, layer);
      if above.Err? { return Err(above.error); }
      ParentAt(h, layer, Groups(|layer|), pos / 4);
      var step := StepUp(h, layer, above.value[pos / 4], pos);
      OneUp(h, leaves, below, layer, above.value, idx, pos, steps, step.value);
      steps, below := steps + [step.value], below + [layer];
      pos, layer := pos / 4, above.value;
    }
    AtTop(h, leaves, below, layer, idx, pos, steps);
    return Ok(steps);
  }

  /** The steps so far are the path to the current layer of whatever tree the leaves have. */
  ghost predicate OnTheWay(h: Hasher, leaves: seq<Node>, below: seq<seq<Node>>, layer: seq<Node>, idx: nat, pos: nat, steps: seq<Step>)
    requires idx < |leaves| && pos < |layer|
  {
    && LayersGo(h, leaves, below, layer)
    && match Layers(h, leaves)
       case Err(_) => true
       case Ok(layers) =>
         && Stack(h, layers) && |below| < |layers| && layers[|below|] == layer
         && pos == Ancestor(idx, |below|) && steps == Path(h, layers, idx, |below|)
  }

  lemma AtStart(h: Hasher, leaves: seq<Node>, idx: nat)
    requires idx < |leaves|
    ensures OnTheWay(h, leaves, [], leaves, idx, idx, [FirstStep(leaves[idx])])
  {
    assert forall ls: seq<seq<Node>> :: [] + ls == ls;
    if Layers(h, leaves).Ok? { LayersStack(h, leaves); }
  }

  lemma OneUp(h: Hasher, leaves: seq<Node>, below: seq<seq<Node>>, layer: seq<Node>, above: seq<Node>,
              idx: nat, pos: nat, steps: seq<Step>, step: Step)
    requires idx < |leaves| && pos < |layer| && |layer| > 1 && Coarsened(h, layer) == Ok(above)
    requires OnTheWay(h, leaves, below, layer, idx, pos, steps)
    requires |above[pos / 4].face.children| == 4 && step == StepTo(above[pos / 4], pos % 4)
    ensures OnTheWay(h, leaves, below + [layer], above, idx, pos / 4, steps + [step])
  {
    LayersGoOn(h, leaves, below, layer, above);
    var all := Layers(h, leaves);
    if all.Ok? {
      var l := |below|;
      assert l < |all.value| - 1;
      assert Coarsened(h, all.value[l]) == Ok(all.value[l + 1]);
      PathPrefix(h, all.value, idx, l);
    }
  }

  lemma AtTop(h: Hasher, leaves: seq<Node>, below: seq<seq<Node>>, layer: seq<Node>, idx: nat, pos: nat, steps: seq<Step>)
    requires idx < |leaves| && pos < |layer| == 1 && OnTheWay(h, leaves, below, layer, idx, pos, steps)
    ensures Layers(h, leaves).Ok? && Stack(h, Layers(h, leaves).value)
    ensures steps == Path(h, Layers(h, leaves).value, idx, |Layers(h, leaves).value| - 1)
  {
    assert Layers(h, layer) == Ok([layer]);
  }
}

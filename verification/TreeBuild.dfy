/** When a tree can be built at all: exactly up to 65536 leaves whose sums fit a uint256. */
module TreeBuild {
  import opened Wrappers
  import opened Bytes
  import opened Nodes
  import opened Coarsening
  import opened TreeStats

  /** All nodes have the scale and its number of children. */
  predicate Uniform(layer: seq<Node>, scale: u32) {
    forall i :: 0 <= i < |layer| ==> layer[i].face.scale == scale && |layer[i].face.children| == Arity(scale)
  }

  predicate SumsFit(nodes: seq<Node>) {
    Sum(Volume, nodes) < U256 && Sum(Squares, nodes) < U256
  }

  lemma {:induction false} TallyFits(h: Hasher, chunk: seq<Node>, scale: u32)
    requires ValidScale(scale) && Uniform(chunk, scale) && SumsFit(chunk)
    ensures Tallied(h, chunk).Ok?
  {
    if chunk != [] {
      var init := chunk[..|chunk| - 1];
      TallyFits(h, init, scale);
      TallyIsSum(h, init, Volume);
      TallyIsSum(h, init, Squares);
    }
  }

  lemma ChunkFits(h: Hasher, layer: seq<Node>, p: nat, scale: u32)
    requires ValidScale(scale) && Uniform(layer, scale) && SumsFit(layer) && 4 * p < |layer|
    ensures Chunk(h, layer, p).Ok? && Uniform(Chunk(h, layer, p).value, scale) && SumsFit(Chunk(h, layer, p).value)
  {
    ChunkSum(h, layer, p, Volume);
    ChunkSum(h, layer, p, Squares);
    SumPart(Volume, layer, 4 * p, End(|layer|, p));
    SumPart(Squares, layer, 4 * p, End(|layer|, p));
  }

  lemma GrainFits(h: Hasher, layer: seq<Node>, p: nat, scale: u32)
    requires ValidScale(scale) && Uniform(layer, scale) && SumsFit(layer) && 4 * p < |layer|
    ensures Grain(h, layer, p).Ok?
  {
    ChunkFits(h, layer, p, scale);
    TallyFits(h, Chunk(h, layer, p).value, scale);
  }

  lemma {:induction false} ParentsFit(h: Hasher, layer: seq<Node>, k: nat, scale: u32)
    requires ValidScale(scale) && Uniform(layer, scale) && SumsFit(layer) && k <= Groups(|layer|)
    ensures Parents(h, layer, k).Ok?
  {
    if k > 0 {
      ParentsFit(h, layer, k - 1, scale);
      GrainFits(h, layer, k - 1, scale);
    }
  }

  lemma NextScale(layer: seq<Node>, scale: u32)
    requires layer != [] && layer[0].face.scale == scale && ValidScale(scale)
    ensures ParentScale(layer) == 4 * scale
    ensures ValidScale(4 * scale) <==> scale < 65536
  {
  }

  lemma Room(m: nat, scale: u32)
    requires ValidScale(scale) && 1 < m <= 65536 / scale
    ensures scale < 65536 && Groups(m) <= 65536 / (4 * scale)
  {
  }

  /** Coarsening multiplies the scale by four. */
  lemma ParentsUniform(h: Hasher, layer: seq<Node>, scale: u32)
    requires layer != [] && Uniform(layer, scale) && ValidScale(scale) && Coarsened(h, layer).Ok?
    ensures ValidScale(4 * scale) && Uniform(Coarsened(h, layer).value, 4 * scale)
  {
    var above := Coarsened(h, layer).value;
    NextScale(layer, scale);
    forall p | 0 <= p < |above| ensures above[p].face.scale == 4 * scale && |above[p].face.children| == 4 {
      ParentAt(h, layer, Groups(|layer|), p);
      GrainShape(h, layer, p);
    }
  }

  lemma {:induction false} LevelUniform(h: Hasher, layers: seq<seq<Node>>, l: nat)
    requires Stack(h, layers) && Uniform(layers[0], 1) && l < |layers|
    ensures ValidScale(Pow4(l)) && Uniform(layers[l], Pow4(l))
  {
    if l > 0 {
      LevelUniform(h, layers, l - 1);
      assert Coarsened(h, layers[l - 1]) == Ok(layers[l - 1 + 1]);
      ParentsUniform(h, layers[l - 1], Pow4(l - 1));
    }
  }

  lemma {:induction false} LayersFit(h: Hasher, layer: seq<Node>, scale: u32)
    requires layer != [] && ValidScale(scale) && Uniform(layer, scale) && |layer| <= 65536 / scale
    requires |layer| > 1 ==> SumsFit(layer)
    ensures Layers(h, layer).Ok?
    decreases |layer|
  {
    if |layer| > 1 {
      Room(|layer|, scale);
      NextScale(layer, scale);
      ParentsFit(h, layer, Groups(|layer|), scale);
      var above := Coarsened(h, layer).value;
      ParentsUniform(h, layer, scale);
      LayerTotal(h, layer, Volume);
      LayerTotal(h, layer, Squares);
      LayersFit(h, above, 4 * scale);
    }
  }

  lemma LayerTotal(h: Hasher, layer: seq<Node>, k: Stat)
    requires layer != [] && Coarsened(h, layer).Ok? && (k.Volume? || k.Squares?)
    ensures Sum(k, Coarsened(h, layer).value) == Sum(k, layer)
  {
    LeavesExact(layer, k);
    CoarsenedExact(h, layer, layer, 1, k);
    WholeSum(layer, Coarsened(h, layer).value, 4 * 1, k);
  }

  /** Building succeeds exactly when the leaves are few enough and their sums fit. */
  lemma BuildSucceedsExactly(h: Hasher, leaves: seq<Node>)
    requires leaves != [] && Uniform(leaves, 1)
    ensures Layers(h, leaves).Ok? <==> |leaves| <= 65536 && (|leaves| == 1 || SumsFit(leaves))
  {
    if Layers(h, leaves).Ok? {
      LayersStack(h, leaves);
      var layers := Layers(h, leaves).value;
      var top := |layers| - 1;
      LevelUniform(h, layers, top);
      LevelExact(h, layers, top, Volume);
      LevelTotals(h, layers, top, Volume);
      LevelTotals(h, layers, top, Squares);
    } else if |leaves| <= 65536 && (|leaves| == 1 || SumsFit(leaves)) {
      LayersFit(h, leaves, 1);
    }
  }

  /** So whether a block's tree can be built does not depend on the order of its leaves. */
  lemma BuildIgnoresOrder(h: Hasher, leaves: seq<Node>, leaves': seq<Node>)
    requires leaves != [] && Uniform(leaves, 1) && Uniform(leaves', 1) && multiset(leaves) == multiset(leaves')
    ensures leaves' != [] && (Layers(h, leaves).Ok? <==> Layers(h, leaves').Ok?)
  {
    assert |leaves| == |multiset(leaves)| == |multiset(leaves')| == |leaves'|;
    SumPermuted(Volume, leaves, leaves');
    SumPermuted(Squares, leaves, leaves');
    BuildSucceedsExactly(h, leaves);
    BuildSucceedsExactly(h, leaves');
  }
}

/** Coarse-graining a layer of nodes by four: core/tree/tree.go. */
module Coarsening {
  import opened Wrappers
  import opened Errors
  import opened Bytes
  import opened Sequences
  import opened Nodes

  const K: nat := 4

  /** The running sums of coarseGrain; the counts are uint64 and wrap. */
  datatype Tally = Tally(children: seq<Bytes32>, volume: u256, squares: u256, count: u64, contracts: u64)

  function Added(h: Hasher, t: Tally, n: Node): Result<Tally, Code> {
    match Digest(h, n.face)
    case Err(c) => Err(c)
    case Ok(d) =>
      if t.volume + n.face.volume >= U256 || t.squares + n.squares >= U256 then Err(ArithmeticOverflow)
      else Ok(Tally(t.children + [d], t.volume + n.face.volume, t.squares + n.squares,
                    (t.count + n.count) % U64, (t.contracts + n.contracts) % U64))
  }

  function Tallied(h: Hasher, chunk: seq<Node>): (r: Result<Tally, Code>)
    ensures r.Ok? ==> |r.value.children| == |chunk|
  {
    if chunk == [] then Ok(Tally([], 0, 0, 0, 0))
    else
      match Tallied(h, chunk[..|chunk| - 1])
      case Err(c) => Err(c)
      case Ok(t) => Added(h, t, chunk[|chunk| - 1])
  }

  function Squared(x: nat): nat {
    x * x
  }

  /** floor(squares / count) - floor(volume / count)^2, clamped at zero. */
  function Spread(volume: u256, squares: u256, count: u64): u256 {
    if count == 0 then 0
    else
      var second, mean := squares / count, Squared(volume / count);
      if second < mean then 0 else second - mean
  }

  function Parent(h: Hasher, scale: u32, t: Tally): Node {
    var n := Node(Face(scale, t.volume, Spread(t.volume, t.squares, t.count), 0, t.children), t.squares, t.count, t.contracts);
    n.(face := n.face.(sig := Derived(h, n)))
  }

  function CoarseGrain(h: Hasher, chunk: seq<Node>, scale: u32): Result<Node, Code> {
    match Tallied(h, chunk)
    case Err(c) => Err(c)
    case Ok(t) => Ok(Parent(h, scale, t))
  }

  function ParentScale(layer: seq<Node>): u32
    requires layer != []
  {
    layer[0].face.scale * 4 % U32
  }

  function Groups(n: nat): nat {
    (n + 3) / 4
  }

  function End(n: nat, p: nat): nat {
    if 4 * p + 4 > n then n else 4 * p + 4
  }

  /** The children of parent p, padded to four with null nodes of their scale. */
  function Chunk(h: Hasher, layer: seq<Node>, p: nat): (r: Result<seq<Node>, Code>)
    requires 4 * p < |layer|
    ensures r.Ok? ==> |r.value| == 4
  {
    var own := layer[4 * p..End(|layer|, p)];
    if |own| == 4 then Ok(own)
    else
      match NullNode(h, layer[0].face.scale)
      case Err(c) => Err(c)
      case Ok(pad) => Ok(own + Repeated(pad, 4 - |own|))
  }

  function Grain(h: Hasher, layer: seq<Node>, p: nat): Result<Node, Code>
    requires 4 * p < |layer|
  {
    match Chunk(h, layer, p)
    case Err(c) => Err(c)
    case Ok(chunk) => CoarseGrain(h, chunk, ParentScale(layer))
  }

  /** The first k parents. */
  function Parents(h: Hasher, layer: seq<Node>, k: nat): (r: Result<seq<Node>, Code>)
    requires k <= Groups(|layer|)
    ensures r.Ok? ==> |r.value| == k
  {
    if k == 0 then Ok([])
    else
      match Parents(h, layer, k - 1)
      case Err(c) => Err(c)
      case Ok(ps) =>
        match Grain(h, layer, k - 1)
        case Err(c) => Err(c)
        case Ok(n) => Ok(ps + [n])
  }

  function Coarsened(h: Hasher, layer: seq<Node>): (r: Result<seq<Node>, Code>)
    requires layer != []
    ensures r.Ok? ==> |r.value| == Groups(|layer|)
  {
    if !ValidScale(ParentScale(layer)) then Err(ScaleDomainFault) else Parents(h, layer, Groups(|layer|))
  }

  /** All layers from a leaf layer up to a single node. */
  function Layers(h: Hasher, leaves: seq<Node>): (r: Result<seq<seq<Node>>, Code>)
    requires leaves != []
    ensures r.Ok? ==> r.value != [] && r.value[0] == leaves
    decreases |leaves|
  {
    if |leaves| == 1 then Ok([leaves])
    else
      match Coarsened(h, leaves)
      case Err(c) => Err(c)
      case Ok(above) =>
        match Layers(h, above)
        case Err(c) => Err(c)
        case Ok(rest) => Ok([leaves] + rest)
  }

  // ---------------------------------------------------------------- stacks of layers

  /** Each layer is the coarsening of the one below, up to a single node. */
  predicate Stack(h: Hasher, layers: seq<seq<Node>>) {
    && layers != [] && |layers[|layers| - 1]| == 1
    && (forall l :: 0 <= l < |layers| ==> layers[l] != [])
    && (forall l :: 0 <= l < |layers| - 1 ==> |layers[l]| > 1)
    && (forall l :: 0 <= l < |layers| - 1 ==> Coarsened(h, layers[l]) == Ok(layers[l + 1]))
  }

  /** Building yields a stack, and a stack over some leaves is what building yields. */
  lemma {:induction false} StackIsLayers(h: Hasher, layers: seq<seq<Node>>)
    requires Stack(h, layers)
    ensures Layers(h, layers[0]) == Ok(layers)
    decreases |layers|
  {
    if |layers| > 1 {
      var rest := layers[1..];
      assert Stack(h, rest) by {
        forall l | 0 <= l < |rest| - 1 ensures Coarsened(h, rest[l]) == Ok(rest[l + 1]) {
          assert rest[l] == layers[l + 1] && rest[l + 1] == layers[l + 1 + 1];
        }
      }
      StackIsLayers(h, rest);
      assert Coarsened(h, layers[0]) == Ok(layers[0 + 1]);
      assert [layers[0]] + rest == layers;
    } else {
      assert layers == [layers[0]];
    }
  }

  lemma {:induction false} LayersStack(h: Hasher, leaves: seq<Node>)
    requires leaves != [] && Layers(h, leaves).Ok?
    ensures Stack(h, Layers(h, leaves).value)
    decreases |leaves|
  {
    if |leaves| > 1 {
      var above := Coarsened(h, leaves).value;
      LayersStack(h, above);
      var rest := Layers(h, above).value;
      var layers := [leaves] + rest;
      forall l | 0 <= l < |layers| - 1 ensures Coarsened(h, layers[l]) == Ok(layers[l + 1]) && |layers[l]| > 1 {
        if l > 0 { assert Coarsened(h, rest[l - 1]) == Ok(rest[l - 1 + 1]); }
      }
    }
  }

  // ---------------------------------------------------------------- facts about one layer

  lemma {:induction false} ParentAt(h: Hasher, layer: seq<Node>, k: nat, p: nat)
    requires p < k <= Groups(|layer|) && Parents(h, layer, k).Ok?
    ensures Grain(h, layer, p) == Ok(Parents(h, layer, k).value[p])
  {
    if p < k - 1 { ParentAt(h, layer, k - 1, p); }
  }

  lemma GrainShape(h: Hasher, layer: seq<Node>, p: nat)
    requires 4 * p < |layer| && Grain(h, layer, p).Ok?
    ensures var f := Grain(h, layer, p).value.face; f.scale == ParentScale(layer) && |f.children| == 4
  {
  }

  /** A layer is the coarsening of another exactly when each node is the grain at its place. */
  lemma {:induction false} ParentsFrom(h: Hasher, layer: seq<Node>, above: seq<Node>, k: nat)
    requires k <= |above| == Groups(|layer|)
    requires forall p :: 0 <= p < k ==> Grain(h, layer, p) == Ok(above[p])
    ensures Parents(h, layer, k) == Ok(above[..k])
  {
    if k > 0 {
      ParentsFrom(h, layer, above, k - 1);
      assert above[..k - 1] + [above[k - 1]] == above[..k];
    }
  }

  lemma CoarsenedFrom(h: Hasher, layer: seq<Node>, above: seq<Node>)
    requires layer != [] && ValidScale(ParentScale(layer)) && |above| == Groups(|layer|)
    requires forall p :: 0 <= p < |above| ==> Grain(h, layer, p) == Ok(above[p])
    ensures Coarsened(h, layer) == Ok(above)
  {
    ParentsFrom(h, layer, above, |above|);
    assert above[..|above|] == above;
  }

  /** A parent depends only on its own four children and the scale of the layer. */
  lemma GrainLocal(h: Hasher, layer: seq<Node>, layer': seq<Node>, p: nat)
    requires |layer| == |layer'| && 4 * p < |layer|
    requires layer[0].face.scale == layer'[0].face.scale
    requires forall i :: 4 * p <= i < End(|layer|, p) ==> layer[i] == layer'[i]
    ensures Grain(h, layer, p) == Grain(h, layer', p)
  {
    assert layer[4 * p..End(|layer|, p)] == layer'[4 * p..End(|layer|, p)];
  }
}

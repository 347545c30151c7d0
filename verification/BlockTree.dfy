/** The tree of a block, from its transactions and the contracts it touched. */
module BlockTree {
  import opened Wrappers
  import opened Bytes
  import opened Nodes
  import opened Coarsening
  import opened TreeStats
  import opened TreeBuild
  import opened TreeProofs
  import opened RGTree

  /** A contract's state node as the state machine makes it: its balance and its state root. */
  function ContractLeaf(balance: nat, stateRoot: Bytes32): Node
    requires Squared(balance) < U256
  {
    RootFits(balance);
    Node(Face(1, balance, 0, ATOMIC, [stateRoot]), Squared(balance), 1, 1)
  }

  ghost predicate ContractLeaves(nodes: seq<Node>) {
    forall i :: 0 <= i < |nodes| ==>
      exists balance, stateRoot :: Squared(balance) < U256 && nodes[i] == ContractLeaf(balance, stateRoot)
  }

  predicate Leafy(nodes: seq<Node>) {
    Uniform(nodes, 1) && Singles(nodes) && forall i :: 0 <= i < |nodes| ==> nodes[i].contracts <= 1
  }

  lemma {:induction false} FewContracts(nodes: seq<Node>)
    requires Leafy(nodes)
    ensures Sum(Contracts, nodes) <= |nodes|
  {
    if nodes != [] { FewContracts(nodes[..|nodes| - 1]); }
  }

  lemma {:induction false} AtomicsLeafy(txs: seq<LeafTx>)
    requires Atomics(txs).Ok?
    ensures Leafy(Atomics(txs).value)
  {
    if txs != [] { AtomicsLeafy(txs[..|txs| - 1]); }
  }

  lemma ContractsLeafy(nodes: seq<Node>)
    requires ContractLeaves(nodes)
    ensures Leafy(nodes)
  {
  }

  /** Every block that has a tree has one of at most 65536 leaves, each a single item of scale one. */
  lemma BlockLeaves(h: Hasher, txs: seq<LeafTx>, contracts: seq<Node>)
    requires (txs != [] || contracts != []) && ContractLeaves(contracts) && Built(h, txs, contracts).Ok?
    ensures var layers := Built(h, txs, contracts).value.0;
            && Stack(h, layers) && Leafy(layers[0]) && |layers[0]| == |txs| + |contracts| <= 65536
            && Digest(h, layers[|layers| - 1][0].face) == Ok(Built(h, txs, contracts).value.1)
  {
    BuiltParts(h, txs, contracts);
    AtomicsLeafy(txs);
    ContractsLeafy(contracts);
    BothLeafy(Atomics(txs).value, contracts);
    BuildSucceedsExactly(h, Atomics(txs).value + contracts);
  }

  lemma BuiltParts(h: Hasher, txs: seq<LeafTx>, contracts: seq<Node>)
    requires (txs != [] || contracts != []) && Built(h, txs, contracts).Ok?
    ensures Atomics(txs).Ok? && |Atomics(txs).value| == |txs|
    ensures var leaves, (layers, root) := Atomics(txs).value + contracts, Built(h, txs, contracts).value;
            && leaves != [] && Layers(h, leaves) == Ok(layers) && Stack(h, layers) && layers[0] == leaves
            && Digest(h, layers[|layers| - 1][0].face) == Ok(root)
  {
    LayersStack(h, Atomics(txs).value + contracts);
  }

  lemma BothLeafy(a: seq<Node>, b: seq<Node>)
    requires Leafy(a) && Leafy(b)
    ensures Leafy(a + b)
  {
  }

  /** The leaves below node p of a level. */
  function Under(leaves: seq<Node>, l: nat, p: nat): seq<Node> {
    var lo, hi := Start(p, Pow4(l)), Min(Start(p + 1, Pow4(l)), |leaves|);
    if lo <= hi then leaves[lo..hi] else []
  }

  /** The node has the counts, sums and spread of these single items. */
  predicate Carries(n: Node, items: seq<Node>) {
    && n.count == |items| > 0 && n.contracts == Sum(Contracts, items)
    && n.face.volume == Sum(Volume, items) && n.squares == Sum(Squares, items)
    && n.face.variance == n.squares / n.count - Squared(n.face.volume / n.count)
  }

  /** Its inner nodes carry the numbers of the items below them. */
  lemma BlockNumbers(h: Hasher, txs: seq<LeafTx>, contracts: seq<Node>, l: nat, p: nat)
    requires (txs != [] || contracts != []) && ContractLeaves(contracts) && Built(h, txs, contracts).Ok?
    requires 0 < l < |Built(h, txs, contracts).value.0| && p < |Built(h, txs, contracts).value.0[l]|
    ensures var layers := Built(h, txs, contracts).value.0; Carries(layers[l][p], Under(layers[0], l, p))
  {
    BlockLeaves(h, txs, contracts);
    NumbersExact(h, Built(h, txs, contracts).value.0, l, p);
  }

  lemma NumbersExact(h: Hasher, layers: seq<seq<Node>>, l: nat, p: nat)
    requires Stack(h, layers) && Leafy(layers[0]) && |layers[0]| < U64 && 0 < l < |layers| && p < |layers[l]|
    ensures Carries(layers[l][p], Under(layers[0], l, p))
  {
    var leaves, w := layers[0], Pow4(l);
    CountOfSingles(leaves);
    LevelExact(h, layers, l, Volume);
    LevelExact(h, layers, l, Squares);
    LevelExact(h, layers, l, Count);
    FewContracts(leaves);
    LevelExact(h, layers, l, Contracts);
    assert forall k: Stat :: Exact(leaves, layers[l], w, k) ==> ExactAt(leaves, layers[l], w, p, k);
    CountOfSingles(Under(leaves, l, p));
    NoClamp(h, layers, l, p);
  }

  /** And the proof of each of its leaves is accepted against the block's root. */
  lemma BlockProofs(h: Hasher, txs: seq<LeafTx>, contracts: seq<Node>, idx: nat)
    requires ContractLeaves(contracts) && Built(h, txs, contracts).Ok? && idx < |txs| + |contracts|
    ensures var (layers, root) := Built(h, txs, contracts).value;
            && Stack(h, layers) && idx < |layers[0]| && |layers[0][idx].face.children| == 1
            && Accepted(h, Path(h, layers, idx, |layers| - 1), layers[0][idx].face.children[0], root)
  {
    BlockLeaves(h, txs, contracts);
    var (layers, root) := Built(h, txs, contracts).value;
    var id := layers[0][idx].face.children[0];
    assert layers[0][idx].face.children == [id];
    ProofComplete(h, layers, idx, id, root);
  }
}

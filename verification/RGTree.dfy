/** The retained tree and its incremental update: core/tree/tree.go. */
module RGTree {
  import opened Wrappers
  import opened Errors
  import opened Bytes
  import opened Sequences
  import opened Nodes
  import opened Coarsening

  const MAX_TXS: nat := 65536

  /** What the tree reads of a transaction: its ID, its value and whether it is a contract transaction. */
  datatype LeafTx = LeafTx(id: Result<Bytes32, Code>, value: int, contract: bool)

  datatype Update = Update(index: int, tx: LeafTx)

  function Abs(x: int): nat {
    if x < 0 then -x else x
  }

  function Atomic(t: LeafTx): Result<Node, Code> {
    if t.id.Err? then Err(t.id.error)
    else if Squared(Abs(t.value)) >= U256 then Err(ArithmeticOverflow)
    else
      RootFits(Abs(t.value));
      Ok(Node(Face(1, Abs(t.value), 0, ATOMIC, [t.id.value]), Squared(Abs(t.value)), 1, if t.contract then 1 else 0))
  }

  lemma SquareGrows(v: nat)
    ensures v <= Squared(v)
  {
  }

  lemma RootFits(v: nat)
    requires Squared(v) < U256
    ensures v < U256
  {
    SquareGrows(v);
  }

  function Atomics(txs: seq<LeafTx>): (r: Result<seq<Node>, Code>)
    ensures r.Ok? ==> |r.value| == |txs|
  {
    if txs == [] then Ok([])
    else
      match Atomics(txs[..|txs| - 1])
      case Err(c) => Err(c)
      case Ok(ns) =>
        match Atomic(txs[|txs| - 1])
        case Err(c) => Err(c)
        case Ok(n) => Ok(ns + [n])
  }

  function EmptyRoot(h: Hasher): Bytes32 {
    h.of(Face(1, 0, 0, STAGNANT, [h.emptyBlock]))
  }

  /** The layers and root BuildTree ends with. */
  function Built(h: Hasher, txs: seq<LeafTx>, contracts: seq<Node>): Result<(seq<seq<Node>>, Bytes32), Code> {
    if txs == [] && contracts == [] then Ok(([[]], EmptyRoot(h)))
    else if |txs| > MAX_TXS then Err(DosSizeExceeded)
    else
      match Atomics(txs)
      case Err(c) => Err(c)
      case Ok(own) =>
        match Layers(h, own + contracts)
        case Err(c) => Err(c)
        case Ok(layers) =>
          LayersStack(h, own + contracts);
          match Digest(h, layers[|layers| - 1][0].face)
          case Err(c) => Err(c)
          case Ok(d) => Ok((layers, d))
  }

  // ---------------------------------------------------------------- the loops

  method GrainChunk(h: Hasher, chunk: seq<Node>, scale: u32) returns (r: Result<Node, Code>)
    ensures r == CoarseGrain(h, chunk, scale)
  {
    var t := Tally([], 0, 0, 0, 0);
    for i := 0 to |chunk|
      invariant Tallied(h, chunk[..i]) == Ok(t)
    {
      assert chunk[..i + 1][..i] == chunk[..i];
      var d := Digest(h, chunk[i].face);
      var volume, squares := t.volume + chunk[i].face.volume, t.squares + chunk[i].squares;
      if d.Err? || volume >= U256 || squares >= U256 {
        TallyStays(h, chunk, i + 1);
        return Err(if d.Err? then d.error else ArithmeticOverflow);
      }
      t := Tally(t.children + [d.value], volume, squares, (t.count + chunk[i].count) % U64, (t.contracts + chunk[i].contracts) % U64);
    }
    assert chunk[..|chunk|] == chunk;
    return Ok(Parent(h, scale, t));
  }

  lemma {:induction false} TallyStays(h: Hasher, chunk: seq<Node>, k: nat)
    requires k <= |chunk| && Tallied(h, chunk[..k]).Err?
    ensures Tallied(h, chunk) == Err(Tallied(h, chunk[..k]).error)
  {
    var m := |chunk| - 1;
    if k <= m {
      assert chunk[..m][..k] == chunk[..k];
      TallyStays(h, chunk[..m], k);
    } else {
      assert chunk[..k] == chunk;
    }
  }

  /** rebuildChunk: the parent at p from its padded children. */
  method RebuildChunk(h: Hasher, layer: seq<Node>, p: nat) returns (r: Result<Node, Code>)
    requires 4 * p < |layer|
    ensures r == Grain(h, layer, p)
  {
    var end := if 4 * p + 4 > |layer| then |layer| else 4 * p + 4;
    var own := layer[4 * p..end];
    var chunk := own;
    while |chunk| < K
      invariant |own| <= |chunk| <= K
      invariant |chunk| > |own| ==> NullNode(h, layer[0].face.scale).Ok?
      invariant |chunk| > |own| ==> chunk == own + Repeated(NullNode(h, layer[0].face.scale).value, |chunk| - |own|)
      invariant |chunk| == |own| ==> chunk == own
    {
      var pad := NullNode(h, layer[0].face.scale);
      if pad.Err? { return Err(pad.error); }
      chunk := chunk + [pad.value];
    }
    r := GrainChunk(h, chunk, layer[0].face.scale * 4 % U32);
  }

  method CoarsenLayer(h: Hasher, layer: seq<Node>) returns (r: Result<seq<Node>, Code>)
    requires layer != []
    ensures r == Coarsened(h, layer)
  {
    if !ValidScale(layer[0].face.scale * 4 % U32) { return Err(ScaleDomainFault); }
    var parents := [];
    while 4 * |parents| < |layer|
      invariant |parents| <= Groups(|layer|)
      invariant Parents(h, layer, |parents|) == Ok(parents)
    {
      var n := RebuildChunk(h, layer, |parents|);
      if n.Err? {
        ParentsStay(h, layer, |parents| + 1, Groups(|layer|));
        return Err(n.error);
      }
      parents := parents + [n.value];
    }
    return Ok(parents);
  }

  lemma {:induction false} ParentsStay(h: Hasher, layer: seq<Node>, k: nat, m: nat)
    requires k <= m <= Groups(|layer|) && Parents(h, layer, k).Err?
    ensures Parents(h, layer, m) == Parents(h, layer, k)
  {
    if k < m { ParentsStay(h, layer, k, m - 1); }
  }

  method AtomicLayer(txs: seq<LeafTx>) returns (r: Result<seq<Node>, Code>)
    ensures r == Atomics(txs)
  {
    var nodes := [];
    for i := 0 to |txs|
      invariant Atomics(txs[..i]) == Ok(nodes)
    {
      assert txs[..i + 1][..i] == txs[..i];
      var n := Atomic(txs[i]);
      if n.Err? {
        AtomicsStay(txs, i + 1);
        return Err(n.error);
      }
      nodes := nodes + [n.value];
    }
    assert txs[..|txs|] == txs;
    return Ok(nodes);
  }

  lemma {:induction false} AtomicsStay(txs: seq<LeafTx>, k: nat)
    requires k <= |txs| && Atomics(txs[..k]).Err?
    ensures Atomics(txs) == Atomics(txs[..k])
  {
    var m := |txs| - 1;
    if k <= m {
      assert txs[..m][..k] == txs[..k];
      AtomicsStay(txs[..m], k);
    } else {
      assert txs[..k] == txs;
    }
  }

  /** The layers above a leaf layer, coarsened until one node is left. */
  method BuildLayers(h: Hasher, leaves: seq<Node>) returns (r: Result<seq<seq<Node>>, Code>)
    requires leaves != []
    ensures r == Layers(h, leaves)
  {
    var layers, current := [leaves], leaves;
    ghost var below: seq<seq<Node>> := [];
    assert forall ls: seq<seq<Node>> :: below + ls == ls;
    while |current| > 1
      invariant current != [] && layers == below + [current]
      invariant LayersGo(h, leaves, below, current)
      decreases |current|
    {
      var above := CoarsenLayer(h, current);
      if above.Err? { return Err(above.error); }
      LayersGoOn(h, leaves, below, current, above.value);
      below := layers;
      current := above.value;
      layers := layers + [current];
    }
    return Ok(layers);
  }

  /** What is left to build is the layers of the current one. */
  ghost predicate LayersGo(h: Hasher, leaves: seq<Node>, below: seq<seq<Node>>, current: seq<Node>)
    requires leaves != [] && current != []
  {
    match Layers(h, current)
    case Err(c) => Layers(h, leaves) == Err(c)
    case Ok(rest) => Layers(h, leaves) == Ok(below + rest)
  }

  lemma LayersGoOn(h: Hasher, leaves: seq<Node>, below: seq<seq<Node>>, current: seq<Node>, above: seq<Node>)
    requires leaves != [] && |current| > 1 && Coarsened(h, current) == Ok(above) && LayersGo(h, leaves, below, current)
    ensures LayersGo(h, leaves, below + [current], above)
  {
    var rest := Layers(h, above);
    if rest.Ok? { assert below + ([current] + rest.value) == (below + [current]) + rest.value; }
  }

  // ---------------------------------------------------------------- the tree

  /** Some replacement for the index is among the updates. */
  predicate Touched(updates: seq<Update>, index: int) {
    exists u :: u in updates && u.index == index
  }

  /** The leaves after an update: each touched one replaced by one of its updates. */
  ghost predicate Patched(leaves: seq<Node>, updates: seq<Update>, leaves': seq<Node>) {
    && |leaves'| == |leaves|
    && (forall u :: u in updates ==> 0 <= u.index < |leaves| && leaves[u.index].face.sig == ATOMIC)
    && (forall i :: 0 <= i < |leaves| && !Touched(updates, i) ==> leaves'[i] == leaves[i])
    && (forall i :: 0 <= i < |leaves| && Touched(updates, i) ==>
          exists u :: u in updates && u.index == i && Atomic(u.tx) == Ok(leaves'[i]))
  }

  /** Layers that differ at most at the marked positions. */
  ghost predicate Agree(was: seq<Node>, now: seq<Node>, marked: set<int>) {
    && |was| == |now| > 0 && was[0].face.scale == now[0].face.scale
    && (forall i :: i in marked ==> 0 <= i < |now|)
    && forall i :: 0 <= i < |was| && i !in marked ==> was[i] == now[i]
  }

  /** Parents whose children are all unmarked stay as they are. */
  lemma UnmarkedParent(h: Hasher, was: seq<Node>, now: seq<Node>, marked: set<int>, p: nat)
    requires Agree(was, now, marked) && 4 * p < |was|
    requires forall i :: i in marked ==> i / 4 != p
    ensures Grain(h, now, p) == Grain(h, was, p)
  {
    forall i | 4 * p <= i < End(|was|, p) ensures was[i] == now[i] { assert i / 4 == p; }
    GrainLocal(h, was, now, p);
  }

  predicate SameBut(was: seq<seq<Node>>, layers: seq<seq<Node>>, level: nat) {
    |layers| == |was| > level && forall l :: 0 <= l < |was| && l != level ==> layers[l] == was[l]
  }

  /** Layers of the same sizes, beginning with nodes of the same scales. */
  predicate SameFrame(was: seq<seq<Node>>, layers: seq<seq<Node>>) {
    && |layers| == |was|
    && (forall l :: 0 <= l < |was| ==> |layers[l]| == |was[l]|)
    && (forall l :: 0 <= l < |was| && was[l] != [] ==> layers[l][0].face.scale == was[l][0].face.scale)
  }

  /** Sizes and scales are those of a tree, whether or not each parent belongs to its children. */
  predicate Framed(layers: seq<seq<Node>>) {
    && layers != [] && (layers[0] == [] ==> layers == [[]])
    && (layers[0] != [] ==> |layers[|layers| - 1]| == 1)
    && (forall l :: 0 <= l < |layers| - 1 ==> |layers[l]| > 1 && |layers[l + 1]| == Groups(|layers[l]|))
    && (forall l :: 0 <= l < |layers| - 1 ==>
          ValidScale(ParentScale(layers[l])) && layers[l + 1][0].face.scale == ParentScale(layers[l]))
  }

  lemma StaysFramed(was: seq<seq<Node>>, layers: seq<seq<Node>>)
    requires Framed(was) && SameFrame(was, layers)
    ensures Framed(layers)
  {
  }

  lemma StackFramed(h: Hasher, layers: seq<seq<Node>>)
    requires Stack(h, layers)
    ensures Framed(layers)
  {
    forall l | 0 <= l < |layers| - 1
      ensures |layers[l + 1]| == Groups(|layers[l]|) && ValidScale(ParentScale(layers[l])) && layers[l + 1][0].face.scale == ParentScale(layers[l])
    {
      assert Coarsened(h, layers[l]) == Ok(layers[l + 1]);
      ParentAt(h, layers[l], Groups(|layers[l]|), 0);
      GrainShape(h, layers[l], 0);
    }
  }

  /** A leaf that is declared atomic has the scale of one, as deriveSignature would have it. */
  predicate Declared(leaves: seq<Node>) {
    forall i :: 0 <= i < |leaves| && leaves[i].face.sig == ATOMIC ==> leaves[i].face.scale == 1
  }

  /** The parents of marked positions. */
  function Raised(marked: set<int>): set<int> {
    set i | i in marked :: i / 4
  }

  /** The marked positions as seen from a level above. */
  function Up(positions: set<int>, l: nat): set<int> {
    if l == 0 then positions else Raised(Up(positions, l - 1))
  }

  /** The same for every level of a tree. */
  ghost function Paths(positions: set<int>, n: nat): (marks: seq<set<int>>)
    ensures |marks| == n && forall l :: 0 <= l < n ==> marks[l] == Up(positions, l)
  {
    seq(n, l requires 0 <= l < n => Up(positions, l))
  }

  class Tree {
    const h: Hasher
    var layers: seq<seq<Node>>
    var root: Bytes32
    var dirty: bool

    /** What every call keeps, failed or not. */
    ghost predicate Usable()
      reads this
    {
      Framed(layers) && Declared(layers[0]) && (layers[0] == [] ==> !dirty)
    }

    /** The layers are those of the leaves, and the cached root is theirs unless marked dirty. */
    ghost predicate Valid()
      reads this
    {
      && Usable()
      && (layers[0] == [] ==> root == EmptyRoot(h))
      && (layers[0] != [] ==> Stack(h, layers) && Digest(h, layers[|layers| - 1][0].face).Ok?)
      && (layers[0] != [] && !dirty ==> Digest(h, layers[|layers| - 1][0].face) == Ok(root))
    }

    constructor (hasher: Hasher, ls: seq<seq<Node>>, r: Bytes32)
      ensures h == hasher && layers == ls && root == r && !dirty
    {
      h, layers, root, dirty := hasher, ls, r, false;
    }

    /** Root: the cached one, recomputed after an update if the top node has a digest. */
    method Root() returns (r: Bytes32)
      requires Usable()
      modifies this`root, this`dirty
      ensures Usable() && r == root
      ensures old(dirty) && Digest(h, layers[|layers| - 1][0].face).Ok? ==> Digest(h, layers[|layers| - 1][0].face) == Ok(r) && !dirty
      ensures !old(dirty) || Digest(h, layers[|layers| - 1][0].face).Err? ==> r == old(root) && dirty == old(dirty)
      ensures old(Valid()) ==> Valid() && (layers[0] == [] ==> r == EmptyRoot(h))
      ensures old(Valid()) && layers[0] != [] ==> Digest(h, layers[|layers| - 1][0].face) == Ok(r)
    {
      if dirty {
        var d := Digest(h, layers[|layers| - 1][0].face);
        if d.Err? { return root; }
        root := d.value;
        dirty := false;
      }
      return root;
    }

    /** Replaces leaves in ascending order of index up to the first refused one. */
    method ReplaceLeaves(updates: seq<Update>, ghost was: seq<Node>) returns (err: Option<Code>, ghost taken: nat)
      requires layers != [] && layers[0] == was
      requires Ascending(updates)
      modifies this`layers
      ensures SameBut(old(layers), layers, 0)
      ensures TakenUpTo(was, updates, taken) && Patched(was, updates[..taken], layers[0])
      ensures err.None? ==> taken == |updates|
      ensures err.Some? ==> taken < |updates| && Refusal(was, updates[taken]) == err
    {
      taken := 0;
      for i := 0 to |updates|
        invariant SameBut(old(layers), layers, 0) && taken == i
        invariant TakenUpTo(was, updates, i) && Patched(was, updates[..i], layers[0])
      {
        var u, leaves := updates[i], layers[0];
        Untouched(was, updates, i, leaves);
        if u.index < 0 || u.index >= |leaves| { return Some(CanonicalEncodingDistortion), taken; }
        if leaves[u.index].face.sig != ATOMIC { return Some(CanonicalEncodingDistortion), taken; }
        var n := Atomic(u.tx);
        if n.Err? { return Some(n.error), taken; }
        layers := layers[0 := leaves[u.index := n.value]];
        PatchOne(was, updates, i, leaves, n.value);
        taken := taken + 1;
      }
      return None, taken;
    }

    /**
     * Recomputes the parents of the marked positions, in whatever order the set is read, until one
     * cannot be. The others stay as they are, right or wrong.
     */
    method RebuildLevel(level: nat, marked: set<int>) returns (err: Option<Code>, parents: set<int>, ghost left: set<int>)
      requires level + 1 < |layers| && |layers[level + 1]| == Groups(|layers[level]|)
      requires forall i :: i in marked ==> 0 <= i < |layers[level]|
      modifies this`layers
      ensures SameBut(old(layers), layers, level + 1) && parents == Raised(marked) && left <= parents
      ensures Halfway(h, layers[level], old(layers)[level + 1], layers[level + 1], parents, left)
      ensures err.None? ==> left == {}
      ensures err.Some? ==> Stuck(h, layers[level], left)
    {
      parents := Raised(marked);
      ghost var before := layers[level + 1];
      var todo := parents;
      while todo != {}
        invariant todo <= parents && SameBut(old(layers), layers, level + 1)
        invariant Halfway(h, layers[level], before, layers[level + 1], parents, todo)
      {
        var p :| p in todo;
        var n := RebuildChunk(h, layers[level], p);
        if n.Err? { return Some(n.error), parents, todo; }
        HalfwayOn(h, layers[level], before, layers[level + 1], parents, todo, p, n.value);
        layers := layers[level + 1 := layers[level + 1][p := n.value]];
        todo := todo - {p};
      }
      return None, parents, {};
    }

    /** All levels above the marked leaves. */
    method RebuildAll(positions: set<int>, ghost was: seq<seq<Node>>) returns (err: Option<Code>, ghost level: nat)
      requires Framed(was) && was[0] != [] && SameBut(was, layers, 0) && Agree(was[0], layers[0], positions)
      modifies this`layers
      ensures SameFrame(was, layers) && layers[0] == old(layers)[0]
      ensures err.None? ==> level == |was| - 1 && Renewed(h, was, layers, Paths(positions, |was|), level)
      ensures err.Some? ==> Halted(h, was, layers, Paths(positions, |was|), level)
    {
      var marked, at := positions, 0;
      ghost var marks := Paths(positions, |was|);
      level := 0;
      while at < |layers| - 1
        invariant level == at && at < |was| && marked == marks[at] && layers != [] && layers[0] == old(layers)[0]
        invariant Rebuilt(h, was, layers, marks, at)
      {
        ghost var before := layers;
        ghost var left;
        err, marked, left := RebuildLevel(at, marked);
        if err.Some? {
          HaltedLevel(h, was, before, layers, marks, at, left);
          HaltedFrame(h, was, before, layers, marks, at, left);
          return;
        }
        RebuiltLevel(h, was, before, layers, marks, at);
        at, level := at + 1, level + 1;
      }
      RebuiltFrame(h, was, layers, marks, at);
      return None, level;
    }

    /**
     * UpdateLeaves, for the updates `chosen` among those given and the number `taken` of them that
     * passed their checks. On success the layers are those of building the new leaves from scratch
     * exactly when every parent off the updated paths belonged to its children before the call, as
     * in a tree on which no call has failed.
     */
    method UpdateLeaves(updates: seq<Update>) returns (err: Option<Code>, ghost chosen: seq<Update>, ghost taken: nat)
      requires Usable()
      modifies this
      ensures Usable()
      ensures err.Some? || updates == [] ==> root == old(root) && dirty == old(dirty)
      ensures err.None? && updates != [] ==> root == old(root) && dirty
      ensures updates == [] ==> err.None? && layers == old(layers)
      ensures Selects(updates, chosen) && Aftermath(h, old(layers), layers, chosen, taken, err)
      ensures err.None? ==> Renews(h, old(layers), layers, updates, chosen)
      ensures old(Valid()) ==> TreeAftermath(h, old(layers), layers, chosen, taken, err) && (err.None? ==> Valid())
    {
      chosen, taken := [], 0;
      if updates == [] {
        NoUpdates(h, layers);
        return None, chosen, taken;
      }
      var picked := Dedupe(updates);
      chosen := picked;
      err, taken := Apply(picked);
      if old(Valid()) { ValidAftermath(h, old(layers), layers, chosen, taken, err); }
      if err.None? {
        AllTaken(h, old(layers), layers, updates, chosen, taken);
        dirty := true;
      }
    }

    /** Replaces the leaves and recomputes what is above them. */
    method Apply(chosen: seq<Update>) returns (err: Option<Code>, ghost taken: nat)
      requires Framed(layers) && Declared(layers[0]) && chosen != [] && Ascending(chosen)
      modifies this`layers
      ensures Framed(layers) && Declared(layers[0]) && layers != [] && (layers[0] == [] <==> old(layers)[0] == [])
      ensures Aftermath(h, old(layers), layers, chosen, taken, err) && (err.None? ==> layers[0] != [])
    {
      ghost var was := layers;
      err, taken := ReplaceLeaves(chosen, layers[0]);
      if err.Some? {
        RefusedAftermath(h, was, layers, chosen, taken, err);
        return;
      }
      assert chosen[..taken] == chosen && chosen[0] in chosen;
      var positions := set u | u in chosen :: u.index;
      PatchedAgrees(was[0], chosen, layers[0], positions);
      ghost var level;
      err, level := RebuildAll(positions, was);
      StaysFramed(was, layers);
      RebuildAftermath(h, was, layers, chosen, err, level);
    }
  }

  // ---------------------------------------------------------------- failed updates

  /** Why an update is refused: its index, the leaf there, or its transaction. */
  function Refusal(leaves: seq<Node>, u: Update): Option<Code> {
    if u.index < 0 || u.index >= |leaves| then Some(CanonicalEncodingDistortion)
    else if leaves[u.index].face.sig != ATOMIC then Some(CanonicalEncodingDistortion)
    else
      match Atomic(u.tx)
      case Err(c) => Some(c)
      case Ok(_) => None
  }

  /** The first n updates pass their checks. */
  predicate TakenUpTo(leaves: seq<Node>, updates: seq<Update>, n: nat) {
    n <= |updates| && forall j :: 0 <= j < n ==> Refusal(leaves, updates[j]).None?
  }

  /** One of the given updates for each index, ascending. */
  ghost predicate Selects(updates: seq<Update>, chosen: seq<Update>) {
    && Ascending(chosen)
    && (forall c :: c in chosen ==> c in updates)
    && (forall i :: Touched(updates, i) ==> Touched(chosen, i))
  }

  /** A later update is refused, and every one before it puts back the leaf that was there. */
  predicate Harmless(leaves: seq<Node>, chosen: seq<Update>, taken: nat)
    requires TakenUpTo(leaves, chosen, taken)
  {
    taken < |chosen| && forall j :: 0 <= j < taken ==> KeepsLeaf(leaves, chosen[j])
  }

  function Indices(chosen: seq<Update>): set<int> {
    set u | u in chosen :: u.index
  }

  /**
   * What a call leaves behind, on any framed layers. A refused update keeps the replacements before
   * it and nothing else. When every update passes, the parents on the updated paths are recomputed
   * from the bottom, and the rest stays; on a failure the parents below the failing level are done,
   * every replacement is kept, and the top stays.
   */
  ghost predicate Aftermath(h: Hasher, was: seq<seq<Node>>, now: seq<seq<Node>>, chosen: seq<Update>, taken: nat, err: Option<Code>)
    requires was != []
  {
    && SameFrame(was, now) && TakenUpTo(was[0], chosen, taken) && Patched(was[0], chosen[..taken], now[0])
    && (taken < |chosen| ==>
          && err == Refusal(was[0], chosen[taken]) && err.Some? && SameBut(was, now, 0)
          && (now == was <==> Harmless(was[0], chosen, taken)))
    && (err.None? ==> taken == |chosen| && (was[0] != [] ==> Renewed(h, was, now, Paths(Indices(chosen), |was|), |was| - 1)))
    && (taken == |chosen| && err.Some? ==> exists level :: Halted(h, was, now, Paths(Indices(chosen), |was|), level))
  }

  /**
   * On a tree moreover: when every update passes, the call succeeds exactly when the new leaves can
   * be built from scratch, and a failure leaves no trace exactly when Harmless.
   */
  ghost predicate TreeAftermath(h: Hasher, was: seq<seq<Node>>, now: seq<seq<Node>>, chosen: seq<Update>, taken: nat, err: Option<Code>)
    requires was != [] && |now| == |was| && TakenUpTo(was[0], chosen, taken)
  {
    && (err.None? && now[0] != [] ==> Layers(h, now[0]) == Ok(now))
    && (taken == |chosen| && err.Some? ==> now[0] != [] && Layers(h, now[0]).Err?)
    && (err.Some? ==> (now == was <==> Harmless(was[0], chosen, taken)))
  }

  /** Success: the updates are in the leaves, and the layers are a tree exactly when the rest was sound before. */
  ghost predicate Renews(h: Hasher, was: seq<seq<Node>>, now: seq<seq<Node>>, updates: seq<Update>, chosen: seq<Update>)
    requires Framed(was) && now != []
  {
    && Patched(was[0], updates, now[0])
    && (now[0] != [] ==> (Layers(h, now[0]) == Ok(now) <==> SoundElsewhere(h, was, Indices(chosen))))
  }

  lemma NoUpdates(h: Hasher, layers: seq<seq<Node>>)
    requires Framed(layers)
    ensures Selects([], []) && Aftermath(h, layers, layers, [], 0, None) && Renews(h, layers, layers, [], [])
    ensures (layers[0] != [] ==> Stack(h, layers)) ==> TreeAftermath(h, layers, layers, [], 0, None)
  {
    if layers[0] != [] {
      NothingRenewed(h, layers, |layers| - 1);
      RenewedExactly(h, layers, layers, Indices([]));
      if Stack(h, layers) { StackIsLayers(h, layers); }
    }
  }

  lemma AllTaken(h: Hasher, was: seq<seq<Node>>, now: seq<seq<Node>>, updates: seq<Update>, chosen: seq<Update>, taken: nat)
    requires Framed(was) && was[0] != [] && Aftermath(h, was, now, chosen, taken, None) && Selects(updates, chosen)
    ensures Renews(h, was, now, updates, chosen)
  {
    assert chosen[..taken] == chosen;
    PatchedByChosen(was[0], updates, chosen, now[0]);
    RenewedExactly(h, was, now, Indices(chosen));
  }

  lemma RefusedAftermath(h: Hasher, was: seq<seq<Node>>, now: seq<seq<Node>>, chosen: seq<Update>, taken: nat, err: Option<Code>)
    requires Framed(was) && Declared(was[0]) && SameBut(was, now, 0) && Ascending(chosen)
    requires TakenUpTo(was[0], chosen, taken) && Patched(was[0], chosen[..taken], now[0])
    requires err.Some? && taken < |chosen| && Refusal(was[0], chosen[taken]) == err
    ensures Aftermath(h, was, now, chosen, taken, err) && Framed(now) && Declared(now[0])
  {
    UnchangedExactly(was[0], chosen, taken, now[0]);
    OnlyLevel(was, now, 0);
    if was[0] != [] { PatchedAgrees(was[0], chosen[..taken], now[0], Indices(chosen[..taken])); }
    StaysFramed(was, now);
  }

  lemma RebuildAftermath(h: Hasher, was: seq<seq<Node>>, now: seq<seq<Node>>, chosen: seq<Update>, err: Option<Code>, level: nat)
    requires was != [] && SameFrame(was, now) && was[0] != []
    requires TakenUpTo(was[0], chosen, |chosen|) && Patched(was[0], chosen, now[0])
    requires err.None? ==> Renewed(h, was, now, Paths(Indices(chosen), |was|), |was| - 1)
    requires err.Some? ==> Halted(h, was, now, Paths(Indices(chosen), |was|), level)
    ensures Aftermath(h, was, now, chosen, |chosen|, err)
  {
    assert chosen[..|chosen|] == chosen;
  }

  /** On a tree on which no call has failed. */
  lemma ValidAftermath(h: Hasher, was: seq<seq<Node>>, now: seq<seq<Node>>, chosen: seq<Update>, taken: nat, err: Option<Code>)
    requires Framed(was) && Declared(was[0]) && (was[0] != [] ==> Stack(h, was) && Digest(h, was[|was| - 1][0].face).Ok?)
    requires Aftermath(h, was, now, chosen, taken, err) && (err.None? ==> was[0] != [])
    ensures TreeAftermath(h, was, now, chosen, taken, err)
    ensures err.None? ==> Stack(h, now) && Digest(h, now[|now| - 1][0].face).Ok?
  {
    if err.None? {
      SoundTree(h, was, Indices(chosen));
      RenewedExactly(h, was, now, Indices(chosen));
      LayersStack(h, now[0]);
      assert chosen[..taken] == chosen;
      TopHasRoot(h, was, now, chosen);
    } else if taken == |chosen| {
      var level :| Halted(h, was, now, Paths(Indices(chosen), |was|), level);
      HaltedTree(h, was, now, Indices(chosen), level);
      StackIsLayers(h, was);
    }
  }

  predicate KeepsLeaf(leaves: seq<Node>, u: Update) {
    0 <= u.index < |leaves| && Atomic(u.tx) == Ok(leaves[u.index])
  }

  /** Replacing leaves changes nothing exactly when each replacement is the leaf that was there. */
  lemma UnchangedExactly(was: seq<Node>, chosen: seq<Update>, n: nat, now: seq<Node>)
    requires Ascending(chosen) && TakenUpTo(was, chosen, n) && Patched(was, chosen[..n], now)
    ensures now == was <==> forall j :: 0 <= j < n ==> KeepsLeaf(was, chosen[j])
  {
    forall j | 0 <= j < n ensures 0 <= chosen[j].index < |was| && Atomic(chosen[j].tx) == Ok(now[chosen[j].index]) {
      assert chosen[..n][j] == chosen[j] && chosen[j] in chosen[..n];
      PatchedExactly(was, chosen[..n], now, chosen[j]);
    }
    if forall j :: 0 <= j < n ==> KeepsLeaf(was, chosen[j]) {
      forall i | 0 <= i < |was| ensures now[i] == was[i] {
        if Touched(chosen[..n], i) {
          var u :| u in chosen[..n] && u.index == i && Atomic(u.tx) == Ok(now[i]);
          var j :| 0 <= j < n && chosen[..n][j] == u;
          assert KeepsLeaf(was, chosen[j]);
        }
      }
    }
  }

  lemma OnlyLevel(was: seq<seq<Node>>, layers: seq<seq<Node>>, level: nat)
    requires SameBut(was, layers, level)
    ensures layers == was <==> layers[level] == was[level]
  {
  }

  /** The parents of a layer while some of them are still to be recomputed. */
  ghost predicate Halfway(h: Hasher, layer: seq<Node>, before: seq<Node>, above: seq<Node>, parents: set<int>, todo: set<int>) {
    && |above| == |before| == Groups(|layer|)
    && (forall q :: 0 <= q < |before| && (q !in parents || q in todo) ==> above[q] == before[q])
    && (forall q :: 0 <= q < |before| && q in parents && q !in todo ==> Grain(h, layer, q) == Ok(above[q]))
  }

  lemma HalfwayOn(h: Hasher, layer: seq<Node>, before: seq<Node>, above: seq<Node>, parents: set<int>, todo: set<int>, p: nat, n: Node)
    requires Halfway(h, layer, before, above, parents, todo) && p in todo && todo <= parents && 4 * p < |layer| && Grain(h, layer, p) == Ok(n)
    ensures Halfway(h, layer, before, above[p := n], parents, todo - {p})
  {
  }

  /** Some parent of the set cannot be computed. */
  ghost predicate Stuck(h: Hasher, layer: seq<Node>, todo: set<int>) {
    exists p :: p in todo && 0 <= 4 * p < |layer| && Grain(h, layer, p).Err?
  }

  /** The next leaf to be replaced has not been touched yet. */
  lemma Untouched(was: seq<Node>, updates: seq<Update>, i: nat, leaves: seq<Node>)
    requires i < |updates| && Ascending(updates) && Patched(was, updates[..i], leaves)
    ensures |leaves| == |was| && (0 <= updates[i].index < |was| ==> leaves[updates[i].index] == was[updates[i].index])
  {
    assert !Touched(updates[..i], updates[i].index);
  }

  /** A replacement before an index that is out of range stays although the call fails. */
  lemma RefusedLate(was: seq<Node>, t: LeafTx, k: nat, now: seq<Node>)
    requires was != [] && was[0].face.sig == ATOMIC && Atomic(t).Ok? && Atomic(t).value != was[0] && k >= |was|
    requires var chosen := [Update(0, t), Update(k, t)];
             Patched(was, chosen[..1], now)
    ensures var chosen := [Update(0, t), Update(k, t)];
            && Ascending(chosen) && TakenUpTo(was, chosen, 1) && Refusal(was, chosen[1]) == Some(CanonicalEncodingDistortion)
            && !Harmless(was, chosen, 1) && now == was[0 := Atomic(t).value] != was
  {
    var chosen := [Update(0, t), Update(k, t)];
    assert chosen[..1] == [Update(0, t)] && Update(0, t) in chosen[..1];
    assert !KeepsLeaf(was, chosen[0]);
    PatchedExactly(was, chosen[..1], now, Update(0, t));
    forall i | 0 < i < |was| ensures now[i] == was[i] { assert !Touched(chosen[..1], i); }
  }

  lemma GrainFails(h: Hasher, layer: seq<Node>, p: nat)
    requires 4 * p < |layer| && Grain(h, layer, p).Err?
    ensures Coarsened(h, layer).Err?
  {
    if Coarsened(h, layer).Ok? { ParentAt(h, layer, Groups(|layer|), p); }
  }

  /** If some layer on the way up cannot be coarsened, building from scratch fails. */
  lemma {:induction false} ChainFails(h: Hasher, layers: seq<seq<Node>>, level: nat)
    requires level < |layers| && forall l :: 0 <= l <= level ==> |layers[l]| > 1
    requires forall l :: 0 <= l < level ==> Coarsened(h, layers[l]) == Ok(layers[l + 1])
    requires Coarsened(h, layers[level]).Err?
    ensures Layers(h, layers[0]).Err?
    decreases level
  {
    if level > 0 {
      var rest := layers[1..];
      forall l | 0 <= l < level - 1 ensures Coarsened(h, rest[l]) == Ok(rest[l + 1]) {
        assert Coarsened(h, layers[l + 1]) == Ok(layers[l + 1 + 1]);
      }
      ChainFails(h, rest, level - 1);
      assert Coarsened(h, layers[0]) == Ok(layers[0 + 1]);
    }
  }

  /** Up to this level the parents on the marked paths are those of their children, and the others are as before. */
  ghost predicate Renewed(h: Hasher, was: seq<seq<Node>>, now: seq<seq<Node>>, marks: seq<set<int>>, level: nat) {
    && level < |was| == |now| == |marks| && Agree(was[level], now[level], marks[level])
    && (level > 0 ==>
          && Renewed(h, was, now, marks, level - 1)
          && Halfway(h, now[level - 1], was[level], now[level], marks[level], {}))
  }

  lemma {:induction false} RenewedAt(h: Hasher, was: seq<seq<Node>>, now: seq<seq<Node>>, marks: seq<set<int>>, level: nat, l: nat)
    requires Renewed(h, was, now, marks, level) && l <= level
    ensures Agree(was[l], now[l], marks[l])
    ensures l < level ==> Halfway(h, now[l], was[l + 1], now[l + 1], marks[l + 1], {})
  {
    if l < level { RenewedAt(h, was, now, marks, level - 1, l); }
  }

  /** A rebuild that stopped above this level, before it reached the top. */
  ghost predicate Halted(h: Hasher, was: seq<seq<Node>>, now: seq<seq<Node>>, marks: seq<set<int>>, level: nat) {
    && level + 1 < |was| && Renewed(h, was, now, marks, level)
    && Stuck(h, now[level], marks[level + 1]) && now[|now| - 1] == was[|was| - 1]
  }

  /** Off the marked paths every parent belongs to its children. */
  ghost predicate SoundElsewhere(h: Hasher, layers: seq<seq<Node>>, positions: set<int>)
    requires Framed(layers)
  {
    forall l :: 0 <= l < |layers| - 1 ==> SoundLevel(h, layers[l], layers[l + 1], Up(positions, l + 1))
  }

  ghost predicate SoundLevel(h: Hasher, layer: seq<Node>, above: seq<Node>, parents: set<int>)
    requires |above| == Groups(|layer|)
  {
    forall p :: 0 <= p < |above| && p !in parents ==> Grain(h, layer, p) == Ok(above[p])
  }

  /** Between levels: done up to here, untouched above. */
  ghost predicate Rebuilt(h: Hasher, was: seq<seq<Node>>, layers: seq<seq<Node>>, marks: seq<set<int>>, level: nat) {
    Renewed(h, was, layers, marks, level) && forall l :: level < l < |was| ==> layers[l] == was[l]
  }

  /** A layer whose marked parents are partly recomputed has the old scale and changes only there. */
  lemma HalfwayAgrees(h: Hasher, layer: seq<Node>, before: seq<Node>, above: seq<Node>, parents: set<int>, left: set<int>)
    requires layer != [] && Halfway(h, layer, before, above, parents, left) && before[0].face.scale == ParentScale(layer)
    requires forall q :: q in parents ==> 0 <= q < |before|
    ensures Agree(before, above, parents)
  {
    if 0 in parents && 0 !in left { GrainShape(h, layer, 0); }
  }

  lemma UpInside(marked: set<int>, n: nat, q: int)
    requires (forall i :: i in marked ==> 0 <= i < n) && q in Raised(marked)
    ensures 0 <= q < Groups(n)
  {
  }

  lemma RebuiltFrame(h: Hasher, was: seq<seq<Node>>, layers: seq<seq<Node>>, marks: seq<set<int>>, level: nat)
    requires Rebuilt(h, was, layers, marks, level)
    ensures SameFrame(was, layers)
  {
    forall l | 0 <= l < |was| ensures |layers[l]| == |was[l]| && (was[l] != [] ==> layers[l][0].face.scale == was[l][0].face.scale) {
      if l <= level { RenewedAt(h, was, layers, marks, level, l); }
    }
  }

  /** The level above the finished ones, recomputed as far as possible. */
  lemma NextAgrees(h: Hasher, was: seq<Node>, layer: seq<Node>, before: seq<Node>, above: seq<Node>, marked: set<int>, left: set<int>)
    requires Agree(was, layer, marked) && before != [] && before[0].face.scale == ParentScale(was)
    requires Halfway(h, layer, before, above, Raised(marked), left)
    ensures Agree(before, above, Raised(marked))
  {
    var parents := Raised(marked);
    forall q | q in parents ensures 0 <= q < |before| { UpInside(marked, |was|, q); }
    HalfwayAgrees(h, layer, before, above, parents, left);
  }

  lemma RebuiltLevel(h: Hasher, was: seq<seq<Node>>, before: seq<seq<Node>>, layers: seq<seq<Node>>, marks: seq<set<int>>, level: nat)
    requires Framed(was) && Rebuilt(h, was, before, marks, level) && level + 1 < |was| && SameBut(before, layers, level + 1)
    requires marks[level + 1] == Raised(marks[level])
    requires Halfway(h, layers[level], was[level + 1], layers[level + 1], marks[level + 1], {})
    ensures Rebuilt(h, was, layers, marks, level + 1)
  {
    NextAgrees(h, was[level], layers[level], was[level + 1], layers[level + 1], marks[level], {});
    RenewedSame(h, was, before, layers, marks, level);
  }

  lemma HaltedLevel(h: Hasher, was: seq<seq<Node>>, before: seq<seq<Node>>, layers: seq<seq<Node>>, marks: seq<set<int>>, level: nat, left: set<int>)
    requires Rebuilt(h, was, before, marks, level) && level + 1 < |was| && SameBut(before, layers, level + 1)
    requires |was[|was| - 1]| == 1 && left <= marks[level + 1] && Stuck(h, layers[level], left)
    requires Halfway(h, layers[level], was[level + 1], layers[level + 1], marks[level + 1], left)
    ensures Halted(h, was, layers, marks, level)
  {
    RenewedSame(h, was, before, layers, marks, level);
    StuckMore(h, layers[level], left, marks[level + 1]);
    NotTheTop(h, layers[level], was[level + 1], layers[level + 1], marks[level + 1], left);
  }

  lemma HaltedFrame(h: Hasher, was: seq<seq<Node>>, before: seq<seq<Node>>, layers: seq<seq<Node>>, marks: seq<set<int>>, level: nat, left: set<int>)
    requires Rebuilt(h, was, before, marks, level) && level + 1 < |was| && SameBut(before, layers, level + 1)
    requires was[level] != [] && was[level + 1] != [] && was[level + 1][0].face.scale == ParentScale(was[level])
    requires marks[level + 1] == Raised(marks[level])
    requires Halfway(h, layers[level], was[level + 1], layers[level + 1], marks[level + 1], left)
    ensures SameFrame(was, layers)
  {
    NextAgrees(h, was[level], layers[level], was[level + 1], layers[level + 1], marks[level], left);
    RebuiltFrame(h, was, before, marks, level);
    FrameBut(was, before, layers, level + 1);
  }

  lemma FrameBut(was: seq<seq<Node>>, before: seq<seq<Node>>, layers: seq<seq<Node>>, level: nat)
    requires SameFrame(was, before) && SameBut(before, layers, level) && |layers[level]| == |was[level]| > 0
    requires layers[level][0].face.scale == was[level][0].face.scale
    ensures SameFrame(was, layers)
  {
  }

  lemma StuckMore(h: Hasher, layer: seq<Node>, left: set<int>, parents: set<int>)
    requires Stuck(h, layer, left) && left <= parents
    ensures Stuck(h, layer, parents)
  {
  }

  lemma {:induction false} RenewedSame(h: Hasher, was: seq<seq<Node>>, before: seq<seq<Node>>, layers: seq<seq<Node>>, marks: seq<set<int>>, level: nat)
    requires Renewed(h, was, before, marks, level) && |layers| == |was| && forall l :: 0 <= l <= level ==> layers[l] == before[l]
    ensures Renewed(h, was, layers, marks, level)
    decreases level
  {
    if level > 0 { RenewedSame(h, was, before, layers, marks, level - 1); }
  }

  lemma NotTheTop(h: Hasher, layer: seq<Node>, before: seq<Node>, above: seq<Node>, parents: set<int>, left: set<int>)
    requires Halfway(h, layer, before, above, parents, left) && Stuck(h, layer, left)
    ensures |before| == 1 ==> above == before
  {
    var p :| p in left && 0 <= 4 * p < |layer| && Grain(h, layer, p).Err?;
    assert |before| == 1 ==> p == 0;
  }

  /** One level is a coarsening again exactly when its unmarked parents were right before. */
  lemma LevelExactly(h: Hasher, was: seq<Node>, now: seq<Node>, marked: set<int>, parents: set<int>, before: seq<Node>, above: seq<Node>)
    requires Agree(was, now, marked) && parents == Raised(marked) && ValidScale(ParentScale(now))
    requires Halfway(h, now, before, above, parents, {})
    ensures Coarsened(h, now) == Ok(above) <==> SoundLevel(h, was, before, parents)
  {
    forall q | 0 <= q < |above| && q !in parents ensures Grain(h, now, q) == Grain(h, was, q) {
      forall i | i in marked ensures i / 4 != q { assert i / 4 in parents; }
      UnmarkedParent(h, was, now, marked, q);
    }
    if SoundLevel(h, was, before, parents) {
      CoarsenedFrom(h, now, above);
    } else if Coarsened(h, now) == Ok(above) {
      forall q | 0 <= q < |before| && q !in parents ensures Grain(h, was, q) == Ok(before[q]) {
        ParentAt(h, now, Groups(|now|), q);
      }
    }
  }

  lemma RenewedLevel(h: Hasher, was: seq<seq<Node>>, now: seq<seq<Node>>, positions: set<int>, level: nat, l: nat)
    requires Framed(was) && SameFrame(was, now) && Renewed(h, was, now, Paths(positions, |was|), level) && l < level
    ensures Coarsened(h, now[l]) == Ok(now[l + 1]) <==> SoundLevel(h, was[l], was[l + 1], Up(positions, l + 1))
  {
    var marks := Paths(positions, |was|);
    RenewedAt(h, was, now, marks, level, l);
    StaysFramed(was, now);
    assert marks[l + 1] == Raised(marks[l]);
    LevelExactly(h, was[l], now[l], marks[l], marks[l + 1], was[l + 1], now[l + 1]);
  }

  lemma FramedStack(h: Hasher, layers: seq<seq<Node>>)
    requires Framed(layers) && layers[0] != [] && forall l :: 0 <= l < |layers| - 1 ==> Coarsened(h, layers[l]) == Ok(layers[l + 1])
    ensures Stack(h, layers)
  {
  }

  /** After a successful rebuild the layers are a tree exactly when the rest was sound before. */
  lemma RenewedExactly(h: Hasher, was: seq<seq<Node>>, now: seq<seq<Node>>, positions: set<int>)
    requires Framed(was) && was[0] != [] && SameFrame(was, now) && Renewed(h, was, now, Paths(positions, |was|), |was| - 1)
    ensures now[0] != [] && (Layers(h, now[0]) == Ok(now) <==> SoundElsewhere(h, was, positions))
  {
    if SoundElsewhere(h, was, positions) {
      forall l | 0 <= l < |now| - 1 ensures Coarsened(h, now[l]) == Ok(now[l + 1]) {
        assert SoundLevel(h, was[l], was[l + 1], Up(positions, l + 1));
        RenewedLevel(h, was, now, positions, |was| - 1, l);
      }
      StaysFramed(was, now);
      FramedStack(h, now);
      StackIsLayers(h, now);
    }
    if Layers(h, now[0]) == Ok(now) { TreeWasSound(h, was, now, positions); }
  }

  lemma TreeWasSound(h: Hasher, was: seq<seq<Node>>, now: seq<seq<Node>>, positions: set<int>)
    requires Framed(was) && was[0] != [] && SameFrame(was, now) && Renewed(h, was, now, Paths(positions, |was|), |was| - 1)
    requires Layers(h, now[0]) == Ok(now)
    ensures SoundElsewhere(h, was, positions)
  {
    LayersStack(h, now[0]);
    forall l | 0 <= l < |was| - 1 ensures SoundLevel(h, was[l], was[l + 1], Up(positions, l + 1)) {
      assert Coarsened(h, now[l]) == Ok(now[l + 1]);
      RenewedLevel(h, was, now, positions, |was| - 1, l);
    }
  }

  lemma {:induction false} NothingRenewed(h: Hasher, layers: seq<seq<Node>>, level: nat)
    requires Framed(layers) && layers[0] != [] && level < |layers|
    ensures Up(Indices([]), level) == {} && Renewed(h, layers, layers, Paths(Indices([]), |layers|), level)
  {
    if level > 0 { NothingRenewed(h, layers, level - 1); }
  }

  lemma SoundTree(h: Hasher, layers: seq<seq<Node>>, positions: set<int>)
    requires Framed(layers) && Stack(h, layers)
    ensures SoundElsewhere(h, layers, positions)
  {
    forall l | 0 <= l < |layers| - 1 ensures SoundLevel(h, layers[l], layers[l + 1], Up(positions, l + 1)) {
      assert Coarsened(h, layers[l]) == Ok(layers[l + 1]);
      forall p | 0 <= p < |layers[l + 1]| ensures Grain(h, layers[l], p) == Ok(layers[l + 1][p]) {
        ParentAt(h, layers[l], Groups(|layers[l]|), p);
      }
    }
  }

  /** On a tree a rebuild halts only if building from scratch fails. */
  lemma HaltedTree(h: Hasher, was: seq<seq<Node>>, now: seq<seq<Node>>, positions: set<int>, level: nat)
    requires Framed(was) && Stack(h, was) && SameFrame(was, now) && Halted(h, was, now, Paths(positions, |was|), level)
    ensures now[0] != [] && Layers(h, now[0]).Err?
  {
    SoundTree(h, was, positions);
    forall l | 0 <= l < level ensures Coarsened(h, now[l]) == Ok(now[l + 1]) {
      assert SoundLevel(h, was[l], was[l + 1], Up(positions, l + 1));
      RenewedLevel(h, was, now, positions, level, l);
    }
    var p :| p in Up(positions, level + 1) && 0 <= 4 * p < |now[level]| && Grain(h, now[level], p).Err?;
    GrainFails(h, now[level], p);
    ChainFails(h, now, level);
  }

  /**
   * Two calls. The first replaces leaf 0 and fails at an index that is out of range. The second
   * replaces leaf 4 and succeeds, but its layers are not those of any building: parent 0 still has
   * the volume of the old leaf.
   */
  lemma StaleSuccess(h: Hasher, was: seq<seq<Node>>, t: LeafTx, u: LeafTx, k: nat, mid: seq<seq<Node>>, now: seq<seq<Node>>)
    requires Stack(h, was) && Declared(was[0]) && |was[0]| > 4 && k >= |was[0]|
    requires was[0][0].face.sig == ATOMIC && Atomic(t).Ok? && Atomic(t).value.face.volume != was[0][0].face.volume
    requires Aftermath(h, was, mid, [Update(0, t), Update(k, t)], 1, Some(CanonicalEncodingDistortion))
    requires Aftermath(h, mid, now, [Update(4, u)], 1, None)
    ensures Layers(h, now[0]) != Ok(now)
  {
    StackFramed(h, was);
    StaysFramed(was, mid);
    FirstCall(h, was, t, k, mid);
    var marks := Indices([Update(4, u)]);
    OnePath(u);
    assert !SoundLevel(h, mid[0], mid[0 + 1], Up(marks, 0 + 1));
    RenewedExactly(h, mid, now, marks);
  }

  lemma FirstCall(h: Hasher, was: seq<seq<Node>>, t: LeafTx, k: nat, mid: seq<seq<Node>>)
    requires Stack(h, was) && Framed(mid) && |was[0]| > 4 && k >= |was[0]|
    requires was[0][0].face.sig == ATOMIC && Atomic(t).Ok? && Atomic(t).value.face.volume != was[0][0].face.volume
    requires Aftermath(h, was, mid, [Update(0, t), Update(k, t)], 1, Some(CanonicalEncodingDistortion))
    ensures |mid| > 1 && Grain(h, mid[0], 0) != Ok(mid[1][0])
  {
    assert [Update(0, t), Update(k, t)][..1] == [Update(0, t)];
    RefusedLate(was[0], t, k, mid[0]);
    StaleParent(h, was, mid);
  }

  lemma OnePath(u: LeafTx)
    ensures Up(Indices([Update(4, u)]), 1) == {1}
  {
    var marks := Indices([Update(4, u)]);
    assert Update(4, u) in [Update(4, u)];
    assert marks == {4} && Up(marks, 0) == {4} && Raised({4}) == {1};
  }

  /** With only leaf 0 replaced by one of another volume, parent 0 is wrong. */
  lemma StaleParent(h: Hasher, was: seq<seq<Node>>, mid: seq<seq<Node>>)
    requires Stack(h, was) && Framed(mid) && SameBut(was, mid, 0) && |mid[0]| == |was[0]| > 4
    requires mid[0][0].face.volume != was[0][0].face.volume && forall i :: 1 <= i < |was[0]| ==> mid[0][i] == was[0][i]
    ensures |mid| > 1 && Grain(h, mid[0], 0) != Ok(mid[1][0])
  {
    assert Coarsened(h, was[0]) == Ok(was[0 + 1]);
    ParentAt(h, was[0], Groups(|was[0]|), 0);
    OtherVolume(h, was[0], mid[0]);
  }

  /** Replacing the first of four leaves by one of another volume changes their parent. */
  lemma OtherVolume(h: Hasher, layer: seq<Node>, layer': seq<Node>)
    requires |layer| == |layer'| >= 4 && layer[0].face.volume != layer'[0].face.volume
    requires forall i :: 1 <= i < |layer| ==> layer[i] == layer'[i]
    requires Grain(h, layer, 0).Ok?
    ensures Grain(h, layer', 0) != Grain(h, layer, 0)
  {
    if Grain(h, layer', 0).Ok? {
      FourVolumes(h, layer[0..4]);
      FourVolumes(h, layer'[0..4]);
    }
  }

  lemma FourVolumes(h: Hasher, c: seq<Node>)
    requires |c| == 4 && Tallied(h, c).Ok?
    ensures Tallied(h, c).value.volume == c[0].face.volume + c[1].face.volume + c[2].face.volume + c[3].face.volume
  {
    var three, two, one := c[..3], c[..2], c[..1];
    assert three[..2] == two && two[..1] == one && one[..0] == [];
    LastVolume(h, c);
    LastVolume(h, three);
    LastVolume(h, two);
    LastVolume(h, one);
  }

  lemma LastVolume(h: Hasher, c: seq<Node>)
    requires c != [] && Tallied(h, c).Ok?
    ensures Tallied(h, c[..|c| - 1]).Ok?
    ensures Tallied(h, c).value.volume == Tallied(h, c[..|c| - 1]).value.volume + c[|c| - 1].face.volume
  {
  }

  /** Only transaction leaves are replaced, so the leaf layer keeps its scale. */
  lemma PatchedAgrees(leaves: seq<Node>, updates: seq<Update>, leaves': seq<Node>, positions: set<int>)
    requires leaves != [] && Declared(leaves) && Patched(leaves, updates, leaves')
    requires positions == set u | u in updates :: u.index
    ensures Agree(leaves, leaves', positions) && Declared(leaves')
  {
  }

  /** The new top is a coarsened node, or the one leaf of the tree. */
  lemma TopHasRoot(h: Hasher, was: seq<seq<Node>>, layers: seq<seq<Node>>, updates: seq<Update>)
    requires Stack(h, was) && Stack(h, layers) && |was| == |layers|
    requires Patched(was[0], updates, layers[0]) && Digest(h, was[|was| - 1][0].face).Ok?
    ensures Digest(h, layers[|layers| - 1][0].face).Ok?
  {
    var top := |layers| - 1;
    if top == 0 {
      if Touched(updates, 0) { var u :| u in updates && u.index == 0 && Atomic(u.tx) == Ok(layers[0][0]); }
    } else {
      assert Coarsened(h, layers[top - 1]) == Ok(layers[top - 1 + 1]);
      ParentAt(h, layers[top - 1], Groups(|layers[top - 1]|), 0);
      GrainShape(h, layers[top - 1], 0);
    }
  }

  /** One update per index, in ascending order. Which of several for an index wins is left open. */
  method Dedupe(updates: seq<Update>) returns (chosen: seq<Update>)
    ensures Selects(updates, chosen) && (updates != [] ==> chosen != [])
  {
    var rest := set u | u in updates :: u.index;
    chosen := [];
    while rest != {}
      invariant forall i :: i in rest ==> Touched(updates, i)
      invariant forall c :: c in chosen ==> c in updates && forall i :: i in rest ==> c.index < i
      invariant forall i :: Touched(updates, i) ==> i in rest || Touched(chosen, i)
      invariant Ascending(chosen)
      decreases |rest|
    {
      var least := Least(rest);
      var u :| u in updates && u.index == least;
      ghost var earlier := chosen;
      chosen := chosen + [u];
      rest := rest - {least};
      forall i | Touched(updates, i) ensures i in rest || Touched(chosen, i) {
        if i == least { assert u in chosen; }
        else if i !in rest {
          var c :| c in earlier && c.index == i;
          assert c in chosen;
        }
      }
    }
    assert updates != [] ==> Touched(updates, updates[0].index);
  }

  lemma Inhabited(s: set<int>)
    requires s != {}
    ensures exists i :: i in s
  {
    assert (forall i :: i !in s) ==> s == {};
  }

  method Least(s: set<int>) returns (least: int)
    requires s != {}
    ensures least in s && forall i :: i in s ==> least <= i
  {
    Inhabited(s);
    least :| least in s;
    var rest := s - {least};
    while rest != {}
      invariant rest <= s && least in s
      invariant forall i :: i in s && i !in rest ==> least <= i
      decreases |rest|
    {
      Inhabited(rest);
      var i :| i in rest;
      if i < least { least := i; }
      rest := rest - {i};
    }
  }

  lemma PatchedByChosen(leaves: seq<Node>, updates: seq<Update>, chosen: seq<Update>, leaves': seq<Node>)
    requires Patched(leaves, chosen, leaves') && Selects(updates, chosen)
    ensures Patched(leaves, updates, leaves')
  {
    forall u | u in updates ensures 0 <= u.index < |leaves| && leaves[u.index].face.sig == ATOMIC {
      assert Touched(updates, u.index);
      assert Touched(chosen, u.index);
    }
    forall i | 0 <= i < |leaves| && !Touched(updates, i) ensures leaves'[i] == leaves[i] {
      assert !Touched(chosen, i);
    }
  }

  /** With one update per index the new leaves are determined. */
  lemma PatchedExactly(leaves: seq<Node>, updates: seq<Update>, leaves': seq<Node>, u: Update)
    requires Patched(leaves, updates, leaves') && u in updates
    requires forall v :: v in updates && v.index == u.index ==> v == u
    ensures Atomic(u.tx) == Ok(leaves'[u.index])
  {
    assert Touched(updates, u.index);
  }

  predicate Ascending(updates: seq<Update>) {
    forall i, j :: 0 <= i < j < |updates| ==> updates[i].index < updates[j].index
  }

  lemma PatchOne(was: seq<Node>, updates: seq<Update>, i: nat, leaves: seq<Node>, n: Node)
    requires i < |updates| && Ascending(updates) && Patched(was, updates[..i], leaves)
    requires 0 <= updates[i].index < |leaves| && leaves[updates[i].index].face.sig == ATOMIC && Atomic(updates[i].tx) == Ok(n)
    ensures Patched(was, updates[..i + 1], leaves[updates[i].index := n])
  {
  }

  lemma {:induction false} AtomicsDeclared(txs: seq<LeafTx>)
    requires Atomics(txs).Ok?
    ensures Declared(Atomics(txs).value)
  {
    if txs != [] { AtomicsDeclared(txs[..|txs| - 1]); }
  }

  /** BuildTree. The contract nodes must declare their signature as deriveSignature would. */
  method BuildTree(h: Hasher, txs: seq<LeafTx>, contracts: seq<Node>) returns (r: Result<Tree, Code>)
    ensures match Built(h, txs, contracts)
            case Err(c) => r == Err(c)
            case Ok((layers, root)) =>
              && r.Ok? && fresh(r.value) && r.value.h == h
              && r.value.layers == layers && r.value.root == root && !r.value.dirty
    ensures r.Ok? && Declared(contracts) ==> r.value.Valid()
  {
    if |txs| == 0 && |contracts| == 0 {
      var empty := new Tree(h, [[]], EmptyRoot(h));
      return Ok(empty);
    }
    if |txs| > MAX_TXS { return Err(DosSizeExceeded); }
    var own := AtomicLayer(txs);
    if own.Err? { return Err(own.error); }
    var leaves := own.value + contracts;
    var layers := BuildLayers(h, leaves);
    if layers.Err? { return Err(layers.error); }
    LayersStack(h, leaves);
    var root := Digest(h, layers.value[|layers.value| - 1][0].face);
    if root.Err? { return Err(root.error); }
    AtomicsDeclared(txs);
    StackFramed(h, layers.value);
    var tree := new Tree(h, layers.value, root.value);
    return Ok(tree);
  }
}

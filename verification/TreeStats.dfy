/**
 * What the aggregated numbers of a node mean: the sums over the leaves below it. Hence the clamp of
 * the variance never fires, all levels carry the same totals, and the root's numbers do not depend
 * on the order of the leaves.
 */
module TreeStats {
  import opened Wrappers
  import opened Bytes
  import opened Sequences
  import opened Nodes
  import opened Coarsening

  /** The numbers a node aggregates. */
  datatype Stat = Volume | Squares | Count | Contracts

  function Get(k: Stat, n: Node): nat {
    match k
    case Volume => n.face.volume
    case Squares => n.squares
    case Count => n.count
    case Contracts => n.contracts
  }

  function Sum(k: Stat, nodes: seq<Node>): nat {
    if nodes == [] then 0 else Sum(k, nodes[..|nodes| - 1]) + Get(k, nodes[|nodes| - 1])
  }

  lemma {:induction false} SumJoin(k: Stat, a: seq<Node>, b: seq<Node>)
    ensures Sum(k, a + b) == Sum(k, a) + Sum(k, b)
  {
    if b == [] {
      assert a + b == a;
    } else {
      var m := |b| - 1;
      SumJoin(k, a, b[..m]);
      assert (a + b)[..|a + b| - 1] == a + b[..m];
    }
  }

  lemma SumOne(k: Stat, n: Node)
    ensures Sum(k, [n]) == Get(k, n)
  {
    assert [n][..0] == [];
  }

  lemma SumCut(k: Stat, s: seq<Node>, lo: nat, mid: nat, hi: nat)
    requires lo <= mid <= hi <= |s|
    ensures Sum(k, s[lo..hi]) == Sum(k, s[lo..mid]) + Sum(k, s[mid..hi])
  {
    SumJoin(k, s[lo..mid], s[mid..hi]);
    assert s[lo..mid] + s[mid..hi] == s[lo..hi];
  }

  lemma SumPart(k: Stat, s: seq<Node>, lo: nat, hi: nat)
    requires lo <= hi <= |s|
    ensures Sum(k, s[lo..hi]) <= Sum(k, s)
  {
    SumCut(k, s, 0, lo, |s|);
    SumCut(k, s, lo, hi, |s|);
    assert s[0..|s|] == s;
  }

  lemma {:induction false} SumPads(k: Stat, pad: Node, n: nat)
    requires Get(k, pad) == 0
    ensures Sum(k, Repeated(pad, n)) == 0
  {
    if n > 0 {
      SumPads(k, pad, n - 1);
      assert Repeated(pad, n)[..n - 1] == Repeated(pad, n - 1);
    }
  }

  // ---------------------------------------------------------------- one parent

  /** A count over these nodes stays within uint64. The other sums are checked when they are taken. */
  predicate Fits(k: Stat, nodes: seq<Node>) {
    k.Count? || k.Contracts? ==> Sum(k, nodes) < U64
  }

  function TallyGet(k: Stat, t: Tally): nat {
    match k
    case Volume => t.volume
    case Squares => t.squares
    case Count => t.count
    case Contracts => t.contracts
  }

  lemma {:induction false} TallyIsSum(h: Hasher, chunk: seq<Node>, k: Stat)
    requires Tallied(h, chunk).Ok? && Fits(k, chunk)
    ensures TallyGet(k, Tallied(h, chunk).value) == Sum(k, chunk)
  {
    if chunk != [] { TallyIsSum(h, chunk[..|chunk| - 1], k); }
  }

  lemma ChunkSum(h: Hasher, layer: seq<Node>, p: nat, k: Stat)
    requires 4 * p < |layer| && Chunk(h, layer, p).Ok?
    ensures Sum(k, Chunk(h, layer, p).value) == Sum(k, layer[4 * p..End(|layer|, p)])
  {
    var own := layer[4 * p..End(|layer|, p)];
    if |own| < 4 {
      var pad := NullNode(h, layer[0].face.scale).value;
      NullNumbers(h, layer[0].face.scale, k);
      SumPads(k, pad, 4 - |own|);
      SumJoin(k, own, Repeated(pad, 4 - |own|));
    }
  }

  lemma NullNumbers(h: Hasher, scale: u32, k: Stat)
    ensures NullNode(h, scale).Ok? ==> Get(k, NullNode(h, scale).value) == 0
  {
  }

  lemma GrainIsSum(h: Hasher, layer: seq<Node>, p: nat, k: Stat)
    requires 4 * p < |layer| && Grain(h, layer, p).Ok? && Fits(k, layer[4 * p..End(|layer|, p)])
    ensures Get(k, Grain(h, layer, p).value) == Sum(k, layer[4 * p..End(|layer|, p)])
  {
    ChunkSum(h, layer, p, k);
    TallyIsSum(h, Chunk(h, layer, p).value, k);
  }

  // ---------------------------------------------------------------- all levels

  function Pow4(l: nat): (w: nat)
    ensures w >= 1
  {
    if l == 0 then 1 else 4 * Pow4(l - 1)
  }

  function Min(a: int, b: int): int {
    if a < b then a else b
  }

  /** The first leaf below node p of a level of width w: p * w. */
  function Start(p: nat, w: nat): nat {
    if p == 0 then 0 else Start(p - 1, w) + w
  }

  lemma {:induction false} StartIs(p: nat, w: nat)
    ensures Start(p, w) == p * w
  {
    if p > 0 { StartIs(p - 1, w); }
  }

  lemma {:induction false} StartMonotone(a: nat, b: nat, w: nat)
    requires a <= b
    ensures Start(a, w) <= Start(b, w)
  {
    if a < b { StartMonotone(a, b - 1, w); }
  }

  lemma {:induction false} StartWide(p: nat, w: nat)
    ensures Start(p, 4 * w) == Start(4 * p, w)
  {
    if p > 0 {
      StartWide(p - 1, w);
      assert Start(4 * p, w) == Start(4 * p - 1, w) + w;
      assert Start(4 * p - 2, w) == Start(4 * p - 3, w) + w;
    }
  }

  /** A layer has one node per w leaves. */
  predicate Shaped(leaves: seq<Node>, layer: seq<Node>, w: nat) {
    w > 0 && layer != [] && Start(|layer| - 1, w) < |leaves| <= Start(|layer|, w)
  }

  /** Node p carries the sum over its leaves, those from p * w up to (p + 1) * w. */
  ghost predicate ExactAt(leaves: seq<Node>, layer: seq<Node>, w: nat, p: nat, k: Stat)
    requires p < |layer|
  {
    && Start(p, w) <= Min(Start(p + 1, w), |leaves|)
    && Get(k, layer[p]) == Sum(k, leaves[Start(p, w)..Min(Start(p + 1, w), |leaves|)])
  }

  ghost predicate Exact(leaves: seq<Node>, layer: seq<Node>, w: nat, k: Stat) {
    Shaped(leaves, layer, w) && forall p :: 0 <= p < |layer| ==> ExactAt(leaves, layer, w, p, k)
  }

  /** One more node adds the leaves below it. */
  lemma SpanStep(k: Stat, leaves: seq<Node>, layer: seq<Node>, a: nat, c: nat, x: nat, y: nat, z: nat)
    requires a <= c < |layer| && x <= y <= z <= |leaves|
    requires Sum(k, layer[a..c]) == Sum(k, leaves[x..y]) && Get(k, layer[c]) == Sum(k, leaves[y..z])
    ensures Sum(k, layer[a..c + 1]) == Sum(k, leaves[x..z])
  {
    assert layer[a..c + 1][..c - a] == layer[a..c];
    SumCut(k, leaves, x, y, z);
  }

  /** Summing consecutive nodes of an exact layer sums the leaves below them. */
  lemma {:induction false} SpanSum(leaves: seq<Node>, layer: seq<Node>, w: nat, a: nat, b: nat, k: Stat)
    requires Exact(leaves, layer, w, k) && a <= b <= |layer| && Start(a, w) <= |leaves|
    ensures Start(a, w) <= Min(Start(b, w), |leaves|)
    ensures Sum(k, layer[a..b]) == Sum(k, leaves[Start(a, w)..Min(Start(b, w), |leaves|)])
  {
    StartMonotone(a, b, w);
    if a < b {
      var c := b - 1;
      assert ExactAt(leaves, layer, w, c, k);
      SpanSum(leaves, layer, w, a, c, k);
      StartMonotone(c, |layer| - 1, w);
      SpanStep(k, leaves, layer, a, c, Start(a, w), Start(c, w), Min(Start(b, w), |leaves|));
    }
  }

  /** An exact layer as a whole sums all leaves. */
  lemma WholeSum(leaves: seq<Node>, layer: seq<Node>, w: nat, k: Stat)
    requires Exact(leaves, layer, w, k)
    ensures Sum(k, layer) == Sum(k, leaves)
  {
    SpanSum(leaves, layer, w, 0, |layer|, k);
    assert layer[0..|layer|] == layer && leaves[0..|leaves|] == leaves;
  }

  lemma Wider(n: nat, m: nat, w: nat)
    requires w > 0 && m > 0 && Start(m - 1, w) < n <= Start(m, w)
    ensures Start(Groups(m) - 1, 4 * w) < n <= Start(Groups(m), 4 * w)
  {
    var g := Groups(m);
    assert 4 * (g - 1) <= m - 1 && m <= 4 * g;
    StartWide(g, w);
    StartWide(g - 1, w);
    StartMonotone(4 * (g - 1), m - 1, w);
    StartMonotone(m, 4 * g, w);
  }

  /** The leaves below a parent are the leaves below its children. */
  lemma SpanIsRange(n: nat, m: nat, w: nat, p: nat)
    requires w > 0 && 4 * p < m && Start(m - 1, w) < n <= Start(m, w)
    ensures Start(p, 4 * w) == Start(4 * p, w) < n
    ensures Min(Start(End(m, p), w), n) == Min(Start(p + 1, 4 * w), n)
  {
    StartMonotone(4 * p, m - 1, w);
    StartWide(p, w);
    StartWide(p + 1, w);
    assert 4 * (p + 1) == 4 * p + 4;
    if 4 * p + 4 > m { StartMonotone(m, 4 * p + 4, w); }
  }

  lemma GrainExact(h: Hasher, leaves: seq<Node>, layer: seq<Node>, above: seq<Node>, w: nat, p: nat, k: Stat)
    requires Exact(leaves, layer, w, k) && Fits(k, leaves) && 4 * p < |layer| && p < |above| && Grain(h, layer, p) == Ok(above[p])
    ensures ExactAt(leaves, above, 4 * w, p, k)
  {
    var b := End(|layer|, p);
    SpanIsRange(|leaves|, |layer|, w, p);
    SpanSum(leaves, layer, w, 4 * p, b, k);
    SumPart(k, leaves, Start(4 * p, w), Min(Start(b, w), |leaves|));
    GrainIsSum(h, layer, p, k);
  }

  lemma CoarsenedExact(h: Hasher, leaves: seq<Node>, layer: seq<Node>, w: nat, k: Stat)
    requires Exact(leaves, layer, w, k) && Fits(k, leaves) && Coarsened(h, layer).Ok?
    ensures Exact(leaves, Coarsened(h, layer).value, 4 * w, k)
  {
    var above := Coarsened(h, layer).value;
    Wider(|leaves|, |layer|, w);
    forall p | 0 <= p < |above| ensures ExactAt(leaves, above, 4 * w, p, k) {
      ParentAt(h, layer, Groups(|layer|), p);
      GrainExact(h, leaves, layer, above, w, p, k);
    }
  }

  lemma LeavesExact(leaves: seq<Node>, k: Stat)
    requires leaves != []
    ensures Exact(leaves, leaves, 1, k)
  {
    StartIs(|leaves|, 1);
    StartIs(|leaves| - 1, 1);
    forall p | 0 <= p < |leaves| ensures ExactAt(leaves, leaves, 1, p, k) {
      StartIs(p, 1);
      assert leaves[p..p + 1] == [leaves[p]];
      SumOne(k, leaves[p]);
    }
  }

  /** Every node of level l carries the sums over its 4^l leaves. */
  lemma {:induction false} LevelExact(h: Hasher, layers: seq<seq<Node>>, l: nat, k: Stat)
    requires Stack(h, layers) && Fits(k, layers[0]) && l < |layers|
    ensures Exact(layers[0], layers[l], Pow4(l), k)
  {
    if l == 0 {
      LeavesExact(layers[0], k);
    } else {
      LevelExact(h, layers, l - 1, k);
      assert Coarsened(h, layers[l - 1]) == Ok(layers[l - 1 + 1]);
      CoarsenedExact(h, layers[0], layers[l - 1], Pow4(l - 1), k);
    }
  }

  /** All levels have the same totals; the top node carries those of the whole tree. */
  lemma LevelTotals(h: Hasher, layers: seq<seq<Node>>, l: nat, k: Stat)
    requires Stack(h, layers) && Fits(k, layers[0]) && l < |layers|
    ensures Sum(k, layers[l]) == Sum(k, layers[0])
    ensures l == |layers| - 1 ==> Get(k, layers[l][0]) == Sum(k, layers[0])
  {
    LevelExact(h, layers, l, k);
    WholeSum(layers[0], layers[l], Pow4(l), k);
    if l == |layers| - 1 {
      assert layers[l] == [layers[l][0]];
      SumOne(k, layers[l][0]);
    }
  }

  // ---------------------------------------------------------------- order of the leaves

  lemma SumWithout(k: Stat, s: seq<Node>, i: nat)
    requires i < |s|
    ensures Sum(k, s) == Sum(k, s[..i] + s[i + 1..]) + Get(k, s[i])
  {
    SumJoin(k, s[..i], s[i..]);
    SumJoin(k, [s[i]], s[i + 1..]);
    SumJoin(k, s[..i], s[i + 1..]);
    assert s[..i] + s[i..] == s && [s[i]] + s[i + 1..] == s[i..];
    SumOne(k, s[i]);
  }

  lemma Without<T>(t: seq<T>, i: nat)
    requires i < |t|
    ensures multiset(t[..i] + t[i + 1..]) == multiset(t) - multiset{t[i]}
  {
    assert t == t[..i] + [t[i]] + t[i + 1..];
  }

  /** The last item of a sequence found in a reordering of it. */
  lemma Matching<T>(s: seq<T>, t: seq<T>) returns (i: nat)
    requires multiset(s) == multiset(t) && s != []
    ensures i < |t| && t[i] == s[|s| - 1]
    ensures multiset(s[..|s| - 1]) == multiset(t[..i] + t[i + 1..])
  {
    var m := |s| - 1;
    assert s[m] in multiset(t);
    i :| 0 <= i < |t| && t[i] == s[m];
    Without(t, i);
    Without(s, m);
    assert s[..m] + s[m + 1..] == s[..m];
  }

  lemma {:induction false} SumPermuted(k: Stat, s: seq<Node>, t: seq<Node>)
    requires multiset(s) == multiset(t)
    ensures Sum(k, s) == Sum(k, t)
    decreases |s|
  {
    if s == [] {
      assert |multiset(t)| == 0;
    } else {
      var i := Matching(s, t);
      SumPermuted(k, s[..|s| - 1], t[..i] + t[i + 1..]);
      SumWithout(k, t, i);
    }
  }

  /** Reordering the leaves, contract nodes among them, leaves the top node's numbers as they were. */
  lemma RootNumbersIgnoreOrder(h: Hasher, layers: seq<seq<Node>>, layers': seq<seq<Node>>, k: Stat)
    requires Stack(h, layers) && Stack(h, layers') && Fits(k, layers[0])
    requires multiset(layers[0]) == multiset(layers'[0])
    ensures Get(k, layers[|layers| - 1][0]) == Get(k, layers'[|layers'| - 1][0])
  {
    SumPermuted(k, layers[0], layers'[0]);
    LevelTotals(h, layers, |layers| - 1, k);
    LevelTotals(h, layers', |layers'| - 1, k);
  }

  // ---------------------------------------------------------------- the variance

  /** A transaction or contract leaf: one item, with its square. */
  predicate Single(n: Node) {
    n.count == 1 && n.squares == Squared(n.face.volume)
  }

  predicate Singles(nodes: seq<Node>) {
    forall i :: 0 <= i < |nodes| ==> Single(nodes[i])
  }

  lemma Scaled(a: nat, b: nat, w: nat)
    requires a <= b
    ensures a * w <= b * w
  {
  }

  /** One more term: from s^2 <= n q follows (s + v)^2 <= (n + 1)(q + v^2). */
  lemma OneMore(s: nat, q: nat, n: nat, v: nat)
    requires s * s <= n * q && (n == 0 ==> s == 0)
    ensures (s + v) * (s + v) <= (n + 1) * (q + v * v)
  {
  }

  lemma {:induction false} CountOfSingles(nodes: seq<Node>)
    requires Singles(nodes)
    ensures Sum(Count, nodes) == |nodes|
  {
    if nodes != [] { CountOfSingles(nodes[..|nodes| - 1]); }
  }

  /** The Cauchy-Schwarz inequality for the leaves of a node. */
  lemma {:induction false} CauchySchwarz(nodes: seq<Node>)
    requires Singles(nodes)
    ensures Squared(Sum(Volume, nodes)) <= Sum(Count, nodes) * Sum(Squares, nodes)
  {
    if nodes != [] {
      var init, v := nodes[..|nodes| - 1], nodes[|nodes| - 1].face.volume;
      CauchySchwarz(init);
      CountOfSingles(init);
      if init == [] { assert Sum(Volume, init) == 0; }
      OneMore(Sum(Volume, init), Sum(Squares, init), Sum(Count, init), v);
    }
  }

  lemma FloorSquares(s: nat, q: nat, n: nat)
    requires n > 0 && s * s <= n * q
    ensures Squared(s / n) <= q / n
  {
    var f := s / n;
    var x := f * n;
    assert x <= s;
    assert x * x <= s * s by { Scaled(x, s, x); Scaled(x, s, s); }
    assert x * x == n * (n * (f * f));
    Cancels(n, n * (f * f), q);
    Floor(f * f, q, n);
  }

  lemma Cancels(n: nat, a: nat, b: nat)
    requires n > 0 && n * a <= n * b
    ensures a <= b
  {
    if a > b { Scaled(b + 1, a, n); }
  }

  lemma Floor(a: nat, q: nat, n: nat)
    requires n > 0 && n * a <= q
    ensures a <= q / n
  {
    if a > q / n { Scaled(q / n + 1, a, n); }
  }

  /** The clamp never fires: floor(q / n) is at least floor(s / n)^2. */
  lemma NoClamp(h: Hasher, layers: seq<seq<Node>>, l: nat, p: nat)
    requires Stack(h, layers) && Singles(layers[0]) && |layers[0]| < U64
    requires 0 < l < |layers| && p < |layers[l]|
    ensures var n := layers[l][p];
            && n.count > 0
            && n.face.variance == n.squares / n.count - Squared(n.face.volume / n.count)
  {
    var leaves, n, w := layers[0], layers[l][p], Pow4(l);
    CountOfSingles(leaves);
    LevelExact(h, layers, l, Volume);
    LevelExact(h, layers, l, Squares);
    LevelExact(h, layers, l, Count);
    assert ExactAt(leaves, layers[l], w, p, Volume) && ExactAt(leaves, layers[l], w, p, Squares) && ExactAt(leaves, layers[l], w, p, Count);
    var under := leaves[Start(p, w)..Min(Start(p + 1, w), |leaves|)];
    CauchySchwarz(under);
    CountOfSingles(under);
    StartMonotone(p, |layers[l]| - 1, w);
    assert under != [];
    FloorSquares(n.face.volume, n.squares, n.count);
    assert Coarsened(h, layers[l - 1]) == Ok(layers[l - 1 + 1]);
    ParentAt(h, layers[l - 1], Groups(|layers[l - 1]|), p);
  }
}

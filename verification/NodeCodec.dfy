/** The bytes of a node and its SHA-256 root: core/node/node.go. The hash function is a parameter. */
module NodeCodec {
  import opened Wrappers
  import opened Errors
  import opened Bytes
  import opened Layout
  import opened Nodes

  /** "RG_NODE_V1" with a zero byte. */
  const DOMAIN: Bytes := [0x52, 0x47, 0x5F, 0x4E, 0x4F, 0x44, 0x45, 0x5F, 0x56, 0x31, 0x00]

  /** "NULL_PAD_V1" with a zero byte. */
  const NULL_PAD_DOMAIN: Bytes := [0x4E, 0x55, 0x4C, 0x4C, 0x5F, 0x50, 0x41, 0x44, 0x5F, 0x56, 0x31, 0x00]

  /** "EMPTY_BLOCK_V1" with a zero byte. */
  const EMPTY_BLOCK_DOMAIN: Bytes :=
    [0x45, 0x4D, 0x50, 0x54, 0x59, 0x5F, 0x42, 0x4C, 0x4F, 0x43, 0x4B, 0x5F, 0x56, 0x31, 0x00]

  function Flat(children: seq<Bytes32>): (b: Bytes)
    ensures |b| == 32 * |children|
  {
    if children == [] then [] else children[0] + Flat(children[1..])
  }

  /** domain(11) scale(4) volume(32) variance(32) sig(1) count(2) children(32 each) */
  function Encode(f: Face): (b: Bytes)
    ensures |b| == 82 + 32 * |f.children|
  {
    DOMAIN + (BE(f.scale, 4) + (BE(f.volume, 32) + (BE(f.variance, 32) + ([f.sig] + (BE(|f.children|, 2) + Flat(f.children))))))
  }

  lemma {:induction false} FlatInjective(a: seq<Bytes32>, b: seq<Bytes32>)
    requires |a| == |b| && Flat(a) == Flat(b)
    ensures a == b
  {
    if a != [] {
      Cancel(a[0], Flat(a[1..]), b[0], Flat(b[1..]));
      FlatInjective(a[1..], b[1..]);
      assert a == [a[0]] + a[1..] && b == [b[0]] + b[1..];
    }
  }

  lemma FieldsCancel(f: Face, g: Face)
    requires Encode(f) == Encode(g)
    ensures BE(f.scale, 4) == BE(g.scale, 4) && BE(f.volume, 32) == BE(g.volume, 32) && BE(f.variance, 32) == BE(g.variance, 32)
    ensures f.sig == g.sig && Flat(f.children) == Flat(g.children)
  {
    var f4, g4 := BE(|f.children|, 2) + Flat(f.children), BE(|g.children|, 2) + Flat(g.children);
    var f3, g3 := [f.sig] + f4, [g.sig] + g4;
    var f2, g2 := BE(f.variance, 32) + f3, BE(g.variance, 32) + g3;
    var f1, g1 := BE(f.volume, 32) + f2, BE(g.volume, 32) + g2;
    Cancel(DOMAIN, BE(f.scale, 4) + f1, DOMAIN, BE(g.scale, 4) + g1);
    Cancel(BE(f.scale, 4), f1, BE(g.scale, 4), g1);
    Cancel(BE(f.volume, 32), f2, BE(g.volume, 32), g2);
    Cancel(BE(f.variance, 32), f3, BE(g.variance, 32), g3);
    Cancel([f.sig], f4, [g.sig], g4);
    Cancel(BE(|f.children|, 2), Flat(f.children), BE(|g.children|, 2), Flat(g.children));
    assert [f.sig][0] == [g.sig][0];
  }

  /** Node encodings are one to one. */
  lemma EncodeInjective(f: Face, g: Face)
    requires Encode(f) == Encode(g)
    ensures f == g
  {
    FieldsCancel(f, g);
    Widths();
    Width256();
    BEInjective(f.scale, g.scale, 4);
    BEInjective(f.volume, g.volume, 32);
    BEInjective(f.variance, g.variance, 32);
    assert |Flat(f.children)| == |Flat(g.children)|;
    FlatInjective(f.children, g.children);
  }

  /** Node hashing with a concrete hash function. */
  function With(sha: Bytes -> Bytes32): Hasher {
    Hasher((f: Face) => sha(Encode(f)), sha(NULL_PAD_DOMAIN), sha(EMPTY_BLOCK_DOMAIN))
  }

  /** Two nodes with one digest are a collision of the hash function. */
  lemma CollidingBytes(sha: Bytes -> Bytes32, f: Face, g: Face)
    requires f != g && With(sha).of(f) == With(sha).of(g)
    ensures Encode(f) != Encode(g) && sha(Encode(f)) == sha(Encode(g))
  {
    if Encode(f) == Encode(g) { EncodeInjective(f, g); }
  }

  function Serialized(f: Face): Result<Bytes, Code> {
    if !ValidScale(f.scale) then Err(ScaleDomainFault)
    else if |f.children| != Arity(f.scale) then Err(InvalidChildArity)
    else Ok(Encode(f))
  }

  method Serialize(f: Face) returns (r: Result<Bytes, Code>)
    ensures r == Serialized(f)
  {
    if !ValidScale(f.scale) { return Err(ScaleDomainFault); }
    var expected := if f.scale == 1 then 1 else 4;
    if |f.children| != expected { return Err(InvalidChildArity); }
    var buf := new byte[82 + 32 * |f.children|];
    ghost var whole := Encode(f);
    ghost var tail4 := BE(|f.children|, 2) + Flat(f.children);
    ghost var tail3 := [f.sig] + tail4;
    ghost var tail2 := BE(f.variance, 32) + tail3;
    ghost var tail1 := BE(f.volume, 32) + tail2;
    assert buf[..0] + (DOMAIN + (BE(f.scale, 4) + tail1)) == whole;
    var pos := Put(buf, 0, DOMAIN, BE(f.scale, 4) + tail1, whole);
    pos := Put(buf, pos, BE(f.scale, 4), tail1, whole);
    pos := Put(buf, pos, BE(f.volume, 32), tail2, whole);
    pos := Put(buf, pos, BE(f.variance, 32), tail3, whole);
    pos := Put(buf, pos, [f.sig], tail4, whole);
    pos := Put(buf, pos, BE(|f.children|, 2), Flat(f.children), whole);
    for i := 0 to |f.children|
      invariant pos == 82 + 32 * i
      invariant buf[..pos] + Flat(f.children[i..]) == whole
    {
      pos := Put(buf, pos, f.children[i], Flat(f.children[i + 1..]), whole);
    }
    assert buf[..pos] + Flat(f.children[|f.children|..]) == buf[..];
    return Ok(buf[..]);
  }
}

/** Tree nodes: core/node/node.go. Hashing is a parameter; NodeCodec gives it its bytes. */
module Nodes {
  import opened Wrappers
  import opened Errors
  import opened Bytes

  type u256 = x: int | 0 <= x < U256

  const ATOMIC: byte := 1
  const NULL_PAD: byte := 2
  const STAGNANT: byte := 3
  const LAMINAR: byte := 4
  const VOLATILE: byte := 5
  const CONTRACT: byte := 6

  /** The part of a node that is hashed. */
  datatype Face = Face(scale: u32, volume: u256, variance: u256, sig: byte, children: seq<Bytes32>)

  datatype Node = Node(face: Face, squares: u256, count: u64, contracts: u64)

  /** The digest of a serialized node, and the digests of the two domain constants. */
  datatype Hasher = Hasher(of: Face -> Bytes32, nullPad: Bytes32, emptyBlock: Bytes32)

  predicate ValidScale(s: int) {
    s == 1 || s == 4 || s == 16 || s == 64 || s == 256 || s == 1024 || s == 4096 || s == 16384 || s == 65536
  }

  function Arity(scale: u32): nat {
    if scale == 1 then 1 else 4
  }

  predicate Proper(f: Face) {
    ValidScale(f.scale) && |f.children| == Arity(f.scale)
  }

  /** Root: a node that does not serialize has none. */
  function Digest(h: Hasher, f: Face): Result<Bytes32, Code> {
    if !ValidScale(f.scale) then Err(ScaleDomainFault)
    else if |f.children| != Arity(f.scale) then Err(InvalidChildArity)
    else Ok(h.of(f))
  }

  /** NullNode: padding of a scale, built from padding of the scale below. */
  function NullFace(h: Hasher, scale: u32): (r: Result<Face, Code>)
    ensures ValidScale(scale) ==> r.Ok? && Proper(r.value) && r.value.scale == scale && r.value.sig == NULL_PAD
    ensures !ValidScale(scale) ==> r == Err(ScaleDomainFault)
  {
    if !ValidScale(scale) then Err(ScaleDomainFault)
    else if scale == 1 then Ok(Face(1, 0, 0, NULL_PAD, [h.nullPad]))
    else
      match NullFace(h, scale / 4)
      case Err(c) => Err(c)
      case Ok(below) =>
        match Digest(h, below)
        case Err(c) => Err(c)
        case Ok(d) => Ok(Face(scale, 0, 0, NULL_PAD, [d, d, d, d]))
  }

  function NullNode(h: Hasher, scale: u32): Result<Node, Code> {
    match NullFace(h, scale)
    case Err(c) => Err(c)
    case Ok(f) => Ok(Node(f, 0, 0, 0))
  }

  predicate IsNullPad(h: Hasher, n: Node) {
    && n.face.children != [] && n.face.volume == 0 && n.face.variance == 0 && n.count == 0
    && if n.face.scale == 1 then n.face.children == [h.nullPad]
       else
         match NullFace(h, n.face.scale / 4)
         case Err(_) => false
         case Ok(below) =>
           match Digest(h, below)
           case Err(_) => false
           case Ok(d) => forall i :: 0 <= i < |n.face.children| ==> n.face.children[i] == d
  }

  /** deriveSignature. It does not read the declared signature. */
  function Derived(h: Hasher, n: Node): byte {
    if IsNullPad(h, n) then NULL_PAD
    else if n.face.scale == 1 then
      if n.face.children == [h.emptyBlock] && n.face.volume == 0 && n.face.variance == 0 then STAGNANT else ATOMIC
    else if n.face.volume == 0 && n.face.variance == 0 then STAGNANT
    else if n.contracts == n.count && n.count > 0 && n.face.volume > 0 then CONTRACT
    else if n.face.variance == 0 then LAMINAR
    else if n.count > 0 && n.face.variance > Threshold(n.face.volume, n.count) then VOLATILE
    else LAMINAR
  }

  /** Four times the squared mean. */
  function Threshold(volume: nat, count: nat): nat
    requires count > 0
  {
    var mean := volume / count;
    mean * mean * 4
  }

  /** The signature a node is given is the one it would be recomputed to. */
  lemma DerivedStable(h: Hasher, n: Node)
    ensures Derived(h, n.(face := n.face.(sig := Derived(h, n)))) == Derived(h, n)
  {
  }
}

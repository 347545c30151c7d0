/**
 * Byte strings and big-endian integers (encoding/binary.BigEndian, big.Int.Bytes),
 * together with the two cancellation facts every codec proof uses.
 */
module Bytes {
  type byte = x: int | 0 <= x < 256
  type Bytes = seq<byte>

  function Zeros(n: nat): (z: Bytes)
    ensures |z| == n
  {
    if n == 0 then [] else Zeros(n - 1) + [0]
  }

  const ZERO32: Bytes := Zeros(32)
  const ZERO64: Bytes := Zeros(64)

  type Bytes32 = b: Bytes | |b| == 32 witness ZERO32
  type Bytes64 = b: Bytes | |b| == 64 witness ZERO64

  const U16 := 0x1_0000
  const U32 := 0x1_0000_0000
  const U64 := 0x1_0000_0000_0000_0000

  type u16 = x: int | 0 <= x < U16
  type u32 = x: int | 0 <= x < U32
  type u64 = x: int | 0 <= x < U64

  function Pow256(n: nat): (p: nat)
    ensures p >= 1
  {
    if n == 0 then 1 else 256 * Pow256(n - 1)
  }

  /** The number of values a uint256 can take. */
  const U256: nat := 0x1_0000000000000000_0000000000000000_0000000000000000_0000000000000000

  /** The `width` low-order bytes of n, most significant first. */
  function BE(n: nat, width: nat): (b: Bytes)
    ensures |b| == width
  {
    if width == 0 then [] else BE(n / 256, width - 1) + [n % 256]
  }

  /** The number a big-endian byte string denotes (big.Int.SetBytes). */
  function Num(b: Bytes): nat {
    if b == [] then 0 else 256 * Num(b[..|b| - 1]) + b[|b| - 1]
  }

  lemma {:induction false} NumOfBE(n: nat, width: nat)
    requires n < Pow256(width)
    ensures Num(BE(n, width)) == n
  {
    if width > 0 {
      NumOfBE(n / 256, width - 1);
      assert BE(n, width)[..width - 1] == BE(n / 256, width - 1);
    }
  }

  lemma {:induction false} BEOfNum(b: Bytes)
    ensures Num(b) < Pow256(|b|)
    ensures BE(Num(b), |b|) == b
  {
    if b != [] {
      BEOfNum(b[..|b| - 1]);
      assert b == b[..|b| - 1] + [b[|b| - 1]];
    }
  }

  lemma Widths()
    ensures Pow256(1) == 256 && Pow256(2) == U16 && Pow256(4) == U32 && Pow256(8) == U64
  {
  }

  lemma {:induction false} PowAdd(m: nat, n: nat)
    ensures Pow256(m + n) == Pow256(m) * Pow256(n)
  {
    if n > 0 {
      PowAdd(m, n - 1);
      assert Pow256(m + n) == 256 * (Pow256(m) * Pow256(n - 1)) == Pow256(m) * (256 * Pow256(n - 1));
    }
  }

  lemma Width256()
    ensures Pow256(32) == U256
  {
    Widths();
    PowAdd(8, 8);
    PowAdd(16, 16);
  }

  /** Equal-length heads of equal strings agree, and so do the tails. */
  lemma Cancel(a: Bytes, s: Bytes, b: Bytes, t: Bytes)
    requires a + s == b + t
    requires |a| == |b|
    ensures a == b && s == t
  {
    assert a == (a + s)[..|a|] && b == (b + t)[..|b|];
    assert s == (a + s)[|a|..] && t == (b + t)[|b|..];
  }

  /** Reading a field of known length at a cursor. */
  lemma Read(data: Bytes, pos: nat, field: Bytes, rest: Bytes)
    requires pos <= |data|
    requires data[pos..] == field + rest
    ensures pos + |field| <= |data|
    ensures data[pos..pos + |field|] == field
    ensures data[pos + |field|..] == rest
  {
  }

  lemma SliceOfDrop(data: Bytes, start: nat, a: nat, b: nat)
    requires a <= b && start + b <= |data|
    ensures data[start..][a..b] == data[start + a..start + b]
  {
  }

  /** Fixed-width integers are recovered from equal encodings. */
  lemma BEInjective(m: nat, n: nat, width: nat)
    requires m < Pow256(width) && n < Pow256(width)
    requires BE(m, width) == BE(n, width)
    ensures m == n
  {
    NumOfBE(m, width);
    NumOfBE(n, width);
  }
}

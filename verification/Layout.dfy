/** Writing a byte layout at an advancing cursor. */
module Layout {
  import opened Bytes

  /** copy(buf[pos:], src): the bytes written so far and those still to come make up the whole. */
  method Put(buf: array<byte>, pos: nat, src: Bytes, ghost rest: Bytes, ghost whole: Bytes) returns (next: nat)
    requires pos + |src| <= buf.Length
    requires buf[..pos] + (src + rest) == whole
    modifies buf
    ensures next == pos + |src|
    ensures buf[..next] + rest == whole
  {
    next := pos + |src|;
    for i := 0 to |src|
      invariant buf[..pos + i] == old(buf[..pos]) + src[..i]
    {
      buf[pos + i] := src[i];
      assert buf[..pos + i + 1] == buf[..pos + i] + [src[i]];
    }
    assert buf[..next] + rest == old(buf[..pos]) + (src + rest);
  }
}

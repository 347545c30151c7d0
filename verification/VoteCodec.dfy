/** The 141-byte vote format and the bytes a validator signs: core/consensus/vote.go. */
module VoteCodec {
  import opened Wrappers
  import opened Bytes
  import opened Messages
  import opened Layout

  const VOTE_SIZE: nat := 141

  /** type(1) height(8) round(4) blockHash(32) validatorPK(32) sig(64) */
  function EncodeVote(v: Vote): (d: Bytes)
    ensures |d| == VOTE_SIZE
  {
    [v.ballot.kind] + (BE(v.ballot.height, 8) + (BE(v.ballot.round, 4) + (v.ballot.block + (v.ballot.voter + v.sig))))
  }

  /** The reading side, slice by slice as DeserializeVote and deserializeEvidenceVote take it. */
  function ParseVote(d: Bytes): Vote
    requires |d| == VOTE_SIZE
  {
    NumFits(d[1..9], 8);
    NumFits(d[9..13], 4);
    Vote(Ballot(d[0], Num(d[1..9]), Num(d[9..13]), d[13..45], d[45..77]), d[77..141])
  }

  lemma NumFits(b: Bytes, width: nat)
    requires |b| == width
    ensures Num(b) < Pow256(width)
    ensures width == 8 ==> Num(b) < U64
    ensures width == 4 ==> Num(b) < U32
    ensures width == 2 ==> Num(b) < U16
  {
  }

  /** Cutting a byte string at increasing positions and gluing it back. */
  lemma EncodeOfParse(d: Bytes)
    requires |d| == VOTE_SIZE
    ensures EncodeVote(ParseVote(d)) == d
  {
    BEOfNum(d[1..9]);
    BEOfNum(d[9..13]);
    assert d[77..141] == d[77..];
    assert d[45..77] + d[77..] == d[45..];
    assert d[13..45] + d[45..] == d[13..];
    assert d[9..13] + d[13..] == d[9..];
    assert d[1..9] + d[9..] == d[1..];
    assert [d[0]] + d[1..] == d;
  }

  /** Vote encodings are one to one. */
  lemma EncodeVoteInjective(v: Vote, w: Vote)
    requires EncodeVote(v) == EncodeVote(w)
    ensures v == w
  {
    var a, b := v.ballot, w.ballot;
    Widths();
    Cancel([a.kind], BE(a.height, 8) + (BE(a.round, 4) + (a.block + (a.voter + v.sig))),
           [b.kind], BE(b.height, 8) + (BE(b.round, 4) + (b.block + (b.voter + w.sig))));
    Cancel(BE(a.height, 8), BE(a.round, 4) + (a.block + (a.voter + v.sig)),
           BE(b.height, 8), BE(b.round, 4) + (b.block + (b.voter + w.sig)));
    Cancel(BE(a.round, 4), a.block + (a.voter + v.sig), BE(b.round, 4), b.block + (b.voter + w.sig));
    Cancel(a.block, a.voter + v.sig, b.block, b.voter + w.sig);
    Cancel(a.voter, v.sig, b.voter, w.sig);
    assert [a.kind][0] == [b.kind][0];
    BEInjective(a.height, b.height, 8);
    BEInjective(a.round, b.round, 4);
  }

  lemma ParseOfEncode(v: Vote)
    ensures ParseVote(EncodeVote(v)) == v
  {
    EncodeOfParse(EncodeVote(v));
    EncodeVoteInjective(ParseVote(EncodeVote(v)), v);
  }

  /** v.Serialize: a fixed buffer filled at advancing offsets. */
  method SerializeVote(v: Vote) returns (data: Bytes)
    ensures data == EncodeVote(v)
  {
    ghost var whole, b := EncodeVote(v), v.ballot;
    var buf := new byte[VOTE_SIZE];
    var pos := Put(buf, 0, [v.ballot.kind], BE(b.height, 8) + (BE(b.round, 4) + (b.block + (b.voter + v.sig))), whole);
    pos := Put(buf, pos, BE(v.ballot.height, 8), BE(b.round, 4) + (b.block + (b.voter + v.sig)), whole);
    pos := Put(buf, pos, BE(v.ballot.round, 4), b.block + (b.voter + v.sig), whole);
    pos := Put(buf, pos, v.ballot.block, b.voter + v.sig, whole);
    pos := Put(buf, pos, v.ballot.voter, v.sig, whole);
    assert v.sig == v.sig + [];
    pos := Put(buf, pos, v.sig, [], whole);
    assert buf[..] == buf[..pos];
    data := buf[..];
  }

  /** DeserializeVote is the inverse of Serialize on every 141-byte string and fails on all others. */
  method DeserializeVote(data: Bytes) returns (r: Option<Vote>)
    ensures r.None? <==> |data| != VOTE_SIZE
    ensures r.Some? ==> EncodeVote(r.value) == data
    ensures forall v: Vote :: EncodeVote(v) == data ==> r == Some(v)
  {
    if |data| != VOTE_SIZE { return None; }
    EncodeOfParse(data);
    forall v: Vote | EncodeVote(v) == data ensures v == ParseVote(data) { ParseOfEncode(v); }
    return Some(ParseVote(data));
  }

  // ---------------------------------------------------------------- signed bytes

  /** "frg-mainnet-1" */
  const DEFAULT_CHAIN: Bytes := [102, 114, 103, 45, 109, 97, 105, 110, 110, 101, 116, 45, 49]

  function ChainId(chain: Bytes): Bytes {
    if chain == [] then DEFAULT_CHAIN else chain
  }

  /** "FRG_VOTE_V1\0" */
  const VOTE_DOMAIN: Bytes := [70, 82, 71, 95, 86, 79, 84, 69, 95, 86, 49, 0]

  /** domain(12) chain length(2, modulo 2^16) chain type(1) height(8) round(4) blockHash(32) */
  function VoteSignBytes(b: Ballot, chain: Bytes): (m: Bytes)
    ensures |m| == 59 + |ChainId(chain)|
  {
    var c := ChainId(chain);
    VOTE_DOMAIN + (BE(|c| % U16, 2) + (c + ([b.kind] + (BE(b.height, 8) + (BE(b.round, 4) + b.block)))))
  }

  /** Equal signed bytes, even under different chain identities, come from equal votes. */
  lemma VoteSignBytesInjective(a: Ballot, c: Bytes, b: Ballot, d: Bytes)
    requires VoteSignBytes(a, c) == VoteSignBytes(b, d)
    ensures a.kind == b.kind && a.height == b.height && a.round == b.round && a.block == b.block
    ensures ChainId(c) == ChainId(d)
  {
    var c', d' := ChainId(c), ChainId(d);
    Widths();
    var ta := [a.kind] + (BE(a.height, 8) + (BE(a.round, 4) + a.block));
    var tb := [b.kind] + (BE(b.height, 8) + (BE(b.round, 4) + b.block));
    Cancel(VOTE_DOMAIN, BE(|c'| % U16, 2) + (c' + ta), VOTE_DOMAIN, BE(|d'| % U16, 2) + (d' + tb));
    Cancel(BE(|c'| % U16, 2), c' + ta, BE(|d'| % U16, 2), d' + tb);
    Cancel(c', ta, d', tb);
    Cancel([a.kind], BE(a.height, 8) + (BE(a.round, 4) + a.block), [b.kind], BE(b.height, 8) + (BE(b.round, 4) + b.block));
    Cancel(BE(a.height, 8), BE(a.round, 4) + a.block, BE(b.height, 8), BE(b.round, 4) + b.block);
    Cancel(BE(a.round, 4), a.block, BE(b.round, 4), b.block);
    assert [a.kind][0] == [b.kind][0];
    BEInjective(a.height, b.height, 8);
    BEInjective(a.round, b.round, 4);
  }
}

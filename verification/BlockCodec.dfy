/** Stored blocks: core/statemachine/blockstore.go. */
module BlockCodec {
  import opened Wrappers
  import opened Errors
  import opened Bytes
  import opened Messages
  import opened VoteCodec
  import opened Layout
  import opened ProposalCodec

  datatype Block = Block(
    height: u64,
    proposer: Bytes32,
    prevRoot: Bytes32,
    stateRoot: Bytes32,
    txs: seq<WireTx>,
    proposalBytes: Bytes)

  const MAX_STORED: nat := 67_108_864
  const V1_HEADER: nat := 57
  const V2_HEADER: nat := 125

  /** "FRG_BLOCK_V1\0" and "FRG_BLOCK_V2\0" */
  const MAGIC_V1: Bytes := [70, 82, 71, 95, 66, 76, 79, 67, 75, 95, 86, 49, 0]
  const MAGIC_V2: Bytes := [70, 82, 71, 95, 66, 76, 79, 67, 75, 95, 86, 50, 0]

  function BatchOf(b: BatchCoder, txs: seq<WireTx>): Bytes {
    if txs == [] then [] else b.encode(txs)
  }

  /** magic(13) height(8) proposer(32) prevRoot(32) stateRoot(32) txCount(4) proposalLen(4) batch proposal */
  function BlockHeader(k: Block, tail: Bytes): Bytes {
    MAGIC_V2 + (BE(k.height, 8) + (k.proposer + (k.prevRoot + (k.stateRoot
    + (BE(|k.txs| % U32, 4) + (BE(|k.proposalBytes| % U32, 4) + tail))))))
  }

  function EncodeBlock(b: BatchCoder, k: Block): Bytes {
    BlockHeader(k, BatchOf(b, k.txs) + k.proposalBytes)
  }

  function BlockError(b: BatchCoder, k: Block): Option<Code> {
    if k.txs != [] && b.error(k.txs).Some? then b.error(k.txs)
    else if |k.proposalBytes| > MAX_STORED then Some(Malformed)
    else if V2_HEADER + |BatchOf(b, k.txs)| + |k.proposalBytes| > MAX_STORED then Some(Malformed)
    else None
  }

  lemma BlockSize(b: BatchCoder, k: Block)
    ensures |EncodeBlock(b, k)| == V2_HEADER + |BatchOf(b, k.txs)| + |k.proposalBytes|
  {
  }

  method SerializeBlock(b: BatchCoder, k: Block) returns (r: Result<Bytes, Code>)
    ensures r == match BlockError(b, k) case Some(e) => Err(e) case None => Ok(EncodeBlock(b, k))
  {
    var batch: Bytes := [];
    if |k.txs| > 0 {
      if b.error(k.txs).Some? { return Err(b.error(k.txs).value); }
      batch := b.encode(k.txs);
    }
    if |k.proposalBytes| > MAX_STORED { return Err(Malformed); }
    BlockSize(b, k);
    var buf := new byte[V2_HEADER + |batch| + |k.proposalBytes|];
    ghost var whole := EncodeBlock(b, k);
    var pos := WriteBlockHeader(k, buf, batch + k.proposalBytes, whole);
    pos := Put(buf, pos, batch, k.proposalBytes, whole);
    assert k.proposalBytes == k.proposalBytes + [];
    pos := Put(buf, pos, k.proposalBytes, [], whole);
    if buf.Length > MAX_STORED { return Err(Malformed); }
    assert buf[..] == buf[..pos] + [];
    return Ok(buf[..]);
  }

  method WriteBlockHeader(k: Block, buf: array<byte>, ghost tail: Bytes, ghost whole: Bytes) returns (pos: nat)
    requires buf.Length >= V2_HEADER && whole == BlockHeader(k, tail)
    modifies buf
    ensures pos == V2_HEADER && buf[..pos] + tail == whole
  {
    ghost var t6 := BE(|k.proposalBytes| % U32, 4) + tail;
    ghost var t5 := BE(|k.txs| % U32, 4) + t6;
    ghost var t4 := k.stateRoot + t5;
    ghost var t3 := k.prevRoot + t4;
    ghost var t2 := k.proposer + t3;
    assert buf[..0] == [] && [] + whole == whole;
    pos := Put(buf, 0, MAGIC_V2, BE(k.height, 8) + t2, whole);
    pos := Put(buf, pos, BE(k.height, 8), t2, whole);
    pos := Put(buf, pos, k.proposer, t3, whole);
    pos := Put(buf, pos, k.prevRoot, t4, whole);
    pos := Put(buf, pos, k.stateRoot, t5, whole);
    pos := Put(buf, pos, BE(|k.txs| % U32, 4), t6, whole);
    pos := Put(buf, pos, BE(|k.proposalBytes| % U32, 4), tail, whole);
  }

  // ---------------------------------------------------------------- reading

  /** The transactions behind a header that announces `count` of them. */
  function ParseStoredTxs(b: BatchCoder, d: Bytes, count: nat): Outcome<seq<WireTx>, Code> {
    if count == 0 then if d != [] then Failed(Malformed) else Parsed([])
    else
      match b.parse(d)
      case Failed(c) => Failed(c)
      case Panicked => Panicked
      case Parsed(txs) => if |txs| != count then Failed(Malformed) else Parsed(txs)
  }

  function WithTxs(k: Block, txs: Outcome<seq<WireTx>, Code>): Outcome<Block, Code> {
    match txs
    case Failed(c) => Failed(c)
    case Panicked => Panicked
    case Parsed(ts) => Parsed(k.(txs := ts))
  }

  function ParseV1(b: BatchCoder, data: Bytes): Outcome<Block, Code>
    requires |data| >= V1_HEADER
  {
    NumFits(data[13..21], 8);
    WithTxs(Block(Num(data[13..21]), data[21..53], ZERO32, ZERO32, [], []),
            ParseStoredTxs(b, data[V1_HEADER..], Num(data[53..57])))
  }

  function ParseV2Header(data: Bytes): Block
    requires |data| >= V2_HEADER
  {
    NumFits(data[13..21], 8);
    Block(Num(data[13..21]), data[21..53], data[53..85], data[85..117], [], [])
  }

  function ParseV2(b: BatchCoder, data: Bytes): Outcome<Block, Code>
    requires |data| >= V2_HEADER
  {
    var size := Num(data[121..125]);
    if size > |data| - V2_HEADER then Failed(Malformed)
    else
      var batchEnd := |data| - size;
      WithTxs(ParseV2Header(data).(proposalBytes := data[batchEnd..]),
              ParseStoredTxs(b, data[V2_HEADER..batchEnd], Num(data[117..121])))
  }

  function ParseBlock(b: BatchCoder, data: Bytes): Outcome<Block, Code> {
    if |data| < V1_HEADER || |data| > MAX_STORED then Failed(Malformed)
    else if data[..13] == MAGIC_V1 then ParseV1(b, data)
    else if data[..13] != MAGIC_V2 || |data| < V2_HEADER then Failed(Malformed)
    else ParseV2(b, data)
  }

  method ReadStoredTxs(b: BatchCoder, d: Bytes, count: nat) returns (o: Outcome<seq<WireTx>, Code>)
    ensures o == ParseStoredTxs(b, d, count)
  {
    if count == 0 {
      if d != [] { return Failed(Malformed); }
      return Parsed([]);
    }
    var txs := b.parse(d);
    if txs.Parsed? && |txs.value| != count { return Failed(Malformed); }
    return txs;
  }

  method DeserializeBlock(b: BatchCoder, data: Bytes) returns (o: Outcome<Block, Code>)
    ensures o == ParseBlock(b, data)
  {
    if |data| < V1_HEADER || |data| > MAX_STORED { return Failed(Malformed); }
    if data[..13] == MAGIC_V1 {
      NumFits(data[13..21], 8);
      var block := Block(Num(data[13..21]), data[21..53], ZERO32, ZERO32, [], []);
      var legacy := ReadStoredTxs(b, data[V1_HEADER..], Num(data[53..57]));
      return WithTxs(block, legacy);
    }
    if data[..13] != MAGIC_V2 || |data| < V2_HEADER { return Failed(Malformed); }
    var block := ParseV2Header(data);
    var count, size := Num(data[117..121]), Num(data[121..125]);
    if size > |data| - V2_HEADER { return Failed(Malformed); }
    var batchEnd := |data| - size;
    block := block.(proposalBytes := data[batchEnd..]);
    var txs := ReadStoredTxs(b, data[V2_HEADER..batchEnd], count);
    return WithTxs(block, txs);
  }

  lemma BlockFields(k: Block, tail: Bytes)
    ensures var d := BlockHeader(k, tail);
            && |d| == V2_HEADER + |tail| && d[..13] == MAGIC_V2 && d[13..21] == BE(k.height, 8)
            && d[21..53] == k.proposer && d[53..85] == k.prevRoot && d[85..117] == k.stateRoot
            && d[117..121] == BE(|k.txs| % U32, 4) && d[121..125] == BE(|k.proposalBytes| % U32, 4)
            && d[V2_HEADER..] == tail
  {
    var t6 := BE(|k.proposalBytes| % U32, 4) + tail;
    var t5 := BE(|k.txs| % U32, 4) + t6;
    var t4 := k.stateRoot + t5;
    var t3 := k.prevRoot + t4;
    var t2 := k.proposer + t3;
    var d := MAGIC_V2 + (BE(k.height, 8) + t2);
    assert d[0..] == d;
    Read(d, 0, MAGIC_V2, BE(k.height, 8) + t2);
    Read(d, 13, BE(k.height, 8), t2);
    Read(d, 21, k.proposer, t3);
    Read(d, 53, k.prevRoot, t4);
    Read(d, 85, k.stateRoot, t5);
    Read(d, 117, BE(|k.txs| % U32, 4), t6);
    Read(d, 121, BE(|k.proposalBytes| % U32, 4), tail);
  }

  lemma BlockNumbers(k: Block)
    requires |k.txs| < U32 && |k.proposalBytes| < U32
    ensures Num(BE(k.height, 8)) == k.height
    ensures Num(BE(|k.txs| % U32, 4)) == |k.txs| && Num(BE(|k.proposalBytes| % U32, 4)) == |k.proposalBytes|
  {
    assert k.height < Pow256(8) by { Widths(); }
    NumOfBE(k.height, 8);
    NumOfCount(|k.txs|);
    NumOfCount(|k.proposalBytes|);
  }

  lemma NumOfCount(n: nat)
    requires n < U32
    ensures Num(BE(n % U32, 4)) == n
  {
    Widths();
    NumOfBE(n, 4);
  }

  lemma StoredTxsRoundTrip(b: BatchCoder, txs: seq<WireTx>)
    requires BatchLaw(b) && Clean(b, txs) && |txs| <= MAX_TXS
    ensures ParseStoredTxs(b, BatchOf(b, txs), |txs|) == Parsed(txs) <==> |txs| < MAX_TXS
  {
    assert ReadsBack(b, txs);
  }

  lemma PayloadSplit(d: Bytes, head: nat, x: Bytes, y: Bytes)
    requires |d| == head + |x| + |y| && d[head..] == x + y
    ensures d[head..|d| - |y|] == x && d[|d| - |y|..] == y
  {
    Read(d, head, x, y);
  }

  lemma ParsedFrom(b: BatchCoder, k: Block, d: Bytes, batch: Bytes)
    requires V2_HEADER <= |d| <= MAX_STORED && d[..13] == MAGIC_V2 && Num(d[13..21]) == k.height
    requires d[21..53] == k.proposer && d[53..85] == k.prevRoot && d[85..117] == k.stateRoot
    requires Num(d[117..121]) == |k.txs| && Num(d[121..125]) == |k.proposalBytes|
    requires |d| == V2_HEADER + |batch| + |k.proposalBytes|
    requires d[V2_HEADER..|d| - |k.proposalBytes|] == batch && d[|d| - |k.proposalBytes|..] == k.proposalBytes
    ensures ParseBlock(b, d) == WithTxs(k.(txs := []), ParseStoredTxs(b, batch, |k.txs|))
  {
    assert MAGIC_V2[11] != MAGIC_V1[11];
  }

  lemma WithTxsExact(k: Block, o: Outcome<seq<WireTx>, Code>)
    ensures WithTxs(k.(txs := []), o) == Parsed(k) <==> o == Parsed(k.txs)
  {
  }

  /** A stored block of clean transactions is read back exactly when it is below the full 65536. */
  lemma BlockRoundTrip(b: BatchCoder, k: Block)
    requires BatchLaw(b) && Clean(b, k.txs) && BlockError(b, k).None?
    ensures ParseBlock(b, EncodeBlock(b, k)) == Parsed(k) <==> |k.txs| < MAX_TXS
  {
    var batch := BatchOf(b, k.txs);
    assert |k.txs| <= MAX_TXS by { assert ReadsBack(b, k.txs); }
    BlockFields(k, batch + k.proposalBytes);
    BlockNumbers(k);
    PayloadSplit(EncodeBlock(b, k), V2_HEADER, batch, k.proposalBytes);
    ParsedFrom(b, k, EncodeBlock(b, k), batch);
    StoredTxsRoundTrip(b, k.txs);
    WithTxsExact(k, ParseStoredTxs(b, batch, |k.txs|));
  }
}

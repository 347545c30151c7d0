/** SerializeBatch and DeserializeBatch of core/tx/tx.go. */
module BatchCodec {
  import opened Wrappers
  import opened Errors
  import opened Bytes
  import opened Messages
  import opened Framing

  /**
   * The codec of single transactions: why Serialize fails, the bytes it yields otherwise,
   * what Deserialize makes of bytes, and what survives the wire. TxWire gives the instance.
   */
  datatype TxCoder = TxCoder(
    error: WireTx -> Option<Code>,
    encode: WireTx -> Bytes,
    parse: Bytes -> Outcome<WireTx, Code>,
    normal: WireTx -> WireTx)

  ghost predicate RoundTrips(w: TxCoder) {
    forall t :: w.error(t).None? ==> w.parse(w.encode(t)) == Parsed(w.normal(t))
  }

  const MAX_BATCH_TXS: nat := 65536
  const MAX_BATCH_BYTES: nat := 33_554_432

  /** "TX_BATCH_V1\0" */
  const BATCH_DOMAIN: Bytes := [84, 88, 95, 66, 65, 84, 67, 72, 95, 86, 49, 0]

  function Blobs(w: TxCoder, txs: seq<WireTx>): (b: seq<Bytes>)
    ensures |b| == |txs|
  {
    if txs == [] then [] else Blobs(w, txs[..|txs| - 1]) + [w.encode(txs[|txs| - 1])]
  }

  /** The count is written as a uint16: a full batch of 65536 reads as zero. */
  function EncodeBatch(w: TxCoder, txs: seq<WireTx>): Bytes {
    BATCH_DOMAIN + (BE(|txs| % U16, 2) + Frames(Blobs(w, txs)))
  }

  /** What stops one turn of the loop, with `used` bytes already in the buffer. */
  function EntryError(w: TxCoder, t: WireTx, used: nat): Option<Code> {
    if w.error(t).Some? then w.error(t)
    else if |w.encode(t)| > 0xFFFF then Some(DosSizeExceeded)
    else if used + 2 + |w.encode(t)| > MAX_BATCH_BYTES then Some(DosSizeExceeded)
    else None
  }

  /** The first failure in the first n turns. */
  function EntriesError(w: TxCoder, txs: seq<WireTx>, n: nat): Option<Code>
    requires n <= |txs|
  {
    if n == 0 then None
    else if EntriesError(w, txs, n - 1).Some? then EntriesError(w, txs, n - 1)
    else EntryError(w, txs[n - 1], 14 + |Frames(Blobs(w, txs[..n - 1]))|)
  }

  function BatchError(w: TxCoder, txs: seq<WireTx>): Option<Code> {
    if txs == [] then Some(CanonicalEncodingDistortion)
    else if |txs| > MAX_BATCH_TXS then Some(DosSizeExceeded)
    else EntriesError(w, txs, |txs|)
  }

  lemma BlobsPush(w: TxCoder, txs: seq<WireTx>, n: nat)
    requires n < |txs|
    ensures Frames(Blobs(w, txs[..n + 1])) == Frames(Blobs(w, txs[..n])) + Frame(w.encode(txs[n]))
    ensures Blobs(w, txs[..n + 1]) == Blobs(w, txs[..n]) + [w.encode(txs[n])]
  {
    assert txs[..n + 1][..n] == txs[..n];
    FramesAppend(Blobs(w, txs[..n]), w.encode(txs[n]));
  }

  /** An error found early is the error of the whole batch. */
  lemma {:induction false} ErrorSticks(w: TxCoder, txs: seq<WireTx>, n: nat, m: nat)
    requires n <= m <= |txs| && EntriesError(w, txs, n).Some?
    ensures EntriesError(w, txs, m) == EntriesError(w, txs, n)
    decreases m
  {
    if n < m { ErrorSticks(w, txs, n, m - 1); }
  }

  lemma {:induction false} NoErrorMeans(w: TxCoder, txs: seq<WireTx>, n: nat)
    requires n <= |txs| && EntriesError(w, txs, n).None?
    ensures forall i :: 0 <= i < n ==> w.error(txs[i]).None? && |w.encode(txs[i])| <= 0xFFFF
    ensures 14 + |Frames(Blobs(w, txs[..n]))| <= MAX_BATCH_BYTES
  {
    if n > 0 {
      NoErrorMeans(w, txs, n - 1);
      BlobsPush(w, txs, n - 1);
    }
  }

  method SerializeBatch(w: TxCoder, txs: seq<WireTx>) returns (r: Result<Bytes, Code>)
    ensures BatchError(w, txs).Some? ==> r == Err(BatchError(w, txs).value)
    ensures BatchError(w, txs).None? ==> r == Ok(EncodeBatch(w, txs))
  {
    if |txs| == 0 { return Err(CanonicalEncodingDistortion); }
    if |txs| > MAX_BATCH_TXS { return Err(DosSizeExceeded); }
    var header := BATCH_DOMAIN + BE(|txs| % U16, 2);
    var buf := header;
    for n := 0 to |txs|
      invariant EntriesError(w, txs, n).None?
      invariant buf == header + Frames(Blobs(w, txs[..n]))
    {
      BlobsPush(w, txs, n);
      if EntriesError(w, txs, n + 1).Some? { ErrorSticks(w, txs, n + 1, |txs|); }
      if w.error(txs[n]).Some? { return Err(w.error(txs[n]).value); }
      var b := w.encode(txs[n]);
      if |b| > 0xFFFF { return Err(DosSizeExceeded); }
      buf := buf + Frame(b);
      Reassociate(header, Frames(Blobs(w, txs[..n])), Frame(b));
      if |buf| > MAX_BATCH_BYTES { return Err(DosSizeExceeded); }
    }
    assert txs[..|txs|] == txs;
    Reassociate(BATCH_DOMAIN, BE(|txs| % U16, 2), Frames(Blobs(w, txs)));
    return Ok(buf);
  }

  lemma Reassociate(a: Bytes, b: Bytes, c: Bytes)
    ensures (a + b) + c == a + (b + c)
  {
  }

  // ---------------------------------------------------------------- reading

  function ParseBatch(w: TxCoder, data: Bytes): Outcome<seq<WireTx>, Code> {
    if |data| > MAX_BATCH_BYTES then Failed(DosSizeExceeded)
    else if |data| < 14 then Failed(CanonicalEncodingDistortion)
    else if data[..12] != BATCH_DOMAIN then Failed(CanonicalEncodingDistortion)
    else ParseFrames(w.parse, CanonicalEncodingDistortion, data[14..], Num(data[12..14]))
  }

  method ReadEntries(w: TxCoder, data: Bytes, count: nat) returns (o: Outcome<seq<WireTx>, Code>)
    requires |data| >= 14
    ensures o == ParseFrames(w.parse, CanonicalEncodingDistortion, data[14..], count)
  {
    var pos, txs := 14, [];
    ghost var bad := CanonicalEncodingDistortion;
    AfterNone(ParseFrames(w.parse, bad, data[14..], count));
    for i := 0 to count
      invariant 14 <= pos <= |data|
      invariant After(txs, ParseFrames(w.parse, bad, data[pos..], count - i))
             == ParseFrames(w.parse, bad, data[14..], count)
    {
      ReadFrame(w.parse, bad, data, pos, count - i, txs);
      if pos + 2 > |data| { return Failed(CanonicalEncodingDistortion); }
      var n := Num(data[pos..pos + 2]);
      pos := pos + 2;
      if pos + n > |data| { return Failed(CanonicalEncodingDistortion); }
      var t := w.parse(data[pos..pos + n]);
      if t.Failed? { return Failed(t.code); }
      if t.Panicked? { return Panicked; }
      txs := txs + [t.value];
      pos := pos + n;
    }
    if pos != |data| {
      assert data[pos..] != [];
      return Failed(CanonicalEncodingDistortion);
    }
    assert data[pos..] == [] && txs + [] == txs;
    return Parsed(txs);
  }

  method DeserializeBatch(w: TxCoder, data: Bytes) returns (o: Outcome<seq<WireTx>, Code>)
    ensures o == ParseBatch(w, data)
  {
    if |data| > MAX_BATCH_BYTES { return Failed(DosSizeExceeded); }
    if |data| < 14 { return Failed(CanonicalEncodingDistortion); }
    if data[..12] != BATCH_DOMAIN { return Failed(CanonicalEncodingDistortion); }
    var count := Num(data[12..14]);
    BEOfNum(data[12..14]);
    Widths();
    if count > MAX_BATCH_TXS { return Failed(DosSizeExceeded); }
    o := ReadEntries(w, data, count);
  }

  function NormaliseAll(w: TxCoder, txs: seq<WireTx>): (r: seq<WireTx>)
    ensures |r| == |txs|
  {
    if txs == [] then [] else NormaliseAll(w, txs[..|txs| - 1]) + [w.normal(txs[|txs| - 1])]
  }

  lemma {:induction false} BlobsParse(w: TxCoder, txs: seq<WireTx>)
    requires RoundTrips(w)
    requires forall i :: 0 <= i < |txs| ==> w.error(txs[i]).None? && |w.encode(txs[i])| <= 0xFFFF
    ensures var b, v := Blobs(w, txs), NormaliseAll(w, txs);
            forall i :: 0 <= i < |b| ==> |b[i]| <= 0xFFFF && w.parse(b[i]) == Parsed(v[i])
  {
    if txs != [] {
      var m := |txs| - 1;
      BlobsParse(w, txs[..m]);
      assert w.error(txs[m]).None?;
      var b, v := Blobs(w, txs), NormaliseAll(w, txs);
      forall i | 0 <= i < |b| ensures |b[i]| <= 0xFFFF && w.parse(b[i]) == Parsed(v[i]) {
        if i < m { assert b[i] == Blobs(w, txs[..m])[i] && v[i] == NormaliseAll(w, txs[..m])[i]; }
      }
    }
  }

  lemma HeaderParsed(w: TxCoder, data: Bytes, count: nat, entries: Bytes)
    requires 14 <= |data| <= MAX_BATCH_BYTES && data[..12] == BATCH_DOMAIN
    requires Num(data[12..14]) == count && data[14..] == entries
    ensures ParseBatch(w, data) == ParseFrames(w.parse, CanonicalEncodingDistortion, entries, count)
  {
  }

  lemma SmallBatch(w: TxCoder, txs: seq<WireTx>)
    requires RoundTrips(w) && BatchError(w, txs).None? && |txs| < 65536
    ensures ParseBatch(w, EncodeBatch(w, txs)) == Parsed(NormaliseAll(w, txs))
  {
    assert txs[..|txs|] == txs;
    NoErrorMeans(w, txs, |txs|);
    BlobsParse(w, txs);
    HeaderRead(BATCH_DOMAIN, |txs|, Frames(Blobs(w, txs)));
    HeaderParsed(w, EncodeBatch(w, txs), |txs|, Frames(Blobs(w, txs)));
    FramesRoundTrip(w.parse, CanonicalEncodingDistortion, Blobs(w, txs), NormaliseAll(w, txs));
  }

  lemma FullBatch(w: TxCoder, txs: seq<WireTx>)
    requires BatchError(w, txs).None? && |txs| == 65536
    ensures ParseBatch(w, EncodeBatch(w, txs)) == Failed(CanonicalEncodingDistortion)
  {
    assert txs[..|txs|] == txs;
    NoErrorMeans(w, txs, |txs|);
    HeaderRead(BATCH_DOMAIN, |txs|, Frames(Blobs(w, txs)));
    HeaderParsed(w, EncodeBatch(w, txs), 0, Frames(Blobs(w, txs)));
    assert Frames(Blobs(w, txs)) != [];
  }

  /** A batch is read back as its normal form below 65536 transactions; the full one is refused. */
  lemma BatchRoundTrip(w: TxCoder, txs: seq<WireTx>)
    requires RoundTrips(w) && BatchError(w, txs).None?
    ensures ParseBatch(w, EncodeBatch(w, txs))
         == if |txs| < 65536 then Parsed(NormaliseAll(w, txs)) else Failed(CanonicalEncodingDistortion)
    ensures 0 < |EncodeBatch(w, txs)| <= MAX_BATCH_BYTES
  {
    assert txs[..|txs|] == txs;
    NoErrorMeans(w, txs, |txs|);
    if |txs| < 65536 { SmallBatch(w, txs); } else { FullBatch(w, txs); }
  }

  /** Batches of one size with the same bytes have the same normal form, the full size included. */
  lemma BatchInjective(w: TxCoder, txs: seq<WireTx>, us: seq<WireTx>)
    requires RoundTrips(w) && BatchError(w, txs).None? && BatchError(w, us).None?
    requires |txs| == |us| && EncodeBatch(w, txs) == EncodeBatch(w, us)
    ensures NormaliseAll(w, txs) == NormaliseAll(w, us)
  {
    assert txs[..|txs|] == txs && us[..|us|] == us;
    NoErrorMeans(w, txs, |txs|);
    NoErrorMeans(w, us, |us|);
    BlobsParse(w, txs);
    BlobsParse(w, us);
    HeaderRead(BATCH_DOMAIN, |txs|, Frames(Blobs(w, txs)));
    HeaderRead(BATCH_DOMAIN, |us|, Frames(Blobs(w, us)));
    FramesRoundTrip(w.parse, CanonicalEncodingDistortion, Blobs(w, txs), NormaliseAll(w, txs));
    FramesRoundTrip(w.parse, CanonicalEncodingDistortion, Blobs(w, us), NormaliseAll(w, us));
  }
}

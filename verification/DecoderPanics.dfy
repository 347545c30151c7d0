/** Which bytes from the network make the decoders panic: batches and proposals around one transaction. */
module DecoderPanics {
  import opened Wrappers
  import opened Errors
  import opened Bytes
  import opened Framing
  import TxCodec
  import TxParser
  import B = BatchCodec
  import P = ProposalCodec
  import TxWire
  import BatchWire

  // ---------------------------------------------------------------- counted frames

  /** Some whole frames that parse, then a whole frame that panics, whatever follows. */
  ghost predicate Trips<T(!new), E(!new)>(parse: Bytes -> Outcome<T, E>, d: Bytes, good: seq<Bytes>, last: Bytes, tail: Bytes) {
    && d == Frames(good) + (Frame(last) + tail) && |last| <= 0xFFFF && parse(last).Panicked?
    && forall i :: 0 <= i < |good| ==> |good[i]| <= 0xFFFF && parse(good[i]).Parsed?
  }

  lemma FrameOf(d: Bytes)
    requires |d| >= 2 && 2 + Num(d[..2]) <= |d|
    ensures var n := Num(d[..2]); n <= 0xFFFF && d == Frame(d[2..2 + n]) + d[2 + n..]
  {
    Widths();
    BEOfNum(d[..2]);
  }

  lemma {:induction false} PanicTrips<T(!new), E(!new)>(parse: Bytes -> Outcome<T, E>, bad: E, d: Bytes, count: nat)
    returns (good: seq<Bytes>, last: Bytes, tail: Bytes)
    requires ParseFrames(parse, bad, d, count).Panicked?
    ensures |good| < count && Trips(parse, d, good, last, tail)
    decreases count
  {
    var n := Num(d[..2]);
    var first, rest := d[2..2 + n], d[2 + n..];
    FrameOf(d);
    if parse(first).Panicked? {
      good, last, tail := [], first, rest;
      assert Frames(good) + (Frame(last) + tail) == d;
    } else {
      good, last, tail := PanicTrips(parse, bad, rest, count - 1);
      TripsLater(parse, first, rest, good, last, tail);
      good := [first] + good;
    }
  }

  lemma TripsLater<T(!new), E(!new)>(parse: Bytes -> Outcome<T, E>, first: Bytes, rest: Bytes, good: seq<Bytes>, last: Bytes, tail: Bytes)
    requires Trips(parse, rest, good, last, tail) && |first| <= 0xFFFF && parse(first).Parsed?
    ensures Trips(parse, Frame(first) + rest, [first] + good, last, tail)
  {
    Prepend(first, good, Frame(last) + tail);
  }

  lemma Prepend(first: Bytes, good: seq<Bytes>, tail: Bytes)
    ensures Frames([first] + good) + tail == Frame(first) + (Frames(good) + tail)
  {
    assert ([first] + good)[1..] == good;
  }

  lemma {:induction false} TripsPanic<T(!new), E(!new)>(parse: Bytes -> Outcome<T, E>, bad: E, d: Bytes, count: nat,
                                                        good: seq<Bytes>, last: Bytes, tail: Bytes)
    requires |good| < count && Trips(parse, d, good, last, tail)
    ensures ParseFrames(parse, bad, d, count).Panicked?
    decreases |good|
  {
    if good == [] {
      assert d == Frame(last) + tail;
      FrameRead(last, tail);
    } else {
      var first, more := good[0], good[1..];
      assert good == [first] + more;
      var rest := Frames(more) + (Frame(last) + tail);
      Prepend(first, more, Frame(last) + tail);
      FrameRead(first, rest);
      TripsPanic(parse, bad, rest, count - 1, more, last, tail);
    }
  }

  // ---------------------------------------------------------------- batches

  /** Whole transactions that parse, then one that is cut short, whatever follows. */
  ghost predicate TxTrips(text: TxCodec.Text, d: Bytes, good: seq<Bytes>, last: Bytes, tail: Bytes) {
    && d == Frames(good) + (Frame(last) + tail) && |last| <= 0xFFFF && TxParser.CutShort(last)
    && forall i :: 0 <= i < |good| ==> |good[i]| <= 0xFFFF && TxParser.Parse(text, good[i]).Parsed?
  }

  /** After the header, such transactions among those announced. */
  ghost predicate BatchTrips(text: TxCodec.Text, data: Bytes) {
    && 14 <= |data| <= B.MAX_BATCH_BYTES && data[..12] == B.BATCH_DOMAIN
    && exists good, last, tail :: TxTrips(text, data[14..], good, last, tail) && |good| < Num(data[12..14])
  }

  /** DeserializeBatch panics exactly then. */
  lemma BatchPanicsExactly(text: TxCodec.Text, data: Bytes)
    ensures B.ParseBatch(TxWire.Coder(text), data).Panicked? <==> BatchTrips(text, data)
  {
    if 14 <= |data| <= B.MAX_BATCH_BYTES && data[..12] == B.BATCH_DOMAIN {
      var parse, bad, count := TxWire.Coder(text).parse, CanonicalEncodingDistortion, Num(data[12..14]);
      if ParseFrames(parse, bad, data[14..], count).Panicked? {
        var good, last, tail := PanicTrips(parse, bad, data[14..], count);
        TxParser.PanicsExactly(text, last);
        assert TxTrips(text, data[14..], good, last, tail);
      }
      if good, last, tail :| TxTrips(text, data[14..], good, last, tail) && |good| < count {
        TxParser.PanicsExactly(text, last);
        TripsPanic(parse, bad, data[14..], count, good, last, tail);
      }
    }
  }

  // ---------------------------------------------------------------- proposals

  /** Where the transactions of a proposal begin, after signature, header and votes. */
  function TxStart(data: Bytes): nat
    requires |data| >= 188
  {
    188 + 141 * Num(data[184..188])
  }

  lemma TxPartPanics(b: P.BatchCoder, d: Bytes)
    ensures P.ParseTxPart(b, d).Panicked? <==> |d| > 4 && 0 < Num(d[..4]) <= P.MAX_TXS && b.parse(d[4..]).Panicked?
  {
  }

  lemma Whole(n: nat, size: nat)
    ensures n <= size / 141 <==> 141 * n <= size
  {
  }

  lemma BodyPanics(b: P.BatchCoder, data: Bytes)
    requires |data| >= 188
    ensures P.ParseProposal(b, data).Panicked? <==>
              Num(data[184..188]) <= P.MAX_VOTES && TxStart(data) <= |data| && P.ParseTxPart(b, data[TxStart(data)..]).Panicked?
  {
    var body, n := data[64..], Num(data[184..188]);
    assert body[120..124] == data[184..188];
    Whole(n, |body[124..]|);
    if 141 * n <= |body[124..]| { assert body[124..][141 * n..] == data[TxStart(data)..]; }
  }

  /** The votes and the transaction count of a proposal are in order. */
  ghost predicate UpToBatch(data: Bytes) {
    && |data| >= 188 && Num(data[184..188]) <= P.MAX_VOTES && TxStart(data) + 4 < |data|
    && 0 < Num(data[TxStart(data)..TxStart(data) + 4]) <= P.MAX_TXS
  }

  lemma ProposalPanicsBy(b: P.BatchCoder, data: Bytes)
    ensures P.ParseProposal(b, data).Panicked? <==> UpToBatch(data) && b.parse(data[TxStart(data) + 4..]).Panicked?
  {
    if |data| >= 188 {
      var start := TxStart(data);
      BodyPanics(b, data);
      if start <= |data| { TxPartPanics(b, data[start..]); }
      if start + 4 < |data| {
        assert data[start..][..4] == data[start..start + 4] && data[start..][4..] == data[start + 4..];
      }
    }
  }

  /** DeserializeProposal panics exactly when it gets as far as its batch and that trips. */
  lemma ProposalPanicsExactly(text: TxCodec.Text, data: Bytes)
    ensures P.ParseProposal(BatchWire.Coder(TxWire.Coder(text)), data).Panicked?
       <==> UpToBatch(data) && BatchTrips(text, data[TxStart(data) + 4..])
  {
    ProposalPanicsBy(BatchWire.Coder(TxWire.Coder(text)), data);
    if UpToBatch(data) { BatchPanicsExactly(text, data[TxStart(data) + 4..]); }
  }
}

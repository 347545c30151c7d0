/** Blobs behind 16-bit length prefixes, and reading a counted list of them. */
module Framing {
  import opened Wrappers
  import opened Bytes

  function Frame(blob: Bytes): Bytes {
    BE(|blob|, 2) + blob
  }

  function Frames(blobs: seq<Bytes>): Bytes {
    if blobs == [] then [] else Frame(blobs[0]) + Frames(blobs[1..])
  }

  /** `count` frames that use up d, each handed to `parse`; the first failure wins. */
  function ParseFrames<T, E>(parse: Bytes -> Outcome<T, E>, bad: E, d: Bytes, count: nat): Outcome<seq<T>, E>
    decreases count
  {
    if count == 0 then if d == [] then Parsed([]) else Failed(bad)
    else if |d| < 2 then Failed(bad)
    else
      var n := Num(d[..2]);
      if 2 + n > |d| then Failed(bad)
      else Then(parse(d[2..2 + n]), ParseFrames(parse, bad, d[2 + n..], count - 1))
  }

  function Then<T, E>(first: Outcome<T, E>, rest: Outcome<seq<T>, E>): Outcome<seq<T>, E> {
    match first
    case Failed(c) => Failed(c)
    case Panicked => Panicked
    case Parsed(t) => After([t], rest)
  }

  /** Values already read, then the outcome of reading the rest. */
  function After<T, E>(read: seq<T>, rest: Outcome<seq<T>, E>): Outcome<seq<T>, E> {
    match rest
    case Failed(c) => Failed(c)
    case Panicked => Panicked
    case Parsed(more) => Parsed(read + more)
  }

  lemma AfterNone<T, E>(rest: Outcome<seq<T>, E>)
    ensures After([], rest) == rest
  {
    if rest.Parsed? { assert [] + rest.value == rest.value; }
  }

  lemma AfterAfter<T, E>(a: seq<T>, t: T, rest: Outcome<seq<T>, E>)
    ensures After(a, After([t], rest)) == After(a + [t], rest)
  {
    if rest.Parsed? { assert a + ([t] + rest.value) == (a + [t]) + rest.value; }
  }

  /** One turn of the reading loop at a cursor, after `read` has been collected. */
  lemma ReadFrame<T, E>(parse: Bytes -> Outcome<T, E>, bad: E, data: Bytes, pos: nat, count: nat, read: seq<T>)
    requires pos <= |data| && count > 0
    ensures |data| < pos + 2 ==> After(read, ParseFrames(parse, bad, data[pos..], count)) == Failed(bad)
    ensures pos + 2 <= |data| ==>
              var n := Num(data[pos..pos + 2]);
              && (|data| < pos + 2 + n ==> After(read, ParseFrames(parse, bad, data[pos..], count)) == Failed(bad))
              && (pos + 2 + n <= |data| ==>
                    match parse(data[pos + 2..pos + 2 + n])
                    case Failed(c) => After(read, ParseFrames(parse, bad, data[pos..], count)) == Failed(c)
                    case Panicked => After(read, ParseFrames(parse, bad, data[pos..], count)) == Panicked
                    case Parsed(t) => (After(read, ParseFrames(parse, bad, data[pos..], count))
                                       == After(read + [t], ParseFrames(parse, bad, data[pos + 2 + n..], count - 1))))
  {
    if pos + 2 <= |data| {
      SliceOfDrop(data, pos, 0, 2);
      assert data[pos..][..2] == data[pos..][0..2];
      var n := Num(data[pos..pos + 2]);
      if pos + 2 + n <= |data| {
        SliceOfDrop(data, pos, 2, 2 + n);
        assert data[pos..][2 + n..] == data[pos + 2 + n..];
        var first := parse(data[pos + 2..pos + 2 + n]);
        if first.Parsed? {
          AfterAfter(read, first.value, ParseFrames(parse, bad, data[pos + 2 + n..], count - 1));
        }
      }
    }
  }

  lemma FrameRead(blob: Bytes, tail: Bytes)
    requires |blob| <= 0xFFFF
    ensures var d, n := Frame(blob) + tail, |blob|;
            |d| >= 2 + n && Num(d[..2]) == n && d[2..2 + n] == blob && d[2 + n..] == tail
  {
    var d := Frame(blob) + tail;
    Widths();
    NumOfBE(|blob|, 2);
    assert d[..2] == BE(|blob|, 2);
  }

  /** Reading back what was framed, when every blob parses. */
  lemma {:induction false} FramesRoundTrip<T, E>(parse: Bytes -> Outcome<T, E>, bad: E, blobs: seq<Bytes>, values: seq<T>)
    requires |blobs| == |values|
    requires forall i :: 0 <= i < |blobs| ==> |blobs[i]| <= 0xFFFF && parse(blobs[i]) == Parsed(values[i])
    ensures ParseFrames(parse, bad, Frames(blobs), |blobs|) == Parsed(values)
  {
    if blobs != [] {
      FramesRoundTrip(parse, bad, blobs[1..], values[1..]);
      FrameRead(blobs[0], Frames(blobs[1..]));
      assert values == [values[0]] + values[1..];
    } else {
      assert values == [];
    }
  }

  lemma {:induction false} FramesAppend(blobs: seq<Bytes>, b: Bytes)
    ensures Frames(blobs + [b]) == Frames(blobs) + Frame(b)
  {
    if blobs == [] {
      assert blobs + [b] == [b];
      assert Frames([b]) == Frame(b) + Frames([]);
    } else {
      assert (blobs + [b])[1..] == blobs[1..] + [b];
      FramesAppend(blobs[1..], b);
    }
  }

  /** A 12-byte magic and a 16-bit count in front of the frames. */
  lemma HeaderRead(magic: Bytes, count: nat, entries: Bytes)
    requires |magic| == 12
    ensures var d := magic + (BE(count % U16, 2) + entries);
            |d| == 14 + |entries| && d[..12] == magic && Num(d[12..14]) == count % U16 && d[14..] == entries
  {
    var d := magic + (BE(count % U16, 2) + entries);
    Widths();
    NumOfBE(count % U16, 2);
    assert d[12..14] == BE(count % U16, 2);
  }
}

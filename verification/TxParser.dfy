/** Deserialize of core/tx/tx.go, and the round trip with TxCodec. */
module TxParser {
  import opened Wrappers
  import opened Errors
  import opened Bytes
  import opened Messages
  import opened VoteCodec
  import opened TxCodec

  datatype LabelView = LabelView(kind: byte, sender: Bytes, receiver: Bytes, end: nat)

  /** tx.go:215-241. The read of the receiver length at line 235 is not guarded. */
  function ParseLabels(data: Bytes): (o: Outcome<LabelView, Code>)
    requires |data| >= MIN_TX_BYTES
    ensures o.Parsed? ==> o.value.end <= |data|
  {
    if data[..6] != TX_DOMAIN then Failed(CanonicalEncodingDistortion)
    else
      var p := 9 + Num(data[7..9]);
      if p > |data| then Failed(CanonicalEncodingDistortion)
      else if p + 2 > |data| then Panicked
      else
        var q := p + 2 + Num(data[p..p + 2]);
        if q > |data| then Failed(CanonicalEncodingDistortion)
        else Parsed(LabelView(data[6], data[9..p], data[p + 2..q], q))
  }

  datatype NumberView = NumberView(value: nat, nonce: u64, missedHeight: u64, missedProposer: Bytes32, skipIndex: u32)

  function ParseNumbers(data: Bytes, pos: nat): Outcome<NumberView, Code> {
    if pos + 84 > |data| then Failed(CanonicalEncodingDistortion)
    else
      NumFits(data[pos + 32..pos + 40], 8);
      NumFits(data[pos + 40..pos + 48], 8);
      NumFits(data[pos + 80..pos + 84], 4);
      Parsed(NumberView(Num(data[pos..pos + 32]), Num(data[pos + 32..pos + 40]), Num(data[pos + 40..pos + 48]),
                        data[pos + 48..pos + 80], Num(data[pos + 80..pos + 84])))
  }

  /** A length-prefixed payload at the front of d that must end before the trailer. */
  function ParsePayload(d: Bytes, width: nat): (o: Outcome<Bytes, Code>)
    ensures o.Parsed? ==> width + |o.value| + TRAILER <= |d|
  {
    if width + TRAILER > |d| then Failed(CanonicalEncodingDistortion)
    else
      var n := Num(d[..width]);
      if width == 4 && n > MAX_WASM then Failed(BytecodeTooLarge)
      else if width + n + TRAILER > |d| then Failed(CanonicalEncodingDistortion)
      else Parsed(d[width..width + n])
  }

  datatype ExtensionView = ExtensionView(first: Bytes, second: Bytes, end: nat)

  function ParseExtension(data: Bytes, pos: nat, kind: byte): Outcome<ExtensionView, Code>
    requires pos <= |data|
  {
    if kind == CONTRACT_DEPLOY || kind == CONTRACT_CALL || kind == EQUIV_EVIDENCE then
      var width := if kind == CONTRACT_DEPLOY then 4 else 2;
      match ParsePayload(data[pos..], width)
      case Parsed(a) =>
        var next := pos + width + |a|;
        if kind != EQUIV_EVIDENCE then Parsed(ExtensionView(a, [], next))
        else (
          match ParsePayload(data[next..], 2)
          case Parsed(b) => Parsed(ExtensionView(a, b, next + 2 + |b|))
          case Failed(c) => Failed(c)
          case Panicked => Panicked
        )
      case Failed(c) => Failed(c)
      case Panicked => Panicked
    else Parsed(ExtensionView([], [], pos))
  }

  function Assemble(data: Bytes, l: LabelView, n: NumberView, x: ExtensionView): WireTx
    requires |data| >= TRAILER
  {
    var p := |data| - TRAILER;
    Tx(l.kind, l.sender, l.receiver, n.value, n.nonce, data[p..p + 32], data[p + 32..p + 64], data[p + 64..p + 128],
       data[p + 128..], n.missedHeight, n.missedProposer, n.skipIndex,
       if l.kind == CONTRACT_DEPLOY then x.first else [], [],
       if l.kind == CONTRACT_CALL then x.first else [],
       if l.kind == EQUIV_EVIDENCE then x.first else [],
       x.second)
  }

  /** The canonical check: the parsed transaction must serialise back to the input. */
  function CheckCanonical(text: Text, data: Bytes, t: WireTx): Outcome<WireTx, Code> {
    match SerializeError(text, t)
    case Some(e) => Failed(e)
    case None => if Encode(text, t) != data then Failed(CanonicalEncodingDistortion) else Parsed(t)
  }

  /** Everything up to the canonical check. */
  function ParseParts(data: Bytes): Outcome<WireTx, Code> {
    if |data| > MAX_TX_BYTES then Failed(DosSizeExceeded)
    else if |data| < MIN_TX_BYTES then Failed(CanonicalEncodingDistortion)
    else
      match ParseLabels(data)
      case Failed(c) => Failed(c)
      case Panicked => Panicked
      case Parsed(l) =>
        match ParseNumbers(data, l.end)
        case Failed(c) => Failed(c)
        case Panicked => Panicked
        case Parsed(n) =>
          match ParseExtension(data, l.end + 84, l.kind)
          case Failed(c) => Failed(c)
          case Panicked => Panicked
          case Parsed(x) =>
            if x.end + TRAILER != |data| then Failed(CanonicalEncodingDistortion)
            else Parsed(Assemble(data, l, n, x))
  }

  function Parse(text: Text, data: Bytes): Outcome<WireTx, Code> {
    match ParseParts(data)
    case Failed(c) => Failed(c)
    case Panicked => Panicked
    case Parsed(t) => CheckCanonical(text, data, t)
  }

  lemma LabelsRead(text: Text, t: WireTx, tail: Bytes, data: Bytes)
    requires data == Labels(text, t, tail) && |data| >= MIN_TX_BYTES
    requires |text.nfc(t.sender)| <= 0xFFFF && |text.nfc(t.receiver)| <= 0xFFFF
    ensures var s, r := text.nfc(t.sender), text.nfc(t.receiver);
            && ParseLabels(data) == Parsed(LabelView(t.kind, s, r, 11 + |s| + |r|))
            && data[11 + |s| + |r|..] == tail
  {
    var s, r := text.nfc(t.sender), text.nfc(t.receiver);
    var t4 := r + tail;
    var t3 := BE(|r|, 2) + t4;
    var t2 := s + t3;
    var t1 := BE(|s|, 2) + t2;
    assert data[0..] == data;
    Read(data, 0, TX_DOMAIN, [t.kind] + t1);
    Read(data, 6, [t.kind], t1);
    assert data[6] == data[6..7][0];
    Read(data, 7, BE(|s|, 2), t2);
    Read(data, 9, s, t3);
    Read(data, 9 + |s|, BE(|r|, 2), t4);
    Read(data, 11 + |s|, r, tail);
    PrefixRead(|s|, 2);
    PrefixRead(|r|, 2);
  }

  lemma NumbersRead(t: WireTx, tail: Bytes, data: Bytes, pos: nat)
    requires 0 <= t.value < U256 && pos <= |data| && data[pos..] == Numbers(t, tail)
    ensures ParseNumbers(data, pos) == Parsed(NumberView(t.value, t.nonce, t.missedHeight, t.missedProposer, t.skipIndex))
    ensures pos + 84 <= |data| && data[pos + 84..] == tail
  {
    Widths();
    Width256();
    var a4 := BE(t.skipIndex, 4) + tail;
    var a3 := t.missedProposer + a4;
    var a2 := BE(t.missedHeight, 8) + a3;
    Read(data, pos, BE(t.value, 32), BE(t.nonce, 8) + a2);
    Read(data, pos + 32, BE(t.nonce, 8), a2);
    Read(data, pos + 40, BE(t.missedHeight, 8), a3);
    Read(data, pos + 48, t.missedProposer, a4);
    Read(data, pos + 80, BE(t.skipIndex, 4), tail);
    NumOfBE(t.value, 32);
    NumOfBE(t.nonce, 8);
    NumOfBE(t.missedHeight, 8);
    NumOfBE(t.skipIndex, 4);
  }

  lemma PayloadParsed(d: Bytes, width: nat, payload: Bytes)
    requires width + |payload| + TRAILER <= |d| && (width == 4 ==> |payload| <= MAX_WASM)
    requires Num(d[..width]) == |payload| && d[width..width + |payload|] == payload
    ensures ParsePayload(d, width) == Parsed(payload)
  {
  }

  lemma PayloadRead(d: Bytes, width: nat, prefix: Bytes, payload: Bytes, tail: Bytes)
    requires |prefix| == width && Num(prefix) == |payload| && (width == 4 ==> |payload| <= MAX_WASM)
    requires d == prefix + (payload + tail) && |tail| >= TRAILER
    ensures ParsePayload(d, width) == Parsed(payload)
    ensures d[width + |payload|..] == tail
  {
    assert d[..width] == prefix;
    assert d[width..width + |payload|] == payload;
    PayloadParsed(d, width, payload);
  }

  lemma PrefixRead(n: nat, width: nat)
    requires (width == 2 && n <= 0xFFFF) || (width == 4 && n <= MAX_WASM)
    ensures Num(BE(n, width)) == n
  {
    Widths();
    NumOfBE(n, width);
  }

  lemma FirstPayloadRead(text: Text, t: WireTx, rest: Bytes, data: Bytes, pos: nat, width: nat)
    requires t.kind == CONTRACT_DEPLOY || t.kind == CONTRACT_CALL || t.kind == EQUIV_EVIDENCE
    requires width == if t.kind == CONTRACT_DEPLOY then 4 else 2
    requires UnsignedError(text, t).None? && pos <= |data| && data[pos..] == Prefix1(t) + (Payload1(t) + rest)
    requires |rest| >= TRAILER
    ensures ParsePayload(data[pos..], width) == Parsed(Payload1(t))
    ensures pos + width + |Payload1(t)| <= |data| && data[pos + width + |Payload1(t)|..] == rest
  {
    PrefixRead(|Payload1(t)|, width);
    PayloadRead(data[pos..], width, Prefix1(t), Payload1(t), rest);
    assert data[pos..][width + |Payload1(t)|..] == data[pos + width + |Payload1(t)|..];
  }

  lemma SecondPayloadRead(text: Text, t: WireTx, tail: Bytes, data: Bytes, pos: nat)
    requires t.kind == EQUIV_EVIDENCE && UnsignedError(text, t).None?
    requires pos <= |data| && data[pos..] == Prefix2(t) + (Payload2(t) + tail) && |tail| == TRAILER
    ensures ParsePayload(data[pos..], 2) == Parsed(Payload2(t))
    ensures pos + 2 + |Payload2(t)| == |data| - TRAILER && data[|data| - TRAILER..] == tail
  {
    PrefixRead(|t.evidenceB|, 2);
    PayloadRead(data[pos..], 2, Prefix2(t), t.evidenceB, tail);
    assert data[pos..][2 + |t.evidenceB|..] == data[pos + 2 + |t.evidenceB|..];
  }

  lemma EvidenceRead(text: Text, t: WireTx, tail: Bytes, data: Bytes, pos: nat)
    requires UnsignedError(text, t).None? && pos <= |data| && data[pos..] == Extension(t, tail) && |tail| == TRAILER
    requires t.kind == EQUIV_EVIDENCE
    ensures ParseExtension(data, pos, t.kind) == Parsed(ExtensionView(Payload1(t), Payload2(t), |data| - TRAILER))
    ensures data[|data| - TRAILER..] == tail
  {
    FirstPayloadRead(text, t, Prefix2(t) + (Payload2(t) + tail), data, pos, 2);
    SecondPayloadRead(text, t, tail, data, pos + 2 + |Payload1(t)|);
  }

  lemma ContractRead(text: Text, t: WireTx, tail: Bytes, data: Bytes, pos: nat)
    requires UnsignedError(text, t).None? && pos <= |data| && data[pos..] == Extension(t, tail) && |tail| == TRAILER
    requires t.kind == CONTRACT_DEPLOY || t.kind == CONTRACT_CALL
    ensures ParseExtension(data, pos, t.kind) == Parsed(ExtensionView(Payload1(t), Payload2(t), |data| - TRAILER))
    ensures data[|data| - TRAILER..] == tail
  {
    assert Prefix2(t) + (Payload2(t) + tail) == tail;
    FirstPayloadRead(text, t, tail, data, pos, if t.kind == CONTRACT_DEPLOY then 4 else 2);
  }

  lemma ExtensionRead(text: Text, t: WireTx, tail: Bytes, data: Bytes, pos: nat)
    requires UnsignedError(text, t).None? && pos <= |data| && data[pos..] == Extension(t, tail) && |tail| == TRAILER
    ensures ParseExtension(data, pos, t.kind) == Parsed(ExtensionView(Payload1(t), Payload2(t), |data| - TRAILER))
    ensures data[|data| - TRAILER..] == tail
  {
    if t.kind == EQUIV_EVIDENCE {
      EvidenceRead(text, t, tail, data, pos);
    } else if t.kind == CONTRACT_DEPLOY || t.kind == CONTRACT_CALL {
      ContractRead(text, t, tail, data, pos);
    } else {
      assert Extension(t, tail) == tail;
    }
  }

  lemma TrailerRead(t: WireTx, data: Bytes)
    requires |data| >= TRAILER && data[|data| - TRAILER..] == Trailer(t)
    ensures var p := |data| - TRAILER;
            && data[p..p + 32] == t.senderKey && data[p + 32..p + 64] == t.receiverKey
            && data[p + 64..p + 128] == t.senderSig && data[p + 128..] == t.receiverSig
  {
  }

  lemma EncodeSize(text: Text, t: WireTx)
    requires SerializeError(text, t).None?
    ensures MIN_TX_BYTES <= |Encode(text, t)| <= MAX_TX_BYTES
  {
  }

  lemma NormaliseSerialises(text: Text, t: WireTx)
    requires Lawful(text) && SerializeError(text, t).None?
    ensures SerializeError(text, Normalise(text, t)).None?
    ensures Encode(text, Normalise(text, t)) == Encode(text, t)
  {
    var n := Normalise(text, t);
    assert Extension(n, []) == Extension(t, []);
    assert Unsigned(text, n) == Unsigned(text, t);
    assert Extension(n, Trailer(n)) == Extension(t, Trailer(t));
  }

  lemma AssembleRead(text: Text, t: WireTx, data: Bytes, end: nat, last: nat)
    requires |data| >= TRAILER && data[|data| - TRAILER..] == Trailer(t) && 0 <= t.value
    ensures var l := LabelView(t.kind, text.nfc(t.sender), text.nfc(t.receiver), end);
            var n := NumberView(t.value, t.nonce, t.missedHeight, t.missedProposer, t.skipIndex);
            Assemble(data, l, n, ExtensionView(Payload1(t), Payload2(t), last)) == Normalise(text, t)
  {
    TrailerRead(t, data);
  }

  ghost predicate ReadsAs(text: Text, t: WireTx, data: Bytes, end: nat)
    requires 0 <= t.value
  {
    && MIN_TX_BYTES <= |data| <= MAX_TX_BYTES
    && ParseLabels(data) == Parsed(LabelView(t.kind, text.nfc(t.sender), text.nfc(t.receiver), end))
    && end + 84 <= |data|
    && ParseNumbers(data, end) == Parsed(NumberView(t.value, t.nonce, t.missedHeight, t.missedProposer, t.skipIndex))
    && ParseExtension(data, end + 84, t.kind) == Parsed(ExtensionView(Payload1(t), Payload2(t), |data| - TRAILER))
    && data[|data| - TRAILER..] == Trailer(t)
  }

  lemma RestRead(text: Text, t: WireTx, data: Bytes, end: nat)
    requires UnsignedError(text, t).None? && MIN_TX_BYTES <= |data| <= MAX_TX_BYTES && end <= |data|
    requires ParseLabels(data) == Parsed(LabelView(t.kind, text.nfc(t.sender), text.nfc(t.receiver), end))
    requires data[end..] == Numbers(t, Extension(t, Trailer(t)))
    ensures ReadsAs(text, t, data, end)
  {
    NumbersRead(t, Extension(t, Trailer(t)), data, end);
    ExtensionRead(text, t, Trailer(t), data, end + 84);
  }

  lemma PartsFrom(text: Text, t: WireTx, data: Bytes, end: nat)
    requires 0 <= t.value && ReadsAs(text, t, data, end)
    ensures ParseParts(data) == Parsed(Normalise(text, t))
  {
    AssembleRead(text, t, data, end, |data| - TRAILER);
  }

  lemma PartsRead(text: Text, t: WireTx)
    requires SerializeError(text, t).None?
    ensures ParseParts(Encode(text, t)) == Parsed(Normalise(text, t))
  {
    EncodeSize(text, t);
    LabelsRead(text, t, Numbers(t, Extension(t, Trailer(t))), Encode(text, t));
    var end := 11 + |text.nfc(t.sender)| + |text.nfc(t.receiver)|;
    RestRead(text, t, Encode(text, t), end);
    PartsFrom(text, t, Encode(text, t), end);
  }

  /** Decoding an encoding gives the transaction back, up to what the wire normalises. */
  lemma RoundTrip(text: Text, t: WireTx)
    requires Lawful(text) && SerializeError(text, t).None?
    ensures Parse(text, Encode(text, t)) == Parsed(Normalise(text, t))
  {
    PartsRead(text, t);
    NormaliseSerialises(text, t);
  }

  // ---------------------------------------------------------------- the source's cursor

  method ReadLabels(data: Bytes) returns (o: Outcome<LabelView, Code>)
    requires |data| >= MIN_TX_BYTES
    ensures o == ParseLabels(data)
  {
    var pos := 0;
    if data[pos..pos + 6] != TX_DOMAIN { return Failed(CanonicalEncodingDistortion); }
    pos := pos + 6;
    var kind := data[pos];
    pos := pos + 1;
    var senderLen := Num(data[pos..pos + 2]);
    pos := pos + 2;
    if pos + senderLen > |data| { return Failed(CanonicalEncodingDistortion); }
    var sender := data[pos..pos + senderLen];
    pos := pos + senderLen;
    if pos + 2 > |data| { return Panicked; }
    var receiverLen := Num(data[pos..pos + 2]);
    pos := pos + 2;
    if pos + receiverLen > |data| { return Failed(CanonicalEncodingDistortion); }
    var receiver := data[pos..pos + receiverLen];
    pos := pos + receiverLen;
    return Parsed(LabelView(kind, sender, receiver, pos));
  }

  method ReadNumbers(data: Bytes, start: nat) returns (o: Outcome<NumberView, Code>)
    ensures o == ParseNumbers(data, start)
  {
    var pos := start;
    if pos + 32 > |data| { return Failed(CanonicalEncodingDistortion); }
    var value := Num(data[pos..pos + 32]);
    pos := pos + 32;
    if pos + 8 > |data| { return Failed(CanonicalEncodingDistortion); }
    NumFits(data[pos..pos + 8], 8);
    var nonce := Num(data[pos..pos + 8]);
    pos := pos + 8;
    if pos + 8 > |data| { return Failed(CanonicalEncodingDistortion); }
    NumFits(data[pos..pos + 8], 8);
    var missedHeight := Num(data[pos..pos + 8]);
    pos := pos + 8;
    if pos + 32 > |data| { return Failed(CanonicalEncodingDistortion); }
    var missedProposer := data[pos..pos + 32];
    pos := pos + 32;
    if pos + 4 > |data| { return Failed(CanonicalEncodingDistortion); }
    NumFits(data[pos..pos + 4], 4);
    var skipIndex := Num(data[pos..pos + 4]);
    return Parsed(NumberView(value, nonce, missedHeight, missedProposer, skipIndex));
  }

  method ReadPayload(data: Bytes, start: nat, width: nat) returns (o: Outcome<Bytes, Code>)
    requires start <= |data|
    ensures o == ParsePayload(data[start..], width)
  {
    var pos := start;
    if pos + width > |data| - TRAILER { return Failed(CanonicalEncodingDistortion); }
    SliceOfDrop(data, start, 0, width);
    assert data[start..][..width] == data[start..][0..width];
    var n := Num(data[pos..pos + width]);
    pos := pos + width;
    if width == 4 && n > MAX_WASM { return Failed(BytecodeTooLarge); }
    if pos + n > |data| - TRAILER { return Failed(CanonicalEncodingDistortion); }
    SliceOfDrop(data, start, width, width + n);
    return Parsed(data[pos..pos + n]);
  }

  method ReadExtension(data: Bytes, start: nat, kind: byte) returns (o: Outcome<ExtensionView, Code>)
    requires start <= |data|
    ensures o == ParseExtension(data, start, kind)
  {
    if kind == CONTRACT_DEPLOY || kind == CONTRACT_CALL || kind == EQUIV_EVIDENCE {
      var width := if kind == CONTRACT_DEPLOY then 4 else 2;
      var first := ReadPayload(data, start, width);
      if first.Failed? { return Failed(first.code); }
      if first.Panicked? { return Panicked; }
      var pos := start + width + |first.value|;
      if kind != EQUIV_EVIDENCE { return Parsed(ExtensionView(first.value, [], pos)); }
      var second := ReadPayload(data, pos, 2);
      if second.Failed? { return Failed(second.code); }
      if second.Panicked? { return Panicked; }
      return Parsed(ExtensionView(first.value, second.value, pos + 2 + |second.value|));
    }
    return Parsed(ExtensionView([], [], start));
  }

  method ReadParts(data: Bytes) returns (o: Outcome<WireTx, Code>)
    ensures o == ParseParts(data)
  {
    if |data| > MAX_TX_BYTES { return Failed(DosSizeExceeded); }
    if |data| < MIN_TX_BYTES { return Failed(CanonicalEncodingDistortion); }
    var labels := ReadLabels(data);
    if labels.Failed? { return Failed(labels.code); }
    if labels.Panicked? { return Panicked; }
    var numbers := ReadNumbers(data, labels.value.end);
    if numbers.Failed? { return Failed(numbers.code); }
    if numbers.Panicked? { return Panicked; }
    var extension := ReadExtension(data, labels.value.end + 84, labels.value.kind);
    if extension.Failed? { return Failed(extension.code); }
    if extension.Panicked? { return Panicked; }
    if extension.value.end != |data| - TRAILER { return Failed(CanonicalEncodingDistortion); }
    return Parsed(Assemble(data, labels.value, numbers.value, extension.value));
  }

  method Deserialize(text: Text, data: Bytes) returns (o: Outcome<WireTx, Code>)
    ensures o == Parse(text, data)
  {
    var parsed := ReadParts(data);
    if !parsed.Parsed? { return parsed; }
    var canonical := Serialize(text, parsed.value);
    if canonical.Err? { return Failed(canonical.error); }
    if canonical.value != data { return Failed(CanonicalEncodingDistortion); }
    return parsed;
  }

  /** Whatever Deserialize accepts is the encoding of the transaction it returns. */
  lemma ParseIsCanonical(text: Text, data: Bytes)
    requires Parse(text, data).Parsed?
    ensures Encodes(text, Parse(text, data).value, data)
  {
  }

  /** The sender label fits but leaves fewer than two bytes for the receiver's length. */
  predicate CutShort(data: Bytes) {
    && MIN_TX_BYTES <= |data| <= MAX_TX_BYTES && data[..6] == TX_DOMAIN
    && 9 + Num(data[7..9]) <= |data| < 9 + Num(data[7..9]) + 2
  }

  /** Deserialize panics exactly on such bytes. */
  lemma PanicsExactly(text: Text, data: Bytes)
    ensures Parse(text, data).Panicked? <==> CutShort(data)
  {
  }

  /** The shortest: 287 bytes that announce a sender of 277. */
  lemma ShortestPanic(text: Text, kind: byte, rest: Bytes)
    requires |rest| == 278
    ensures var data := TX_DOMAIN + [kind] + BE(277, 2) + rest; |data| == MIN_TX_BYTES && Parse(text, data).Panicked?
  {
    var data := TX_DOMAIN + [kind] + BE(277, 2) + rest;
    PrefixRead(277, 2);
    assert data[..6] == TX_DOMAIN && data[7..9] == BE(277, 2);
    PanicsExactly(text, data);
  }
}

/** Transaction serialisation: core/tx/tx.go. */
module TxCodec {
  import opened Wrappers
  import opened Errors
  import opened Bytes
  import opened Messages
  import opened Layout
  import opened VoteCodec

  /** utf8.ValidString and norm.NFC.String. */
  datatype Text = Text(valid: Bytes -> bool, nfc: Bytes -> Bytes)

  /** Normalisation keeps validity and is idempotent. */
  ghost predicate Lawful(text: Text) {
    forall s :: text.valid(s) ==> text.valid(text.nfc(s)) && text.nfc(text.nfc(s)) == text.nfc(s)
  }

  const MAX_TX_BYTES: nat := 70000
  const MAX_WASM: nat := 0x10_0000
  const MIN_TX_BYTES: nat := 287
  const TRAILER: nat := 192

  /** "TX_V1\0" */
  const TX_DOMAIN: Bytes := [84, 88, 95, 86, 49, 0]

  /** The length prefix and payload that follow the fixed part, for the types that have them. */
  function Prefix1(t: WireTx): Bytes {
    if t.kind == CONTRACT_DEPLOY then BE(|t.wasm|, 4)
    else if t.kind == CONTRACT_CALL then BE(|t.callData|, 2)
    else if t.kind == EQUIV_EVIDENCE then BE(|t.evidenceA|, 2)
    else []
  }

  function Payload1(t: WireTx): Bytes {
    if t.kind == CONTRACT_DEPLOY then t.wasm
    else if t.kind == CONTRACT_CALL then t.callData
    else if t.kind == EQUIV_EVIDENCE then t.evidenceA
    else []
  }

  function Prefix2(t: WireTx): Bytes {
    if t.kind == EQUIV_EVIDENCE then BE(|t.evidenceB|, 2) else []
  }

  function Payload2(t: WireTx): Bytes {
    if t.kind == EQUIV_EVIDENCE then t.evidenceB else []
  }

  /** domain(6) type(1) length(2) sender length(2) receiver, then whatever follows. */
  function Labels(text: Text, t: WireTx, tail: Bytes): Bytes {
    var s, r := text.nfc(t.sender), text.nfc(t.receiver);
    TX_DOMAIN + ([t.kind] + (BE(|s|, 2) + (s + (BE(|r|, 2) + (r + tail)))))
  }

  /** value(32) nonce(8) missedHeight(8) missedProposer(32) skipIndex(4) */
  function Numbers(t: WireTx, tail: Bytes): Bytes
    requires 0 <= t.value
  {
    BE(t.value, 32) + (BE(t.nonce, 8) + (BE(t.missedHeight, 8) + (t.missedProposer + (BE(t.skipIndex, 4) + tail))))
  }

  function Extension(t: WireTx, tail: Bytes): Bytes {
    Prefix1(t) + (Payload1(t) + (Prefix2(t) + (Payload2(t) + tail)))
  }

  /** senderPubKey(32) receiverPubKey(32) senderSig(64) receiverSig(64) */
  function Trailer(t: WireTx): (b: Bytes)
    ensures |b| == TRAILER
  {
    t.senderKey + (t.receiverKey + (t.senderSig + t.receiverSig))
  }

  /** serializeUnsigned: what the signatures cover. */
  function Unsigned(text: Text, t: WireTx): Bytes
    requires 0 <= t.value
  {
    Labels(text, t, Numbers(t, Extension(t, [])))
  }

  function Encode(text: Text, t: WireTx): Bytes
    requires 0 <= t.value
  {
    Labels(text, t, Numbers(t, Extension(t, Trailer(t))))
  }

  function UnsignedError<K>(text: Text, t: Tx<K>): Option<Code> {
    if !text.valid(t.sender) || !text.valid(t.receiver) then Some(CanonicalEncodingDistortion)
    else if t.value < 0 || t.value >= U256 then Some(ArithmeticOverflow)
    else if |text.nfc(t.sender)| > 0xFFFF || |text.nfc(t.receiver)| > 0xFFFF then Some(CanonicalEncodingDistortion)
    else if t.kind == CONTRACT_DEPLOY && |t.wasm| > MAX_WASM then Some(BytecodeTooLarge)
    else if t.kind == CONTRACT_CALL && |t.callData| > 0xFFFF then Some(DosSizeExceeded)
    else if t.kind == EQUIV_EVIDENCE && (|t.evidenceA| > 0xFFFF || |t.evidenceB| > 0xFFFF) then Some(DosSizeExceeded)
    else None
  }

  function SerializeError(text: Text, t: WireTx): Option<Code> {
    if UnsignedError(text, t).Some? then UnsignedError(text, t)
    else if |Unsigned(text, t)| + TRAILER > MAX_TX_BYTES then Some(DosSizeExceeded)
    else None
  }

  /** Serialize succeeds on t and yields data. */
  ghost predicate Encodes(text: Text, t: WireTx, data: Bytes) {
    SerializeError(text, t).None? && Encode(text, t) == data
  }

  /** What survives the wire: composed labels and only the payload the type carries. */
  function Normalise(text: Text, t: WireTx): WireTx {
    t.(sender := text.nfc(t.sender), receiver := text.nfc(t.receiver),
       wasm := if t.kind == CONTRACT_DEPLOY then t.wasm else [],
       initArgs := [],
       callData := if t.kind == CONTRACT_CALL then t.callData else [],
       evidenceA := if t.kind == EQUIV_EVIDENCE then t.evidenceA else [],
       evidenceB := if t.kind == EQUIV_EVIDENCE then t.evidenceB else [])
  }

  lemma EncodeIsUnsignedPlusTrailer(text: Text, t: WireTx)
    requires 0 <= t.value
    ensures Encode(text, t) == Unsigned(text, t) + Trailer(t)
  {
    LabelsAppend(text, t, Numbers(t, Extension(t, [])), Trailer(t));
    NumbersAppend(t, Extension(t, []), Trailer(t));
    ExtensionAppend(t, [], Trailer(t));
    assert [] + Trailer(t) == Trailer(t);
  }

  lemma LabelsAppend(text: Text, t: WireTx, x: Bytes, y: Bytes)
    ensures Labels(text, t, x) + y == Labels(text, t, x + y)
  {
  }

  lemma NumbersAppend(t: WireTx, x: Bytes, y: Bytes)
    requires 0 <= t.value
    ensures Numbers(t, x) + y == Numbers(t, x + y)
  {
  }

  lemma ExtensionAppend(t: WireTx, x: Bytes, y: Bytes)
    ensures Extension(t, x) + y == Extension(t, x + y)
  {
  }

  // ---------------------------------------------------------------- encodings are one to one

  lemma LabelsInjective(text: Text, t: WireTx, x: Bytes, u: WireTx, y: Bytes)
    requires |text.nfc(t.sender)| <= 0xFFFF && |text.nfc(t.receiver)| <= 0xFFFF
    requires |text.nfc(u.sender)| <= 0xFFFF && |text.nfc(u.receiver)| <= 0xFFFF
    requires Labels(text, t, x) == Labels(text, u, y)
    ensures t.kind == u.kind && text.nfc(t.sender) == text.nfc(u.sender) && text.nfc(t.receiver) == text.nfc(u.receiver)
    ensures x == y
  {
    var s, r, s', r' := text.nfc(t.sender), text.nfc(t.receiver), text.nfc(u.sender), text.nfc(u.receiver);
    Widths();
    var a1, b1 := [t.kind] + (BE(|s|, 2) + (s + (BE(|r|, 2) + (r + x)))), [u.kind] + (BE(|s'|, 2) + (s' + (BE(|r'|, 2) + (r' + y))));
    Cancel(TX_DOMAIN, a1, TX_DOMAIN, b1);
    Cancel([t.kind], BE(|s|, 2) + (s + (BE(|r|, 2) + (r + x))), [u.kind], BE(|s'|, 2) + (s' + (BE(|r'|, 2) + (r' + y))));
    assert [t.kind][0] == [u.kind][0];
    Cancel(BE(|s|, 2), s + (BE(|r|, 2) + (r + x)), BE(|s'|, 2), s' + (BE(|r'|, 2) + (r' + y)));
    BEInjective(|s|, |s'|, 2);
    Cancel(s, BE(|r|, 2) + (r + x), s', BE(|r'|, 2) + (r' + y));
    Cancel(BE(|r|, 2), r + x, BE(|r'|, 2), r' + y);
    BEInjective(|r|, |r'|, 2);
    Cancel(r, x, r', y);
  }

  lemma NumbersInjective(t: WireTx, x: Bytes, u: WireTx, y: Bytes)
    requires 0 <= t.value < U256 && 0 <= u.value < U256
    requires Numbers(t, x) == Numbers(u, y)
    ensures t.value == u.value && t.nonce == u.nonce && t.missedHeight == u.missedHeight
    ensures t.missedProposer == u.missedProposer && t.skipIndex == u.skipIndex && x == y
  {
    Widths();
    Width256();
    var a4, b4 := BE(t.skipIndex, 4) + x, BE(u.skipIndex, 4) + y;
    var a3, b3 := t.missedProposer + a4, u.missedProposer + b4;
    var a2, b2 := BE(t.missedHeight, 8) + a3, BE(u.missedHeight, 8) + b3;
    var a1, b1 := BE(t.nonce, 8) + a2, BE(u.nonce, 8) + b2;
    Cancel(BE(t.value, 32), a1, BE(u.value, 32), b1);
    Cancel(BE(t.nonce, 8), a2, BE(u.nonce, 8), b2);
    Cancel(BE(t.missedHeight, 8), a3, BE(u.missedHeight, 8), b3);
    Cancel(t.missedProposer, a4, u.missedProposer, b4);
    Cancel(BE(t.skipIndex, 4), x, BE(u.skipIndex, 4), y);
    BEInjective(t.value, u.value, 32);
    BEInjective(t.nonce, u.nonce, 8);
    BEInjective(t.missedHeight, u.missedHeight, 8);
    BEInjective(t.skipIndex, u.skipIndex, 4);
  }

  /** A length prefix determines the length of the payload behind it. */
  lemma Prefix1Injective(t: WireTx, u: WireTx)
    requires t.kind == u.kind && Prefix1(t) == Prefix1(u)
    requires |Payload1(t)| <= (if t.kind == CONTRACT_DEPLOY then MAX_WASM else 0xFFFF)
    requires |Payload1(u)| <= (if t.kind == CONTRACT_DEPLOY then MAX_WASM else 0xFFFF)
    ensures |Payload1(t)| == |Payload1(u)|
  {
    Widths();
    if t.kind == CONTRACT_DEPLOY {
      BEInjective(|t.wasm|, |u.wasm|, 4);
    } else if t.kind == CONTRACT_CALL || t.kind == EQUIV_EVIDENCE {
      BEInjective(|Payload1(t)|, |Payload1(u)|, 2);
    }
  }

  lemma ExtensionInjective(text: Text, t: WireTx, x: Bytes, u: WireTx, y: Bytes)
    requires UnsignedError(text, t).None? && UnsignedError(text, u).None? && t.kind == u.kind
    requires Extension(t, x) == Extension(u, y)
    ensures Payload1(t) == Payload1(u) && Payload2(t) == Payload2(u) && x == y
  {
    Widths();
    var a3, b3 := Payload2(t) + x, Payload2(u) + y;
    var a2, b2 := Prefix2(t) + a3, Prefix2(u) + b3;
    Cancel(Prefix1(t), Payload1(t) + a2, Prefix1(u), Payload1(u) + b2);
    Prefix1Injective(t, u);
    Cancel(Payload1(t), a2, Payload1(u), b2);
    Cancel(Prefix2(t), a3, Prefix2(u), b3);
    if t.kind == EQUIV_EVIDENCE { BEInjective(|t.evidenceB|, |u.evidenceB|, 2); }
    Cancel(Payload2(t), x, Payload2(u), y);
  }

  /** The same signed content; the keys and signatures beside it may differ. */
  ghost predicate SameContent(text: Text, t: WireTx, u: WireTx) {
    Normalise(text, t) == Normalise(text, u).(
      senderKey := t.senderKey, receiverKey := t.receiverKey, senderSig := t.senderSig, receiverSig := t.receiverSig)
  }

  /** The unsigned part of a transaction that serialises determines everything it covers. */
  lemma UnsignedInjective(text: Text, t: WireTx, u: WireTx)
    requires UnsignedError(text, t).None? && UnsignedError(text, u).None?
    requires Unsigned(text, t) == Unsigned(text, u)
    ensures SameContent(text, t, u)
  {
    LabelsInjective(text, t, Numbers(t, Extension(t, [])), u, Numbers(u, Extension(u, [])));
    NumbersInjective(t, Extension(t, []), u, Extension(u, []));
    ExtensionInjective(text, t, [], u, []);
  }

  /** Transactions with equal encodings agree up to what the wire drops. */
  lemma EncodeInjective(text: Text, t: WireTx, u: WireTx)
    requires SerializeError(text, t).None? && SerializeError(text, u).None?
    requires Encode(text, t) == Encode(text, u)
    ensures Normalise(text, t) == Normalise(text, u)
  {
    LabelsInjective(text, t, Numbers(t, Extension(t, Trailer(t))), u, Numbers(u, Extension(u, Trailer(u))));
    NumbersInjective(t, Extension(t, Trailer(t)), u, Extension(u, Trailer(u)));
    ExtensionInjective(text, t, Trailer(t), u, Trailer(u));
    Cancel(t.senderKey, t.receiverKey + (t.senderSig + t.receiverSig), u.senderKey, u.receiverKey + (u.senderSig + u.receiverSig));
    Cancel(t.receiverKey, t.senderSig + t.receiverSig, u.receiverKey, u.senderSig + u.receiverSig);
    Cancel(t.senderSig, t.receiverSig, u.senderSig, u.receiverSig);
  }

  // ---------------------------------------------------------------- signing bytes

  /** "FRG_CHAIN_V1\0" */
  const CHAIN_DOMAIN: Bytes := [70, 82, 71, 95, 67, 72, 65, 73, 78, 95, 86, 49, 0]

  /** chainDomainBytes: what is hashed and signed for a chain. */
  function ChainBytes(chain: Bytes, payload: Bytes): Bytes {
    CHAIN_DOMAIN + (BE(|ChainId(chain)| % U16, 2) + (ChainId(chain) + payload))
  }

  lemma ChainBytesInjective(c: Bytes, x: Bytes, d: Bytes, y: Bytes)
    requires |ChainId(c)| < U16 && |ChainId(d)| < U16 && ChainBytes(c, x) == ChainBytes(d, y)
    ensures ChainId(c) == ChainId(d) && x == y
  {
    var c', d' := ChainId(c), ChainId(d);
    Widths();
    Cancel(CHAIN_DOMAIN, BE(|c'| % U16, 2) + (c' + x), CHAIN_DOMAIN, BE(|d'| % U16, 2) + (d' + y));
    Cancel(BE(|c'| % U16, 2), c' + x, BE(|d'| % U16, 2), d' + y);
    BEInjective(|c'|, |d'|, 2);
    Cancel(c', x, d', y);
  }

  /**
   * Chain-bound signing bytes are one to one in the chain identity and the signed content,
   * for chain identities whose length fits the 16-bit prefix.
   */
  lemma SigningBytesInjective(text: Text, c: Bytes, t: WireTx, d: Bytes, u: WireTx)
    requires |ChainId(c)| < U16 && |ChainId(d)| < U16
    requires UnsignedError(text, t).None? && UnsignedError(text, u).None?
    requires ChainBytes(c, Unsigned(text, t)) == ChainBytes(d, Unsigned(text, u))
    ensures ChainId(c) == ChainId(d)
    ensures SameContent(text, t, u)
  {
    ChainBytesInjective(c, Unsigned(text, t), d, Unsigned(text, u));
    UnsignedInjective(text, t, u);
  }

  // ---------------------------------------------------------------- writing

  method SerializeUnsigned(text: Text, t: WireTx) returns (r: Result<Bytes, Code>)
    ensures r == match UnsignedError(text, t) case Some(e) => Err(e) case None => Ok(Unsigned(text, t))
  {
    if !text.valid(t.sender) || !text.valid(t.receiver) { return Err(CanonicalEncodingDistortion); }
    var s, v := text.nfc(t.sender), text.nfc(t.receiver);
    if t.value < 0 || t.value >= U256 { return Err(ArithmeticOverflow); }
    if |s| > 0xFFFF || |v| > 0xFFFF { return Err(CanonicalEncodingDistortion); }
    var buf := new byte[95 + |s| + |v|];
    ghost var whole, numbers := Labels(text, t, Numbers(t, [])), Numbers(t, []);
    var pos := WriteLabels(text, t, buf, s, v, numbers, whole);
    pos := WriteNumbers(t, buf, pos, whole);
    assert buf[..] == buf[..pos] + [];
    r := WriteExtension(t, buf[..]);
    if r.Ok? {
      LabelsAppend(text, t, Numbers(t, []), Extension(t, []));
      NumbersAppend(t, [], Extension(t, []));
      assert [] + Extension(t, []) == Extension(t, []);
    }
  }

  method WriteLabels(text: Text, t: WireTx, buf: array<byte>, s: Bytes, v: Bytes, ghost rest: Bytes, ghost whole: Bytes)
    returns (pos: nat)
    requires s == text.nfc(t.sender) && v == text.nfc(t.receiver) && buf.Length == 95 + |s| + |v|
    requires Labels(text, t, rest) == whole
    modifies buf
    ensures pos == 11 + |s| + |v| && buf[..pos] + rest == whole
  {
    assert buf[..0] == [];
    assert [] + whole == whole;
    pos := Put(buf, 0, TX_DOMAIN, [t.kind] + (BE(|s|, 2) + (s + (BE(|v|, 2) + (v + rest)))), whole);
    pos := Put(buf, pos, [t.kind], BE(|s|, 2) + (s + (BE(|v|, 2) + (v + rest))), whole);
    pos := Put(buf, pos, BE(|s|, 2), s + (BE(|v|, 2) + (v + rest)), whole);
    pos := Put(buf, pos, s, BE(|v|, 2) + (v + rest), whole);
    pos := Put(buf, pos, BE(|v|, 2), v + rest, whole);
    pos := Put(buf, pos, v, rest, whole);
  }

  method WriteNumbers(t: WireTx, buf: array<byte>, from: nat, ghost whole: Bytes) returns (pos: nat)
    requires 0 <= t.value && buf.Length == from + 84
    requires buf[..from] + Numbers(t, []) == whole
    modifies buf
    ensures pos == buf.Length && buf[..pos] + [] == whole
  {
    pos := Put(buf, from, BE(t.value, 32),
               BE(t.nonce, 8) + (BE(t.missedHeight, 8) + (t.missedProposer + (BE(t.skipIndex, 4) + []))), whole);
    pos := Put(buf, pos, BE(t.nonce, 8), BE(t.missedHeight, 8) + (t.missedProposer + (BE(t.skipIndex, 4) + [])), whole);
    pos := Put(buf, pos, BE(t.missedHeight, 8), t.missedProposer + (BE(t.skipIndex, 4) + []), whole);
    pos := Put(buf, pos, t.missedProposer, BE(t.skipIndex, 4) + [], whole);
    pos := Put(buf, pos, BE(t.skipIndex, 4), [], whole);
  }

  /** The switch on the type: append a length-prefixed payload or two, or nothing. */
  method WriteExtension(t: WireTx, buf: Bytes) returns (r: Result<Bytes, Code>)
    ensures t.kind == CONTRACT_DEPLOY && |t.wasm| > MAX_WASM ==> r == Err(BytecodeTooLarge)
    ensures t.kind == CONTRACT_CALL && |t.callData| > 0xFFFF ==> r == Err(DosSizeExceeded)
    ensures t.kind == EQUIV_EVIDENCE && (|t.evidenceA| > 0xFFFF || |t.evidenceB| > 0xFFFF) ==> r == Err(DosSizeExceeded)
    ensures r.Err? || r == Ok(buf + Extension(t, []))
    ensures r.Err? ==> || (t.kind == CONTRACT_DEPLOY && |t.wasm| > MAX_WASM)
                       || (t.kind == CONTRACT_CALL && |t.callData| > 0xFFFF)
                       || (t.kind == EQUIV_EVIDENCE && (|t.evidenceA| > 0xFFFF || |t.evidenceB| > 0xFFFF))
  {
    if t.kind == CONTRACT_DEPLOY {
      if |t.wasm| > MAX_WASM { return Err(BytecodeTooLarge); }
      assert Extension(t, []) == BE(|t.wasm|, 4) + t.wasm;
      return Ok(buf + (BE(|t.wasm|, 4) + t.wasm));
    } else if t.kind == CONTRACT_CALL {
      if |t.callData| > 0xFFFF { return Err(DosSizeExceeded); }
      assert Extension(t, []) == BE(|t.callData|, 2) + t.callData;
      return Ok(buf + (BE(|t.callData|, 2) + t.callData));
    } else if t.kind == EQUIV_EVIDENCE {
      if |t.evidenceA| > 0xFFFF || |t.evidenceB| > 0xFFFF { return Err(DosSizeExceeded); }
      assert t.evidenceB + [] == t.evidenceB;
      return Ok(buf + (BE(|t.evidenceA|, 2) + (t.evidenceA + (BE(|t.evidenceB|, 2) + t.evidenceB))));
    }
    assert buf + Extension(t, []) == buf;
    return Ok(buf);
  }

  method Serialize(text: Text, t: WireTx) returns (r: Result<Bytes, Code>)
    ensures r == match SerializeError(text, t) case Some(e) => Err(e) case None => Ok(Encode(text, t))
  {
    var unsigned := SerializeUnsigned(text, t);
    if unsigned.Err? { return unsigned; }
    if |unsigned.value| + TRAILER > MAX_TX_BYTES { return Err(DosSizeExceeded); }
    EncodeIsUnsignedPlusTrailer(text, t);
    return Ok(unsigned.value + Trailer(t));
  }
}

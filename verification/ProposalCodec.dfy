/** Proposals: serializeProposalBody, SerializeProposal, DeserializeProposal of core/consensus/vote.go. */
module ProposalCodec {
  import opened Wrappers
  import opened Errors
  import opened Bytes
  import opened Messages
  import opened VoteCodec
  import opened VoteLists

  const MAX_VOTES: nat := 4096
  const MAX_TXS: nat := 65536
  const HEADER: nat := 124

  /** The batch codec, as proposals and blocks use it. BatchWire gives the instance. */
  datatype BatchCoder = BatchCoder(
    error: seq<WireTx> -> Option<Code>,
    encode: seq<WireTx> -> Bytes,
    parse: Bytes -> Outcome<seq<WireTx>, Code>,
    normal: seq<WireTx> -> seq<WireTx>)

  const MAX_BATCH_BYTES: nat := 33_554_432

  /** A batch that serialises is read back in normal form below 65536 transactions, and refused at that number. */
  ghost predicate ReadsBack(b: BatchCoder, txs: seq<WireTx>) {
    b.error(txs).None? ==>
      && txs != [] && |txs| <= MAX_TXS && 0 < |b.encode(txs)| <= MAX_BATCH_BYTES && |b.normal(txs)| == |txs|
      && b.parse(b.encode(txs))
         == if |txs| < MAX_TXS then Parsed(b.normal(txs)) else Failed(CanonicalEncodingDistortion)
  }

  /** What BatchWire proves of the batch codec. */
  ghost predicate BatchLaw(b: BatchCoder) {
    && (forall txs :: ReadsBack(b, txs))
    && (forall txs, us :: b.error(txs).None? && b.error(us).None? && |txs| == |us| && b.encode(txs) == b.encode(us)
                          ==> b.normal(txs) == b.normal(us))
  }

  /** height(8) round(4) proposer(32) prevRoot(32) and the attestation's height(8) round(4) hash(32) count(4) */
  function Header(p: Proposal, tail: Bytes): Bytes {
    var a := p.prevAttestation;
    BE(p.height, 8) + (BE(p.round, 4) + (p.proposer + (p.prevRoot
    + (BE(a.height, 8) + (BE(a.round, 4) + (a.block + (BE(|a.votes|, 4) + tail)))))))
  }

  function TxPart(b: BatchCoder, txs: seq<WireTx>): Bytes {
    BE(|txs|, 4) + if txs == [] then [] else b.encode(txs)
  }

  function Body(b: BatchCoder, p: Proposal): Bytes {
    Header(p, EncodeVotes(p.prevAttestation.votes) + TxPart(b, p.txs))
  }

  function EncodeProposal(b: BatchCoder, p: Proposal): Bytes {
    p.sig + Body(b, p)
  }

  function BodyError(b: BatchCoder, p: Proposal): Option<Code> {
    if |p.prevAttestation.votes| > MAX_VOTES then Some(Malformed)
    else if |p.txs| > MAX_TXS then Some(Malformed)
    else if p.txs != [] then b.error(p.txs)
    else None
  }

  /** A growing buffer, field after field. */
  method SerializeBody(b: BatchCoder, p: Proposal) returns (r: Result<Bytes, Code>)
    ensures r == match BodyError(b, p) case Some(e) => Err(e) case None => Ok(Body(b, p))
  {
    var a := p.prevAttestation;
    if |a.votes| > MAX_VOTES { return Err(Malformed); }
    if |p.txs| > MAX_TXS { return Err(Malformed); }
    var buf := BE(p.height, 8);
    buf := buf + BE(p.round, 4);
    buf := buf + p.proposer;
    buf := buf + p.prevRoot;
    buf := buf + BE(a.height, 8);
    buf := buf + BE(a.round, 4);
    buf := buf + a.block;
    buf := buf + BE(|a.votes|, 4);
    var votes := WriteVoteLoop(a.votes);
    var tail := votes + BE(|p.txs|, 4);
    HeaderGrows(p, tail);
    buf := buf + tail;
    if |p.txs| > 0 {
      if b.error(p.txs).Some? { return Err(b.error(p.txs).value); }
      HeaderAppend(p, tail, b.encode(p.txs));
      buf := buf + b.encode(p.txs);
      assert tail + b.encode(p.txs) == votes + TxPart(b, p.txs);
    } else {
      assert tail == votes + TxPart(b, p.txs);
    }
    return Ok(buf);
  }

  lemma HeaderGrows(p: Proposal, tail: Bytes)
    ensures var a := p.prevAttestation;
            BE(p.height, 8) + BE(p.round, 4) + p.proposer + p.prevRoot + BE(a.height, 8) + BE(a.round, 4) + a.block
            + BE(|a.votes|, 4) + tail == Header(p, tail)
  {
  }

  lemma HeaderAppend(p: Proposal, x: Bytes, y: Bytes)
    ensures Header(p, x) + y == Header(p, x + y)
  {
  }

  method SerializeProposal(b: BatchCoder, p: Proposal) returns (r: Result<Bytes, Code>)
    ensures r == match BodyError(b, p) case Some(e) => Err(e) case None => Ok(EncodeProposal(b, p))
  {
    var body := SerializeBody(b, p);
    if body.Err? { return body; }
    return Ok(p.sig + body.value);
  }

  // ---------------------------------------------------------------- reading

  /** The fixed part of a body, with no votes and no transactions yet, and the announced vote count. */
  function ParseHeader(body: Bytes, sig: Bytes64): Proposal
    requires |body| >= HEADER
  {
    NumFits(body[0..8], 8);
    NumFits(body[8..12], 4);
    NumFits(body[76..84], 8);
    NumFits(body[84..88], 4);
    Proposal(Num(body[0..8]), Num(body[8..12]), body[12..44], body[44..76], [],
             Attestation(Num(body[76..84]), Num(body[84..88]), body[88..120], []), sig)
  }

  function ParseTxPart(b: BatchCoder, d: Bytes): Outcome<seq<WireTx>, Code> {
    if |d| < 4 then Failed(Malformed)
    else
      var k := Num(d[..4]);
      if k > MAX_TXS then Failed(Malformed)
      else if k == 0 then if |d| != 4 then Failed(Malformed) else Parsed([])
      else if |d| == 4 then Failed(Malformed)
      else
        match b.parse(d[4..])
        case Failed(c) => Failed(c)
        case Panicked => Panicked
        case Parsed(txs) => if |txs| != k then Failed(Malformed) else Parsed(txs)
  }

  function ParseRest(b: BatchCoder, p: Proposal, n: nat, d: Bytes): Outcome<Proposal, Code> {
    if n > MAX_VOTES || n > |d| / VOTE_SIZE then Failed(Malformed)
    else
      WithRest(p, ReadVotes(d, n), ParseTxPart(b, d[VOTE_SIZE * n..]))
  }

  function WithRest(p: Proposal, votes: seq<Vote>, part: Outcome<seq<WireTx>, Code>): Outcome<Proposal, Code> {
    match part
    case Failed(c) => Failed(c)
    case Panicked => Panicked
    case Parsed(txs) => Parsed(p.(txs := txs, prevAttestation := p.prevAttestation.(votes := votes)))
  }

  function ParseProposal(b: BatchCoder, data: Bytes): Outcome<Proposal, Code> {
    if |data| < 64 + HEADER then Failed(Malformed)
    else
      var body := data[64..];
      ParseRest(b, ParseHeader(body, data[..64]), Num(body[120..124]), body[HEADER..])
  }

  method ReadTxPart(b: BatchCoder, d: Bytes) returns (o: Outcome<seq<WireTx>, Code>)
    ensures o == ParseTxPart(b, d)
  {
    if 4 > |d| { return Failed(Malformed); }
    var k := Num(d[..4]);
    if k > MAX_TXS { return Failed(Malformed); }
    if k == 0 {
      if |d| != 4 { return Failed(Malformed); }
      return Parsed([]);
    }
    if 4 >= |d| { return Failed(Malformed); }
    var txs := b.parse(d[4..]);
    if txs.Failed? { return Failed(txs.code); }
    if txs.Panicked? { return Panicked; }
    if |txs.value| != k { return Failed(Malformed); }
    return txs;
  }

  method DeserializeProposal(b: BatchCoder, data: Bytes) returns (o: Outcome<Proposal, Code>)
    ensures o == ParseProposal(b, data)
  {
    if |data| < 64 + HEADER { return Failed(Malformed); }
    var body := data[64..];
    var p := ParseHeader(body, data[..64]);
    var n := Num(body[120..124]);
    var off := HEADER;
    if n > MAX_VOTES || n > (|body| - off) / VOTE_SIZE { return Failed(Malformed); }
    var votes := ReadVoteLoop(body, off, n);
    off := off + VOTE_SIZE * n;
    assert body[HEADER..][VOTE_SIZE * n..] == body[off..];
    var txs := ReadTxPart(b, body[off..]);
    if txs.Failed? { return Failed(txs.code); }
    if txs.Panicked? { return Panicked; }
    return Parsed(p.(txs := txs.value, prevAttestation := p.prevAttestation.(votes := votes)));
  }

  lemma HeaderRead(p: Proposal, tail: Bytes, sig: Bytes64)
    requires |p.prevAttestation.votes| <= MAX_VOTES
    ensures var body := Header(p, tail);
            && |body| == HEADER + |tail| && body[HEADER..] == tail
            && ParseHeader(body, sig)
               == p.(txs := [], prevAttestation := p.prevAttestation.(votes := []), sig := sig)
            && Num(body[120..124]) == |p.prevAttestation.votes|
  {
    var a := p.prevAttestation;
    Widths();
    var t7 := BE(|a.votes|, 4) + tail;
    var t6 := a.block + t7;
    var t5 := BE(a.round, 4) + t6;
    var t4 := BE(a.height, 8) + t5;
    var t3 := p.prevRoot + t4;
    var t2 := p.proposer + t3;
    var t1 := BE(p.round, 4) + t2;
    var body := BE(p.height, 8) + t1;
    assert body[0..] == body;
    Read(body, 0, BE(p.height, 8), t1);
    Read(body, 8, BE(p.round, 4), t2);
    Read(body, 12, p.proposer, t3);
    Read(body, 44, p.prevRoot, t4);
    Read(body, 76, BE(a.height, 8), t5);
    Read(body, 84, BE(a.round, 4), t6);
    Read(body, 88, a.block, t7);
    Read(body, 120, BE(|a.votes|, 4), tail);
    NumOfBE(p.height, 8);
    NumOfBE(p.round, 4);
    NumOfBE(a.height, 8);
    NumOfBE(a.round, 4);
    NumOfBE(|a.votes|, 4);
  }

  /** Transactions the batch codec neither changes nor refuses, or none at all. */
  ghost predicate Clean(b: BatchCoder, txs: seq<WireTx>) {
    txs == [] || (b.error(txs).None? && b.normal(txs) == txs)
  }

  /** The transactions as the wire gives them back. */
  function Normal(b: BatchCoder, txs: seq<WireTx>): seq<WireTx> {
    if txs == [] then [] else b.normal(txs)
  }

  lemma TxPartRead(b: BatchCoder, txs: seq<WireTx>)
    requires BatchLaw(b) && (txs == [] || b.error(txs).None?)
    ensures ParseTxPart(b, TxPart(b, txs))
         == if |txs| < MAX_TXS then Parsed(Normal(b, txs)) else Failed(CanonicalEncodingDistortion)
    ensures |TxPart(b, txs)| <= 4 + MAX_BATCH_BYTES
  {
    var d := TxPart(b, txs);
    assert ReadsBack(b, txs);
    Widths();
    NumOfBE(|txs|, 4);
    assert d[..4] == BE(|txs|, 4);
    if txs != [] { assert d[4..] == b.encode(txs); }
  }

  lemma CountFits(n: nat, size: nat)
    requires VOTE_SIZE * n <= size
    ensures n <= size / VOTE_SIZE
  {
  }

  lemma RestIs(b: BatchCoder, p: Proposal, votes: seq<Vote>, part: Bytes)
    requires |votes| <= MAX_VOTES
    ensures ParseRest(b, p, |votes|, EncodeVotes(votes) + part) == WithRest(p, votes, ParseTxPart(b, part))
  {
    VotesRoundTrip(votes, part);
    CountFits(|votes|, |EncodeVotes(votes) + part|);
  }

  /** A proposal that serialises comes back with its transactions in normal form, or is refused at the full 65536. */
  lemma ProposalReload(b: BatchCoder, p: Proposal)
    requires BatchLaw(b) && BodyError(b, p).None?
    ensures ParseProposal(b, EncodeProposal(b, p))
         == if |p.txs| < MAX_TXS then Parsed(p.(txs := Normal(b, p.txs))) else Failed(CanonicalEncodingDistortion)
    ensures 0 < |EncodeProposal(b, p)| < U32
  {
    var votes := p.prevAttestation.votes;
    var tail := EncodeVotes(votes) + TxPart(b, p.txs);
    HeaderRead(p, tail, p.sig);
    var data := EncodeProposal(b, p);
    assert data[..64] == p.sig && data[64..] == Body(b, p);
    RestIs(b, p.(txs := [], prevAttestation := p.prevAttestation.(votes := [])), votes, TxPart(b, p.txs));
    TxPartRead(b, p.txs);
  }

  /** A proposal of clean transactions is read back exactly when it is below the full 65536. */
  lemma ProposalRoundTrip(b: BatchCoder, p: Proposal)
    requires BatchLaw(b) && Clean(b, p.txs) && BodyError(b, p).None?
    ensures ParseProposal(b, EncodeProposal(b, p)) == Parsed(p) <==> |p.txs| < MAX_TXS
  {
    ProposalReload(b, p);
  }

  /** The same proposal but for the signature and what the wire normalises. */
  ghost predicate SameBody(b: BatchCoder, p: Proposal, q: Proposal) {
    p.(txs := Normal(b, p.txs), sig := q.sig) == q.(txs := Normal(b, q.txs))
  }

  lemma TxPartInjective(b: BatchCoder, txs: seq<WireTx>, us: seq<WireTx>)
    requires BatchLaw(b) && (txs == [] || b.error(txs).None?) && (us == [] || b.error(us).None?)
    requires |txs| <= MAX_TXS && |us| <= MAX_TXS && TxPart(b, txs) == TxPart(b, us)
    ensures Normal(b, txs) == Normal(b, us)
  {
    Cancel(BE(|txs|, 4), if txs == [] then [] else b.encode(txs), BE(|us|, 4), if us == [] then [] else b.encode(us));
    Widths();
    BEInjective(|txs|, |us|, 4);
  }

  /** Proposal bodies are one to one up to what the wire normalises. */
  lemma BodyInjective(b: BatchCoder, p: Proposal, q: Proposal)
    requires BatchLaw(b) && BodyError(b, p).None? && BodyError(b, q).None? && Body(b, p) == Body(b, q)
    ensures SameBody(b, p, q)
  {
    var v, w := p.prevAttestation.votes, q.prevAttestation.votes;
    HeaderRead(p, EncodeVotes(v) + TxPart(b, p.txs), q.sig);
    HeaderRead(q, EncodeVotes(w) + TxPart(b, q.txs), q.sig);
    VotesRoundTrip(v, TxPart(b, p.txs));
    VotesRoundTrip(w, TxPart(b, q.txs));
    TxPartInjective(b, p.txs, q.txs);
    HeadersAgree(b, p, q);
  }

  lemma HeadersAgree(b: BatchCoder, p: Proposal, q: Proposal)
    requires p.(txs := [], prevAttestation := p.prevAttestation.(votes := []), sig := q.sig)
          == q.(txs := [], prevAttestation := q.prevAttestation.(votes := []))
    requires p.prevAttestation.votes == q.prevAttestation.votes && Normal(b, p.txs) == Normal(b, q.txs)
    ensures SameBody(b, p, q)
  {
  }

  // ---------------------------------------------------------------- signed bytes

  /** The first twelve bytes of "FRG_PROPOSAL_V1\0": the prefix buffer cuts the domain short. */
  const PROPOSAL_DOMAIN: Bytes := [70, 82, 71, 95, 80, 82, 79, 80, 79, 83, 65, 76]

  /** ProposalSignBytesForChain drops the serialisation error and then signs the prefix alone. */
  function ProposalSignBytes(b: BatchCoder, p: Proposal, chain: Bytes): Bytes {
    var c := ChainId(chain);
    PROPOSAL_DOMAIN + (BE(|c| % U16, 2) + (c + if BodyError(b, p).None? then Body(b, p) else []))
  }

  /** On one chain, equal signing bytes of proposals that serialise mean equal bodies. */
  lemma ProposalSignBytesInjective(b: BatchCoder, p: Proposal, q: Proposal, chain: Bytes)
    requires BatchLaw(b) && BodyError(b, p).None? && BodyError(b, q).None?
    requires ProposalSignBytes(b, p, chain) == ProposalSignBytes(b, q, chain)
    ensures SameBody(b, p, q)
  {
    var c := ChainId(chain);
    Cancel(PROPOSAL_DOMAIN, BE(|c| % U16, 2) + (c + Body(b, p)), PROPOSAL_DOMAIN, BE(|c| % U16, 2) + (c + Body(b, q)));
    Cancel(BE(|c| % U16, 2), c + Body(b, p), BE(|c| % U16, 2), c + Body(b, q));
    Cancel(c, Body(b, p), c, Body(b, q));
    BodyInjective(b, p, q);
  }
}

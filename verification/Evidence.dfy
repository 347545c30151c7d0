/**
 * Equivocation evidence (core/statemachine/statemachine.go) against what honest validators sign:
 * exactly when can a validator that votes only through the engine be convicted.
 */
module Evidence {
  import opened Wrappers
  import opened Errors
  import opened Bytes
  import opened Messages
  import opened Layout
  import opened VoteCodec
  import opened Quorum
  import opened Protocol
  import opened Agreement
  import opened Equivocation
  import P = ProposalCodec

  /** keys.Verify */
  type Verifier = (Key, Bytes, Bytes64) -> bool

  /** deserializeEvidenceVote */
  function EvidenceVote(data: Bytes): Option<Vote> {
    if |data| != VOTE_SIZE then None else Some(ParseVote(data))
  }

  predicate VerifyEvidenceVote(v: Vote, chain: Bytes, verify: Verifier) {
    && (v.ballot.kind == PREVOTE || v.ballot.kind == PRECOMMIT)
    && verify(v.ballot.voter, VoteSignBytes(v.ballot, chain), v.sig)
  }

  /** verifyEvidenceVote fills its own buffer; it holds exactly the bytes a vote signature covers. */
  method EvidenceBytes(v: Vote, chain: Bytes) returns (message: Bytes)
    ensures message == VoteSignBytes(v.ballot, chain)
  {
    var c, b := ChainId(chain), v.ballot;
    ghost var whole := VoteSignBytes(b, chain);
    ghost var t3 := BE(b.height, 8) + (BE(b.round, 4) + b.block);
    ghost var t1 := c + ([b.kind] + t3);
    var buf := new byte[59 + |c|];
    assert buf[..0] == [] && [] + whole == whole;
    var pos := Put(buf, 0, VOTE_DOMAIN, BE(|c| % U16, 2) + t1, whole);
    pos := Put(buf, pos, BE(|c| % U16, 2), t1, whole);
    pos := Put(buf, pos, c, [b.kind] + t3, whole);
    pos := Put(buf, pos, [b.kind], t3, whole);
    pos := Put(buf, pos, BE(b.height, 8), BE(b.round, 4) + b.block, whole);
    pos := Put(buf, pos, BE(b.round, 4), b.block, whole);
    assert b.block == b.block + [];
    pos := Put(buf, pos, b.block, [], whole);
    assert buf[..] == buf[..pos] + [];
    message := buf[..];
  }

  predicate SameSlot(a: Ballot, b: Ballot) {
    a.kind == b.kind && a.height == b.height && a.round == b.round
  }

  predicate HasStrayFields(t: WireTx) {
    || t.missedHeight != 0 || t.missedProposer != ZERO32 || t.skipIndex != 0
    || t.wasm != [] || t.initArgs != [] || t.callData != []
  }

  /** validateEquivocationEvidenceTx: the convicted validator, or why the evidence is refused. */
  function ValidateEquivocation(t: WireTx, chain: Bytes, verify: Verifier): Result<Key, Code> {
    if HasStrayFields(t) then Err(CanonicalEncodingDistortion)
    else
      match (EvidenceVote(t.evidenceA), EvidenceVote(t.evidenceB))
      case (Some(a), Some(b)) =>
        if !VerifyEvidenceVote(a, chain, verify) || !VerifyEvidenceVote(b, chain, verify) then Err(InvalidSignature)
        else if a.ballot.voter != b.ballot.voter then Err(CanonicalEncodingDistortion)
        else if !SameSlot(a.ballot, b.ballot) then Err(CanonicalEncodingDistortion)
        else if a.ballot.block == b.ballot.block then Err(CanonicalEncodingDistortion)
        else if a.ballot.block == NIL || b.ballot.block == NIL then Err(CanonicalEncodingDistortion)
        else Ok(a.ballot.voter)
      case _ => Err(CanonicalEncodingDistortion)
  }

  /** k's signature stands under two different non-nil votes for one slot. */
  ghost predicate Convicts(t: WireTx, chain: Bytes, verify: Verifier, k: Key) {
    exists a: Vote, b: Vote ::
      && EncodeVote(a) == t.evidenceA && EncodeVote(b) == t.evidenceB
      && Conflict(a, b, k) && VerifyEvidenceVote(a, chain, verify) && VerifyEvidenceVote(b, chain, verify)
  }

  ghost predicate Conflict(a: Vote, b: Vote, k: Key) {
    && a.ballot.voter == k && b.ballot.voter == k && SameSlot(a.ballot, b.ballot)
    && a.ballot.block != b.ballot.block && a.ballot.block != NIL && b.ballot.block != NIL
  }

  /** Evidence is accepted against k exactly when it shows such a pair and carries nothing else. */
  lemma EvidenceIsExact(t: WireTx, chain: Bytes, verify: Verifier, k: Key)
    ensures ValidateEquivocation(t, chain, verify) == Ok(k) <==> !HasStrayFields(t) && Convicts(t, chain, verify, k)
  {
    if ValidateEquivocation(t, chain, verify) == Ok(k) {
      EncodeOfParse(t.evidenceA);
      EncodeOfParse(t.evidenceB);
      var a, b := ParseVote(t.evidenceA), ParseVote(t.evidenceB);
      assert Conflict(a, b, k);
    } else if Convicts(t, chain, verify, k) {
      var a: Vote, b: Vote :|
        && EncodeVote(a) == t.evidenceA && EncodeVote(b) == t.evidenceB
        && Conflict(a, b, k) && VerifyEvidenceVote(a, chain, verify) && VerifyEvidenceVote(b, chain, verify);
      ParseOfEncode(a);
      ParseOfEncode(b);
    }
  }

  /** Everything an honest key puts its name under: its ballots, proposals, and 32-byte transaction hashes. */
  ghost predicate Signs(net: set<Ballot>, k: Key, chain: Bytes, coder: P.BatchCoder, message: Bytes) {
    || (exists v :: v in net && v.voter == k && message == VoteSignBytes(v, chain))
    || (exists p: Proposal :: message == P.ProposalSignBytes(coder, p, chain))
    || |message| == 32
  }

  /** Ed25519: a signature of k verifies only on a message k has signed. */
  ghost predicate Unforgeable(verify: Verifier, net: set<Ballot>, k: Key, chain: Bytes, coder: P.BatchCoder) {
    forall message, sig :: verify(k, message, sig) ==> Signs(net, k, chain, coder, message)
  }

  /** A vote message is no proposal message and no transaction hash, whatever the chain identities. */
  lemma DomainsSeparate(b: Ballot, chain: Bytes, p: Proposal, coder: P.BatchCoder, other: Bytes)
    ensures VoteSignBytes(b, chain) != P.ProposalSignBytes(coder, p, other)
    ensures |VoteSignBytes(b, chain)| > 32
  {
    assert VoteSignBytes(b, chain)[4] == VOTE_DOMAIN[4] == 86;
    assert P.ProposalSignBytes(coder, p, other)[4] == P.PROPOSAL_DOMAIN[4] == 80;
  }

  /** A verified evidence vote of an honest validator is a ballot it cast. */
  lemma VerifiedWasCast(v: Vote, chain: Bytes, verify: Verifier, net: set<Ballot>, home: Bytes, coder: P.BatchCoder)
    requires VerifyEvidenceVote(v, chain, verify) && Unforgeable(verify, net, v.ballot.voter, home, coder)
    ensures v.ballot in net
  {
    var message := VoteSignBytes(v.ballot, chain);
    assert Signs(net, v.ballot.voter, home, coder, message);
    forall p: Proposal ensures message != P.ProposalSignBytes(coder, p, home) {
      DomainsSeparate(v.ballot, chain, p, coder, home);
    }
    var u :| u in net && u.voter == v.ballot.voter && message == VoteSignBytes(u, home);
    VoteSignBytesInjective(v.ballot, chain, u, home);
  }

  /** Evidence holding two votes and nothing else. */
  function EvidenceOf(a: Vote, b: Vote): WireTx {
    Tx(EQUIV_EVIDENCE, [], [], 0, 0, ZERO32, ZERO32, ZERO64, ZERO64, 0, ZERO32, 0, [], [], [], EncodeVote(a), EncodeVote(b))
  }

  /** Every ballot of k has a signature that verifies on its chain. */
  ghost predicate Signed(verify: Verifier, net: set<Ballot>, k: Key, chain: Bytes) {
    forall b :: b in net && b.voter == k ==> exists sig :: verify(k, VoteSignBytes(b, chain), sig)
  }

  /** Two verified clashing votes of an unforgeable key are two clashing ballots it cast. */
  lemma ConvictionShowsClash(t: WireTx, chain: Bytes, home: Bytes, coder: P.BatchCoder, verify: Verifier, net: set<Ballot>, k: Key)
    requires Unforgeable(verify, net, k, home, coder) && ValidateEquivocation(t, chain, verify) == Ok(k)
    ensures Equivocated(net, k)
  {
    EvidenceIsExact(t, chain, verify, k);
    var a: Vote, b: Vote :|
      && EncodeVote(a) == t.evidenceA && EncodeVote(b) == t.evidenceB
      && Conflict(a, b, k) && VerifyEvidenceVote(a, chain, verify) && VerifyEvidenceVote(b, chain, verify);
    VerifiedWasCast(a, chain, verify, net, home, coder);
    VerifiedWasCast(b, chain, verify, net, home, coder);
    assert Clash(a.ballot, b.ballot, k);
  }

  /** And two clashing ballots make evidence that is accepted. */
  lemma ClashConvicts(a: Ballot, b: Ballot, chain: Bytes, verify: Verifier, net: set<Ballot>, k: Key) returns (t: WireTx)
    requires Signed(verify, net, k, chain) && a in net && b in net && Clash(a, b, k)
    requires a.kind == PREVOTE || a.kind == PRECOMMIT
    ensures ValidateEquivocation(t, chain, verify) == Ok(k)
  {
    var s: Bytes64 :| verify(k, VoteSignBytes(a, chain), s);
    var r: Bytes64 :| verify(k, VoteSignBytes(b, chain), r);
    var x, y := Vote(a, s), Vote(b, r);
    t := EvidenceOf(x, y);
    assert Conflict(x, y, k);
    EvidenceIsExact(t, chain, verify, k);
  }

  /**
   * Over every run, with any number of crashes and any faults elsewhere: evidence that convicts a
   * validator that votes only through its engine exists exactly when the commit of one of its slots
   * failed under a released ballot and the slot was used again for another block.
   */
  lemma ConvictedExactly(env: Env, ws: seq<World>, es: seq<Event>, k: Key, home: Bytes, coder: P.BatchCoder, verify: Verifier)
    requires env.Valid() && IsWorldRun(env, ws, es) && k in ws[0].nodes
    requires Unforgeable(verify, ws[|es|].net, k, home, coder) && Signed(verify, ws[|es|].net, k, home)
    ensures (exists t :: ValidateEquivocation(t, home, verify) == Ok(k))
       <==> exists i, j, slot, b, c :: Recasts(ws, es, k, i, j, slot, b, c)
  {
    var net := ws[|es|].net;
    EquivocatesExactly(env, ws, es, k);
    if t :| ValidateEquivocation(t, home, verify) == Ok(k) { ConvictionShowsClash(t, home, home, coder, verify, net, k); }
    if Equivocated(net, k) {
      var a, b :| a in net && b in net && Clash(a, b, k);
      var i := BallotReleased(env, ws, es, k, |es|, a);
      var t := ClashConvicts(a, b, home, verify, net, k);
    }
  }

  /**
   * So no evidence, whatever chain it is judged under, convicts a validator none of whose ballots got
   * out while the commit of its slot failed. home is the chain it votes for.
   */
  lemma HonestNeverConvicted(env: Env, ws: seq<World>, es: seq<Event>, k: Key, t: WireTx,
                             chain: Bytes, home: Bytes, coder: P.BatchCoder, verify: Verifier)
    requires env.Valid() && IsWorldRun(env, ws, es) && k in ws[0].nodes && NeverLapses(es, k)
    requires Unforgeable(verify, ws[|es|].net, k, home, coder)
    ensures ValidateEquivocation(t, chain, verify) != Ok(k)
  {
    KeepersDoNotEquivocate(env, ws, es, k);
    if ValidateEquivocation(t, chain, verify) == Ok(k) { ConvictionShowsClash(t, chain, home, coder, verify, ws[|es|].net, k); }
  }

  /** A run in which a validator that votes only through its engine is convicted. */
  lemma HonestConvicted(env: Env, k: Key, p: Proposal, q: Proposal, home: Bytes, verify: Verifier)
    returns (ws: seq<World>, es: seq<Event>, t: WireTx)
    requires env.Valid() && Elected(env, Blank(), p) && Elected(env, Blank(), q)
    requires env.hash(p) != env.hash(q) && env.hash(p) != NIL && env.hash(q) != NIL
    requires forall b: Ballot :: b.voter == k ==> exists sig :: verify(k, VoteSignBytes(b, home), sig)
    ensures IsWorldRun(env, ws, es) && k in ws[0].nodes && ValidateEquivocation(t, home, verify) == Ok(k)
  {
    ws, es := LapseThenRestart(env, k, p, q);
    var net := ws[|es|].net;
    var a, b :| a in net && b in net && Clash(a, b, k);
    var i := BallotReleased(env, ws, es, k, |es|, a);
    t := ClashConvicts(a, b, home, verify, net, k);
  }
}

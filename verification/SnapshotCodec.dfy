/** The durable round snapshot: core/consensus/persistence.go. */
module SnapshotCodec {
  import opened Wrappers
  import opened Errors
  import opened Bytes
  import opened Messages
  import opened VoteCodec
  import opened VoteLists
  import opened Protocol

  const MAX_VOTES: nat := 4096

  /** The proposal codec and the signature checks of decoding. SnapshotWire gives the instance. */
  datatype Codec = Codec(
    error: Proposal -> Option<Code>,
    encode: Proposal -> Bytes,
    parse: Bytes -> Outcome<Proposal, Code>,
    proposalOk: Proposal -> bool,
    voteOk: Vote -> bool)

  // ---------------------------------------------------------------- writing

  function PhaseByte(p: Phase): byte {
    p.Rank()
  }

  function LockPart(lock: Option<Bytes32>): Bytes {
    if lock.Some? then [1] + lock.value else [0]
  }

  /** uint32(int32) */
  function ToU32(x: int): u32
    requires -0x8000_0000 <= x < 0x8000_0000
  {
    if x < 0 then x + U32 else x
  }

  function ProposalPart(c: Codec, p: Option<Proposal>): Bytes {
    if p.Some? then c.encode(p.value) else []
  }

  /** No votes, no bytes. */
  function AttestationPart(a: Attestation): Bytes {
    if a.votes == [] then []
    else BE(a.height, 8) + (BE(a.round, 4) + (a.block + (BE(|a.votes|, 4) + EncodeVotes(a.votes))))
  }

  function Sized(b: Bytes): Bytes {
    BE(|b|, 4) + b
  }

  function CountedVotes(votes: seq<Vote>): Bytes {
    BE(|votes|, 4) + EncodeVotes(votes)
  }

  /** height(8) round(4) phase(1) lock(1 or 33) lockedRound(4), then the rest. */
  function Head(rs: RoundState, tail: Bytes): Bytes
    requires -0x8000_0000 <= rs.lockedRound < 0x8000_0000
  {
    BE(rs.height, 8) + (BE(rs.round, 4) + ([PhaseByte(rs.phase)]
    + (LockPart(rs.lockedBlock) + (BE(ToU32(rs.lockedRound), 4) + tail))))
  }

  /** The snapshot when the vote maps are walked in the orders pre and com. */
  function Snapshot(c: Codec, rs: RoundState, pre: seq<Vote>, com: seq<Vote>): Bytes
    requires -0x8000_0000 <= rs.lockedRound < 0x8000_0000
  {
    Head(rs, Sized(ProposalPart(c, rs.proposal))
             + (CountedVotes(pre) + (CountedVotes(com) + Sized(AttestationPart(rs.lastAttestation)))))
  }

  /** A walk over a vote map: every entry once, in some order. */
  ghost predicate Walk(votes: map<Bytes32, Vote>, order: seq<Vote>) {
    && |order| == |votes|
    && (forall v :: v in order <==> v.ballot.voter in votes && votes[v.ballot.voter] == v)
    && (forall i, j :: 0 <= i < j < |order| ==> order[i].ballot.voter != order[j].ballot.voter)
  }

  /** Filed under the voter's own key. */
  ghost predicate Keyed(votes: map<Bytes32, Vote>) {
    forall k :: k in votes ==> votes[k].ballot.voter == k
  }

  method WalkVotes(votes: map<Bytes32, Vote>) returns (order: seq<Vote>)
    requires Keyed(votes)
    ensures Walk(votes, order)
  {
    var todo := votes.Keys;
    order := [];
    while todo != {}
      invariant todo <= votes.Keys && |order| + |todo| == |votes.Keys|
      invariant forall v :: v in order <==> v.ballot.voter in votes && votes[v.ballot.voter] == v && v.ballot.voter !in todo
      invariant forall i, j :: 0 <= i < j < |order| ==> order[i].ballot.voter != order[j].ballot.voter
      decreases todo
    {
      var k :| k in todo;
      forall i | 0 <= i < |order| ensures order[i].ballot.voter != k { assert order[i] in order; }
      order := order + [votes[k]];
      todo := todo - {k};
    }
  }

  function EncodeError(c: Codec, rs: RoundState): Option<Code> {
    if rs.proposal.Some? && c.error(rs.proposal.value).Some? then c.error(rs.proposal.value)
    else if |rs.prevotes| > MAX_VOTES || |rs.precommits| > MAX_VOTES || |rs.lastAttestation.votes| > MAX_VOTES
    then Some(Malformed)
    else None
  }

  /** encodeRoundState succeeds with the bytes of some walk over the two maps. */
  method EncodeRoundState(c: Codec, rs: RoundState) returns (r: Result<Bytes, Code>)
    requires Keyed(rs.prevotes) && Keyed(rs.precommits) && -0x8000_0000 <= rs.lockedRound < 0x8000_0000
    ensures EncodeError(c, rs).Some? ==> r == Err(EncodeError(c, rs).value)
    ensures EncodeError(c, rs).None? ==>
              r.Ok? && exists pre, com :: Walk(rs.prevotes, pre) && Walk(rs.precommits, com) && r.value == Snapshot(c, rs, pre, com)
  {
    var buf := BE(rs.height, 8) + BE(rs.round, 4) + [PhaseByte(rs.phase)];
    buf := buf + LockPart(rs.lockedBlock) + BE(ToU32(rs.lockedRound), 4);
    if rs.proposal.Some? && c.error(rs.proposal.value).Some? { return Err(c.error(rs.proposal.value).value); }
    var body := Sized(ProposalPart(c, rs.proposal));
    if |rs.prevotes| > MAX_VOTES { return Err(Malformed); }
    var pre := WalkVotes(rs.prevotes);
    var preBytes := WriteVoteLoop(pre);
    if |rs.precommits| > MAX_VOTES { return Err(Malformed); }
    var com := WalkVotes(rs.precommits);
    var comBytes := WriteVoteLoop(com);
    if |rs.lastAttestation.votes| > MAX_VOTES { return Err(Malformed); }
    var rest := body + ((BE(|pre|, 4) + preBytes) + ((BE(|com|, 4) + comBytes) + Sized(AttestationPart(rs.lastAttestation))));
    HeadGrows(rs, rest);
    assert buf + rest == Snapshot(c, rs, pre, com);
    return Ok(buf + rest);
  }

  lemma HeadGrows(rs: RoundState, tail: Bytes)
    requires -0x8000_0000 <= rs.lockedRound < 0x8000_0000
    ensures BE(rs.height, 8) + BE(rs.round, 4) + [PhaseByte(rs.phase)] + LockPart(rs.lockedBlock)
            + BE(ToU32(rs.lockedRound), 4) + tail == Head(rs, tail)
  {
  }

  // ---------------------------------------------------------------- reading

  /** A value taken off the front, and what is left. */
  datatype Cut<+T> = Cut(value: T, rest: Bytes)

  function TakeSized(d: Bytes): Option<Cut<Bytes>> {
    if |d| < 4 then None
    else
      var n := Num(d[..4]);
      if n > |d| - 4 then None else Some(Cut(d[4..4 + n], d[4 + n..]))
  }

  predicate AllOk(c: Codec, votes: seq<Vote>) {
    forall i :: 0 <= i < |votes| ==> c.voteOk(votes[i])
  }

  function TakeVotes(c: Codec, d: Bytes): Option<Cut<seq<Vote>>> {
    if |d| < 4 then None
    else
      var n := Num(d[..4]);
      if n > MAX_VOTES || n * VOTE_SIZE > |d| - 4 then None
      else
        var votes := ReadVotes(d[4..], n);
        if !AllOk(c, votes) then None else Some(Cut(votes, d[4..][VOTE_SIZE * n..]))
  }

  /** Filing votes in reading order: a later one for the same key replaces an earlier one. */
  function FileVotes(votes: seq<Vote>): map<Bytes32, Vote> {
    if votes == [] then map[]
    else FileVotes(votes[..|votes| - 1])[votes[|votes| - 1].ballot.voter := votes[|votes| - 1]]
  }

  predicate FitsAttestation(a: Attestation, v: Vote) {
    v.ballot.kind == PRECOMMIT && v.ballot.height == a.height && v.ballot.round == a.round && v.ballot.block == a.block
  }

  function ParseAttestation(c: Codec, d: Bytes): Option<Attestation> {
    if d == [] then Some(EMPTY_ATTESTATION)
    else if |d| < 44 then None
    else
      NumFits(d[0..8], 8);
      NumFits(d[8..12], 4);
      match TakeVotes(c, d[44..])
      case None => None
      case Some(cut) =>
        var a := Attestation(Num(d[0..8]), Num(d[8..12]), d[12..44], cut.value);
        if (forall i :: 0 <= i < |a.votes| ==> FitsAttestation(a, a.votes[i])) && cut.rest == [] then Some(a) else None
  }

  /** Every error is Malformed here: Start only asks whether there was one. */
  function ParseOptionalProposal(c: Codec, d: Bytes): Outcome<Option<Proposal>, Code> {
    if d == [] then Parsed(None)
    else
      match c.parse(d)
      case Parsed(p) => if c.proposalOk(p) then Parsed(Some(p)) else Failed(Malformed)
      case Failed(_) => Failed(Malformed)
      case Panicked => Panicked
  }

  function PhaseOf(b: byte): Option<Phase> {
    if b == 1 then Some(Propose) else if b == 2 then Some(Prevoting)
    else if b == 3 then Some(Precommitting) else if b == 4 then Some(Committing) else None
  }

  /** The head of a snapshot as a round state without proposal, votes and attestation. */
  function ParseHead(d: Bytes): Option<Cut<RoundState>> {
    if |d| < 14 || PhaseOf(d[12]).None? then None
    else
      NumFits(d[0..8], 8);
      NumFits(d[8..12], 4);
      var rs := NewRoundState(Num(d[0..8])).(round := Num(d[8..12]), phase := PhaseOf(d[12]).value);
      var skip := if d[13] != 0 then 46 else 14;
      if |d| < skip + 4 then None
      else
        NumFits(d[skip..skip + 4], 4);
        Some(Cut(if d[13] != 0 then rs.(lockedBlock := Some(d[14..46]), lockedRound := ToInt32(Num(d[skip..skip + 4])))
                 else rs, d[skip + 4..]))
  }

  /** An older snapshot may end after the votes. */
  function ParseTail(c: Codec, d: Bytes): Option<Attestation> {
    if d == [] then Some(EMPTY_ATTESTATION)
    else
      match TakeSized(d)
      case None => None
      case Some(cut) => if cut.rest != [] then None else ParseAttestation(c, cut.value)
  }

  function ParseVotesAndTail(c: Codec, rs: RoundState, d: Bytes): Option<RoundState> {
    match TakeVotes(c, d)
    case None => None
    case Some(pre) =>
      match TakeVotes(c, pre.rest)
      case None => None
      case Some(com) =>
        match ParseTail(c, com.rest)
        case None => None
        case Some(a) =>
          Some(rs.(prevotes := FileVotes(pre.value), precommits := FileVotes(com.value), lastAttestation := a))
  }

  function ParseBody(c: Codec, rs: RoundState, d: Bytes): Outcome<RoundState, Code> {
    match TakeSized(d)
    case None => Failed(Malformed)
    case Some(blob) => WithProposal(c, rs, ParseOptionalProposal(c, blob.value), blob.rest)
  }

  function WithProposal(c: Codec, rs: RoundState, p: Outcome<Option<Proposal>, Code>, d: Bytes): Outcome<RoundState, Code> {
    match p
    case Failed(_) => Failed(Malformed)
    case Panicked => Panicked
    case Parsed(q) => FromOption(ParseVotesAndTail(c, rs.(proposal := q), d))
  }

  function FromOption(o: Option<RoundState>): Outcome<RoundState, Code> {
    if o.Some? then Parsed(o.value) else Failed(Malformed)
  }

  function Decode(c: Codec, data: Bytes): Outcome<RoundState, Code> {
    match ParseHead(data)
    case None => Failed(Malformed)
    case Some(head) => ParseBody(c, head.value, head.rest)
  }

  /** bytes.Reader over the snapshot: each read advances the cursor. */
  class Reader {
    const data: Bytes
    var pos: nat

    ghost predicate Valid()
      reads this
    {
      pos <= |data|
    }

    ghost function Rest(): Bytes
      requires Valid()
      reads this
    {
      data[pos..]
    }

    constructor (data: Bytes)
      ensures Valid() && Rest() == data
    {
      this.data, pos := data, 0;
      new;
      assert data[0..] == data;
    }

    /** A uint32 length and that many bytes. */
    method ReadSized() returns (b: Option<Bytes>)
      requires Valid()
      modifies this
      ensures Valid()
      ensures match TakeSized(old(Rest())) case None => b.None? case Some(cut) => b == Some(cut.value) && Rest() == cut.rest
    {
      if pos + 4 > |data| { return None; }
      SliceOfDrop(data, pos, 0, 4);
      assert data[pos..][..4] == data[pos..][0..4];
      var n := Num(data[pos..pos + 4]);
      if n > |data| - pos - 4 { return None; }
      SliceOfDrop(data, pos, 4, 4 + n);
      assert data[pos..][4 + n..] == data[pos + 4 + n..];
      b := Some(data[pos + 4..pos + 4 + n]);
      pos := pos + 4 + n;
    }

    /** A uint32 count and that many votes, each of which must verify. */
    method ReadVoteList(c: Codec) returns (votes: Option<seq<Vote>>)
      requires Valid()
      modifies this
      ensures Valid()
      ensures match TakeVotes(c, old(Rest()))
              case None => votes.None?
              case Some(cut) => votes == Some(cut.value) && Rest() == cut.rest
    {
      if pos + 4 > |data| { return None; }
      SliceOfDrop(data, pos, 0, 4);
      assert data[pos..][..4] == data[pos..][0..4];
      assert data[pos..][4..] == data[pos + 4..];
      var n := Num(data[pos..pos + 4]);
      if n > MAX_VOTES || n * VOTE_SIZE > |data| - pos - 4 { return None; }
      var read := ReadVoteLoop(data, pos + 4, n);
      var verified := CheckVotes(c, read);
      if !verified { return None; }
      assert data[pos + 4..][VOTE_SIZE * n..] == data[pos + 4 + VOTE_SIZE * n..];
      pos := pos + 4 + VOTE_SIZE * n;
      return Some(read);
    }
  }

  method CheckVotes(c: Codec, votes: seq<Vote>) returns (ok: bool)
    ensures ok <==> AllOk(c, votes)
  {
    for i := 0 to |votes|
      invariant forall j :: 0 <= j < i ==> c.voteOk(votes[j])
    {
      if !c.voteOk(votes[i]) { return false; }
    }
    return true;
  }

  /** rs.Prevotes[vote.ValidatorPK] = vote, in reading order. */
  method FileVoteLoop(votes: seq<Vote>) returns (filed: map<Bytes32, Vote>)
    ensures filed == FileVotes(votes)
  {
    filed := map[];
    for i := 0 to |votes|
      invariant filed == FileVotes(votes[..i])
    {
      assert votes[..i + 1][..i] == votes[..i];
      filed := filed[votes[i].ballot.voter := votes[i]];
    }
    assert votes[..|votes|] == votes;
  }

  method DecodeRoundState(c: Codec, data: Bytes) returns (o: Outcome<RoundState, Code>)
    ensures o == Decode(c, data)
  {
    var head := ParseHead(data);
    if head.None? { return Failed(Malformed); }
    var rs := head.value.value;
    var read := new Reader(head.value.rest);
    var blob := read.ReadSized();
    if blob.None? { return Failed(Malformed); }
    var p := ParseOptionalProposal(c, blob.value);
    if p.Panicked? { return Panicked; }
    if p.Failed? { return Failed(Malformed); }
    rs := rs.(proposal := p.value);
    var whole := DecodeVotesAndTail(c, rs, read);
    if whole.None? { return Failed(Malformed); }
    return Parsed(whole.value);
  }

  method DecodeVotesAndTail(c: Codec, base: RoundState, read: Reader) returns (o: Option<RoundState>)
    requires read.Valid()
    modifies read
    ensures o == ParseVotesAndTail(c, base, old(read.Rest()))
  {
    var rs := base;
    var pre := read.ReadVoteList(c);
    if pre.None? { return None; }
    var prevotes := FileVoteLoop(pre.value);
    var com := read.ReadVoteList(c);
    if com.None? { return None; }
    var precommits := FileVoteLoop(com.value);
    rs := rs.(prevotes := prevotes, precommits := precommits);
    if read.pos < |read.data| {
      var blob := read.ReadSized();
      if blob.None? || read.pos != |read.data| { return None; }
      var a := ParseAttestation(c, blob.value);
      if a.None? { return None; }
      rs := rs.(lastAttestation := a.value);
    } else {
      rs := rs.(lastAttestation := EMPTY_ATTESTATION);
    }
    return Some(rs);
  }

  // ---------------------------------------------------------------- round trip

  lemma SizedRead(b: Bytes, tail: Bytes)
    requires |b| < U32
    ensures TakeSized(Sized(b) + tail) == Some(Cut(b, tail))
  {
    var d := Sized(b) + tail;
    Widths();
    NumOfBE(|b|, 4);
    assert d[..4] == BE(|b|, 4) && d[4..4 + |b|] == b && d[4 + |b|..] == tail;
  }

  lemma CountedVotesRead(c: Codec, votes: seq<Vote>, tail: Bytes)
    requires |votes| <= MAX_VOTES && AllOk(c, votes)
    ensures TakeVotes(c, CountedVotes(votes) + tail) == Some(Cut(votes, tail))
  {
    var d := CountedVotes(votes) + tail;
    Widths();
    NumOfBE(|votes|, 4);
    assert d[..4] == BE(|votes|, 4);
    assert d[4..] == EncodeVotes(votes) + tail;
    VotesRoundTrip(votes, tail);
  }

  lemma HeadFields(rs: RoundState, tail: Bytes)
    requires -0x8000_0000 <= rs.lockedRound < 0x8000_0000
    ensures var d := Head(rs, tail);
            var skip := if rs.lockedBlock.Some? then 46 else 14;
            && |d| == skip + 4 + |tail| && d[0..8] == BE(rs.height, 8) && d[8..12] == BE(rs.round, 4)
            && d[12] == PhaseByte(rs.phase) && (d[13] != 0 <==> rs.lockedBlock.Some?)
            && (rs.lockedBlock.Some? ==> d[14..46] == rs.lockedBlock.value)
            && d[skip..skip + 4] == BE(ToU32(rs.lockedRound), 4) && d[skip + 4..] == tail
  {
  }

  lemma HeadNumbers(rs: RoundState)
    requires -0x8000_0000 <= rs.lockedRound < 0x8000_0000
    ensures Num(BE(rs.height, 8)) == rs.height && Num(BE(rs.round, 4)) == rs.round
    ensures Num(BE(ToU32(rs.lockedRound), 4)) == ToU32(rs.lockedRound) && ToInt32(ToU32(rs.lockedRound)) == rs.lockedRound
  {
    Widths();
    NumOfBE(rs.height, 8);
    NumOfBE(rs.round, 4);
    NumOfBE(ToU32(rs.lockedRound), 4);
  }

  lemma HeadRead(rs: RoundState, tail: Bytes)
    requires -0x8000_0000 <= rs.lockedRound < 0x8000_0000
    ensures ParseHead(Head(rs, tail))
         == Some(Cut(Normal(rs).(proposal := None, prevotes := map[], precommits := map[],
                                 lastAttestation := EMPTY_ATTESTATION), tail))
  {
    HeadFields(rs, tail);
    HeadNumbers(rs);
  }

  lemma {:induction false} FileWalk(votes: map<Bytes32, Vote>, order: seq<Vote>)
    requires Keyed(votes) && Walk(votes, order)
    ensures FileVotes(order) == votes
  {
    FiledAre(order);
    forall k | k in votes ensures k in FileVotes(order) && FileVotes(order)[k] == votes[k] {
      assert votes[k] in order;
    }
    forall k | k in FileVotes(order) ensures k in votes {
      assert FileVotes(order)[k] in order;
    }
  }

  lemma {:induction false} FiledAre(order: seq<Vote>)
    requires forall i, j :: 0 <= i < j < |order| ==> order[i].ballot.voter != order[j].ballot.voter
    ensures forall v :: v in order ==> v.ballot.voter in FileVotes(order) && FileVotes(order)[v.ballot.voter] == v
    ensures forall k :: k in FileVotes(order) ==> FileVotes(order)[k] in order && FileVotes(order)[k].ballot.voter == k
  {
    if order != [] {
      var m := |order| - 1;
      FiledAre(order[..m]);
      assert order == order[..m] + [order[m]];
    }
  }

  /** The votes pass the signature checks of decoding. */
  ghost predicate VotesVerify(c: Codec, rs: RoundState) {
    && (forall k :: k in rs.prevotes ==> c.voteOk(rs.prevotes[k]))
    && (forall k :: k in rs.precommits ==> c.voteOk(rs.precommits[k]))
    && (forall v :: v in rs.lastAttestation.votes ==> c.voteOk(v) && FitsAttestation(rs.lastAttestation, v))
    && (rs.lastAttestation.votes == [] ==> rs.lastAttestation == EMPTY_ATTESTATION)
  }

  /** The stored proposal fits its length field. */
  ghost predicate Sizable(c: Codec, p: Option<Proposal>) {
    p.Some? ==> 0 < |c.encode(p.value)| < U32
  }

  /** What decoding will check: the proposal comes back and verifies, and so do all votes. */
  ghost predicate Verifies(c: Codec, rs: RoundState) {
    && (rs.proposal.Some? ==>
          c.parse(c.encode(rs.proposal.value)) == Parsed(rs.proposal.value) && c.proposalOk(rs.proposal.value))
    && Sizable(c, rs.proposal) && VotesVerify(c, rs)
  }

  lemma AttestationFields(a: Attestation, tail: Bytes)
    ensures var d := BE(a.height, 8) + (BE(a.round, 4) + (a.block + tail));
            |d| == 44 + |tail| && Num(d[0..8]) == a.height && Num(d[8..12]) == a.round && d[12..44] == a.block && d[44..] == tail
  {
    var d := BE(a.height, 8) + (BE(a.round, 4) + (a.block + tail));
    Widths();
    assert d[0..] == d;
    Read(d, 0, BE(a.height, 8), BE(a.round, 4) + (a.block + tail));
    Read(d, 8, BE(a.round, 4), a.block + tail);
    Read(d, 12, a.block, tail);
    NumOfBE(a.height, 8);
    NumOfBE(a.round, 4);
  }

  lemma AttestationRoundTrip(c: Codec, a: Attestation)
    requires |a.votes| <= MAX_VOTES && (a.votes == [] ==> a == EMPTY_ATTESTATION)
    requires forall v :: v in a.votes ==> c.voteOk(v) && FitsAttestation(a, v)
    ensures ParseAttestation(c, AttestationPart(a)) == Some(a)
    ensures |AttestationPart(a)| < U32
  {
    if a.votes != [] {
      AttestationFields(a, CountedVotes(a.votes));
      CountedVotesRead(c, a.votes, []);
      assert CountedVotes(a.votes) + [] == CountedVotes(a.votes);
    }
  }

  lemma TailRoundTrip(c: Codec, a: Attestation)
    requires |a.votes| <= MAX_VOTES && (a.votes == [] ==> a == EMPTY_ATTESTATION)
    requires forall v :: v in a.votes ==> c.voteOk(v) && FitsAttestation(a, v)
    ensures ParseTail(c, Sized(AttestationPart(a))) == Some(a)
  {
    AttestationRoundTrip(c, a);
    SizedRead(AttestationPart(a), []);
    assert Sized(AttestationPart(a)) + [] == Sized(AttestationPart(a));
  }

  lemma WalkOk(c: Codec, votes: map<Bytes32, Vote>, order: seq<Vote>)
    requires Walk(votes, order) && forall k :: k in votes ==> c.voteOk(votes[k])
    ensures AllOk(c, order)
  {
    forall i | 0 <= i < |order| ensures c.voteOk(order[i]) { assert order[i] in order; }
  }

  lemma VotesAndTailRoundTrip(c: Codec, rs: RoundState, base: RoundState, pre: seq<Vote>, com: seq<Vote>)
    requires EncodeError(c, rs).None? && VotesVerify(c, rs) && Keyed(rs.prevotes) && Keyed(rs.precommits)
    requires Walk(rs.prevotes, pre) && Walk(rs.precommits, com)
    ensures ParseVotesAndTail(c, base, CountedVotes(pre) + (CountedVotes(com) + Sized(AttestationPart(rs.lastAttestation))))
         == Some(base.(prevotes := rs.prevotes, precommits := rs.precommits, lastAttestation := rs.lastAttestation))
  {
    var tail := Sized(AttestationPart(rs.lastAttestation));
    WalkOk(c, rs.prevotes, pre);
    WalkOk(c, rs.precommits, com);
    CountedVotesRead(c, pre, CountedVotes(com) + tail);
    CountedVotesRead(c, com, tail);
    TailRoundTrip(c, rs.lastAttestation);
    FileWalk(rs.prevotes, pre);
    FileWalk(rs.precommits, com);
  }

  /** What the stored proposal is read back as. */
  function Reread(c: Codec, p: Option<Proposal>): Outcome<Option<Proposal>, Code> {
    ParseOptionalProposal(c, ProposalPart(c, p))
  }

  function Restored(rs: RoundState, p: Outcome<Option<Proposal>, Code>): Outcome<RoundState, Code> {
    match p
    case Failed(_) => Failed(Malformed)
    case Panicked => Panicked
    case Parsed(q) => Parsed(Normal(rs).(proposal := q))
  }

  /**
   * A snapshot whose votes verify decodes exactly as its proposal does: to the round state with
   * that proposal, in whatever order the vote maps were written and with locked round -1 when
   * unlocked, or to the proposal's failure or panic.
   */
  lemma SnapshotDecodes(c: Codec, rs: RoundState, pre: seq<Vote>, com: seq<Vote>)
    requires -0x8000_0000 <= rs.lockedRound < 0x8000_0000 && Keyed(rs.prevotes) && Keyed(rs.precommits)
    requires EncodeError(c, rs).None? && VotesVerify(c, rs) && Sizable(c, rs.proposal)
    requires Walk(rs.prevotes, pre) && Walk(rs.precommits, com)
    ensures Decode(c, Snapshot(c, rs, pre, com)) == Restored(rs, Reread(c, rs.proposal))
  {
    var rest := CountedVotes(pre) + (CountedVotes(com) + Sized(AttestationPart(rs.lastAttestation)));
    var base := Normal(rs).(proposal := None, prevotes := map[], precommits := map[], lastAttestation := EMPTY_ATTESTATION);
    HeadRead(rs, Sized(ProposalPart(c, rs.proposal)) + rest);
    SizedRead(ProposalPart(c, rs.proposal), rest);
    var p := Reread(c, rs.proposal);
    if p.Parsed? { VotesAndTailRoundTrip(c, rs, base.(proposal := p.value), pre, com); }
  }

  /** So a proposal that comes back and verifies restores every field but a stale locked round. */
  lemma SnapshotRoundTrip(c: Codec, rs: RoundState, pre: seq<Vote>, com: seq<Vote>)
    requires -0x8000_0000 <= rs.lockedRound < 0x8000_0000 && Keyed(rs.prevotes) && Keyed(rs.precommits)
    requires EncodeError(c, rs).None? && Verifies(c, rs)
    requires Walk(rs.prevotes, pre) && Walk(rs.precommits, com)
    ensures Decode(c, Snapshot(c, rs, pre, com)) == Parsed(Normal(rs))
  {
    SnapshotDecodes(c, rs, pre, com);
  }
}

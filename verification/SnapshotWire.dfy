/** The snapshot codec over the real proposal codec, for states the engine can reach. */
module SnapshotWire {
  import opened Wrappers
  import opened Errors
  import opened Bytes
  import opened Messages
  import opened Protocol
  import Attestations
  import P = ProposalCodec
  import opened SnapshotCodec

  function Coder(b: P.BatchCoder, proposalOk: Proposal -> bool, voteOk: Vote -> bool): Codec {
    Codec((p: Proposal) => P.BodyError(b, p),
          (p: Proposal) => P.EncodeProposal(b, p),
          (d: Bytes) => P.ParseProposal(b, d),
          proposalOk, voteOk)
  }

  /** What Start makes of a stored proposal: below 65536 transactions its normal form, if that verifies. */
  function Reload(b: P.BatchCoder, proposalOk: Proposal -> bool, p: Proposal): Option<Proposal> {
    var q := p.(txs := P.Normal(b, p.txs));
    if |p.txs| < P.MAX_TXS && proposalOk(q) then Some(q) else None
  }

  /** The environment reads proposals back through these codecs. */
  ghost predicate Reloads(env: Env, b: P.BatchCoder, proposalOk: Proposal -> bool) {
    forall p :: env.reload(p) == Reload(b, proposalOk, p)
  }

  lemma StoredVotesVerify(env: Env, s: Local, c: Codec)
    requires env.Valid() && NodeInv(env, s) && c.voteOk == env.voteOk
    ensures VotesVerify(c, s.node.rs) && Keyed(s.node.rs.prevotes) && Keyed(s.node.rs.precommits)
  {
    var rs := s.node.rs;
    forall k | k in rs.prevotes ensures c.voteOk(rs.prevotes[k]) && rs.prevotes[k].ballot.voter == k {
      assert VoteOk(env, s.net, rs, PREVOTE, k, rs.prevotes[k]);
    }
    forall k | k in rs.precommits ensures c.voteOk(rs.precommits[k]) && rs.precommits[k].ballot.voter == k {
      assert VoteOk(env, s.net, rs, PRECOMMIT, k, rs.precommits[k]);
    }
    var a := rs.lastAttestation;
    forall v | v in a.votes ensures c.voteOk(v) && FitsAttestation(a, v) {
      assert Attestations.Fits(a, env.vs(a.height), env.voteOk, v);
    }
  }

  /** The proposal part of a snapshot is read back as Reload says. */
  lemma ProposalReread(b: P.BatchCoder, proposalOk: Proposal -> bool, voteOk: Vote -> bool, rs: RoundState)
    requires P.BatchLaw(b) && EncodeError(Coder(b, proposalOk, voteOk), rs).None?
    ensures Sizable(Coder(b, proposalOk, voteOk), rs.proposal)
    ensures Reread(Coder(b, proposalOk, voteOk), rs.proposal) ==
            if rs.proposal.None? then Parsed(None)
            else
              match Reload(b, proposalOk, rs.proposal.value)
              case None => Failed(Malformed)
              case Some(q) => Parsed(Some(q))
  {
    if rs.proposal.Some? { P.ProposalReload(b, rs.proposal.value); }
  }

  lemma RestoredIsReloaded(env: Env, rs: RoundState, p: Outcome<Option<Proposal>, Code>)
    requires rs.proposal.None? ==> p == Parsed(None)
    requires rs.proposal.Some? ==> p == match env.reload(rs.proposal.value) case None => Failed(Malformed) case Some(q) => Parsed(Some(q))
    ensures Restored(rs, p) == FromOption(Reloaded(env, Normal(rs)))
  {
  }

  /**
   * Whatever state a run of the engine reaches, the snapshot it writes decodes exactly as the step
   * system's restart assumes: to the state with its proposal reread, or not at all.
   */
  lemma ReachableStateRestored(env: Env, s: Local, b: P.BatchCoder, proposalOk: Proposal -> bool, pre: seq<Vote>, com: seq<Vote>)
    requires env.Valid() && NodeInv(env, s) && P.BatchLaw(b) && Reloads(env, b, proposalOk)
    requires EncodeError(Coder(b, proposalOk, env.voteOk), s.node.rs).None?
    requires Walk(s.node.rs.prevotes, pre) && Walk(s.node.rs.precommits, com)
    ensures Decode(Coder(b, proposalOk, env.voteOk), Snapshot(Coder(b, proposalOk, env.voteOk), s.node.rs, pre, com))
         == FromOption(Reloaded(env, Normal(s.node.rs)))
  {
    var rs, c := s.node.rs, Coder(b, proposalOk, env.voteOk);
    StoredVotesVerify(env, s, c);
    ProposalReread(b, proposalOk, env.voteOk, rs);
    SnapshotDecodes(c, rs, pre, com);
    RestoredIsReloaded(env, rs, Reread(c, rs.proposal));
  }

  /** Restored in full exactly when it has no proposal or a clean one below 65536 transactions that verifies. */
  lemma RestoredInFull(env: Env, s: Local, b: P.BatchCoder, proposalOk: Proposal -> bool, pre: seq<Vote>, com: seq<Vote>)
    requires env.Valid() && NodeInv(env, s) && P.BatchLaw(b) && Reloads(env, b, proposalOk)
    requires EncodeError(Coder(b, proposalOk, env.voteOk), s.node.rs).None?
    requires Walk(s.node.rs.prevotes, pre) && Walk(s.node.rs.precommits, com)
    ensures Decode(Coder(b, proposalOk, env.voteOk), Snapshot(Coder(b, proposalOk, env.voteOk), s.node.rs, pre, com))
              == Parsed(Normal(s.node.rs))
       <==> (s.node.rs.proposal.Some? ==>
               var p := s.node.rs.proposal.value;
               |p.txs| < P.MAX_TXS && P.Normal(b, p.txs) == p.txs && proposalOk(p))
  {
    ReachableStateRestored(env, s, b, proposalOk, pre, com);
    ReloadedInFull(env, b, proposalOk, Normal(s.node.rs));
  }

  lemma ReloadedInFull(env: Env, b: P.BatchCoder, proposalOk: Proposal -> bool, rs: RoundState)
    requires Reloads(env, b, proposalOk)
    ensures FromOption(Reloaded(env, rs)) == Parsed(rs)
       <==> (rs.proposal.Some? ==>
               var p := rs.proposal.value;
               |p.txs| < P.MAX_TXS && P.Normal(b, p.txs) == p.txs && proposalOk(p))
  {
  }

  /** Start, from what was decoded: a state of the next height, or a fresh one. */
  function StartedFrom(chain: seq<Commit>, o: Outcome<RoundState, Code>): RoundState
    requires |chain| + 1 < U64
  {
    if o.Parsed? && o.value.height == |chain| + 1 then o.value else NewRoundState(|chain| + 1)
  }

  /** Start, from the bytes on disk. */
  function Started(c: Codec, chain: seq<Commit>, raw: Bytes): RoundState
    requires |chain| + 1 < U64
  {
    if raw == [] then NewRoundState(|chain| + 1) else StartedFrom(chain, Decode(c, raw))
  }

  lemma SnapshotNotEmpty(c: Codec, rs: RoundState, pre: seq<Vote>, com: seq<Vote>)
    requires -0x8000_0000 <= rs.lockedRound < 0x8000_0000
    ensures Snapshot(c, rs, pre, com) != []
  {
    var rest := CountedVotes(pre) + (CountedVotes(com) + Sized(AttestationPart(rs.lastAttestation)));
    HeadFields(rs, Sized(ProposalPart(c, rs.proposal)) + rest);
  }

  lemma DecodedIsResume(env: Env, disk: Disk, o: Outcome<RoundState, Code>)
    requires disk.snapshot.Some? && |disk.chain| + 1 < U64 && o == FromOption(Reloaded(env, disk.snapshot.value))
    ensures StartedFrom(disk.chain, o) == Resume(env, disk) && !o.Panicked?
  {
  }

  /**
   * Restarting from the bytes a reachable state was saved as is the restart of the step system:
   * no crash run is left out, and decoding never panics.
   */
  lemma RestartIsResume(env: Env, s: Local, disk: Disk, b: P.BatchCoder, proposalOk: Proposal -> bool, pre: seq<Vote>, com: seq<Vote>)
    requires env.Valid() && NodeInv(env, s) && P.BatchLaw(b) && Reloads(env, b, proposalOk)
    requires EncodeError(Coder(b, proposalOk, env.voteOk), s.node.rs).None?
    requires Walk(s.node.rs.prevotes, pre) && Walk(s.node.rs.precommits, com)
    requires disk.snapshot == Some(Normal(s.node.rs)) && |disk.chain| + 1 < U64
    ensures var c := Coder(b, proposalOk, env.voteOk);
            var raw := Snapshot(c, s.node.rs, pre, com);
            Started(c, disk.chain, raw) == Resume(env, disk) && !Decode(c, raw).Panicked?
  {
    var c := Coder(b, proposalOk, env.voteOk);
    ReachableStateRestored(env, s, b, proposalOk, pre, com);
    SnapshotNotEmpty(c, s.node.rs, pre, com);
    DecodedIsResume(env, disk, Decode(c, Snapshot(c, s.node.rs, pre, com)));
  }
}

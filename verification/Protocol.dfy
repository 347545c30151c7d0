/**
 * The consensus round machine as a step system. One step makes at most one durable write,
 * so a crash between any two steps is a crash at any point of a handler.
 * Engine.dfy proves that the handlers of core/consensus/consensus.go take only these steps.
 */
module Protocol {
  import opened Wrappers
  import opened Bytes
  import opened Messages
  import opened Quorum
  import Attestations

  datatype Phase = Propose | Prevoting | Precommitting | Committing {
    function Rank(): nat {
      match this
      case Propose => 1
      case Prevoting => 2
      case Precommitting => 3
      case Committing => 4
    }
  }

  datatype RoundState = RoundState(
    height: u64,
    round: u32,
    phase: Phase,
    proposal: Option<Proposal>,
    prevotes: map<Key, Vote>,
    precommits: map<Key, Vote>,
    lockedBlock: Option<Bytes32>,
    lockedRound: int,
    lastAttestation: Attestation)

  function NewRoundState(height: u64): RoundState {
    RoundState(height, 0, Propose, None, map[], map[], None, -1, EMPTY_ATTESTATION)
  }

  /** The uint32 round counter wraps. */
  function NextRoundNumber(round: u32): u32 {
    (round + 1) % U32
  }

  function IncrementRound(rs: RoundState): RoundState {
    rs.(round := NextRoundNumber(rs.round), phase := Propose, proposal := None, prevotes := map[], precommits := map[])
  }

  /** int32(round): rounds of 2^31 and above turn negative. */
  function ToInt32(round: u32): int {
    if round < 0x8000_0000 then round else round - U32
  }

  function Lock(rs: RoundState, block: Bytes32): RoundState {
    rs.(lockedBlock := Some(block), lockedRound := ToInt32(rs.round))
  }

  function Unlock(rs: RoundState): RoundState {
    rs.(lockedBlock := None, lockedRound := -1)
  }

  /** startNextRound: the new height keeps the old locked round but no locked block. */
  function NextHeight(rs: RoundState, att: Attestation): RoundState
    requires rs.height + 1 < U64
  {
    rs.(height := rs.height + 1, round := 0, phase := Propose, proposal := None, prevotes := map[],
        precommits := map[], lockedBlock := None, lastAttestation := att)
  }

  /** What the snapshot codec gives back: an unlocked state reads as locked round -1. */
  function Normal(rs: RoundState): RoundState {
    if rs.lockedBlock.None? then rs.(lockedRound := -1) else rs
  }

  datatype Slot = Slot(height: u64, round: u32, kind: byte)

  /** A block applied to the ledger: the round it was decided in, its hash, its content. */
  datatype Commit = Commit(round: u32, block: Bytes32, proposal: Proposal)

  /** What survives a crash. chain[i] is the block committed at height i + 1. */
  datatype Disk = Disk(slots: map<Slot, Bytes32>, snapshot: Option<RoundState>, chain: seq<Commit>)

  datatype Node = Node(rs: RoundState, disk: Disk)

  /** One node together with every ballot anybody has validly signed so far. */
  datatype Local = Local(node: Node, net: set<Ballot>)

  /** The code the engine calls but the model does not open. Validators are those of the height. */
  datatype Env = Env(
    vs: u64 -> Validators,                   // BondedAmounts once the height before is applied
    hash: Proposal -> Bytes32,               // BlockHashForChain
    root: seq<Commit> -> Bytes32,            // CurrentStateRoot
    applies: (seq<Commit>, Proposal) -> bool, // ApplyBlockForChain succeeds
    leader: (Bytes32, u64, u32) -> Option<Key>, // leader.SkipProposer
    id: WireTx -> Option<Bytes32>,           // tx.ID
    encodes: Proposal -> bool,               // SerializeProposal succeeds
    reload: Proposal -> Option<Proposal>,    // what deserializeOptionalProposal makes of a stored proposal
    voteOk: Vote -> bool)                    // VerifyVoteForChain
  {
    ghost predicate Valid() {
      forall h :: vs(h).Valid()
    }
  }

  datatype Action =
    | StoreVote(vote: Vote)
    | SaveSnapshot
    | EnterPrevote(adopted: Option<Proposal>)
    | CastPrevote(block: Bytes32, kept: bool, released: bool)
    | EnterPrecommit(lock: Option<Bytes32>)
    | CastPrecommit(block: Bytes32, kept: bool, released: bool)
    | EnterCommit(block: Bytes32)
    | Apply(block: Bytes32)
    | ClearSnapshot
    | AdvanceHeight(att: Attestation)
    | AdvanceRound(unlock: bool)
    | Crash
    | Overhear(heard: set<Ballot>)

  function MySlot(rs: RoundState, kind: byte): Slot {
    Slot(rs.height, rs.round, kind)
  }

  function MyBallot(self: Key, rs: RoundState, kind: byte, block: Bytes32): Ballot {
    Ballot(kind, rs.height, rs.round, block, self)
  }

  /** decodeRoundState of a stored round state: its proposal is read back and verified anew. */
  function Reloaded(env: Env, rs: RoundState): Option<RoundState> {
    if rs.proposal.None? then Some(rs)
    else
      match env.reload(rs.proposal.value)
      case None => None
      case Some(p) => Some(rs.(proposal := Some(p)))
  }

  /** Start: the snapshot is used only when it decodes and belongs to the next height. */
  function Resume(env: Env, disk: Disk): RoundState
    requires |disk.chain| + 1 < U64
  {
    var blank := NewRoundState(|disk.chain| + 1);
    if disk.snapshot.None? then blank
    else
      match Reloaded(env, disk.snapshot.value)
      case None => blank
      case Some(rs) => if rs.height == |disk.chain| + 1 then rs else blank
  }

  /** The lock rule: nil, or the adopted block unless locked on another one proposed by somebody else. */
  ghost predicate MayPrevote(env: Env, self: Key, rs: RoundState, block: Bytes32) {
    || block == NIL
    || (&& rs.proposal.Some? && block == env.hash(rs.proposal.value)
        && (rs.lockedBlock == None || rs.lockedBlock == Some(block) || rs.proposal.value.proposer == self))
  }

  ghost predicate MayPrecommit(env: Env, rs: RoundState, block: Bytes32)
    requires env.Valid()
  {
    block == NIL || IsQuorum(env.vs(rs.height), Backers(rs.prevotes, block))
  }

  /** The proposal is for this height and round, on this parent, by the elected proposer. */
  ghost predicate Elected(env: Env, n: Node, p: Proposal) {
    && p.height == n.rs.height && p.round == n.rs.round
    && p.prevRoot == env.root(n.disk.chain)
    && env.leader(p.prevRoot, p.height, p.round) == Some(p.proposer)
  }

  /**
   * Casting a vote writes its free slot and then releases the ballot. RecordConsensusVote does not
   * report a failed commit, so the ballot can get out without the slot, and the slot without it.
   */
  ghost predicate Casts(self: Key, s: Local, kind: byte, block: Bytes32, kept: bool, released: bool, s': Local) {
    var slot := MySlot(s.node.rs, kind);
    && slot !in s.node.disk.slots
    && s'.node == (if kept then s.node.(disk := s.node.disk.(slots := s.node.disk.slots[slot := block])) else s.node)
    && s'.net == if released then s.net + {MyBallot(self, s.node.rs, kind, block)} else s.net
  }

  ghost predicate NoneBy(self: Key, heard: set<Ballot>) {
    forall b :: b in heard ==> b.voter != self
  }

  /** A first, verified vote of a validator for this height and round is filed under its voter. */
  ghost predicate Stores(env: Env, s: Local, v: Vote, s': Local) {
    && s'.net == s.net && env.voteOk(v) && v.ballot in s.net && v.ballot.voter in env.vs(s.node.rs.height).keys
    && v.ballot.height == s.node.rs.height && v.ballot.round == s.node.rs.round
    && ((&& v.ballot.kind == PREVOTE && v.ballot.voter !in s.node.rs.prevotes
         && s'.node == s.node.(rs := s.node.rs.(prevotes := s.node.rs.prevotes[v.ballot.voter := v])))
        || (&& v.ballot.kind == PRECOMMIT && v.ballot.voter !in s.node.rs.precommits
            && s'.node == s.node.(rs := s.node.rs.(precommits := s.node.rs.precommits[v.ballot.voter := v]))))
  }

  /** The same disk, another round state. */
  function Moved(s: Local, rs: RoundState): Local {
    s.(node := s.node.(rs := rs))
  }

  /** The same round state, another disk. */
  function Written(s: Local, disk: Disk): Local {
    s.(node := s.node.(disk := disk))
  }

  ghost predicate Applies(env: Env, rs: RoundState, disk: Disk, block: Bytes32)
    requires env.Valid()
  {
    && rs.phase == Committing && block != NIL && IsQuorum(env.vs(rs.height), Backers(rs.precommits, block))
    && rs.height == |disk.chain| + 1
    && rs.proposal.Some? && env.hash(rs.proposal.value) == block
    && env.encodes(rs.proposal.value) && env.applies(disk.chain, rs.proposal.value)
  }

  ghost predicate Step(env: Env, self: Key, s: Local, a: Action, s': Local)
    requires env.Valid()
  {
    match a
    case StoreVote(v) =>
      Stores(env, s, v, s')
    case SaveSnapshot =>
      s.node.rs.phase != Committing && s' == Written(s, s.node.disk.(snapshot := Some(Normal(s.node.rs))))
    case EnterPrevote(p) =>
      && s.node.rs.phase == Propose && (p.Some? ==> Elected(env, s.node, p.value))
      && s' == Moved(s, s.node.rs.(phase := Prevoting, proposal := if p.Some? then p else s.node.rs.proposal))
    case CastPrevote(block, kept, released) =>
      && s.node.rs.phase == Prevoting && MayPrevote(env, self, s.node.rs, block)
      && Casts(self, s, PREVOTE, block, kept, released, s')
    case EnterPrecommit(lock) =>
      && s.node.rs.phase == Prevoting
      && (lock.Some? ==> IsQuorum(env.vs(s.node.rs.height), Backers(s.node.rs.prevotes, lock.value)))
      && s' == Moved(s, (if lock.Some? then Lock(s.node.rs, lock.value) else s.node.rs).(phase := Precommitting))
    case CastPrecommit(block, kept, released) =>
      && s.node.rs.phase == Precommitting && MayPrecommit(env, s.node.rs, block)
      && Casts(self, s, PRECOMMIT, block, kept, released, s')
    case EnterCommit(block) =>
      && s.node.rs.phase == Precommitting && block != NIL && IsQuorum(env.vs(s.node.rs.height), Backers(s.node.rs.precommits, block))
      && s' == Moved(s, s.node.rs.(phase := Committing))
    case Apply(block) =>
      && Applies(env, s.node.rs, s.node.disk, block)
      && s' == Written(s, s.node.disk.(chain := s.node.disk.chain
                                      + [Commit(s.node.rs.round, block, s.node.rs.proposal.value)]))
    case ClearSnapshot =>
      s' == Written(s, s.node.disk.(snapshot := None))
    case AdvanceHeight(att) =>
      && s.node.rs.phase == Committing && 0 < s.node.rs.height == |s.node.disk.chain| && s.node.rs.height + 1 < U64
      && Attestations.AttestationOf(att, s.node.rs.precommits, s.node.disk.chain[s.node.rs.height - 1].block)
      && s' == Moved(s, NextHeight(s.node.rs, att))
    case AdvanceRound(unlock) =>
      && s.node.rs.height == |s.node.disk.chain| + 1
      && s' == Moved(s, IncrementRound(if unlock then Unlock(s.node.rs) else s.node.rs))
    case Crash =>
      |s.node.disk.chain| + 1 < U64 && s' == Moved(s, Resume(env, s.node.disk))
    case Overhear(heard) =>
      NoneBy(self, heard) && s' == s.(net := s.net + heard)
  }

  // ---------------------------------------------------------------- what one node keeps

  ghost predicate VoteOk(env: Env, net: set<Ballot>, rs: RoundState, kind: byte, k: Key, v: Vote) {
    && v.ballot.kind == kind && v.ballot.voter == k && k in env.vs(rs.height).keys && v.ballot in net && env.voteOk(v)
    && v.ballot.height == rs.height && v.ballot.round == rs.round
  }

  /** Stored votes verify, were signed, and belong to the current height, round, type and key. */
  ghost predicate VotesOk(env: Env, net: set<Ballot>, rs: RoundState) {
    && (forall k :: k in rs.prevotes ==> VoteOk(env, net, rs, PREVOTE, k, rs.prevotes[k]))
    && (forall k :: k in rs.precommits ==> VoteOk(env, net, rs, PRECOMMIT, k, rs.precommits[k]))
  }

  /** The attestation a node carries is of the height before and passes under its validators, or there is none yet. */
  ghost predicate AttestationOk(env: Env, a: Attestation, height: u64)
    requires env.Valid()
  {
    a == EMPTY_ATTESTATION || (a.height + 1 == height && Attestations.Accepts(a, env.vs(a.height), env.voteOk))
  }

  ghost predicate RoundOk(env: Env, net: set<Ballot>, rs: RoundState)
    requires env.Valid()
  {
    && VotesOk(env, net, rs) && (rs.phase == Propose ==> rs.proposal == None)
    && AttestationOk(env, rs.lastAttestation, rs.height)
    && -0x8000_0000 <= rs.lockedRound < 0x8000_0000
  }

  /** The engine is one height ahead of the ledger, except between a commit and the next height. */
  ghost predicate HeightOk(env: Env, n: Node)
    requires env.Valid()
  {
    || n.rs.height == |n.disk.chain| + 1
    || (&& n.rs.phase == Committing && 0 < n.rs.height == |n.disk.chain|
        && IsQuorum(env.vs(n.rs.height), Backers(n.rs.precommits, n.disk.chain[n.rs.height - 1].block)))
  }

  ghost predicate NodeInv(env: Env, s: Local)
    requires env.Valid()
  {
    && RoundOk(env, s.net, s.node.rs)
    && HeightOk(env, s.node)
    && (s.node.disk.snapshot.Some? ==>
          RoundOk(env, s.net, s.node.disk.snapshot.value) && s.node.disk.snapshot.value.phase != Committing)
  }

  lemma RoundOkMonotone(env: Env, net: set<Ballot>, net': set<Ballot>, rs: RoundState)
    requires env.Valid() && RoundOk(env, net, rs) && net <= net'
    ensures RoundOk(env, net', rs)
  {
  }

  /** Only the phase and the locked or adopted block differ: the stored votes stay good. */
  lemma RoundOkSameVotes(env: Env, net: set<Ballot>, rs: RoundState, rs': RoundState)
    requires env.Valid() && RoundOk(env, net, rs)
    requires rs'.height == rs.height && rs'.round == rs.round && rs'.lastAttestation == rs.lastAttestation
    requires rs'.prevotes == rs.prevotes && rs'.precommits == rs.precommits
    requires rs'.phase == Propose ==> rs'.proposal == None
    requires -0x8000_0000 <= rs'.lockedRound < 0x8000_0000
    ensures RoundOk(env, net, rs')
  {
  }

  lemma VotesOkStore(env: Env, s: Local, v: Vote, s': Local)
    requires VotesOk(env, s.net, s.node.rs) && Stores(env, s, v, s')
    ensures VotesOk(env, s.net, s'.node.rs)
  {
    var rs, rs' := s.node.rs, s'.node.rs;
    forall k | k in rs'.prevotes ensures VoteOk(env, s.net, rs', PREVOTE, k, rs'.prevotes[k]) {
      assert k in rs.prevotes ==> VoteOk(env, s.net, rs, PREVOTE, k, rs.prevotes[k]);
    }
    forall k | k in rs'.precommits ensures VoteOk(env, s.net, rs', PRECOMMIT, k, rs'.precommits[k]) {
      assert k in rs.precommits ==> VoteOk(env, s.net, rs, PRECOMMIT, k, rs.precommits[k]);
    }
  }

  lemma RoundOkStore(env: Env, self: Key, s: Local, v: Vote, s': Local)
    requires env.Valid() && RoundOk(env, s.net, s.node.rs) && Step(env, self, s, StoreVote(v), s')
    ensures RoundOk(env, s'.net, s'.node.rs)
    ensures HeightOk(env, s.node) ==> HeightOk(env, s'.node)
  {
    var rs, rs' := s.node.rs, s'.node.rs;
    VotesOkStore(env, s, v, s');
    if 0 < rs.height == |s.node.disk.chain| {
      var b := s.node.disk.chain[rs.height - 1].block;
      StakeMonotone(env.vs(rs.height), Backers(rs.precommits, b), Backers(rs'.precommits, b), |env.vs(rs.height).keys|);
    }
  }

  /** A quorum of stored precommits makes an attestation of this height that verifies. */
  lemma AttestationHolds(env: Env, net: set<Ballot>, rs: RoundState, att: Attestation, block: Bytes32)
    requires env.Valid() && VotesOk(env, net, rs)
    requires Attestations.AttestationOf(att, rs.precommits, block)
    requires IsQuorum(env.vs(rs.height), Backers(rs.precommits, block))
    ensures att.height == rs.height && att.round == rs.round
    ensures Attestations.Accepts(att, env.vs(rs.height), env.voteOk)
  {
    forall k | k in rs.precommits ensures VoteOk(env, net, rs, PRECOMMIT, k, rs.precommits[k]) {}
    Attestations.CommitAttestationAccepted(att, rs.precommits, block, env.vs(rs.height), rs.height, rs.round, env.voteOk);
  }

  lemma SnapshotStaysOk(env: Env, self: Key, s: Local, a: Action, s': Local)
    requires env.Valid() && NodeInv(env, s) && Step(env, self, s, a, s')
    requires s'.node.disk.snapshot.Some?
    ensures RoundOk(env, s'.net, s'.node.disk.snapshot.value) && s'.node.disk.snapshot.value.phase != Committing
  {
    if s.node.disk.snapshot == s'.node.disk.snapshot {
      RoundOkMonotone(env, s.net, s'.net, s'.node.disk.snapshot.value);
    } else {
      RoundOkSameVotes(env, s.net, s.node.rs, s'.node.disk.snapshot.value);
    }
  }

  lemma RoundStaysOk(env: Env, self: Key, s: Local, a: Action, s': Local)
    requires env.Valid() && NodeInv(env, s) && Step(env, self, s, a, s')
    ensures RoundOk(env, s'.net, s'.node.rs) && HeightOk(env, s'.node)
  {
    match a
    case StoreVote(v) => RoundOkStore(env, self, s, v, s');
    case AdvanceHeight(att) =>
      AttestationHolds(env, s.net, s.node.rs, att, s.node.disk.chain[s.node.rs.height - 1].block);
    case AdvanceRound(unlock) =>
    case Crash =>
    case _ =>
      RoundOkSameVotes(env, s.net, s.node.rs, s'.node.rs);
      RoundOkMonotone(env, s.net, s'.net, s'.node.rs);
  }

  /** Every step, crashes included, keeps the node's invariant. */
  lemma StepKeepsNodeInv(env: Env, self: Key, s: Local, a: Action, s': Local)
    requires env.Valid() && NodeInv(env, s) && Step(env, self, s, a, s')
    ensures NodeInv(env, s') && s.net <= s'.net
  {
    RoundStaysOk(env, self, s, a, s');
    if s'.node.disk.snapshot.Some? { SnapshotStaysOk(env, self, s, a, s'); }
  }

  // ---------------------------------------------------------------- progress never runs backwards

  ghost predicate NotBehind(rs: RoundState, rs': RoundState) {
    || rs.height < rs'.height
    || (rs.height == rs'.height && rs.round < rs'.round)
    || (rs.height == rs'.height && rs.round == rs'.round && rs.phase.Rank() <= rs'.phase.Rank())
  }

  /** The step does not push the uint32 round counter over its end, and is not a restart. */
  ghost predicate Forward(s: Local, a: Action) {
    && a != Crash
    && (a.AdvanceRound? ==> s.node.rs.round + 1 < U32)
  }

  /** (height, round, phase) grows along every step but a restart and the wrap of the counter. */
  lemma StepForward(env: Env, self: Key, s: Local, a: Action, s': Local)
    requires env.Valid() && Step(env, self, s, a, s')
    requires a != Crash
    ensures NotBehind(s.node.rs, s'.node.rs) <==> Forward(s, a)
  {
  }

  /** A run: where it starts, and each action taken with the state it leads to. */
  datatype Entry = Entry(act: Action, after: Local)

  ghost function Last(origin: Local, trail: seq<Entry>): Local {
    if trail == [] then origin else trail[|trail| - 1].after
  }

  ghost predicate IsRun(env: Env, self: Key, origin: Local, trail: seq<Entry>)
    requires env.Valid()
  {
    trail == [] ||
    (var m := |trail| - 1;
     && IsRun(env, self, origin, trail[..m])
     && Step(env, self, Last(origin, trail[..m]), trail[m].act, trail[m].after))
  }

  ghost predicate AllForward(origin: Local, trail: seq<Entry>) {
    trail == [] ||
    (var m := |trail| - 1;
     AllForward(origin, trail[..m]) && Forward(Last(origin, trail[..m]), trail[m].act))
  }

  lemma {:induction false} RunForward(env: Env, self: Key, origin: Local, trail: seq<Entry>)
    requires env.Valid() && IsRun(env, self, origin, trail) && AllForward(origin, trail)
    ensures NotBehind(origin.node.rs, Last(origin, trail).node.rs)
  {
    if trail != [] {
      var m := |trail| - 1;
      RunForward(env, self, origin, trail[..m]);
      StepForward(env, self, Last(origin, trail[..m]), trail[m].act, trail[m].after);
    }
  }

  lemma {:induction false} RunKeepsNodeInv(env: Env, self: Key, origin: Local, trail: seq<Entry>)
    requires env.Valid() && IsRun(env, self, origin, trail) && NodeInv(env, origin)
    ensures NodeInv(env, Last(origin, trail)) && origin.net <= Last(origin, trail).net
  {
    if trail != [] {
      var m := |trail| - 1;
      RunKeepsNodeInv(env, self, origin, trail[..m]);
      StepKeepsNodeInv(env, self, Last(origin, trail[..m]), trail[m].act, trail[m].after);
    }
  }

  lemma RunExtend(env: Env, self: Key, origin: Local, trail: seq<Entry>, a: Action, s: Local)
    requires env.Valid() && IsRun(env, self, origin, trail) && Step(env, self, Last(origin, trail), a, s)
    ensures IsRun(env, self, origin, trail + [Entry(a, s)])
  {
    assert (trail + [Entry(a, s)])[..|trail|] == trail;
  }
}

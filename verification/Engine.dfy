/**
 * The handlers of core/consensus/consensus.go. Each one is proved to take only steps of
 * Protocol (the ghost run records them), to leave the engine idle one height ahead of the
 * ledger, and to terminate, including the recursion from handleVote through restartRound
 * and broadcastProposal back to handleVote.
 */
module ConsensusEngine {
  import opened Wrappers
  import opened Bytes
  import opened Messages
  import opened Quorum
  import opened Attestations
  import opened Protocol
  import opened Mempool

  /** Every vote slot there is: uint64 height, uint32 round, uint8 type. */
  ghost function AllSlots(): set<Slot> {
    set h: int, r: int, k: int | 0 <= h < U64 && 0 <= r < U32 && 0 <= k < 256 :: Slot(h, r, k)
  }

  ghost predicate VotesFor(votes: map<Key, Vote>, b: Bytes32) {
    forall k :: k in votes ==> votes[k].ballot.block == b
  }

  /** When every stored vote names b, a quorum of voters is a quorum for b. */
  lemma UnanimousQuorum(vs: Validators, votes: map<Key, Vote>, b: Bytes32)
    requires vs.Valid() && VotesFor(votes, b) && IsQuorum(vs, votes.Keys)
    ensures IsQuorum(vs, Backers(votes, b))
  {
    assert Backers(votes, b) == votes.Keys;
  }

  /** An empty block on top of this chain applies and does not hash to the nil hash. */
  ghost predicate Tame(env: Env, c: seq<Commit>) {
    forall p: Proposal :: p.txs == [] && p.height == |c| + 1 && p.prevRoot == env.root(c) ==> env.applies(c, p) && env.hash(p) != NIL
  }

  /** The node decides its own block: its proposal is the pool's batch and every stored vote is for it. */
  ghost predicate SelfDecided(env: Env, n: Node, pool: seq<WireTx>) {
    && n.rs.proposal.Some?
    && var p := n.rs.proposal.value;
       && p.txs == Batch(pool) && env.encodes(p)
       && p.height == |n.disk.chain| + 1 && p.prevRoot == env.root(n.disk.chain)
       && VotesFor(n.rs.prevotes, env.hash(p)) && VotesFor(n.rs.precommits, env.hash(p))
  }

  /** Retries beyond the length of the pool: none when the node decides its own block. */
  ghost function Spare(env: Env, n: Node, pool: seq<WireTx>): nat {
    if SelfDecided(env, n, pool) then 0 else 1
  }

  /** A released ballot uses up a free slot, or one of the commits that fail. */
  ghost predicate Spends(slots: map<Slot, Bytes32>, faults: nat, slots': map<Slot, Bytes32>, faults': nat, slot: Slot, block: Bytes32) {
    slot !in slots && ((slots' == slots[slot := block] && faults' == faults) || (slots' == slots && faults' < faults))
  }

  lemma SpendingEnds(slots: map<Slot, Bytes32>, faults: nat, slots': map<Slot, Bytes32>, faults': nat, slot: Slot, block: Bytes32)
    requires Spends(slots, faults, slots', faults', slot, block)
    ensures faults' < faults || (faults' == faults && AllSlots() - slots'.Keys < AllSlots() - slots.Keys)
  {
    assert slot in AllSlots() - slots.Keys;
    assert slot !in AllSlots() - slots[slot := block].Keys;
  }

  /** The conditions under which handleVote stores a vote at all. */
  ghost predicate Admits(env: Env, rs: RoundState, v: Vote) {
    && v.ballot.height == rs.height && v.ballot.round == rs.round && env.voteOk(v) && v.ballot.voter in env.vs(rs.height).keys
    && ((v.ballot.kind == PREVOTE && v.ballot.voter !in rs.prevotes)
        || (v.ballot.kind == PRECOMMIT && v.ballot.voter !in rs.precommits))
  }

  function Stored(rs: RoundState, v: Vote): RoundState {
    if v.ballot.kind == PREVOTE then rs.(prevotes := rs.prevotes[v.ballot.voter := v])
    else rs.(precommits := rs.precommits[v.ballot.voter := v])
  }

  /** The stored vote completes the quorum the current phase waits for. */
  ghost predicate Completes(env: Env, rs: RoundState, v: Vote)
    requires env.Valid()
  {
    || (v.ballot.kind == PREVOTE && rs.phase == Prevoting && IsQuorum(env.vs(rs.height), Stored(rs, v).prevotes.Keys))
    || (v.ballot.kind == PRECOMMIT && rs.phase == Precommitting && IsQuorum(env.vs(rs.height), Stored(rs, v).precommits.Keys))
  }

  /** A quorum of stored prevotes names block b. */
  ghost predicate Wins(env: Env, rs: RoundState, b: Bytes32)
    requires env.Valid()
  {
    IsQuorum(env.vs(rs.height), Backers(rs.prevotes, b))
  }

  lemma OnlyWinner(env: Env, rs: RoundState, b: Bytes32)
    requires env.Valid() && Wins(env, rs, b)
    ensures forall c :: Wins(env, rs, c) ==> c == b
  {
    forall c | Wins(env, rs, c) ensures c == b { OneQuorumBlock(env.vs(rs.height), rs.prevotes, b, c); }
  }

  /** A quorum of stored precommits names block b, not nil. */
  ghost predicate Chosen(env: Env, rs: RoundState, b: Bytes32)
    requires env.Valid()
  {
    b != NIL && IsQuorum(env.vs(rs.height), Backers(rs.precommits, b))
  }

  /** The adopted proposal is block b, encodes and applies. */
  ghost predicate Appliable(env: Env, n: Node, b: Bytes32) {
    && n.rs.proposal.Some? && env.hash(n.rs.proposal.value) == b
    && env.encodes(n.rs.proposal.value) && env.applies(n.disk.chain, n.rs.proposal.value)
  }

  /** A node that decides its own block chooses it, and can apply it if it is empty. */
  lemma OwnBlockChosen(env: Env, n: Node, pool: seq<WireTx>, choice: Option<Bytes32>)
    requires env.Valid() && Tame(env, n.disk.chain) && SelfDecided(env, n, pool) && IsQuorum(env.vs(n.rs.height), n.rs.precommits.Keys)
    requires choice.Some? ==> Chosen(env, n.rs, choice.value)
    requires choice.None? ==> forall b :: !Chosen(env, n.rs, b)
    ensures Batch(pool) == [] ==> choice.Some? && Appliable(env, n, choice.value)
  {
    if Batch(pool) == [] {
      var own := env.hash(n.rs.proposal.value);
      UnanimousQuorum(env.vs(n.rs.height), n.rs.precommits, own);
      assert Chosen(env, n.rs, own);
      OneQuorumBlock(env.vs(n.rs.height), n.rs.precommits, own, choice.value);
    }
  }

  lemma HeightStep(env: Env, self: Key, s: Local, att: Attestation)
    requires env.Valid() && s.node.rs.phase == Committing && 0 < s.node.rs.height == |s.node.disk.chain| && s.node.rs.height + 1 < U64
    requires AttestationOf(att, s.node.rs.precommits, s.node.disk.chain[s.node.rs.height - 1].block)
    ensures Step(env, self, s, AdvanceHeight(att), Moved(s, NextHeight(s.node.rs, att)))
  {
  }

  /** Nothing entered the pool. */
  ghost predicate Within(pool: seq<WireTx>, before: seq<WireTx>) {
    forall t :: t in pool ==> t in before
  }

  /** The i-th step casts a prevote for this block, whether or not its slot is kept and the vote gets out. */
  ghost predicate Prevoted(trail: seq<Entry>, i: nat, block: Bytes32) {
    i < |trail| && trail[i].act.CastPrevote? && trail[i].act.block == block
  }

  /**
   * The proposal is adopted at step i and, its slot being free, prevoted at the next step or the
   * one after a snapshot. Nothing looks at the lock.
   */
  ghost predicate Offered(env: Env, trail: seq<Entry>, i: nat, p: Proposal, slots: map<Slot, Bytes32>) {
    && i < |trail| && trail[i].act == EnterPrevote(Some(p))
    && (Slot(p.height, p.round, PREVOTE) !in slots ==>
          || Prevoted(trail, i + 1, env.hash(p))
          || (i + 1 < |trail| && trail[i + 1].act == SaveSnapshot && Prevoted(trail, i + 2, env.hash(p))))
  }

  lemma OfferedStays(env: Env, trail: seq<Entry>, longer: seq<Entry>, i: nat, p: Proposal, slots: map<Slot, Bytes32>)
    requires trail <= longer && Offered(env, trail, i, p, slots)
    ensures Offered(env, longer, i, p, slots)
  {
  }

  class Engine {
    const env: Env
    const self: Key
    var rs: RoundState
    var disk: Disk
    var pool: seq<WireTx>
    ghost var net: set<Ballot>
    ghost var origin: Local
    ghost var trail: seq<Entry>
    ghost var retries: nat
    var faults: nat // how many more slot commits fail under a released ballot: any number

    ghost function Here(): Local
      reads this
    {
      Local(Node(rs, disk), net)
    }

    /** The trail leads from the origin to the last recorded state by steps of the protocol. */
    ghost predicate Recorded()
      reads this
    {
      && env.Valid() && IsRun(env, self, origin, trail)
      && NodeInv(env, Last(origin, trail))
      && Fifo(env.id, pool)
    }

    ghost predicate Valid()
      reads this
    {
      Recorded() && Last(origin, trail) == Here() && |disk.chain| + 2 < U64
    }

    /** The i-th recorded step is this one. */
    ghost predicate Took(i: nat, act: Action)
      reads this
    {
      i < |trail| && trail[i].act == act
    }

    /** The i-th recorded step is this one and leads to this round state. */
    ghost predicate TookTo(i: nat, act: Action, after: RoundState)
      reads this
    {
      Took(i, act) && trail[i].after.node.rs == after
    }

    /** The i-th recorded step casts this vote, whether or not its slot is kept and the vote gets out. */
    ghost predicate TookCast(i: nat, kind: byte, block: Bytes32)
      reads this
    {
      && i < |trail| && (if kind == PREVOTE then trail[i].act.CastPrevote? else trail[i].act.CastPrecommit?)
      && trail[i].act.block == block
    }

    /** Between events: never in the commit phase, one height ahead of the ledger. */
    ghost predicate Idle()
      reads this
    {
      Valid() && rs.phase != Committing
    }

    /** The uint64 height counter has room for another block. */
    ghost predicate Room()
      reads this
    {
      |disk.chain| + 3 < U64
    }

    constructor (env: Env, self: Key, disk: Disk, pool: seq<WireTx>, faults: nat, ghost net: set<Ballot>)
      requires env.Valid() && |disk.chain| + 2 < U64 && Fifo(env.id, pool)
      requires NodeInv(env, Local(Node(Resume(env, disk), disk), net))
      ensures Idle() && this.env == env && this.self == self && this.disk == disk && rs == Resume(env, disk)
      ensures trail == [] && this.net == net && this.pool == pool && this.faults == faults
    {
      this.env, this.self, this.disk, this.pool, this.faults, this.net := env, self, disk, pool, faults, net;
      rs := Resume(env, disk);
      retries, trail := 0, [];
      origin := Local(Node(Resume(env, disk), disk), net);
    }

    ghost method Log(a: Action)
      requires Recorded() && Step(env, self, Last(origin, trail), a, Here()) && |disk.chain| + 2 < U64
      modifies this`trail
      ensures Valid() && trail == old(trail) + [Entry(a, Here())]
    {
      StepKeepsNodeInv(env, self, Last(origin, trail), a, Here());
      RunExtend(env, self, origin, trail, a, Here());
      trail := trail + [Entry(a, Here())];
    }

    /** Other nodes' ballots become known; this node's own key signs only in its own steps. */
    ghost method Hear(heard: set<Ballot>)
      requires Idle() && NoneBy(self, heard)
      modifies this`net, this`trail
      ensures Idle() && net == old(net) + heard && old(trail) <= trail
    {
      net := net + heard;
      Log(Overhear(heard));
    }

    /** persistRoundState: a failed write is ignored. */
    method Save()
      requires Idle()
      modifies this`disk, this`trail
      ensures Idle() && old(trail) <= trail
      ensures disk == old(disk) || disk == old(disk).(snapshot := Some(Normal(rs)))
      ensures trail == old(trail) || (Took(|old(trail)|, SaveSnapshot) && |trail| == |old(trail)| + 1)
    {
      if * {
        disk := disk.(snapshot := Some(Normal(rs)));
        Log(SaveSnapshot);
      }
    }

    /**
     * RecordConsensusVote: refuses a taken slot. A failed write refuses too, but the error of a failed
     * commit is discarded and the vote goes ahead without its slot.
     */
    method RecordVote(slot: Slot, block: Bytes32) returns (accepted: bool)
      modifies this`disk, this`faults
      ensures slot in old(disk.slots) ==> !accepted
      ensures accepted ==> Spends(old(disk.slots), old(faults), disk.slots, faults, slot, block)
      ensures disk == old(disk) || disk == old(disk).(slots := old(disk.slots)[slot := block])
      ensures !accepted ==> disk == old(disk) && faults == old(faults)
    {
      if slot in disk.slots { return false; }
      var put, committed: bool := *, *;
      if !put { return false; }
      if !committed && faults > 0 {
        faults := faults - 1;
      } else {
        disk := disk.(slots := disk.slots[slot := block]);
      }
      return true;
    }

    /** The slot is recorded first; signing or serialising may then still fail. */
    method BroadcastPrevote(block: Bytes32) returns (vote: Option<Vote>)
      requires Idle() && rs.phase == Prevoting && MayPrevote(env, self, rs, block)
      modifies this`disk, this`net, this`trail, this`faults
      ensures Idle() && old(trail) <= trail
      ensures MySlot(rs, PREVOTE) in old(disk.slots) ==> vote.None? && Here() == old(Here()) && trail == old(trail)
      ensures MySlot(rs, PREVOTE) !in old(disk.slots) ==>
                && (disk == old(disk) || disk == old(disk).(slots := old(disk.slots)[MySlot(rs, PREVOTE) := block]))
                && Took(|old(trail)|, CastPrevote(block, disk != old(disk), vote.Some?)) && |trail| == |old(trail)| + 1
      ensures vote.Some? ==>
                && Spends(old(disk.slots), old(faults), disk.slots, faults, MySlot(rs, PREVOTE), block)
                && vote.value.ballot == MyBallot(self, rs, PREVOTE, block)
                && env.voteOk(vote.value) && net == old(net) + {vote.value.ballot}
      ensures vote.None? ==> net == old(net)
    {
      var slot := MySlot(rs, PREVOTE);
      ghost var free := slot !in disk.slots;
      var accepted := RecordVote(slot, block);
      var sig: Bytes64 := *;
      var v := Vote(MyBallot(self, rs, PREVOTE, block), sig);
      if !accepted || !env.voteOk(v) {
        if free { Log(CastPrevote(block, disk != old(disk), false)); }
        return None;
      }
      net := net + {v.ballot};
      Log(CastPrevote(block, disk != old(disk), true));
      return Some(v);
    }

    /** The slot is recorded first; signing or serialising may then still fail. */
    method BroadcastPrecommit(block: Bytes32) returns (vote: Option<Vote>)
      requires Idle() && rs.phase == Precommitting && MayPrecommit(env, rs, block)
      modifies this`disk, this`net, this`trail, this`faults
      ensures Idle() && old(trail) <= trail
      ensures MySlot(rs, PRECOMMIT) in old(disk.slots) ==> vote.None? && Here() == old(Here()) && trail == old(trail)
      ensures MySlot(rs, PRECOMMIT) !in old(disk.slots) ==>
                && (disk == old(disk) || disk == old(disk).(slots := old(disk.slots)[MySlot(rs, PRECOMMIT) := block]))
                && Took(|old(trail)|, CastPrecommit(block, disk != old(disk), vote.Some?)) && |trail| == |old(trail)| + 1
      ensures vote.Some? ==>
                && Spends(old(disk.slots), old(faults), disk.slots, faults, MySlot(rs, PRECOMMIT), block)
                && vote.value.ballot == MyBallot(self, rs, PRECOMMIT, block)
                && env.voteOk(vote.value) && net == old(net) + {vote.value.ballot}
      ensures vote.None? ==> net == old(net)
    {
      var slot := MySlot(rs, PRECOMMIT);
      ghost var free := slot !in disk.slots;
      var accepted := RecordVote(slot, block);
      var sig: Bytes64 := *;
      var v := Vote(MyBallot(self, rs, PRECOMMIT, block), sig);
      if !accepted || !env.voteOk(v) {
        if free { Log(CastPrecommit(block, disk != old(disk), false)); }
        return None;
      }
      net := net + {v.ballot};
      Log(CastPrecommit(block, disk != old(disk), true));
      return Some(v);
    }

    /** The vote goes into the map of its type, and the round state is persisted. */
    method FileVote(v: Vote)
      requires Idle() && Admits(env, rs, v) && v.ballot in net
      modifies this`rs, this`disk, this`trail
      ensures Idle() && old(trail) <= trail
      ensures rs == Stored(old(rs), v) && disk.slots == old(disk).slots && disk.chain == old(disk).chain
      ensures Took(|old(trail)|, StoreVote(v))
    {
      rs := Stored(rs, v);
      Log(StoreVote(v));
      Save();
    }

    method HandleVote(v: Vote)
      requires Idle() && Room() && (env.voteOk(v) ==> v.ballot in net)
      modifies this
      ensures Idle() && old(trail) <= trail && Within(pool, old(pool))
      ensures !Admits(env, old(rs), v) ==> Here() == old(Here()) && trail == old(trail) && pool == old(pool)
      ensures Admits(env, old(rs), v) && !Completes(env, old(rs), v)
              ==> rs == Stored(old(rs), v) && disk.slots == old(disk.slots) && disk.chain == old(disk.chain)
      ensures Admits(env, old(rs), v) ==> Took(|old(trail)|, StoreVote(v))
      ensures Tame(env, old(disk).chain) ==>
                retries <= old(retries) + |old(pool)| + Spare(env, Node(Stored(old(rs), v), old(disk)), old(pool))
      decreases faults, AllSlots() - disk.slots.Keys, 5
    {
      if v.ballot.height != rs.height || v.ballot.round != rs.round { return; }
      if !env.voteOk(v) || (v.ballot.kind != PREVOTE && v.ballot.kind != PRECOMMIT) { return; }
      if v.ballot.voter !in env.vs(rs.height).keys { return; }
      if v.ballot.voter in (if v.ballot.kind == PREVOTE then rs.prevotes else rs.precommits) { return; }
      TakeVote(v);
    }

    /** The rest of handleVote for a vote that is stored. */
    method TakeVote(v: Vote)
      requires Idle() && Room() && Admits(env, rs, v) && v.ballot in net
      modifies this
      ensures Idle() && old(trail) <= trail && Within(pool, old(pool)) && Took(|old(trail)|, StoreVote(v))
      ensures !Completes(env, old(rs), v) ==> rs == Stored(old(rs), v) && disk.slots == old(disk.slots) && disk.chain == old(disk.chain)
      ensures Tame(env, old(disk).chain) ==>
                retries <= old(retries) + |old(pool)| + Spare(env, Node(Stored(old(rs), v), old(disk)), old(pool))
      decreases faults, AllSlots() - disk.slots.Keys, 4
    {
      FileVote(v);
      if v.ballot.kind == PREVOTE { CountPrevotes(); } else { CountPrecommits(); }
    }

    method CountPrevotes()
      requires Idle() && Room()
      modifies this
      ensures Idle() && old(trail) <= trail && Within(pool, old(pool))
      ensures !(IsQuorum(env.vs(old(rs).height), old(rs).prevotes.Keys) && old(rs).phase == Prevoting)
              ==> Here() == old(Here()) && trail == old(trail) && pool == old(pool) && retries == old(retries)
      ensures Tame(env, old(disk).chain) ==> retries <= old(retries) + |old(pool)| + Spare(env, old(Here()).node, old(pool))
      decreases faults, AllSlots() - disk.slots.Keys, 3
    {
      var reached := QuorumReached(rs.prevotes, env.vs(rs.height));
      if reached && rs.phase == Prevoting { OnPrevoteQuorum(); }
    }

    method CountPrecommits()
      requires Idle() && Room()
      modifies this
      ensures Idle() && old(trail) <= trail && Within(pool, old(pool))
      ensures !(IsQuorum(env.vs(old(rs).height), old(rs).precommits.Keys) && old(rs).phase == Precommitting)
              ==> Here() == old(Here()) && trail == old(trail) && pool == old(pool) && retries == old(retries)
      ensures Tame(env, old(disk).chain) ==> retries <= old(retries) + |old(pool)| + Spare(env, old(Here()).node, old(pool))
      decreases faults, AllSlots() - disk.slots.Keys, 3
    {
      var reached := QuorumReached(rs.precommits, env.vs(rs.height));
      if reached && rs.phase == Precommitting { ghost var choice := OnPrecommitQuorum(); }
    }

    /** handleVote, consensus.go:393-400: enter the phase, locked on the quorum's block if there is one. */
    method EnterPrecommits() returns (block: Bytes32, ghost lock: Option<Bytes32>)
      requires Idle() && rs.phase == Prevoting
      modifies this`rs, this`trail
      ensures Idle() && old(trail) <= trail && |trail| == |old(trail)| + 1
      ensures lock.Some? ==> Wins(env, old(rs), lock.value) && rs == Lock(old(rs), lock.value).(phase := Precommitting)
      ensures lock.None? ==> (forall b :: !Wins(env, old(rs), b)) && rs == old(rs).(phase := Precommitting)
      ensures TookTo(|old(trail)|, EnterPrecommit(lock), rs)
      ensures MayPrecommit(env, rs, block) && block == if lock.Some? then lock.value else NIL
    {
      var found;
      block, found := QuorumBlock(rs.prevotes, env.vs(rs.height));
      lock := if found then Some(block) else None;
      rs := (if found then Lock(rs, block) else rs).(phase := Precommitting);
      Log(EnterPrecommit(lock));
    }

    /** handleVote, consensus.go:393-405: lock on the quorum's block and precommit to it, to nil if there is none. */
    method Precommit() returns (vote: Option<Vote>, ghost lock: Option<Bytes32>)
      requires Idle() && rs.phase == Prevoting
      modifies this`rs, this`disk, this`net, this`trail, this`faults
      ensures Idle() && old(trail) <= trail
      ensures lock.Some? ==> Wins(env, old(rs), lock.value) && rs == Lock(old(rs), lock.value).(phase := Precommitting)
      ensures lock.None? ==> (forall b :: !Wins(env, old(rs), b)) && rs == old(rs).(phase := Precommitting)
      ensures TookTo(|old(trail)|, EnterPrecommit(lock), rs)
      ensures var block := if lock.Some? then lock.value else NIL;
              && (MySlot(rs, PRECOMMIT) !in old(disk.slots) ==> TookCast(|old(trail)| + 1, PRECOMMIT, block))
              && (MySlot(rs, PRECOMMIT) in old(disk.slots) ==> vote.None? && disk == old(disk))
              && (vote.Some? ==>
                    && Spends(old(disk.slots), old(faults), disk.slots, faults, MySlot(rs, PRECOMMIT), block) && env.voteOk(vote.value)
                    && vote.value.ballot == MyBallot(self, rs, PRECOMMIT, block) && vote.value.ballot in net
                    && disk == old(disk).(slots := disk.slots))
    {
      var block;
      block, lock := EnterPrecommits();
      vote := BroadcastPrecommit(block);
    }

    method OnPrevoteQuorum()
      requires Idle() && Room() && rs.phase == Prevoting && IsQuorum(env.vs(rs.height), rs.prevotes.Keys)
      modifies this
      ensures Idle() && old(trail) <= trail && Within(pool, old(pool))
      ensures Tame(env, old(disk).chain) ==> retries <= old(retries) + |old(pool)| + Spare(env, old(Here()).node, old(pool))
      decreases faults, AllSlots() - disk.slots.Keys, 2
    {
      if SelfDecided(env, Here().node, pool) {
        UnanimousQuorum(env.vs(rs.height), rs.prevotes, env.hash(rs.proposal.value));
        assert Wins(env, rs, env.hash(rs.proposal.value));
      }
      var vote, lock := Precommit();
      if lock.Some? { OnlyWinner(env, old(rs), lock.value); }
      if vote.Some? {
        SpendingEnds(old(disk.slots), old(faults), disk.slots, faults, MySlot(rs, PRECOMMIT), vote.value.ballot.block);
        HandleVote(vote.value);
      }
    }

    method StartCommit(block: Bytes32)
      requires Idle() && rs.phase == Precommitting
      requires block != NIL && IsQuorum(env.vs(rs.height), Backers(rs.precommits, block))
      modifies this`rs, this`trail
      ensures Valid() && old(trail) <= trail && rs == old(rs).(phase := Committing)
      ensures Took(|old(trail)|, EnterCommit(block)) && |trail| == |old(trail)| + 1
    {
      rs := rs.(phase := Committing);
      Log(EnterCommit(block));
    }

    /** handleVote, consensus.go:420-431: apply the decided block and move to the next height. */
    method Decide(block: Bytes32) returns (ok: bool)
      requires Idle() && Room() && rs.phase == Precommitting
      requires block != NIL && IsQuorum(env.vs(rs.height), Backers(rs.precommits, block))
      modifies this`rs, this`disk, this`pool, this`trail
      ensures Valid() && old(trail) <= trail && disk.slots == old(disk.slots)
      ensures ok <==> && old(rs).proposal.Some? && env.hash(old(rs).proposal.value) == block
                      && env.encodes(old(rs).proposal.value) && env.applies(old(disk).chain, old(rs).proposal.value)
      ensures ok ==> Idle() && disk.chain == old(disk).chain + [Commit(old(rs).round, block, old(rs).proposal.value)]
      ensures ok ==> && AttestationOf(rs.lastAttestation, old(rs).precommits, block)
                     && rs == NextHeight(old(rs), rs.lastAttestation)
                     && Accepts(rs.lastAttestation, env.vs(old(rs).height), env.voteOk)
      ensures !ok ==> rs == old(rs).(phase := Committing) && disk == old(disk) && pool == old(pool)
      ensures Took(|old(trail)|, EnterCommit(block)) && (!ok ==> |trail| == |old(trail)| + 1)
      ensures Within(pool, old(pool))
    {
      StartCommit(block);
      ok := TryCommit(block);
      if ok {
        var att := AttestationFromPrecommits(rs.precommits, block);
        AttestationHolds(env, net, rs, att, block);
        StartNextRound(att);
      }
    }

    /** A decided block that applies is committed; otherwise the proposal is dropped and the round restarted. */
    method OnPrecommitQuorum() returns (ghost choice: Option<Bytes32>)
      requires Idle() && Room() && rs.phase == Precommitting && IsQuorum(env.vs(rs.height), rs.precommits.Keys)
      modifies this
      ensures Idle() && old(trail) <= trail && Within(pool, old(pool))
      ensures choice.Some? ==> Chosen(env, old(rs), choice.value) && Took(|old(trail)|, EnterCommit(choice.value))
      ensures choice.None? ==> forall b :: !Chosen(env, old(rs), b)
      ensures choice.Some? && Appliable(env, old(Here()).node, choice.value) ==>
                && disk.chain == old(disk).chain + [Commit(old(rs).round, choice.value, old(rs).proposal.value)]
                && rs.height == old(rs).height + 1 && rs.round == 0 && rs.phase == Propose
      ensures choice.None? || !Appliable(env, old(Here()).node, choice.value) ==>
                && TookTo(|old(trail)| + (if choice.Some? then 1 else 0), AdvanceRound(true), IncrementRound(Unlock(old(rs))))
                && (old(rs).proposal.Some? ==> Within(pool, Removed(env.id, old(pool), old(rs).proposal.value.txs)))
      ensures Tame(env, old(disk).chain) ==> retries <= old(retries) + |old(pool)| + Spare(env, old(Here()).node, old(pool))
      decreases faults, AllSlots() - disk.slots.Keys, 2
    {
      ghost var n := Here().node;
      var ok;
      ok, choice := DecideQuorum();
      if ok { return; }
      if Tame(env, n.disk.chain) && SelfDecided(env, n, pool) { OwnBlockChosen(env, n, pool, choice); }
      RejectAndRestart();
    }

    /** The block of a precommit quorum, if there is one other than nil, is committed if it can be. */
    method DecideQuorum() returns (ok: bool, ghost choice: Option<Bytes32>)
      requires Idle() && Room() && rs.phase == Precommitting
      modifies this`rs, this`disk, this`pool, this`trail
      ensures Valid() && old(trail) <= trail && Within(pool, old(pool)) && disk.slots == old(disk.slots)
      ensures choice.Some? ==> Chosen(env, old(rs), choice.value) && Took(|old(trail)|, EnterCommit(choice.value))
      ensures choice.None? ==> forall b :: !Chosen(env, old(rs), b)
      ensures ok <==> choice.Some? && Appliable(env, old(Here()).node, choice.value)
      ensures ok ==> && Idle() && disk.chain == old(disk).chain + [Commit(old(rs).round, choice.value, old(rs).proposal.value)]
                     && rs.height == old(rs).height + 1 && rs.round == 0 && rs.phase == Propose
      ensures !ok ==> && rs == old(rs).(phase := rs.phase) && disk == old(disk) && pool == old(pool)
                      && |trail| == |old(trail)| + if choice.Some? then 1 else 0
    {
      var block, found := QuorumBlock(rs.precommits, env.vs(rs.height));
      ok, choice := false, None;
      if found && block != NIL {
        choice := Some(block);
        ok := Decide(block);
      }
    }

    method RejectAndRestart()
      requires Valid() && Room() && rs.height == |disk.chain| + 1
      modifies this
      ensures Idle() && old(trail) <= trail && Within(pool, old(pool))
      ensures TookTo(|old(trail)|, AdvanceRound(true), IncrementRound(Unlock(old(rs))))
      ensures old(rs).proposal.Some? ==> Within(pool, Removed(env.id, old(pool), old(rs).proposal.value.txs))
      ensures Tame(env, old(disk).chain) ==>
                retries <= old(retries) + |old(pool)|
                           + if old(rs).proposal.Some? && old(rs).proposal.value.txs == Batch(old(pool)) != [] then 0 else 1
      decreases faults, AllSlots() - disk.slots.Keys, 1, 1
    {
      RejectProposal();
      RestartRound();
    }

    /** ApplyBlockForChain on the decided block, then ClearConsensusState, whose failure is ignored. */
    method ApplyDecided(block: Bytes32)
      requires Valid() && Room() && Applies(env, rs, disk, block)
      modifies this`disk, this`trail
      ensures Valid() && old(trail) <= trail
      ensures disk.chain == old(disk).chain + [Commit(rs.round, block, rs.proposal.value)]
      ensures disk.slots == old(disk).slots
    {
      disk := disk.(chain := disk.chain + [Commit(rs.round, block, rs.proposal.value)]);
      Log(Apply(block));
      if * {
        disk := disk.(snapshot := None);
        Log(ClearSnapshot);
      }
    }

    method TryCommit(block: Bytes32) returns (ok: bool)
      requires Valid() && Room() && rs.phase == Committing && rs.height == |disk.chain| + 1
      requires block != NIL && IsQuorum(env.vs(rs.height), Backers(rs.precommits, block))
      modifies this`disk, this`pool, this`trail
      ensures Valid() && old(trail) <= trail && |pool| <= |old(pool)|
      ensures disk.slots == old(disk).slots
      ensures ok <==> && rs.proposal.Some? && env.hash(rs.proposal.value) == block
                      && env.encodes(rs.proposal.value) && env.applies(old(disk).chain, rs.proposal.value)
      ensures ok ==> && disk.chain == old(disk).chain + [Commit(rs.round, block, rs.proposal.value)]
                     && pool == Removed(env.id, old(pool), rs.proposal.value.txs)
      ensures !ok ==> disk == old(disk) && pool == old(pool) && trail == old(trail)
      ensures Within(pool, old(pool))
    {
      if rs.proposal.None? || env.hash(rs.proposal.value) != block { return false; }
      var p := rs.proposal.value;
      if !env.encodes(p) { return false; }
      if !env.applies(disk.chain, p) { return false; }
      ApplyDecided(block);
      KeepIsFifo(env.id, pool, Ids(env.id, p.txs));
      pool := Removed(env.id, pool, p.txs);
      return true;
    }

    /** rejectProposal: the proposal's transactions leave the pool. */
    method RejectProposal()
      requires Valid()
      modifies this`pool
      ensures Valid() && |pool| <= |old(pool)| && Within(pool, old(pool))
      ensures rs.proposal.Some? && rs.proposal.value.txs == Batch(old(pool)) != [] ==> |pool| < |old(pool)|
      ensures pool == if rs.proposal.Some? then Removed(env.id, old(pool), rs.proposal.value.txs) else old(pool)
    {
      if rs.proposal.Some? {
        KeepIsFifo(env.id, pool, Ids(env.id, rs.proposal.value.txs));
        if rs.proposal.value.txs == Batch(pool) != [] { RejectShrinks(env.id, pool, rs.proposal.value.txs); }
        pool := Removed(env.id, pool, rs.proposal.value.txs);
      }
    }

    method StartNextRound(att: Attestation)
      requires Valid() && rs.phase == Committing && 0 < rs.height == |disk.chain|
      requires AttestationOf(att, rs.precommits, disk.chain[rs.height - 1].block)
      modifies this`rs, this`disk, this`trail
      ensures Idle() && old(trail) <= trail
      ensures rs == NextHeight(old(rs), att)
      ensures disk.slots == old(disk).slots && disk.chain == old(disk).chain
    {
      EnterHeight(att);
      Save();
    }

    method EnterHeight(att: Attestation)
      requires Valid() && rs.phase == Committing && 0 < rs.height == |disk.chain|
      requires AttestationOf(att, rs.precommits, disk.chain[rs.height - 1].block)
      modifies this`rs, this`trail
      ensures Idle() && old(trail) <= trail && rs == NextHeight(old(rs), att)
    {
      HeightStep(env, self, Here(), att);
      rs := NextHeight(rs, att);
      Log(AdvanceHeight(att));
    }

    method RestartRound()
      requires Valid() && Room() && rs.height == |disk.chain| + 1
      modifies this
      ensures Idle() && old(trail) <= trail && Within(pool, old(pool))
      ensures TookTo(|old(trail)|, AdvanceRound(true), IncrementRound(Unlock(old(rs))))
      ensures Tame(env, old(disk).chain) ==> retries <= old(retries) + 1 + |old(pool)|
      decreases faults, AllSlots() - disk.slots.Keys, 1, 0
    {
      retries := retries + 1;
      NewRound(true);
      ProposeIfElected();
    }

    method NewRound(unlock: bool)
      requires Valid() && rs.height == |disk.chain| + 1
      modifies this`rs, this`trail
      ensures Idle() && old(trail) <= trail && |trail| == |old(trail)| + 1
      ensures rs == IncrementRound(if unlock then Unlock(old(rs)) else old(rs)) && TookTo(|old(trail)|, AdvanceRound(unlock), rs)
    {
      rs := IncrementRound(if unlock then Unlock(rs) else rs);
      Log(AdvanceRound(unlock));
    }

    method ProposeIfElected()
      requires Idle() && Room()
      modifies this
      ensures Idle() && old(trail) <= trail && Within(pool, old(pool))
      ensures Tame(env, old(disk).chain) ==>
                retries <= old(retries) + |old(pool)| + if old(rs).prevotes == map[] == old(rs).precommits then 0 else 1
      decreases faults, AllSlots() - disk.slots.Keys, 0, 1
    {
      if env.leader(env.root(disk.chain), rs.height, rs.round) == Some(self) {
        ghost var offer := BroadcastProposal();
      }
      Save();
    }

    /** The round leaves the propose phase, with the proposal adopted if there is one. */
    method StartPrevoting(p: Option<Proposal>)
      requires Idle() && rs.phase == Propose && (p.Some? ==> Elected(env, Here().node, p.value))
      modifies this`rs, this`trail
      ensures Idle() && old(trail) <= trail
      ensures rs == old(rs).(phase := Prevoting, proposal := if p.Some? then p else old(rs).proposal)
      ensures Took(|old(trail)|, EnterPrevote(p)) && |trail| == |old(trail)| + 1
    {
      rs := rs.(phase := Prevoting, proposal := if p.Some? then p else rs.proposal);
      Log(EnterPrevote(p));
    }

    /** A proposal of this round by this node, made of the front of the pool. */
    ghost predicate OwnProposal(n: Node, from: seq<WireTx>, p: Proposal) {
      && p.height == n.rs.height && p.round == n.rs.round && p.proposer == self
      && p.prevRoot == env.root(n.disk.chain) && p.txs == Batch(from) && p.prevAttestation == n.rs.lastAttestation
    }

    /** broadcastProposal up to its prevote: build the block from the pool and vote for it. */
    method PublishProposal() returns (vote: Option<Vote>, ghost offer: Option<Proposal>)
      requires Idle() && env.leader(env.root(disk.chain), rs.height, rs.round) == Some(self)
      modifies this`rs, this`disk, this`net, this`trail, this`faults
      ensures Idle() && old(trail) <= trail && disk.chain == old(disk).chain
      ensures offer.None? ==> vote.None? && Here() == old(Here()) && trail == old(trail)
      ensures offer.Some? ==>
                && old(rs).phase == Propose && OwnProposal(old(Here()).node, pool, offer.value)
                && Offered(env, trail, |old(trail)|, offer.value, old(disk.slots))
      ensures vote.Some? ==>
                && Spends(old(disk.slots), old(faults), disk.slots, faults, MySlot(rs, PREVOTE), vote.value.ballot.block)
                && env.voteOk(vote.value)
                && vote.value.ballot in net
                && (old(rs).prevotes == map[] == old(rs).precommits
                    ==> SelfDecided(env, Node(Stored(rs, vote.value), disk), pool))
    {
      vote, offer := None, None;
      if * { return; } // the proposer may fail
      var sig: Bytes64 := *;
      var p := Proposal(rs.height, rs.round, self, env.root(disk.chain), Batch(pool), rs.lastAttestation, sig);
      if rs.phase != Propose || !env.encodes(p) { return; }
      offer := Some(p);
      vote := Offer(p);
    }

    /** The proposal is adopted, persisted and voted for. */
    method Offer(p: Proposal) returns (vote: Option<Vote>)
      requires Idle() && rs.phase == Propose && Elected(env, Here().node, p) && p.proposer == self
      modifies this`rs, this`disk, this`net, this`trail, this`faults
      ensures Idle() && old(trail) <= trail && disk.chain == old(disk).chain
      ensures rs == old(rs).(phase := Prevoting, proposal := Some(p))
      ensures Offered(env, trail, |old(trail)|, p, old(disk.slots))
      ensures vote.Some? ==>
                && Spends(old(disk.slots), old(faults), disk.slots, faults, MySlot(rs, PREVOTE), vote.value.ballot.block)
                && env.voteOk(vote.value)
                && vote.value.ballot == MyBallot(self, rs, PREVOTE, env.hash(p)) && vote.value.ballot in net
    {
      StartPrevoting(Some(p));
      Save();
      vote := BroadcastPrevote(env.hash(p));
    }

    method BroadcastProposal() returns (ghost offer: Option<Proposal>)
      requires Idle() && Room() && env.leader(env.root(disk.chain), rs.height, rs.round) == Some(self)
      modifies this
      ensures Idle() && old(trail) <= trail && Within(pool, old(pool))
      ensures offer.None? ==> Here() == old(Here()) && trail == old(trail) && pool == old(pool)
      ensures offer.Some? ==>
                OwnProposal(old(Here()).node, old(pool), offer.value) && Offered(env, trail, |old(trail)|, offer.value, old(disk.slots))
      ensures Tame(env, old(disk).chain) ==>
                retries <= old(retries) + |old(pool)| + if old(rs).prevotes == map[] == old(rs).precommits then 0 else 1
      decreases faults, AllSlots() - disk.slots.Keys, 0, 0
    {
      var vote;
      vote, offer := PublishProposal();
      if vote.Some? {
        SpendingEnds(old(disk.slots), old(faults), disk.slots, faults, MySlot(rs, PREVOTE), vote.value.ballot.block);
        ghost var made := trail;
        HandleVote(vote.value);
        OfferedStays(env, made, trail, |old(trail)|, offer.value, old(disk.slots));
      }
    }

    // ------------------------------------------------------------ the events of Start

    /** sigsOk: the proposer's and all transaction signatures verify. */
    ghost predicate Acceptable(p: Proposal, sigsOk: bool)
      requires env.Valid()
      reads this
    {
      && Elected(env, Here().node, p) && rs.phase == Propose && rs.proposal.None? && sigsOk
      && (p.prevAttestation.votes == [] || Accepts(p.prevAttestation, env.vs(rs.height), env.voteOk))
    }

    method CheckProposal(p: Proposal, sigsOk: bool) returns (ok: bool)
      requires env.Valid()
      ensures ok <==> Acceptable(p, sigsOk)
    {
      if p.height != rs.height || p.round != rs.round { return false; }
      if p.prevRoot != env.root(disk.chain) { return false; }
      if rs.phase != Propose || rs.proposal.Some? { return false; }
      if env.leader(env.root(disk.chain), rs.height, rs.round) != Some(p.proposer) { return false; }
      if !sigsOk { return false; }
      ok := true;
      if p.prevAttestation.votes != [] {
        ok := VerifyAttestation(p.prevAttestation, env.vs(rs.height), env.voteOk);
      }
    }

    /** What an accepted proposal is prevoted as: nil when locked on another block. */
    function Choice(p: Proposal): Bytes32
      reads this
    {
      if rs.lockedBlock.Some? && rs.lockedBlock.value != env.hash(p) then NIL else env.hash(p)
    }

    method HandleProposal(p: Proposal, sigsOk: bool)
      requires Idle() && Room()
      modifies this
      ensures Idle() && old(trail) <= trail
      ensures !old(Acceptable(p, sigsOk)) ==> Here() == old(Here()) && trail == old(trail) && pool == old(pool)
      ensures old(Acceptable(p, sigsOk)) && MySlot(old(rs), PREVOTE) !in old(disk.slots)
              ==> Took(|old(trail)|, EnterPrevote(Some(p))) && TookCast(|old(trail)| + 1, PREVOTE, old(Choice(p)))
    {
      var ok := CheckProposal(p, sigsOk);
      if !ok { return; }
      StartPrevoting(Some(p));
      CastPrevoteAndCount(Choice(p));
    }

    /** Prevote, count the own vote, persist: the common end of handleProposal and onProposeTimeout. */
    method CastPrevoteAndCount(block: Bytes32)
      requires Idle() && Room() && rs.phase == Prevoting && MayPrevote(env, self, rs, block)
      modifies this
      ensures Idle() && old(trail) <= trail
      ensures MySlot(old(rs), PREVOTE) !in old(disk.slots)
              ==> TookCast(|old(trail)|, PREVOTE, block)
    {
      var vote := BroadcastPrevote(block);
      if vote.Some? { HandleVote(vote.value); }
      Save();
    }

    method OnProposeTimeout()
      requires Idle() && Room()
      modifies this
      ensures Idle() && old(trail) <= trail
      ensures old(rs).phase != Propose ==> Here() == old(Here()) && trail == old(trail) && pool == old(pool)
      ensures old(rs).phase == Propose && MySlot(old(rs), PREVOTE) !in old(disk.slots)
              ==> Took(|old(trail)|, EnterPrevote(None)) && TookCast(|old(trail)| + 1, PREVOTE, NIL)
    {
      if rs.phase != Propose { return; }
      StartPrevoting(None);
      CastPrevoteAndCount(NIL);
    }

    method OnPrevoteTimeout()
      requires Idle() && Room()
      modifies this
      ensures Idle() && old(trail) <= trail
      ensures old(rs).phase != Prevoting ==> Here() == old(Here()) && trail == old(trail) && pool == old(pool)
      ensures old(rs).phase == Prevoting && MySlot(old(rs), PRECOMMIT) !in old(disk.slots)
              ==> Took(|old(trail)|, EnterPrecommit(None)) && TookCast(|old(trail)| + 1, PRECOMMIT, NIL)
    {
      if rs.phase != Prevoting { return; }
      StopPrevoting();
      CastNilPrecommitAndCount();
    }

    method CastNilPrecommitAndCount()
      requires Idle() && Room() && rs.phase == Precommitting
      modifies this
      ensures Idle() && old(trail) <= trail
      ensures MySlot(old(rs), PRECOMMIT) !in old(disk.slots)
              ==> TookCast(|old(trail)|, PRECOMMIT, NIL)
    {
      var vote := BroadcastPrecommit(NIL);
      if vote.Some? { HandleVote(vote.value); }
      Save();
    }

    method StopPrevoting()
      requires Idle() && rs.phase == Prevoting
      modifies this`rs, this`trail
      ensures Idle() && old(trail) <= trail
      ensures rs == old(rs).(phase := Precommitting) && Took(|old(trail)|, EnterPrecommit(None)) && |trail| == |old(trail)| + 1
    {
      rs := rs.(phase := Precommitting);
      Log(EnterPrecommit(None));
    }

    /** The precommit timer starts a new round whatever the phase, and keeps the lock. */
    method OnPrecommitTimeout()
      requires Idle() && Room()
      modifies this
      ensures Idle() && old(trail) <= trail
      ensures TookTo(|old(trail)|, AdvanceRound(false), IncrementRound(old(rs)))
      ensures trail[|old(trail)|].after.node.rs.lockedBlock == old(rs).lockedBlock
    {
      NewRound(false);
      ProposeIfElected();
    }

    method OnProposeReady()
      requires Idle() && Room()
      modifies this
      ensures Idle() && old(trail) <= trail
      ensures old(rs).phase != Propose ==> Here() == old(Here()) && trail == old(trail) && pool == old(pool)
    {
      if rs.phase == Propose && env.leader(env.root(disk.chain), rs.height, rs.round) == Some(self) {
        ghost var offer := BroadcastProposal();
      }
    }

    /** The process dies between two events and Start reads the disk again; the pool is lost. */
    method Restart()
      requires Idle()
      modifies this
      ensures Idle() && old(trail) <= trail && rs == Resume(env, old(disk)) && disk == old(disk) && pool == []
    {
      LosePool();
      Reload();
    }

    method LosePool()
      requires Idle()
      modifies this`pool
      ensures Idle() && pool == []
    {
      pool := [];
    }

    method Reload()
      requires Idle()
      modifies this`rs, this`trail
      ensures Idle() && old(trail) <= trail && rs == Resume(env, disk)
    {
      rs := Resume(env, disk);
      Log(Crash);
    }
  }

  /**
   * The engine's own history is a run of the protocol: between events the engine is one height
   * ahead of the ledger, holds no proposal while proposing, and stores only votes of its height,
   * round and type; (height, round, phase) never decreases along a history that neither restarts
   * nor wraps the round counter.
   */
  lemma HistoryIsRun(e: Engine)
    requires e.Idle()
    ensures e.rs.height == |e.disk.chain| + 1
    ensures e.rs.phase == Propose ==> e.rs.proposal == None
    ensures VotesOk(e.env, e.net, e.rs)
    ensures AllForward(e.origin, e.trail) ==> NotBehind(e.origin.node.rs, e.rs)
  {
    if AllForward(e.origin, e.trail) { RunForward(e.env, e.self, e.origin, e.trail); }
  }

  /**
   * The proposal an honest node makes is acceptable to a node waiting at that height, round and
   * parent exactly when it carries no attestation yet or the validators of the height back it;
   * always, then, while they are those of the height before.
   */
  lemma HonestProposalAcceptable(e: Engine, s: Local, p: Proposal)
    requires e.env.Valid() && NodeInv(e.env, s) && p.prevAttestation == s.node.rs.lastAttestation && p.height == s.node.rs.height
    requires Elected(e.env, e.Here().node, p) && e.rs.phase == Propose && e.rs.proposal.None?
    ensures e.Acceptable(p, true) <==> p.prevAttestation == EMPTY_ATTESTATION || Backed(p.prevAttestation, e.env.vs(p.height))
    ensures (p.prevAttestation == EMPTY_ATTESTATION || e.env.vs(p.prevAttestation.height) == e.env.vs(p.height)) ==> e.Acceptable(p, true)
  {
    var a := p.prevAttestation;
    if a != EMPTY_ATTESTATION { AcceptedElsewhere(a, e.env.vs(a.height), e.env.vs(p.height), e.env.voteOk); }
  }
}

/**
 * Safety of the round machine over whole runs of a network: honest nodes taking the steps
 * of Protocol in any interleaving, crashing and restarting at any point, while every key
 * that is not honest signs whatever it likes.
 */
module Agreement {
  import opened Wrappers
  import opened Bytes
  import opened Messages
  import opened Quorum
  import opened Protocol

  /** The honest nodes by key, and all ballots signed so far by anybody. */
  datatype World = World(nodes: map<Key, Node>, net: set<Ballot>)

  datatype Event = Honest(who: Key, act: Action) | Faulty(ballot: Ballot)

  ghost function LocalOf(w: World, k: Key): Local
    requires k in w.nodes
  {
    Local(w.nodes[k], w.net)
  }

  /** Signatures are unforgeable: only a faulty key's ballot can appear outside a node's own step. */
  ghost predicate WorldStep(env: Env, w: World, e: Event, w': World)
    requires env.Valid()
  {
    match e
    case Honest(k, a) =>
      && k in w.nodes && !a.Overhear?
      && k in w'.nodes && w'.nodes == w.nodes[k := w'.nodes[k]]
      && Step(env, k, LocalOf(w, k), a, LocalOf(w', k))
    case Faulty(b) =>
      b.voter !in w.nodes && w' == w.(net := w.net + {b})
  }

  ghost predicate Init(env: Env, w: World) {
    && w.net == {}
    && forall k :: k in w.nodes ==> w.nodes[k] == Node(NewRoundState(1), Disk(map[], None, []))
  }

  function KindOf(a: Action): byte {
    if a.CastPrevote? then PREVOTE else PRECOMMIT
  }

  /** A ballot got out although the commit of its slot failed. */
  predicate Lapses(a: Action) {
    (a.CastPrevote? || a.CastPrecommit?) && a.released && !a.kept
  }

  /** The slots whose commit failed under a released ballot, by node. */
  ghost function Lapsed(ws: seq<World>, es: seq<Event>): set<(Key, Slot)>
    requires |ws| == |es| + 1
    decreases |es|
  {
    if es == [] then {} else Lapsed(ws[..|es|], es[..|es| - 1]) + LapsedBy(ws[|es| - 1], es[|es| - 1])
  }

  ghost function LapsedBy(w: World, e: Event): set<(Key, Slot)> {
    if e.Honest? && e.who in w.nodes && Lapses(e.act) then {(e.who, MySlot(w.nodes[e.who].rs, KindOf(e.act)))} else {}
  }

  /** The validators of a slot's height without an honest node that kept the slot. */
  ghost function FaultyKeys(env: Env, w: World, lapsed: set<(Key, Slot)>, slot: Slot): set<Key> {
    set k | k in env.vs(slot.height).keys && (k in w.nodes ==> (k, slot) in lapsed)
  }

  ghost predicate FewFaults(env: Env, w: World, lapsed: set<(Key, Slot)>, slot: Slot)
    requires env.Valid()
  {
    3 * Stake(env.vs(slot.height), FaultyKeys(env, w, lapsed, slot)) <= Total(env.vs(slot.height))
  }

  ghost predicate IsWorldRun(env: Env, ws: seq<World>, es: seq<Event>)
    requires env.Valid()
  {
    && |ws| == |es| + 1 && Init(env, ws[0])
    && forall i :: 0 <= i < |es| ==> WorldStep(env, ws[i], es[i], ws[i + 1])
  }

  // ---------------------------------------------------------------- the invariant of a run

  /** Everyone who signed a ballot of this kind, height and round for block b. */
  ghost function Signers(net: set<Ballot>, kind: byte, height: u64, round: u32, b: Bytes32): set<Key> {
    set v | v in net && v.kind == kind && v.height == height && v.round == round && v.block == b :: v.voter
  }

  ghost predicate SignedByQuorum(env: Env, net: set<Ballot>, kind: byte, height: u64, round: u32, b: Bytes32)
    requires env.Valid()
  {
    IsQuorum(env.vs(height), Signers(net, kind, height, round, b))
  }

  function SlotOf(b: Ballot): Slot {
    Slot(b.height, b.round, b.kind)
  }

  /** Every ballot an honest key signed sits in that node's durable slot, unless the slot lapsed. */
  ghost predicate OneVotePerSlot(k: Key, n: Node, net: set<Ballot>, lapsed: set<(Key, Slot)>) {
    forall b :: b in net && b.voter == k ==>
      (k, SlotOf(b)) in lapsed || (SlotOf(b) in n.disk.slots && n.disk.slots[SlotOf(b)] == b.block)
  }

  /** The node precommitted to this block: its slot holds it, or its ballot is out. */
  ghost predicate Precommitted(k: Key, n: Node, net: set<Ballot>, height: u64, round: u32, block: Bytes32) {
    var slot := Slot(height, round, PRECOMMIT);
    (slot in n.disk.slots && n.disk.slots[slot] == block) || Ballot(PRECOMMIT, height, round, block, k) in net
  }

  /** An honest precommit for a block rests on a quorum of prevotes for it. */
  ghost predicate PrecommitsJustified(env: Env, k: Key, n: Node, net: set<Ballot>)
    requires env.Valid()
  {
    forall h: u64, r: u32, b: Bytes32 :: Precommitted(k, n, net, h, r, b) && b != NIL ==> SignedByQuorum(env, net, PREVOTE, h, r, b)
  }

  /** A committed block rests on a quorum of precommits for it. */
  ghost predicate CommitJustified(env: Env, net: set<Ballot>, height: int, c: Commit)
    requires env.Valid()
  {
    && 0 <= height < U64 && c.block != NIL && env.hash(c.proposal) == c.block && env.encodes(c.proposal)
    && SignedByQuorum(env, net, PRECOMMIT, height, c.round, c.block)
  }

  ghost predicate CommitsJustified(env: Env, n: Node, net: set<Ballot>)
    requires env.Valid()
  {
    forall i :: 0 <= i < |n.disk.chain| ==> CommitJustified(env, net, i + 1, n.disk.chain[i])
  }

  ghost predicate HonestInv(env: Env, k: Key, s: Local, lapsed: set<(Key, Slot)>)
    requires env.Valid()
  {
    && NodeInv(env, s)
    && OneVotePerSlot(k, s.node, s.net, lapsed)
    && PrecommitsJustified(env, k, s.node, s.net)
    && CommitsJustified(env, s.node, s.net)
  }

  ghost predicate WorldInv(env: Env, w: World, lapsed: set<(Key, Slot)>)
    requires env.Valid()
  {
    forall k :: k in w.nodes ==> HonestInv(env, k, LocalOf(w, k), lapsed)
  }

  lemma QuorumGrows(env: Env, net: set<Ballot>, net': set<Ballot>, kind: byte, height: u64, round: u32, b: Bytes32)
    requires env.Valid() && net <= net' && SignedByQuorum(env, net, kind, height, round, b)
    ensures SignedByQuorum(env, net', kind, height, round, b)
  {
    StakeMonotone(env.vs(height), Signers(net, kind, height, round, b), Signers(net', kind, height, round, b), |env.vs(height).keys|);
  }

  /** The voters a node has stored for a block did sign for it. */
  lemma StoredQuorumSigned(env: Env, s: Local, kind: byte, b: Bytes32)
    requires env.Valid() && VotesOk(env, s.net, s.node.rs)
    requires kind == PREVOTE || kind == PRECOMMIT
    requires IsQuorum(env.vs(s.node.rs.height), Backers(if kind == PREVOTE then s.node.rs.prevotes else s.node.rs.precommits, b))
    ensures SignedByQuorum(env, s.net, kind, s.node.rs.height, s.node.rs.round, b)
  {
    var rs := s.node.rs;
    var votes := if kind == PREVOTE then rs.prevotes else rs.precommits;
    forall k | k in Backers(votes, b) ensures k in Signers(s.net, kind, rs.height, rs.round, b) {
      assert VoteOk(env, s.net, rs, kind, k, votes[k]);
    }
    StakeMonotone(env.vs(rs.height), Backers(votes, b), Signers(s.net, kind, rs.height, rs.round, b), |env.vs(rs.height).keys|);
  }

  /** The network grew by ballots that are no precommits of this node: its justifications stand. */
  lemma JustificationsGrow(env: Env, k: Key, n: Node, net: set<Ballot>, net': set<Ballot>)
    requires env.Valid() && net <= net' && forall b :: b in net' && b !in net && b.voter == k ==> b.kind != PRECOMMIT
    ensures PrecommitsJustified(env, k, n, net) ==> PrecommitsJustified(env, k, n, net')
    ensures CommitsJustified(env, n, net) ==> CommitsJustified(env, n, net')
  {
    if PrecommitsJustified(env, k, n, net) {
      forall h: u64, r: u32, b: Bytes32 | Precommitted(k, n, net', h, r, b) && b != NIL
        ensures SignedByQuorum(env, net', PREVOTE, h, r, b)
      {
        assert Precommitted(k, n, net, h, r, b);
        QuorumGrows(env, net, net', PREVOTE, h, r, b);
      }
    }
    CommitsStay(env, n, net, net');
  }

  lemma CommitsStay(env: Env, n: Node, net: set<Ballot>, net': set<Ballot>)
    requires env.Valid() && net <= net'
    ensures CommitsJustified(env, n, net) ==> CommitsJustified(env, n, net')
  {
    if CommitsJustified(env, n, net) {
      forall i | 0 <= i < |n.disk.chain| ensures CommitJustified(env, net', i + 1, n.disk.chain[i]) {
        assert CommitJustified(env, net, i + 1, n.disk.chain[i]);
        QuorumGrows(env, net, net', PRECOMMIT, i + 1, n.disk.chain[i].round, n.disk.chain[i].block);
      }
    }
  }

  /** The network grew by ballots of other keys: this node's invariant still holds. */
  lemma OthersKeepInv(env: Env, k: Key, n: Node, net: set<Ballot>, net': set<Ballot>, lapsed: set<(Key, Slot)>, lapsed': set<(Key, Slot)>)
    requires env.Valid() && HonestInv(env, k, Local(n, net), lapsed) && net <= net' && lapsed <= lapsed'
    requires forall b :: b in net' && b !in net ==> b.voter != k
    ensures HonestInv(env, k, Local(n, net'), lapsed')
  {
    JustificationsGrow(env, k, n, net, net');
    RoundOkMonotone(env, net, net', n.rs);
    if n.disk.snapshot.Some? { RoundOkMonotone(env, net, net', n.disk.snapshot.value); }
  }

  /** The slots that lapse in one node's step. */
  ghost function Lapse(k: Key, s: Local, a: Action): set<(Key, Slot)> {
    if Lapses(a) then {(k, MySlot(s.node.rs, KindOf(a)))} else {}
  }

  lemma OwnPrevoteKeepsInv(env: Env, k: Key, s: Local, a: Action, s': Local, lapsed: set<(Key, Slot)>)
    requires env.Valid() && HonestInv(env, k, s, lapsed) && Step(env, k, s, a, s') && a.CastPrevote?
    ensures HonestInv(env, k, s', lapsed + Lapse(k, s, a))
  {
    StepKeepsNodeInv(env, k, s, a, s');
    JustificationsGrow(env, k, s.node, s.net, s'.net);
    SameSlotsJustified(env, k, s.node, s'.node, s'.net);
  }

  lemma SameSlotsJustified(env: Env, k: Key, n: Node, n': Node, net: set<Ballot>)
    requires env.Valid() && PrecommitsJustified(env, k, n, net)
    requires forall s :: s in n'.disk.slots && s.kind == PRECOMMIT ==> s in n.disk.slots && n'.disk.slots[s] == n.disk.slots[s]
    ensures PrecommitsJustified(env, k, n', net)
  {
    forall h: u64, r: u32, b: Bytes32 | Precommitted(k, n', net, h, r, b) && b != NIL ensures SignedByQuorum(env, net, PREVOTE, h, r, b) {
      assert Precommitted(k, n, net, h, r, b);
    }
  }

  lemma OwnPrecommitKeepsInv(env: Env, k: Key, s: Local, a: Action, s': Local, lapsed: set<(Key, Slot)>)
    requires env.Valid() && HonestInv(env, k, s, lapsed) && Step(env, k, s, a, s') && a.CastPrecommit?
    ensures HonestInv(env, k, s', lapsed + Lapse(k, s, a))
  {
    StepKeepsNodeInv(env, k, s, a, s');
    CommitsStay(env, s.node, s.net, s'.net);
    var rs := s.node.rs;
    if a.block != NIL { StoredQuorumSigned(env, s, PREVOTE, a.block); }
    forall h: u64, r: u32, b: Bytes32 | Precommitted(k, s'.node, s'.net, h, r, b) && b != NIL
      ensures SignedByQuorum(env, s'.net, PREVOTE, h, r, b)
    {
      assert Precommitted(k, s.node, s.net, h, r, b) || (h == rs.height && r == rs.round && b == a.block);
      QuorumGrows(env, s.net, s'.net, PREVOTE, h, r, b);
    }
  }

  lemma OwnStepKeepsInv(env: Env, k: Key, s: Local, a: Action, s': Local, lapsed: set<(Key, Slot)>)
    requires env.Valid() && HonestInv(env, k, s, lapsed) && Step(env, k, s, a, s')
    ensures HonestInv(env, k, s', lapsed + Lapse(k, s, a))
  {
    match a
    case CastPrevote(_, _, _) => OwnPrevoteKeepsInv(env, k, s, a, s', lapsed);
    case CastPrecommit(_, _, _) => OwnPrecommitKeepsInv(env, k, s, a, s', lapsed);
    case Overhear(_) => OthersKeepInv(env, k, s.node, s.net, s'.net, lapsed, lapsed);
    case Apply(block) =>
      StepKeepsNodeInv(env, k, s, a, s');
      StoredQuorumSigned(env, s, PRECOMMIT, block);
      SameSlotsJustified(env, k, s.node, s'.node, s.net);
    case _ =>
      StepKeepsNodeInv(env, k, s, a, s');
      SameSlotsJustified(env, k, s.node, s'.node, s.net);
  }

  lemma WorldStepKeepsInv(env: Env, w: World, e: Event, w': World, lapsed: set<(Key, Slot)>)
    requires env.Valid() && WorldInv(env, w, lapsed) && WorldStep(env, w, e, w')
    ensures WorldInv(env, w', lapsed + LapsedBy(w, e)) && w'.nodes.Keys == w.nodes.Keys
  {
    forall j | j in w'.nodes ensures HonestInv(env, j, LocalOf(w', j), lapsed + LapsedBy(w, e)) {
      assert HonestInv(env, j, LocalOf(w, j), lapsed);
      if e.Honest? && e.who == j {
        OwnStepKeepsInv(env, j, LocalOf(w, j), e.act, LocalOf(w', j), lapsed);
        assert LapsedBy(w, e) == Lapse(j, LocalOf(w, j), e.act);
      } else {
        if e.Honest? { StepKeepsNodeInv(env, e.who, LocalOf(w, e.who), e.act, LocalOf(w', e.who)); }
        OthersKeepInv(env, j, w.nodes[j], w.net, w'.net, lapsed, lapsed + LapsedBy(w, e));
      }
    }
  }

  /** Every world of every run satisfies the invariant. */
  lemma {:induction false} RunInv(env: Env, ws: seq<World>, es: seq<Event>)
    requires env.Valid() && IsWorldRun(env, ws, es)
    ensures WorldInv(env, ws[|es|], Lapsed(ws, es)) && ws[|es|].nodes.Keys == ws[0].nodes.Keys
  {
    if es != [] {
      var m := |es| - 1;
      RunInv(env, ws[..m + 1], es[..m]);
      WorldStepKeepsInv(env, ws[m], es[m], ws[m + 1], Lapsed(ws[..m + 1], es[..m]));
    }
  }

  // ---------------------------------------------------------------- agreement

  /** Two quorums of signatures of one kind in one round name one block. */
  lemma OneSignedBlock(env: Env, w: World, lapsed: set<(Key, Slot)>, slot: Slot, b: Bytes32, c: Bytes32)
    requires env.Valid() && WorldInv(env, w, lapsed) && FewFaults(env, w, lapsed, slot)
    requires SignedByQuorum(env, w.net, slot.kind, slot.height, slot.round, b)
    requires SignedByQuorum(env, w.net, slot.kind, slot.height, slot.round, c)
    ensures b == c
  {
    var k := QuorumsShareHonest(env.vs(slot.height), Signers(w.net, slot.kind, slot.height, slot.round, b),
                                Signers(w.net, slot.kind, slot.height, slot.round, c), FaultyKeys(env, w, lapsed, slot));
    assert HonestInv(env, k, LocalOf(w, k), lapsed);
    var x, y := Ballot(slot.kind, slot.height, slot.round, b, k), Ballot(slot.kind, slot.height, slot.round, c, k);
    assert x in w.net && y in w.net && SlotOf(x) == SlotOf(y) == slot;
  }

  /**
   * Agreement within a round. In every run with crashes, all non-nil precommits of honest nodes in
   * one (height, round), in their slots or released, name the same block, if the validators that are
   * faulty or whose prevote slot of that round lapsed hold at most a third of the stake.
   */
  lemma HonestPrecommitsAgree(env: Env, ws: seq<World>, es: seq<Event>, j: Key, k: Key, height: u64, round: u32, b: Bytes32, c: Bytes32)
    requires env.Valid() && IsWorldRun(env, ws, es) && FewFaults(env, ws[0], Lapsed(ws, es), Slot(height, round, PREVOTE))
    requires j in ws[|es|].nodes && k in ws[|es|].nodes && b != NIL && c != NIL
    requires Precommitted(j, ws[|es|].nodes[j], ws[|es|].net, height, round, b)
    requires Precommitted(k, ws[|es|].nodes[k], ws[|es|].net, height, round, c)
    ensures b == c
  {
    RunInv(env, ws, es);
    var w, lapsed, slot := ws[|es|], Lapsed(ws, es), Slot(height, round, PREVOTE);
    SameFaults(env, ws[0], w, lapsed, slot);
    assert HonestInv(env, j, LocalOf(w, j), lapsed) && HonestInv(env, k, LocalOf(w, k), lapsed);
    OneSignedBlock(env, w, lapsed, slot, b, c);
  }

  lemma SameFaults(env: Env, v: World, w: World, lapsed: set<(Key, Slot)>, slot: Slot)
    requires env.Valid() && v.nodes.Keys == w.nodes.Keys
    ensures FewFaults(env, v, lapsed, slot) <==> FewFaults(env, w, lapsed, slot)
  {
    assert FaultyKeys(env, v, lapsed, slot) == FaultyKeys(env, w, lapsed, slot);
  }

  /** Two nodes that commit a height in the same round commit the same block hash. */
  lemma CommitsAgree(env: Env, ws: seq<World>, es: seq<Event>, j: Key, k: Key, i: nat)
    requires env.Valid() && IsWorldRun(env, ws, es)
    requires j in ws[|es|].nodes && k in ws[|es|].nodes
    requires i < |ws[|es|].nodes[j].disk.chain| && i < |ws[|es|].nodes[k].disk.chain|
    requires ws[|es|].nodes[j].disk.chain[i].round == ws[|es|].nodes[k].disk.chain[i].round
    requires i + 1 < U64 ==> FewFaults(env, ws[0], Lapsed(ws, es), Slot(i + 1, ws[|es|].nodes[j].disk.chain[i].round, PRECOMMIT))
    ensures var c, d := ws[|es|].nodes[j].disk.chain[i], ws[|es|].nodes[k].disk.chain[i];
            && c.block == env.hash(c.proposal) == env.hash(d.proposal) == d.block
            && env.encodes(c.proposal) && env.encodes(d.proposal)
  {
    RunInv(env, ws, es);
    var w, lapsed := ws[|es|], Lapsed(ws, es);
    var c, d := w.nodes[j].disk.chain[i], w.nodes[k].disk.chain[i];
    assert HonestInv(env, j, LocalOf(w, j), lapsed) && HonestInv(env, k, LocalOf(w, k), lapsed);
    assert CommitJustified(env, w.net, i + 1, c) && CommitJustified(env, w.net, i + 1, d);
    SameFaults(env, ws[0], w, lapsed, Slot(i + 1, c.round, PRECOMMIT));
    OneSignedBlock(env, w, lapsed, Slot(i + 1, c.round, PRECOMMIT), c.block, d.block);
  }

  /** A committed block was precommitted by some honest node, on a quorum of prevotes. */
  lemma CommitHasHonestPrecommit(env: Env, ws: seq<World>, es: seq<Event>, j: Key, i: nat) returns (k: Key)
    requires env.Valid() && IsWorldRun(env, ws, es)
    requires j in ws[|es|].nodes && i < |ws[|es|].nodes[j].disk.chain| && i + 1 < U64
    requires FewFaults(env, ws[0], Lapsed(ws, es), Slot(i + 1, ws[|es|].nodes[j].disk.chain[i].round, PRECOMMIT))
    ensures k in ws[|es|].nodes
    ensures var c := ws[|es|].nodes[j].disk.chain[i];
            var slot := Slot(i + 1, c.round, PRECOMMIT);
            && slot in ws[|es|].nodes[k].disk.slots && ws[|es|].nodes[k].disk.slots[slot] == c.block
            && SignedByQuorum(env, ws[|es|].net, PREVOTE, i + 1, c.round, c.block)
  {
    RunInv(env, ws, es);
    var w, lapsed := ws[|es|], Lapsed(ws, es);
    var c := w.nodes[j].disk.chain[i];
    var slot := Slot(i + 1, c.round, PRECOMMIT);
    assert HonestInv(env, j, LocalOf(w, j), lapsed);
    assert CommitJustified(env, w.net, i + 1, c);
    SameFaults(env, ws[0], w, lapsed, slot);
    k := QuorumHasHonest(env.vs(i + 1), Signers(w.net, PRECOMMIT, i + 1, c.round, c.block), FaultyKeys(env, w, lapsed, slot));
    assert HonestInv(env, k, LocalOf(w, k), lapsed);
    var b := Ballot(PRECOMMIT, i + 1, c.round, c.block, k);
    assert b in w.net && SlotOf(b) == slot;
    assert Precommitted(k, w.nodes[k], w.net, i + 1, c.round, c.block);
  }
}

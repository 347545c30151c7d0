/**
 * When an honest node signs two different blocks for one vote slot. RecordConsensusVote
 * (core/statemachine/statemachine.go) discards the error of its commit, so one failed commit
 * and one restart are enough, and without a failed commit it never happens.
 */
module Equivocation {
  import opened Wrappers
  import opened Bytes
  import opened Messages
  import opened Quorum
  import opened Protocol
  import opened Agreement

  /** Event i releases node k's ballot for this slot and block. */
  ghost predicate Releases(ws: seq<World>, es: seq<Event>, i: int, k: Key, slot: Slot, block: Bytes32)
    requires |ws| == |es| + 1
  {
    && 0 <= i < |es| && es[i].Honest? && es[i].who == k && k in ws[i].nodes
    && (es[i].act.CastPrevote? || es[i].act.CastPrecommit?) && es[i].act.released
    && MySlot(ws[i].nodes[k].rs, KindOf(es[i].act)) == slot && es[i].act.block == block
  }

  /** No ballot of k gets out while the commit of its slot fails. */
  ghost predicate NeverLapses(es: seq<Event>, k: Key) {
    forall i :: 0 <= i < |es| && es[i].Honest? && es[i].who == k ==> !Lapses(es[i].act)
  }

  ghost predicate Clash(a: Ballot, b: Ballot, k: Key) {
    a.voter == k && b.voter == k && SlotOf(a) == SlotOf(b) && a.block != b.block && a.block != NIL && b.block != NIL
  }

  /** k has signed two different blocks for one slot. */
  ghost predicate Equivocated(net: set<Ballot>, k: Key) {
    exists a, b :: a in net && b in net && Clash(a, b, k)
  }

  /** A slot whose commit failed under a released ballot is used again for another block. */
  ghost predicate Recasts(ws: seq<World>, es: seq<Event>, k: Key, i: int, j: int, slot: Slot, b: Bytes32, c: Bytes32)
    requires |ws| == |es| + 1
  {
    && i < j && Releases(ws, es, i, k, slot, b) && Releases(ws, es, j, k, slot, c)
    && Lapses(es[i].act) && b != c && b != NIL && c != NIL
  }

  // ---------------------------------------------------------------- ballots and slots along a run

  lemma {:induction false} NodesStay(env: Env, ws: seq<World>, es: seq<Event>, i: nat)
    requires env.Valid() && IsWorldRun(env, ws, es) && i <= |es|
    ensures ws[i].nodes.Keys == ws[0].nodes.Keys
  {
    if i > 0 {
      NodesStay(env, ws, es, i - 1);
      assert WorldStep(env, ws[i - 1], es[i - 1], ws[i - 1 + 1]);
    }
  }

  lemma StepKeeps(env: Env, w: World, e: Event, w': World, k: Key)
    requires env.Valid() && WorldStep(env, w, e, w') && k in w.nodes
    ensures k in w'.nodes && w.net <= w'.net && w.nodes[k].disk.slots.Keys <= w'.nodes[k].disk.slots.Keys
  {
  }

  /** Ballots and slots are never lost. */
  lemma {:induction false} Stay(env: Env, ws: seq<World>, es: seq<Event>, k: Key, i: nat, j: nat)
    requires env.Valid() && IsWorldRun(env, ws, es) && i <= j <= |es| && k in ws[i].nodes
    ensures k in ws[j].nodes && ws[i].net <= ws[j].net
    ensures ws[i].nodes[k].disk.slots.Keys <= ws[j].nodes[k].disk.slots.Keys
    decreases j - i
  {
    if i < j {
      Stay(env, ws, es, k, i, j - 1);
      assert WorldStep(env, ws[j - 1], es[j - 1], ws[j - 1 + 1]);
      StepKeeps(env, ws[j - 1], es[j - 1], ws[j], k);
    }
  }

  /** A new ballot of k is released by k's own cast. */
  lemma NewBallot(env: Env, w: World, e: Event, w': World, k: Key, b: Ballot)
    requires env.Valid() && WorldStep(env, w, e, w') && k in w.nodes && b in w'.net && b !in w.net && b.voter == k
    ensures e.Honest? && e.who == k && (e.act.CastPrevote? || e.act.CastPrecommit?) && e.act.released
    ensures MySlot(w.nodes[k].rs, KindOf(e.act)) == SlotOf(b) && e.act.block == b.block
  {
  }

  lemma {:induction false} BallotReleased(env: Env, ws: seq<World>, es: seq<Event>, k: Key, n: nat, b: Ballot) returns (i: int)
    requires env.Valid() && IsWorldRun(env, ws, es) && k in ws[0].nodes && n <= |es| && b in ws[n].net && b.voter == k
    ensures i < n && Releases(ws, es, i, k, SlotOf(b), b.block)
    decreases n
  {
    assert n > 0;
    assert WorldStep(env, ws[n - 1], es[n - 1], ws[n - 1 + 1]);
    if b in ws[n - 1].net {
      i := BallotReleased(env, ws, es, k, n - 1, b);
    } else {
      NodesStay(env, ws, es, n - 1);
      NewBallot(env, ws[n - 1], es[n - 1], ws[n], k, b);
      i := n - 1;
    }
  }

  lemma ReleasedBallot(env: Env, ws: seq<World>, es: seq<Event>, i: int, k: Key, slot: Slot, block: Bytes32)
    requires env.Valid() && IsWorldRun(env, ws, es) && Releases(ws, es, i, k, slot, block)
    ensures Ballot(slot.kind, slot.height, slot.round, block, k) in ws[|es|].net
    ensures slot !in ws[i].nodes[k].disk.slots
    ensures es[i].act.kept ==> k in ws[i + 1].nodes && slot in ws[i + 1].nodes[k].disk.slots
  {
    assert WorldStep(env, ws[i], es[i], ws[i + 1]);
    StepKeeps(env, ws[i], es[i], ws[i + 1], k);
    Stay(env, ws, es, k, i + 1, |es|);
  }

  /** A slot that was kept is not used again. */
  lemma KeptOnce(env: Env, ws: seq<World>, es: seq<Event>, k: Key, i: int, j: int, slot: Slot, b: Bytes32, c: Bytes32)
    requires env.Valid() && IsWorldRun(env, ws, es) && i < j
    requires Releases(ws, es, i, k, slot, b) && Releases(ws, es, j, k, slot, c)
    ensures Lapses(es[i].act)
  {
    ReleasedBallot(env, ws, es, i, k, slot, b);
    ReleasedBallot(env, ws, es, j, k, slot, c);
    if es[i].act.kept { Stay(env, ws, es, k, i + 1, j); }
  }

  lemma TwoReleases(env: Env, ws: seq<World>, es: seq<Event>, k: Key, a: Ballot, b: Ballot) returns (i: int, j: int)
    requires env.Valid() && IsWorldRun(env, ws, es) && k in ws[0].nodes
    requires a in ws[|es|].net && b in ws[|es|].net && Clash(a, b, k)
    ensures Recasts(ws, es, k, i, j, SlotOf(a), a.block, b.block) || Recasts(ws, es, k, i, j, SlotOf(a), b.block, a.block)
  {
    i := BallotReleased(env, ws, es, k, |es|, a);
    j := BallotReleased(env, ws, es, k, |es|, b);
    if i < j {
      KeptOnce(env, ws, es, k, i, j, SlotOf(a), a.block, b.block);
    } else {
      KeptOnce(env, ws, es, k, j, i, SlotOf(a), b.block, a.block);
      i, j := j, i;
    }
  }

  /**
   * An honest node signs two different blocks for one slot exactly when it releases a ballot while
   * the commit of its slot fails and later releases another one for that slot.
   */
  lemma EquivocatesExactly(env: Env, ws: seq<World>, es: seq<Event>, k: Key)
    requires env.Valid() && IsWorldRun(env, ws, es) && k in ws[0].nodes
    ensures Equivocated(ws[|es|].net, k) <==> exists i, j, slot, b, c :: Recasts(ws, es, k, i, j, slot, b, c)
  {
    if Equivocated(ws[|es|].net, k) {
      var a, b :| a in ws[|es|].net && b in ws[|es|].net && Clash(a, b, k);
      var i, j := TwoReleases(env, ws, es, k, a, b);
    }
    if i, j, slot, b, c :| Recasts(ws, es, k, i, j, slot, b, c) {
      ReleasedBallot(env, ws, es, i, k, slot, b);
      ReleasedBallot(env, ws, es, j, k, slot, c);
      assert Clash(Ballot(slot.kind, slot.height, slot.round, b, k), Ballot(slot.kind, slot.height, slot.round, c, k), k);
    }
  }

  /** Without a failed commit under a released ballot it never does. */
  lemma KeepersDoNotEquivocate(env: Env, ws: seq<World>, es: seq<Event>, k: Key)
    requires env.Valid() && IsWorldRun(env, ws, es) && k in ws[0].nodes && NeverLapses(es, k)
    ensures !Equivocated(ws[|es|].net, k)
  {
    EquivocatesExactly(env, ws, es, k);
  }

  // ---------------------------------------------------------------- a run that does

  function Blank(): Node {
    Node(NewRoundState(1), Disk(map[], None, []))
  }

  /** The same node after adopting a proposal. */
  function Adopted(p: Proposal): Node {
    Node(NewRoundState(1).(phase := Prevoting, proposal := Some(p)), Disk(map[], None, []))
  }

  function Prevote(k: Key, block: Bytes32): Ballot {
    Ballot(PREVOTE, 1, 0, block, k)
  }

  function Alone(k: Key, n: Node, net: set<Ballot>): World {
    World(map[k := n], net)
  }

  /** One round of adopting a proposal and prevoting it, kept or not. */
  lemma AdoptAndPrevote(env: Env, k: Key, p: Proposal, net: set<Ballot>, kept: bool)
    requires env.Valid() && Elected(env, Blank(), p)
    ensures WorldStep(env, Alone(k, Blank(), net), Honest(k, EnterPrevote(Some(p))), Alone(k, Adopted(p), net))
    ensures var n := Adopted(p);
            var after := if kept then n.(disk := n.disk.(slots := map[Slot(1, 0, PREVOTE) := env.hash(p)])) else n;
            WorldStep(env, Alone(k, n, net), Honest(k, CastPrevote(env.hash(p), kept, true)),
                      Alone(k, after, net + {Prevote(k, env.hash(p))}))
  {
    var n, slot := Adopted(p), Slot(1, 0, PREVOTE);
    assert n.disk.slots[slot := env.hash(p)] == map[slot := env.hash(p)];
    var after := if kept then n.(disk := n.disk.(slots := map[slot := env.hash(p)])) else n;
    assert map[k := n] == map[k := Blank()][k := n] && map[k := after] == map[k := n][k := after];
  }

  lemma Restarts(env: Env, k: Key, p: Proposal, net: set<Ballot>)
    requires env.Valid()
    ensures WorldStep(env, Alone(k, Adopted(p), net), Honest(k, Crash), Alone(k, Blank(), net))
  {
    assert map[k := Blank()] == map[k := Adopted(p)][k := Blank()];
  }

  /**
   * A node prevotes a proposal while the commit of its slot fails, restarts before its snapshot is
   * written, and prevotes another proposal of the same round.
   */
  lemma LapseThenRestart(env: Env, k: Key, p: Proposal, q: Proposal) returns (ws: seq<World>, es: seq<Event>)
    requires env.Valid() && Elected(env, Blank(), p) && Elected(env, Blank(), q)
    requires env.hash(p) != env.hash(q) && env.hash(p) != NIL && env.hash(q) != NIL
    ensures IsWorldRun(env, ws, es) && k in ws[0].nodes && k in ws[|es|].nodes && Equivocated(ws[|es|].net, k)
  {
    var x, y := Prevote(k, env.hash(p)), Prevote(k, env.hash(q));
    var last := Adopted(q).(disk := Disk(map[Slot(1, 0, PREVOTE) := env.hash(q)], None, []));
    ws := [Alone(k, Blank(), {}), Alone(k, Adopted(p), {}), Alone(k, Adopted(p), {x}), Alone(k, Blank(), {x}),
           Alone(k, Adopted(q), {x}), Alone(k, last, {x} + {y})];
    es := [Honest(k, EnterPrevote(Some(p))), Honest(k, CastPrevote(env.hash(p), false, true)), Honest(k, Crash),
           Honest(k, EnterPrevote(Some(q))), Honest(k, CastPrevote(env.hash(q), true, true))];
    AdoptAndPrevote(env, k, p, {}, false);
    assert {} + {x} == {x};
    Restarts(env, k, p, {x});
    AdoptAndPrevote(env, k, q, {x}, true);
    assert Clash(x, y, k);
  }
}

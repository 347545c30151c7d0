/**
 * Several engines as they run. Their recorded histories, interleaved in any order in which ballots are
 * heard after they are signed, are a run of the network, so agreement holds of the engines themselves.
 */
module Networks {
  import opened Bytes
  import opened Messages
  import opened Quorum
  import opened Protocol
  import opened Agreement
  import opened ConsensusEngine
  import Equivocation

  /** One recorded step of an engine, or a ballot of a key that no engine stands for. */
  datatype Turn = Runs(who: Key, entry: Entry) | Forges(ballot: Ballot)

  function Start(): Local {
    Local(Equivocation.Blank(), {})
  }

  function Beginning(keys: set<Key>): World {
    World(map k | k in keys :: Equivocation.Blank(), {})
  }

  /** What one engine recorded. */
  ghost function Trail(turns: seq<Turn>, k: Key): seq<Entry> {
    if turns == [] then []
    else
      var t := turns[|turns| - 1];
      Trail(turns[..|turns| - 1], k) + if t.Runs? && t.who == k then [t.entry] else []
  }

  /** Every ballot signed so far. */
  ghost function Spread(turns: seq<Turn>): set<Ballot> {
    if turns == [] then {}
    else
      var t := turns[|turns| - 1];
      Spread(turns[..|turns| - 1]) + if t.Runs? then t.entry.after.net else {t.ballot}
  }

  /** Engines hear only what has been signed, and forged ballots are not theirs. */
  ghost predicate Causal(keys: set<Key>, turns: seq<Turn>) {
    turns == [] ||
    (var m := |turns| - 1;
     && Causal(keys, turns[..m])
     && match turns[m]
        case Forges(b) => b.voter !in keys
        case Runs(k, e) => k in keys && (e.act.Overhear? ==> e.act.heard <= Spread(turns[..m])))
  }

  /** Each engine's recorded history is a run of the protocol from the start. */
  ghost predicate AllRun(env: Env, keys: set<Key>, turns: seq<Turn>)
    requires env.Valid()
  {
    forall k :: k in keys ==> IsRun(env, k, Start(), Trail(turns, k))
  }

  /** The slots whose commit failed under a released ballot. */
  ghost function LapsedIn(turns: seq<Turn>): set<(Key, Slot)> {
    if turns == [] then {}
    else
      var t := turns[|turns| - 1];
      LapsedIn(turns[..|turns| - 1])
      + if t.Runs? && Lapses(t.entry.act) then {(t.who, MySlot(t.entry.after.node.rs, KindOf(t.entry.act)))} else {}
  }

  // ---------------------------------------------------------------- one step

  /** A step is possible whatever else has been signed. */
  lemma StepWidens(env: Env, k: Key, n: Node, net: set<Ballot>, a: Action, s': Local, all: set<Ballot>)
    requires env.Valid() && Step(env, k, Local(n, net), a, s') && !a.Overhear? && net <= all
    ensures Step(env, k, Local(n, all), a, Local(s'.node, all + s'.net))
  {
    assert s'.net == net || s'.net == net + (s'.net - net);
    assert s'.net == net ==> all + s'.net == all;
    if a.CastPrevote? && a.released { assert all + s'.net == all + {MyBallot(k, n.rs, PREVOTE, a.block)}; }
    if a.CastPrecommit? && a.released { assert all + s'.net == all + {MyBallot(k, n.rs, PRECOMMIT, a.block)}; }
  }

  lemma CastKeepsRound(env: Env, k: Key, s: Local, a: Action, s': Local)
    requires env.Valid() && Step(env, k, s, a, s') && Lapses(a)
    ensures s'.node.rs == s.node.rs
  {
  }

  /** The world after some turns: every node where its engine is, and everything signed. */
  ghost predicate Mirrors(w: World, keys: set<Key>, turns: seq<Turn>) {
    && w.nodes.Keys == keys && w.net == Spread(turns)
    && forall k :: k in keys ==> MirrorsOne(w, turns, k)
  }

  ghost predicate MirrorsOne(w: World, turns: seq<Turn>, k: Key) {
    var s := Last(Start(), Trail(turns, k));
    k in w.nodes && w.nodes[k] == s.node && s.net <= w.net
  }

  lemma TrailOn(env: Env, keys: set<Key>, turns: seq<Turn>, m: nat)
    requires env.Valid() && m + 1 == |turns| && AllRun(env, keys, turns)
    ensures AllRun(env, keys, turns[..m])
    ensures turns[m].Runs? && turns[m].who in keys ==>
              Step(env, turns[m].who, Last(Start(), Trail(turns[..m], turns[m].who)), turns[m].entry.act, turns[m].entry.after)
  {
    forall k | k in keys ensures IsRun(env, k, Start(), Trail(turns[..m], k)) {
      var before, all := Trail(turns[..m], k), Trail(turns, k);
      assert IsRun(env, k, Start(), all);
      if turns[m].Runs? && turns[m].who == k { assert all[..|all| - 1] == before; } else { assert all == before; }
    }
    if turns[m].Runs? && turns[m].who in keys {
      var before, all := Trail(turns[..m], turns[m].who), Trail(turns, turns[m].who);
      assert IsRun(env, turns[m].who, Start(), all) && all[..|all| - 1] == before;
    }
  }

  /** The next world. */
  ghost function Next(w: World, t: Turn): World {
    match t
    case Forges(b) => w.(net := w.net + {b})
    case Runs(k, e) => World(w.nodes[k := e.after.node], w.net + e.after.net)
  }

  /** An engine's trail after one more turn. */
  lemma TrailNext(turns: seq<Turn>, m: nat, k: Key)
    requires m + 1 == |turns|
    ensures turns[m].Runs? && turns[m].who == k ==> Last(Start(), Trail(turns, k)) == turns[m].entry.after
    ensures !(turns[m].Runs? && turns[m].who == k) ==> Trail(turns, k) == Trail(turns[..m], k)
  {
  }

  lemma MirrorsOneNext(turns: seq<Turn>, m: nat, w: World, k: Key)
    requires m + 1 == |turns| && MirrorsOne(w, turns[..m], k) && (turns[m].Runs? ==> turns[m].who in w.nodes)
    ensures MirrorsOne(Next(w, turns[m]), turns, k)
  {
    TrailNext(turns, m, k);
  }

  lemma MirrorsNext(keys: set<Key>, turns: seq<Turn>, m: nat, w: World)
    requires m + 1 == |turns| && Causal(keys, turns) && Mirrors(w, keys, turns[..m])
    ensures Mirrors(Next(w, turns[m]), keys, turns)
  {
    assert Next(w, turns[m]).nodes.Keys == keys;
    forall k | k in keys ensures MirrorsOne(Next(w, turns[m]), turns, k) {
      assert MirrorsOne(w, turns[..m], k);
      MirrorsOneNext(turns, m, w, k);
    }
  }

  lemma TurnIsStep(env: Env, keys: set<Key>, turns: seq<Turn>, m: nat, w: World)
    requires env.Valid() && m + 1 == |turns| && Causal(keys, turns) && AllRun(env, keys, turns) && Mirrors(w, keys, turns[..m])
    requires !(turns[m].Runs? && turns[m].entry.act.Overhear?)
    ensures var e := if turns[m].Runs? then Honest(turns[m].who, turns[m].entry.act) else Faulty(turns[m].ballot);
            && WorldStep(env, w, e, Next(w, turns[m]))
            && LapsedIn(turns) == LapsedIn(turns[..m]) + LapsedBy(w, e)
  {
    if turns[m].Runs? {
      var k, e := turns[m].who, turns[m].entry;
      TrailOn(env, keys, turns, m);
      assert MirrorsOne(w, turns[..m], k);
      var s := Last(Start(), Trail(turns[..m], k));
      StepWidens(env, k, s.node, s.net, e.act, e.after, w.net);
      if Lapses(e.act) { CastKeepsRound(env, k, s, e.act, e.after); }
    }
  }

  /** Hearing changes no node and adds nothing to what has been signed. */
  lemma HearingChangesNothing(env: Env, keys: set<Key>, turns: seq<Turn>, m: nat, w: World)
    requires env.Valid() && m + 1 == |turns| && Causal(keys, turns) && AllRun(env, keys, turns) && Mirrors(w, keys, turns[..m])
    requires turns[m].Runs? && turns[m].entry.act.Overhear?
    ensures Next(w, turns[m]) == w && LapsedIn(turns) == LapsedIn(turns[..m])
  {
    TrailOn(env, keys, turns, m);
    assert MirrorsOne(w, turns[..m], turns[m].who);
    HeardBefore(env, w, turns[m].who, Last(Start(), Trail(turns[..m], turns[m].who)), turns[m].entry);
  }

  lemma HeardBefore(env: Env, w: World, k: Key, s: Local, e: Entry)
    requires env.Valid() && e.act.Overhear? && Step(env, k, s, e.act, e.after)
    requires k in w.nodes && w.nodes[k] == s.node && s.net <= w.net && e.act.heard <= w.net
    ensures Next(w, Runs(k, e)) == w
  {
    assert w.net + e.after.net == w.net && w.nodes[k := e.after.node] == w.nodes;
  }

  // ---------------------------------------------------------------- whole histories

  lemma RunGrows(env: Env, ws: seq<World>, es: seq<Event>, e: Event, w: World)
    requires env.Valid() && IsWorldRun(env, ws, es) && WorldStep(env, ws[|es|], e, w)
    ensures IsWorldRun(env, ws + [w], es + [e]) && Lapsed(ws + [w], es + [e]) == Lapsed(ws, es) + LapsedBy(ws[|es|], e)
  {
    assert (ws + [w])[..|es| + 1] == ws && (es + [e])[..|es|] == es;
  }

  /** Interleaved histories of engines are a run of the network. */
  lemma {:induction false} Weave(env: Env, keys: set<Key>, turns: seq<Turn>) returns (ws: seq<World>, es: seq<Event>)
    requires env.Valid() && Causal(keys, turns) && AllRun(env, keys, turns)
    ensures IsWorldRun(env, ws, es) && ws[0] == Beginning(keys)
    ensures Mirrors(ws[|es|], keys, turns) && Lapsed(ws, es) == LapsedIn(turns)
  {
    if turns == [] {
      ws, es := [Beginning(keys)], [];
    } else {
      var m := |turns| - 1;
      TrailOn(env, keys, turns, m);
      ws, es := Weave(env, keys, turns[..m]);
      var w := ws[|es|];
      MirrorsNext(keys, turns, m, w);
      if turns[m].Runs? && turns[m].entry.act.Overhear? {
        HearingChangesNothing(env, keys, turns, m, w);
      } else {
        TurnIsStep(env, keys, turns, m, w);
        var e := if turns[m].Runs? then Honest(turns[m].who, turns[m].entry.act) else Faulty(turns[m].ballot);
        RunGrows(env, ws, es, e, Next(w, turns[m]));
        ws, es := ws + [Next(w, turns[m])], es + [e];
      }
    }
  }

  /** The engine has recorded its part of these turns. */
  ghost predicate TakesPart(e: Engine, env: Env, keys: set<Key>, turns: seq<Turn>)
    reads e
  {
    e.Valid() && e.env == env && e.self in keys && e.origin == Start() && e.trail == Trail(turns, e.self)
  }

  /** Two engines that commit a height in the same round commit the same block hash. */
  lemma EnginesAgree(a: Engine, b: Engine, env: Env, keys: set<Key>, turns: seq<Turn>, i: nat)
    requires env.Valid() && Causal(keys, turns) && AllRun(env, keys, turns)
    requires TakesPart(a, env, keys, turns) && TakesPart(b, env, keys, turns)
    requires i < |a.disk.chain| && i < |b.disk.chain| && a.disk.chain[i].round == b.disk.chain[i].round
    requires i + 1 < U64 ==> FewFaults(env, Beginning(keys), LapsedIn(turns), Slot(i + 1, a.disk.chain[i].round, PRECOMMIT))
    ensures var c, d := a.disk.chain[i], b.disk.chain[i];
            c.block == env.hash(c.proposal) == env.hash(d.proposal) == d.block && env.encodes(c.proposal) && env.encodes(d.proposal)
  {
    var ws, es := Weave(env, keys, turns);
    assert MirrorsOne(ws[|es|], turns, a.self) && MirrorsOne(ws[|es|], turns, b.self);
    CommitsAgree(env, ws, es, a.self, b.self, i);
  }

  /** And all their non-nil precommits of one height and round, in their slots or released, name one block. */
  lemma EnginesPrecommitAlike(a: Engine, b: Engine, env: Env, keys: set<Key>, turns: seq<Turn>, height: u64, round: u32, x: Bytes32, y: Bytes32)
    requires env.Valid() && Causal(keys, turns) && AllRun(env, keys, turns)
    requires TakesPart(a, env, keys, turns) && TakesPart(b, env, keys, turns)
    requires FewFaults(env, Beginning(keys), LapsedIn(turns), Slot(height, round, PREVOTE)) && x != NIL && y != NIL
    requires Precommitted(a.self, a.Here().node, a.net, height, round, x) && Precommitted(b.self, b.Here().node, b.net, height, round, y)
    ensures x == y
  {
    var ws, es := Weave(env, keys, turns);
    assert MirrorsOne(ws[|es|], turns, a.self) && MirrorsOne(ws[|es|], turns, b.self);
    HonestPrecommitsAgree(env, ws, es, a.self, b.self, height, round, x, y);
  }
}

/** Stake-weighted quorums: core/consensus/vote.go and quorumBlock in consensus.go. */
module Quorum {
  import opened Bytes
  import opened Messages

  type Key = Bytes32

  /** The bonded validators and their stakes, index by index (staking.BondedAmounts). */
  datatype Validators = Validators(keys: seq<Key>, stakes: seq<nat>) {
    ghost predicate Valid() {
      && |keys| == |stakes|
      && forall i, j :: 0 <= i < j < |keys| ==> keys[i] != keys[j]
    }
  }

  /** Stake held by the first n validators that belong to s. */
  ghost function StakeUpTo(vs: Validators, s: set<Key>, n: nat): nat
    requires vs.Valid() && n <= |vs.keys|
  {
    if n == 0 then 0
    else StakeUpTo(vs, s, n - 1) + if vs.keys[n - 1] in s then vs.stakes[n - 1] else 0
  }

  ghost function Stake(vs: Validators, s: set<Key>): nat
    requires vs.Valid()
  {
    StakeUpTo(vs, s, |vs.keys|)
  }

  ghost function KeySet(vs: Validators): set<Key> {
    set k | k in vs.keys
  }

  ghost function Total(vs: Validators): nat
    requires vs.Valid()
  {
    Stake(vs, KeySet(vs))
  }

  /** Strictly more than two thirds of all bonded stake. */
  ghost predicate IsQuorum(vs: Validators, s: set<Key>)
    requires vs.Valid()
  {
    3 * Stake(vs, s) > 2 * Total(vs)
  }

  /** The validators whose stored vote names block b. */
  ghost function Backers(votes: map<Key, Vote>, b: Bytes32): set<Key> {
    set k | k in votes && votes[k].ballot.block == b
  }

  // ---------------------------------------------------------------- arithmetic of stake

  lemma {:induction false} StakeModular(vs: Validators, a: set<Key>, b: set<Key>, n: nat)
    requires vs.Valid() && n <= |vs.keys|
    ensures StakeUpTo(vs, a, n) + StakeUpTo(vs, b, n) == StakeUpTo(vs, a + b, n) + StakeUpTo(vs, a * b, n)
  {
    if n > 0 { StakeModular(vs, a, b, n - 1); }
  }

  lemma {:induction false} StakeMonotone(vs: Validators, a: set<Key>, b: set<Key>, n: nat)
    requires vs.Valid() && n <= |vs.keys|
    requires forall k :: k in a && k in vs.keys ==> k in b
    ensures StakeUpTo(vs, a, n) <= StakeUpTo(vs, b, n)
  {
    if n > 0 { StakeMonotone(vs, a, b, n - 1); }
  }

  /** A set with more stake than another holds a validator outside it. */
  lemma Outweighs(vs: Validators, a: set<Key>, b: set<Key>) returns (k: Key)
    requires vs.Valid() && Stake(vs, a) > Stake(vs, b)
    ensures k in vs.keys && k in a && k !in b
  {
    if forall k :: k in a && k in vs.keys ==> k in b {
      StakeMonotone(vs, a, b, |vs.keys|);
      assert false;
    }
    k :| k in vs.keys && k in a && k !in b;
  }

  /**
   * Quorum intersection: two quorums share a validator outside any set that holds at
   * most a third of the stake.
   */
  lemma QuorumsShareHonest(vs: Validators, p: set<Key>, q: set<Key>, faulty: set<Key>) returns (k: Key)
    requires vs.Valid() && IsQuorum(vs, p) && IsQuorum(vs, q)
    requires 3 * Stake(vs, faulty) <= Total(vs)
    ensures k in vs.keys && k in p && k in q && k !in faulty
  {
    StakeModular(vs, p, q, |vs.keys|);
    StakeMonotone(vs, p + q, KeySet(vs), |vs.keys|);
    k := Outweighs(vs, p * q, faulty);
  }

  lemma QuorumHasHonest(vs: Validators, p: set<Key>, faulty: set<Key>) returns (k: Key)
    requires vs.Valid() && IsQuorum(vs, p)
    requires 3 * Stake(vs, faulty) <= Total(vs)
    ensures k in vs.keys && k in p && k !in faulty
  {
    k := QuorumsShareHonest(vs, p, p, faulty);
  }

  lemma {:induction false} StakeInsert(vs: Validators, s: set<Key>, i: nat, n: nat)
    requires vs.Valid() && i < |vs.keys| && n <= |vs.keys|
    requires vs.keys[i] !in s
    ensures StakeUpTo(vs, s + {vs.keys[i]}, n) == StakeUpTo(vs, s, n) + if i < n then vs.stakes[i] else 0
  {
    if n > 0 { StakeInsert(vs, s, i, n - 1); }
  }

  lemma {:induction false} StakeOutsider(vs: Validators, s: set<Key>, k: Key, n: nat)
    requires vs.Valid() && n <= |vs.keys| && k !in vs.keys
    ensures StakeUpTo(vs, s + {k}, n) == StakeUpTo(vs, s, n)
  {
    if n > 0 { StakeOutsider(vs, s, k, n - 1); }
  }

  lemma {:induction false} StakeOfNone(vs: Validators, n: nat)
    requires vs.Valid() && n <= |vs.keys|
    ensures StakeUpTo(vs, {}, n) == 0
  {
    if n > 0 { StakeOfNone(vs, n - 1); }
  }

  lemma {:induction false} StakePrefixOfAll(vs: Validators, n: nat)
    requires vs.Valid() && n < |vs.keys|
    ensures StakeUpTo(vs, KeySet(vs), n + 1) == StakeUpTo(vs, KeySet(vs), n) + vs.stakes[n]
  {
    assert vs.keys[n] in KeySet(vs);
  }

  // ---------------------------------------------------------------- the source's loops

  /** The stakeMap/totalStake loop that opens all three quorum checks. */
  method StakeTable(vs: Validators) returns (table: map<Key, nat>, total: nat)
    requires vs.Valid()
    ensures table.Keys == KeySet(vs)
    ensures forall i :: 0 <= i < |vs.keys| ==> table[vs.keys[i]] == vs.stakes[i]
    ensures total == Total(vs)
  {
    table, total := map[], 0;
    for n := 0 to |vs.keys|
      invariant TableOf(vs, table, n)
      invariant total == StakeUpTo(vs, KeySet(vs), n)
    {
      StakePrefixOfAll(vs, n);
      TableStep(vs, table, n);
      table := table[vs.keys[n] := vs.stakes[n]];
      total := total + vs.stakes[n];
    }
    TableComplete(vs, table);
  }

  /** The table holds exactly the first n validators. */
  ghost predicate TableOf(vs: Validators, table: map<Key, nat>, n: nat)
    requires vs.Valid() && n <= |vs.keys|
  {
    && (forall i :: 0 <= i < n ==> vs.keys[i] in table && table[vs.keys[i]] == vs.stakes[i])
    && (forall k :: k in table ==> exists i :: 0 <= i < n && vs.keys[i] == k)
  }

  lemma TableComplete(vs: Validators, table: map<Key, nat>)
    requires vs.Valid() && TableOf(vs, table, |vs.keys|)
    ensures table.Keys == KeySet(vs)
  {
    forall k ensures k in table <==> k in KeySet(vs) {
      if k in KeySet(vs) { var i :| 0 <= i < |vs.keys| && vs.keys[i] == k; }
    }
  }

  lemma TableStep(vs: Validators, table: map<Key, nat>, n: nat)
    requires vs.Valid() && n < |vs.keys| && TableOf(vs, table, n)
    ensures TableOf(vs, table[vs.keys[n] := vs.stakes[n]], n + 1)
  {
    var next := table[vs.keys[n] := vs.stakes[n]];
    forall k | k in next ensures exists i :: 0 <= i < n + 1 && vs.keys[i] == k {
      if k in table {
        var i :| 0 <= i < n && vs.keys[i] == k;
      } else {
        assert vs.keys[n] == k;
      }
    }
  }

  /** Counting one more voter adds its stake, or nothing when it is not bonded. */
  lemma CountVoter(vs: Validators, table: map<Key, nat>, s: set<Key>, k: Key)
    requires vs.Valid() && table.Keys == KeySet(vs) && k !in s
    requires forall i :: 0 <= i < |vs.keys| ==> table[vs.keys[i]] == vs.stakes[i]
    ensures Stake(vs, s + {k}) == Stake(vs, s) + if k in table then table[k] else 0
  {
    if k in table {
      var i :| 0 <= i < |vs.keys| && vs.keys[i] == k;
      StakeInsert(vs, s, i, |vs.keys|);
    } else {
      StakeOutsider(vs, s, k, |vs.keys|);
    }
  }

  /** Map iteration order is unspecified, so each loop takes an arbitrary remaining key. */
  method QuorumReached(votes: map<Key, Vote>, vs: Validators) returns (reached: bool)
    requires vs.Valid()
    ensures reached <==> IsQuorum(vs, votes.Keys)
  {
    var table, total := StakeTable(vs);
    var todo, sum := votes.Keys, 0;
    StakeOfNone(vs, |vs.keys|);
    assert votes.Keys - todo == {};
    while todo != {}
      invariant todo <= votes.Keys
      invariant sum == Stake(vs, votes.Keys - todo)
      decreases todo
    {
      var k :| k in todo;
      CountVoter(vs, table, votes.Keys - todo, k);
      assert votes.Keys - (todo - {k}) == (votes.Keys - todo) + {k};
      if k in table { sum := sum + table[k]; }
      todo := todo - {k};
    }
    assert votes.Keys - todo == votes.Keys;
    reached := 3 * sum > 2 * total;
  }

  /** Every vote is filed under its own voter's key (handleVote, consensus.go:390 and 415). */
  ghost predicate Filed(votes: map<Key, Vote>) {
    forall k :: k in votes ==> votes[k].ballot.voter == k
  }

  /** The tally of one block over the voters counted so far. */
  ghost function BackersIn(votes: map<Key, Vote>, seen: set<Key>, b: Bytes32): set<Key> {
    set k | k in votes && k in seen && votes[k].ballot.block == b
  }

  ghost predicate Tallied(vs: Validators, votes: map<Key, Vote>, seen: set<Key>, tally: map<Bytes32, nat>)
    requires vs.Valid()
  {
    forall b :: (if b in tally then tally[b] else 0) == Stake(vs, BackersIn(votes, seen, b))
  }

  lemma TallyOne(vs: Validators, votes: map<Key, Vote>, table: map<Key, nat>, seen: set<Key>, k: Key,
                 tally: map<Bytes32, nat>)
    requires vs.Valid() && table.Keys == KeySet(vs)
    requires forall i :: 0 <= i < |vs.keys| ==> table[vs.keys[i]] == vs.stakes[i]
    requires k in votes && k !in seen && Tallied(vs, votes, seen, tally)
    ensures var b := votes[k].ballot.block;
            var was := if b in tally then tally[b] else 0;
            Tallied(vs, votes, seen + {k}, if k in table then tally[b := was + table[k]] else tally)
  {
    var b := votes[k].ballot.block;
    var was := if b in tally then tally[b] else 0;
    var tally' := if k in table then tally[b := was + table[k]] else tally;
    forall c ensures (if c in tally' then tally'[c] else 0) == Stake(vs, BackersIn(votes, seen + {k}, c)) {
      if c == b {
        CountVoter(vs, table, BackersIn(votes, seen, b), k);
        assert BackersIn(votes, seen + {k}, b) == BackersIn(votes, seen, b) + {k};
      } else {
        assert BackersIn(votes, seen + {k}, c) == BackersIn(votes, seen, c);
      }
    }
  }

  /**
   * quorumBlock: whichever order the two maps are walked in, the answer is the one block
   * whose backers form a quorum, and there is an answer exactly when such a block exists.
   */
  method QuorumBlock(votes: map<Key, Vote>, vs: Validators) returns (block: Bytes32, found: bool)
    requires vs.Valid() && Filed(votes)
    ensures found ==> IsQuorum(vs, Backers(votes, block))
    ensures !found ==> block == NIL && forall b :: !IsQuorum(vs, Backers(votes, b))
    ensures found ==> forall b :: IsQuorum(vs, Backers(votes, b)) ==> b == block
  {
    var table, total := StakeTable(vs);
    var tally: map<Bytes32, nat> := map[];
    var todo := votes.Keys;
    forall b ensures Stake(vs, BackersIn(votes, {}, b)) == 0 {
      assert BackersIn(votes, {}, b) == {};
      StakeOfNone(vs, |vs.keys|);
    }
    assert votes.Keys - todo == {};
    while todo != {}
      invariant todo <= votes.Keys
      invariant Tallied(vs, votes, votes.Keys - todo, tally)
      decreases todo
    {
      var k :| k in todo;
      var v := votes[k];
      var b := v.ballot.block;
      TallyOne(vs, votes, table, votes.Keys - todo, k, tally);
      assert votes.Keys - (todo - {k}) == (votes.Keys - todo) + {k};
      if v.ballot.voter in table {
        tally := tally[b := (if b in tally then tally[b] else 0) + table[v.ballot.voter]];
      }
      todo := todo - {k};
    }
    forall b ensures (if b in tally then tally[b] else 0) == Stake(vs, Backers(votes, b)) {
      assert Backers(votes, b) == BackersIn(votes, votes.Keys - todo, b);
    }
    var left := tally.Keys;
    while left != {}
      invariant left <= tally.Keys
      invariant forall b :: b in tally && b !in left ==> 3 * tally[b] <= 2 * total
      decreases left
    {
      var b :| b in left;
      if 3 * tally[b] > 2 * total {
        forall c | IsQuorum(vs, Backers(votes, c)) ensures c == b { OneQuorumBlock(vs, votes, b, c); }
        return b, true;
      }
      left := left - {b};
    }
    return NIL, false;
  }

  /** No two blocks can both gather a quorum from one set of votes. */
  lemma OneQuorumBlock(vs: Validators, votes: map<Key, Vote>, b: Bytes32, c: Bytes32)
    requires vs.Valid() && IsQuorum(vs, Backers(votes, b)) && IsQuorum(vs, Backers(votes, c))
    ensures b == c
  {
    StakeOfNone(vs, |vs.keys|);
    var k := QuorumsShareHonest(vs, Backers(votes, b), Backers(votes, c), {});
  }
}

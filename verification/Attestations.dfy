/** Attestations: attestationFromPrecommits (consensus.go) and VerifyAttestationForChain (vote.go). */
module Attestations {
  import opened Bytes
  import opened Messages
  import opened Quorum

  ghost function Voters(votes: seq<Vote>): set<Key> {
    set v | v in votes :: v.ballot.voter
  }

  ghost predicate DistinctVoters(votes: seq<Vote>) {
    forall i, j :: 0 <= i < j < |votes| ==> votes[i].ballot.voter != votes[j].ballot.voter
  }

  /** One vote fits the attestation it is listed in; sigOk is the verdict of the signature check. */
  ghost predicate Fits(a: Attestation, vs: Validators, sigOk: Vote -> bool, v: Vote) {
    && v.ballot.kind == PRECOMMIT && v.ballot.height == a.height
    && v.ballot.round == a.round && v.ballot.block == a.block
    && v.ballot.voter in vs.keys
    && sigOk(v)
  }

  /** What an attestation must show: a quorum of distinct validators precommitted to one block. */
  ghost predicate Accepts(a: Attestation, vs: Validators, sigOk: Vote -> bool)
    requires vs.Valid()
  {
    && a.votes != []
    && (forall v :: v in a.votes ==> Fits(a, vs, sigOk, v))
    && DistinctVoters(a.votes)
    && IsQuorum(vs, Voters(a.votes))
  }

  method VerifyAttestation(a: Attestation, vs: Validators, sigOk: Vote -> bool) returns (ok: bool)
    requires vs.Valid()
    ensures ok <==> Accepts(a, vs, sigOk)
  {
    if a.votes == [] { return false; }
    var table, total := StakeTable(vs);
    var seen: set<Key>, voted := {}, 0;
    StakeOfNone(vs, |vs.keys|);
    for n := 0 to |a.votes|
      invariant seen == Voters(a.votes[..n])
      invariant forall v :: v in a.votes[..n] ==> Fits(a, vs, sigOk, v)
      invariant DistinctVoters(a.votes[..n])
      invariant voted == Stake(vs, seen)
    {
      var v := a.votes[n];
      assert v in a.votes;
      var b := v.ballot;
      if b.kind != PRECOMMIT || b.height != a.height || b.round != a.round || b.block != a.block {
        return false;
      }
      if b.voter !in table { return false; }
      if b.voter in seen {
        var u :| u in a.votes[..n] && u.ballot.voter == b.voter;
        var i :| 0 <= i < n && a.votes[i] == u;
        assert a.votes[i].ballot.voter == a.votes[n].ballot.voter;
        return false;
      }
      if !sigOk(v) { return false; }
      CountVoter(vs, table, seen, b.voter);
      assert a.votes[..n + 1] == a.votes[..n] + [v];
      seen, voted := seen + {b.voter}, voted + table[b.voter];
    }
    assert a.votes[..|a.votes|] == a.votes;
    StakeMonotone(vs, seen, KeySet(vs), |vs.keys|);
    ok := total != 0 && 3 * voted > 2 * total;
  }

  // ---------------------------------------------------------------- building one

  /** sort.Slice by key bytes: equal-length strings compare as the numbers they denote. */
  function Insert(v: Vote, votes: seq<Vote>): seq<Vote> {
    if votes == [] || Num(v.ballot.voter) <= Num(votes[0].ballot.voter) then [v] + votes
    else [votes[0]] + Insert(v, votes[1..])
  }

  ghost predicate Sorted(votes: seq<Vote>) {
    forall i, j :: 0 <= i < j < |votes| ==> Num(votes[i].ballot.voter) < Num(votes[j].ballot.voter)
  }

  lemma KeysByNumber(a: Key, b: Key)
    requires Num(a) == Num(b)
    ensures a == b
  {
    BEOfNum(a);
    BEOfNum(b);
  }

  lemma {:induction false} InsertAdds(v: Vote, votes: seq<Vote>)
    ensures forall u :: u in Insert(v, votes) <==> u == v || u in votes
  {
    if votes != [] && Num(v.ballot.voter) > Num(votes[0].ballot.voter) {
      InsertAdds(v, votes[1..]);
      assert votes == [votes[0]] + votes[1..];
    }
  }

  lemma SortedCons(v: Vote, votes: seq<Vote>)
    requires Sorted(votes) && forall u :: u in votes ==> Num(v.ballot.voter) < Num(u.ballot.voter)
    ensures Sorted([v] + votes)
  {
  }

  lemma SortedHead(votes: seq<Vote>)
    requires Sorted(votes) && votes != []
    ensures Sorted(votes[1..]) && forall u :: u in votes[1..] ==> Num(votes[0].ballot.voter) < Num(u.ballot.voter)
  {
  }

  lemma {:induction false} InsertSorts(v: Vote, votes: seq<Vote>)
    requires Sorted(votes) && forall u :: u in votes ==> u.ballot.voter != v.ballot.voter
    ensures Sorted(Insert(v, votes))
  {
    if votes != [] {
      var head, rest := votes[0], votes[1..];
      SortedHead(votes);
      assert head in votes && votes == [head] + rest;
      if Num(v.ballot.voter) == Num(head.ballot.voter) { KeysByNumber(v.ballot.voter, head.ballot.voter); }
      if Num(v.ballot.voter) > Num(head.ballot.voter) {
        InsertSorts(v, rest);
        InsertAdds(v, rest);
        SortedCons(head, Insert(v, rest));
      } else {
        SortedCons(v, votes);
      }
    }
  }

  /** The precommits of `votes` for block b. */
  ghost predicate Selected(votes: map<Key, Vote>, b: Bytes32, v: Vote) {
    && v.ballot.voter in votes && votes[v.ballot.voter] == v
    && v.ballot.kind == PRECOMMIT && v.ballot.block == b
  }

  ghost predicate AttestationOf(a: Attestation, votes: map<Key, Vote>, b: Bytes32) {
    && a.block == b
    && Sorted(a.votes)
    && (forall v :: v in a.votes <==> Selected(votes, b, v))
    && (a.votes != [] ==> a.height == a.votes[0].ballot.height && a.round == a.votes[0].ballot.round)
    && (a.votes == [] ==> a.height == 0 && a.round == 0)
  }

  method AttestationFromPrecommits(votes: map<Key, Vote>, b: Bytes32) returns (a: Attestation)
    requires Filed(votes)
    ensures AttestationOf(a, votes, b)
  {
    var todo, picked := votes.Keys, [];
    while todo != {}
      invariant todo <= votes.Keys
      invariant Sorted(picked)
      invariant forall v :: v in picked <==> Selected(votes, b, v) && v.ballot.voter !in todo
      decreases todo
    {
      var k :| k in todo;
      var v := votes[k];
      if v.ballot.kind == PRECOMMIT && v.ballot.block == b {
        InsertSorts(v, picked);
        InsertAdds(v, picked);
        picked := Insert(v, picked);
      }
      todo := todo - {k};
    }
    a := Attestation(0, 0, b, picked);
    if picked != [] {
      a := a.(height := picked[0].ballot.height, round := picked[0].ballot.round);
    }
  }

  /**
   * The attestation a node carries into its next proposal after committing b passes every
   * other node's check: its precommits match one (height, round), verify, and b won the quorum.
   */
  lemma CommitAttestationAccepted(a: Attestation, votes: map<Key, Vote>, b: Bytes32, vs: Validators,
                                  height: u64, round: u32, sigOk: Vote -> bool)
    requires vs.Valid() && AttestationOf(a, votes, b) && Filed(votes)
    requires forall k :: k in votes ==> k in vs.keys && sigOk(votes[k]) && votes[k].ballot.kind == PRECOMMIT
                                        && votes[k].ballot.height == height && votes[k].ballot.round == round
    requires IsQuorum(vs, Backers(votes, b))
    ensures Accepts(a, vs, sigOk)
    ensures a.height == height && a.round == round
  {
    StakeOfNone(vs, |vs.keys|);
    var k := Outweighs(vs, Backers(votes, b), {});
    assert votes[k] in a.votes;
    assert a.votes[0] in a.votes;
    forall i, j | 0 <= i < j < |a.votes| ensures a.votes[i].ballot.voter != a.votes[j].ballot.voter {
      assert Num(a.votes[i].ballot.voter) < Num(a.votes[j].ballot.voter);
    }
    forall j | j in Backers(votes, b) ensures j in Voters(a.votes) {
      assert votes[j] in a.votes;
    }
    StakeMonotone(vs, Backers(votes, b), Voters(a.votes), |vs.keys|);
  }

  /** The voters of the attestation are validators of this set and a quorum of it. */
  ghost predicate Backed(a: Attestation, vs: Validators)
    requires vs.Valid()
  {
    (forall k :: k in Voters(a.votes) ==> k in vs.keys) && IsQuorum(vs, Voters(a.votes))
  }

  /** An attestation that passes under one validator set passes under another exactly when that one backs it. */
  lemma AcceptedElsewhere(a: Attestation, vs: Validators, other: Validators, sigOk: Vote -> bool)
    requires vs.Valid() && other.Valid() && Accepts(a, vs, sigOk)
    ensures Accepts(a, other, sigOk) <==> Backed(a, other)
  {
    forall v | v in a.votes ensures Fits(a, other, sigOk, v) <==> v.ballot.voter in other.keys {
      assert Fits(a, vs, sigOk, v) && v.ballot.voter in Voters(a.votes);
    }
    if Accepts(a, other, sigOk) {
      forall k | k in Voters(a.votes) ensures k in other.keys {
        var v :| v in a.votes && v.ballot.voter == k;
        assert Fits(a, other, sigOk, v);
      }
    }
  }

  /** Map order never shows: one vote map and one block have a single attestation. */
  lemma AttestationUnique(a: Attestation, c: Attestation, votes: map<Key, Vote>, b: Bytes32)
    requires AttestationOf(a, votes, b) && AttestationOf(c, votes, b)
    ensures a == c
  {
    SortedUnique(a.votes, c.votes);
  }

  lemma {:induction false} SortedUnique(s: seq<Vote>, t: seq<Vote>)
    requires Sorted(s) && Sorted(t)
    requires forall v :: v in s <==> v in t
    ensures s == t
  {
    assert t != [] ==> t[0] in t;
    if s != [] {
      assert s[0] in s && s[0] in t;
      assert t[0] in t && t[0] in s;
      var i :| 0 <= i < |t| && t[i] == s[0];
      var j :| 0 <= j < |s| && s[j] == t[0];
      assert s[0] == t[0];
      assert s == [s[0]] + s[1..] && t == [t[0]] + t[1..];
      forall v | v in s[1..] ensures v in t[1..] { assert v in s; }
      forall v | v in t[1..] ensures v in s[1..] { assert v in t; }
      SortedUnique(s[1..], t[1..]);
    }
  }
}

/** Votes written one after the other, as proposals, attestations and snapshots hold them. */
module VoteLists {
  import opened Bytes
  import opened Messages
  import opened VoteCodec

  function EncodeVotes(votes: seq<Vote>): (d: Bytes)
    ensures |d| == VOTE_SIZE * |votes|
  {
    if votes == [] then [] else EncodeVote(votes[0]) + EncodeVotes(votes[1..])
  }

  function ReadVotes(d: Bytes, n: nat): (votes: seq<Vote>)
    requires VOTE_SIZE * n <= |d|
    ensures |votes| == n
    decreases n
  {
    if n == 0 then [] else [ParseVote(d[..VOTE_SIZE])] + ReadVotes(d[VOTE_SIZE..], n - 1)
  }

  lemma {:induction false} EncodeVotesPush(votes: seq<Vote>, v: Vote)
    ensures EncodeVotes(votes + [v]) == EncodeVotes(votes) + EncodeVote(v)
  {
    if votes == [] {
      assert votes + [v] == [v];
      assert EncodeVotes([v]) == EncodeVote(v) + EncodeVotes([]);
    } else {
      assert (votes + [v])[1..] == votes[1..] + [v];
      EncodeVotesPush(votes[1..], v);
    }
  }

  /** Reading one more vote at a cursor. */
  lemma {:induction false} ReadVotesPush(d: Bytes, n: nat)
    requires VOTE_SIZE * (n + 1) <= |d|
    ensures ReadVotes(d, n + 1) == ReadVotes(d, n) + [ParseVote(d[VOTE_SIZE * n..VOTE_SIZE * (n + 1)])]
  {
    if n > 0 {
      ReadVotesPush(d[VOTE_SIZE..], n - 1);
      SliceOfDrop(d, VOTE_SIZE, VOTE_SIZE * (n - 1), VOTE_SIZE * n);
    }
  }

  /** A list of votes is read back from in front of anything. */
  lemma {:induction false} VotesRoundTrip(votes: seq<Vote>, tail: Bytes)
    ensures var d := EncodeVotes(votes) + tail;
            && VOTE_SIZE * |votes| <= |d|
            && ReadVotes(d, |votes|) == votes && d[VOTE_SIZE * |votes|..] == tail
  {
    var d := EncodeVotes(votes) + tail;
    if votes != [] {
      var rest := EncodeVotes(votes[1..]) + tail;
      VotesRoundTrip(votes[1..], tail);
      assert d == EncodeVote(votes[0]) + rest;
      assert d[..VOTE_SIZE] == EncodeVote(votes[0]) && d[VOTE_SIZE..] == rest;
      ParseOfEncode(votes[0]);
      assert votes == [votes[0]] + votes[1..];
    }
  }

  /** The reading loop of DeserializeProposal, decodeRoundState and deserializeAttestation. */
  method ReadVoteLoop(data: Bytes, start: nat, n: nat) returns (votes: seq<Vote>)
    requires start + VOTE_SIZE * n <= |data|
    ensures votes == ReadVotes(data[start..], n)
  {
    votes := [];
    var off := start;
    for i := 0 to n
      invariant off == start + VOTE_SIZE * i <= |data|
      invariant votes == ReadVotes(data[start..], i)
    {
      SliceOfDrop(data, start, VOTE_SIZE * i, VOTE_SIZE * (i + 1));
      ReadVotesPush(data[start..], i);
      var v := DeserializeVote(data[off..off + VOTE_SIZE]);
      ParseOfEncode(v.value);
      votes := votes + [v.value];
      off := off + VOTE_SIZE;
    }
  }

  /** The writing loop. */
  method WriteVoteLoop(votes: seq<Vote>) returns (data: Bytes)
    ensures data == EncodeVotes(votes)
  {
    data := [];
    for i := 0 to |votes|
      invariant data == EncodeVotes(votes[..i])
    {
      assert votes[..i + 1] == votes[..i] + [votes[i]];
      EncodeVotesPush(votes[..i], votes[i]);
      var b := SerializeVote(votes[i]);
      data := data + b;
    }
    assert votes[..|votes|] == votes;
  }
}

/**
 * When an empty block applies, and with it when the retries of the consensus engine are bounded.
 * The engine asks the state machine only whether a decided block applies.
 */
module EmptyBlocks {
  import opened Wrappers
  import opened Errors
  import opened Bytes
  import opened Messages
  import opened Ledger
  import opened Economics
  import opened Staking
  import opened BlockApply
  import Effects
  import P = Protocol
  import E = ConsensusEngine

  predicate Distinct(vals: seq<Account>) {
    forall i, j :: 0 <= i < j < |vals| ==> vals[i] != vals[j]
  }

  /** Every reward fits on its fee account. */
  predicate RewardsFit(v: Vault, vals: seq<Account>, shares: seq<nat>)
    requires |vals| == |shares|
  {
    forall i :: 0 <= i < |vals| ==> shares[i] == 0 || Balance(v.books, Fee(vals[i])) + shares[i] < U256
  }

  lemma {:induction false} MintFitsExactly(v: Vault, vals: seq<Account>, shares: seq<nat>)
    requires |vals| == |shares| && Distinct(vals)
    ensures MintPass(v, vals, shares).Done? <==> RewardsFit(v, vals, shares)
  {
    if vals != [] {
      var m := |vals| - 1;
      MintFitsExactly(v, vals[..m], shares[..m]);
      Effects.MintPassEffect(v, vals[..m], shares[..m], Fee(vals[m]));
      Effects.NotRewarded(vals[..m], shares[..m], vals[m]);
      assert RewardsFit(v, vals, shares) <==>
             RewardsFit(v, vals[..m], shares[..m]) && (shares[m] == 0 || Balance(v.books, Fee(vals[m])) + shares[m] < U256);
    }
  }

  /** What an empty block on the current parent needs besides its place: rewards, tree and store. */
  predicate EmptyFits(rules: Rules, st: State, b: Block, vals: seq<Account>) {
    && RewardsFit(st.vault, vals, Shares(MintOf(st, vals), |vals|))
    && var root := rules.tree(st, b.txs);
       root.Ok? && (b.root == ZERO32 || b.root == root.value) && rules.store(b, root.value).None?
  }

  lemma NothingPasses(st: State, txs: seq<LTx>, xs: seq<Exec>, fee: nat, height: u64)
    requires |txs| == |xs| == 0
    ensures TxPass(st, txs, xs, fee, height) == Pass(st, 0, [])
    ensures GasPass(st.vault, txs, [], fee) == Done(st.vault, 0) && MissPass(st.vault, txs) == Done(st.vault, 0)
  {
  }

  /** An empty block settles by its tree and its rewards alone. */
  lemma SettlesBy(rules: Rules, st: State, b: Block, xs: seq<Exec>, vals: seq<Account>, paid: Change, root: Result<Bytes32, Code>)
    requires |b.txs| == |xs| && TxPass(st, b.txs, xs, CurrentFee(st), b.height) == Pass(st, 0, [])
    requires |b.txs| == 0 && GasPass(st.vault, b.txs, [], CurrentFee(st)) == Done(st.vault, 0) && MissPass(st.vault, b.txs) == Done(st.vault, 0)
    requires paid == MintPass(st.vault, vals, Shares(MintOf(st, vals), |vals|)) && root == rules.tree(st, b.txs)
    ensures var s := Settle(rules, st, b, xs, vals);
            if root.Ok? && paid.Done? then s == Settled(st.(vault := paid.vault), root.value, 0, []) else s.Unsettled?
  {
  }

  /** The supply does not fall. */
  lemma EmptyCloses(rules: Rules, st: State, b: Block, vals: seq<Account>, s: Settled)
    requires s.Settled? && s.slashed == 0 && s.gas == []
    ensures Close(rules, st, b, vals, s).Ok? <==> (b.root == ZERO32 || b.root == s.root) && rules.store(b, s.root).None?
  {
    assert GasCounter(s.gas, CurrentFee(st)) == 0;
  }

  lemma EmptyInPlace(rules: Rules, st: State, b: Block, vals: seq<Account>)
    requires |b.txs| == 0
    ensures Refusal(rules, st, b, vals).None? <==> b.height == (st.height + 1) % U64 && (b.prevRoot == ZERO32 || b.prevRoot == st.root)
  {
  }

  /** An empty block applies exactly when it is in its place and its rewards, tree and store succeed. */
  lemma EmptyAppliesExactly(rules: Rules, st: State, b: Block, xs: seq<Exec>, vals: seq<Account>)
    requires b.txs == [] && |xs| == 0 && Distinct(vals)
    ensures ApplyBlock(rules, st, b, xs, vals).Ok?
       <==> b.height == (st.height + 1) % U64 && (b.prevRoot == ZERO32 || b.prevRoot == st.root) && EmptyFits(rules, st, b, vals)
  {
    MintFitsExactly(st.vault, vals, Shares(MintOf(st, vals), |vals|));
    EmptyInPlace(rules, st, b, vals);
    NothingPasses(st, b.txs, xs, CurrentFee(st), b.height);
    SettlesBy(rules, st, b, xs, vals, MintPass(st.vault, vals, Shares(MintOf(st, vals), |vals|)), rules.tree(st, b.txs));
    var s := Settle(rules, st, b, xs, vals);
    if s.Settled? { EmptyCloses(rules, st, b, vals, s); }
  }

  /** Rewards fit as long as all money together stays a uint256. */
  lemma RewardsFitBelowTotal(v: Vault, vals: seq<Account>, reward: nat)
    requires Total(v.books) + reward < U256
    ensures RewardsFit(v, vals, Shares(reward, |vals|))
  {
    forall i | 0 <= i < |vals| ensures Balance(v.books, Fee(vals[i])) + Shares(reward, |vals|)[i] < U256 {
      SharesBelow(reward, |vals|, i);
      BalanceBelowTotal(v.books, Fee(vals[i]));
    }
  }

  lemma SharesBelow(reward: nat, count: nat, i: nat)
    requires i < count
    ensures Shares(reward, count)[i] <= reward
  {
    DivMod(reward, count);
    Portion(reward / count, count, reward % count, reward);
  }

  lemma Portion(share: nat, count: nat, rest: nat, reward: nat)
    requires count > 0 && reward == count * share + rest
    ensures share + rest <= reward
  {
    assert count * share == share + (count - 1) * share;
  }

  // ---------------------------------------------------------------- the engine on this state machine

  /** commit: the block of a proposal without transactions. */
  function BlockOf(p: Proposal): Block {
    Block(p.height, [], p.prevRoot, ZERO32)
  }

  /** On this chain the engine's environment answers as the state machine does in state st. */
  ghost predicate Backs(env: P.Env, c: seq<P.Commit>, rules: Rules, st: State, vals: seq<Account>) {
    && st.height == |c| && env.root(c) == st.root && Distinct(vals)
    && forall p: Proposal :: p.txs == [] ==> (env.applies(c, p) <==> ApplyBlock(rules, st, BlockOf(p), [], vals).Ok?)
  }

  /** The empty block on top of a state. */
  function NextEmpty(st: State): Block {
    Block((st.height + 1) % U64, [], st.root, ZERO32)
  }

  ghost predicate OnTop(env: P.Env, c: seq<P.Commit>, p: Proposal) {
    p.txs == [] && p.height == |c| + 1 && p.prevRoot == env.root(c)
  }

  /**
   * The hypothesis of the engine's retry bounds holds on a chain exactly when the next empty block
   * fits and no empty proposal on top of it hashes to the nil hash.
   */
  lemma TameExactly(env: P.Env, c: seq<P.Commit>, rules: Rules, st: State, vals: seq<Account>)
    requires Backs(env, c, rules, st, vals) && |c| + 1 < U64
    ensures E.Tame(env, c) <==> EmptyFits(rules, st, NextEmpty(st), vals) && forall p: Proposal :: OnTop(env, c, p) ==> env.hash(p) != NIL
  {
    forall p: Proposal | OnTop(env, c, p) ensures env.applies(c, p) <==> EmptyFits(rules, st, NextEmpty(st), vals) {
      NextApplies(env, c, rules, st, vals, p);
    }
    var p := Proposal(|c| + 1, 0, ZERO32, env.root(c), [], EMPTY_ATTESTATION, ZERO64);
    assert OnTop(env, c, p);
  }

  lemma NextApplies(env: P.Env, c: seq<P.Commit>, rules: Rules, st: State, vals: seq<Account>, p: Proposal)
    requires Backs(env, c, rules, st, vals) && OnTop(env, c, p)
    ensures env.applies(c, p) <==> EmptyFits(rules, st, NextEmpty(st), vals)
  {
    EmptyAppliesExactly(rules, st, BlockOf(p), [], vals);
    assert BlockOf(p) == NextEmpty(st);
  }

  /** A full fee account of the first validator and a positive reward refuse the empty block. */
  lemma FullFeeAccount(rules: Rules, st: State, b: Block, xs: seq<Exec>, vals: seq<Account>)
    requires b.txs == [] && |xs| == 0 && Distinct(vals) && vals != []
    requires MintOf(st, vals) > 0 && Balance(st.vault.books, Fee(vals[0])) == U256 - 1
    ensures ApplyBlock(rules, st, b, xs, vals).Err?
  {
    EmptyAppliesExactly(rules, st, b, xs, vals);
    FirstShare(MintOf(st, vals), |vals|);
    assert !RewardsFit(st.vault, vals, Shares(MintOf(st, vals), |vals|));
  }

  lemma FirstShare(reward: nat, count: nat)
    requires reward > 0 && count > 0
    ensures Shares(reward, count)[0] > 0
  {
    DivMod(reward, count);
  }
}

/**
 * In every reachable state each recorded validator's escrow covers its bond and its miss count is
 * below the threshold, so finalizing, slashing and miss penalties never fail for lack of funds.
 */
module Solvency {
  import opened Errors
  import opened Bytes
  import opened Messages
  import opened Ledger
  import opened Economics
  import opened Staking
  import opened BlockApply
  import opened Chain

  /** Only keys sign; derived addresses never do. */
  ghost predicate Keyed(rules: Rules) {
    forall t :: rules.sigOk(t) ==> t.senderKey.User?
  }

  ghost predicate Sound(st: State) {
    Solvent(st.vault) && forall c :: c in st.contracts ==> c.Contract?
  }

  /** No escrow lost anything. */
  ghost predicate EscrowsKept(b: Books, b': Books) {
    forall a :: Balance(b', Escrow(a)) >= Balance(b, Escrow(a))
  }

  lemma EscrowsKeptSolvent(v: Vault, b: Books)
    requires Solvent(v) && EscrowsKept(v.books, b)
    ensures Solvent(v.(books := b))
  {
    SolventMonotone(v, v.(books := b));
  }

  lemma ShiftKeepsEscrows(b: Books, from: Account, to: Account, amount: nat)
    requires !from.Escrow?
    ensures EscrowsKept(b, Shift(b, from, to, amount).books)
  {
  }

  lemma EndowKeepsEscrows(b: Books, from: Account, to: Account, value: int)
    requires !from.Escrow?
    ensures EscrowsKept(b, Endow(b, from, to, value).books)
  {
    if 0 < value < U256 { ShiftKeepsEscrows(b, from, to, value); }
  }

  lemma HostKeepsEscrows(b: Books, self: Account, m: HostMove)
    requires !self.Escrow?
    ensures EscrowsKept(b, HostTransfer(b, self, m))
  {
    if 0 < m.amount < U256 { ShiftKeepsEscrows(b, self, m.to, m.amount); }
  }

  lemma {:induction false} MovesKeepEscrows(b: Books, self: Account, moves: seq<HostMove>)
    requires !self.Escrow?
    ensures EscrowsKept(b, RunMoves(b, self, moves))
  {
    if moves != [] {
      var m := |moves| - 1;
      MovesKeepEscrows(b, self, moves[..m]);
      HostKeepsEscrows(RunMoves(b, self, moves[..m]), self, moves[m]);
    }
  }

  // ---------------------------------------------------------------- one transaction

  ghost predicate SoundResult(r: TxResult) {
    match r
    case Applied(s, _, _) => Sound(s)
    case Skipped(s) => Sound(s)
    case Aborted(_) => true
  }

  lemma DeployKeepsSound(st: State, t: LTx, run: Run)
    requires Sound(st) && t.senderKey.User?
    ensures SoundResult(Deploy(st, t, run))
  {
    var addr := Contract(t.senderKey, t.nonce);
    var endowed := Endow(st.vault.books, t.senderKey, addr, t.value).books;
    EndowKeepsEscrows(st.vault.books, t.senderKey, addr, t.value);
    MovesKeepEscrows(endowed, addr, run.start + run.body);
    EscrowsKeptSolvent(st.vault, RunMoves(endowed, addr, run.start + run.body));
  }

  lemma CallKeepsSound(st: State, t: LTx, run: Run)
    requires Sound(st) && t.senderKey.User?
    ensures SoundResult(Call(st, t, run))
  {
    var addr := t.receiverKey;
    if addr in st.contracts {
      var started := RunMoves(st.vault.books, addr, run.start);
      MovesKeepEscrows(st.vault.books, addr, run.start);
      EscrowsKeptSolvent(st.vault, started);
      var funded := Endow(started, t.senderKey, addr, t.value).books;
      EndowKeepsEscrows(started, t.senderKey, addr, t.value);
      MovesKeepEscrows(funded, addr, run.body);
      EscrowsKeptSolvent(st.vault, RunMoves(funded, addr, run.body));
    }
  }

  lemma StakingKeepsSound(st: State, t: LTx, x: Exec, fee: nat, height: u64)
    requires Sound(st) && t.senderKey.User? && t.kind != CONTRACT_DEPLOY && t.kind != CONTRACT_CALL
    ensures SoundResult(Act(st, t, x, fee, height))
    ensures t.kind == FINALIZE_UNBOND || t.kind == EQUIV_EVIDENCE ==> Act(st, t, x, fee, height) != Aborted(InsufficientFunds)
  {
    BondKeepsSolvent(st.vault, t.senderKey, t.value, height);
    UnbondKeepsSolvent(st.vault, t.senderKey, height);
    FinalizeKeepsSolvent(st.vault, t.senderKey, height);
    ClaimKeepsSolvent(st.vault, t.senderKey);
    if x.evidence.Ok? { SlashKeepsSolvent(st.vault, x.evidence.value); }
  }

  lemma TransferKeepsSound(st: State, t: LTx)
    requires Sound(st) && t.senderKey.User? && FitsU256(t.value)
    ensures SoundResult(FromEffect(st, TransferTx(st.vault.books, t.senderKey, t.receiverKey, t.value, t.nonce)))
  {
  }

  /** A transaction keeps soundness, and a valid finalize or slash never lacks funds. */
  lemma TxKeepsSound(st: State, t: LTx, x: Exec, fee: nat, height: u64)
    requires Sound(st) && t.senderKey.User? && FitsU256(t.value)
    ensures SoundResult(ApplyTx(st, t, x, fee, height))
    ensures (t.kind == FINALIZE_UNBOND || t.kind == EQUIV_EVIDENCE) && Precheck(t, x).None? ==>
              ApplyTx(st, t, x, fee, height) != Aborted(InsufficientFunds)
  {
    var e := AdvanceNonce(st.vault.books, t.senderKey, t.nonce);
    if t.kind == TRANSFER { TransferKeepsSound(st, t); }
    else if e.error.None? {
      var st' := WithBooks(st, e.books);
      EscrowsKeptSolvent(st.vault, e.books);
      if t.kind == CONTRACT_DEPLOY { DeployKeepsSound(st', t, x.run); }
      else if t.kind == CONTRACT_CALL { CallKeepsSound(st', t, x.run); }
      else { StakingKeepsSound(st', t, x, fee, height); }
    }
  }

  // ---------------------------------------------------------------- the passes

  ghost predicate Proper(txs: seq<LTx>) {
    forall i :: 0 <= i < |txs| ==> txs[i].senderKey.User? && FitsU256(txs[i].value)
  }

  lemma {:induction false} TxPassKeepsSound(st: State, txs: seq<LTx>, xs: seq<Exec>, fee: nat, height: u64)
    requires |txs| == |xs| && Sound(st) && Proper(txs)
    ensures var p := TxPass(st, txs, xs, fee, height); p.Pass? ==> Sound(p.state)
  {
    if txs != [] {
      var m := |txs| - 1;
      TxPassKeepsSound(st, txs[..m], xs[..m], fee, height);
      var p := TxPass(st, txs[..m], xs[..m], fee, height);
      if p.Pass? { TxKeepsSound(p.state, txs[m], xs[m], fee, height); }
    }
  }

  lemma {:induction false} GasPassKeepsSolvent(v: Vault, txs: seq<LTx>, gas: seq<nat>, fee: nat)
    requires |txs| == |gas| && Solvent(v) && Proper(txs)
    ensures var c := GasPass(v, txs, gas, fee); c.Done? ==> Solvent(c.vault)
  {
    if txs != [] && fee != 0 {
      var m := |txs| - 1;
      GasPassKeepsSolvent(v, txs[..m], gas[..m], fee);
      var c := GasPass(v, txs[..m], gas[..m], fee);
      if c.Done? { EscrowsKeptSolvent(c.vault, BurnTx(c.vault.books, txs[m].senderKey, fee * gas[m]).books); }
    }
  }

  /** Recording misses keeps solvency and never lacks funds. */
  lemma {:induction false} MissPassKeepsSolvent(v: Vault, txs: seq<LTx>)
    requires Solvent(v)
    ensures var c := MissPass(v, txs); c != Abort(InsufficientFunds) && (c.Done? ==> Solvent(c.vault))
  {
    if txs != [] {
      var m := |txs| - 1;
      MissPassKeepsSolvent(v, txs[..m]);
      var c := MissPass(v, txs[..m]);
      if c.Done? { MissKeepsSolvent(c.vault, txs[m].missedProposer); }
    }
  }

  lemma {:induction false} MintPassKeepsSolvent(v: Vault, vals: seq<Account>, shares: seq<nat>)
    requires |vals| == |shares| && Solvent(v)
    ensures var c := MintPass(v, vals, shares); c.Done? ==> Solvent(c.vault)
  {
    if vals != [] {
      var m := |vals| - 1;
      MintPassKeepsSolvent(v, vals[..m], shares[..m]);
      var c := MintPass(v, vals[..m], shares[..m]);
      if c.Done? { EscrowsKeptSolvent(c.vault, CreditTx(c.vault.books, Fee(vals[m]), shares[m]).books); }
    }
  }

  lemma SettleKeepsSound(rules: Rules, st: State, b: Block, xs: seq<Exec>, vals: seq<Account>)
    requires |b.txs| == |xs| && Sound(st) && Proper(b.txs)
    ensures var s := Settle(rules, st, b, xs, vals); s.Settled? ==> Sound(s.state)
  {
    var fee := CurrentFee(st);
    TxPassGas(st, b.txs, xs, fee, b.height);
    TxPassKeepsSound(st, b.txs, xs, fee, b.height);
    var p := TxPass(st, b.txs, xs, fee, b.height);
    if p.Pass? {
      GasPassKeepsSolvent(p.state.vault, b.txs, p.gas, fee);
      var charged := GasPass(p.state.vault, b.txs, p.gas, fee);
      if charged.Done? {
        MissPassKeepsSolvent(charged.vault, b.txs);
        var marked := MissPass(charged.vault, b.txs);
        if marked.Done? { MintPassKeepsSolvent(marked.vault, vals, Shares(MintOf(st, vals), |vals|)); }
      }
    }
  }

  lemma SignedProper(rules: Rules, txs: seq<LTx>)
    requires Keyed(rules) && AllSigned(rules, txs)
    ensures Proper(txs)
  {
  }

  // ---------------------------------------------------------------- runs

  /** Every state reached from a sound one by applied and failed blocks is sound. */
  lemma {:induction false} ReachableSound(rules: Rules, st: State, es: seq<Event>)
    requires Keyed(rules) && AllFormed(es) && Sound(st)
    ensures Sound(Replay(rules, st, es))
  {
    if es != [] {
      var m := |es| - 1;
      assert es[m] in es;
      ReachableSound(rules, st, es[..m]);
      BlockKeepsSound(rules, Replay(rules, st, es[..m]), es[m]);
    }
  }

  lemma BlockKeepsSound(rules: Rules, st: State, e: Event)
    requires Keyed(rules) && Formed(e) && Sound(st)
    ensures Sound(After(rules, st, e))
  {
    if ApplyBlock(rules, st, e.block, e.xs, e.vals).Ok? {
      AppliedSigned(rules, st, e.block, e.xs, e.vals);
      SignedProper(rules, e.block.txs);
      SettleKeepsSound(rules, st, e.block, e.xs, e.vals);
    }
  }

  /**
   * On any reachable state no block fails because an escrow is short: neither a finalize or slash at
   * any position of the transaction pass nor the penalties after it.
   */
  lemma EscrowNeverShort(rules: Rules, st: State, es: seq<Event>, e: Event, i: nat)
    requires Keyed(rules) && AllFormed(es) && Formed(e) && Sound(st)
    requires AllSigned(rules, e.block.txs) && i < |e.xs|
    ensures var before := Replay(rules, st, es);
            var fee := CurrentFee(before);
            var p := TxPass(before, e.block.txs[..i], e.xs[..i], fee, e.block.height);
            var t := e.block.txs[i];
            p.Pass? && (t.kind == FINALIZE_UNBOND || t.kind == EQUIV_EVIDENCE) && Precheck(t, e.xs[i]).None? ==>
              ApplyTx(p.state, t, e.xs[i], fee, e.block.height) != Aborted(InsufficientFunds)
    ensures var before := Replay(rules, st, es);
            var fee := CurrentFee(before);
            var p := TxPass(before, e.block.txs, e.xs, fee, e.block.height);
            p.Pass? && |p.gas| == |e.block.txs| && GasPass(p.state.vault, e.block.txs, p.gas, fee).Done? ==>
              MissPass(GasPass(p.state.vault, e.block.txs, p.gas, fee).vault, e.block.txs) != Abort(InsufficientFunds)
  {
    ReachableSound(rules, st, es);
    SignedProper(rules, e.block.txs);
    FinalizeAndSlash(Replay(rules, st, es), e, i);
    Penalties(Replay(rules, st, es), e);
  }

  lemma FinalizeAndSlash(st: State, e: Event, i: nat)
    requires Formed(e) && Sound(st) && Proper(e.block.txs) && i < |e.xs|
    ensures var fee := CurrentFee(st);
            var p := TxPass(st, e.block.txs[..i], e.xs[..i], fee, e.block.height);
            var t := e.block.txs[i];
            p.Pass? && (t.kind == FINALIZE_UNBOND || t.kind == EQUIV_EVIDENCE) && Precheck(t, e.xs[i]).None? ==>
              ApplyTx(p.state, t, e.xs[i], fee, e.block.height) != Aborted(InsufficientFunds)
  {
    var fee := CurrentFee(st);
    TxPassKeepsSound(st, e.block.txs[..i], e.xs[..i], fee, e.block.height);
    var p := TxPass(st, e.block.txs[..i], e.xs[..i], fee, e.block.height);
    if p.Pass? { TxKeepsSound(p.state, e.block.txs[i], e.xs[i], fee, e.block.height); }
  }

  lemma Penalties(st: State, e: Event)
    requires Formed(e) && Sound(st) && Proper(e.block.txs)
    ensures var fee := CurrentFee(st);
            var p := TxPass(st, e.block.txs, e.xs, fee, e.block.height);
            p.Pass? && |p.gas| == |e.block.txs| && GasPass(p.state.vault, e.block.txs, p.gas, fee).Done? ==>
              MissPass(GasPass(p.state.vault, e.block.txs, p.gas, fee).vault, e.block.txs) != Abort(InsufficientFunds)
  {
    var fee := CurrentFee(st);
    TxPassKeepsSound(st, e.block.txs, e.xs, fee, e.block.height);
    var p := TxPass(st, e.block.txs, e.xs, fee, e.block.height);
    if p.Pass? && |p.gas| == |e.block.txs| {
      GasPassKeepsSolvent(p.state.vault, e.block.txs, p.gas, fee);
      var c := GasPass(p.state.vault, e.block.txs, p.gas, fee);
      if c.Done? { MissPassKeepsSolvent(c.vault, e.block.txs); }
    }
  }
}

/**
 * The tracked supply against the sum of all balances. A block moves their difference by exactly its
 * drift: what self-moves create, what half-failed contract transfers destroy, and the fees that the
 * wrapped gas counter forgets.
 */
module Supply {
  import opened Wrappers
  import opened Bytes
  import opened Messages
  import opened Ledger
  import opened Economics
  import opened Staking
  import opened BlockApply
  import opened Chain

  // ---------------------------------------------------------------- one transaction

  ghost function MoveDrift(b: Books, from: Account, to: Account, amount: int): int {
    if 0 < amount < U256 then ShiftDrift(b, from, to, amount) else 0
  }

  ghost function MovesDrift(b: Books, self: Account, moves: seq<HostMove>): int {
    if moves == [] then 0
    else
      var m := |moves| - 1;
      MovesDrift(b, self, moves[..m])
      + MoveDrift(RunMoves(b, self, moves[..m]), self, moves[m].to, moves[m].amount)
  }

  ghost function ContractDrift(b: Books, t: LTx, run: Run): int {
    if t.kind == CONTRACT_DEPLOY then
      var addr := Contract(t.senderKey, t.nonce);
      MoveDrift(b, t.senderKey, addr, t.value)
      + MovesDrift(Endow(b, t.senderKey, addr, t.value).books, addr, run.start + run.body)
    else
      var addr := t.receiverKey;
      var started := RunMoves(b, addr, run.start);
      if !run.found then MovesDrift(b, addr, run.start)
      else
        MovesDrift(b, addr, run.start)
        + MoveDrift(started, t.senderKey, addr, t.value)
        + MovesDrift(Endow(started, t.senderKey, addr, t.value).books, addr, run.body)
  }

  ghost function TxDrift(st: State, t: LTx, x: Exec): int {
    var e := AdvanceNonce(st.vault.books, t.senderKey, t.nonce);
    if e.error.Some? then 0
    else if t.kind == TRANSFER then ShiftDrift(e.books, t.senderKey, t.receiverKey, t.value)
    else if t.kind == CONTRACT_DEPLOY || t.kind == CONTRACT_CALL then ContractDrift(e.books, t, x.run)
    else 0
  }

  lemma EndowTotal(b: Books, from: Account, to: Account, value: int)
    ensures Total(Endow(b, from, to, value).books) == Total(b) + MoveDrift(b, from, to, value)
  {
    if 0 < value < U256 { ShiftTotal(b, from, to, value); }
  }

  lemma HostTotal(b: Books, self: Account, m: HostMove)
    ensures Total(HostTransfer(b, self, m)) == Total(b) + MoveDrift(b, self, m.to, m.amount)
  {
    if 0 < m.amount < U256 { ShiftTotal(b, self, m.to, m.amount); }
  }

  lemma {:induction false} MovesTotal(b: Books, self: Account, moves: seq<HostMove>)
    ensures Total(RunMoves(b, self, moves)) == Total(b) + MovesDrift(b, self, moves)
  {
    if moves != [] {
      var m := |moves| - 1;
      MovesTotal(b, self, moves[..m]);
      HostTotal(RunMoves(b, self, moves[..m]), self, moves[m]);
    }
  }

  /** The state a finished transaction leaves, and what it burned. */
  ghost predicate Accounts(r: TxResult, total: int) {
    match r
    case Applied(s, burned, _) => Total(s.vault.books) + burned == total
    case Skipped(s) => Total(s.vault.books) == total
    case Aborted(_) => true
  }

  lemma DeployTotal(st: State, t: LTx, run: Run)
    requires t.kind == CONTRACT_DEPLOY
    ensures Accounts(Deploy(st, t, run), Total(st.vault.books) + ContractDrift(st.vault.books, t, run))
  {
    var addr := Contract(t.senderKey, t.nonce);
    EndowTotal(st.vault.books, t.senderKey, addr, t.value);
    MovesTotal(Endow(st.vault.books, t.senderKey, addr, t.value).books, addr, run.start + run.body);
  }

  lemma CallTotal(st: State, t: LTx, run: Run)
    requires t.kind == CONTRACT_CALL
    ensures Accounts(Call(st, t, run), Total(st.vault.books) + ContractDrift(st.vault.books, t, run))
  {
    var addr := t.receiverKey;
    var started := RunMoves(st.vault.books, addr, run.start);
    MovesTotal(st.vault.books, addr, run.start);
    EndowTotal(started, t.senderKey, addr, t.value);
    MovesTotal(Endow(started, t.senderKey, addr, t.value).books, addr, run.body);
  }

  lemma ActTotal(st: State, t: LTx, x: Exec, fee: nat, height: u64)
    requires t.kind != TRANSFER
    ensures Accounts(Act(st, t, x, fee, height),
                     Total(st.vault.books)
                     + if t.kind == CONTRACT_DEPLOY || t.kind == CONTRACT_CALL then ContractDrift(st.vault.books, t, x.run) else 0)
  {
    if t.kind == CONTRACT_DEPLOY { DeployTotal(st, t, x.run); }
    else if t.kind == CONTRACT_CALL { CallTotal(st, t, x.run); }
    else {
      StakingTotals(st.vault, t.senderKey, t.value, height);
      if t.kind == EQUIV_EVIDENCE && x.evidence.Ok? { StakingTotals(st.vault, x.evidence.value, t.value, height); }
    }
  }

  lemma TxTotal(st: State, t: LTx, x: Exec, fee: nat, height: u64)
    ensures Accounts(ApplyTx(st, t, x, fee, height), Total(st.vault.books) + TxDrift(st, t, x))
  {
    var e := AdvanceNonce(st.vault.books, t.senderKey, t.nonce);
    if e.error.None? {
      assert Total(e.books) == Total(st.vault.books);
      if t.kind == TRANSFER { ShiftTotal(e.books, t.senderKey, t.receiverKey, t.value); }
      else { ActTotal(WithBooks(st, e.books), t, x, fee, height); }
    }
  }

  // ---------------------------------------------------------------- the passes

  ghost function PassDrift(st: State, txs: seq<LTx>, xs: seq<Exec>, fee: nat, height: u64): int
    requires |txs| == |xs|
  {
    if txs == [] then 0
    else
      var m := |txs| - 1;
      match TxPass(st, txs[..m], xs[..m], fee, height)
      case Stopped(_) => 0
      case Pass(s, _, _) => PassDrift(st, txs[..m], xs[..m], fee, height) + TxDrift(s, txs[m], xs[m])
  }

  lemma {:induction false} TxPassTotal(st: State, txs: seq<LTx>, xs: seq<Exec>, fee: nat, height: u64)
    requires |txs| == |xs|
    ensures var p := TxPass(st, txs, xs, fee, height);
            p.Pass? ==> Total(p.state.vault.books) + p.burned == Total(st.vault.books) + PassDrift(st, txs, xs, fee, height)
  {
    if txs != [] {
      var m := |txs| - 1;
      TxPassTotal(st, txs[..m], xs[..m], fee, height);
      var p := TxPass(st, txs[..m], xs[..m], fee, height);
      if p.Pass? { TxTotal(p.state, txs[m], xs[m], fee, height); }
    }
  }

  lemma {:induction false} GasPassTotal(v: Vault, txs: seq<LTx>, gas: seq<nat>, fee: nat)
    requires |txs| == |gas|
    ensures var c := GasPass(v, txs, gas, fee); c.Done? ==> Total(c.vault.books) == Total(v.books) - fee * SumGas(gas)
  {
    if txs != [] && fee != 0 {
      var m := |txs| - 1;
      GasPassTotal(v, txs[..m], gas[..m], fee);
      Distribute(fee, SumGas(gas[..m]), gas[m]);
      var c := GasPass(v, txs[..m], gas[..m], fee);
      if c.Done? { BurnTotal(c.vault.books, txs[m].senderKey, fee * gas[m]); }
    }
  }

  lemma {:induction false} MissPassTotal(v: Vault, txs: seq<LTx>)
    ensures var c := MissPass(v, txs); c.Done? ==> Total(c.vault.books) + c.burned == Total(v.books)
  {
    if txs != [] {
      var m := |txs| - 1;
      MissPassTotal(v, txs[..m]);
      var c := MissPass(v, txs[..m]);
      if c.Done? { StakingTotals(c.vault, txs[m].missedProposer, 0, 0); }
    }
  }

  lemma {:induction false} MintPassTotal(v: Vault, vals: seq<Account>, shares: seq<nat>)
    requires |vals| == |shares|
    ensures var c := MintPass(v, vals, shares); c.Done? ==> Total(c.vault.books) == Total(v.books) + SumSeq(shares)
  {
    if vals != [] {
      var m := |vals| - 1;
      MintPassTotal(v, vals[..m], shares[..m]);
      var c := MintPass(v, vals[..m], shares[..m]);
      if c.Done? { CreditTotal(c.vault.books, Fee(vals[m]), shares[m]); }
    }
  }

  // ---------------------------------------------------------------- the block

  /** Fees charged beyond what the uint64 counter holds. */
  ghost function ForgottenGas(gas: seq<nat>): nat {
    SumGas(gas) - SumGas(gas) % U64
  }

  ghost function BlockDrift(st: State, b: Block, xs: seq<Exec>): int
    requires |b.txs| == |xs|
  {
    match TxPass(st, b.txs, xs, CurrentFee(st), b.height)
    case Stopped(_) => 0
    case Pass(_, _, gas) =>
      PassDrift(st, b.txs, xs, CurrentFee(st), b.height) - CurrentFee(st) * ForgottenGas(gas)
  }

  /** How far the balances exceed the recorded supply. */
  ghost function Gap(st: State): int {
    Total(st.vault.books) - Recorded(st)
  }

  lemma CounterAndForgotten(gas: seq<nat>, fee: nat)
    ensures fee * GasCounter(gas, fee) + fee * ForgottenGas(gas) == fee * SumGas(gas)
  {
    Distribute(fee, SumGas(gas) % U64, ForgottenGas(gas));
  }

  /** The balances after the passes are the next supply, the old gap and the block's drift together. */
  lemma SettledTotal(rules: Rules, st: State, b: Block, xs: seq<Exec>, vals: seq<Account>)
    requires |b.txs| == |xs| && Settle(rules, st, b, xs, vals).Settled?
    ensures var s := Settle(rules, st, b, xs, vals);
            Total(s.state.vault.books) == NextSupply(st, s, vals) + Gap(st) + BlockDrift(st, b, xs)
  {
    var fee, shares := CurrentFee(st), Shares(MintOf(st, vals), |vals|);
    TxPassGas(st, b.txs, xs, fee, b.height);
    TxPassTotal(st, b.txs, xs, fee, b.height);
    var p := TxPass(st, b.txs, xs, fee, b.height);
    GasPassTotal(p.state.vault, b.txs, p.gas, fee);
    var charged := GasPass(p.state.vault, b.txs, p.gas, fee);
    MissPassTotal(charged.vault, b.txs);
    var marked := MissPass(charged.vault, b.txs);
    MintPassTotal(marked.vault, vals, shares);
    if vals != [] { SharesSum(MintOf(st, vals), |vals|); }
    CounterAndForgotten(p.gas, fee);
  }

  /** What a block mints, less what it burns, where no supply is recorded. */
  ghost function Unrecorded(rules: Rules, st: State, b: Block, xs: seq<Exec>, vals: seq<Account>): int
    requires |b.txs| == |xs|
  {
    var s := Settle(rules, st, b, xs, vals);
    if st.supply.None? && s.Settled? then NextSupply(st, s, vals) else 0
  }

  /** An applied block moves the gap by exactly its drift, and by its issue where no supply is recorded. */
  lemma AppliedGap(rules: Rules, st: State, b: Block, xs: seq<Exec>, vals: seq<Account>)
    requires |b.txs| == |xs|
    ensures var r := ApplyBlock(rules, st, b, xs, vals);
            r.Ok? ==> && (r.value.supply.Some? <==> st.supply.Some?)
                      && Gap(r.value) == Gap(st) + BlockDrift(st, b, xs) + Unrecorded(rules, st, b, xs, vals)
  {
    if ApplyBlock(rules, st, b, xs, vals).Ok? {
      SettledTotal(rules, st, b, xs, vals);
      TxPassSupply(st, b.txs, xs, CurrentFee(st), b.height);
    }
  }

  /** The supply write, where there is one, is refused exactly when the balances fall short of the gap with the drift. */
  lemma SupplyRefusedExactly(rules: Rules, st: State, b: Block, xs: seq<Exec>, vals: seq<Account>)
    requires |b.txs| == |xs| && Settle(rules, st, b, xs, vals).Settled?
    ensures var s := Settle(rules, st, b, xs, vals);
            NextSupply(st, s, vals) < 0 <==> Total(s.state.vault.books) < Gap(st) + BlockDrift(st, b, xs)
  {
    SettledTotal(rules, st, b, xs, vals);
  }

  // ---------------------------------------------------------------- blocks without drift

  /** No transfer to the sender itself and no positive contract move from an account to itself. */
  predicate NoSelfMove(t: LTx, x: Exec) {
    && (t.kind == TRANSFER || t.kind == CONTRACT_CALL ==> t.senderKey != t.receiverKey || t.value == 0)
    && (t.kind == CONTRACT_DEPLOY ==> NoneToSelf(Contract(t.senderKey, t.nonce), x.run.start + x.run.body))
    && (t.kind == CONTRACT_CALL ==> NoneToSelf(t.receiverKey, x.run.start) && NoneToSelf(t.receiverKey, x.run.body))
  }

  predicate NoneToSelf(self: Account, moves: seq<HostMove>) {
    forall i :: 0 <= i < |moves| ==> moves[i].to != self || moves[i].amount <= 0
  }

  /** What the block can charge at most. */
  function GasBound(xs: seq<Exec>): nat {
    if xs == [] then 0 else GasBound(xs[..|xs| - 1]) + 1 + xs[|xs| - 1].run.fuel / 1000
  }

  /** A block that cannot drift: no self-moves, a gas counter that cannot wrap, a supply below 2^256. */
  predicate Driftless(st: State, e: Event) {
    && Formed(e)
    && Recorded(st) < U256
    && GasBound(e.xs) < U64
    && forall i :: 0 <= i < |e.xs| ==> NoSelfMove(e.block.txs[i], e.xs[i])
  }

  /** Below 2^256 in all, two different accounts always have room for a shift. */
  lemma NoMoveDrift(b: Books, from: Account, to: Account, amount: int)
    requires from != to || amount <= 0
    requires Total(b) < U256
    ensures MoveDrift(b, from, to, amount) == 0
  {
    if 0 < amount { TwoBalancesBelowTotal(b, from, to); }
  }

  lemma {:induction false} NoMovesDrift(b: Books, self: Account, moves: seq<HostMove>)
    requires NoneToSelf(self, moves) && Total(b) < U256
    ensures MovesDrift(b, self, moves) == 0
  {
    if moves != [] {
      var m := |moves| - 1;
      NoMovesDrift(b, self, moves[..m]);
      MovesTotal(b, self, moves[..m]);
      NoMoveDrift(RunMoves(b, self, moves[..m]), self, moves[m].to, moves[m].amount);
    }
  }

  lemma NoContractDrift(b: Books, t: LTx, x: Exec)
    requires NoSelfMove(t, x) && Total(b) < U256 && 0 <= t.value
    requires t.kind == CONTRACT_DEPLOY || t.kind == CONTRACT_CALL
    ensures ContractDrift(b, t, x.run) == 0
  {
    if t.kind == CONTRACT_DEPLOY {
      var addr := Contract(t.senderKey, t.nonce);
      NoMoveDrift(b, t.senderKey, addr, t.value);
      EndowTotal(b, t.senderKey, addr, t.value);
      NoMovesDrift(Endow(b, t.senderKey, addr, t.value).books, addr, x.run.start + x.run.body);
    } else {
      var addr := t.receiverKey;
      var started := RunMoves(b, addr, x.run.start);
      NoMovesDrift(b, addr, x.run.start);
      MovesTotal(b, addr, x.run.start);
      NoMoveDrift(started, t.senderKey, addr, t.value);
      EndowTotal(started, t.senderKey, addr, t.value);
      NoMovesDrift(Endow(started, t.senderKey, addr, t.value).books, addr, x.run.body);
    }
  }

  lemma NoTxDrift(st: State, t: LTx, x: Exec)
    requires NoSelfMove(t, x) && Total(st.vault.books) < U256 && FitsU256(t.value)
    ensures TxDrift(st, t, x) == 0
  {
    var e := AdvanceNonce(st.vault.books, t.senderKey, t.nonce);
    if e.error.None? {
      assert Total(e.books) == Total(st.vault.books);
      if t.kind == TRANSFER {
        if t.value > 0 { NoMoveDrift(e.books, t.senderKey, t.receiverKey, t.value); }
      } else if t.kind == CONTRACT_DEPLOY || t.kind == CONTRACT_CALL {
        NoContractDrift(e.books, t, x);
      }
    }
  }

  lemma {:induction false} NoPassDrift(st: State, txs: seq<LTx>, xs: seq<Exec>, fee: nat, height: u64)
    requires |txs| == |xs| && Total(st.vault.books) < U256
    requires forall i :: 0 <= i < |xs| ==> FitsU256(txs[i].value) && NoSelfMove(txs[i], xs[i])
    ensures PassDrift(st, txs, xs, fee, height) == 0
  {
    if txs != [] {
      var m := |txs| - 1;
      NoPassDrift(st, txs[..m], xs[..m], fee, height);
      TxPassTotal(st, txs[..m], xs[..m], fee, height);
      var p := TxPass(st, txs[..m], xs[..m], fee, height);
      if p.Pass? { NoTxDrift(p.state, txs[m], xs[m]); }
    }
  }

  lemma FuelIsReported(st: State, t: LTx, x: Exec, fee: nat, height: u64)
    ensures var r := ApplyTx(st, t, x, fee, height); r.Applied? && r.fuel.Some? ==> r.fuel.value == x.run.fuel
  {
  }

  lemma {:induction false} GasBelowBound(st: State, txs: seq<LTx>, xs: seq<Exec>, fee: nat, height: u64)
    requires |txs| == |xs|
    ensures var p := TxPass(st, txs, xs, fee, height); p.Pass? ==> SumGas(p.gas) <= GasBound(xs)
  {
    if txs != [] {
      var m := |txs| - 1;
      GasBelowBound(st, txs[..m], xs[..m], fee, height);
      var p, whole := TxPass(st, txs[..m], xs[..m], fee, height), TxPass(st, txs, xs, fee, height);
      if p.Pass? && whole.Pass? {
        FuelIsReported(p.state, txs[m], xs[m], fee, height);
        assert whole.gas[..|p.gas|] == p.gas;
      }
    }
  }

  lemma SignedFits(rules: Rules, txs: seq<LTx>)
    requires AllSigned(rules, txs)
    ensures forall i :: 0 <= i < |txs| ==> FitsU256(txs[i].value)
  {
    forall i | 0 <= i < |txs| ensures FitsU256(txs[i].value) { assert Signed(rules, txs[i]); }
  }

  lemma NothingForgotten(gas: seq<nat>, fee: nat)
    requires SumGas(gas) < U64
    ensures fee * ForgottenGas(gas) == 0
  {
  }

  /** While supply and balances agree, such a block has no drift. */
  lemma NoBlockDrift(rules: Rules, st: State, e: Event)
    requires Driftless(st, e) && Gap(st) == 0 && AllSigned(rules, e.block.txs)
    ensures BlockDrift(st, e.block, e.xs) == 0
  {
    var fee, height := CurrentFee(st), e.block.height;
    SignedFits(rules, e.block.txs);
    NoPassDrift(st, e.block.txs, e.xs, fee, height);
    GasBelowBound(st, e.block.txs, e.xs, fee, height);
    var p := TxPass(st, e.block.txs, e.xs, fee, height);
    if p.Pass? { NothingForgotten(p.gas, fee); }
  }

  // ---------------------------------------------------------------- runs

  ghost function RunDrift(rules: Rules, st: State, es: seq<Event>): int
    requires AllFormed(es)
  {
    if es == [] then 0
    else
      var m := |es| - 1;
      assert es[m] in es;
      var before := Replay(rules, st, es[..m]);
      RunDrift(rules, st, es[..m])
      + if ApplyBlock(rules, before, es[m].block, es[m].xs, es[m].vals).Ok?
        then BlockDrift(before, es[m].block, es[m].xs) + Unrecorded(rules, before, es[m].block, es[m].xs, es[m].vals) else 0
  }

  /** Over any run the gap moves by the drifts, and any unrecorded issue, of the applied blocks and nothing else. */
  lemma {:induction false} RunGap(rules: Rules, st: State, es: seq<Event>)
    requires AllFormed(es)
    ensures var last := Replay(rules, st, es);
            (last.supply.Some? <==> st.supply.Some?) && Gap(last) == Gap(st) + RunDrift(rules, st, es)
  {
    if es != [] {
      var m := |es| - 1;
      assert es[m] in es;
      RunGap(rules, st, es[..m]);
      AppliedGap(rules, Replay(rules, st, es[..m]), es[m].block, es[m].xs, es[m].vals);
    }
  }

  /** Every block of the run meets the no-drift conditions in the state it is applied to. */
  ghost predicate DriftlessRun(rules: Rules, st: State, es: seq<Event>)
    requires AllFormed(es)
  {
    es != [] ==>
      && DriftlessRun(rules, st, es[..|es| - 1])
      && Driftless(Replay(rules, st, es[..|es| - 1]), es[|es| - 1])
  }

  /** Then the tracked supply is the sum of all balances throughout. */
  lemma {:induction false} SupplyIsTotal(rules: Rules, st: State, es: seq<Event>)
    requires AllFormed(es) && DriftlessRun(rules, st, es)
    requires st.supply == Some(Total(st.vault.books))
    ensures var last := Replay(rules, st, es); last.supply == Some(Total(last.vault.books))
  {
    if es != [] {
      var m := |es| - 1;
      SupplyIsTotal(rules, st, es[..m]);
      BlockKeepsTotal(rules, Replay(rules, st, es[..m]), es[m]);
    }
  }

  lemma BlockKeepsTotal(rules: Rules, st: State, e: Event)
    requires Driftless(st, e) && st.supply == Some(Total(st.vault.books))
    ensures After(rules, st, e).supply.Some? && Gap(After(rules, st, e)) == 0
  {
    match ApplyBlock(rules, st, e.block, e.xs, e.vals)
    case Err(_) =>
    case Ok(next) => AppliedTotal(rules, st, e, next);
  }

  lemma AppliedTotal(rules: Rules, st: State, e: Event, next: State)
    requires Driftless(st, e) && st.supply == Some(Total(st.vault.books))
    requires ApplyBlock(rules, st, e.block, e.xs, e.vals) == Ok(next)
    ensures next.supply.Some? && Gap(next) == 0
  {
    AppliedSigned(rules, st, e.block, e.xs, e.vals);
    AppliedGap(rules, st, e.block, e.xs, e.vals);
    NoBlockDrift(rules, st, e);
  }

  /** And no block of such a run is refused because its supply would be negative. */
  lemma SupplyNeverRefused(rules: Rules, st: State, es: seq<Event>, e: Event)
    requires AllFormed(es) && DriftlessRun(rules, st, es) && st.supply == Some(Total(st.vault.books))
    requires Driftless(Replay(rules, st, es), e) && AllSigned(rules, e.block.txs)
    ensures var before := Replay(rules, st, es);
            var s := Settle(rules, before, e.block, e.xs, e.vals);
            s.Settled? ==> NextSupply(before, s, e.vals) == Total(s.state.vault.books) >= 0
  {
    var before := Replay(rules, st, es);
    SupplyIsTotal(rules, st, es);
    NoBlockDrift(rules, before, e);
    if Settle(rules, before, e.block, e.xs, e.vals).Settled? { SettledTotal(rules, before, e.block, e.xs, e.vals); }
  }

  /** Without the bound on supply a contract transfer to a full account destroys what it debited. */
  lemma FullReceiverDestroys(self: Account, to: Account)
    requires self != to
    ensures var b := Books(map[self := 1, to := U256 - 1], map[]);
            Total(HostTransfer(b, self, HostMove(to, 1))) == Total(b) - 1
  {
    HostTotal(Books(map[self := 1, to := U256 - 1], map[]), self, HostMove(to, 1));
  }
}

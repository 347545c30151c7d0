/** Over any run an account's accepted nonces count 1, 2, 3, ... as uint64. */
module Nonces {
  import opened Bytes
  import opened Messages
  import opened Ledger
  import opened Economics
  import opened Staking
  import opened BlockApply
  import opened Chain

  /** The transaction carries the next nonce of its sender. */
  predicate InSequence(st: State, t: LTx) {
    t.nonce == Succ(Nonce(st.vault.books, t.senderKey))
  }

  /** A transaction out of sequence changes nothing, and nothing else passes for one. */
  lemma OutOfSequence(st: State, t: LTx, x: Exec, fee: nat, height: u64)
    requires Precheck(t, x).None?
    ensures ApplyTx(st, t, x, fee, height) == Skipped(st) <==> !InSequence(st, t)
  {
    NonceEffect(st, t, x, fee, height);
    if InSequence(st, t) {
      var nonces := st.vault.books.nonces;
      assert nonces[t.senderKey := t.nonce][t.senderKey] != Nonce(st.vault.books, t.senderKey);
    }
  }

  // ---------------------------------------------------------------- one transaction

  lemma ShiftNonces(b: Books, from: Account, to: Account, amount: int)
    ensures Shift(b, from, to, amount).books.nonces == b.nonces
  {
  }

  lemma {:induction false} MovesNonces(b: Books, self: Account, moves: seq<HostMove>)
    ensures RunMoves(b, self, moves).nonces == b.nonces
  {
    if moves != [] { MovesNonces(b, self, moves[..|moves| - 1]); }
  }

  /** The nonces after a transaction that did not abort the block. */
  ghost predicate NoncesAre(r: TxResult, nonces: map<Account, u64>) {
    match r
    case Applied(s, _, _) => s.vault.books.nonces == nonces
    case Skipped(s) => s.vault.books.nonces == nonces
    case Aborted(_) => true
  }

  lemma DeployNonces(st: State, t: LTx, run: Run)
    ensures NoncesAre(Deploy(st, t, run), st.vault.books.nonces)
  {
    var addr := Contract(t.senderKey, t.nonce);
    MovesNonces(Endow(st.vault.books, t.senderKey, addr, t.value).books, addr, run.start + run.body);
  }

  lemma CallNonces(st: State, t: LTx, run: Run)
    ensures NoncesAre(Call(st, t, run), st.vault.books.nonces)
  {
    var started := RunMoves(st.vault.books, t.receiverKey, run.start);
    MovesNonces(st.vault.books, t.receiverKey, run.start);
    MovesNonces(Endow(started, t.senderKey, t.receiverKey, t.value).books, t.receiverKey, run.body);
  }

  lemma StakingNonces(v: Vault, who: Account, amount: int, height: u64, x: Exec)
    ensures var c := BondTx(v, who, amount, height); c.Done? ==> c.vault.books.nonces == v.books.nonces
    ensures var c := FinalizeTx(v, who, height); c.Done? ==> c.vault.books.nonces == v.books.nonces
    ensures var c := ClaimTx(v, who); c.Done? ==> c.vault.books.nonces == v.books.nonces
    ensures x.evidence.Ok? ==> var c := SlashTx(v, x.evidence.value); c.Done? ==> c.vault.books.nonces == v.books.nonces
  {
  }

  lemma ActNonces(st: State, t: LTx, x: Exec, fee: nat, height: u64)
    ensures NoncesAre(Act(st, t, x, fee, height), st.vault.books.nonces)
  {
    if t.kind == CONTRACT_DEPLOY { DeployNonces(st, t, x.run); }
    else if t.kind == CONTRACT_CALL { CallNonces(st, t, x.run); }
    else { StakingNonces(st.vault, t.senderKey, t.value, height, x); }
  }

  lemma NonceEffect(st: State, t: LTx, x: Exec, fee: nat, height: u64)
    ensures NoncesAre(ApplyTx(st, t, x, fee, height),
                      if InSequence(st, t) then st.vault.books.nonces[t.senderKey := t.nonce] else st.vault.books.nonces)
  {
    var e := AdvanceNonce(st.vault.books, t.senderKey, t.nonce);
    if e.error.None? {
      if t.kind == TRANSFER { ShiftNonces(e.books, t.senderKey, t.receiverKey, t.value); }
      else { ActNonces(WithBooks(st, e.books), t, x, fee, height); }
    }
  }

  // ---------------------------------------------------------------- blocks

  /** The nonces an account spends in the transaction pass, in order. */
  function Spent(st: State, txs: seq<LTx>, xs: seq<Exec>, fee: nat, height: u64, a: Account): seq<u64>
    requires |txs| == |xs|
  {
    if txs == [] then []
    else
      var m := |txs| - 1;
      match TxPass(st, txs[..m], xs[..m], fee, height)
      case Stopped(_) => []
      case Pass(s, _, _) =>
        Spent(st, txs[..m], xs[..m], fee, height, a)
        + if txs[m].senderKey == a && InSequence(s, txs[m]) then [txs[m].nonce] else []
  }

  function LastOr(s: seq<u64>, from: u64): u64 {
    if s == [] then from else s[|s| - 1]
  }

  /** Each nonce is the increment of the one before it, the first of `from`. */
  predicate Counts(s: seq<u64>, from: u64) {
    s != [] ==>
      && s[|s| - 1] == Succ(LastOr(s[..|s| - 1], from))
      && Counts(s[..|s| - 1], from)
  }

  lemma {:induction false} CountsJoin(s: seq<u64>, t: seq<u64>, from: u64)
    requires Counts(s, from) && Counts(t, LastOr(s, from))
    ensures Counts(s + t, from) && LastOr(s + t, from) == LastOr(t, LastOr(s, from))
  {
    if t == [] {
      assert s + t == s;
    } else {
      var init := t[..|t| - 1];
      CountsJoin(s, init, from);
      assert (s + t)[..|s + t| - 1] == s + init;
    }
  }

  lemma CountsOne(s: seq<u64>, n: u64, from: u64)
    requires Counts(s, from) && n == Succ(LastOr(s, from))
    ensures Counts(s + [n], from) && LastOr(s + [n], from) == n
  {
    assert (s + [n])[..|s|] == s;
  }

  /** Counting from zero, the i-th is i as uint64. */
  lemma {:induction false} CountsFromZero(s: seq<u64>, i: nat)
    requires Counts(s, 0) && i < |s|
    ensures s[i] == (i + 1) % U64
  {
    if i == |s| - 1 {
      if i > 0 { CountsFromZero(s[..i], i - 1); }
    } else {
      CountsFromZero(s[..|s| - 1], i);
    }
  }

  lemma {:induction false} PassCounts(st: State, txs: seq<LTx>, xs: seq<Exec>, fee: nat, height: u64, a: Account)
    requires |txs| == |xs|
    ensures var p := TxPass(st, txs, xs, fee, height);
            var s := Spent(st, txs, xs, fee, height, a);
            var from := Nonce(st.vault.books, a);
            p.Pass? ==> Counts(s, from) && Nonce(p.state.vault.books, a) == LastOr(s, from)
  {
    if txs != [] {
      var m := |txs| - 1;
      PassCounts(st, txs[..m], xs[..m], fee, height, a);
      var p := TxPass(st, txs[..m], xs[..m], fee, height);
      if p.Pass? {
        NonceEffect(p.state, txs[m], xs[m], fee, height);
        var s, from := Spent(st, txs[..m], xs[..m], fee, height, a), Nonce(st.vault.books, a);
        if txs[m].senderKey == a && InSequence(p.state, txs[m]) { CountsOne(s, txs[m].nonce, from); }
        else { assert s + [] == s; }
      }
    }
  }

  lemma {:induction false} GasPassNonces(v: Vault, txs: seq<LTx>, gas: seq<nat>, fee: nat)
    requires |txs| == |gas|
    ensures var c := GasPass(v, txs, gas, fee); c.Done? ==> c.vault.books.nonces == v.books.nonces
  {
    if txs != [] && fee != 0 { GasPassNonces(v, txs[..|txs| - 1], gas[..|txs| - 1], fee); }
  }

  lemma {:induction false} MissPassNonces(v: Vault, txs: seq<LTx>)
    ensures var c := MissPass(v, txs); c.Done? ==> c.vault.books.nonces == v.books.nonces
  {
    if txs != [] { MissPassNonces(v, txs[..|txs| - 1]); }
  }

  lemma {:induction false} MintPassNonces(v: Vault, vals: seq<Account>, shares: seq<nat>)
    requires |vals| == |shares|
    ensures var c := MintPass(v, vals, shares); c.Done? ==> c.vault.books.nonces == v.books.nonces
  {
    if vals != [] { MintPassNonces(v, vals[..|vals| - 1], shares[..|vals| - 1]); }
  }

  /** What an account spends in a block: nothing when the block fails. */
  function SpentIn(rules: Rules, st: State, e: Event, a: Account): seq<u64>
    requires Formed(e)
  {
    if ApplyBlock(rules, st, e.block, e.xs, e.vals).Err? then []
    else Spent(st, e.block.txs, e.xs, CurrentFee(st), e.block.height, a)
  }

  lemma BlockCounts(rules: Rules, st: State, e: Event, a: Account)
    requires Formed(e)
    ensures var s := SpentIn(rules, st, e, a);
            var from := Nonce(st.vault.books, a);
            Counts(s, from) && Nonce(After(rules, st, e).vault.books, a) == LastOr(s, from)
  {
    if ApplyBlock(rules, st, e.block, e.xs, e.vals).Ok? {
      var fee := CurrentFee(st);
      PassCounts(st, e.block.txs, e.xs, fee, e.block.height, a);
      TxPassGas(st, e.block.txs, e.xs, fee, e.block.height);
      var p := TxPass(st, e.block.txs, e.xs, fee, e.block.height);
      GasPassNonces(p.state.vault, e.block.txs, p.gas, fee);
      var charged := GasPass(p.state.vault, e.block.txs, p.gas, fee);
      MissPassNonces(charged.vault, e.block.txs);
      var marked := MissPass(charged.vault, e.block.txs);
      MintPassNonces(marked.vault, e.vals, Shares(MintOf(st, e.vals), |e.vals|));
    }
  }

  // ---------------------------------------------------------------- runs

  function History(rules: Rules, st: State, es: seq<Event>, a: Account): seq<u64>
    requires AllFormed(es)
  {
    if es == [] then []
    else
      var m := |es| - 1;
      assert es[m] in es;
      History(rules, st, es[..m], a) + SpentIn(rules, Replay(rules, st, es[..m]), es[m], a)
  }

  lemma {:induction false} HistoryCounts(rules: Rules, st: State, es: seq<Event>, a: Account)
    requires AllFormed(es)
    ensures var h := History(rules, st, es, a);
            var from := Nonce(st.vault.books, a);
            Counts(h, from) && Nonce(Replay(rules, st, es).vault.books, a) == LastOr(h, from)
  {
    if es != [] {
      var m := |es| - 1;
      assert es[m] in es;
      HistoryCounts(rules, st, es[..m], a);
      var h, before := History(rules, st, es[..m], a), Replay(rules, st, es[..m]);
      BlockCounts(rules, before, es[m], a);
      CountsJoin(h, SpentIn(rules, before, es[m], a), Nonce(st.vault.books, a));
    }
  }

  /** An account that starts at nonce 0 has accepted exactly 1, 2, ..., k, as uint64. */
  lemma AcceptedNonces(rules: Rules, st: State, es: seq<Event>, a: Account, i: nat)
    requires AllFormed(es) && Nonce(st.vault.books, a) == 0 && i < |History(rules, st, es, a)|
    ensures History(rules, st, es, a)[i] == (i + 1) % U64
    ensures i == |History(rules, st, es, a)| - 1 ==> Nonce(Replay(rules, st, es).vault.books, a) == (i + 1) % U64
  {
    HistoryCounts(rules, st, es, a);
    CountsFromZero(History(rules, st, es, a), i);
  }

  lemma ModDiffers(x: nat, y: nat)
    requires x < y < x + U64
    ensures x % U64 != y % U64
  {
  }

  lemma CountsDistinct(s: seq<u64>, i: nat, j: nat)
    requires Counts(s, 0) && i < j < |s| && j - i < U64
    ensures s[i] != s[j]
  {
    CountsFromZero(s, i);
    CountsFromZero(s, j);
    ModDiffers(i + 1, j + 1);
  }

  /** No nonce is accepted twice within 2^64 transactions of an account. */
  lemma NoNonceTwice(rules: Rules, st: State, es: seq<Event>, a: Account, i: nat, j: nat)
    requires AllFormed(es) && Nonce(st.vault.books, a) == 0
    requires i < j < |History(rules, st, es, a)| && j - i < U64
    ensures History(rules, st, es, a)[i] != History(rules, st, es, a)[j]
  {
    HistoryCounts(rules, st, es, a);
    CountsDistinct(History(rules, st, es, a), i, j);
  }
}

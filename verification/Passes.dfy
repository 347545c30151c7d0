/** An error in a prefix of a pass is the error of the whole pass. */
module Passes {
  import opened Wrappers
  import opened Bytes
  import opened Ledger
  import opened Staking
  import opened BlockApply

  lemma {:induction false} MissErrorStays(rules: Rules, txs: seq<LTx>, height: u64, root: Bytes32, vals: seq<Account>, k: nat)
    requires k <= |txs| && MissError(rules, txs[..k], height, root, vals).Some?
    ensures MissError(rules, txs, height, root, vals) == MissError(rules, txs[..k], height, root, vals)
  {
    var m := |txs| - 1;
    if k <= m {
      assert txs[..m][..k] == txs[..k];
      MissErrorStays(rules, txs[..m], height, root, vals, k);
    } else {
      assert txs[..k] == txs;
    }
  }

  lemma {:induction false} TxPassStays(st: State, txs: seq<LTx>, xs: seq<Exec>, fee: nat, height: u64, k: nat)
    requires k <= |txs| == |xs| && TxPass(st, txs[..k], xs[..k], fee, height).Stopped?
    ensures TxPass(st, txs, xs, fee, height) == TxPass(st, txs[..k], xs[..k], fee, height)
  {
    var m := |txs| - 1;
    if k <= m {
      assert txs[..m][..k] == txs[..k] && xs[..m][..k] == xs[..k];
      TxPassStays(st, txs[..m], xs[..m], fee, height, k);
    } else {
      assert txs[..k] == txs && xs[..k] == xs;
    }
  }

  /** One more transaction. */
  lemma TxPassStep(st: State, txs: seq<LTx>, xs: seq<Exec>, fee: nat, height: u64, i: nat)
    requires i < |txs| == |xs| && TxPass(st, txs[..i], xs[..i], fee, height).Pass?
    ensures TxPass(st, txs[..i + 1], xs[..i + 1], fee, height) ==
            var p := TxPass(st, txs[..i], xs[..i], fee, height);
            match ApplyTx(p.state, txs[i], xs[i], fee, height)
            case Aborted(c) => Stopped(c)
            case Skipped(s) => Pass(s, p.burned, p.gas + [GasUnits(None)])
            case Applied(s, more, fuel) => Pass(s, p.burned + more, p.gas + [GasUnits(fuel)])
  {
    assert txs[..i + 1][..i] == txs[..i] && xs[..i + 1][..i] == xs[..i];
  }

  lemma {:induction false} GasPassStays(v: Vault, txs: seq<LTx>, gas: seq<nat>, fee: nat, k: nat)
    requires k <= |txs| == |gas| && GasPass(v, txs[..k], gas[..k], fee).Abort?
    ensures GasPass(v, txs, gas, fee) == GasPass(v, txs[..k], gas[..k], fee)
  {
    var m := |txs| - 1;
    if k <= m {
      assert txs[..m][..k] == txs[..k] && gas[..m][..k] == gas[..k];
      GasPassStays(v, txs[..m], gas[..m], fee, k);
    } else {
      assert txs[..k] == txs && gas[..k] == gas;
    }
  }

  lemma {:induction false} MissPassStays(v: Vault, txs: seq<LTx>, k: nat)
    requires k <= |txs| && MissPass(v, txs[..k]).Abort?
    ensures MissPass(v, txs) == MissPass(v, txs[..k])
  {
    var m := |txs| - 1;
    if k <= m {
      assert txs[..m][..k] == txs[..k];
      MissPassStays(v, txs[..m], k);
    } else {
      assert txs[..k] == txs;
    }
  }

  lemma {:induction false} MintPassStays(v: Vault, vals: seq<Account>, shares: seq<nat>, k: nat)
    requires k <= |vals| == |shares| && MintPass(v, vals[..k], shares[..k]).Abort?
    ensures MintPass(v, vals, shares) == MintPass(v, vals[..k], shares[..k])
  {
    var m := |vals| - 1;
    if k <= m {
      assert vals[..m][..k] == vals[..k] && shares[..m][..k] == shares[..k];
      MintPassStays(v, vals[..m], shares[..m], k);
    } else {
      assert vals[..k] == vals && shares[..k] == shares;
    }
  }
}

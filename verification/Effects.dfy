/** Who gains and who loses what: the operations account by account. */
module Effects {
  import opened Bytes
  import opened Ledger
  import opened Staking
  import opened BlockApply

  function When(c: bool, x: int): int {
    if c then x else 0
  }

  // ---------------------------------------------------------------- transfers

  /** A shift between two accounts moves the amount and touches nobody else. */
  lemma ShiftEffect(b: Books, from: Account, to: Account, amount: int, a: Account)
    requires from != to && Shift(b, from, to, amount).error.None?
    ensures Balance(Shift(b, from, to, amount).books, a) == Balance(b, a) - When(a == from, amount) + When(a == to, amount)
  {
  }

  /** A transfer back with the receiver's next nonce restores every balance. */
  lemma TransferBack(b: Books, from: Account, to: Account, amount: nat, n: u64, m: u64, a: Account)
    requires from != to && Balance(b, from) < U256
    requires TransferTx(b, from, to, amount, n).error.None?
    requires var there := TransferTx(b, from, to, amount, n).books; m == Succ(Nonce(there, to))
    ensures var there := TransferTx(b, from, to, amount, n).books;
            var back := TransferTx(there, to, from, amount, m);
            back.error.None? && Balance(back.books, a) == Balance(b, a)
  {
  }

  // ---------------------------------------------------------------- fees and rewards

  /** What the block charges one account. */
  ghost function Charged(txs: seq<LTx>, gas: seq<nat>, fee: nat, a: Account): nat
    requires |txs| == |gas|
  {
    if txs == [] then 0
    else
      var m := |txs| - 1;
      Charged(txs[..m], gas[..m], fee, a) + if txs[m].senderKey == a then fee * gas[m] else 0
  }

  /** Each sender pays the fee for the gas of its own transactions, and nothing else changes. */
  lemma {:induction false} GasPassEffect(v: Vault, txs: seq<LTx>, gas: seq<nat>, fee: nat, a: Account)
    requires |txs| == |gas|
    ensures var c := GasPass(v, txs, gas, fee);
            c.Done? ==> Balance(c.vault.books, a) == Balance(v.books, a) - Charged(txs, gas, fee, a) && c.vault.records == v.records
  {
    if fee == 0 {
      ChargedNothing(txs, gas, a);
    } else if txs != [] {
      GasPassEffect(v, txs[..|txs| - 1], gas[..|txs| - 1], fee, a);
    }
  }

  lemma {:induction false} ChargedNothing(txs: seq<LTx>, gas: seq<nat>, a: Account)
    requires |txs| == |gas|
    ensures Charged(txs, gas, 0, a) == 0
  {
    if txs != [] { ChargedNothing(txs[..|txs| - 1], gas[..|txs| - 1], a); }
  }

  /** What the block rewards an account. */
  ghost function Rewarded(vals: seq<Account>, shares: seq<nat>, a: Account): nat
    requires |vals| == |shares|
  {
    if vals == [] then 0
    else
      var m := |vals| - 1;
      Rewarded(vals[..m], shares[..m], a) + if Fee(vals[m]) == a then shares[m] else 0
  }

  lemma {:induction false} MintPassEffect(v: Vault, vals: seq<Account>, shares: seq<nat>, a: Account)
    requires |vals| == |shares|
    ensures var c := MintPass(v, vals, shares);
            c.Done? ==> Balance(c.vault.books, a) == Balance(v.books, a) + Rewarded(vals, shares, a) && c.vault.records == v.records
  {
    if vals != [] { MintPassEffect(v, vals[..|vals| - 1], shares[..|vals| - 1], a); }
  }

  lemma {:induction false} NotRewarded(vals: seq<Account>, shares: seq<nat>, who: Account)
    requires |vals| == |shares| && who !in vals
    ensures Rewarded(vals, shares, Fee(who)) == 0
  {
    if vals != [] { NotRewarded(vals[..|vals| - 1], shares[..|vals| - 1], who); }
  }

  /** With every validator listed once, the i-th receives the i-th share on its fee account. */
  lemma {:induction false} RewardOf(vals: seq<Account>, shares: seq<nat>, i: nat)
    requires |vals| == |shares| && i < |vals|
    requires forall j, k :: 0 <= j < k < |vals| ==> vals[j] != vals[k]
    ensures Rewarded(vals, shares, Fee(vals[i])) == shares[i]
  {
    var m := |vals| - 1;
    if i == m { NotRewarded(vals[..m], shares[..m], vals[m]); } else { RewardOf(vals[..m], shares[..m], i); }
  }

  // ---------------------------------------------------------------- bonds

  /** Bonding, unbonding and finalizing after the lockup gives back the whole bond. */
  lemma BondCycle(v: Vault, who: Account, amount: int, h0: u64, h1: u64, h2: u64, a: Account)
    requires BondTx(v, who, amount, h0).Done? && Balance(v.books, who) < U256
    requires h1 + UNBONDING_BLOCKS <= h2
    ensures var bonded := BondTx(v, who, amount, h0).vault;
            var leaving := UnbondTx(bonded, who, h1);
            && leaving.Done?
            && var gone := FinalizeTx(leaving.vault, who, h2);
            && gone.Done? && gone.vault.records == v.records && gone.vault.books.nonces == v.books.nonces
            && Balance(gone.vault.books, a) == Balance(v.books, a)
  {
    var bonded := BondTx(v, who, amount, h0).vault;
    var leaving := UnbondTx(bonded, who, h1).vault;
    MovedToEscrow(v, who, amount, h0);
    ShiftEffect(v.books, who, Escrow(who), amount, a);
    ShiftEffect(leaving.books, Escrow(who), who, amount, a);
    assert leaving.records - {who} == v.records;
  }

  lemma MovedToEscrow(v: Vault, who: Account, amount: int, h: u64)
    requires BondTx(v, who, amount, h).Done?
    ensures var b := BondTx(v, who, amount, h).vault;
            && Balance(b.books, who) == Balance(v.books, who) - amount
            && Balance(b.books, Escrow(who)) == Balance(v.books, Escrow(who)) + amount
  {
  }

  /** Until the lockup has passed, finalizing changes nothing. */
  lemma LockedUp(v: Vault, who: Account, h: u64)
    requires who in v.records && (v.records[who].status == Bonded || h < v.records[who].unbondingAt + UNBONDING_BLOCKS < U64)
    ensures FinalizeTx(v, who, h) == Done(v, 0)
  {
  }

  // ---------------------------------------------------------------- misses

  function Misses(v: Vault, who: Account, n: nat): Change {
    if n == 0 then Done(v, 0)
    else
      match Misses(v, who, n - 1)
      case Abort(c) => Abort(c)
      case Done(v', burned) =>
        match MissTx(v', who)
        case Abort(c) => Abort(c)
        case Done(v'', more) => Done(v'', burned + more)
  }

  lemma {:induction false} FewMisses(v: Vault, who: Account, n: nat)
    requires who in v.records && v.records[who].misses == 0 && n < MISS_THRESHOLD
    ensures Misses(v, who, n) == Done(v.(records := v.records[who := v.records[who].(misses := n)]), 0)
  {
    if n == 0 {
      assert v.records[who := v.records[who].(misses := 0)] == v.records;
    } else {
      FewMisses(v, who, n - 1);
      var records := v.records[who := v.records[who].(misses := n - 1)];
      assert records[who := v.records[who].(misses := n)] == v.records[who := v.records[who].(misses := n)];
    }
  }

  lemma MissAtThreshold(v: Vault, who: Account, penalty: nat)
    requires who in v.records && v.records[who].misses == MISS_THRESHOLD - 1 && penalty == v.records[who].amount * 10 / 100
    requires v.records[who].amount <= Balance(v.books, Escrow(who)) < U256
    ensures var r := v.records[who].(amount := v.records[who].amount - penalty, misses := 0);
            var c := MissTx(v, who);
            && c.Done? && c.burned == penalty && c.vault.records == v.records[who := r]
            && Balance(c.vault.books, Escrow(who)) == Balance(v.books, Escrow(who)) - penalty
  {
    assert MissPenalty(v.records[who]) == penalty;
  }

  /** Four misses cost nothing; the fifth burns a tenth of the bond and starts the count again. */
  lemma FifthMiss(v: Vault, who: Account, n: nat)
    requires n == MISS_THRESHOLD
    requires who in v.records && v.records[who].misses == 0 && Balance(v.books, Escrow(who)) >= v.records[who].amount
    requires Balance(v.books, Escrow(who)) < U256
    ensures var r := v.records[who];
            var penalty := r.amount * 10 / 100;
            var c := Misses(v, who, n);
            && c.Done? && c.burned == penalty
            && c.vault.records == v.records[who := r.(amount := r.amount - penalty)]
            && Balance(c.vault.books, Escrow(who)) == Balance(v.books, Escrow(who)) - penalty
  {
    FewMisses(v, who, n - 1);
    var r := v.records[who];
    var penalty := r.amount * 10 / 100;
    var four := v.(records := v.records[who := r.(misses := n - 1)]);
    MissAtThreshold(four, who, penalty);
    var last := r.(amount := r.amount - penalty);
    assert four.records[who := last] == v.records[who := last];
  }
}

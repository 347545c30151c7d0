/** Base fee, fee accrual and block rewards: core/gas/gas.go and core/mint/mint.go. */
module Economics {
  import opened Wrappers
  import opened Errors
  import opened Bytes
  import opened Sequences
  import opened Ledger

  const TARGET_GAS: nat := 32768
  const MIN_BASE_FEE: nat := 1

  /** An eighth of fee * diff / target, rounded down twice as the source does. */
  function Delta(fee: nat, diff: nat): nat {
    fee * diff / TARGET_GAS / 8
  }

  function BaseFee(prev: Option<nat>, gas: u64): (fee: nat)
    ensures fee >= MIN_BASE_FEE
  {
    if prev.None? then MIN_BASE_FEE
    else
      var next :=
        if gas > TARGET_GAS then prev.value + Delta(prev.value, gas - TARGET_GAS)
        else prev.value - Delta(prev.value, TARGET_GAS - gas);
      if next < MIN_BASE_FEE then MIN_BASE_FEE else next
  }

  lemma FloorMonotone(x: nat, y: nat, d: nat)
    requires x <= y && d > 0
    ensures x / d <= y / d
  {
    if x / d > y / d {
      assert x == d * (x / d) + x % d && y == d * (y / d) + y % d;
      assert d * (x / d) >= d * (y / d + 1) by { Scale(d, y / d + 1, x / d); }
      assert false;
    }
  }

  lemma Scale(c: nat, x: int, y: int)
    requires x <= y
    ensures c * x <= c * y
  {
  }

  lemma DeltaMonotone(fee: nat, fee': nat, diff: nat, diff': nat)
    requires fee <= fee' && diff <= diff'
    ensures Delta(fee, diff) <= Delta(fee', diff')
  {
    assert fee * diff <= fee' * diff' by {
      Scale(fee, diff, diff');
      Scale(diff', fee, fee');
    }
    FloorMonotone(fee * diff, fee' * diff', TARGET_GAS);
    FloorMonotone(fee * diff / TARGET_GAS, fee' * diff' / TARGET_GAS, 8);
  }

  lemma FloorShift(a: nat, k: nat)
    ensures (a + k * TARGET_GAS) / TARGET_GAS == a / TARGET_GAS + k
  {
  }

  lemma Distribute(c: int, x: int, y: int)
    ensures c * (x + y) == c * x + c * y
  {
  }

  lemma EighthShift(a: nat, k: nat)
    ensures (a + k) / 8 <= a / 8 + k
  {
  }

  /** Raising the fee raises its reduction by no more than the raise. */
  lemma DeltaSlow(fee: nat, rise: nat, diff: nat)
    requires diff <= TARGET_GAS
    ensures Delta(fee + rise, diff) <= Delta(fee, diff) + rise
  {
    var a, b := fee * diff, (fee + rise) * diff;
    assert b <= a + rise * TARGET_GAS by {
      Distribute(diff, fee, rise);
      Scale(rise, diff, TARGET_GAS);
    }
    FloorMonotone(b, a + rise * TARGET_GAS, TARGET_GAS);
    FloorShift(a, rise);
    FloorMonotone(b / TARGET_GAS, a / TARGET_GAS + rise, 8);
    EighthShift(a / TARGET_GAS, rise);
  }

  lemma DeltaBound(fee: nat, diff: nat)
    requires diff <= TARGET_GAS
    ensures Delta(fee, diff) <= fee / 8
  {
    Scale(fee, diff, TARGET_GAS);
    FloorMonotone(fee * diff, fee * TARGET_GAS, TARGET_GAS);
    assert fee * TARGET_GAS / TARGET_GAS == fee;
    FloorMonotone(fee * diff / TARGET_GAS, fee, 8);
  }

  /** The base fee grows with the previous fee and with the gas used. */
  lemma BaseFeeMonotone(fee: nat, fee': nat, gas: u64, gas': u64)
    requires fee <= fee' && gas <= gas'
    ensures BaseFee(Some(fee), gas) <= BaseFee(Some(fee'), gas')
  {
    if gas <= TARGET_GAS {
      DeltaSlow(fee, fee' - fee, TARGET_GAS - gas);
      if gas' <= TARGET_GAS { DeltaMonotone(fee', fee', TARGET_GAS - gas', TARGET_GAS - gas); }
    } else {
      DeltaMonotone(fee, fee', gas - TARGET_GAS, gas' - TARGET_GAS);
    }
  }

  /** It never falls by more than an eighth, nor rises by more while gas is within twice the target. */
  lemma BaseFeeBounds(fee: nat, gas: u64)
    requires fee >= MIN_BASE_FEE
    ensures BaseFee(Some(fee), gas) >= fee - fee / 8
    ensures gas <= 2 * TARGET_GAS ==> BaseFee(Some(fee), gas) <= fee + fee / 8
  {
    if gas <= TARGET_GAS { DeltaBound(fee, TARGET_GAS - gas); }
    else if gas <= 2 * TARGET_GAS { DeltaBound(fee, gas - TARGET_GAS); }
  }

  // ---------------------------------------------------------------- rewards

  const BLOCKS_PER_YEAR: nat := 5_256_000

  function MintPerBlock(supply: nat, staked: nat): nat {
    var target: nat := supply * 50 / 100;
    if target == 0 || staked >= target then 0
    else
      var deficit: nat := target - staked;
      var most: nat := supply * 10 / 100 / BLOCKS_PER_YEAR;
      MulDiv(most, deficit, target)
  }

  function MulDiv(x: nat, y: nat, z: nat): nat
    requires z > 0
  {
    x * y / z
  }

  ghost function SumSeq(s: seq<int>): int {
    if s == [] then 0 else SumSeq(s[..|s| - 1]) + s[|s| - 1]
  }

  lemma {:induction false} SumConst(s: seq<int>, c: int)
    requires forall i :: 0 <= i < |s| ==> s[i] == c
    ensures SumSeq(s) == |s| * c
  {
    if s != [] { SumConst(s[..|s| - 1], c); }
  }

  lemma {:induction false} SumUpdateFirst(s: seq<int>, d: int)
    requires s != []
    ensures SumSeq(s[0 := s[0] + d]) == SumSeq(s) + d
  {
    var m := |s| - 1;
    if m > 0 {
      SumUpdateFirst(s[..m], d);
      assert s[0 := s[0] + d][..m] == s[..m][0 := s[0] + d];
    } else {
      assert s[0 := s[0] + d][..m] == s[..m];
    }
  }

  /** SplitReward: equal shares, the remainder to the first validator. */
  function Shares(reward: nat, count: nat): (s: seq<nat>)
    ensures |s| == count
  {
    if count == 0 then [] else Repeated(reward / count, count)[0 := reward / count + reward % count]
  }

  /** Nothing is lost or made by splitting. */
  lemma SharesSum(reward: nat, count: nat)
    requires count > 0
    ensures SumSeq(Shares(reward, count)) == reward
  {
    var flat := Repeated(reward / count, count);
    SumConst(flat, reward / count);
    SumUpdateFirst(flat, reward % count);
    DivMod(reward, count);
  }

  lemma DivMod(x: nat, d: nat)
    requires d > 0
    ensures x == d * (x / d) + x % d
  {
  }

  method SplitReward(reward: nat, count: nat) returns (shares: seq<nat>)
    ensures shares == Shares(reward, count)
    ensures count > 0 ==> SumSeq(shares) == reward
  {
    shares := [];
    if count == 0 { return; }
    var share := reward / count;
    var remainder := reward - share * count;
    DivMod(reward, count);
    SharesSum(reward, count);
    while |shares| < count
      invariant |shares| <= count
      invariant forall i :: 0 <= i < |shares| ==> shares[i] == share
    {
      shares := shares + [share];
    }
    assert shares == Repeated(share, count);
    shares := shares[0 := shares[0] + remainder];
  }

  // ---------------------------------------------------------------- accrual

  /** One of `count` equal shares of the pool: the first pool % count get one unit more. */
  function EqualShare(pool: nat, count: nat, i: nat): nat
    requires count > 0
  {
    pool / count + if i < pool % count then 1 else 0
  }

  /** A share of the pool in proportion to a bond. */
  function BondShare(pool: nat, bond: nat, bonded: nat): nat {
    if bonded == 0 then 0 else pool * bond / bonded
  }

  ghost function EqualSum(pool: nat, count: nat, n: nat): nat
    requires count > 0
  {
    if n == 0 then 0 else EqualSum(pool, count, n - 1) + EqualShare(pool, count, n - 1)
  }

  ghost function BondShareSum(pool: nat, bonds: seq<nat>, n: nat, bonded: nat): nat
    requires n <= |bonds|
  {
    if n == 0 then 0 else BondShareSum(pool, bonds, n - 1, bonded) + BondShare(pool, bonds[n - 1], bonded)
  }

  ghost function BondSum(bonds: seq<nat>, n: nat): nat
    requires n <= |bonds|
  {
    if n == 0 then 0 else BondSum(bonds, n - 1) + bonds[n - 1]
  }

  /** 70% of the fees are split equally, the rest in proportion to bonds. */
  function EqualPool(fees: nat): (p: nat)
    ensures p <= fees
  {
    fees * 70 / 100
  }

  ghost function Paid(fees: nat, bonds: seq<nat>): nat
    requires bonds != []
  {
    EqualSum(EqualPool(fees), |bonds|, |bonds|)
    + BondShareSum(fees - EqualPool(fees), bonds, |bonds|, BondSum(bonds, |bonds|))
  }

  lemma {:induction false} EqualSumIs(pool: nat, count: nat, n: nat)
    requires count > 0
    ensures EqualSum(pool, count, n) == (pool / count) * n + if n < pool % count then n else pool % count
  {
    if n > 0 {
      EqualSumIs(pool, count, n - 1);
      Distribute(pool / count, n - 1, 1);
    }
  }

  lemma EqualSumAll(pool: nat, count: nat)
    requires count > 0
    ensures EqualSum(pool, count, count) == pool
  {
    EqualSumIs(pool, count, count);
  }

  /** Rounding down loses less than one unit per term. */
  lemma FloorTerm(x: nat, bonded: nat)
    requires bonded > 0
    ensures x - bonded < bonded * (x / bonded) <= x
  {
  }

  /** x lies within n units of c above c * sum, and strictly within once there is a unit. */
  ghost predicate Bounded(c: nat, sum: nat, x: nat, n: nat) {
    c * sum <= x <= c * sum + c * n && (n > 0 ==> x < c * sum + c * n)
  }

  lemma {:induction false} BondShareBounds(pool: nat, bonds: seq<nat>, n: nat, bonded: nat)
    requires n <= |bonds| && bonded > 0
    ensures Bounded(bonded, BondShareSum(pool, bonds, n, bonded), pool * BondSum(bonds, n), n)
  {
    if n > 0 {
      BondShareBounds(pool, bonds, n - 1, bonded);
      var bond := bonds[n - 1];
      ShareBounds(pool, bond, bonded);
      BondTerm(bonded, BondShareSum(pool, bonds, n - 1, bonded), BondShare(pool, bond, bonded), pool, BondSum(bonds, n - 1), bond, n);
    }
  }

  lemma ShareBounds(pool: nat, bond: nat, bonded: nat)
    requires bonded > 0
    ensures pool * bond - bonded < bonded * BondShare(pool, bond, bonded) <= pool * bond
  {
    FloorTerm(pool * bond, bonded);
  }

  lemma BondTerm(c: nat, paid: nat, share: nat, pool: nat, sum: nat, bond: nat, n: nat)
    requires n > 0 && Bounded(c, paid, pool * sum, n - 1) && pool * bond - c < c * share <= pool * bond
    ensures Bounded(c, paid + share, pool * (sum + bond), n)
  {
  }

  /** Fees are paid out in full up to a dust below the number of validators. */
  lemma AccrualDust(fees: nat, bonds: seq<nat>)
    requires bonds != [] && BondSum(bonds, |bonds|) > 0
    ensures 0 <= fees - Paid(fees, bonds) < |bonds|
  {
    var n, bonded, pool := |bonds|, BondSum(bonds, |bonds|), EqualPool(fees);
    EqualSumAll(pool, n);
    BondShareBounds(fees - pool, bonds, n, bonded);
    Squeeze(bonded, fees - pool, n, BondShareSum(fees - pool, bonds, n, bonded));
  }

  lemma Squeeze(c: nat, x: int, n: nat, rest: int)
    requires c > 0 && c * rest <= x * c < c * rest + c * n
    ensures x - n < rest <= x
  {
  }

  /** What Accrue credits the i-th validator. */
  ghost function Portion(fees: nat, bonds: seq<nat>, i: nat): nat
    requires i < |bonds|
  {
    EqualShare(EqualPool(fees), |bonds|, i) + BondShare(fees - EqualPool(fees), bonds[i], BondSum(bonds, |bonds|))
  }

  /** The first n credits, each its own write: an overflow stops the loop and keeps the earlier ones. */
  ghost function Credited(b: Books, fees: nat, validators: seq<Account>, bonds: seq<nat>, n: nat): Effect
    requires n <= |validators| == |bonds|
  {
    if n == 0 then Effect(b, None)
    else
      var before := Credited(b, fees, validators, bonds, n - 1);
      if before.error.Some? then before
      else CreditTx(before.books, Fee(validators[n - 1]), Portion(fees, bonds, n - 1))
  }

  ghost function Accrued(b: Books, fees: int, validators: seq<Account>, bonds: seq<nat>): Effect {
    if fees < 0 || |validators| != |bonds| then Effect(b, Some(Malformed))
    else if validators == [] || fees == 0 then Effect(b, None)
    else Credited(b, fees, validators, bonds, |validators|)
  }

  lemma {:induction false} CreditedStays(b: Books, fees: nat, validators: seq<Account>, bonds: seq<nat>, k: nat, n: nat)
    requires k <= n <= |validators| == |bonds| && Credited(b, fees, validators, bonds, k).error.Some?
    ensures Credited(b, fees, validators, bonds, n) == Credited(b, fees, validators, bonds, k)
  {
    if k < n { CreditedStays(b, fees, validators, bonds, k, n - 1); }
  }

  ghost function PortionSum(fees: nat, bonds: seq<nat>, n: nat): nat
    requires n <= |bonds|
  {
    if n == 0 then 0 else PortionSum(fees, bonds, n - 1) + Portion(fees, bonds, n - 1)
  }

  lemma {:induction false} PortionsArePaid(fees: nat, bonds: seq<nat>, n: nat)
    requires n <= |bonds| && bonds != []
    ensures PortionSum(fees, bonds, n)
         == EqualSum(EqualPool(fees), |bonds|, n) + BondShareSum(fees - EqualPool(fees), bonds, n, BondSum(bonds, |bonds|))
  {
    if n > 0 { PortionsArePaid(fees, bonds, n - 1); }
  }

  lemma {:induction false} CreditedTotal(b: Books, fees: nat, validators: seq<Account>, bonds: seq<nat>, n: nat)
    requires n <= |validators| == |bonds|
    ensures var e := Credited(b, fees, validators, bonds, n);
            e.error.None? ==> Total(e.books) == Total(b) + PortionSum(fees, bonds, n)
  {
    if n > 0 {
      CreditedTotal(b, fees, validators, bonds, n - 1);
      var before := Credited(b, fees, validators, bonds, n - 1);
      if before.error.None? { CreditTotal(before.books, Fee(validators[n - 1]), Portion(fees, bonds, n - 1)); }
    }
  }

  /** The sum of balances grows by all fees but a dust below the number of validators. */
  lemma AccruedTotal(b: Books, fees: nat, validators: seq<Account>, bonds: seq<nat>)
    requires |validators| == |bonds| && BondSum(bonds, |bonds|) > 0 && fees > 0
    ensures var e := Accrued(b, fees, validators, bonds);
            e.error.None? ==> 0 <= Total(b) + fees - Total(e.books) < |validators|
  {
    if validators != [] {
      CreditedTotal(b, fees, validators, bonds, |bonds|);
      PortionsArePaid(fees, bonds, |bonds|);
      AccrualDust(fees, bonds);
    }
  }

  /** Accounts other than the validators' fee accounts are untouched. */
  lemma {:induction false} CreditedOthers(b: Books, fees: nat, validators: seq<Account>, bonds: seq<nat>, n: nat, a: Account)
    requires n <= |validators| == |bonds| && forall i :: 0 <= i < n ==> a != Fee(validators[i])
    ensures Balance(Credited(b, fees, validators, bonds, n).books, a) == Balance(b, a)
  {
    if n > 0 { CreditedOthers(b, fees, validators, bonds, n - 1, a); }
  }

  /** With every validator listed once, the i-th has its portion more on its fee account. */
  lemma {:induction false} CreditedEach(b: Books, fees: nat, validators: seq<Account>, bonds: seq<nat>, n: nat, i: nat)
    requires i < n <= |validators| == |bonds|
    requires forall j, k :: 0 <= j < k < |validators| ==> validators[j] != validators[k]
    requires Credited(b, fees, validators, bonds, n).error.None?
    ensures Balance(Credited(b, fees, validators, bonds, n).books, Fee(validators[i]))
         == Balance(b, Fee(validators[i])) + Portion(fees, bonds, i)
  {
    if i < n - 1 { CreditedEach(b, fees, validators, bonds, n - 1, i); }
    else { CreditedOthers(b, fees, validators, bonds, i, Fee(validators[i])); }
  }
}

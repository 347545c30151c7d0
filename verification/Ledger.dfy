/** Balances and nonces: core/ledger/ledger.go. */
module Ledger {
  import opened Wrappers
  import opened Errors
  import opened Bytes

  /**
   * Accounts. Escrow, fee and contract addresses are SHA-256 images under their own domains;
   * as constructors they are distinct from each other and from every key.
   */
  datatype Account =
    | User(key: Bytes32)
    | Escrow(of: Account)
    | Fee(of: Account)
    | Contract(deployer: Account, nonce: u64)

  const NOBODY: Account := User(ZERO32)

  datatype Books = Books(balances: map<Account, nat>, nonces: map<Account, u64>)

  function Balance(b: Books, a: Account): nat {
    if a in b.balances then b.balances[a] else 0
  }

  function Nonce(b: Books, a: Account): u64 {
    if a in b.nonces then b.nonces[a] else 0
  }

  /** An operation's effect: the buckets it leaves behind, also when it fails half way. */
  datatype Effect = Effect(books: Books, error: Option<Code>)

  predicate FitsU256(v: int) {
    0 <= v < U256
  }

  function Put(b: Books, a: Account, v: nat): Books {
    b.(balances := b.balances[a := v])
  }

  function WriteBalance(b: Books, a: Account, v: int): Effect {
    if !FitsU256(v) then Effect(b, Some(ArithmeticOverflow)) else Effect(Put(b, a, v), None)
  }

  /** The uint64 increment. */
  function Succ(n: u64): u64 {
    if n + 1 == U64 then 0 else n + 1
  }

  function AdvanceNonce(b: Books, a: Account, nonce: u64): Effect {
    if nonce != Succ(Nonce(b, a)) then Effect(b, Some(SequenceFault))
    else Effect(b.(nonces := b.nonces[a := nonce]), None)
  }

  /**
   * The two writes shared by TransferTx and MoveTx. Both balances are read before either is
   * written, and a failing second write leaves the first in place.
   */
  function Shift(b: Books, from: Account, to: Account, amount: int): Effect {
    if Balance(b, from) < amount then Effect(b, Some(InsufficientFunds))
    else
      var first := WriteBalance(b, from, Balance(b, from) - amount);
      if first.error.Some? then first
      else WriteBalance(first.books, to, Balance(b, to) + amount)
  }

  function MoveTx(b: Books, from: Account, to: Account, amount: int): Effect {
    if !FitsU256(amount) then Effect(b, Some(ArithmeticOverflow)) else Shift(b, from, to, amount)
  }

  function TransferTx(b: Books, from: Account, to: Account, amount: int, nonce: u64): Effect {
    var advanced := AdvanceNonce(b, from, nonce);
    if advanced.error.Some? then advanced else Shift(advanced.books, from, to, amount)
  }

  function BurnTx(b: Books, a: Account, amount: int): Effect {
    if Balance(b, a) < amount then Effect(b, Some(InsufficientFunds)) else WriteBalance(b, a, Balance(b, a) - amount)
  }

  function CreditTx(b: Books, a: Account, amount: int): Effect {
    WriteBalance(b, a, Balance(b, a) + amount)
  }

  // ---------------------------------------------------------------- the sum of all balances

  ghost function Sum(m: map<Account, nat>): nat
    decreases m.Keys
  {
    if m.Keys == {} then 0
    else
      var a :| a in m;
      assert (m - {a}).Keys == m.Keys - {a};
      m[a] + Sum(m - {a})
  }

  lemma {:induction false} SumRemove(m: map<Account, nat>, a: Account)
    requires a in m
    ensures Sum(m) == m[a] + Sum(m - {a})
    decreases m.Keys
  {
    var c :| c in m && Sum(m) == m[c] + Sum(m - {c});
    if c != a {
      assert (m - {c}).Keys == m.Keys - {c} && (m - {a}).Keys == m.Keys - {a};
      SumRemove(m - {c}, a);
      SumRemove(m - {a}, c);
      assert m - {a} - {c} == m - {c} - {a};
    }
  }

  lemma SumPut(m: map<Account, nat>, a: Account, v: nat)
    ensures Sum(m[a := v]) == Sum(m) - (if a in m then m[a] else 0) + v
  {
    var m' := m[a := v];
    SumRemove(m', a);
    if a in m {
      SumRemove(m, a);
      assert m' - {a} == m - {a};
    } else {
      assert m' - {a} == m;
    }
  }

  ghost function Total(b: Books): nat {
    Sum(b.balances)
  }

  lemma TotalPut(b: Books, a: Account, v: nat)
    ensures Total(Put(b, a, v)) == Total(b) - Balance(b, a) + v
  {
    SumPut(b.balances, a, v);
  }

  lemma BalanceBelowTotal(b: Books, a: Account)
    ensures Balance(b, a) <= Total(b)
  {
    if a in b.balances { SumRemove(b.balances, a); }
  }

  lemma TwoBalancesBelowTotal(b: Books, a: Account, c: Account)
    requires a != c
    ensures Balance(b, a) + Balance(b, c) <= Total(b)
  {
    TotalPut(b, a, 0);
    BalanceBelowTotal(Put(b, a, 0), c);
  }

  /** How far a shift moves the sum of balances: a self-move creates, a failed second write destroys. */
  ghost function ShiftDrift(b: Books, from: Account, to: Account, amount: int): int {
    if Balance(b, from) < amount || !FitsU256(Balance(b, from) - amount) then 0
    else if !FitsU256(Balance(b, to) + amount) then -amount
    else if from == to then amount
    else 0
  }

  lemma ShiftTotal(b: Books, from: Account, to: Account, amount: int)
    ensures Total(Shift(b, from, to, amount).books) == Total(b) + ShiftDrift(b, from, to, amount)
  {
    if Balance(b, from) >= amount && FitsU256(Balance(b, from) - amount) {
      var first := Put(b, from, Balance(b, from) - amount);
      TotalPut(b, from, Balance(b, from) - amount);
      if FitsU256(Balance(b, to) + amount) { TotalPut(first, to, Balance(b, to) + amount); }
    }
  }

  /**
   * A shift conserves the sum exactly when it is refused before writing, moves nothing, or goes to
   * another account that has room for the amount.
   */
  lemma ShiftConserves(b: Books, from: Account, to: Account, amount: int)
    ensures Total(Shift(b, from, to, amount).books) == Total(b)
       <==> || Balance(b, from) < amount || !FitsU256(Balance(b, from) - amount) || amount == 0
            || (from != to && FitsU256(Balance(b, to) + amount))
  {
    ShiftTotal(b, from, to, amount);
  }

  /** A transfer of 5 from an account to itself turns 10 into 15. */
  lemma SelfTransferCreates()
    ensures var a := User(ZERO32);
            var b := Books(map[a := 10], map[]);
            TransferTx(b, a, a, 5, 1) == Effect(Books(map[a := 15], map[a := 1]), None)
  {
  }

  lemma BurnTotal(b: Books, a: Account, amount: nat)
    ensures BurnTx(b, a, amount).error.None? ==> Total(BurnTx(b, a, amount).books) == Total(b) - amount
  {
    if Balance(b, a) >= amount { TotalPut(b, a, Balance(b, a) - amount); }
  }

  lemma CreditTotal(b: Books, a: Account, amount: nat)
    ensures CreditTx(b, a, amount).error.None? ==> Total(CreditTx(b, a, amount).books) == Total(b) + amount
  {
    TotalPut(b, a, Balance(b, a) + amount);
  }
}

/** Bonds, escrow and slashing: core/staking/staking.go, and ClaimTx of core/gas/gas.go. */
module Staking {
  import opened Errors
  import opened Bytes
  import opened Ledger

  const MIN_BOND: nat := 1000_000_000_000_000_000_000
  const UNBONDING_BLOCKS: nat := 1000
  const MISS_THRESHOLD: nat := 5

  datatype Status = Bonded | Unbonding

  datatype Record = Record(status: Status, amount: nat, bondedAt: u64, unbondingAt: u64, misses: u64)

  /** The buckets a staking operation touches. */
  datatype Vault = Vault(books: Books, records: map<Account, Record>)

  /** A finished operation with the amount it burned, or the error that rolls the block back. */
  datatype Change = Done(vault: Vault, burned: nat) | Abort(code: Code)

  function Lift(v: Vault, e: Effect): Change {
    if e.error.Some? then Abort(e.error.value) else Done(v.(books := e.books), 0)
  }

  function BondTx(v: Vault, who: Account, amount: int, height: u64): Change {
    if amount < MIN_BOND then Abort(BondBelowMinimum)
    else if who in v.records then Abort(AlreadyBonded)
    else
      var e := MoveTx(v.books, who, Escrow(who), amount);
      if e.error.Some? then Abort(e.error.value)
      else Done(Vault(e.books, v.records[who := Record(Bonded, amount, height, 0, 0)]), 0)
  }

  function UnbondTx(v: Vault, who: Account, height: u64): Change {
    if who !in v.records then Abort(NotBonded)
    else if v.records[who].status == Unbonding then Abort(UnbondingPending)
    else Done(v.(records := v.records[who := v.records[who].(status := Unbonding, unbondingAt := height)]), 0)
  }

  /** The lockup end is a uint64 sum and may wrap. */
  predicate Matured(r: Record, height: u64) {
    r.status == Unbonding && height >= (r.unbondingAt + UNBONDING_BLOCKS) % U64
  }

  function FinalizeTx(v: Vault, who: Account, height: u64): Change {
    if who !in v.records || !Matured(v.records[who], height) then Done(v, 0)
    else
      var e := MoveTx(v.books, Escrow(who), who, v.records[who].amount);
      if e.error.Some? then Abort(e.error.value) else Done(Vault(e.books, v.records - {who}), 0)
  }

  function SlashTx(v: Vault, who: Account): Change {
    if who !in v.records then Abort(NotBonded)
    else
      var amount := v.records[who].amount;
      var e := BurnTx(v.books, Escrow(who), amount);
      if e.error.Some? then Abort(e.error.value) else Done(Vault(e.books, v.records - {who}), amount)
  }

  /** A tenth of the bond. */
  function MissPenalty(r: Record): nat {
    if r.misses + 1 >= MISS_THRESHOLD then r.amount * 10 / 100 else 0
  }

  function Missed(r: Record): Record {
    if r.misses + 1 >= MISS_THRESHOLD then r.(amount := r.amount - MissPenalty(r), misses := 0)
    else r.(misses := r.misses + 1)
  }

  /** RecordMissTx and the burn its caller owes (statemachine.go:641-655). */
  function MissTx(v: Vault, who: Account): Change {
    if who !in v.records then Abort(NotBonded)
    else
      var r := v.records[who];
      var marked := v.(records := v.records[who := Missed(r)]);
      if MissPenalty(r) == 0 then Done(marked, 0)
      else
        var e := BurnTx(v.books, Escrow(who), MissPenalty(r));
        if e.error.Some? then Abort(e.error.value) else Done(marked.(books := e.books), MissPenalty(r))
  }

  function ClaimTx(v: Vault, who: Account): Change {
    var due := Balance(v.books, Fee(who));
    if due == 0 then Done(v, 0) else Lift(v, MoveTx(v.books, Fee(who), who, due))
  }

  // ---------------------------------------------------------------- conservation

  /** A move between different accounts that succeeds conserves the sum. */
  lemma MoveBetween(b: Books, from: Account, to: Account, amount: int)
    requires from != to && MoveTx(b, from, to, amount).error.None?
    ensures Total(MoveTx(b, from, to, amount).books) == Total(b)
  {
    ShiftTotal(b, from, to, amount);
  }

  /** Every staking operation removes from circulation exactly what it reports as burned. */
  lemma StakingTotals(v: Vault, who: Account, amount: int, height: u64)
    ensures var c := BondTx(v, who, amount, height); c.Done? ==> Total(c.vault.books) + c.burned == Total(v.books)
    ensures var c := UnbondTx(v, who, height); c.Done? ==> Total(c.vault.books) + c.burned == Total(v.books)
    ensures var c := FinalizeTx(v, who, height); c.Done? ==> Total(c.vault.books) + c.burned == Total(v.books)
    ensures var c := SlashTx(v, who); c.Done? ==> Total(c.vault.books) + c.burned == Total(v.books)
    ensures var c := MissTx(v, who); c.Done? ==> Total(c.vault.books) + c.burned == Total(v.books)
    ensures var c := ClaimTx(v, who); c.Done? ==> Total(c.vault.books) + c.burned == Total(v.books)
  {
    if BondTx(v, who, amount, height).Done? { MoveBetween(v.books, who, Escrow(who), amount); }
    if who in v.records {
      var r := v.records[who];
      if FinalizeTx(v, who, height).Done? && Matured(r, height) { MoveBetween(v.books, Escrow(who), who, r.amount); }
      BurnTotal(v.books, Escrow(who), r.amount);
      BurnTotal(v.books, Escrow(who), MissPenalty(r));
    }
    var due := Balance(v.books, Fee(who));
    if due != 0 && ClaimTx(v, who).Done? { MoveBetween(v.books, Fee(who), who, due); }
  }

  // ---------------------------------------------------------------- solvency

  /** The escrow of every recorded validator covers its bond, and its miss count is below the threshold. */
  ghost predicate Covered(v: Vault, who: Account)
    requires who in v.records
  {
    Balance(v.books, Escrow(who)) >= v.records[who].amount && v.records[who].misses < MISS_THRESHOLD
  }

  ghost predicate Solvent(v: Vault) {
    forall who :: who in v.records ==> Covered(v, who)
  }

  /** No escrow account lost anything and no record changed. */
  lemma SolventMonotone(v: Vault, v': Vault)
    requires Solvent(v) && v'.records == v.records
    requires forall a :: Balance(v'.books, Escrow(a)) >= Balance(v.books, Escrow(a))
    ensures Solvent(v')
  {
    forall who | who in v'.records ensures Covered(v', who) { assert Covered(v, who); }
  }

  lemma BondKeepsSolvent(v: Vault, who: Account, amount: int, height: u64)
    requires Solvent(v) && !who.Escrow?
    ensures BondTx(v, who, amount, height).Done? ==> Solvent(BondTx(v, who, amount, height).vault)
  {
  }

  lemma UnbondKeepsSolvent(v: Vault, who: Account, height: u64)
    requires Solvent(v)
    ensures UnbondTx(v, who, height).Done? ==> Solvent(UnbondTx(v, who, height).vault)
  {
  }

  lemma FinalizeKeepsSolvent(v: Vault, who: Account, height: u64)
    requires Solvent(v)
    ensures FinalizeTx(v, who, height).Done? ==> Solvent(FinalizeTx(v, who, height).vault)
    ensures FinalizeTx(v, who, height) != Abort(InsufficientFunds)
  {
  }

  lemma SlashKeepsSolvent(v: Vault, who: Account)
    requires Solvent(v)
    ensures SlashTx(v, who).Done? ==> Solvent(SlashTx(v, who).vault)
    ensures SlashTx(v, who) != Abort(InsufficientFunds)
  {
  }

  lemma MissKeepsSolvent(v: Vault, who: Account)
    requires Solvent(v)
    ensures MissTx(v, who).Done? ==> Solvent(MissTx(v, who).vault)
    ensures MissTx(v, who) != Abort(InsufficientFunds)
  {
  }

  lemma ClaimKeepsSolvent(v: Vault, who: Account)
    requires Solvent(v)
    ensures ClaimTx(v, who).Done? ==> Solvent(ClaimTx(v, who).vault)
  {
  }
}

/**
 * The database the ledger, the staking store and the state machine share, with their operations as
 * they update its buckets. Each is proved against its function on values.
 */
module Database {
  import opened Wrappers
  import opened Errors
  import opened Bytes
  import L = Ledger
  import opened Ledger
  import E = Economics
  import S = Staking
  import opened Staking
  import A = BlockApply
  import opened BlockApply

  /** An operation's outcome: its error, or the vault and the burned amount of the change. */
  ghost predicate Matches(c: Change, err: Option<Code>, v: Vault, burned: nat) {
    match c
    case Done(vault, amount) => err.None? && v == vault && burned == amount
    case Abort(code) => err == Some(code)
  }

  ghost predicate MatchesTx(r: TxResult, err: Option<Code>, st: State, burned: nat, fuel: Option<u64>) {
    match r
    case Applied(s, amount, used) => err.None? && st == s && burned == amount && fuel == used
    case Skipped(s) => err.None? && st == s && burned == 0 && fuel == None
    case Aborted(code) => err == Some(code)
  }

  class Buckets {
    var balances: map<Account, nat>
    var nonces: map<Account, u64>
    var records: map<Account, Record>
    var contracts: set<Account>
    var height: u64
    var root: Bytes32
    var baseFee: Option<nat>
    var supply: Option<nat>
    var seeded: bool

    function Accounts(): Books
      reads this
    {
      Books(balances, nonces)
    }

    function Safe(): Vault
      reads this
    {
      Vault(Accounts(), records)
    }

    function Whole(): State
      reads this
    {
      State(Safe(), contracts, height, root, baseFee, supply, seeded)
    }

    constructor ()
      ensures Whole() == State(Vault(Books(map[], map[]), map[]), {}, 0, ZERO32, None, None, false)
    {
      balances, nonces, records, contracts := map[], map[], map[], {};
      height, root, baseFee, supply, seeded := 0, ZERO32, None, None, false;
    }

    /** A rolled-back bolt transaction. */
    method Restore(st: State)
      modifies this
      ensures Whole() == st
    {
      balances, nonces, records := st.vault.books.balances, st.vault.books.nonces, st.vault.records;
      contracts, height, root := st.contracts, st.height, st.root;
      baseFee, supply, seeded := st.baseFee, st.supply, st.seeded;
    }

    // -------------------------------------------------------------- ledger

    function ReadBalance(a: Account): nat
      reads this
    {
      if a in balances then balances[a] else 0
    }

    method WriteBalance(a: Account, v: int) returns (err: Option<Code>)
      modifies this`balances
      ensures Effect(Accounts(), err) == L.WriteBalance(old(Accounts()), a, v)
    {
      if !(0 <= v < U256) { return Some(ArithmeticOverflow); }
      balances := balances[a := v];
      return None;
    }

    method AdvanceNonceTx(a: Account, nonce: u64) returns (err: Option<Code>)
      modifies this`nonces
      ensures Effect(Accounts(), err) == AdvanceNonce(old(Accounts()), a, nonce)
    {
      var stored := if a in nonces then nonces[a] else 0;
      if nonce != Succ(stored) { return Some(SequenceFault); }
      nonces := nonces[a := nonce];
      return None;
    }

    method TransferTx(from: Account, to: Account, amount: int, nonce: u64) returns (err: Option<Code>)
      modifies this`balances, this`nonces
      ensures Effect(Accounts(), err) == L.TransferTx(old(Accounts()), from, to, amount, nonce)
    {
      err := AdvanceNonceTx(from, nonce);
      if err.Some? { return; }
      var debited := ReadBalance(from);
      if debited < amount { return Some(InsufficientFunds); }
      var credited := ReadBalance(to) + amount;
      err := WriteBalance(from, debited - amount);
      if err.Some? { return; }
      err := WriteBalance(to, credited);
    }

    method MoveTx(from: Account, to: Account, amount: int) returns (err: Option<Code>)
      modifies this`balances
      ensures Effect(Accounts(), err) == L.MoveTx(old(Accounts()), from, to, amount)
    {
      if !(0 <= amount < U256) { return Some(ArithmeticOverflow); }
      var debited := ReadBalance(from);
      if debited < amount { return Some(InsufficientFunds); }
      var credited := ReadBalance(to) + amount;
      err := WriteBalance(from, debited - amount);
      if err.Some? { return; }
      err := WriteBalance(to, credited);
    }

    method BurnTx(a: Account, amount: int) returns (err: Option<Code>)
      modifies this`balances
      ensures Effect(Accounts(), err) == L.BurnTx(old(Accounts()), a, amount)
    {
      var held := ReadBalance(a);
      if held < amount { return Some(InsufficientFunds); }
      err := WriteBalance(a, held - amount);
    }

    method CreditTx(a: Account, amount: int) returns (err: Option<Code>)
      modifies this`balances
      ensures Effect(Accounts(), err) == L.CreditTx(old(Accounts()), a, amount)
    {
      err := WriteBalance(a, ReadBalance(a) + amount);
    }

    // -------------------------------------------------------------- staking

    method BondTx(who: Account, amount: int, at: u64) returns (err: Option<Code>)
      modifies this`balances, this`records
      ensures Matches(S.BondTx(old(Safe()), who, amount, at), err, Safe(), 0)
    {
      if amount < MIN_BOND { return Some(BondBelowMinimum); }
      if who in records { return Some(AlreadyBonded); }
      err := MoveTx(who, Escrow(who), amount);
      if err.Some? { return; }
      records := records[who := Record(Bonded, amount, at, 0, 0)];
    }

    method UnbondTx(who: Account, at: u64) returns (err: Option<Code>)
      modifies this`records
      ensures Matches(S.UnbondTx(old(Safe()), who, at), err, Safe(), 0)
    {
      if who !in records { return Some(NotBonded); }
      var r := records[who];
      if r.status == Unbonding { return Some(UnbondingPending); }
      records := records[who := r.(status := Unbonding, unbondingAt := at)];
      return None;
    }

    method FinalizeTx(who: Account, at: u64) returns (err: Option<Code>)
      modifies this`balances, this`records
      ensures Matches(S.FinalizeTx(old(Safe()), who, at), err, Safe(), 0)
    {
      if who !in records { return None; }
      var r := records[who];
      if r.status != Unbonding { return None; }
      if at < (r.unbondingAt + UNBONDING_BLOCKS) % U64 { return None; }
      err := MoveTx(Escrow(who), who, r.amount);
      if err.Some? { return; }
      records := records - {who};
    }

    method SlashTx(who: Account) returns (err: Option<Code>, amount: nat)
      modifies this`balances, this`records
      ensures Matches(S.SlashTx(old(Safe()), who), err, Safe(), amount)
    {
      amount := 0;
      if who !in records { return Some(NotBonded), 0; }
      amount := records[who].amount;
      err := BurnTx(Escrow(who), amount);
      if err.Some? { return; }
      records := records - {who};
    }

    /** RecordMissTx: marks the miss and says what its caller must burn. */
    method RecordMissTx(who: Account) returns (err: Option<Code>, penalty: nat)
      modifies this`records
      ensures who !in old(records) ==> err == Some(NotBonded) && records == old(records)
      ensures who in old(records) ==> err == None && penalty == MissPenalty(old(records)[who])
                                      && records == old(records)[who := Missed(old(records)[who])]
    {
      penalty := 0;
      if who !in records { return Some(NotBonded), 0; }
      var r := records[who];
      var misses := r.misses + 1;
      if misses >= MISS_THRESHOLD {
        penalty := r.amount * 10 / 100;
        r := r.(amount := r.amount - penalty, misses := 0);
      } else {
        r := r.(misses := misses);
      }
      records := records[who := r];
      return None, penalty;
    }

    method ClaimTx(who: Account) returns (err: Option<Code>)
      modifies this`balances
      ensures Matches(S.ClaimTx(old(Safe()), who), err, Safe(), 0)
    {
      var due := ReadBalance(Fee(who));
      if due == 0 { return None; }
      err := MoveTx(Fee(who), who, due);
    }

    /** Accrue: every credit is committed on its own. */
    method Accrue(fees: int, validators: seq<Account>, bonds: seq<nat>) returns (err: Option<Code>)
      modifies this`balances
      ensures Effect(Accounts(), err) == E.Accrued(old(Accounts()), fees, validators, bonds)
    {
      if fees < 0 { return Some(Malformed); }
      if |validators| != |bonds| { return Some(Malformed); }
      if |validators| == 0 || fees == 0 { return None; }
      var pool := fees * 70 / 100;
      var equal, remainder := pool / |validators|, pool % |validators|;
      var bonded := 0;
      for i := 0 to |bonds|
        invariant bonded == E.BondSum(bonds, i)
      {
        bonded := bonded + bonds[i];
      }
      for i := 0 to |validators|
        invariant E.Credited(old(Accounts()), fees, validators, bonds, i) == Effect(Accounts(), None)
      {
        var share := equal;
        if i < remainder { share := share + 1; }
        if bonded > 0 { share := share + (fees - pool) * bonds[i] / bonded; }
        err := WriteBalance(Fee(validators[i]), ReadBalance(Fee(validators[i])) + share);
        if err.Some? {
          E.CreditedStays(old(Accounts()), fees, validators, bonds, i + 1, |validators|);
          return;
        }
      }
      return None;
    }

    // -------------------------------------------------------------- contracts

    method HostMoves(self: Account, moves: seq<HostMove>)
      modifies this`balances
      ensures Accounts() == RunMoves(old(Accounts()), self, moves)
    {
      for i := 0 to |moves|
        invariant Accounts() == RunMoves(old(Accounts()), self, moves[..i])
        invariant nonces == old(nonces)
      {
        assert moves[..i + 1][..i] == moves[..i];
        if moves[i].amount > 0 { var ignored := MoveTx(self, moves[i].to, moves[i].amount); }
      }
      assert moves[..|moves|] == moves;
    }

    method Deploy(t: LTx, run: Run) returns (err: Option<Code>, fuel: Option<u64>)
      modifies this`balances, this`contracts
      ensures MatchesTx(A.Deploy(old(Whole()), t, run), err, Whole(), 0, fuel)
    {
      err, fuel := None, None;
      var addr := Contract(t.senderKey, t.nonce);
      if t.wasm == [] || addr in contracts { return Some(ContractFailure), None; }
      if t.value > 0 {
        err := MoveTx(t.senderKey, addr, t.value);
        if err.Some? { return; }
      }
      if !run.loads || !run.found || run.traps { return Some(ContractFailure), None; }
      HostMoves(addr, run.start + run.body);
      contracts := contracts + {addr};
      return None, Some(run.fuel);
    }

    method Call(t: LTx, run: Run) returns (err: Option<Code>, fuel: Option<u64>)
      modifies this`balances
      ensures MatchesTx(A.Call(old(Whole()), t, run), err, Whole(), 0, fuel)
    {
      err, fuel := None, None;
      var addr := t.receiverKey;
      if addr !in contracts || !run.loads { return Some(ContractFailure), None; }
      HostMoves(addr, run.start);
      if !run.found { return; }
      if t.value > 0 {
        err := MoveTx(t.senderKey, addr, t.value);
        if err.Some? { return; }
      }
      if run.traps { return Some(ContractFailure), None; }
      HostMoves(addr, run.body);
      return None, Some(run.fuel);
    }
  }
}

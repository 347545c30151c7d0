/** Genesis: core/genesis/genesis.go. The base case of the invariants over runs. */
module Genesis {
  import opened Wrappers
  import opened Errors
  import opened Bytes
  import opened Ledger
  import S = Staking
  import opened Staking
  import opened BlockApply
  import opened Chain
  import opened Supply
  import opened Solvency
  import opened Database

  /** An entry of the genesis file; None is a key or number that does not parse. */
  datatype Entry = Entry(key: Option<Bytes32>, amount: Option<int>)

  datatype Spec = Spec(validators: seq<Entry>, balances: seq<Entry>)

  function Parsed(e: Entry): bool {
    e.key.Some? && e.amount.Some?
  }

  /** The seeded balances. A repeated account keeps its last amount. */
  function Seeds(entries: seq<Entry>): Result<map<Account, nat>, Code> {
    if entries == [] then Ok(map[])
    else
      var e := entries[|entries| - 1];
      match Seeds(entries[..|entries| - 1])
      case Err(c) => Err(c)
      case Ok(m) =>
        if !Parsed(e) then Err(Malformed)
        else if !FitsU256(e.amount.value) then Err(ArithmeticOverflow)
        else Ok(m[User(e.key.value) := e.amount.value])
  }

  function BondAll(v: Vault, entries: seq<Entry>): Change {
    if entries == [] then Done(v, 0)
    else
      var e := entries[|entries| - 1];
      match BondAll(v, entries[..|entries| - 1])
      case Abort(c) => Abort(c)
      case Done(v', _) => if !Parsed(e) then Abort(Malformed) else S.BondTx(v', User(e.key.value), e.amount.value, 0)
  }

  ghost function Initial(st: State, g: Spec): Result<State, Code> {
    if st.seeded || st.height > 0 then Ok(st)
    else
      match Seeds(g.balances)
      case Err(c) => Err(c)
      case Ok(seeds) =>
        var books := st.vault.books.(balances := st.vault.books.balances + seeds);
        match BondAll(st.vault.(books := books), g.validators)
        case Abort(c) => Err(c)
        case Done(v, _) => Ok(st.(vault := v, supply := Some(Sum(seeds)), seeded := true))
  }

  // ---------------------------------------------------------------- the base case

  const EMPTY: State := State(Vault(Books(map[], map[]), map[]), {}, 0, ZERO32, None, None, false)

  lemma {:induction false} BondAllKeeps(v: Vault, entries: seq<Entry>)
    requires Solvent(v)
    ensures var c := BondAll(v, entries);
            c.Done? ==> Total(c.vault.books) == Total(v.books) && Solvent(c.vault) && c.vault.books.nonces == v.books.nonces
  {
    if entries != [] {
      var e := entries[|entries| - 1];
      BondAllKeeps(v, entries[..|entries| - 1]);
      var c := BondAll(v, entries[..|entries| - 1]);
      if c.Done? && Parsed(e) {
        StakingTotals(c.vault, User(e.key.value), e.amount.value, 0);
        BondKeepsSolvent(c.vault, User(e.key.value), e.amount.value, 0);
      }
    }
  }

  /** Genesis on an empty database starts with supply equal to balances, covered bonds and fresh nonces. */
  lemma GenesisIsBase(g: Spec)
    ensures var r := Initial(EMPTY, g);
            r.Ok? ==> && r.value.supply == Some(Total(r.value.vault.books)) && Sound(r.value)
                      && (forall a :: Nonce(r.value.vault.books, a) == 0)
                      && r.value.height == 0 && r.value.seeded
  {
    var seeded := Seeds(g.balances);
    if seeded.Ok? {
      assert map[] + seeded.value == seeded.value;
      BondAllKeeps(Vault(Books(seeded.value, map[]), map[]), g.validators);
    }
  }

  /** Genesis happens once. */
  lemma GenesisOnce(st: State, g: Spec, g': Spec)
    requires Initial(st, g).Ok?
    ensures Initial(Initial(st, g).value, g') == Ok(Initial(st, g).value)
  {
  }

  /** From genesis, every run keeps escrows covering bonds, and every driftless run keeps the supply exact. */
  lemma FromGenesis(rules: Rules, g: Spec, es: seq<Event>)
    requires Keyed(rules) && AllFormed(es) && Initial(EMPTY, g).Ok?
    ensures var last := Replay(rules, Initial(EMPTY, g).value, es);
            && Sound(last)
            && Gap(last) == RunDrift(rules, Initial(EMPTY, g).value, es)
            && (DriftlessRun(rules, Initial(EMPTY, g).value, es) ==> last.supply == Some(Total(last.vault.books)))
  {
    GenesisIsBase(g);
    var first := Initial(EMPTY, g).value;
    ReachableSound(rules, first, es);
    RunGap(rules, first, es);
    if DriftlessRun(rules, first, es) { SupplyIsTotal(rules, first, es); }
  }

  // ---------------------------------------------------------------- as it runs

  lemma {:induction false} SeedsStay(entries: seq<Entry>, k: nat)
    requires k <= |entries| && Seeds(entries[..k]).Err?
    ensures Seeds(entries) == Seeds(entries[..k])
  {
    var m := |entries| - 1;
    if k <= m {
      assert entries[..m][..k] == entries[..k];
      SeedsStay(entries[..m], k);
    } else {
      assert entries[..k] == entries;
    }
  }

  lemma {:induction false} BondsStay(v: Vault, entries: seq<Entry>, k: nat)
    requires k <= |entries| && BondAll(v, entries[..k]).Abort?
    ensures BondAll(v, entries) == BondAll(v, entries[..k])
  {
    var m := |entries| - 1;
    if k <= m {
      assert entries[..m][..k] == entries[..k];
      BondsStay(v, entries[..m], k);
    } else {
      assert entries[..k] == entries;
    }
  }

  method SeedBalances(db: Buckets, entries: seq<Entry>) returns (err: Option<Code>, seeds: map<Account, nat>)
    modifies db`balances
    ensures match Seeds(entries)
            case Err(c) => err == Some(c)
            case Ok(m) => err.None? && seeds == m && db.balances == old(db.balances) + m
  {
    err, seeds := None, map[];
    for i := 0 to |entries|
      invariant Seeds(entries[..i]) == Ok(seeds)
      invariant db.balances == old(db.balances) + seeds
    {
      var e := entries[i];
      assert entries[..i + 1][..i] == entries[..i];
      if !Parsed(e) {
        SeedsStay(entries, i + 1);
        return Some(Malformed), seeds;
      }
      var a := User(e.key.value);
      err := db.WriteBalance(a, e.amount.value);
      if err.Some? {
        SeedsStay(entries, i + 1);
        return;
      }
      assert (old(db.balances) + seeds)[a := e.amount.value] == old(db.balances) + seeds[a := e.amount.value];
      seeds := seeds[a := e.amount.value];
    }
    assert entries[..|entries|] == entries;
    err := None;
  }

  /** The sum over a map, in whatever order it is read. */
  method SumOf(m: map<Account, nat>) returns (total: nat)
    ensures total == Sum(m)
  {
    total := 0;
    var rest := m;
    while rest.Keys != {}
      invariant total + Sum(rest) == Sum(m)
      decreases rest.Keys
    {
      var a :| a in rest;
      SumRemove(rest, a);
      assert (rest - {a}).Keys == rest.Keys - {a};
      total, rest := total + rest[a], rest - {a};
    }
  }

  method BondValidators(db: Buckets, entries: seq<Entry>) returns (err: Option<Code>)
    modifies db`balances, db`records
    ensures Matches(BondAll(old(db.Safe()), entries), err, db.Safe(), 0)
  {
    err := None;
    ghost var start := db.Safe();
    for i := 0 to |entries|
      invariant BondAll(start, entries[..i]) == Done(db.Safe(), 0)
    {
      var e := entries[i];
      assert entries[..i + 1][..i] == entries[..i];
      if !Parsed(e) {
        BondsStay(start, entries, i + 1);
        return Some(Malformed);
      }
      err := db.BondTx(User(e.key.value), e.amount.value, 0);
      if err.Some? {
        BondsStay(start, entries, i + 1);
        return;
      }
    }
    assert entries[..|entries|] == entries;
    err := None;
  }

  /** Apply: genesis as a whole or not at all. */
  method Apply(db: Buckets, g: Spec) returns (err: Option<Code>)
    modifies db
    ensures match Initial(old(db.Whole()), g)
            case Err(c) => err == Some(c) && db.Whole() == old(db.Whole())
            case Ok(st) => err.None? && db.Whole() == st
  {
    if db.seeded || db.height > 0 { return None; }
    var saved := db.Whole();
    var seeds;
    err, seeds := SeedBalances(db, g.balances);
    if err.None? {
      var total := SumOf(seeds);
      db.supply := Some(total);
      err := BondValidators(db, g.validators);
    }
    if err.Some? {
      db.Restore(saved);
      return;
    }
    db.seeded := true;
  }
}

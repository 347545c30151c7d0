/** ApplyBlockForChain as it runs: loops over the block that write the buckets, undone on any error. */
module StateMachine {
  import opened Wrappers
  import opened Errors
  import opened Bytes
  import opened Messages
  import opened Ledger
  import E = Economics
  import opened Staking
  import A = BlockApply
  import opened BlockApply
  import opened Database
  import opened Passes

  ghost predicate MatchesPass(p: Pass, err: Option<Code>, st: State, burned: nat, gas: seq<nat>) {
    match p
    case Pass(s, amount, units) => err.None? && st == s && burned == amount && gas == units
    case Stopped(code) => err == Some(code)
  }

  /** The nonce comes first for every type but the transfer, which advances it itself. */
  method ExecuteTx(db: Buckets, t: LTx, x: Exec, fee: nat, at: u64) returns (err: Option<Code>, burned: nat, fuel: Option<u64>)
    modifies db
    ensures MatchesTx(A.ApplyTx(old(db.Whole()), t, x, fee, at), err, db.Whole(), burned, fuel)
  {
    burned, fuel := 0, None;
    err := Precheck(t, x);
    if err.Some? { return; }
    if t.kind == TRANSFER {
      err := db.TransferTx(t.senderKey, t.receiverKey, t.value, t.nonce);
      if err == Some(SequenceFault) { err := None; }
      return;
    }
    err := db.AdvanceNonceTx(t.senderKey, t.nonce);
    if err.Some? { return None, 0, None; }
    err, burned, fuel := ActOn(db, t, x, fee, at);
  }

  method ActOn(db: Buckets, t: LTx, x: Exec, fee: nat, at: u64) returns (err: Option<Code>, burned: nat, fuel: Option<u64>)
    modifies db
    ensures MatchesTx(Act(old(db.Whole()), t, x, fee, at), err, db.Whole(), burned, fuel)
  {
    err, burned, fuel := None, 0, None;
    if t.kind == CONTRACT_DEPLOY || t.kind == CONTRACT_CALL {
      if fee > 0 && db.ReadBalance(t.senderKey) / fee <= 1 { return Some(InsufficientFunds), 0, None; }
      if t.kind == CONTRACT_DEPLOY { err, fuel := db.Deploy(t, x.run); } else { err, fuel := db.Call(t, x.run); }
    } else if t.kind == BOND {
      err := db.BondTx(t.senderKey, t.value, at);
    } else if t.kind == UNBOND {
      err := db.UnbondTx(t.senderKey, at);
    } else if t.kind == FINALIZE_UNBOND {
      err := db.FinalizeTx(t.senderKey, at);
    } else if t.kind == CLAIM_REWARDS {
      err := db.ClaimTx(t.senderKey);
    } else if t.kind == EQUIV_EVIDENCE && x.evidence.Ok? {
      err, burned := db.SlashTx(x.evidence.value);
    }
  }

  method ExecuteTxs(db: Buckets, txs: seq<LTx>, xs: seq<Exec>, fee: nat, at: u64)
    returns (err: Option<Code>, burned: nat, gas: seq<nat>)
    requires |txs| == |xs|
    modifies db
    ensures MatchesPass(TxPass(old(db.Whole()), txs, xs, fee, at), err, db.Whole(), burned, gas)
  {
    err, burned, gas := None, 0, [];
    ghost var start := db.Whole();
    for i := 0 to |txs|
      invariant TxPass(start, txs[..i], xs[..i], fee, at) == Pass(db.Whole(), burned, gas)
    {
      var slashed, fuel;
      TxPassStep(start, txs, xs, fee, at, i);
      err, slashed, fuel := ExecuteTx(db, txs[i], xs[i], fee, at);
      if err.Some? {
        TxPassStays(start, txs, xs, fee, at, i + 1);
        return;
      }
      burned := burned + slashed;
      gas := gas + [GasUnits(fuel)];
    }
    assert txs[..|txs|] == txs && xs[..|xs|] == xs;
    err := None;
  }

  lemma CounterStep(sum: nat, more: nat)
    ensures (sum % U64 + more) % U64 == (sum + more) % U64
  {
  }

  /** Charges every sender and counts the gas in a uint64. */
  method ChargeGas(db: Buckets, txs: seq<LTx>, gas: seq<nat>, fee: nat) returns (err: Option<Code>, total: u64)
    requires |txs| == |gas|
    modifies db`balances
    ensures var c := GasPass(old(db.Safe()), txs, gas, fee);
            if c.Abort? then err == Some(c.code) else err.None? && db.Safe() == c.vault && total == GasCounter(gas, fee)
  {
    err, total := None, 0;
    if fee == 0 { return; }
    ghost var start := db.Safe();
    for i := 0 to |txs|
      invariant GasPass(start, txs[..i], gas[..i], fee).Done?
      invariant db.Safe() == GasPass(start, txs[..i], gas[..i], fee).vault
      invariant total == SumGas(gas[..i]) % U64
    {
      err := db.BurnTx(txs[i].senderKey, fee * gas[i]);
      assert txs[..i + 1][..i] == txs[..i] && gas[..i + 1][..i] == gas[..i];
      if err.Some? {
        GasPassStays(start, txs, gas, fee, i + 1);
        return;
      }
      CounterStep(SumGas(gas[..i]), gas[i]);
      total := (total + gas[i]) % U64;
    }
    assert txs[..|txs|] == txs && gas[..|gas|] == gas;
    err := None;
  }

  method PunishMisses(db: Buckets, txs: seq<LTx>) returns (err: Option<Code>, burned: nat)
    modifies db`balances, db`records
    ensures Matches(MissPass(old(db.Safe()), txs), err, db.Safe(), burned)
  {
    err, burned := None, 0;
    ghost var start := db.Safe();
    for i := 0 to |txs|
      invariant MissPass(start, txs[..i]) == Done(db.Safe(), burned)
    {
      assert txs[..i + 1][..i] == txs[..i];
      if txs[i].kind == MISS_EVIDENCE {
        var penalty;
        err, penalty := PunishMiss(db, txs[i].missedProposer);
        if err.Some? {
          MissPassStays(start, txs, i + 1);
          return;
        }
        burned := burned + penalty;
      }
    }
    assert txs[..|txs|] == txs;
    err := None;
  }

  method PunishMiss(db: Buckets, who: Account) returns (err: Option<Code>, penalty: nat)
    modifies db`balances, db`records
    ensures Matches(MissTx(old(db.Safe()), who), err, db.Safe(), penalty)
  {
    err, penalty := db.RecordMissTx(who);
    if err.None? && penalty > 0 { err := db.BurnTx(Escrow(who), penalty); }
  }

  method PayRewards(db: Buckets, vals: seq<Account>, shares: seq<nat>) returns (err: Option<Code>)
    requires |vals| == |shares|
    modifies db`balances
    ensures Matches(MintPass(old(db.Safe()), vals, shares), err, db.Safe(), 0)
  {
    err := None;
    ghost var start := db.Safe();
    for i := 0 to |vals|
      invariant MintPass(start, vals[..i], shares[..i]) == Done(db.Safe(), 0)
    {
      assert vals[..i + 1][..i] == vals[..i] && shares[..i + 1][..i] == shares[..i];
      if shares[i] != 0 {
        err := db.CreditTx(Fee(vals[i]), shares[i]);
        if err.Some? {
          MintPassStays(start, vals, shares, i + 1);
          return;
        }
      }
    }
    assert vals[..|vals|] == vals && shares[..|shares|] == shares;
    err := None;
  }

  // ---------------------------------------------------------------- before the write transaction

  /** The bonded validators and their stake. */
  method BondedAmounts(db: Buckets) returns (vals: seq<Account>, staked: nat)
    ensures Lists(db.records, vals) && staked == Staked(db.records, vals)
  {
    vals, staked := [], 0;
    var rest := db.records.Keys;
    while rest != {}
      invariant rest <= db.records.Keys
      invariant forall a :: a in vals <==> a in db.records && a !in rest && db.records[a].status == Bonded
      invariant forall i, j :: 0 <= i < j < |vals| ==> vals[i] != vals[j]
      invariant staked == Staked(db.records, vals)
    {
      var a :| a in rest;
      if db.records[a].status == Bonded {
        assert (vals + [a])[..|vals|] == vals;
        vals, staked := vals + [a], staked + db.records[a].amount;
      }
      rest := rest - {a};
    }
  }

  /** The workers check every transaction; the schedule decides whose fault is reported. */
  method CheckSignatures(rules: Rules, txs: seq<LTx>) returns (err: Option<Code>)
    ensures err == SignatureFault(rules, txs)
  {
    err := None;
    for i := 0 to |txs|
      invariant err == FirstFault(rules, txs[..i])
    {
      assert txs[..i + 1][..i] == txs[..i];
      if err.None? { err := Fault(rules, txs[i]); }
    }
    assert txs[..|txs|] == txs;
    var i := rules.first(txs);
    if i < |txs| && Fault(rules, txs[i]).Some? { err := Fault(rules, txs[i]); }
  }

  method CheckMisses(rules: Rules, txs: seq<LTx>, height: u64, root: Bytes32, vals: seq<Account>) returns (err: Option<Code>)
    ensures err == MissError(rules, txs, height, root, vals)
  {
    var seen: set<(u64, u32, Account)> := {};
    for i := 0 to |txs|
      invariant MissError(rules, txs[..i], height, root, vals).None?
      invariant seen == MissKeys(txs[..i])
    {
      assert txs[..i + 1][..i] == txs[..i];
      if txs[i].kind == MISS_EVIDENCE {
        err := ValidateMiss(rules, txs[i], height, root, vals);
        if err.None? && MissKey(txs[i]) in seen { err := Some(CanonicalEncodingDistortion); }
        if err.Some? {
          MissErrorStays(rules, txs, height, root, vals, i + 1);
          return;
        }
        seen := seen + {MissKey(txs[i])};
      }
      MissKeysGrow(txs, i);
    }
    assert txs[..|txs|] == txs;
    return None;
  }

  lemma MissKeysGrow(txs: seq<LTx>, i: nat)
    requires i < |txs|
    ensures MissKeys(txs[..i + 1]) == MissKeys(txs[..i]) + if txs[i].kind == MISS_EVIDENCE then {MissKey(txs[i])} else {}
  {
  }

  // ---------------------------------------------------------------- the block

  /** The passes inside the write transaction, before its metadata. */
  method RunPasses(db: Buckets, rules: Rules, b: Block, xs: seq<Exec>, vals: seq<Account>, fee: nat, mint: nat)
    returns (err: Option<Code>, root: Bytes32, slashed: nat, gas: u64)
    requires |b.txs| == |xs| && fee == CurrentFee(db.Whole()) && mint == MintOf(db.Whole(), vals)
    modifies db
    ensures var s := Settle(rules, old(db.Whole()), b, xs, vals);
            if s.Unsettled? then err == Some(s.code)
            else && err.None? && db.Whole() == s.state && root == s.root && slashed == s.slashed
                 && gas == GasCounter(s.gas, fee)
  {
    var shares := E.SplitReward(mint, |vals|);
    root, slashed, gas := ZERO32, 0, 0;
    ghost var start := db.Whole();
    var burned, units;
    err, burned, units := ExecuteTxs(db, b.txs, xs, fee, b.height);
    if err.Some? { return; }
    TxPassGas(start, b.txs, xs, fee, b.height);
    var built := rules.tree(db.Whole(), b.txs);
    if built.Err? { return Some(built.error), root, slashed, gas; }
    root := built.value;
    err, gas := ChargeGas(db, b.txs, units, fee);
    if err.Some? { return; }
    var penalties;
    err, penalties := PunishMisses(db, b.txs);
    if err.Some? { return; }
    slashed := burned + penalties;
    err := PayRewards(db, vals, shares);
  }

  method CheckBlock(db: Buckets, rules: Rules, b: Block, vals: seq<Account>) returns (err: Option<Code>)
    ensures err == Refusal(rules, db.Whole(), b, vals)
  {
    if b.height != (db.height + 1) % U64 { return Some(BlockHeightSequenceFault); }
    if b.prevRoot != ZERO32 && b.prevRoot != db.root { return Some(BlockHeightSequenceFault); }
    err := CheckSignatures(rules, b.txs);
    if err.Some? { return; }
    err := CheckMisses(rules, b.txs, b.height, db.root, vals);
  }

  lemma ApplyIsClose(rules: Rules, st: State, b: Block, xs: seq<Exec>, vals: seq<Account>)
    requires |b.txs| == |xs| && Refusal(rules, st, b, vals).None?
    ensures A.ApplyBlock(rules, st, b, xs, vals) == Close(rules, st, b, vals, Settle(rules, st, b, xs, vals))
  {
  }

  /** A block is applied whole or leaves the database as it was. */
  method ApplyBlock(db: Buckets, rules: Rules, b: Block, xs: seq<Exec>) returns (r: Result<Bytes32, Code>, vals: seq<Account>)
    requires |b.txs| == |xs|
    modifies db
    ensures Lists(old(db.records), vals)
    ensures var applied := A.ApplyBlock(rules, old(db.Whole()), b, xs, vals);
            match r
            case Ok(root) => applied == Ok(db.Whole()) && root == db.root
            case Err(code) => applied == Err(code) && db.Whole() == old(db.Whole())
  {
    var staked;
    vals, staked := BondedAmounts(db);
    var refusal := CheckBlock(db, rules, b, vals);
    if refusal.Some? { return Err(refusal.value), vals; }
    ApplyIsClose(rules, db.Whole(), b, xs, vals);
    var saved := db.Whole();
    var fee := if db.baseFee.Some? then db.baseFee.value else E.BaseFee(None, 0);
    var mint := if |vals| == 0 then 0 else E.MintPerBlock(if db.supply.Some? then db.supply.value else 0, staked);
    var err := Write(db, rules, b, xs, vals, fee, mint);
    if err.Some? {
      db.Restore(saved);
      return Err(err.value), vals;
    }
    return Ok(db.root), vals;
  }

  /** The write transaction. On an error its caller rolls back. */
  method Write(db: Buckets, rules: Rules, b: Block, xs: seq<Exec>, vals: seq<Account>, fee: nat, mint: nat)
    returns (err: Option<Code>)
    requires |b.txs| == |xs| && fee == CurrentFee(db.Whole()) && mint == MintOf(db.Whole(), vals)
    modifies db
    ensures var closed := Close(rules, old(db.Whole()), b, vals, Settle(rules, old(db.Whole()), b, xs, vals));
            if err.Some? then closed == Err(err.value) else closed == Ok(db.Whole())
  {
    var supply := db.supply;
    var root, slashed, gas;
    ghost var st := db.Whole();
    ghost var s := Settle(rules, st, b, xs, vals);
    err, root, slashed, gas := RunPasses(db, rules, b, xs, vals, fee, mint);
    if err.Some? { return; }
    err := Finish(db, rules, b, root, slashed, gas, supply, fee, mint, st, s, vals);
  }

  /** SetTotalSupplyTx, only where a supply is recorded; a negative one is refused. */
  method RecordSupply(db: Buckets, tracked: bool, next: int) returns (err: Option<Code>)
    modifies db`supply
    ensures err == if tracked && next < 0 then Some(ArithmeticOverflow) else None
    ensures db.supply == if tracked && next >= 0 then Some(next) else old(db.supply)
  {
    if !tracked { return None; }
    if next < 0 { return Some(ArithmeticOverflow); }
    db.supply := Some(next);
    return None;
  }

  /** The metadata writes, then those of the block and its telemetry. */
  method Finish(db: Buckets, rules: Rules, b: Block, root: Bytes32, slashed: nat, gas: u64, supply: Option<nat>, fee: nat, mint: nat,
                ghost st: State, ghost s: Settled, ghost vals: seq<Account>)
    returns (err: Option<Code>)
    requires s.Settled? && db.Whole() == s.state && root == s.root && slashed == s.slashed
    requires supply == st.supply && fee == CurrentFee(st) && mint == MintOf(st, vals) && gas == GasCounter(s.gas, fee)
    modifies db
    ensures if err.Some? then Close(rules, st, b, vals, s) == Err(err.value) else Close(rules, st, b, vals, s) == Ok(db.Whole())
  {
    db.height, db.root, db.baseFee := b.height, root, Some(E.BaseFee(Some(fee), gas));
    var next := (if supply.Some? then supply.value else 0) - fee * gas - slashed + mint;
    err := RecordSupply(db, supply.Some?, next);
    if err.Some? { return; }
    if b.root != ZERO32 && b.root != root { return Some(RootMismatch); }
    err := rules.store(b, root);
  }
}

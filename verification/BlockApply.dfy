/**
 * Block application: ApplyBlockForChain of core/statemachine/statemachine.go as a function of the
 * committed state. A bolt transaction works on a copy, so an error leaves the old state.
 */
module BlockApply {
  import opened Wrappers
  import opened Errors
  import opened Bytes
  import opened Messages
  import opened Ledger
  import opened Economics
  import opened Staking
  import TxCodec

  type LTx = Tx<Account>

  datatype State = State(
    vault: Vault,
    contracts: set<Account>, // accounts with bytecode
    height: u64,
    root: Bytes32,
    baseFee: Option<nat>,
    supply: Option<nat>, // None when none was ever recorded
    seeded: bool) // genesis was applied

  /** A transfer a running contract asks the host for. */
  datatype HostMove = HostMove(to: Account, amount: int)

  /**
   * What the WASM runtime does with one deployment or call: transfers while the module is
   * instantiated, whether it loads and exports the function, transfers of the function itself,
   * whether it traps, and the fuel it used.
   */
  datatype Run = Run(start: seq<HostMove>, loads: bool, found: bool, body: seq<HostMove>, traps: bool, fuel: u64)

  /** Per transaction, the answers of code outside the model: the evidence verdict and the contract run. */
  datatype Exec = Exec(evidence: Result<Account, Code>, run: Run)

  datatype Block = Block(height: u64, txs: seq<LTx>, prevRoot: Bytes32, root: Bytes32)

  /** Labels, signature checks and the worker that reports first, proposer rotation, the state tree, what the block store refuses. */
  datatype Rules = Rules(
    text: TxCodec.Text,
    sigOk: LTx -> bool,
    first: seq<LTx> -> nat,
    skip: (Bytes32, u64, seq<Account>, u32) -> Account,
    tree: (State, seq<LTx>) -> Result<Bytes32, Code>,
    store: (Block, Bytes32) -> Option<Code>)

  function WithBooks(st: State, b: Books): State {
    st.(vault := st.vault.(books := b))
  }

  // ---------------------------------------------------------------- contracts

  /** The host transfer ignores a failed move, including the debit of a move that failed half way. */
  function HostTransfer(b: Books, self: Account, m: HostMove): Books {
    if m.amount <= 0 then b else MoveTx(b, self, m.to, m.amount).books
  }

  function RunMoves(b: Books, self: Account, moves: seq<HostMove>): Books {
    if moves == [] then b else HostTransfer(RunMoves(b, self, moves[..|moves| - 1]), self, moves[|moves| - 1])
  }

  /** The sender must afford more than one unit of gas. */
  predicate AffordsGas(b: Books, who: Account, fee: nat) {
    fee == 0 || Balance(b, who) / fee > 1
  }

  /** What became of one transaction. A skipped one leaves the block valid. */
  datatype TxResult = Applied(state: State, burned: nat, fuel: Option<u64>) | Skipped(state: State) | Aborted(code: Code)

  function Endow(b: Books, from: Account, to: Account, value: int): Effect {
    if value > 0 then MoveTx(b, from, to, value) else Effect(b, None)
  }

  function Deploy(st: State, t: LTx, run: Run): TxResult {
    var addr := Contract(t.senderKey, t.nonce);
    if t.wasm == [] || addr in st.contracts then Aborted(ContractFailure)
    else
      var endowed := Endow(st.vault.books, t.senderKey, addr, t.value);
      if endowed.error.Some? then Aborted(endowed.error.value)
      else if !run.loads || !run.found || run.traps then Aborted(ContractFailure)
      else
        var books := RunMoves(endowed.books, addr, run.start + run.body);
        Applied(WithBooks(st, books).(contracts := st.contracts + {addr}), 0, Some(run.fuel))
  }

  /** An unknown selector skips the call but keeps what instantiation already moved. */
  function Call(st: State, t: LTx, run: Run): TxResult {
    var addr := t.receiverKey;
    if addr !in st.contracts then Aborted(ContractFailure)
    else if !run.loads then Aborted(ContractFailure)
    else
      var started := RunMoves(st.vault.books, addr, run.start);
      if !run.found then Skipped(WithBooks(st, started))
      else
        var funded := Endow(started, t.senderKey, addr, t.value);
        if funded.error.Some? then Aborted(funded.error.value)
        else if run.traps then Aborted(ContractFailure)
        else Applied(WithBooks(st, RunMoves(funded.books, addr, run.body)), 0, Some(run.fuel))
  }

  // ---------------------------------------------------------------- checks that read one transaction

  predicate NoMissFields(t: LTx) {
    t.missedHeight == 0 && t.missedProposer == NOBODY && t.skipIndex == 0
  }

  /** precheckTxsParallel, for the types checked inside the transaction pass. */
  function Precheck(t: LTx, x: Exec): Option<Code> {
    if t.kind == BOND then
      if t.value <= 0 || t.receiverKey != t.senderKey || !NoMissFields(t) then Some(CanonicalEncodingDistortion) else None
    else if t.kind == UNBOND || t.kind == FINALIZE_UNBOND || t.kind == CLAIM_REWARDS then
      if || t.value != 0 || (t.receiverKey != NOBODY && t.receiverKey != t.senderKey) || !NoMissFields(t)
         || t.wasm != [] || t.initArgs != [] || t.callData != [] || t.evidenceA != [] || t.evidenceB != []
      then Some(CanonicalEncodingDistortion) else None
    else if t.kind == EQUIV_EVIDENCE then
      if t.value != 0 then Some(CanonicalEncodingDistortion)
      else if x.evidence.Err? then Some(x.evidence.error) else None
    else None
  }

  function ValidateMiss(rules: Rules, t: LTx, height: u64, root: Bytes32, vals: seq<Account>): Option<Code> {
    if t.value != 0 || t.missedHeight != height || t.receiverKey != t.missedProposer || t.skipIndex == U32 - 1
    then Some(CanonicalEncodingDistortion)
    else if vals == [] then Some(EmptyValidatorSet)
    else if t.missedProposer != rules.skip(root, height, vals, t.skipIndex) then Some(InvalidSignature)
    else if t.senderKey != rules.skip(root, height, vals, t.skipIndex + 1) then Some(InvalidSignature)
    else None
  }

  // ---------------------------------------------------------------- the transaction pass

  /** What a transaction does once its nonce has been consumed. */
  function Act(st: State, t: LTx, x: Exec, fee: nat, height: u64): TxResult {
    if t.kind == CONTRACT_DEPLOY then
      if !AffordsGas(st.vault.books, t.senderKey, fee) then Aborted(InsufficientFunds) else Deploy(st, t, x.run)
    else if t.kind == CONTRACT_CALL then
      if !AffordsGas(st.vault.books, t.senderKey, fee) then Aborted(InsufficientFunds) else Call(st, t, x.run)
    else if t.kind == BOND then FromChange(st, BondTx(st.vault, t.senderKey, t.value, height))
    else if t.kind == UNBOND then FromChange(st, UnbondTx(st.vault, t.senderKey, height))
    else if t.kind == FINALIZE_UNBOND then FromChange(st, FinalizeTx(st.vault, t.senderKey, height))
    else if t.kind == CLAIM_REWARDS then FromChange(st, ClaimTx(st.vault, t.senderKey))
    else if t.kind == EQUIV_EVIDENCE && x.evidence.Ok? then FromChange(st, SlashTx(st.vault, x.evidence.value))
    else Applied(st, 0, None)
  }

  function FromChange(st: State, c: Change): TxResult {
    match c
    case Done(v, burned) => Applied(st.(vault := v), burned, None)
    case Abort(code) => Aborted(code)
  }

  function FromEffect(st: State, e: Effect): TxResult {
    match e.error
    case None => Applied(WithBooks(st, e.books), 0, None)
    case Some(code) => if code == SequenceFault then Skipped(st) else Aborted(code)
  }

  function ApplyTx(st: State, t: LTx, x: Exec, fee: nat, height: u64): TxResult {
    if Precheck(t, x).Some? then Aborted(Precheck(t, x).value)
    else if t.kind == TRANSFER then
      FromEffect(st, TransferTx(st.vault.books, t.senderKey, t.receiverKey, t.value, t.nonce))
    else
      var e := AdvanceNonce(st.vault.books, t.senderKey, t.nonce);
      if e.error.Some? then Skipped(st) else Act(WithBooks(st, e.books), t, x, fee, height)
  }

  /** One unit per transaction, and a unit per thousand of fuel. */
  function GasUnits(fuel: Option<u64>): nat {
    1 + if fuel.Some? then fuel.value / 1000 else 0
  }

  datatype Pass = Pass(state: State, burned: nat, gas: seq<nat>) | Stopped(code: Code)

  function TxPass(st: State, txs: seq<LTx>, xs: seq<Exec>, fee: nat, height: u64): Pass
    requires |txs| == |xs|
  {
    if txs == [] then Pass(st, 0, [])
    else
      var m := |txs| - 1;
      match TxPass(st, txs[..m], xs[..m], fee, height)
      case Stopped(c) => Stopped(c)
      case Pass(s, burned, gas) =>
        match ApplyTx(s, txs[m], xs[m], fee, height)
        case Aborted(c) => Stopped(c)
        case Skipped(s') => Pass(s', burned, gas + [GasUnits(None)])
        case Applied(s', more, fuel) => Pass(s', burned + more, gas + [GasUnits(fuel)])
  }

  // ---------------------------------------------------------------- fees, misses, rewards

  /** Every transaction pays, also a skipped one. */
  function GasPass(v: Vault, txs: seq<LTx>, gas: seq<nat>, fee: nat): Change
    requires |txs| == |gas|
  {
    if txs == [] || fee == 0 then Done(v, 0)
    else
      var m := |txs| - 1;
      match GasPass(v, txs[..m], gas[..m], fee)
      case Abort(c) => Abort(c)
      case Done(v', burned) =>
        var e := BurnTx(v'.books, txs[m].senderKey, fee * gas[m]);
        if e.error.Some? then Abort(e.error.value) else Done(v'.(books := e.books), burned + fee * gas[m])
  }

  /** Every miss evidence counts, also one whose transaction was skipped. */
  function MissPass(v: Vault, txs: seq<LTx>): Change {
    if txs == [] then Done(v, 0)
    else
      var m := |txs| - 1;
      match MissPass(v, txs[..m])
      case Abort(c) => Abort(c)
      case Done(v', burned) =>
        if txs[m].kind != MISS_EVIDENCE then Done(v', burned)
        else
          match MissTx(v', txs[m].missedProposer)
          case Abort(c) => Abort(c)
          case Done(v'', more) => Done(v'', burned + more)
  }

  function MintPass(v: Vault, vals: seq<Account>, shares: seq<nat>): Change
    requires |vals| == |shares|
  {
    if vals == [] then Done(v, 0)
    else
      var m := |vals| - 1;
      match MintPass(v, vals[..m], shares[..m])
      case Abort(c) => Abort(c)
      case Done(v', burned) =>
        if shares[m] == 0 then Done(v', burned)
        else
          var e := CreditTx(v'.books, Fee(vals[m]), shares[m]);
          if e.error.Some? then Abort(e.error.value) else Done(v'.(books := e.books), burned)
  }

  // ---------------------------------------------------------------- the whole block

  function SumGas(gas: seq<nat>): nat {
    if gas == [] then 0 else SumGas(gas[..|gas| - 1]) + gas[|gas| - 1]
  }

  /** The uint64 counter of gas charged; nothing is counted at a zero fee. */
  function GasCounter(gas: seq<nat>, fee: nat): u64 {
    if fee == 0 then 0 else SumGas(gas) % U64
  }

  /** The bonded validators in the store's order. */
  ghost predicate Lists(records: map<Account, Record>, vals: seq<Account>) {
    && (forall i, j :: 0 <= i < j < |vals| ==> vals[i] != vals[j])
    && forall a :: a in vals <==> a in records && records[a].status == Bonded
  }

  function Staked(records: map<Account, Record>, vals: seq<Account>): nat {
    if vals == [] then 0
    else
      var a := vals[|vals| - 1];
      Staked(records, vals[..|vals| - 1]) + if a in records then records[a].amount else 0
  }

  /** VerifySigsForChain. */
  function Fault(rules: Rules, t: LTx): Option<Code> {
    if TxCodec.UnsignedError(rules.text, t).Some? then TxCodec.UnsignedError(rules.text, t)
    else if !(TRANSFER <= t.kind <= EQUIV_EVIDENCE) then Some(InvalidTxType)
    else if !rules.sigOk(t) then Some(InvalidSignature)
    else None
  }

  predicate Signed(rules: Rules, t: LTx) {
    Fault(rules, t).None?
  }

  function FirstFault(rules: Rules, txs: seq<LTx>): Option<Code> {
    if txs == [] then None
    else
      var earlier := FirstFault(rules, txs[..|txs| - 1]);
      if earlier.Some? then earlier else Fault(rules, txs[|txs| - 1])
  }

  /** verifyTxSigsParallel: the fault of whichever failing transaction is reported first. */
  function SignatureFault(rules: Rules, txs: seq<LTx>): Option<Code> {
    var i := rules.first(txs);
    if i < |txs| && Fault(rules, txs[i]).Some? then Fault(rules, txs[i]) else FirstFault(rules, txs)
  }

  /** There is a fault exactly when not all are signed, and it is that of one of them. */
  lemma {:induction false} FirstFaultIs(rules: Rules, txs: seq<LTx>)
    ensures FirstFault(rules, txs).None? <==> AllSigned(rules, txs)
    ensures FirstFault(rules, txs).Some? ==> exists i :: 0 <= i < |txs| && Fault(rules, txs[i]) == FirstFault(rules, txs)
  {
    if txs != [] {
      var m := |txs| - 1;
      FirstFaultIs(rules, txs[..m]);
      if FirstFault(rules, txs[..m]).Some? {
        var i :| 0 <= i < m && Fault(rules, txs[..m][i]) == FirstFault(rules, txs[..m]);
        assert Fault(rules, txs[i]) == FirstFault(rules, txs) && !Signed(rules, txs[i]);
      } else {
        assert forall i :: 0 <= i < m ==> txs[..m][i] == txs[i];
      }
    }
  }

  lemma SignatureFaultIs(rules: Rules, txs: seq<LTx>)
    ensures SignatureFault(rules, txs).None? <==> AllSigned(rules, txs)
    ensures SignatureFault(rules, txs).Some? ==> exists i :: 0 <= i < |txs| && Fault(rules, txs[i]) == SignatureFault(rules, txs)
  {
    FirstFaultIs(rules, txs);
    assert rules.first(txs) < |txs| && Fault(rules, txs[rules.first(txs)]).Some? ==> !Signed(rules, txs[rules.first(txs)]);
  }

  /** missEvidenceKey: the height, skip index and proposer a miss evidence names. */
  function MissKey(t: LTx): (u64, u32, Account) {
    (t.missedHeight, t.skipIndex, t.missedProposer)
  }

  function MissKeys(txs: seq<LTx>): set<(u64, u32, Account)> {
    set t | t in txs && t.kind == MISS_EVIDENCE :: MissKey(t)
  }

  /** The first miss evidence that is invalid or repeats an earlier one. */
  function MissError(rules: Rules, txs: seq<LTx>, height: u64, root: Bytes32, vals: seq<Account>): Option<Code> {
    if txs == [] then None
    else
      var m := |txs| - 1;
      var earlier := MissError(rules, txs[..m], height, root, vals);
      if earlier.Some? || txs[m].kind != MISS_EVIDENCE then earlier
      else
        var invalid := ValidateMiss(rules, txs[m], height, root, vals);
        if invalid.Some? then invalid
        else if MissKey(txs[m]) in MissKeys(txs[..m]) then Some(CanonicalEncodingDistortion)
        else None
  }

  predicate AllSigned(rules: Rules, txs: seq<LTx>) {
    forall i :: 0 <= i < |txs| ==> Signed(rules, txs[i])
  }

  /** The checks before the write transaction. */
  function Refusal(rules: Rules, st: State, b: Block, vals: seq<Account>): Option<Code> {
    if b.height != (st.height + 1) % U64 then Some(BlockHeightSequenceFault)
    else if b.prevRoot != ZERO32 && b.prevRoot != st.root then Some(BlockHeightSequenceFault)
    else if SignatureFault(rules, b.txs).Some? then SignatureFault(rules, b.txs)
    else MissError(rules, b.txs, b.height, st.root, vals)
  }

  function CurrentFee(st: State): nat {
    if st.baseFee.Some? then st.baseFee.value else BaseFee(None, 0)
  }

  /** supplyAndStaked: without a recorded supply it counts as zero. */
  function Recorded(st: State): nat {
    if st.supply.Some? then st.supply.value else 0
  }

  function MintOf(st: State, vals: seq<Account>): nat {
    if vals == [] then 0 else MintPerBlock(Recorded(st), Staked(st.vault.records, vals))
  }

  /** The state after all passes, the root of the tree, everything slashed and the gas list. */
  datatype Settled = Settled(state: State, root: Bytes32, slashed: nat, gas: seq<nat>) | Unsettled(code: Code)

  function Settle(rules: Rules, st: State, b: Block, xs: seq<Exec>, vals: seq<Account>): Settled
    requires |b.txs| == |xs|
  {
    var fee := CurrentFee(st);
    var p := TxPass(st, b.txs, xs, fee, b.height);
    if p.Stopped? then Unsettled(p.code)
    else
      TxPassGas(st, b.txs, xs, fee, b.height);
      var root := rules.tree(p.state, b.txs);
      if root.Err? then Unsettled(root.error)
      else
        var charged := GasPass(p.state.vault, b.txs, p.gas, fee);
        if charged.Abort? then Unsettled(charged.code)
        else
          var marked := MissPass(charged.vault, b.txs);
          if marked.Abort? then Unsettled(marked.code)
          else
            var paid := MintPass(marked.vault, vals, Shares(MintOf(st, vals), |vals|));
            if paid.Abort? then Unsettled(paid.code)
            else Settled(p.state.(vault := paid.vault), root.value, p.burned + marked.burned, p.gas)
  }

  /** The supply after the block; a negative one is refused where supply is recorded. */
  function NextSupply(st: State, s: Settled, vals: seq<Account>): int
    requires s.Settled?
  {
    Recorded(st) - CurrentFee(st) * GasCounter(s.gas, CurrentFee(st)) - s.slashed + MintOf(st, vals)
  }

  /** The metadata a settled block leaves, or why it is refused after all. */
  function Close(rules: Rules, st: State, b: Block, vals: seq<Account>, s: Settled): Result<State, Code> {
    if s.Unsettled? then Err(s.code)
    else if st.supply.Some? && NextSupply(st, s, vals) < 0 then Err(ArithmeticOverflow)
    else if b.root != ZERO32 && b.root != s.root then Err(RootMismatch)
    else if rules.store(b, s.root).Some? then Err(rules.store(b, s.root).value)
    else Ok(s.state.(height := b.height, root := s.root,
                     baseFee := Some(BaseFee(Some(CurrentFee(st)), GasCounter(s.gas, CurrentFee(st)))),
                     supply := if st.supply.Some? then Some(NextSupply(st, s, vals)) else s.state.supply))
  }

  function ApplyBlock(rules: Rules, st: State, b: Block, xs: seq<Exec>, vals: seq<Account>): Result<State, Code>
    requires |b.txs| == |xs|
  {
    var refusal := Refusal(rules, st, b, vals);
    if refusal.Some? then Err(refusal.value)
    else
      Close(rules, st, b, vals, Settle(rules, st, b, xs, vals))
  }

  /** Only blocks of signed transactions are applied. */
  lemma AppliedSigned(rules: Rules, st: State, b: Block, xs: seq<Exec>, vals: seq<Account>)
    requires |b.txs| == |xs| && ApplyBlock(rules, st, b, xs, vals).Ok?
    ensures AllSigned(rules, b.txs)
  {
    SignatureFaultIs(rules, b.txs);
  }

  lemma {:induction false} TxPassGas(st: State, txs: seq<LTx>, xs: seq<Exec>, fee: nat, height: u64)
    requires |txs| == |xs|
    ensures var p := TxPass(st, txs, xs, fee, height); p.Pass? ==> |p.gas| == |txs|
  {
    if txs != [] { TxPassGas(st, txs[..|txs| - 1], xs[..|txs| - 1], fee, height); }
  }

  /** Transactions do not touch the recorded supply. */
  lemma {:induction false} TxPassSupply(st: State, txs: seq<LTx>, xs: seq<Exec>, fee: nat, height: u64)
    requires |txs| == |xs|
    ensures var p := TxPass(st, txs, xs, fee, height); p.Pass? ==> p.state.supply == st.supply
  {
    if txs != [] {
      var m := |txs| - 1;
      TxPassSupply(st, txs[..m], xs[..m], fee, height);
      var p := TxPass(st, txs[..m], xs[..m], fee, height);
      if p.Pass? { TxSupply(p.state, txs[m], xs[m], fee, height); }
    }
  }

  lemma TxSupply(st: State, t: LTx, x: Exec, fee: nat, height: u64)
    ensures match ApplyTx(st, t, x, fee, height)
            case Applied(s, _, _) => s.supply == st.supply
            case Skipped(s) => s.supply == st.supply
            case Aborted(_) => true
  {
  }
}

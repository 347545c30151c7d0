/** The tree of an applied block: what BuildTree gets from the state machine, and what its root proves. */
module AppliedTree {
  import opened Wrappers
  import opened Bytes
  import opened Nodes
  import opened Coarsening
  import opened TreeProofs
  import opened RGTree
  import opened Ledger
  import opened BlockApply
  import opened BlockTree

  const U128: nat := 0x1_0000000000000000_0000000000000000

  lemma SquareMonotone(x: nat, y: nat)
    requires x <= y
    ensures Squared(x) <= Squared(y)
  {
    assert x * x <= x * y && x * y <= y * y;
  }

  lemma SquareFitsExactly(x: nat)
    ensures Squared(x) < U256 <==> x < U128
  {
    assert Squared(U128) == U256 && Squared(U128 - 1) < U256;
    if x < U128 { SquareMonotone(x, U128 - 1); } else { SquareMonotone(U128, x); }
  }

  /** What the code outside the model adds: a transaction as a leaf, the contracts touched and their state roots. */
  datatype Sources = Sources(
    leaf: LTx -> LeafTx,
    touched: (State, seq<LTx>) -> seq<Account>,
    stateRoot: (State, Account) -> Bytes32)

  /** The state nodes of the contracts; None is the panic of Uint256ToBytes on a square that does not fit. */
  function ContractNodes(s: Sources, st: State, accounts: seq<Account>): Option<seq<Node>> {
    if accounts == [] then Some([])
    else
      var a := accounts[|accounts| - 1];
      var balance := Balance(st.vault.books, a);
      match ContractNodes(s, st, accounts[..|accounts| - 1])
      case None => None
      case Some(ns) => if Squared(balance) >= U256 then None else Some(ns + [ContractLeaf(balance, s.stateRoot(st, a))])
  }

  /** Building panics exactly when a touched contract holds 2^128 or more. */
  lemma {:induction false} PanicsExactly(s: Sources, st: State, accounts: seq<Account>)
    ensures ContractNodes(s, st, accounts).None? <==> exists a :: a in accounts && Balance(st.vault.books, a) >= U128
    ensures ContractNodes(s, st, accounts).Some? ==>
              |ContractNodes(s, st, accounts).value| == |accounts| && ContractLeaves(ContractNodes(s, st, accounts).value)
  {
    if accounts != [] {
      var m := |accounts| - 1;
      PanicsExactly(s, st, accounts[..m]);
      SquareFitsExactly(Balance(st.vault.books, accounts[m]));
      assert forall a :: a in accounts <==> a in accounts[..m] || a == accounts[m];
    }
  }

  /** So never while all money together is below 2^128. */
  lemma NoPanicBelowTotal(s: Sources, st: State, accounts: seq<Account>)
    requires Total(st.vault.books) < U128
    ensures ContractNodes(s, st, accounts).Some?
  {
    PanicsExactly(s, st, accounts);
    forall a | a in accounts ensures Balance(st.vault.books, a) < U128 { BalanceBelowTotal(st.vault.books, a); }
  }

  function Leaves(s: Sources, txs: seq<LTx>): seq<LeafTx> {
    seq(|txs|, i requires 0 <= i < |txs| => s.leaf(txs[i]))
  }

  /** The rules build the block's tree from these; after a panic there is no result, and the transaction is rolled back. */
  ghost predicate BuildsTree(h: Hasher, s: Sources, rules: Rules) {
    forall st, txs :: ContractNodes(s, st, s.touched(st, txs)).Some? ==>
      rules.tree(st, txs) == match Built(h, Leaves(s, txs), ContractNodes(s, st, s.touched(st, txs)).value)
                             case Err(c) => Err(c)
                             case Ok((_, root)) => Ok(root)
  }

  lemma {:induction false} AtomicAt(txs: seq<LeafTx>, i: nat)
    requires Atomics(txs).Ok? && i < |txs|
    ensures Atomic(txs[i]) == Ok(Atomics(txs).value[i])
  {
    var m := |txs| - 1;
    if i < m { AtomicAt(txs[..m], i); }
  }

  lemma RootOfPass(rules: Rules, st: State, b: Block, xs: seq<Exec>, vals: seq<Account>)
    requires |b.txs| == |xs| && ApplyBlock(rules, st, b, xs, vals).Ok?
    ensures var p := TxPass(st, b.txs, xs, CurrentFee(st), b.height);
            p.Pass? && rules.tree(p.state, b.txs) == Ok(ApplyBlock(rules, st, b, xs, vals).value.root)
  {
  }

  /** The root an applied block leaves is that of the tree of its transactions and touched contracts. */
  lemma AppliedRoot(h: Hasher, s: Sources, rules: Rules, st: State, b: Block, xs: seq<Exec>, vals: seq<Account>) returns (contracts: seq<Node>)
    requires BuildsTree(h, s, rules) && |b.txs| == |xs| && ApplyBlock(rules, st, b, xs, vals).Ok?
    requires var p := TxPass(st, b.txs, xs, CurrentFee(st), b.height);
             p.Pass? ==> ContractNodes(s, p.state, s.touched(p.state, b.txs)).Some?
    ensures ContractLeaves(contracts) && Built(h, Leaves(s, b.txs), contracts).Ok?
    ensures Built(h, Leaves(s, b.txs), contracts).value.1 == ApplyBlock(rules, st, b, xs, vals).value.root
  {
    RootOfPass(rules, st, b, xs, vals);
    var p := TxPass(st, b.txs, xs, CurrentFee(st), b.height);
    var accounts := s.touched(p.state, b.txs);
    PanicsExactly(s, p.state, accounts);
    contracts := ContractNodes(s, p.state, accounts).value;
  }

  /** Every transaction of an applied block has a proof that its new state root accepts. */
  lemma AppliedProves(h: Hasher, s: Sources, rules: Rules, st: State, b: Block, xs: seq<Exec>, vals: seq<Account>, idx: nat, id: Bytes32)
    returns (proof: seq<Step>)
    requires BuildsTree(h, s, rules) && |b.txs| == |xs| && ApplyBlock(rules, st, b, xs, vals).Ok?
    requires var p := TxPass(st, b.txs, xs, CurrentFee(st), b.height);
             p.Pass? ==> ContractNodes(s, p.state, s.touched(p.state, b.txs)).Some?
    requires idx < |b.txs| && s.leaf(b.txs[idx]).id == Ok(id)
    ensures Accepted(h, proof, id, ApplyBlock(rules, st, b, xs, vals).value.root)
  {
    var contracts := AppliedRoot(h, s, rules, st, b, xs, vals);
    proof := TransactionProof(h, Leaves(s, b.txs), contracts, idx, id);
  }

  lemma TransactionProof(h: Hasher, txs: seq<LeafTx>, contracts: seq<Node>, idx: nat, id: Bytes32) returns (proof: seq<Step>)
    requires ContractLeaves(contracts) && Built(h, txs, contracts).Ok? && idx < |txs| && txs[idx].id == Ok(id)
    ensures Accepted(h, proof, id, Built(h, txs, contracts).value.1)
  {
    BlockProofs(h, txs, contracts, idx);
    BuiltParts(h, txs, contracts);
    AtomicAt(txs, idx);
    var layers := Built(h, txs, contracts).value.0;
    assert layers[0][idx] == Atomics(txs).value[idx];
    proof := Path(h, layers, idx, |layers| - 1);
  }
}

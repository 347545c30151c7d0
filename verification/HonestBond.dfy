/**
 * Consensus, evidence and staking together: a validator that votes only through its engine, and whose
 * slots are kept, never loses its bond to an equivocation slash, whatever blocks the ledger applies.
 */
module HonestBond {
  import opened Wrappers
  import opened Errors
  import opened Bytes
  import opened Messages
  import opened Ledger
  import opened Economics
  import opened Staking
  import opened BlockApply
  import opened Chain
  import Effects
  import Protocol
  import Agreement
  import Equivocation
  import Evidence
  import ProposalCodec

  /**
   * A transaction as the ledger sees it. Senders and missed proposers are keys; the receiver's
   * 32 bytes may also be the address of an escrow, fee or contract account, which addr resolves.
   */
  function OnLedger(addr: Bytes32 -> Account, t: WireTx): LTx {
    Tx(t.kind, t.sender, t.receiver, t.value, t.nonce, User(t.senderKey), addr(t.receiverKey), t.senderSig, t.receiverSig,
       t.missedHeight, User(t.missedProposer), t.skipIndex, t.wasm, t.initArgs, t.callData, t.evidenceA, t.evidenceB)
  }

  function Verdict(r: Result<Bytes32, Code>): Result<Account, Code> {
    match r
    case Ok(k) => Ok(User(k))
    case Err(c) => Err(c)
  }

  /** The block holds these wire transactions, and its evidence verdicts are those of the validation. */
  ghost predicate Judged(addr: Bytes32 -> Account, e: Event, wire: seq<WireTx>, chain: Bytes, verify: Evidence.Verifier) {
    && |wire| == |e.xs| == |e.block.txs|
    && forall i :: 0 <= i < |wire| ==>
         && e.block.txs[i] == OnLedger(addr, wire[i])
         && e.xs[i].evidence == Verdict(Evidence.ValidateEquivocation(wire[i], chain, verify))
  }

  // ---------------------------------------------------------------- what can end a bond

  /** The account neither finalizes nor is convicted by the transaction. */
  ghost predicate Stays(t: LTx, x: Exec, who: Account) {
    (t.kind == FINALIZE_UNBOND ==> t.senderKey != who) && x.evidence != Ok(who)
  }

  ghost predicate SameBond(v: Vault, v': Vault, who: Account) {
    who in v.records ==> who in v'.records && v'.records[who].amount == v.records[who].amount
  }

  lemma TxKeepsBond(st: State, t: LTx, x: Exec, fee: nat, height: u64, who: Account)
    requires Stays(t, x, who)
    ensures match ApplyTx(st, t, x, fee, height)
            case Applied(s, _, _) => SameBond(st.vault, s.vault, who)
            case Skipped(s) => SameBond(st.vault, s.vault, who)
            case Aborted(_) => true
  {
  }

  lemma {:induction false} TxPassKeepsBond(st: State, txs: seq<LTx>, xs: seq<Exec>, fee: nat, height: u64, who: Account)
    requires |txs| == |xs| && forall i :: 0 <= i < |xs| ==> Stays(txs[i], xs[i], who)
    ensures var p := TxPass(st, txs, xs, fee, height); p.Pass? ==> SameBond(st.vault, p.state.vault, who)
  {
    if txs != [] {
      var m := |txs| - 1;
      TxPassKeepsBond(st, txs[..m], xs[..m], fee, height, who);
      var p := TxPass(st, txs[..m], xs[..m], fee, height);
      if p.Pass? { TxKeepsBond(p.state, txs[m], xs[m], fee, height, who); }
    }
  }

  /** A miss lowers the bond at most, and only that of the proposer it names. */
  ghost predicate Missing(txs: seq<LTx>, who: Account) {
    exists i :: 0 <= i < |txs| && txs[i].kind == MISS_EVIDENCE && txs[i].missedProposer == who
  }

  lemma {:induction false} MissPassKeepsBond(v: Vault, txs: seq<LTx>, who: Account)
    ensures var c := MissPass(v, txs);
            c.Done? && who in v.records ==> who in c.vault.records && (!Missing(txs, who) ==> SameBond(v, c.vault, who))
  {
    if txs != [] {
      var m := |txs| - 1;
      MissPassKeepsBond(v, txs[..m], who);
      if Missing(txs[..m], who) {
        var i :| 0 <= i < m && txs[..m][i].kind == MISS_EVIDENCE && txs[..m][i].missedProposer == who;
        assert txs[i].kind == MISS_EVIDENCE && txs[i].missedProposer == who;
      }
    }
  }

  /** A block in which the account neither finalizes nor is convicted keeps its record. */
  lemma BlockKeepsBond(rules: Rules, st: State, e: Event, who: Account)
    requires Formed(e) && who in st.vault.records
    requires forall i :: 0 <= i < |e.xs| ==> Stays(e.block.txs[i], e.xs[i], who)
    ensures var after := After(rules, st, e).vault;
            who in after.records && (!Missing(e.block.txs, who) ==> SameBond(st.vault, after, who))
  {
    if ApplyBlock(rules, st, e.block, e.xs, e.vals).Ok? {
      var fee, txs := CurrentFee(st), e.block.txs;
      TxPassKeepsBond(st, txs, e.xs, fee, e.block.height, who);
      TxPassGas(st, txs, e.xs, fee, e.block.height);
      var p := TxPass(st, txs, e.xs, fee, e.block.height);
      Effects.GasPassEffect(p.state.vault, txs, p.gas, fee, who);
      var charged := GasPass(p.state.vault, txs, p.gas, fee);
      MissPassKeepsBond(charged.vault, txs, who);
      var marked := MissPass(charged.vault, txs);
      Effects.MintPassEffect(marked.vault, e.vals, Shares(MintOf(st, e.vals), |e.vals|), who);
    }
  }

  /** The account neither finalizes nor is convicted in the block. */
  ghost predicate StaysIn(e: Event, who: Account) {
    Formed(e) && forall i :: 0 <= i < |e.xs| ==> Stays(e.block.txs[i], e.xs[i], who)
  }

  /** Over any run of such blocks its record stays, undiminished while no miss evidence names it. */
  lemma {:induction false} RunKeepsBond(rules: Rules, st: State, blocks: seq<Event>, who: Account)
    requires who in st.vault.records && forall i :: 0 <= i < |blocks| ==> StaysIn(blocks[i], who)
    ensures AllFormed(blocks)
    ensures var last := Replay(rules, st, blocks).vault;
            && who in last.records
            && ((forall i :: 0 <= i < |blocks| ==> !Missing(blocks[i].block.txs, who)) ==> SameBond(st.vault, last, who))
    decreases |blocks|
  {
    if blocks != [] {
      var m := |blocks| - 1;
      RunKeepsBond(rules, st, blocks[..m], who);
      assert StaysIn(blocks[m], who);
      BlockKeepsBond(rules, Replay(rules, st, blocks[..m]), blocks[m], who);
    }
  }

  // ---------------------------------------------------------------- the honest validator

  ghost predicate AllJudged(addr: Bytes32 -> Account, blocks: seq<Event>, wires: seq<seq<WireTx>>, chain: Bytes,
                            verify: Evidence.Verifier)
  {
    |wires| == |blocks| && forall i :: 0 <= i < |blocks| ==> Judged(addr, blocks[i], wires[i], chain, verify)
  }

  /** The validator sends no finalize transaction. */
  ghost predicate NeverLeaves(wires: seq<seq<WireTx>>, k: Bytes32) {
    forall i, j :: 0 <= i < |wires| && 0 <= j < |wires[i]| && wires[i][j].kind == FINALIZE_UNBOND ==> wires[i][j].senderKey != k
  }

  /** No transaction of a judged block ends the bond of an honest validator that does not leave. */
  lemma HonestStays(env: Protocol.Env, ws: seq<Agreement.World>, es: seq<Agreement.Event>, k: Bytes32, chain: Bytes, home: Bytes,
                    coder: ProposalCodec.BatchCoder, verify: Evidence.Verifier, addr: Bytes32 -> Account, e: Event, wire: seq<WireTx>)
    requires env.Valid() && Agreement.IsWorldRun(env, ws, es) && k in ws[0].nodes && Equivocation.NeverLapses(es, k)
    requires Evidence.Unforgeable(verify, ws[|es|].net, k, home, coder) && Judged(addr, e, wire, chain, verify)
    requires forall j :: 0 <= j < |wire| && wire[j].kind == FINALIZE_UNBOND ==> wire[j].senderKey != k
    ensures forall i :: 0 <= i < |e.xs| ==> Stays(e.block.txs[i], e.xs[i], User(k))
  {
    forall i | 0 <= i < |e.xs| ensures Stays(e.block.txs[i], e.xs[i], User(k)) {
      Evidence.HonestNeverConvicted(env, ws, es, k, wire[i], chain, home, coder, verify);
    }
  }

  /**
   * Over every run of the network, with crashes and any faults elsewhere, in which no ballot of the
   * validator got out while the commit of its slot failed, and every run of applied and failed blocks
   * judged by the evidence rules, its bond stays on record, and undiminished while no miss evidence
   * names it.
   */
  lemma HonestBondStays(env: Protocol.Env, ws: seq<Agreement.World>, es: seq<Agreement.Event>, k: Bytes32,
                        chain: Bytes, home: Bytes, coder: ProposalCodec.BatchCoder, verify: Evidence.Verifier,
                        addr: Bytes32 -> Account, rules: Rules, st: State, blocks: seq<Event>, wires: seq<seq<WireTx>>)
    requires env.Valid() && Agreement.IsWorldRun(env, ws, es) && k in ws[0].nodes && Equivocation.NeverLapses(es, k)
    requires Evidence.Unforgeable(verify, ws[|es|].net, k, home, coder)
    requires AllJudged(addr, blocks, wires, chain, verify) && NeverLeaves(wires, k) && User(k) in st.vault.records
    ensures AllFormed(blocks)
    ensures var last := Replay(rules, st, blocks).vault;
            && User(k) in last.records
            && ((forall i :: 0 <= i < |blocks| ==> !Missing(blocks[i].block.txs, User(k))) ==> SameBond(st.vault, last, User(k)))
  {
    forall i | 0 <= i < |blocks| ensures StaysIn(blocks[i], User(k)) {
      assert Judged(addr, blocks[i], wires[i], chain, verify);
      HonestStays(env, ws, es, k, chain, home, coder, verify, addr, blocks[i], wires[i]);
    }
    RunKeepsBond(rules, st, blocks, User(k));
  }
}

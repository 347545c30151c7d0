/** Runs of the state machine: any sequence of blocks, each applied or rolled back. */
module Chain {
  import opened Ledger
  import opened BlockApply

  /** A block with the answers of the code outside the model and the bonded validators in the order read. */
  datatype Event = Event(block: Block, xs: seq<Exec>, vals: seq<Account>)

  predicate Formed(e: Event) {
    |e.xs| == |e.block.txs|
  }

  predicate AllFormed(es: seq<Event>) {
    forall e :: e in es ==> Formed(e)
  }

  /** A failing block leaves the state as it was. */
  function After(rules: Rules, st: State, e: Event): State
    requires Formed(e)
  {
    match ApplyBlock(rules, st, e.block, e.xs, e.vals)
    case Ok(next) => next
    case Err(_) => st
  }

  function Replay(rules: Rules, st: State, es: seq<Event>): State
    requires AllFormed(es)
  {
    if es == [] then st
    else
      assert es[|es| - 1] in es;
      After(rules, Replay(rules, st, es[..|es| - 1]), es[|es| - 1])
  }
}

/** The pending-transaction queue of core/blockloop/blockloop.go. */
module Mempool {
  import opened Wrappers
  import opened Bytes
  import opened Messages

  const TMAX: nat := 65536

  /** tx.ID, which fails on a transaction that cannot be serialised. */
  type IdOf = WireTx -> Option<Bytes32>

  function Ids(id: IdOf, txs: seq<WireTx>): set<Bytes32> {
    set t | t in txs && id(t).Some? :: id(t).value
  }

  /** What the queue stands for: distinct identified transactions, oldest first. */
  ghost predicate Fifo(id: IdOf, pool: seq<WireTx>) {
    && (forall t :: t in pool ==> id(t).Some?)
    && forall i, j :: 0 <= i < j < |pool| ==> id(pool[i]) != id(pool[j])
  }

  /** The transactions of the pool whose id is not in `gone`, in their old order. */
  function Keep(id: IdOf, pool: seq<WireTx>, gone: set<Bytes32>): seq<WireTx> {
    if pool == [] then []
    else if id(pool[0]).Some? && id(pool[0]).value in gone then Keep(id, pool[1..], gone)
    else [pool[0]] + Keep(id, pool[1..], gone)
  }

  function Removed(id: IdOf, pool: seq<WireTx>, txs: seq<WireTx>): seq<WireTx> {
    Keep(id, pool, Ids(id, txs))
  }

  ghost function Enqueued(id: IdOf, cap: nat, pool: seq<WireTx>, t: WireTx): seq<WireTx> {
    if id(t).None? || id(t).value in Ids(id, pool) then pool
    else if |pool| >= cap && pool != [] then pool[1..] + [t]
    else pool + [t]
  }

  /** What propose puts in a block. */
  function Batch(pool: seq<WireTx>): seq<WireTx> {
    if |pool| > TMAX then pool[..TMAX] else pool
  }

  lemma {:induction false} KeepAll(id: IdOf, pool: seq<WireTx>, gone: set<Bytes32>)
    requires forall t :: t in pool ==> id(t).None? || id(t).value !in gone
    ensures Keep(id, pool, gone) == pool
  {
    if pool != [] {
      assert pool[0] in pool;
      KeepAll(id, pool[1..], gone);
    }
  }

  lemma {:induction false} KeepTwice(id: IdOf, pool: seq<WireTx>, a: set<Bytes32>, b: set<Bytes32>)
    ensures Keep(id, Keep(id, pool, a), b) == Keep(id, pool, a + b)
  {
    if pool != [] {
      KeepTwice(id, pool[1..], a, b);
      var rest := Keep(id, pool[1..], a);
      assert ([pool[0]] + rest)[1..] == rest;
    }
  }

  /** Dropping one identified entry leaves the queue with that position cut out. */
  lemma {:induction false} KeepOne(id: IdOf, pool: seq<WireTx>, i: nat)
    requires Fifo(id, pool) && i < |pool|
    ensures Keep(id, pool, {id(pool[i]).value}) == pool[..i] + pool[i + 1..]
  {
    var gone := {id(pool[i]).value};
    forall j | 0 <= j < |pool| && j != i ensures id(pool[j]).value !in gone {
      assert pool[j] in pool && pool[i] in pool;
      assert id(pool[j]) != id(pool[i]);
    }
    if i == 0 {
      KeepAll(id, pool[1..], gone);
    } else {
      assert pool[1..][i - 1] == pool[i];
      KeepOne(id, pool[1..], i - 1);
      assert pool[1..][..i - 1] == pool[1..i] && pool[1..][i..] == pool[i + 1..];
    }
  }

  lemma FifoHead(id: IdOf, pool: seq<WireTx>)
    requires Fifo(id, pool) && pool != []
    ensures id(pool[0]).Some? && Fifo(id, pool[1..]) && forall t :: t in pool[1..] ==> id(t) != id(pool[0])
  {
    assert pool[0] in pool;
    assert forall t :: t in pool[1..] ==> t in pool;
  }

  lemma FifoCons(id: IdOf, t: WireTx, pool: seq<WireTx>)
    requires Fifo(id, pool) && id(t).Some? && forall u :: u in pool ==> id(u) != id(t)
    ensures Fifo(id, [t] + pool)
  {
  }

  lemma {:induction false} KeepIsFifo(id: IdOf, pool: seq<WireTx>, gone: set<Bytes32>)
    requires Fifo(id, pool)
    ensures Fifo(id, Keep(id, pool, gone)) && |Keep(id, pool, gone)| <= |pool|
    ensures forall t :: t in Keep(id, pool, gone) <==> t in pool && id(t).value !in gone
  {
    if pool != [] {
      assert pool == [pool[0]] + pool[1..];
      FifoHead(id, pool);
      KeepIsFifo(id, pool[1..], gone);
      FifoCons(id, pool[0], Keep(id, pool[1..], gone));
    }
  }

  /** Rejecting a non-empty batch of this pool makes the pool strictly shorter. */
  lemma RejectShrinks(id: IdOf, pool: seq<WireTx>, txs: seq<WireTx>)
    requires Fifo(id, pool) && txs == Batch(pool) && txs != []
    ensures |Removed(id, pool, txs)| < |pool| && Fifo(id, Removed(id, pool, txs))
  {
    assert pool[0] in txs && pool[0] in pool;
    assert id(pool[0]).value in Ids(id, txs);
    KeepIsFifo(id, pool, Ids(id, txs));
    assert forall t :: t in pool[1..] ==> t in pool;
    KeepIsFifo(id, pool[1..], Ids(id, txs));
  }

  // ---------------------------------------------------------------- list and index

  /** container/list.Element: a handle that identifies one queue entry. */
  class Element {
    const tx: WireTx

    constructor (tx: WireTx)
      ensures this.tx == tx
    {
      this.tx := tx;
    }
  }

  ghost function Values(queue: seq<Element>): seq<WireTx> {
    if queue == [] then [] else [queue[0].tx] + Values(queue[1..])
  }

  lemma {:induction false} ValuesAt(queue: seq<Element>)
    ensures |Values(queue)| == |queue|
    ensures forall i :: 0 <= i < |queue| ==> Values(queue)[i] == queue[i].tx
  {
    if queue != [] { ValuesAt(queue[1..]); }
  }

  /** The index names exactly the queued transactions, each by its own handle. */
  ghost predicate Indexed(id: IdOf, queue: seq<Element>, index: map<Bytes32, Element>) {
    && (forall i :: 0 <= i < |queue| ==>
          id(queue[i].tx).Some? && id(queue[i].tx).value in index && index[id(queue[i].tx).value] == queue[i])
    && (forall h :: h in index ==> index[h] in queue && id(index[h].tx) == Some(h))
  }

  lemma IndexIsIds(id: IdOf, queue: seq<Element>, index: map<Bytes32, Element>)
    requires Indexed(id, queue, index)
    ensures index.Keys == Ids(id, Values(queue))
  {
    ValuesAt(queue);
    var pool := Values(queue);
    forall h | h in index ensures h in Ids(id, pool) {
      var i :| 0 <= i < |queue| && queue[i] == index[h];
      assert pool[i] in pool;
    }
    forall h | h in Ids(id, pool) ensures h in index {
      var t :| t in pool && id(t) == Some(h);
      var i :| 0 <= i < |pool| && pool[i] == t;
      assert queue[i].tx == t;
    }
  }

  /** Distinct handles under one index hold distinct ids. */
  lemma IndexedIsFifo(id: IdOf, queue: seq<Element>, index: map<Bytes32, Element>)
    requires Indexed(id, queue, index)
    requires forall i, j :: 0 <= i < j < |queue| ==> queue[i] != queue[j]
    ensures Fifo(id, Values(queue))
  {
    ValuesAt(queue);
    var pool := Values(queue);
    forall i, j | 0 <= i < j < |pool| ensures id(pool[i]) != id(pool[j]) {
      assert index[id(queue[i].tx).value] == queue[i] && index[id(queue[j].tx).value] == queue[j];
    }
  }

  lemma DropKeepsIndex(id: IdOf, queue: seq<Element>, index: map<Bytes32, Element>, i: nat)
    requires Indexed(id, queue, index) && i < |queue|
    requires forall i, j :: 0 <= i < j < |queue| ==> queue[i] != queue[j]
    ensures Indexed(id, queue[..i] + queue[i + 1..], index - {id(queue[i].tx).value})
    ensures var cut := queue[..i] + queue[i + 1..]; forall i, j :: 0 <= i < j < |cut| ==> cut[i] != cut[j]
  {
  }

  lemma PushKeepsIndex(id: IdOf, queue: seq<Element>, index: map<Bytes32, Element>, e: Element)
    requires Indexed(id, queue, index) && id(e.tx).Some? && id(e.tx).value !in index
    ensures Indexed(id, queue + [e], index[id(e.tx).value := e])
  {
  }

  lemma ValuesCut(queue: seq<Element>, i: nat)
    requires i < |queue|
    ensures |Values(queue)| == |queue|
    ensures Values(queue[..i] + queue[i + 1..]) == Values(queue)[..i] + Values(queue)[i + 1..]
  {
    ValuesAt(queue);
    ValuesAt(queue[..i] + queue[i + 1..]);
  }

  lemma ValuesPush(queue: seq<Element>, e: Element)
    ensures Values(queue + [e]) == Values(queue) + [e.tx]
  {
    ValuesAt(queue);
    ValuesAt(queue + [e]);
  }

  ghost predicate Sound(id: IdOf, cap: nat, queue: seq<Element>, index: map<Bytes32, Element>) {
    && Indexed(id, queue, index)
    && (forall i, j :: 0 <= i < j < |queue| ==> queue[i] != queue[j])
    && |queue| <= if cap == 0 then 1 else cap
  }

  /** The queue is a duplicate-free sequence within capacity, and the index holds its ids. */
  lemma QueueRefinesFifo(id: IdOf, cap: nat, queue: seq<Element>, index: map<Bytes32, Element>)
    requires Sound(id, cap, queue, index)
    ensures Fifo(id, Values(queue)) && |Values(queue)| == |queue| <= (if cap == 0 then 1 else cap)
    ensures index.Keys == Ids(id, Values(queue))
  {
    ValuesAt(queue);
    IndexIsIds(id, queue, index);
    IndexedIsFifo(id, queue, index);
  }

  lemma DropRefinesKeep(id: IdOf, cap: nat, queue: seq<Element>, index: map<Bytes32, Element>, i: nat)
    requires Sound(id, cap, queue, index) && i < |queue|
    ensures id(queue[i].tx).Some?
    ensures Sound(id, cap, queue[..i] + queue[i + 1..], index - {id(queue[i].tx).value})
    ensures Values(queue[..i] + queue[i + 1..]) == Keep(id, Values(queue), {id(queue[i].tx).value})
  {
    var cut := queue[..i] + queue[i + 1..];
    assert Values(cut) == Keep(id, Values(queue), {id(queue[i].tx).value}) by {
      QueueRefinesFifo(id, cap, queue, index);
      ValuesAt(queue);
      ValuesCut(queue, i);
      KeepOne(id, Values(queue), i);
    }
    assert Sound(id, cap, cut, index - {id(queue[i].tx).value}) by {
      DropKeepsIndex(id, queue, index, i);
    }
  }

  /** Appending to a queue with room for one more entry. */
  lemma PushRefinesAppend(id: IdOf, cap: nat, queue: seq<Element>, index: map<Bytes32, Element>, e: Element)
    requires Sound(id, cap, queue, index) && id(e.tx).Some? && id(e.tx).value !in index
    requires |queue| < if cap == 0 then 1 else cap
    ensures Sound(id, cap, queue + [e], index[id(e.tx).value := e])
    ensures Values(queue + [e]) == Values(queue) + [e.tx]
  {
    PushKeepsIndex(id, queue, index, e);
    ValuesPush(queue, e);
    forall i, j | 0 <= i < j < |queue + [e]| ensures (queue + [e])[i] != (queue + [e])[j] {
      assert id(queue[i].tx).value in index;
    }
  }

  class Mempool {
    const id: IdOf
    const cap: nat
    var queue: seq<Element>
    var index: map<Bytes32, Element>

    ghost function Contents(): seq<WireTx>
      reads this
    {
      Values(queue)
    }

    ghost predicate Valid()
      reads this
    {
      Sound(id, cap, queue, index)
    }

    constructor (id: IdOf, cap: nat)
      ensures Valid() && Contents() == [] && this.id == id && this.cap == cap
    {
      this.id, this.cap, queue, index := id, cap, [], map[];
    }

    method Has(h: Bytes32) returns (present: bool)
      requires Valid()
      ensures present <==> h in Ids(id, Contents())
    {
      QueueRefinesFifo(id, cap, queue, index);
      present := h in index;
    }

    /** queue.Remove and the matching delete from the index. */
    method Drop(h: Bytes32)
      requires Valid() && h in index
      modifies this
      ensures Valid() && Contents() == Keep(id, old(Contents()), {h})
      ensures |queue| == old(|queue|) - 1 && index == old(index) - {h}
    {
      var elem := index[h];
      var i :| 0 <= i < |queue| && queue[i] == elem;
      DropRefinesKeep(id, cap, queue, index, i);
      queue, index := queue[..i] + queue[i + 1..], index - {h};
    }

    method Enqueue(t: WireTx)
      requires Valid()
      modifies this
      ensures Valid() && Contents() == Enqueued(id, cap, old(Contents()), t)
    {
      QueueRefinesFifo(id, cap, queue, index);
      var h := id(t);
      if h.None? || h.value in index { return; }
      if |queue| >= cap && queue != [] {
        var front := queue[0];
        assert Contents()[0] == front.tx;
        KeepOne(id, Contents(), 0);
        Drop(id(front.tx).value);
        assert Contents() == old(Contents())[1..];
      }
      var elem := new Element(t);
      PushRefinesAppend(id, cap, queue, index, elem);
      queue, index := queue + [elem], index[h.value := elem];
    }

    /** propose: the oldest entries, at most a block full. */
    method Propose() returns (txs: seq<WireTx>)
      requires Valid()
      ensures txs == Batch(Contents())
    {
      ValuesAt(queue);
      var count := if |queue| > TMAX then TMAX else |queue|;
      txs := [];
      while |txs| < count
        invariant |txs| <= count
        invariant txs == Contents()[..|txs|]
      {
        txs := txs + [queue[|txs|].tx];
      }
    }

    /** OnCommit and OnReject: an order-preserving filter. */
    method RemoveCommitted(txs: seq<WireTx>)
      requires Valid()
      modifies this
      ensures Valid() && Contents() == Removed(id, old(Contents()), txs)
    {
      KeepAll(id, Contents(), Ids(id, txs[..0]));
      for n := 0 to |txs|
        invariant Valid()
        invariant Contents() == Keep(id, old(Contents()), Ids(id, txs[..n]))
      {
        var h := id(txs[n]);
        IdsPush(id, txs, n);
        QueueRefinesFifo(id, cap, queue, index);
        if h.Some? {
          KeepTwice(id, old(Contents()), Ids(id, txs[..n]), {h.value});
          if h.value in index {
            Drop(h.value);
          } else {
            KeepAll(id, Contents(), {h.value});
          }
        } else {
          assert Ids(id, txs[..n + 1]) == Ids(id, txs[..n]);
        }
      }
      assert txs[..|txs|] == txs;
    }
  }

  lemma IdsPush(id: IdOf, txs: seq<WireTx>, n: nat)
    requires n < |txs|
    ensures Ids(id, txs[..n + 1]) == Ids(id, txs[..n]) + if id(txs[n]).Some? then {id(txs[n]).value} else {}
  {
    assert txs[..n + 1] == txs[..n] + [txs[n]];
  }
}

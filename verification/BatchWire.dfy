/** The batch codec as proposals and blocks see it. */
module BatchWire {
  import opened Bytes
  import opened Messages
  import BatchCodec
  import opened ProposalCodec

  function Coder(w: BatchCodec.TxCoder): BatchCoder {
    BatchCoder((txs: seq<WireTx>) => BatchCodec.BatchError(w, txs),
               (txs: seq<WireTx>) => BatchCodec.EncodeBatch(w, txs),
               (d: Bytes) => BatchCodec.ParseBatch(w, d),
               (txs: seq<WireTx>) => BatchCodec.NormaliseAll(w, txs))
  }

  /** The law proposals and blocks ask for is the proved round trip of batches. */
  lemma CoderObeysLaw(w: BatchCodec.TxCoder)
    requires BatchCodec.RoundTrips(w)
    ensures BatchLaw(Coder(w))
  {
    var b := Coder(w);
    forall txs ensures ReadsBack(b, txs) {
      if b.error(txs).None? { BatchCodec.BatchRoundTrip(w, txs); }
    }
    forall txs, us | b.error(txs).None? && b.error(us).None? && |txs| == |us| && b.encode(txs) == b.encode(us)
      ensures b.normal(txs) == b.normal(us)
    {
      BatchCodec.BatchInjective(w, txs, us);
    }
  }
}

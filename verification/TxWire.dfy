/** The transaction codec as the batch codec sees it. */
module TxWire {
  import opened Wrappers
  import opened Bytes
  import opened Messages
  import opened BatchCodec
  import TxCodec
  import TxParser

  function Coder(text: TxCodec.Text): TxCoder {
    TxCoder((t: WireTx) => TxCodec.SerializeError(text, t),
            (t: WireTx) => if TxCodec.SerializeError(text, t).None? then TxCodec.Encode(text, t) else [],
            (b: Bytes) => TxParser.Parse(text, b),
            (t: WireTx) => TxCodec.Normalise(text, t))
  }

  /** The abstract law the batch codec asks for is the proved round trip of single transactions. */
  lemma CoderRoundTrips(text: TxCodec.Text)
    requires TxCodec.Lawful(text)
    ensures RoundTrips(Coder(text))
  {
    var w := Coder(text);
    forall t | w.error(t).None? ensures w.parse(w.encode(t)) == Parsed(w.normal(t)) {
      TxParser.RoundTrip(text, t);
    }
  }
}

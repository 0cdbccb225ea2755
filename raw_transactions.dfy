// Submission of a raw transaction: serialize it to its wire bytes, encode
// them as lower-case hex and hand the string to `SendRawTransactionCmd`.
// The wire serialization is a function parameter: what `Serialize` writes
// into the buffer together with the error it returns. The transport is a
// `Transport` object, so the contract can say which requests were sent.

module RawTransactions {
  import opened GoTypes
  import opened Encoding
  import opened RpcClient

  /**
   * A nil transaction is submitted as the empty string; a serialization
   * failure is returned at once with an empty string and nothing is sent;
   * otherwise the hex of the serialized bytes is submitted and the node's
   * answer is returned unchanged.
   */
  method SendRawTransaction<Tx>(
    node: Transport<string>, serialize: Tx -> Ret<seq<byte>>, tx: Option<Tx>, allowHighFees: bool)
    returns (r: Ret<string>)
    modifies node
    ensures tx.None? ==>
      && node.sent == old(node.sent) + [Request("getblock", [Str(""), Bool(allowHighFees)])]
      && r == SendRawTransactionCmd(node.answer, "", allowHighFees)
    ensures tx.Some? && serialize(tx.value).err.Some? ==>
      && node.sent == old(node.sent)
      && r == Ret("", serialize(tx.value).err)
    ensures tx.Some? && serialize(tx.value).err.None? ==>
      && node.sent == old(node.sent) + [Request("getblock", [Str(HexEncode(serialize(tx.value).value)), Bool(allowHighFees)])]
      && r == SendRawTransactionCmd(node.answer, HexEncode(serialize(tx.value).value), allowHighFees)
    ensures tx.Some? && serialize(tx.value).err.None? ==>
      exists txHex ::
        && node.sent == old(node.sent) + [Request("getblock", [Str(txHex), Bool(allowHighFees)])]
        && |txHex| == 2 * |serialize(tx.value).value|
        && (forall i :: 0 <= i < |txHex| ==> txHex[i] in HexDigits)
        && HexDecode(txHex) == Some(serialize(tx.value).value)
  {
    var txHex := "";
    if tx.Some? {
      var buf := serialize(tx.value);
      if buf.err.Some? {
        return Ret("", buf.err);
      }
      txHex := HexEncode(buf.value);
      HexRoundTrip(buf.value);
    }
    r := node.Call(Request("getblock", [Str(txHex), Bool(allowHighFees)]));
  }
}

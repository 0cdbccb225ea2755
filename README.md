# Zcash JSON-RPC adapter: a Dafny model

This project models the logic of a small Go client for a Zcash full node
(package `zcash` and its sub-package `rpcclient`):

- the classification of a decoded transaction as transparent, shielded or
  mixed, and the block-level counting of transactions with and without
  shielded descriptors (`Classifier`, from `rpc.go`);
- the conversion of a ZEC amount given as a float into whole zatoshi,
  rounding half away from zero and rejecting NaN and the infinities
  (`Amount`, from `amount.go`);
- the RPC client: construction of the client with its `http://` endpoint and
  its HTTP Basic `Authorization` header (section 2 of RFC 7617), the request
  each wrapper issues, which wrappers return the call's error and which
  swallow it, the mempool membership scan and the all-or-nothing parsing of
  the mempool's hash strings (`RpcClient`, from `rpcClient.go`);
- raw-transaction submission: nil transaction, serialization failure, and
  the lower-case hex encoding of the serialized bytes (`RawTransactions`,
  from `rawtransactions.go`).

Two supporting modules: `GoTypes` (nil-able values as `Option`, Go's
`(T, error)` pair as `Ret`, bytes) and `Encoding` (standard padded Base64,
section 4 of RFC 4648, and lower-case Base16, section 8 of RFC 4648, each
with a decoder and a proved round trip). The Base64 decoder rejects
non-zero pad bits (section 3.5 of RFC 4648), so the encoding is the only
string that decodes to given bytes.

How the source's environment appears in the model:

- The transport's `CallFor` is a function parameter `call: Request -> Ret<T>`.
  A `Request` is the remote method name and its positional parameters; the
  `Ret<T>` is what `CallFor` leaves in the target variable together with the
  error it returns. Each wrapper's contract therefore states the exact request
  it issues and what it does with the outcome.
- Decoded result records that carry no behaviour (`GetInfo`,
  `GetBlockchainInfo`, `GetNetworkInfo`, `Unspent`, `GetBlockVerboseResult`,
  ...) are type parameters of the wrappers.
- `SendRawTransaction` sends through a `Transport` object instead. The
  object answers with the same kind of function and records every request
  it is given. Its contract can therefore say when nothing is sent.
- `chainhash.NewHashFromStr` is a parameter `parse: string -> Ret<H>`, and
  `MsgTx.Serialize` a parameter `serialize: Tx -> Ret<seq<byte>>`.
- Go strings that are turned into bytes (host, user, passphrase, the URL and
  the header) are `seq<byte>`; other strings are Dafny `string`.
- A float64 is `Finite(r: real) | NaN | PosInf | NegInf`, the finite value
  taken exactly.

## Behaviour of the code as written

The model follows the code in each case:

- `IsTransparent` tests `VShieldedSpend` twice and never `VShieldedOutput`
  (`rpc.go:194-195`). A transaction with Sapling outputs can therefore be
  classified transparent (`TransparentWithShieldedOutput`), although the
  comment at `rpc.go:188-189` says a transparent transaction has no
  shielded addresses.
- `TransactionTypes` counts the transactions WITH a Sprout or Sapling
  descriptor in its first result `tTXs`. The comments at `rpc.go:154` and
  `rpc.go:160` call that bucket transparent and the other one shielded.
- The comments of the three predicates (`rpc.go:188-189`, `rpc.go:213-214`,
  `rpc.go:220-221`) name three kinds of transaction. The predicates as
  written are neither exclusive (`ShieldedAndMixedOverlap`) nor exhaustive
  (`SomeTransactionUnclassified`).
- `GetInfo`, `GetBlockchainInfo` and `ListUnspent` log the call's error and
  return nil with no error value. A failure is then indistinguishable from a
  null result (`GetInfoHidesFailure`).
- `SendRawTransactionCmd` sends its parameters under the method name
  `getblock`, not `sendrawtransaction` (`rpcClient.go:151`).
- `GetMempoolEntry` reports a transaction id missing from the mempool with a
  plain error value, as it does a transport failure. The two are told apart
  only by the message "unable to finc txhash in mempool"
  (`rpcClient.go:166`). Its contract states which occurs when.
- `GetRawMempool` passes the string `"true"` as its parameter, and
  `GetMempoolEntry` passes the transaction id itself as the `getrawmempool`
  parameter (`rpcClient.go:125`, `rpcClient.go:157`).

## Model

| member | source | states |
|---|---|---|
| `Classifier.TransparentInAndOut` | chain/zcash/rpcclient/rpc.go:182-186 | defined as written; true exactly when the transaction has some transparent input and some transparent output |
| `Classifier.IsTransparent` | chain/zcash/rpcclient/rpc.go:188-196 | defined as written, with the spend test made twice; a transparent transaction is transparent in and out and has no Sprout and no Sapling data |
| `Classifier.ContainsSprout` | chain/zcash/rpcclient/rpc.go:198-202 | defined as written; true exactly when there is some JoinSplit |
| `Classifier.ContainsSapling` | chain/zcash/rpcclient/rpc.go:204-211 | defined as written; true exactly when the value balance is non-zero and there is some Sapling spend or output |
| `Classifier.IsShielded` | chain/zcash/rpcclient/rpc.go:213-218 | defined as written; a shielded transaction carries a shielded descriptor and is not transparent |
| `Classifier.IsMixed` | chain/zcash/rpcclient/rpc.go:220-226 | defined as written; a mixed transaction carries a shielded descriptor and is not transparent |
| `Classifier.NumberofTransactions` | chain/zcash/rpcclient/rpc.go:148-150 | the number of transactions in the block equals the sum of the two buckets of `TransactionTypes` |
| `Classifier.IsCoinBase` | chain/zcash/rpcclient/rpc.go:236-239 | an input is a coinbase input exactly when its coinbase string is non-empty |
| `Classifier.TransparentExcludesOtherClasses` | chain/zcash/rpcclient/rpc.go:182-226 | a transparent transaction has transparent inputs and outputs, no Sprout and no Sapling data, and is neither shielded nor mixed |
| `Classifier.TransparentIgnoresShieldedOutputs` | chain/zcash/rpcclient/rpc.go:190-196 | replacing only the Sapling outputs never changes `IsTransparent` |
| `Classifier.TransparentWithShieldedOutput` | chain/zcash/rpcclient/rpc.go:190-196 | some transaction with a Sapling output is classified transparent |
| `Classifier.ZeroBalanceIsNotSapling` | chain/zcash/rpcclient/rpc.go:204-218 | with a zero value balance there is no Sapling data, whatever the descriptors hold, and shielded then means Sprout data without transparent in and out |
| `Classifier.NoTransparentPartIsNotMixed` | chain/zcash/rpcclient/rpc.go:213-226 | without transparent inputs and outputs a transaction is not mixed, and it is shielded exactly when it has Sprout or Sapling data |
| `Classifier.ShieldedAndMixed` | chain/zcash/rpcclient/rpc.go:213-226 | shielded and mixed hold together exactly when there is Sprout or Sapling data and exactly one of the inputs and outputs is non-empty |
| `Classifier.ShieldedAndMixedOverlap` | chain/zcash/rpcclient/rpc.go:198-226 | some transaction is both shielded and mixed |
| `Classifier.SomeTransactionUnclassified` | chain/zcash/rpcclient/rpc.go:182-226 | some transaction with a transparent input is neither transparent, shielded nor mixed |
| `Classifier.PlainTransferIsTransparent` | chain/zcash/rpcclient/rpc.go:182-226 | one transparent input and output and nothing shielded: transparent, not shielded, not mixed |
| `Classifier.SaplingOutputIsShielded` | chain/zcash/rpcclient/rpc.go:204-226 | no transparent part, a non-zero value balance and one Sapling output: shielded, not transparent, not mixed |
| `Classifier.JoinSplitWithTransparentIsMixed` | chain/zcash/rpcclient/rpc.go:198-226 | a transparent input and output plus one JoinSplit: mixed, not shielded, not transparent |
| `Classifier.WithDescriptors` | chain/zcash/rpcclient/rpc.go:153-162 | the number of transactions carrying a shielded descriptor is at most the number of transactions |
| `Classifier.WithoutDescriptors` | chain/zcash/rpcclient/rpc.go:153-162 | the number of transactions carrying no shielded descriptor is at most the number of transactions |
| `Classifier.BucketsPartition` | chain/zcash/rpcclient/rpc.go:152-165 | every transaction is counted in exactly one of the two buckets |
| `Classifier.WithDescriptorsAppend` | chain/zcash/rpcclient/rpc.go:153-162 | the descriptor count of a concatenation is the sum of the counts |
| `Classifier.WithDescriptorsZero` | chain/zcash/rpcclient/rpc.go:153-162 | the descriptor count is zero exactly when no transaction has a Sprout or Sapling descriptor |
| `Classifier.WithDescriptorsAll` | chain/zcash/rpcclient/rpc.go:153-162 | the descriptor count equals the number of transactions exactly when every transaction has a descriptor |
| `Classifier.ShieldedHasDescriptor` | chain/zcash/rpcclient/rpc.go:152-226 | a shielded or mixed transaction always falls in the first bucket of `TransactionTypes` |
| `Classifier.TransactionTypes` | chain/zcash/rpcclient/rpc.go:148-165 | the first result counts the transactions with a non-empty JoinSplit, Sapling output or Sapling spend sequence, the second all others, and together they equal `NumberofTransactions` |
| `Amount.Truncate` | chain/zcash/amount.go:18-23 | the float-to-integer conversion truncates toward zero: the result is within one below a non-negative input and within one above a negative input |
| `Amount.Round` | chain/zcash/amount.go:14-23 | the result is an integer nearest to `f`; a tie goes to the integer farther from zero |
| `Amount.NewAmount` | chain/zcash/amount.go:8-47 | NaN, +Inf and -Inf, and only they, give 0 with the error "invalid bitcoin amount"; every finite `f` succeeds with `round(f * 100000000)`, the zatoshi amount nearest to `f` ZEC, ties away from zero, with no bound check |
| `Amount.RoundUnique` | chain/zcash/amount.go:14-23 | any integer that is nearest to `f` with ties away from zero is `round(f)` |
| `Amount.RoundHalfAwayFromZero` | chain/zcash/amount.go:18-23 | `round(k + 0.5) == k + 1` and `round(-(k + 0.5)) == -(k + 1)` for natural `k` |
| `Amount.RoundOdd` | chain/zcash/amount.go:18-23 | `round(-f) == -round(f)` |
| `Amount.RoundMonotone` | chain/zcash/amount.go:18-23 | `f <= g` implies `round(f) <= round(g)` |
| `Amount.RoundInteger` | chain/zcash/amount.go:18-23 | an integer-valued input is returned unchanged |
| `Amount.NewAmountWholeZec` | chain/zcash/amount.go:34-47 | `n` whole ZEC convert to exactly `n * 100000000` zatoshi with no error |
| `Amount.NewAmountExample` | chain/zcash/amount.go:34-47 | 1.23456789 ZEC convert to 123456789 zatoshi |
| `Encoding.Base64Encode` | chain/zcash/rpcclient/rpcClient.go:45 | standard Base64 output has four characters per started group of three bytes |
| `Encoding.Base64RoundTrip` | chain/zcash/rpcclient/rpcClient.go:45 | decoding the Base64 encoding gives the original bytes back |
| `Encoding.Base64Canonical` | chain/zcash/rpcclient/rpcClient.go:45 | every string the decoder accepts is the encoding of the bytes it decodes to; the decoder rejects non-zero pad bits |
| `Encoding.Base64EncodingUnique` | chain/zcash/rpcclient/rpcClient.go:45 | the encoding of `b` is the only string that decodes to `b`, so the round trip fixes the encoding character by character |
| `Encoding.HexEncode` | chain/zcash/rpcclient/rawtransactions.go:18 | the hex string has two lower-case digits per byte |
| `Encoding.HexRoundTrip` | chain/zcash/rpcclient/rawtransactions.go:18 | decoding the hex encoding gives the original bytes back |
| `RpcClient.New` | chain/zcash/rpcclient/rpcClient.go:44-53 | returns no error for any configuration; keeps the configuration; the endpoint is `http://` followed by the host; the only header is `Authorization`, whose value is `Basic ` followed by Base64 text that decodes to user, `:`, passphrase |
| `RpcClient.NewHeaderIsStdEncoding` | chain/zcash/rpcclient/rpcClient.go:45-49 | the text after `Basic ` is exactly the standard Base64 encoding of user, `:`, passphrase, proved from `New`'s contract and the uniqueness of the encoding |
| `RpcClient.SplitJoinedCredentials` | chain/zcash/rpcclient/rpcClient.go:45 | splitting `user ":" pass` at the first colon gives user and passphrase back when the user name has no colon |
| `RpcClient.NewCredentialsRecoverable` | chain/zcash/rpcclient/rpcClient.go:44-53 | a server that decodes the header and splits it at the first colon recovers the configured user and passphrase |
| `RpcClient.GetInfo` | chain/zcash/rpcclient/rpcClient.go:55-62 | issues `getinfo` without parameters; a failed call gives nil and no error value, a successful one its decoded result |
| `RpcClient.GetBlockchainInfo` | chain/zcash/rpcclient/rpcClient.go:64-71 | issues `getblockchaininfo` without parameters; a failed call gives nil and no error value |
| `RpcClient.ListUnspent` | chain/zcash/rpcclient/rpcClient.go:93-101 | issues `listunspent` without parameters; a failed call gives a nil slice and no error value |
| `RpcClient.GetInfoHidesFailure` | chain/zcash/rpcclient/rpcClient.go:55-62 | a failed `getinfo` gives the same result as one that succeeded with a null result |
| `RpcClient.GetNetworkInfo` | chain/zcash/rpcclient/rpcClient.go:85-91 | issues `getnetworkinfo`; returns the call's error unchanged, with nil on failure and the decoded result on success |
| `RpcClient.ListUnspentMinMaxAddresses` | chain/zcash/rpcclient/rpcClient.go:103-109 | issues `listunspent(minconf, maxconf, addresses)`; returns the call's error unchanged, with a nil slice on failure |
| `RpcClient.GetBlockCount` | chain/zcash/rpcclient/rpcClient.go:73-77 | issues `getblockcount` without parameters and returns the call's value and error as they are |
| `RpcClient.GetBlockHash` | chain/zcash/rpcclient/rpcClient.go:79-83 | issues `getblockhash(height)` and returns the call's value and error as they are |
| `RpcClient.GetRawTransaction` | chain/zcash/rpcclient/rpcClient.go:111-115 | issues `getrawtransaction(txid)` and returns the call's value and error as they are |
| `RpcClient.GetRawTransactionVerbose` | chain/zcash/rpcclient/rpcClient.go:117-121 | issues `getrawtransaction(txid, 1)` and returns the call's value and error as they are |
| `RpcClient.GetBlockVerboseTx` | chain/zcash/rpcclient/rpcClient.go:143-147 | issues `getblock(hash, 2)` and returns the call's value and error as they are |
| `RpcClient.SendRawTransactionCmd` | chain/zcash/rpcclient/rpcClient.go:149-153 | issues method `getblock` with `[hexstring, allowhighfees]` and returns the call's value and error as they are |
| `RpcClient.GetBestBlockHash` | chain/zcash/rpcclient/rpcClient.go:169-173 | issues `getbestblockhash` without parameters and returns the call's value and error as they are |
| `RpcClient.FirstFailureExists` | chain/zcash/rpcclient/rpcClient.go:132-138 | when some hash string fails to parse, a first failing one exists |
| `RpcClient.FirstFailureUnique` | chain/zcash/rpcclient/rpcClient.go:132-138 | the first failing hash string is unique, so the error returned is determined |
| `RpcClient.GetRawMempool` | chain/zcash/rpcclient/rpcClient.go:123-141 | issues `getrawmempool("true")`; on call failure nil and that error; if every string parses, exactly one hash per string in the same order and no error; otherwise nil and the error of the first string that fails, so no partial list escapes |
| `RpcClient.GetMempoolEntry` | chain/zcash/rpcclient/rpcClient.go:155-167 | issues `getrawmempool(txID)`; on call failure nil and that error; otherwise a pointer to `txID` with no error exactly when `txID` is in the returned list, and nil with the not-found error when it is not, the empty list included |
| `RawTransactions.SendRawTransaction` | chain/zcash/rpcclient/rawtransactions.go:10-21 | a nil transaction submits the empty string with no prior error; a serialization failure returns an empty string and that error, and the transport's record of sent requests is unchanged; otherwise exactly one `getblock` request is added to that record, and it submits the lower-case hex of the serialized bytes (two digits per byte, decoding back to them), forwards `allowHighFees`, and returns the submission's result unchanged |

## Left out

- The JSON-RPC transport, HTTP and JSON decoding: `CallFor` is the `call` parameter, so connection failures, authentication rejections and decoding errors all appear only as its error value.
- The `rpcClient` handle inside `Client`: it is represented by the endpoint and headers `New` gives it, and the wrappers take the `call` parameter, or `SendRawTransaction` a `Transport`, instead of a client value.
- Logging by `GetInfo`, `GetBlockchainInfo` and `ListUnspent`: a side effect with no influence on results.
- Amount.NewAmount: the product `f * 100000000` is computed exactly over reals, so the float64 rounding of that product is not modelled.
- Amount.Round: returns an unbounded integer, so Go's implementation-defined conversion of floats outside the int64 range is not modelled and no overflow claim is made.
- Amount.Round: `f - 0.5` and `f + 0.5` are computed exactly over reals, not as float64 additions. Go's float64 addition can round the sum and change the result: Go gives `round(0.49999999999999994) == 1`, where the model gives 0, and `round(2^52 + 1) == 2^52 + 2`, where the model's `RoundInteger` gives `2^52 + 1`. The claims about `Round` hold for exact real arithmetic only.
- RpcClient.New: takes the configuration by value. A nil `*ConnConfig` makes Go's `New` panic when it dereferences the pointer. The Go `Client` keeps the caller's pointer, so later changes to the configuration are visible through it. Neither the panic nor this sharing is modelled.
- The float fields of transactions, outputs and JoinSplits are reals that nothing reads except the zero test on the value balance.
- The contents of Sapling descriptors and JoinSplits: only the lengths of their sequences are read.
- `chainhash.NewHashFromStr` and `MsgTx.Serialize`/`SerializeSize`: abstract parameters. Serialization is modelled as returning the bytes it writes, not as filling a `bytes.Buffer` in place.
- Go's distinction between a nil and an empty input slice: a list returned by the node is a sequence, with nil read as empty. Nil result slices are modelled (`None`).
- Records without behaviour (`GetBlockchainInfo`, `GetNetworkInfo`, `PeerInfo`, `ChainTip`, `ValuePool`, `TXOutSetInfo`, `GetBlockVerboseResult`, `ScriptPubKeyResult` and the like): type parameters or left out. The unused `zcashConf`, the empty `RawMemPool` and the commented-out `Unspent` are left out.
- Concurrent use of one `Client`: the source makes no claim about it.

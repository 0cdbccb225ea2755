// The JSON-RPC client: its construction from a connection configuration and
// the typed wrappers around the node's remote procedures. The transport's
// `CallFor` is a function parameter `call` that maps the request a wrapper
// issues (method name and positional parameters) to what `CallFor` leaves in
// the target variable together with the error it returns.

module RpcClient {
  import opened GoTypes
  import opened Encoding

  // ---------------------------------------------------------------------
  // Connection configuration and construction
  // ---------------------------------------------------------------------

  /** Host, user and passphrase; Go strings, hence byte sequences. */
  datatype ConnConfig = ConnConfig(host: seq<byte>, user: seq<byte>, pass: seq<byte>)

  /** A client: its configuration, the URL it posts to and the headers it sends. */
  datatype Client = Client(config: ConnConfig, endpoint: seq<byte>, headers: map<seq<byte>, seq<byte>>)

  /** The byte `:` that separates user and passphrase. */
  const Colon: byte := 58

  /** The ASCII bytes of `http://`. */
  const HttpScheme: seq<byte> := [104, 116, 116, 112, 58, 47, 47]

  /** The ASCII bytes of `Authorization`. */
  const AuthorizationHeader: seq<byte> := [65, 117, 116, 104, 111, 114, 105, 122, 97, 116, 105, 111, 110]

  /** The ASCII bytes of `Basic `, the scheme prefix of the header value. */
  const BasicScheme: seq<byte> := [66, 97, 115, 105, 99, 32]

  /**
   * Builds a client for `http://` + host whose every request carries the
   * header `Authorization: Basic <Base64(user ":" pass)>`. Returns no error.
   */
  function New(config: ConnConfig): (r: Ret<Client>)
    ensures r.err == None
    ensures r.value.config == config
    ensures r.value.endpoint == HttpScheme + config.host
    ensures r.value.headers.Keys == {AuthorizationHeader}
    ensures var auth := r.value.headers[AuthorizationHeader];
      && |auth| >= 6 && auth[..6] == BasicScheme
      && Base64Decode(auth[6..]) == Some(config.user + [Colon] + config.pass)
  {
    var basicAuth := Base64Encode(config.user + [Colon] + config.pass);
    Base64RoundTrip(config.user + [Colon] + config.pass);
    var auth := BasicScheme + basicAuth;
    assert auth[6..] == basicAuth;
    Ret(Client(config, HttpScheme + config.host, map[AuthorizationHeader := auth]), None)
  }

  /** How a server splits decoded Basic credentials: at the first colon. */
  function SplitCredentials(s: seq<byte>): (r: (seq<byte>, seq<byte>))
    ensures Colon !in r.0
  {
    if s == [] then ([], [])
    else if s[0] == Colon then ([], s[1..])
    else
      var (user, pass) := SplitCredentials(s[1..]);
      ([s[0]] + user, pass)
  }

  /** Splitting `user ":" pass` gives both parts back when the user name has no colon. */
  lemma {:induction false} SplitJoinedCredentials(user: seq<byte>, pass: seq<byte>)
    requires Colon !in user
    ensures SplitCredentials(user + [Colon] + pass) == (user, pass)
  {
    if user != [] {
      assert (user + [Colon] + pass)[1..] == user[1..] + [Colon] + pass;
      SplitJoinedCredentials(user[1..], pass);
      assert user == [user[0]] + user[1..];
    }
  }

  /** The server recovers the configured credentials from the header `New` builds. */
  lemma NewCredentialsRecoverable(config: ConnConfig)
    requires Colon !in config.user
    ensures var auth := New(config).value.headers[AuthorizationHeader];
      SplitCredentials(Base64Decode(auth[6..]).value) == (config.user, config.pass)
  {
    SplitJoinedCredentials(config.user, config.pass);
  }

  /** The header carries exactly the text Go's `base64.StdEncoding` produces, no other spelling. */
  lemma NewHeaderIsStdEncoding(config: ConnConfig)
    ensures New(config).value.headers[AuthorizationHeader][6..] == Base64Encode(config.user + [Colon] + config.pass)
  {
    var auth := New(config).value.headers[AuthorizationHeader];
    Base64EncodingUnique(auth[6..], config.user + [Colon] + config.pass);
  }

  // ---------------------------------------------------------------------
  // Requests
  // ---------------------------------------------------------------------

  /** A positional JSON-RPC parameter. */
  datatype Param = Str(s: string) | Int(i: int) | Bool(b: bool) | Strs(ss: seq<string>)

  /** A remote call: the method name and its positional parameters. */
  datatype Request = Request(name: string, params: seq<Param>)

  /**
   * The transport as an object, for operations whose contract must say
   * whether a request was sent at all: it answers each request with
   * `answer` and records every request it is given, in order.
   */
  class Transport<T> {
    const answer: Request -> Ret<T>
    var sent: seq<Request>

    constructor(answer: Request -> Ret<T>)
      ensures this.answer == answer && sent == []
    {
      this.answer := answer;
      sent := [];
    }

    /** `CallFor`: one request sent, answered by `answer`. */
    method Call(req: Request) returns (r: Ret<T>)
      modifies this
      ensures r == answer(req)
      ensures sent == old(sent) + [req]
    {
      r := answer(req);
      sent := sent + [req];
    }
  }

  /** The error `GetMempoolEntry` returns when the id is not in the returned list. */
  const NotInMempool := Error("unable to finc txhash in mempool")

  // ---------------------------------------------------------------------
  // Wrappers that swallow the call's error (log it and return nil)
  // ---------------------------------------------------------------------

  /** `getinfo`; a failed call yields nil, with no error value. */
  function GetInfo<R>(call: Request -> Ret<Option<R>>): (r: Option<R>)
    ensures call(Request("getinfo", [])).err.Some? ==> r == None
    ensures call(Request("getinfo", [])).err.None? ==> r == call(Request("getinfo", [])).value
  {
    var got := call(Request("getinfo", []));
    if got.err.Some? then None else got.value
  }

  /** `getblockchaininfo`; a failed call yields nil, with no error value. */
  function GetBlockchainInfo<R>(call: Request -> Ret<Option<R>>): (r: Option<R>)
    ensures call(Request("getblockchaininfo", [])).err.Some? ==> r == None
    ensures call(Request("getblockchaininfo", [])).err.None? ==> r == call(Request("getblockchaininfo", [])).value
  {
    var got := call(Request("getblockchaininfo", []));
    if got.err.Some? then None else got.value
  }

  /** `listunspent` without parameters; a failed call yields a nil slice, with no error value. */
  function ListUnspent<U>(call: Request -> Ret<Option<seq<U>>>): (r: Option<seq<U>>)
    ensures call(Request("listunspent", [])).err.Some? ==> r == None
    ensures call(Request("listunspent", [])).err.None? ==> r == call(Request("listunspent", [])).value
  {
    var got := call(Request("listunspent", []));
    if got.err.Some? then None else got.value
  }

  /** A failed `getinfo` is indistinguishable from one that succeeded with a null result. */
  lemma GetInfoHidesFailure<R>(failing: Request -> Ret<Option<R>>, empty: Request -> Ret<Option<R>>)
    requires failing(Request("getinfo", [])).err.Some?
    requires empty(Request("getinfo", [])) == Ret(None, None)
    ensures GetInfo(failing) == GetInfo(empty) == None
  {
  }

  // ---------------------------------------------------------------------
  // Wrappers that return nil together with the call's error
  // ---------------------------------------------------------------------

  /** `getnetworkinfo`; on failure nil and the call's error, otherwise the result and no error. */
  function GetNetworkInfo<R>(call: Request -> Ret<Option<R>>): (r: Ret<Option<R>>)
    ensures r.err == call(Request("getnetworkinfo", [])).err
    ensures r.value == if r.err.Some? then None else call(Request("getnetworkinfo", [])).value
  {
    var got := call(Request("getnetworkinfo", []));
    if got.err.Some? then Ret(None, got.err) else Ret(got.value, None)
  }

  /** `listunspent(minconf, maxconf, addresses)`; on failure a nil slice and the call's error. */
  function ListUnspentMinMaxAddresses<U>(
    call: Request -> Ret<Option<seq<U>>>, minconf: int, maxconf: int, addresses: seq<string>): (r: Ret<Option<seq<U>>>)
    ensures var got := call(Request("listunspent", [Int(minconf), Int(maxconf), Strs(addresses)]));
      r.err == got.err && r.value == if r.err.Some? then None else got.value
  {
    var got := call(Request("listunspent", [Int(minconf), Int(maxconf), Strs(addresses)]));
    if got.err.Some? then Ret(None, got.err) else Ret(got.value, None)
  }

  // ---------------------------------------------------------------------
  // Wrappers that hand back the call's (value, error) pair unchanged
  // ---------------------------------------------------------------------

  /** `getblockcount`. */
  function GetBlockCount(call: Request -> Ret<int>): (r: Ret<int>)
    ensures r == call(Request("getblockcount", []))
  {
    call(Request("getblockcount", []))
  }

  /** `getblockhash(height)`. */
  function GetBlockHash(call: Request -> Ret<string>, height: int): (r: Ret<string>)
    ensures r == call(Request("getblockhash", [Int(height)]))
  {
    call(Request("getblockhash", [Int(height)]))
  }

  /** `getrawtransaction(txid)`: the hex form. */
  function GetRawTransaction(call: Request -> Ret<string>, txid: string): (r: Ret<string>)
    ensures r == call(Request("getrawtransaction", [Str(txid)]))
  {
    call(Request("getrawtransaction", [Str(txid)]))
  }

  /** `getrawtransaction(txid, 1)`: the decoded form. */
  function GetRawTransactionVerbose<T>(call: Request -> Ret<Option<T>>, txid: string): (r: Ret<Option<T>>)
    ensures r == call(Request("getrawtransaction", [Str(txid), Int(1)]))
  {
    call(Request("getrawtransaction", [Str(txid), Int(1)]))
  }

  /** `getblock(hash, 2)`: the block with its transactions decoded. */
  function GetBlockVerboseTx<B>(call: Request -> Ret<Option<B>>, hash: string): (r: Ret<Option<B>>)
    ensures r == call(Request("getblock", [Str(hash), Int(2)]))
  {
    call(Request("getblock", [Str(hash), Int(2)]))
  }

  /** Submits a hex-encoded transaction; as written, under the method name `getblock`. */
  function SendRawTransactionCmd(call: Request -> Ret<string>, hexstring: string, allowhighfees: bool): (r: Ret<string>)
    ensures r == call(Request("getblock", [Str(hexstring), Bool(allowhighfees)]))
  {
    call(Request("getblock", [Str(hexstring), Bool(allowhighfees)]))
  }

  /** `getbestblockhash`. */
  function GetBestBlockHash(call: Request -> Ret<string>): (r: Ret<string>)
    ensures r == call(Request("getbestblockhash", []))
  {
    call(Request("getbestblockhash", []))
  }

  // ---------------------------------------------------------------------
  // Wrappers with logic of their own
  // ---------------------------------------------------------------------

  /** Every string in `strs` parses. */
  predicate AllParse<H>(strs: seq<string>, parse: string -> Ret<H>)
  {
    forall k :: 0 <= k < |strs| ==> parse(strs[k]).err.None?
  }

  /** `strs[k]` is the first string that fails to parse. */
  predicate IsFirstFailure<H>(strs: seq<string>, parse: string -> Ret<H>, k: int)
  {
    && 0 <= k < |strs|
    && parse(strs[k]).err.Some?
    && forall j :: 0 <= j < k ==> parse(strs[j]).err.None?
  }

  /** When some string fails to parse, there is a first one. */
  lemma {:induction false} FirstFailureExists<H>(strs: seq<string>, parse: string -> Ret<H>)
    requires !AllParse(strs, parse)
    ensures exists k :: IsFirstFailure(strs, parse, k)
  {
    var n := |strs| - 1;
    if parse(strs[0]).err.Some? {
      assert IsFirstFailure(strs, parse, 0);
    } else {
      var rest := strs[1..];
      assert !AllParse(rest, parse) by {
        var k :| 0 <= k < |strs| && parse(strs[k]).err.Some?;
        assert rest[k - 1] == strs[k];
      }
      FirstFailureExists(rest, parse);
      var k :| IsFirstFailure(rest, parse, k);
      assert forall j :: 1 <= j <= k ==> rest[j - 1] == strs[j];
      assert IsFirstFailure(strs, parse, k + 1);
    }
  }

  /** The first failing string is unique, so the error it yields is determined. */
  lemma FirstFailureUnique<H>(strs: seq<string>, parse: string -> Ret<H>, k: int, m: int)
    requires IsFirstFailure(strs, parse, k) && IsFirstFailure(strs, parse, m)
    ensures k == m
  {
  }

  /**
   * `getrawmempool("true")`, then every returned string is parsed into a hash.
   * All or nothing: one hash per string, in order, or nil and the error of
   * the first string that fails to parse.
   */
  method GetRawMempool<H>(call: Request -> Ret<seq<string>>, parse: string -> Ret<H>)
    returns (r: Ret<Option<seq<H>>>)
    ensures var got := call(Request("getrawmempool", [Str("true")]));
      && (got.err.Some? ==> r == Ret(None, got.err))
      && (got.err.None? && AllParse(got.value, parse) ==>
            && r.err == None && r.value.Some? && |r.value.value| == |got.value|
            && forall k :: 0 <= k < |got.value| ==> r.value.value[k] == parse(got.value[k]).value)
      && (got.err.None? && !AllParse(got.value, parse) ==>
            r.value == None && exists k :: IsFirstFailure(got.value, parse, k) && r.err == parse(got.value[k]).err)
  {
    var got := call(Request("getrawmempool", [Str("true")]));
    if got.err.Some? {
      return Ret(None, got.err);
    }
    var txHashStrs := got.value;
    var txHashes: seq<H> := [];
    var i := 0;
    while i < |txHashStrs|
      invariant 0 <= i <= |txHashStrs|
      invariant |txHashes| == i
      invariant forall k :: 0 <= k < i ==> parse(txHashStrs[k]).err.None? && txHashes[k] == parse(txHashStrs[k]).value
    {
      var txHash := parse(txHashStrs[i]);
      if txHash.err.Some? {
        assert IsFirstFailure(txHashStrs, parse, i);
        return Ret(None, txHash.err);
      }
      txHashes := txHashes + [txHash.value];
      i := i + 1;
    }
    return Ret(Some(txHashes), None);
  }

  /**
   * `getrawmempool(txID)`, then a scan of the returned list: a pointer to
   * `txID` when it is listed, nil and a not-found error when it is not, nil
   * and the call's error when the call fails.
   */
  method GetMempoolEntry(call: Request -> Ret<seq<string>>, txID: string) returns (r: Ret<Option<string>>)
    ensures var got := call(Request("getrawmempool", [Str(txID)]));
      && (got.err.Some? ==> r == Ret(None, got.err))
      && (got.err.None? && txID in got.value ==> r == Ret(Some(txID), None))
      && (got.err.None? && txID !in got.value ==> r == Ret(None, Some(NotInMempool)))
  {
    var got := call(Request("getrawmempool", [Str(txID)]));
    if got.err.Some? {
      return Ret(None, got.err);
    }
    var result := got.value;
    var i := 0;
    while i < |result|
      invariant 0 <= i <= |result|
      invariant txID !in result[..i]
    {
      if result[i] == txID {
        return Ret(Some(txID), None);
      }
      assert result[..i + 1] == result[..i] + [result[i]];
      i := i + 1;
    }
    assert result[..i] == result;
    return Ret(None, Some(NotInMempool));
  }
}

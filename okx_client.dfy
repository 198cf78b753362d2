/**
 * Request preparation and result dispatch of `OKXClient`.
 *
 * HMAC-SHA256 followed by base64 (`Mac`), `json.dumps` (`Encoder`), the HTTP
 * transport together with `response.json()` (`Transport`) and the wall clock
 * (the formatted reading `now`) are parameters: the model states what the
 * client does with them, not how they work.
 */
module OkxClient {
  import opened Wrappers

  /** A decoded JSON value. */
  datatype Json =
    | JNull
    | JStr(str: string)
    | JInt(num: int)
    | JArr(items: seq<Json>)
    | JObj(fields: map<string, Json>)

  /** A JSON object, as a Python `dict`. */
  type Dict = map<string, Json>

  /** The settings read once by the constructor and never changed afterwards. */
  datatype Client = Client(baseUrl: string, apiKey: string, secretKey: string, passphrase: string, debug: bool)

  /** What is handed to the transport. */
  datatype HttpCall =
    | HttpGet(url: string, headers: map<string, string>, query: Option<Dict>)
    | HttpPost(url: string, headers: map<string, string>, data: string)
    | HttpDelete(url: string, headers: map<string, string>, data: string)

  /** base64(HMAC-SHA256(key, message)). */
  type Mac = (string, string) -> string
  /** `json.dumps`. */
  type Encoder = Json -> string
  /** Sending a call and decoding its response; `Failure` carries the message of the exception raised. */
  type Transport = HttpCall -> Result<Dict, string>

  const UnsupportedMethod: string := "Unsupported HTTP method"
  const PositionsPath: string := "/api/v5/account/positions"
  const GridOrdersPath: string := "/api/v5/tradingBot/grid/order-algo"

  const KeyHeader: string := "OK-ACCESS-KEY"
  const SignHeader: string := "OK-ACCESS-SIGN"
  const TimestampHeader: string := "OK-ACCESS-TIMESTAMP"
  const PassphraseHeader: string := "OK-ACCESS-PASSPHRASE"
  const ContentTypeHeader: string := "Content-Type"
  const JsonContentType: string := "application/json"

  // ---------------------------------------------------------------------------
  // Upper-casing of the HTTP method

  function UpperChar(c: char): char {
    if 'a' <= c <= 'z' then (c as int - 32) as char else c
  }

  /** `str.upper()` on ASCII letters. */
  function Upper(s: string): (r: string)
    ensures |r| == |s|
    ensures forall k :: 0 <= k < |s| ==> r[k] == UpperChar(s[k])
  {
    if s == [] then [] else [UpperChar(s[0])] + Upper(s[1..])
  }

  /** Upper-casing twice is upper-casing once. */
  lemma UpperIdempotent(s: string)
    ensures Upper(Upper(s)) == Upper(s)
  {
    assert forall k :: 0 <= k < |s| ==> UpperChar(UpperChar(s[k])) == UpperChar(s[k]);
  }

  // ---------------------------------------------------------------------------
  // Timestamps

  predicate IsDigit(c: char) {
    '0' <= c <= '9'
  }

  predicate DigitsIn(s: string, lo: nat, hi: nat)
    requires lo <= hi <= |s|
  {
    forall k :: lo <= k < hi ==> IsDigit(s[k])
  }

  /** `YYYY-MM-DDTHH:MM:SS.` in the first 20 characters. */
  predicate DateTimePrefix(s: string)
    requires |s| >= 20
  {
    && DigitsIn(s, 0, 4) && s[4] == '-' && DigitsIn(s, 5, 7) && s[7] == '-' && DigitsIn(s, 8, 10)
    && s[10] == 'T' && DigitsIn(s, 11, 13) && s[13] == ':' && DigitsIn(s, 14, 16) && s[16] == ':'
    && DigitsIn(s, 17, 19) && s[19] == '.'
  }

  /** What `strftime('%Y-%m-%dT%H:%M:%S.%f')` produces for a four-digit year: six fractional digits. */
  predicate IsMicrosStamp(s: string) {
    |s| == 26 && DateTimePrefix(s) && DigitsIn(s, 20, 26)
  }

  /** The timestamp format the exchange expects: `YYYY-MM-DDTHH:MM:SS.mmmZ`. */
  predicate IsMillisStamp(s: string) {
    |s| == 24 && DateTimePrefix(s) && DigitsIn(s, 20, 23) && s[23] == 'Z'
  }

  /**
   * `get_timestamp` given the formatted clock reading: drop the last three
   * characters (Python's `[:-3]`, which yields "" on shorter strings) and
   * append `Z`.
   */
  function Timestamp(formatted: string): (ts: string)
    ensures |ts| == if |formatted| >= 3 then |formatted| - 2 else 1
    ensures ts[|ts| - 1] == 'Z'
    ensures forall k :: 0 <= k < |ts| - 1 ==> ts[k] == formatted[k]
  {
    (if |formatted| >= 3 then formatted[..|formatted| - 3] else "") + "Z"
  }

  /**
   * A microsecond reading becomes a millisecond timestamp by truncation: three
   * fractional digits, a trailing `Z`, length 24, and the first 23 characters
   * unchanged.
   */
  lemma TimestampShape(formatted: string)
    requires IsMicrosStamp(formatted)
    ensures IsMillisStamp(Timestamp(formatted))
    ensures Timestamp(formatted)[..23] == formatted[..23]
  {
    var ts := Timestamp(formatted);
    assert forall k :: 0 <= k < 23 ==> ts[k] == formatted[k];
  }

  // ---------------------------------------------------------------------------
  // Signing and headers

  /** The signed message: timestamp, upper-cased method, request path and body, in that order. */
  function PreImage(timestamp: string, httpMethod: string, requestPath: string, body: string): string {
    timestamp + Upper(httpMethod) + requestPath + body
  }

  /** `sign`: the MAC of the pre-image under the secret key. */
  function Sign(mac: Mac, secret: string, timestamp: string, httpMethod: string, requestPath: string, body: string): string {
    mac(secret, PreImage(timestamp, httpMethod, requestPath, body))
  }

  /** The pre-image is laid out as timestamp, then `Upper(method)`, then the path, then the body. */
  lemma PreImageLayout(timestamp: string, httpMethod: string, requestPath: string, body: string)
    ensures var m := PreImage(timestamp, httpMethod, requestPath, body);
      var i, j, k := |timestamp|, |timestamp| + |httpMethod|, |timestamp| + |httpMethod| + |requestPath|;
      && |m| == k + |body|
      && m[..i] == timestamp && m[i..j] == Upper(httpMethod) && m[j..k] == requestPath && m[k..] == body
  {
  }

  /** The signature depends on the method only through its upper-cased form. */
  lemma SignIgnoresMethodCase(mac: Mac, secret: string, timestamp: string, m1: string, m2: string,
                              requestPath: string, body: string)
    requires Upper(m1) == Upper(m2)
    ensures Sign(mac, secret, timestamp, m1, requestPath, body) == Sign(mac, secret, timestamp, m2, requestPath, body)
  {
  }

  /**
   * Two well-formed timestamps that yield the same pre-image are equal: the
   * signed message fixes the timestamp it was made with.
   */
  lemma PreImageFixesTimestamp(t1: string, m1: string, p1: string, b1: string,
                               t2: string, m2: string, p2: string, b2: string)
    requires IsMillisStamp(t1) && IsMillisStamp(t2)
    requires PreImage(t1, m1, p1, b1) == PreImage(t2, m2, p2, b2)
    ensures t1 == t2
  {
    PreImageLayout(t1, m1, p1, b1);
    PreImageLayout(t2, m2, p2, b2);
  }

  /**
   * `headers`: one timestamp, read once, is both signed and sent; the five
   * fixed keys and nothing else.
   */
  function Headers(client: Client, mac: Mac, now: string, httpMethod: string, requestPath: string, body: string)
    : (h: map<string, string>)
    ensures h.Keys == {KeyHeader, SignHeader, TimestampHeader, PassphraseHeader, ContentTypeHeader}
    ensures h[TimestampHeader] == Timestamp(now)
    ensures h[SignHeader] == Sign(mac, client.secretKey, h[TimestampHeader], httpMethod, requestPath, body)
    ensures h[KeyHeader] == client.apiKey && h[PassphraseHeader] == client.passphrase
    ensures h[ContentTypeHeader] == JsonContentType
  {
    var timestamp := Timestamp(now);
    var signature := Sign(mac, client.secretKey, timestamp, httpMethod, requestPath, body);
    map[KeyHeader := client.apiKey, SignHeader := signature, TimestampHeader := timestamp,
        PassphraseHeader := client.passphrase, ContentTypeHeader := JsonContentType]
  }

  /**
   * What the signature of a request covers: the client's key and passphrase
   * are sent, the timestamp is well formed, and the signature is the MAC of
   * the timestamp, the method, the bare endpoint and the body. The query
   * string of a GET is not part of `requestPath` here (see
   * `GetSignatureIgnoresParams`).
   */
  predicate SignedOverEndpoint(mac: Mac, client: Client, h: map<string, string>, httpMethod: string,
                               requestPath: string, body: string)
  {
    && KeyHeader in h && SignHeader in h && TimestampHeader in h && PassphraseHeader in h
    && h[KeyHeader] == client.apiKey && h[PassphraseHeader] == client.passphrase
    && IsMillisStamp(h[TimestampHeader])
    && h[SignHeader] == mac(client.secretKey, h[TimestampHeader] + Upper(httpMethod) + requestPath + body)
  }

  /** Headers built from a well-formed clock reading carry a well-formed timestamp and a signature over it. */
  lemma HeadersSigned(client: Client, mac: Mac, now: string, httpMethod: string, requestPath: string, body: string)
    requires IsMicrosStamp(now)
    ensures SignedOverEndpoint(mac, client, Headers(client, mac, now, httpMethod, requestPath, body), httpMethod,
                               requestPath, body)
  {
    TimestampShape(now);
  }

  // ---------------------------------------------------------------------------
  // Requests

  /** The `params` argument as the JSON value `json.dumps` receives (`None` is `null`). */
  function ParamsJson(params: Option<Dict>): Json {
    match params
    case Some(d) => JObj(d)
    case None => JNull
  }

  /** The body: the JSON of `params` for POST and PUT, empty for every other method. */
  function RequestBody(encode: Encoder, httpMethod: string, params: Option<Dict>): (body: string)
    ensures Upper(httpMethod) in {"POST", "PUT"} ==> body == encode(ParamsJson(params))
    ensures body != "" ==> Upper(httpMethod) in {"POST", "PUT"}
  {
    var verb := Upper(httpMethod);
    if verb == "POST" || verb == "PUT" then encode(ParamsJson(params)) else ""
  }

  predicate Supported(httpMethod: string) {
    var verb := Upper(httpMethod);
    verb == "GET" || verb == "POST" || verb == "DELETE"
  }

  /** The body a call carries on the wire (a GET sends none). */
  function SentBody(call: HttpCall): string {
    match call
    case HttpGet(_, _, _) => ""
    case HttpPost(_, _, data) => data
    case HttpDelete(_, _, data) => data
  }

  /**
   * The call `request` hands to the transport, or `None` when the method is
   * not GET, POST or DELETE and `ValueError` is raised before anything is sent.
   */
  function Dispatch(client: Client, mac: Mac, encode: Encoder, now: string, httpMethod: string, endpoint: string,
                    params: Option<Dict>): (call: Option<HttpCall>)
    ensures call.Some? <==> Supported(httpMethod)
    ensures call.Some? ==> call.value.url == client.baseUrl + endpoint
    ensures call.Some? ==> call.value.headers == Headers(client, mac, now, httpMethod, endpoint, SentBody(call.value))
    ensures call.Some? ==> (call.value.HttpGet? <==> Upper(httpMethod) == "GET")
    ensures call.Some? ==> (call.value.HttpPost? <==> Upper(httpMethod) == "POST")
    ensures call.Some? && call.value.HttpGet? ==> call.value.query == params
    ensures call.Some? && call.value.HttpPost? ==> call.value.data == encode(ParamsJson(params))
    ensures call.Some? && call.value.HttpDelete? ==> call.value.data == ""
  {
    var url := client.baseUrl + endpoint;
    var body := RequestBody(encode, httpMethod, params);
    var headers := Headers(client, mac, now, httpMethod, endpoint, body);
    var verb := Upper(httpMethod);
    if verb == "GET" then Some(HttpGet(url, headers, params))
    else if verb == "POST" then Some(HttpPost(url, headers, body))
    else if verb == "DELETE" then Some(HttpDelete(url, headers, body))
    else None
  }

  /** The dictionary `request` returns when an exception is caught. */
  function ErrorReply(message: string): Dict {
    map["error" := JStr(message)]
  }

  /**
   * `request`: the decoded response, or `{"error": message}` when the method is
   * unsupported or the transport or decoding raised; nothing raised inside the
   * `try` escapes.
   */
  function Request(client: Client, mac: Mac, encode: Encoder, transport: Transport, now: string,
                   httpMethod: string, endpoint: string, params: Option<Dict>): (result: Dict)
    ensures !Supported(httpMethod) ==> result == ErrorReply(UnsupportedMethod)
    ensures Supported(httpMethod) ==>
      var outcome := transport(Dispatch(client, mac, encode, now, httpMethod, endpoint, params).value);
      result == (if outcome.Success? then outcome.value else ErrorReply(outcome.error))
  {
    match Dispatch(client, mac, encode, now, httpMethod, endpoint, params)
    case None => ErrorReply(UnsupportedMethod)
    case Some(call) =>
      match transport(call)
      case Success(response) => response
      case Failure(message) => ErrorReply(message)
  }

  /** An unsupported method never reaches the transport: the result is the same whatever the transport does. */
  lemma UnsupportedSendsNothing(client: Client, mac: Mac, encode: Encoder, t1: Transport, t2: Transport, now: string,
                                httpMethod: string, endpoint: string, params: Option<Dict>)
    requires !Supported(httpMethod)
    ensures Request(client, mac, encode, t1, now, httpMethod, endpoint, params)
         == Request(client, mac, encode, t2, now, httpMethod, endpoint, params)
         == ErrorReply(UnsupportedMethod)
  {
  }

  /** PUT gets a JSON body prepared, yet is refused as unsupported and sends nothing. */
  lemma PutIsRefused(client: Client, mac: Mac, encode: Encoder, transport: Transport, now: string,
                     endpoint: string, params: Option<Dict>)
    ensures RequestBody(encode, "PUT", params) == encode(ParamsJson(params))
    ensures Dispatch(client, mac, encode, now, "PUT", endpoint, params) == None
    ensures Request(client, mac, encode, transport, now, "put", endpoint, params) == ErrorReply(UnsupportedMethod)
  {
    assert Upper("PUT") == "PUT";
    assert Upper("put") == "PUT";
  }

  /**
   * For every call that is sent, the body the signature covers is the body on
   * the wire, and the headers sign the endpoint the call was made for.
   */
  lemma SignedBodyIsSentBody(client: Client, mac: Mac, encode: Encoder, now: string, httpMethod: string,
                             endpoint: string, params: Option<Dict>)
    requires IsMicrosStamp(now)
    requires Supported(httpMethod)
    ensures var call := Dispatch(client, mac, encode, now, httpMethod, endpoint, params).value;
      SignedOverEndpoint(mac, client, call.headers, httpMethod, endpoint, SentBody(call))
  {
    var call := Dispatch(client, mac, encode, now, httpMethod, endpoint, params).value;
    HeadersSigned(client, mac, now, httpMethod, endpoint, SentBody(call));
  }

  /**
   * A GET is signed over the bare endpoint and an empty body, so its query
   * parameters are not covered by the signature.
   */
  lemma GetSignatureIgnoresParams(client: Client, mac: Mac, encode: Encoder, now: string, endpoint: string,
                                  p1: Option<Dict>, p2: Option<Dict>)
    ensures var c1 := Dispatch(client, mac, encode, now, "GET", endpoint, p1);
      var c2 := Dispatch(client, mac, encode, now, "GET", endpoint, p2);
      c1.Some? && c2.Some? && c1.value.headers == c2.value.headers
  {
    assert Upper("GET") == "GET";
  }

  /** A DELETE sends an empty body whatever `params` holds: its parameters are dropped. */
  lemma DeleteDropsParams(client: Client, mac: Mac, encode: Encoder, now: string, endpoint: string,
                          p1: Option<Dict>, p2: Option<Dict>)
    ensures Dispatch(client, mac, encode, now, "DELETE", endpoint, p1)
         == Dispatch(client, mac, encode, now, "DELETE", endpoint, p2)
  {
    assert Upper("DELETE") == "DELETE";
  }

  // ---------------------------------------------------------------------------
  // Result dispatch

  /** `result.get(key, default)`. */
  function Get(d: Dict, key: string, default: Json): Json {
    if key in d then d[key] else default
  }

  /** The exchange's success test: the `code` field is the string "0". */
  predicate Succeeded(result: Dict) {
    "code" in result && result["code"] == JStr("0")
  }

  /** `get_positions` on the dictionary `request` returned: `data` (default `[]`) on success, `[]` otherwise. */
  function Positions(result: Dict): (positions: Json)
    ensures !Succeeded(result) ==> positions == JArr([])
    ensures Succeeded(result) && "data" in result ==> positions == result["data"]
    ensures Succeeded(result) && "data" !in result ==> positions == JArr([])
  {
    if Succeeded(result) then Get(result, "data", JArr([])) else JArr([])
  }

  /** `get_positions`: one signed GET of the positions endpoint, then `Positions`. */
  function GetPositions(client: Client, mac: Mac, encode: Encoder, transport: Transport, now: string)
    : (positions: Json)
    ensures var call := Dispatch(client, mac, encode, now, "GET", PositionsPath, None);
      && call.Some? && call.value.url == client.baseUrl + PositionsPath && call.value.query == None
      && (transport(call.value).Failure? ==> positions == JArr([]))
      && (transport(call.value).Success? ==> positions == Positions(transport(call.value).value))
  {
    assert Upper("GET") == "GET";
    Positions(Request(client, mac, encode, transport, now, "GET", PositionsPath, None))
  }

  /** A failed transport call yields no positions rather than an exception. */
  lemma FailedCallHasNoPositions(client: Client, mac: Mac, encode: Encoder, transport: Transport, now: string)
    requires transport(Dispatch(client, mac, encode, now, "GET", PositionsPath, None).value).Failure?
    ensures GetPositions(client, mac, encode, transport, now) == JArr([])
  {
    assert Upper("GET") == "GET";
  }

  /** A numeric code 0, or any error reply, is not success. */
  lemma OnlyStringZeroSucceeds(data: Json, message: string)
    ensures Positions(map["code" := JInt(0), "data" := data]) == JArr([])
    ensures Positions(ErrorReply(message)) == JArr([])
    ensures Positions(map["code" := JStr("0"), "data" := data]) == data
  {
  }

  /** The grid-strategy test: `s.get("strategyType") == "contract_grid"`. */
  predicate IsContractGrid(s: Json)
    requires s.JObj?
  {
    "strategyType" in s.fields && s.fields["strategyType"] == JStr("contract_grid")
  }

  predicate AllObjects(items: seq<Json>) {
    forall k :: 0 <= k < |items| ==> items[k].JObj?
  }

  /** The comprehension that keeps the contract-grid strategies, in their original order. */
  function ContractGrids(strategies: seq<Json>): (kept: seq<Json>)
    requires AllObjects(strategies)
    ensures |kept| <= |strategies|
    ensures AllObjects(kept)
    ensures forall s :: s in kept <==> s in strategies && s.JObj? && IsContractGrid(s)
  {
    if strategies == [] then []
    else
      var rest := ContractGrids(strategies[1..]);
      if IsContractGrid(strategies[0]) then [strategies[0]] + rest else rest
  }

  /** Filtering distributes over concatenation, so the kept entries stay in their original order. */
  lemma {:induction false} ContractGridsAppend(a: seq<Json>, b: seq<Json>)
    requires AllObjects(a) && AllObjects(b)
    ensures AllObjects(a + b)
    ensures ContractGrids(a + b) == ContractGrids(a) + ContractGrids(b)
  {
    if a == [] {
      assert a + b == b;
    } else {
      assert (a + b)[1..] == a[1..] + b;
      ContractGridsAppend(a[1..], b);
    }
  }

  /** The filter keeps a list of contract grids whole and is idempotent. */
  lemma {:induction false} ContractGridsIdempotent(strategies: seq<Json>)
    requires AllObjects(strategies)
    ensures ContractGrids(ContractGrids(strategies)) == ContractGrids(strategies)
  {
    if strategies != [] {
      ContractGridsIdempotent(strategies[1..]);
      var rest := ContractGrids(strategies[1..]);
      if IsContractGrid(strategies[0]) {
        assert ([strategies[0]] + rest)[1..] == rest;
      }
    }
  }

  /**
   * A success reply whose `data` (default `[]`) the comprehension can iterate
   * without raising: a list of objects, or an empty string or object, which
   * iterate over nothing.
   */
  predicate ListableGrids(result: Dict) {
    var data := Get(result, "data", JArr([]));
    Succeeded(result) ==> (data.JArr? && AllObjects(data.items)) || data == JStr("") || data == JObj(map[])
  }

  /** The entries `for s in strategies` visits: the items of a list, none for an empty string or object. */
  function GridEntries(data: Json): seq<Json> {
    if data.JArr? then data.items else []
  }

  /**
   * `get_contract_grid_strategies` on the dictionary `request` returned: the
   * contract grids when the code is "0", `None` (the failure message) otherwise.
   */
  function GridListing(result: Dict): (listing: Option<seq<Json>>)
    requires ListableGrids(result)
    ensures listing.Some? <==> Succeeded(result)
    ensures listing.Some? ==> forall s :: s in listing.value <==>
      s in GridEntries(Get(result, "data", JArr([]))) && s.JObj? && IsContractGrid(s)
    ensures listing.Some? && !Get(result, "data", JArr([])).JArr? ==> listing.value == []
    ensures listing.Some? ==> listing.value == ContractGrids(GridEntries(Get(result, "data", JArr([]))))
  {
    if Succeeded(result) then Some(ContractGrids(GridEntries(Get(result, "data", JArr([]))))) else None
  }

  /**
   * `get_contract_grid_strategies`: one signed GET of the grid-orders endpoint,
   * then `GridListing`; a failed call lists nothing.
   */
  function GetGridListing(client: Client, mac: Mac, encode: Encoder, transport: Transport, now: string)
    : (listing: Option<seq<Json>>)
    requires ListableGrids(Request(client, mac, encode, transport, now, "GET", GridOrdersPath, None))
    ensures var call := Dispatch(client, mac, encode, now, "GET", GridOrdersPath, None);
      && call.Some? && call.value.url == client.baseUrl + GridOrdersPath && call.value.query == None
      && (transport(call.value).Failure? ==> listing == None)
      && (transport(call.value).Success? ==> (listing.Some? <==> Succeeded(transport(call.value).value)))
      && (transport(call.value).Success? ==> listing == GridListing(transport(call.value).value))
  {
    assert Upper("GET") == "GET";
    GridListing(Request(client, mac, encode, transport, now, "GET", GridOrdersPath, None))
  }
}

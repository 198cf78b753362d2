# OKX client and kline downloader — a Dafny model

This project models the two pieces of the `auto_trader` repository that carry
logic:

- **The kline downloader** (`KlineDownloader.download`): a backward cursor
  pagination over the exchange's history-candles endpoint. Starting from the
  end of a time window, it asks for up to 100 candles older than a cursor,
  appends the page, and moves the cursor to the page's oldest timestamp. It
  stops on an empty page, on a page that reaches the start of the window, or
  when the cursor is no longer after the start. Finally it reverses the
  accumulated rows.
- **The signed request client** (`OKXClient`): the millisecond timestamp, the
  HMAC signing pre-image, the five authentication headers, the choice of body,
  the dispatch on the HTTP method with every exception raised inside the `try`
  folded into an `{"error": ...}` dictionary, and the `code == "0"` checks of the positions and
  grid-strategy readers.

Files:

- `wrappers.dfy` — module `Wrappers`: `Option` and `Result`.
- `kline_downloader.dfy` — module `KlineDownloader`. The exchange is a page
  oracle `fetch: PageRequest -> Reply`. It stands for
  `client.request("GET", HISTORY_CANDLES, params)` seen through
  `result.get("data", [])`. `Download` is the loop, written as a `while` loop
  over a local cursor and a growing list. Its postcondition ties the result to
  the specification function `Trace`: the requests sent and the pages received,
  in order. The lemmas `TraceRequests`, `TraceStops`, `CursorDecreases`,
  `RowsNewestFirst`, `DownloadAscending` and `InnerPagesInWindow` state the
  properties of `Trace` listed in the "## Model" table.
- `okx_client.dfy` — module `OkxClient`. These are pure functions over strings,
  small records and a `Json` datatype. HMAC-SHA256 with base64 (`Mac`),
  `json.dumps` (`Encoder`), the HTTP transport with `response.json()`
  (`Transport`) and the formatted clock reading (`now`) are parameters. The
  client's settings never change after construction, so they are a datatype,
  `Client`.

Assumption on the exchange. `Download` requires `Advances(fetch)`: a non-empty
page ends strictly before its cursor. The code does not check this
(utils/kline_downloader.py:43-46). Without it the loop need not terminate.
The ordering results assume `NewestFirst`: each page is strictly newest-first
and strictly older than its cursor. The code relies on this without checking it
(utils/kline_downloader.py:33-46), and nothing in the repository states it. If
the exchange's `before` selected newer records instead, the ordering results
would not apply.

Behaviour as the code has it, and as the model follows it:

- No deduplication takes place. Rows are appended as received. Under
  `NewestFirst`, the result is still strictly ascending, so it has no repeated
  timestamps (`DownloadAscending`).
- The final page is kept whole. Rows older than the start of the window are
  not trimmed (`BoundaryPageKeptWhole`).
- A reply without `data`, such as a transport-error dictionary, ends the loop
  exactly as an empty page does (`OnlyPagesMatter`).
- The window bounds come from `to_timestamp`, which reads a date in the host's
  local time zone, not at UTC midnight. The model takes the bounds as given
  integers.
- An unsupported method (anything but GET, POST or DELETE, PUT included) does
  not raise to the caller. The `ValueError` is raised inside the `try` and comes
  back as `{"error": "Unsupported HTTP method"}` (`UnsupportedSendsNothing`,
  `PutIsRefused`).
- Every candle request carries `limit` 100.

## Model

| member | source | states |
|---|---|---|
| `KlineDownloader.Download` | utils/kline_downloader.py:19-59 | The returned list is the reverse of the pages of `Trace` concatenated in fetch order. An empty window (`endTs <= startTs`) returns `[]`. A table with the header `ts,o,h,l,c,vol,volCcy` followed by exactly the returned rows is produced iff `save_path` is a non-empty string. The returned list does not depend on `save_path`. |
| `KlineDownloader.LoopStep` | utils/kline_downloader.py:33-46 | One iteration appends exactly the received page to the accumulator. An empty page, or one whose last timestamp is `<= start_ts`, completes the trace. Otherwise the new cursor is the page's last timestamp, strictly below the old cursor, and the rest of the trace continues from it. |
| `KlineDownloader.EmptyWindow` | utils/kline_downloader.py:31-33 | When `end_ts <= start_ts`, no request is sent and nothing is accumulated. |
| `KlineDownloader.TraceRequests` | utils/kline_downloader.py:27-46 | Every request carries `instId`, `bar` and limit 100, and has a cursor `> start_ts`. The first cursor is `end_ts`. Each later cursor is the last timestamp of the previous (non-empty) page. Each recorded page is exactly the oracle's answer to that request. |
| `KlineDownloader.TraceStops` | utils/kline_downloader.py:33-45 | The trace is empty iff the starting cursor is `<= start_ts`. Every page but the last is non-empty and ends after `start_ts`. The last page is empty or ends at or before `start_ts`, so the loop stops at the first such page. |
| `KlineDownloader.CursorDecreases` | utils/kline_downloader.py:43-46 | Under `Advances`, cursors never exceed the first one and strictly decrease from request to request. |
| `KlineDownloader.OnlyPagesMatter` | utils/kline_downloader.py:35-40 | Two oracles whose replies carry the same pages produce the same trace. A reply without `data` therefore acts exactly like an empty page. |
| `KlineDownloader.RowsAppend` | utils/kline_downloader.py:42 | Concatenating the pages of two consecutive runs of steps equals concatenating the two results. |
| `KlineDownloader.RowsLength` | utils/kline_downloader.py:42-49 | The number of rows returned, before and after reversal, is the sum of the page lengths. |
| `KlineDownloader.ReversedAt` | utils/kline_downloader.py:49 | The reversal keeps the length and puts the k-th row from the end at position k. |
| `KlineDownloader.NewestFirstAdvances` | utils/kline_downloader.py:43-46 | The assumed newest-first, older-than-cursor page order implies the progress condition that makes the loop terminate. |
| `KlineDownloader.RowsNewestFirst` | utils/kline_downloader.py:33-46 | Under `NewestFirst`, the concatenated pages are strictly descending by timestamp and all older than the first cursor. |
| `KlineDownloader.DownloadAscending` | utils/kline_downloader.py:33-49 | Under `NewestFirst`, the returned list is strictly ascending by timestamp and every row is older than `end_ts`. |
| `KlineDownloader.InnerPagesInWindow` | utils/kline_downloader.py:42-45 | Under `NewestFirst`, every row of every page but the last is newer than `start_ts`. Only the final page can reach past the start of the window. |
| `KlineDownloader.BoundaryPageKeptWhole` | utils/kline_downloader.py:42-45 | Take one page `[5, 3]` and the window `(4, 10]`. The row at 3, older than the start, is returned: `[3, 5]`. |
| `OkxClient.Upper` | okx_api/client.py:25 | The upper-cased method has the same length, with each ASCII letter upper-cased in place. |
| `OkxClient.UpperIdempotent` | okx_api/client.py:25 | Upper-casing an already upper-cased method changes nothing. |
| `OkxClient.Timestamp` | okx_api/client.py:22 | Dropping three characters and appending `Z` shortens the string by two, ends it with `Z`, and keeps every earlier character. A string shorter than three characters gives `"Z"`. |
| `OkxClient.TimestampShape` | okx_api/client.py:20-22 | A `%Y-%m-%dT%H:%M:%S.%f` reading becomes a 24-character `YYYY-MM-DDTHH:MM:SS.mmmZ` timestamp with three fractional digits. The first 23 characters are unchanged, so this is truncation, not rounding. |
| `OkxClient.PreImageLayout` | okx_api/client.py:25 | The signed message is exactly the timestamp, then the upper-cased method, then the request path, then the body. |
| `OkxClient.SignIgnoresMethodCase` | okx_api/client.py:24-27 | `sign` depends only on the secret and the pre-image. Methods that differ only in case sign identically. |
| `OkxClient.PreImageFixesTimestamp` | okx_api/client.py:24-27 | Two well-formed timestamps giving the same signed message are equal. |
| `OkxClient.Headers` | okx_api/client.py:29-38 | Exactly the five fixed keys are returned. `OK-ACCESS-TIMESTAMP` is the timestamp that was signed. `OK-ACCESS-SIGN` is the signature over it. The key and passphrase come from the client, and `Content-Type` is `application/json`. |
| `OkxClient.HeadersSigned` | okx_api/client.py:29-38 | Given a well-formed clock reading, the headers carry the client's key and passphrase, a well-formed timestamp, and a signature equal to the MAC of that timestamp, the upper-cased method, the path given and the body given. |
| `OkxClient.RequestBody` | okx_api/client.py:42 | POST and PUT, in any case, carry the JSON of `params`. Every other method has an empty body, so a non-empty body means POST or PUT. |
| `OkxClient.Dispatch` | okx_api/client.py:40-52 | A call is sent iff the upper-cased method is GET, POST or DELETE. The URL is `base_url + endpoint`. The headers sign exactly the body sent. A GET carries `params` as the query. A POST carries the JSON of `params`. A DELETE carries an empty body. |
| `OkxClient.Request` | okx_api/client.py:40-64 | Nothing raised inside the `try` reaches the caller. An unsupported method gives `{"error": "Unsupported HTTP method"}`. Otherwise the result is the decoded response, or `{"error": message}` when the transport or decoding raised. |
| `OkxClient.UnsupportedSendsNothing` | okx_api/client.py:40-64 | For an unsupported method, the result does not depend on the transport: nothing is sent. |
| `OkxClient.PutIsRefused` | okx_api/client.py:42-52 | PUT gets a JSON body, yet no call is built, and `request("put", ...)` returns the unsupported-method error. |
| `OkxClient.SignedBodyIsSentBody` | okx_api/client.py:42-50 | For every call that is sent, the signature covers the bare endpoint and the body actually transmitted. It does not cover a GET's query string (see `GetSignatureIgnoresParams`). |
| `OkxClient.GetSignatureIgnoresParams` | okx_api/client.py:42-46 | A GET is signed over the bare endpoint and an empty body, so its headers are the same whatever its query parameters. |
| `OkxClient.DeleteDropsParams` | okx_api/client.py:42-50 | A DELETE call is the same whatever `params` is: its parameters are never sent. |
| `OkxClient.Positions` | okx_api/client.py:82-88 | When `code` is the string `"0"`, the result is `data`, defaulting to `[]`. In every other case it is `[]`. |
| `OkxClient.GetPositions` | okx_api/client.py:82-88 | One GET of `base_url` + the positions path with no parameters is sent. A transport failure gives `[]`. Otherwise the result is `Positions` of the decoded reply. |
| `OkxClient.FailedCallHasNoPositions` | okx_api/client.py:82-88 | A failed transport call yields `[]` positions instead of an exception. |
| `OkxClient.OnlyStringZeroSucceeds` | okx_api/client.py:84-88 | A numeric code 0 and an error reply both give `[]`. A string `"0"` code gives back `data`. |
| `OkxClient.ContractGrids` | okx_api/client.py:109 | An entry is kept iff it is in the input and its `strategyType` is `"contract_grid"`. The result is no longer than the input. |
| `OkxClient.ContractGridsAppend` | okx_api/client.py:109 | The filter distributes over concatenation, so kept entries keep their original relative order. |
| `OkxClient.ContractGridsIdempotent` | okx_api/client.py:109 | Filtering a filtered list changes nothing. |
| `OkxClient.GridListing` | okx_api/client.py:105-109 | A listing exists iff `code` is `"0"`. It holds exactly the contract-grid entries of `data`, which defaults to `[]`. An empty string or empty object as `data` gives an empty listing. The listing is `ContractGrids` of the entries, so it keeps their original order and multiplicity (`ContractGridsAppend`). |
| `OkxClient.GetGridListing` | okx_api/client.py:105-109 | One GET of `base_url` + the grid-orders path with no parameters is sent. A transport failure gives no listing. Otherwise a listing exists iff the decoded reply's `code` is `"0"`, and it is `GridListing` of that reply: exactly its contract-grid entries. |

## Left out

- Download: requires `Advances(fetch)`, because a Dafny method must terminate. A non-empty page not older than its cursor could make the original loop run forever: a page ending exactly at its cursor repeats the same request. `Advances` also excludes runs in which the cursor rises and later falls, which the original completes. Neither kind of run is modelled.
- GridListing: requires `data` to be a list of objects, an empty string or an empty object on success. The original raises on any other non-empty shape, and on `null` or a number. The model does not cover that crash. GetGridListing carries the same requirement on the decoded reply.
- Request: the body (`json.dumps(params)`) and the headers are computed before the `try` (okx_api/client.py:42-43), so an exception there, such as `params` holding a value `json.dumps` cannot encode, reaches the caller. `Encoder` is total and `Dict` holds only JSON values, so that path is not modelled.
- The HTTP transport, proxies and response JSON decoding are network I/O. They are the `Transport` parameter.
- Transport: returns only JSON objects. A response that decodes to a list, string, number or `null` is not modelled. On such a value the callers' `.get` raises `AttributeError`: `get_positions`, the grid listing and the downloader's `result.get("data", [])`. `Json` also has no booleans or floats.
- SignedBodyIsSentBody: states what the client signs, not what the exchange verifies. For a GET with parameters, such as the candle requests, the path the exchange receives includes the query string, and the signature does not cover it.
- HMAC-SHA256, base64 and the UTF-8 encoding of key and message are library calls. They are the `Mac` parameter.
- `json.dumps` is the `Encoder` parameter.
- The wall-clock read in `get_timestamp` is an input: `now` is the `strftime` result.
- `to_timestamp` depends on the host's local time zone. The window bounds are given integers.
- Parsing a candle's first column with `int(...)` is left out. `Row.ts` is already an integer, so a malformed row that would raise is not modelled.
- `time.sleep(0.2)` throttling only affects timing.
- CSV writing and `os.makedirs` are file I/O. Only the table that would be written is modelled. The failure of `os.makedirs("")` for a bare file name is not modelled.
- `str.upper()` is modelled on ASCII letters only. Unicode case mapping is not modelled.
- `get_account_balance` parses floats and only prints.
- `show_positions` and the printing half of the grid listing are console output.
- All debug and status `print` calls are console output.
- `get_ticker` is a single `request("GET", ...)` with no logic of its own.
- Loading configuration in the constructor is left out: credentials are opaque fields of `Client`, and the `debug` flag only controls printing.
- main.py only wires hard-coded parameters into one call.
- okx_api/endpoints.py holds string constants. The ones used are inlined as constants.

# BTCMarkets client: request signing, response normalisation and request shaping

This project models the core of the `BTCMarkets` Python client for the BTC
Markets exchange API (`BTCMarkets/client.py`) and proves properties of it.

- **Signing** (module `Signer`, `signer.dfy`). `buildHeaders` builds the
  canonical message `method + path + timestamp`, with the body appended only
  when there is one. `signMessage` signs it with HMAC-SHA512 and Base64. The
  six request headers carry the API key, the timestamp and the signature.
  HMAC-SHA512, Base64 and UTF-8 are function parameters, so every property
  holds whatever they compute.
- **Normalisation** (module `Normaliser`, `normaliser.dfy`).
  - `make_df` and `make_series` pass an error envelope (a dict with a
    `statusCode` key) through unchanged.
  - Any other response is coerced: the declared numeric columns, then the
    declared time columns, each through a parser passed in for
    `pd.to_numeric` or `pd.to_datetime`. A missing declared column raises
    `KeyError`.
  - A table is a `Frame` object whose rows the coercion rewrites in place.
  - `process_orderbook` rewrites the `bids` and `asks` sides in place.
  - `orderbooks` does the same for every book of a response array.
- **The client** (module `Client`, `client.dfy`).
  - `makeHttpCall` up to the transport: it serialises the body, signs the bare
    path, and only then appends the query string to the URL.
  - `handle_error` reports one fixed message whatever it is given.
  - Validation and body building of `place_order` and `request_withdrawal`.
  - The id lists joined into paths by `tickers`, `orderbooks`,
    `orders_by_ids` and `cancel_orders_by_ids`.
  - The None-filtered query dictionaries.
  - The batch list of `place_and_cancel_orders`.
- **Supporting modules.**
  - `Json` (`json.dfy`): JSON values, and dictionaries as ordered lists of
    entries, since Python dicts keep insertion order. Also the
    None-filtering comprehension `DropNone`.
  - `Text` (`text.dfy`): `str(int)`, `str.join`, `str.split` and `str.upper`.

Python `None` is `Json.Null`. An omitted `numeric`/`time` argument is the
empty column list, which coerces nothing, as `None` does in the source. The
clock reading (`int(time.time() * 1000)`) is the parameter `nowMillis`.

An empty response list gives no empty table: `pd.DataFrame([])` has no
columns, so selecting a declared column raises `KeyError`
(`Normaliser.EmptyListNormalisation`).

`makeHttpCall` signs the path it is given and appends `query_params` only
afterwards, so those parameters are not signed. `tickers` and `orderbooks`
build their `?marketId=…` query into the path itself (client.py:315, 417),
so theirs is signed (`Client.TickersSpec`, `Client.OrderbooksCall`).

`handle_error` is modelled as written. Line 174 overwrites its argument with
"No market_ids provided", so every rejected `place_order` or
`request_withdrawal` reports that message. The bodies of `place_order` and
`place_and_cancel_orders` are serialised twice: once at the call site, and
again by `makeHttpCall`, which serialises whatever `data` it is given. The
body of `request_withdrawal` is serialised once. The model keeps both
behaviours.

## Model

| member | source | states |
|---|---|---|
| Json.DropNone | BTCMarkets/client.py:554-555 | the None-filtering dict comprehension keeps exactly the entries whose value is not None, in their original order |
| Json.DropNoneLookup | BTCMarkets/client.py:554-555 | after filtering, a key whose value was None is absent and every other key keeps its value |
| Json.DropNoneFields | BTCMarkets/client.py:353-354 | filtering a dictionary literal leaves exactly the keys whose value is not None, in the literal's order, each with its value |
| Json.LookupAt | BTCMarkets/client.py:22-29 | in a dictionary with distinct keys, looking a key up finds the value stored under it |
| Json.LookupFound | BTCMarkets/client.py:123 | `side in orderbook` holds exactly when a lookup of that key succeeds |
| Text.DecimalString | BTCMarkets/client.py:17 | `str(int)` of the clock reading is a non-empty string of decimal digits without a leading zero |
| Text.DecimalRoundTrip | BTCMarkets/client.py:17 | the timestamp string denotes the clock reading it was made from |
| Text.DecimalStringInjective | BTCMarkets/client.py:17 | distinct clock readings give distinct timestamp strings |
| Text.SplitJoin | BTCMarkets/client.py:755 | splitting a comma-joined id list on the comma gives the ids back when none contains one |
| Text.JoinRepeatedKey | BTCMarkets/client.py:315 | `"marketId=" + "&marketId=".join(ids)` is the `&`-join of `marketId=<id>` for every id |
| Text.Upper | BTCMarkets/client.py:535 | the model's ASCII-only `Upper` keeps the length (Python's `str.upper` need not: `'ß'.upper()` is `'SS'`) |
| Text.UpperSingleLetter | BTCMarkets/client.py:535-536 | the only strings that upper-case to `P` are `p` and `P`, and to `A` are `a` and `A` |
| Signer.BuildHeaders | BTCMarkets/client.py:16-30 | the headers are the six fixed names; the timestamp header is the rendered clock reading; the signature header signs method + path + that same timestamp, plus the body exactly when there is one |
| Signer.HeaderNamesDistinct | BTCMarkets/client.py:22-29 | the six header names are distinct |
| Signer.HeaderListSigned | BTCMarkets/client.py:22-29 | the header dictionary literal carries the three fixed content-negotiation values, the API key, the timestamp and the signature |
| Signer.SignedHeadersExact | BTCMarkets/client.py:22-29 | a header map meeting the signing contract is exactly the six-entry literal in this order |
| Signer.MessageLayout | BTCMarkets/client.py:18-20 | the signed message is the method, then the path, then the timestamp, then the body exactly when one is present |
| Signer.MiddleCancels | BTCMarkets/client.py:18-20 | fixing the text before and after a field of the message determines that field |
| Signer.MessageDeterminesFields | BTCMarkets/client.py:18-20 | changing any one of method, path, timestamp or a present body changes the signed message |
| Signer.EmptyBodySignsLikeNoBody | BTCMarkets/client.py:19-20 | no body and an empty body sign the same bytes |
| Signer.SignatureDeterminesMessage | BTCMarkets/client.py:32-36 | `signMessage` is HMAC-SHA512 of the UTF-8 message, Base64-encoded and decoded to text; when each of these steps is injective (an idealisation of HMAC's collision resistance, since a 64-byte digest cannot be injective), equal signatures mean equal messages |
| Normaliser.FirstMissing | BTCMarkets/client.py:41-43 | finds a declared column absent from every row (pandas' `KeyError`), and finds none exactly when all declared columns are present |
| Normaliser.CoerceColumnsSpec | BTCMarkets/client.py:41 | coercing a column group succeeds exactly when every cell of those columns parses; on success only those cells change, each to its parsed value |
| Normaliser.GroupCoercedKeepsColumns | BTCMarkets/client.py:41-43 | coercing a group keeps every row's keys, so the time columns are found after the numeric pass exactly when they were before |
| Normaliser.ProcessRowsSpec | BTCMarkets/client.py:38-44 | `process_panda` succeeds exactly when every declared column is present and parses; numeric cells become numbers, time cells timestamps, all other cells and all keys are unchanged |
| Normaliser.CoerceColumnsKeepsRows | BTCMarkets/client.py:41 | coercion keeps the number of rows |
| Normaliser.ProcessRowsKeepsRows | BTCMarkets/client.py:38-44 | `process_panda` keeps the number of rows |
| Normaliser.Frame.constructor | BTCMarkets/client.py:72 | a frame holds the rows it is built from |
| Normaliser.Frame.CoerceColumnInPlace | BTCMarkets/client.py:41 | rewrites one column in place: succeeds exactly when every cell parses, and then the rows are the coerced rows |
| Normaliser.Frame.CoerceGroupInPlace | BTCMarkets/client.py:40-43 | rewrites a group of columns in place, one column per iteration, ending as the group coercion specifies, error included |
| Normaliser.Frame.ProcessPanda | BTCMarkets/client.py:38-44 | numeric columns then time columns, in place; the new rows or the error are those of the coercion specification |
| Normaliser.MakeDf | BTCMarkets/client.py:48-72 | an error envelope is returned unchanged; any other response is normalised into a table as specified |
| Normaliser.MakeSeries | BTCMarkets/client.py:74-98 | an error envelope is returned unchanged; a dict is normalised as a one-row record |
| Normaliser.NormaliseTableSpec | BTCMarkets/client.py:70-72 | the error envelope passes through; otherwise a successful table has the response's rows with declared cells typed and the rest unchanged |
| Normaliser.NormaliseRecordSpec | BTCMarkets/client.py:96-98 | a record succeeds exactly when every declared key is present and parses; its fields are the dict's, the declared ones typed |
| Normaliser.EmptyListNormalisation | BTCMarkets/client.py:72 | an empty response list gives an empty table only when no column is declared, and otherwise `KeyError` on the first declared column |
| Normaliser.NoDuplicatesApart | BTCMarkets/client.py:40-43 | distinct numeric and time column lists are each distinct and share no column |
| Normaliser.ParseSide | BTCMarkets/client.py:124-126 | a side converts exactly when every level is a price/amount pair that `float()` accepts; the result has the same length and order, level i becoming `[float(p_i), float(a_i)]` |
| Normaliser.ProcessSideSpec | BTCMarkets/client.py:123-126 | a present side is replaced by its converted list, all other entries unchanged; an absent side leaves the book unchanged |
| Normaliser.ProcessedOrderbookSpec | BTCMarkets/client.py:121-127 | a dict book keeps its keys; present sides become their converted lists; absent sides stay absent; every other key (marketId, snapshotId) is unchanged. A list or string book comes back unchanged unless it contains a side name, when the subscript raises `TypeError`; any other value (None, a number, a bool) raises `TypeError` at the `in` test |
| Normaliser.ProcessOrderbook | BTCMarkets/client.py:121-127 | the loop over `["bids", "asks"]`, with Python's `in` and subscript, produces the processed book or its error |
| Normaliser.ProcessOrderbooks | BTCMarkets/client.py:420-421 | every book of the array is processed in place; it succeeds exactly when every book converts, so a None book makes it fail |
| Client.NewClient | BTCMarkets/client.py:151-153 | the client keeps the API key and the error mode, and the private key Base64-decoded, which is the key requests are signed with |
| Client.DefaultClientRaises | BTCMarkets/client.py:138 | with the default `exception_on_error=True`, a rejected call raises |
| Client.Serialize | BTCMarkets/client.py:208-209 | a body is sent exactly when `data` is not None |
| Client.MakeHttpCall | BTCMarkets/client.py:208-215 | the body is the serialised data; the headers sign the path before the query is appended; the URL is base URL + path, plus `?` and the encoded query only when the query parameters are a dict |
| Client.QueryOutsideSignature | BTCMarkets/client.py:210-213 | the message signed over the bare path differs from one over the path with its query string |
| Client.HandleError | BTCMarkets/client.py:155-178 | whatever the message, raises "No market_ids provided" when `exception_on_error` is set and returns None otherwise |
| Client.MarketIdQuerySpec | BTCMarkets/client.py:315 | the market-id query is one `marketId=<id>` parameter per id, in order, read back by splitting on `&`; no ids give a bare `marketId=` |
| Client.TickersSpec | BTCMarkets/client.py:309-316 | `tickers` rejects an empty id list as `handle_error` does; otherwise it sends a GET whose signed path is the tickers path followed by the market-id query |
| Client.OrderbooksCall | BTCMarkets/client.py:415-418 | `orderbooks` sends the market-id query with no empty check, so no ids give `...?marketId=` |
| Client.PaginationQuerySpec | BTCMarkets/client.py:352-354 | the trade query holds exactly the given `before`, `after`, `limit`, in that order |
| Client.OrdersQuerySpec | BTCMarkets/client.py:587-596 | the orders query holds exactly the given `marketId`, `status`, `before`, `after`, `limit`, in that order |
| Client.MarketTradesCall | BTCMarkets/client.py:352-359 | `market_trades` sends a GET to the market's trades path with a dict query holding exactly the given pagination parameters |
| Client.OrdersCall | BTCMarkets/client.py:587-597 | `orders` sends a GET to `/v3/orders` with a dict query holding exactly the given parameters |
| Client.OrderFieldsDistinct | BTCMarkets/client.py:542-554 | the eleven order body keys are distinct |
| Client.PlaceOrderBodySpec | BTCMarkets/client.py:542-555 | the order body holds exactly the non-None fields, in the source's key order, with `selfTrade` upper-cased |
| Client.PlaceOrderSpec | BTCMarkets/client.py:533-556 | the order is sent exactly when a stop-type order has a trigger price and `selfTrade` is `p`, `P`, `a` or `A`; it is otherwise rejected as `handle_error` does; the sent data is the serialised body string |
| Client.DefaultOrderSpec | BTCMarkets/client.py:475-486 | with the default arguments an order is rejected only for being a stop type without a trigger price |
| Client.BatchOrders | BTCMarkets/client.py:695-701 | the batch has length `len(place) + len(cancel)`: each placement wrapped as `{"placeOrder": o}` in order, then each cancellation as `{"cancelOrder": o}` in order |
| Client.BatchUnique | BTCMarkets/client.py:695-701 | the batch list is determined by the two input lists |
| Client.PlaceAndCancelOrders | BTCMarkets/client.py:695-705 | one POST to `/v3/batchorders` whose data is the serialised batch list |
| Client.BatchOrdersPathSpec | BTCMarkets/client.py:755-756 | the batch-orders path is the prefix followed by the ids, read back by splitting on commas |
| Client.OrdersByIdsSpec | BTCMarkets/client.py:755-756 | `orders_by_ids` is a GET of `/v3/batchorders/` followed by the comma-joined ids, with no query and no body; the ids are read back from the path by splitting on commas |
| Client.CancelOrdersByIdsSpec | BTCMarkets/client.py:797-799 | `cancel_orders_by_ids` is a DELETE of the same path `orders_by_ids` reads, with no query and no body; the ids are read back from the path |
| Client.AnyAllGiven | BTCMarkets/client.py:921-923 | `any` holds exactly when some detail is given; `all` holds exactly when every detail is given |
| Client.BankDetailsCheck | BTCMarkets/client.py:921-926 | the bank-detail check fails exactly when some but not all four details are given |
| Client.WithdrawalErrorSpec | BTCMarkets/client.py:915-935 | a withdrawal passes validation exactly when asset name and amount are non-empty strings; for AUD, the bank details are all or none given and the payment description has at most 18 characters; otherwise a destination address is given |
| Client.RequestWithdrawalSpec | BTCMarkets/client.py:915-949 | a withdrawal is sent exactly when it is valid, as a POST whose data is the body dict; otherwise it is rejected as `handle_error` does |
| Client.WithdrawalFieldsDistinct | BTCMarkets/client.py:937-947 | the nine withdrawal body keys are distinct |
| Client.WithdrawalBodySpec | BTCMarkets/client.py:937-948 | the withdrawal body holds exactly the non-None fields, in the source's key order |

## Left out

- The HTTP transport is not modelled: `Request`, `urlopen`, the UTF-8 body bytes, `json.loads` of responses, and the `URLError` branch that adds `statusCode` and raises or returns the error object. `Client.MakeHttpCall` ends with the request it would hand over.
- HMAC-SHA512, Base64, UTF-8, `json.dumps`, `urllib.parse.urlencode`, `pd.to_numeric`, `pd.to_datetime` and `float()` are function parameters, not implementations.
- `base64.b64decode` of the private key is the parameter of `Client.NewClient`; a key that fails to decode is not modelled.
- The clock is not read: the timestamp is the parameter `nowMillis`. The date arithmetic of `recent_candles` is not part of this model.
- `print` in `handle_error` is I/O and is not modelled.
- Client.HandleError: takes the message argument only to ignore it, as the source does after line 174.
- pandas itself is not modelled: column dtypes, the index, float arithmetic, the trade `cost` column, `locked_ratio`, sorting and zero-filtering in `account_balance`, and candle column selection.
- Normaliser.NormaliseTable: a response to `make_df` that is not a list of dicts and not an error envelope (another dict, from whose columns pandas builds a frame; a list holding non-dicts; `None`; a number or a string) is reported as `NotTabular` rather than given pandas' result or pandas' exception.
- Normaliser.MakeSeries: a response that is not a dict (a list, `None`, a scalar) is reported as `NotTabular`; pandas builds a Series from it when no column is declared (as for the call at `BTCMarkets/client.py:1164`) and raises `KeyError` when one is.
- Normaliser.ProcessRowsSpec: a row that lacks a declared column present in other rows keeps no cell for it, where pandas would fill in NaN.
- Normaliser.NormaliseTableSpec: assumes the declared numeric and time columns are distinct; pandas' behaviour with a column declared twice is not modelled.
- Normaliser.ProcessedOrderbookSpec: Python's `for price, amount in orderbook[side]` accepts any iterable of two-element iterables, so a string or dict side converts (`""` and `{}` become `[]`, a level `"12"` becomes `[1.0, 2.0]`) or raises; the model accepts only a list of two-element lists and reports every other side, and every value `float()` rejects, as `ParseError`, without Python's exception type or message.
- Normaliser.ParseSide: reads only lists of two-element lists; the string, dict and other iterable sides Python also unpacks are not modelled (they end as `None`).
- Normaliser.ProcessOrderbooks: on an error, the books before the failing one stay rewritten, as in the source; what the exception carries is not modelled. An error envelope returned in place of the array is not modelled.
- Text.Upper: upper-cases ASCII letters only; other Unicode case mappings are not modelled.
- The endpoint wrappers that only forward a fixed path to `makeHttpCall` are not modelled. This includes `replace_order` and `create_new_report`, and the column lists each wrapper passes to `make_df`.
- Client.OrdersByIdsSpec: what `orders_by_ids` does with the response (the empty check and the `make_df` of its orders) is not modelled.
- Client.BatchOrdersPathSpec: ids are strings; `str(id)` of a non-string id is not modelled.
- Client.RequestWithdrawalSpec: the optional withdrawal arguments are strings or None; other types, for which `len` or `any` behave differently, are not modelled.
- Client.PlaceOrderSpec: `selfTrade` is a string; a non-string `selfTrade`, on which `.upper()` fails, is not modelled.

/** The `BTCMarkets` client object: how it turns an API call into a signed
    request (`makeHttpCall` up to the transport), how it reports argument errors
    (`handle_error`), and the request shaping of `tickers`, `orderbooks`,
    `market_trades`, `orders`, `place_order`, `place_and_cancel_orders`,
    `orders_by_ids`, `cancel_orders_by_ids` and `request_withdrawal`. */
module Client {
  import opened Json
  import opened Text
  import opened Signer

  const BaseUrl: string := "https://api.btcmarkets.net"

  /** The one message `handle_error` ever reports. */
  const NoMarketIdsMessage: string := "No market_ids provided"

  /** The client's configuration, fixed once constructed. */
  datatype Client = Client(apiKey: string, privateKey: seq<byte>, exceptionOnError: bool)

  /** `__init__`: the private key is kept Base64-decoded, and that decoded key
      is the one every request is signed with. */
  function NewClient(apiKey: string, privateKey: string, exceptionOnError: bool,
                     base64Decode: string -> seq<byte>): (c: Client)
    ensures c.privateKey == base64Decode(privateKey)
    ensures c.apiKey == apiKey && c.exceptionOnError == exceptionOnError
  {
    Client(apiKey, base64Decode(privateKey), exceptionOnError)
  }

  /** What a request depends on besides its arguments: the clock reading in
      milliseconds, the signing primitives, `json.dumps` and
      `urllib.parse.urlencode`. */
  datatype Env = Env(nowMillis: nat, crypto: Crypto, dumps: Value -> string, urlencode: Entries -> string)

  /** The request handed to the transport. */
  datatype Request = Request(httpMethod: string, url: string, headers: seq<(string, string)>, body: Option<string>)

  /** The arguments of one `makeHttpCall`. */
  datatype Call = Call(httpMethod: string, path: string, queryParams: Value, data: Value)

  /** How an endpoint method ends before the transport: it raises a
      `ValueError`, returns None, or makes the call. */
  datatype Outcome = Raised(message: string) | ReturnedNone | Sent(call: Call)

  /** The body sent with a request: the JSON serialisation of `data`, or none
      when `data` is None. */
  function Serialize(data: Value, dumps: Value -> string): (body: Option<string>)
    ensures body.None? <==> data == Null
  {
    if data == Null then None else Some(dumps(data))
  }

  /** `makeHttpCall` up to the transport. The headers are signed over the path
      as given; the query string is appended to the URL only afterwards, and
      only when the query parameters are a dictionary. */
  method MakeHttpCall(client: Client, httpMethod: string, path: string, queryParams: Value, data: Value, env: Env)
    returns (req: Request)
    ensures req.httpMethod == httpMethod
    ensures req.body == Serialize(data, env.dumps)
    ensures SignedHeaders(req.headers, client.apiKey, DecimalString(env.nowMillis),
                          SignMessage(env.crypto, client.privateKey,
                                      CanonicalMessage(httpMethod, path, DecimalString(env.nowMillis), req.body)))
    ensures req.url == BaseUrl + path + (if queryParams.Dict? then "?" + env.urlencode(queryParams.entries) else "")
  {
    var body := Serialize(data, env.dumps);
    var headers := BuildHeaders(httpMethod, client.apiKey, client.privateKey, path, body, env.nowMillis, env.crypto);
    var fullPath := path;
    if queryParams.Dict? {
      fullPath := fullPath + "?" + env.urlencode(queryParams.entries);
    }
    req := Request(httpMethod, BaseUrl + fullPath, headers, body);
  }

  /** The path the URL carries is never the path that was signed once a query
      string is appended. */
  lemma QueryOutsideSignature(httpMethod: string, path: string, query: string, timestamp: string, body: Option<string>)
    ensures CanonicalMessage(httpMethod, path + "?" + query, timestamp, body) != CanonicalMessage(httpMethod, path, timestamp, body)
  {
    var b := if body.Some? then body.value else "";
    assert |CanonicalMessage(httpMethod, path + "?" + query, timestamp, body)|
        == |httpMethod| + |path| + 1 + |query| + |timestamp| + |b|;
  }

  /** `handle_error`: whatever message it is given, it reports
      "No market_ids provided", raising when the client was built with
      `exception_on_error` and returning None otherwise. */
  function HandleError(client: Client, msg: string): (r: Outcome)
    ensures r.Raised? <==> client.exceptionOnError
    ensures r.ReturnedNone? <==> !client.exceptionOnError
    ensures r.Raised? ==> r.message == NoMarketIdsMessage
  {
    var reported := NoMarketIdsMessage;
    if client.exceptionOnError then Raised(reported) else ReturnedNone
  }

  /** A client built with the default `exception_on_error=True` raises on
      every rejected call. */
  lemma DefaultClientRaises(apiKey: string, privateKey: string, base64Decode: string -> seq<byte>, msg: string)
    ensures HandleError(NewClient(apiKey, privateKey, true, base64Decode), msg) == Raised(NoMarketIdsMessage)
  {
  }

  /** A rejected call ends as `handle_error` ends, for any message. */
  predicate Rejected(client: Client, r: Outcome)
  {
    r == (if client.exceptionOnError then Raised(NoMarketIdsMessage) else ReturnedNone)
  }

  // ---------------------------------------------------------------------
  // Market ids in a query string

  /** `"marketId=" + "&marketId=".join(ids)`: one `marketId` parameter per id. */
  function MarketIdQuery(marketIds: seq<string>): string
  {
    "marketId=" + Join("&marketId=", marketIds)
  }

  /** The query names every id, in order, as its own `marketId=<id>` parameter;
      with no ids it degenerates to a bare `marketId=`. */
  lemma MarketIdQuerySpec(marketIds: seq<string>)
    requires forall i :: 0 <= i < |marketIds| ==> '&' !in marketIds[i]
    ensures marketIds == [] ==> MarketIdQuery(marketIds) == "marketId="
    ensures marketIds != [] ==> MarketIdQuery(marketIds) == Join("&", Prefixed("marketId=", marketIds))
    ensures marketIds != [] ==> Split(MarketIdQuery(marketIds), '&') == Prefixed("marketId=", marketIds)
  {
    if marketIds != [] {
      assert "&marketId=" == "&" + "marketId=";
      JoinRepeatedKey("marketId=", "&", marketIds);
      var pieces := Prefixed("marketId=", marketIds);
      forall i | 0 <= i < |pieces| ensures '&' !in pieces[i] {
        assert pieces[i] == "marketId=" + marketIds[i];
        assert '&' !in "marketId=";
      }
      SplitJoin(pieces, '&');
    }
  }

  /** `tickers`: an empty id list is rejected; otherwise one GET whose path
      carries the ids (so they are signed). */
  function Tickers(client: Client, marketIds: seq<string>): (r: Outcome)
  {
    if |marketIds| == 0 then HandleError(client, "tickers called with no market_ids provided")
    else Sent(Call("GET", "/v3/markets/tickers?" + MarketIdQuery(marketIds), Null, Null))
  }

  lemma TickersSpec(client: Client, marketIds: seq<string>)
    ensures Tickers(client, marketIds).Sent? <==> marketIds != []
    ensures !Tickers(client, marketIds).Sent? ==> Rejected(client, Tickers(client, marketIds))
    ensures Tickers(client, marketIds).Sent? ==>
              var c := Tickers(client, marketIds).call;
              && c.httpMethod == "GET" && c.queryParams == Null && c.data == Null
              && c.path[..|"/v3/markets/tickers?"|] == "/v3/markets/tickers?"
              && c.path[|"/v3/markets/tickers?"|..] == MarketIdQuery(marketIds)
  {
  }

  /** `orderbooks`: the GET it sends; unlike `tickers` it has no empty check. */
  function OrderbooksCall(marketIds: seq<string>): (c: Call)
    ensures c.path == "/v3/markets/orderbooks?" + MarketIdQuery(marketIds)
    ensures marketIds == [] ==> c.path == "/v3/markets/orderbooks?marketId="
  {
    Call("GET", "/v3/markets/orderbooks?" + MarketIdQuery(marketIds), Null, Null)
  }

  // ---------------------------------------------------------------------
  // Query parameters with the None values filtered out

  const PaginationFields: seq<string> := ["before", "after", "limit"]

  /** The pagination parameters of `market_trades` and the list endpoints. */
  function PaginationQuery(before: Value, after: Value, limit: Value): Entries
  {
    DropNone([("before", before), ("after", after), ("limit", limit)])
  }

  function PaginationField(before: Value, after: Value, limit: Value, name: string): Value
  {
    match name
    case "before" => before
    case "after" => after
    case "limit" => limit
    case _ => Null
  }

  /** The query holds exactly the parameters that were given, in order. */
  lemma PaginationQuerySpec(before: Value, after: Value, limit: Value)
    ensures ExactlyNonNull(PaginationQuery(before, after, limit), PaginationFields,
                           k => PaginationField(before, after, limit, k))
  {
    var value := k => PaginationField(before, after, limit, k);
    assert [("before", before), ("after", after), ("limit", limit)] == Fields(PaginationFields, value);
    DropNoneFields(PaginationFields, value);
  }

  /** `market_trades`: the GET for one market's trades. */
  function MarketTradesCall(marketId: string, before: Value, after: Value, limit: Value): (c: Call)
    ensures c.httpMethod == "GET" && c.data == Null
    ensures c.path == "/v3/markets/" + marketId + "/trades"
    ensures c.queryParams.Dict?
    ensures ExactlyNonNull(c.queryParams.entries, PaginationFields, k => PaginationField(before, after, limit, k))
  {
    PaginationQuerySpec(before, after, limit);
    Call("GET", "/v3/markets/" + marketId + "/trades", Dict(PaginationQuery(before, after, limit)), Null)
  }

  const OrdersFields: seq<string> := ["marketId", "status", "before", "after", "limit"]

  /** The query parameters of `orders`. */
  function OrdersQuery(marketId: Value, status: Value, before: Value, after: Value, limit: Value): Entries
  {
    DropNone([("marketId", marketId), ("status", status), ("before", before), ("after", after), ("limit", limit)])
  }

  function OrdersField(marketId: Value, status: Value, before: Value, after: Value, limit: Value, name: string): Value
  {
    match name
    case "marketId" => marketId
    case "status" => status
    case "before" => before
    case "after" => after
    case "limit" => limit
    case _ => Null
  }

  lemma OrdersQuerySpec(marketId: Value, status: Value, before: Value, after: Value, limit: Value)
    ensures ExactlyNonNull(OrdersQuery(marketId, status, before, after, limit), OrdersFields,
                           k => OrdersField(marketId, status, before, after, limit, k))
  {
    var value := k => OrdersField(marketId, status, before, after, limit, k);
    assert [("marketId", marketId), ("status", status), ("before", before), ("after", after), ("limit", limit)]
        == Fields(OrdersFields, value);
    assert OrdersFields[0][0] != OrdersFields[1][0];
    DropNoneFields(OrdersFields, value);
  }

  /** `orders`: the GET with the filtered query. */
  function OrdersCall(marketId: Value, status: Value, before: Value, after: Value, limit: Value): (c: Call)
    ensures c.httpMethod == "GET" && c.path == "/v3/orders" && c.data == Null
    ensures c.queryParams.Dict?
    ensures ExactlyNonNull(c.queryParams.entries, OrdersFields, k => OrdersField(marketId, status, before, after, limit, k))
  {
    OrdersQuerySpec(marketId, status, before, after, limit);
    Call("GET", "/v3/orders", Dict(OrdersQuery(marketId, status, before, after, limit)), Null)
  }

  // ---------------------------------------------------------------------
  // place_order

  /** The arguments of `place_order`; the optional ones are `Null` when not
      given, except those with defaults (see `DefaultOrder`). */
  datatype OrderRequest = OrderRequest(
    marketId: Value, price: Value, amount: Value, side: Value, orderType: Value,
    triggerPrice: Value, targetAmount: Value, timeInForce: Value, postOnly: Value,
    selfTrade: string, clientOrderId: Value)

  /** An order with the defaults of `place_order`: good till cancelled, not
      post-only, self-trade prevented. */
  function DefaultOrder(marketId: Value, price: Value, amount: Value, side: Value, orderType: Value): OrderRequest
  {
    OrderRequest(marketId, price, amount, side, orderType, Null, Null, Str("GTC"), Bool(false), "P", Null)
  }

  const StopOrderTypes: seq<Value> := [Str("Stop"), Str("Stop Limit"), Str("Take Profit")]

  const OrderFields: seq<string> :=
    ["marketId", "price", "amount", "type", "side", "selfTrade", "timeInForce", "postOnly",
     "triggerPrice", "targetAmount", "clientOrderId"]

  /** The reason `place_order` rejects an order, if it does. */
  function PlaceOrderError(order: OrderRequest): Option<string>
  {
    if order.orderType in StopOrderTypes && order.triggerPrice == Null then
      Some(order.orderType.s + " requires triggerPrice")
    else
      var selfTrade := Upper(order.selfTrade);
      if selfTrade != "P" && selfTrade != "A" then
        Some(selfTrade + " must be either 'P' (prevent) or 'A' (allow)")
      else None
  }

  /** The order body, None values filtered out. */
  function PlaceOrderBody(order: OrderRequest): Entries
  {
    DropNone([
      ("marketId", order.marketId),
      ("price", order.price),
      ("amount", order.amount),
      ("type", order.orderType),
      ("side", order.side),
      ("selfTrade", Str(Upper(order.selfTrade))),
      ("timeInForce", order.timeInForce),
      ("postOnly", order.postOnly),
      ("triggerPrice", order.triggerPrice),
      ("targetAmount", order.targetAmount),
      ("clientOrderId", order.clientOrderId)])
  }

  /** `place_order`. The body is serialised here and the resulting string is
      what `makeHttpCall` serialises again. */
  function PlaceOrder(client: Client, order: OrderRequest, dumps: Value -> string): Outcome
  {
    match PlaceOrderError(order)
    case Some(msg) => HandleError(client, msg)
    case None => Sent(Call("POST", "/v3/orders", Null, Str(dumps(Dict(PlaceOrderBody(order))))))
  }

  /** The argument each wire field of an order comes from. */
  function OrderField(order: OrderRequest, name: string): Value
  {
    match name
    case "marketId" => order.marketId
    case "price" => order.price
    case "amount" => order.amount
    case "type" => order.orderType
    case "side" => order.side
    case "selfTrade" => Str(Upper(order.selfTrade))
    case "timeInForce" => order.timeInForce
    case "postOnly" => order.postOnly
    case "triggerPrice" => order.triggerPrice
    case "targetAmount" => order.targetAmount
    case "clientOrderId" => order.clientOrderId
    case _ => Null
  }

  lemma OrderFieldsDistinct()
    ensures NoDuplicates(OrderFields)
  {
    assert OrderFields[0][0] != OrderFields[7][0];
    assert OrderFields[3][0] != OrderFields[4][0];
    assert OrderFields[8][1] != OrderFields[9][1];
  }

  /** The body holds exactly the given fields, in the source's order, and
      `selfTrade` upper-cased. */
  lemma PlaceOrderBodySpec(order: OrderRequest)
    ensures ExactlyNonNull(PlaceOrderBody(order), OrderFields, k => OrderField(order, k))
    ensures Lookup(PlaceOrderBody(order), "selfTrade") == Some(Str(Upper(order.selfTrade)))
  {
    var value := k => OrderField(order, k);
    assert [
      ("marketId", order.marketId),
      ("price", order.price),
      ("amount", order.amount),
      ("type", order.orderType),
      ("side", order.side),
      ("selfTrade", Str(Upper(order.selfTrade))),
      ("timeInForce", order.timeInForce),
      ("postOnly", order.postOnly),
      ("triggerPrice", order.triggerPrice),
      ("targetAmount", order.targetAmount),
      ("clientOrderId", order.clientOrderId)] == Fields(OrderFields, value);
    OrderFieldsDistinct();
    DropNoneFields(OrderFields, value);
    assert "selfTrade" in OrderFields;
  }

  /** `place_order` sends the order exactly when a stop-type order has a
      trigger price and the self-trade flag is `p`, `P`, `a` or `A`; otherwise
      it ends as `handle_error` does. */
  lemma PlaceOrderSpec(client: Client, order: OrderRequest, dumps: Value -> string)
    ensures PlaceOrder(client, order, dumps).Sent? <==>
              && (order.orderType in StopOrderTypes ==> order.triggerPrice != Null)
              && order.selfTrade in ["P", "p", "A", "a"]
    ensures !PlaceOrder(client, order, dumps).Sent? ==> Rejected(client, PlaceOrder(client, order, dumps))
    ensures PlaceOrder(client, order, dumps).Sent? ==>
              PlaceOrder(client, order, dumps).call
                == Call("POST", "/v3/orders", Null, Str(dumps(Dict(PlaceOrderBody(order)))))
  {
    UpperSingleLetter(order.selfTrade, 'P');
    UpperSingleLetter(order.selfTrade, 'A');
  }

  /** The defaults pass the self-trade check: an order with defaults is
      rejected only for a missing trigger price. */
  lemma DefaultOrderSpec(client: Client, marketId: Value, price: Value, amount: Value, side: Value,
                         orderType: Value, dumps: Value -> string)
    ensures var order := DefaultOrder(marketId, price, amount, side, orderType);
            PlaceOrder(client, order, dumps).Sent? <==> orderType !in StopOrderTypes
  {
    PlaceOrderSpec(client, DefaultOrder(marketId, price, amount, side, orderType), dumps);
  }

  // ---------------------------------------------------------------------
  // place_and_cancel_orders

  /** The batch list: each placement wrapped as `{"placeOrder": o}`, in order,
      then each cancellation wrapped as `{"cancelOrder": o}`, in order. */
  predicate IsBatch(batch: seq<Value>, place: seq<Value>, cancel: seq<Value>)
  {
    && |batch| == |place| + |cancel|
    && (forall i :: 0 <= i < |place| ==> batch[i] == Dict([("placeOrder", place[i])]))
    && (forall j :: 0 <= j < |cancel| ==> batch[|place| + j] == Dict([("cancelOrder", cancel[j])]))
  }

  /** The two appending loops of `place_and_cancel_orders`. */
  method BatchOrders(place: seq<Value>, cancel: seq<Value>) returns (batch: seq<Value>)
    ensures IsBatch(batch, place, cancel)
  {
    batch := [];
    for i := 0 to |place|
      invariant |batch| == i
      invariant forall k :: 0 <= k < i ==> batch[k] == Dict([("placeOrder", place[k])])
    {
      batch := batch + [Dict([("placeOrder", place[i])])];
    }
    for j := 0 to |cancel|
      invariant |batch| == |place| + j
      invariant forall k :: 0 <= k < |place| ==> batch[k] == Dict([("placeOrder", place[k])])
      invariant forall k :: 0 <= k < j ==> batch[|place| + k] == Dict([("cancelOrder", cancel[k])])
    {
      batch := batch + [Dict([("cancelOrder", cancel[j])])];
    }
  }

  /** The batch list is determined by its inputs. */
  lemma BatchUnique(b1: seq<Value>, b2: seq<Value>, place: seq<Value>, cancel: seq<Value>)
    requires IsBatch(b1, place, cancel) && IsBatch(b2, place, cancel)
    ensures b1 == b2
  {
    forall i | 0 <= i < |b1| ensures b1[i] == b2[i] {
      if i >= |place| {
        var j := i - |place|;
        assert b1[|place| + j] == Dict([("cancelOrder", cancel[j])]) == b2[|place| + j];
      }
    }
  }

  /** `place_and_cancel_orders`: one POST of the serialised batch list, which
      `makeHttpCall` serialises again. */
  method PlaceAndCancelOrders(place: seq<Value>, cancel: seq<Value>, dumps: Value -> string) returns (call: Call)
    ensures call.httpMethod == "POST" && call.path == "/v3/batchorders" && call.queryParams == Null
    ensures exists batch :: IsBatch(batch, place, cancel) && call.data == Str(dumps(List(batch)))
  {
    var batch := BatchOrders(place, cancel);
    call := Call("POST", "/v3/batchorders", Null, Str(dumps(List(batch))));
  }

  // ---------------------------------------------------------------------
  // orders_by_ids and cancel_orders_by_ids

  /** `f"/v3/batchorders/{','.join(ids)}"`. */
  function BatchOrdersPath(ids: seq<string>): string
  {
    "/v3/batchorders/" + Join(",", ids)
  }

  function OrdersByIds(ids: seq<string>): Call
  {
    Call("GET", BatchOrdersPath(ids), Null, Null)
  }

  function CancelOrdersByIds(ids: seq<string>): Call
  {
    Call("DELETE", BatchOrdersPath(ids), Null, Null)
  }

  /** `orders_by_ids` is a GET of the batch path with no query and no body;
      the ids are part of the signed path and read back from it by splitting
      on commas. */
  lemma OrdersByIdsSpec(ids: seq<string>)
    ensures OrdersByIds(ids).httpMethod == "GET" && OrdersByIds(ids).path == BatchOrdersPath(ids)
    ensures OrdersByIds(ids).queryParams == Null && OrdersByIds(ids).data == Null
    ensures |ids| >= 1 && (forall i :: 0 <= i < |ids| ==> ',' !in ids[i]) ==>
              Split(OrdersByIds(ids).path[|"/v3/batchorders/"|..], ',') == ids
  {
    if |ids| >= 1 && (forall i :: 0 <= i < |ids| ==> ',' !in ids[i]) {
      BatchOrdersPathSpec(ids);
    }
  }

  /** `cancel_orders_by_ids` is a DELETE of the same path `orders_by_ids`
      reads, with no query and no body; the ids are read back from it by
      splitting on commas. */
  lemma CancelOrdersByIdsSpec(ids: seq<string>)
    ensures CancelOrdersByIds(ids).httpMethod == "DELETE" && CancelOrdersByIds(ids).path == OrdersByIds(ids).path
    ensures CancelOrdersByIds(ids).queryParams == Null && CancelOrdersByIds(ids).data == Null
    ensures |ids| >= 1 && (forall i :: 0 <= i < |ids| ==> ',' !in ids[i]) ==>
              Split(CancelOrdersByIds(ids).path[|"/v3/batchorders/"|..], ',') == ids
  {
    if |ids| >= 1 && (forall i :: 0 <= i < |ids| ==> ',' !in ids[i]) {
      BatchOrdersPathSpec(ids);
    }
  }

  /** The ids can be read back from the path by splitting on commas, when none
      of them contains a comma. */
  lemma BatchOrdersPathSpec(ids: seq<string>)
    requires |ids| >= 1
    requires forall i :: 0 <= i < |ids| ==> ',' !in ids[i]
    ensures var p := BatchOrdersPath(ids);
            && p[..|"/v3/batchorders/"|] == "/v3/batchorders/"
            && Split(p[|"/v3/batchorders/"|..], ',') == ids
  {
    SplitJoin(ids, ',');
    assert BatchOrdersPath(ids)[|"/v3/batchorders/"|..] == Join(",", ids);
  }

  // ---------------------------------------------------------------------
  // request_withdrawal

  /** The arguments of `request_withdrawal`; the optional ones are strings or
      None. */
  datatype Withdrawal = Withdrawal(
    assetName: Value, amount: Value, toAddress: Option<string>,
    accountName: Option<string>, accountNumber: Option<string>, bsbNumber: Option<string>, bankName: Option<string>,
    paymentDescription: Option<string>, clientTransferId: Option<string>)

  const WithdrawalFields: seq<string> :=
    ["assetName", "amount", "toAddress", "accountName", "accountNumber", "bsbNumber", "bankName",
     "paymentDescription", "clientTransferId"]

  /** The truth value of an optional string: given and not empty. */
  predicate Given(s: Option<string>)
  {
    s.Some? && s.value != ""
  }

  function Wire(s: Option<string>): Value
  {
    if s.Some? then Str(s.value) else Null
  }

  /** Python's `any` over optional strings. */
  predicate AnyGiven(xs: seq<Option<string>>)
  {
    xs != [] && (Given(xs[0]) || AnyGiven(xs[1..]))
  }

  /** Python's `all` over optional strings. */
  predicate AllGiven(xs: seq<Option<string>>)
  {
    xs == [] || (Given(xs[0]) && AllGiven(xs[1..]))
  }

  lemma {:induction false} AnyAllGiven(xs: seq<Option<string>>)
    ensures AnyGiven(xs) <==> exists i :: 0 <= i < |xs| && Given(xs[i])
    ensures AllGiven(xs) <==> forall i :: 0 <= i < |xs| ==> Given(xs[i])
  {
    if xs != [] {
      AnyAllGiven(xs[1..]);
      assert forall i :: 1 <= i < |xs| ==> xs[i] == xs[1..][i - 1];
      if AnyGiven(xs) && !Given(xs[0]) {
        var i :| 0 <= i < |xs[1..]| && Given(xs[1..][i]);
        assert Given(xs[i + 1]);
      }
    }
  }

  function BankDetails(w: Withdrawal): seq<Option<string>>
  {
    [w.accountName, w.accountNumber, w.bsbNumber, w.bankName]
  }

  /** The reason `request_withdrawal` rejects a request, if it does. */
  function WithdrawalError(w: Withdrawal): Option<string>
  {
    if !Truthy(w.assetName) || !w.assetName.Str? then Some("Asset name must be a non-empty string.")
    else if !Truthy(w.amount) || !w.amount.Str? then Some("Amount must be a non-empty string.")
    else if w.assetName == Str("AUD") then
      if AnyGiven(BankDetails(w)) && !AllGiven(BankDetails(w)) then
        Some("For AUD withdrawals, all bank details must be provided if any are provided.")
      else if Given(w.paymentDescription) && |w.paymentDescription.value| > 18 then
        Some("Payment description must be less than or equal to 18 characters.")
      else None
    else if !Given(w.toAddress) then
      Some("Destination address is mandatory for crypto asset withdrawals.")
    else None
  }

  /** The withdrawal body, None values filtered out. */
  function WithdrawalBody(w: Withdrawal): Entries
  {
    DropNone([
      ("assetName", w.assetName),
      ("amount", w.amount),
      ("toAddress", Wire(w.toAddress)),
      ("accountName", Wire(w.accountName)),
      ("accountNumber", Wire(w.accountNumber)),
      ("bsbNumber", Wire(w.bsbNumber)),
      ("bankName", Wire(w.bankName)),
      ("paymentDescription", Wire(w.paymentDescription)),
      ("clientTransferId", Wire(w.clientTransferId))])
  }

  /** `request_withdrawal`: the body dictionary is passed as is, so it is
      serialised once. */
  function RequestWithdrawal(client: Client, w: Withdrawal): Outcome
  {
    match WithdrawalError(w)
    case Some(msg) => HandleError(client, msg)
    case None => Sent(Call("POST", "/v3/withdrawals", Null, Dict(WithdrawalBody(w))))
  }

  /** What a valid withdrawal request is: a non-empty asset name and amount,
      both strings; for AUD, the four bank details all given or none given and
      a payment description of at most 18 characters; for any other asset, a
      destination address. */
  predicate ValidWithdrawal(w: Withdrawal)
  {
    && w.assetName.Str? && |w.assetName.s| > 0
    && w.amount.Str? && |w.amount.s| > 0
    && (w.assetName.s == "AUD" ==>
          && BankDetailsConsistent(w)
          && (w.paymentDescription.Some? ==> |w.paymentDescription.value| <= 18))
    && (w.assetName.s != "AUD" ==> w.toAddress.Some? && w.toAddress.value != "")
  }

  /** The four bank details are all given or none is. */
  predicate BankDetailsConsistent(w: Withdrawal)
  {
    (forall i :: 0 <= i < 4 ==> Given(BankDetails(w)[i])) || (forall i :: 0 <= i < 4 ==> !Given(BankDetails(w)[i]))
  }

  lemma BankDetailsCheck(w: Withdrawal)
    ensures BankDetailsConsistent(w) <==> !(AnyGiven(BankDetails(w)) && !AllGiven(BankDetails(w)))
  {
    AnyAllGiven(BankDetails(w));
  }

  function WithdrawalField(w: Withdrawal, name: string): Value
  {
    match name
    case "assetName" => w.assetName
    case "amount" => w.amount
    case "toAddress" => Wire(w.toAddress)
    case "accountName" => Wire(w.accountName)
    case "accountNumber" => Wire(w.accountNumber)
    case "bsbNumber" => Wire(w.bsbNumber)
    case "bankName" => Wire(w.bankName)
    case "paymentDescription" => Wire(w.paymentDescription)
    case "clientTransferId" => Wire(w.clientTransferId)
    case _ => Null
  }

  lemma WithdrawalFieldsDistinct()
    ensures NoDuplicates(WithdrawalFields)
  {
    assert WithdrawalFields[0][0] != WithdrawalFields[2][0];
    assert WithdrawalFields[0][0] != WithdrawalFields[5][0];
    assert WithdrawalFields[2][0] != WithdrawalFields[5][0];
  }

  /** `request_withdrawal` sends the request exactly when it is valid;
      otherwise it ends as `handle_error` does. */
  lemma RequestWithdrawalSpec(client: Client, w: Withdrawal)
    ensures RequestWithdrawal(client, w).Sent? <==> ValidWithdrawal(w)
    ensures !RequestWithdrawal(client, w).Sent? ==> Rejected(client, RequestWithdrawal(client, w))
    ensures RequestWithdrawal(client, w).Sent? ==>
              RequestWithdrawal(client, w).call == Call("POST", "/v3/withdrawals", Null, Dict(WithdrawalBody(w)))
  {
    WithdrawalErrorSpec(w);
  }

  lemma WithdrawalErrorSpec(w: Withdrawal)
    ensures WithdrawalError(w).None? <==> ValidWithdrawal(w)
  {
    if !(w.assetName.Str? && w.amount.Str? && |w.assetName.s| > 0 && |w.amount.s| > 0) {
    } else if w.assetName.s == "AUD" {
      BankDetailsCheck(w);
    }
  }

  /** The body holds exactly the given fields, in the source's order. */
  lemma WithdrawalBodySpec(w: Withdrawal)
    ensures ExactlyNonNull(WithdrawalBody(w), WithdrawalFields, k => WithdrawalField(w, k))
  {
    var value := k => WithdrawalField(w, k);
    assert [
      ("assetName", w.assetName),
      ("amount", w.amount),
      ("toAddress", Wire(w.toAddress)),
      ("accountName", Wire(w.accountName)),
      ("accountNumber", Wire(w.accountNumber)),
      ("bsbNumber", Wire(w.bsbNumber)),
      ("bankName", Wire(w.bankName)),
      ("paymentDescription", Wire(w.paymentDescription)),
      ("clientTransferId", Wire(w.clientTransferId))] == Fields(WithdrawalFields, value);
    WithdrawalFieldsDistinct();
    DropNoneFields(WithdrawalFields, value);
  }
}

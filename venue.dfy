/**
 * What the trading venue hands to the bot and what the bot hands back. Responses are
 * Python dictionaries; a key the response may lack is an Option here.
 */
module Venue {
  import opened Wrappers
  import opened TimeOrder

  /** One entry of a best-bid/ask response; its "symbol" key is taken to be present. */
  datatype QuoteEntry = QuoteEntry(
    symbol: string,
    timestamp: Option<Timestamp>,
    price: Option<real>,
    ask: Option<real>,   // "ask_inclusive_of_buy_spread"
    bid: Option<real>)   // "bid_inclusive_of_sell_spread"

  /** A non-empty best-bid/ask response; `results` is None when the key is absent. */
  datatype Quote = Quote(results: Option<seq<QuoteEntry>>)

  /** `response and "results" in response`, for a response that may be None or empty. */
  predicate HasResults(q: Option<Quote>) {
    q.Some? && q.value.results.Some?
  }

  /** `response and "results" in response and response["results"]`. */
  predicate HasEntries(q: Option<Quote>) {
    HasResults(q) && q.value.results.value != []
  }

  /** `next((item for item in entries if item["symbol"] == symbol), None)`. */
  function FirstFor(entries: seq<QuoteEntry>, symbol: string): (r: Option<QuoteEntry>)
    ensures r.None? <==> forall i :: 0 <= i < |entries| ==> entries[i].symbol != symbol
    ensures r.Some? ==> r.value.symbol == symbol
    ensures r.Some? ==> exists k :: (0 <= k < |entries| && entries[k] == r.value && forall i :: 0 <= i < k ==> entries[i].symbol != symbol)
    decreases |entries|
  {
    if entries == [] then None
    else if entries[0].symbol == symbol then Some(entries[0])
    else
      var r := FirstFor(entries[1..], symbol);
      assert forall i :: 1 <= i < |entries| ==> entries[i] == entries[1..][i - 1];
      if r.Some? then
        var k :| 0 <= k < |entries[1..]| && entries[1..][k] == r.value && forall i :: 0 <= i < k ==> entries[1..][i].symbol != symbol;
        assert entries[k + 1] == r.value;
        r
      else r
  }

  /** One holding: "asset_code" and "total_quantity", each None when the key is absent. */
  datatype Holding = Holding(assetCode: Option<string>, quantity: Option<real>)

  /** The holdings response: a dictionary (with or without "results"), a bare list, or None. */
  datatype Holdings =
    | HoldingsDict(results: Option<seq<Holding>>)
    | HoldingsList(items: seq<Holding>)
    | NoHoldings

  /** An executed order as the venue reports it; any key may be missing. */
  datatype Order = Order(
    id: Option<string>,
    createdAt: Option<Timestamp>,
    updatedAt: Option<Timestamp>,
    side: Option<string>,
    state: Option<string>,
    averagePrice: Option<real>,
    filledQuantity: Option<real>,
    limitConfig: Option<string>,      // a configuration object, carried as its JSON text
    stopLossConfig: Option<string>,
    stopLimitConfig: Option<string>)

  datatype Side = Buy | Sell

  /** An order submitted to the venue; a stop-loss carries its stop price. */
  datatype OrderIntent = OrderIntent(side: Side, coin: string, price: real, quantity: real, stopPrice: Option<real>)

  /** The venue's order entry, seen as the log of the orders submitted to it. */
  class OrderDesk {
    var placed: seq<OrderIntent>

    constructor ()
      ensures placed == []
    {
      placed := [];
    }

    /** `place_order(side, coin, price, quantity[, stop_price])`: one more order is submitted. */
    method PlaceOrder(side: Side, coin: string, price: real, quantity: real, stopPrice: Option<real>)
      modifies this
      ensures placed == old(placed) + [OrderIntent(side, coin, price, quantity, stopPrice)]
    {
      placed := placed + [OrderIntent(side, coin, price, quantity, stopPrice)];
    }
  }
}

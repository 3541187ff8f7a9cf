/**
 * The `update_order_history` job: for each symbol it asks the venue for the orders created
 * since the table's latest `updated_at` and upserts them into `<coin>_order_history`.
 */
module OrderHistoryJob {
  import opened Wrappers
  import opened TimeOrder
  import opened TableNames
  import opened KeyedTable
  import opened Database

  /** The start cursor when a table holds no order yet. */
  const DefaultStart: string := "2022-01-01T00:00:00Z"
  const OrdersPrefix: string := "/api/v1/crypto/trading/orders/?limit=500&symbol="
  const CursorParameter: string := "&created_at_start="

  /** The job's symbols. */
  const Symbols: seq<string> := ["XRP-USD", "ADA-USD", "SOL-USD", "ETC-USD", "XTZ-USD", "LINK-USD", "UNI-USD"]

  /** A venue reply to the orders request: None when there is no reply, `results` None when the key is absent. */
  datatype OrdersReply = OrdersReply(results: Option<seq<OrderData>>)

  /** The stored updated_at in ISO form with a "Z" appended, or the default start. */
  function StartCursor(last: Option<Timestamp>): (r: string)
    ensures last.None? ==> r == DefaultStart
    ensures last.Some? ==> |r| == |last.value| + 1 && r[..|last.value|] == last.value && r[|last.value|] == 'Z'
  {
    match last
    case None => DefaultStart
    case Some(t) => t + "Z"
  }

  function OrdersPath(symbol: string, cursor: string): string {
    OrdersPrefix + symbol + CursorParameter + cursor
  }

  /** The request path `fetch_new_orders` builds from the symbol's table. */
  function RequestPath(tables: map<string, seq<StoredOrder>>, symbol: string): string {
    OrdersPath(symbol, StartCursor(LastStoredUpdatedAt(OrderRowsIn(tables, OrderHistoryTable(symbol)))))
  }

  /** `fetch_new_orders`: the reply's results, or nothing without a reply or a "results" key. */
  function NewOrders(tables: map<string, seq<StoredOrder>>, symbol: string, request: string -> Option<OrdersReply>): (r: seq<OrderData>)
    ensures request(RequestPath(tables, symbol)).None? ==> r == []
    ensures request(RequestPath(tables, symbol)).Some? && request(RequestPath(tables, symbol)).value.results.None? ==> r == []
  {
    match request(RequestPath(tables, symbol))
    case None => []
    case Some(reply) => reply.results.GetOr([])
  }

  /** The request, hence the fetched orders, depend on the symbol's own table only. */
  lemma NewOrdersReadOwnTable(t1: map<string, seq<StoredOrder>>, t2: map<string, seq<StoredOrder>>, symbol: string, request: string -> Option<OrdersReply>)
    requires OrderRowsIn(t1, OrderHistoryTable(symbol)) == OrderRowsIn(t2, OrderHistoryTable(symbol))
    ensures RequestPath(t1, symbol) == RequestPath(t2, symbol)
    ensures NewOrders(t1, symbol, request) == NewOrders(t2, symbol, request)
  {
  }

  /** Upserting the orders one by one; the first KeyError ends the symbol, keeping what was stored. */
  function StoreOrders(tables: map<string, seq<StoredOrder>>, name: string, orders: seq<OrderData>): map<string, seq<StoredOrder>>
    decreases |orders|
  {
    if orders == [] then tables
    else
      match StoredOrderOf(orders[0])
      case Failure(_) => tables
      case Success(row) => StoreOrders(tables[name := Upsert(OrderRowsIn(tables, name), row)], name, orders[1..])
  }

  /** One symbol of the job, storing into the symbol's order-history table. */
  function SymbolStep(tables: map<string, seq<StoredOrder>>, symbol: string, request: string -> Option<OrdersReply>): map<string, seq<StoredOrder>> {
    StoreOrders(tables, OrderHistoryTable(symbol), NewOrders(tables, symbol, request))
  }

  /** The job over a list of symbols, in order. */
  function UpdateAll(tables: map<string, seq<StoredOrder>>, symbols: seq<string>, request: string -> Option<OrdersReply>): map<string, seq<StoredOrder>>
    decreases |symbols|
  {
    if symbols == [] then tables
    else UpdateAll(SymbolStep(tables, symbols[0], request), symbols[1..], request)
  }

  /** The error the job logs for a symbol AS WRITTEN. */
  datatype JobError = NoSuchMethod   // AttributeError: insert_or_update_order_history

  /**
   * One symbol AS WRITTEN: `DatabaseManager` has no `insert_or_update_order_history`, so the
   * first order raises; the step stores nothing either way.
   */
  function SymbolStepAsWritten(tables: map<string, seq<StoredOrder>>, symbol: string, request: string -> Option<OrdersReply>): Result<map<string, seq<StoredOrder>>, JobError> {
    if NewOrders(tables, symbol, request) == [] then Success(tables) else Failure(NoSuchMethod)
  }

  // ---- Properties ----

  /** An empty table starts from the default cursor; otherwise from its latest updated_at. */
  lemma RequestPathCursor(tables: map<string, seq<StoredOrder>>, symbol: string)
    ensures OrderRowsIn(tables, OrderHistoryTable(symbol)) == [] ==> RequestPath(tables, symbol) == OrdersPath(symbol, DefaultStart)
    ensures OrderRowsIn(tables, OrderHistoryTable(symbol)) != [] ==>
      var rows := OrderRowsIn(tables, OrderHistoryTable(symbol));
      exists t :: RequestPath(tables, symbol) == OrdersPath(symbol, t + "Z") &&
        (exists i :: 0 <= i < |rows| && rows[i].updated.updatedAt == t) &&
        (forall i :: 0 <= i < |rows| ==> NotAfter(rows[i].updated.updatedAt, t))
  {
    var rows := OrderRowsIn(tables, OrderHistoryTable(symbol));
    LastStoredUpdatedAtIsMaximum(rows);
    if rows != [] {
      var t := LastStoredUpdatedAt(rows).value;
      assert RequestPath(tables, symbol) == OrdersPath(symbol, t + "Z");
    }
  }

  /** The cursor can be read back from the request path. */
  lemma PathCursorRoundTrip(symbol: string, cursor: string)
    ensures OrdersPath(symbol, cursor)[|OrdersPrefix + symbol + CursorParameter|..] == cursor
    ensures OrdersPath(symbol, cursor)[|OrdersPrefix|..|OrdersPrefix + symbol|] == symbol
  {
    var s := OrdersPath(symbol, cursor);
    assert s == (OrdersPrefix + symbol + CursorParameter) + cursor;
    assert s == OrdersPrefix + (symbol + CursorParameter + cursor);
  }

  /** Storing orders touches only the named table. */
  lemma {:induction false} StoreOrdersOnlyNamedTable(tables: map<string, seq<StoredOrder>>, name: string, orders: seq<OrderData>, other: string)
    requires other != name
    ensures OrderRowsIn(StoreOrders(tables, name, orders), other) == OrderRowsIn(tables, other)
    decreases |orders|
  {
    if orders != [] && StoredOrderOf(orders[0]).Success? {
      var row := StoredOrderOf(orders[0]).value;
      StoreOrdersOnlyNamedTable(tables[name := Upsert(OrderRowsIn(tables, name), row)], name, orders[1..], other);
    }
  }

  /** Orders after the first incomplete one are never stored. */
  lemma {:induction false} StoreOrdersStopsAtIncomplete(tables: map<string, seq<StoredOrder>>, name: string, orders: seq<OrderData>, k: nat)
    requires k < |orders| && MissingKeys(orders[k]) != []
    ensures StoreOrders(tables, name, orders) == StoreOrders(tables, name, orders[..k])
    decreases k
  {
    StoredOrderOfReportsFirstMissingKey(orders[k]);
    if k == 0 {
      assert orders[..k] == [];
    } else {
      assert orders[..k][0] == orders[0];
      assert orders[..k][1..] == orders[1..][..k - 1];
      if StoredOrderOf(orders[0]).Success? {
        var row := StoredOrderOf(orders[0]).value;
        StoreOrdersStopsAtIncomplete(tables[name := Upsert(OrderRowsIn(tables, name), row)], name, orders[1..], k - 1);
      }
    }
  }

  /** An id present in the table stays present after an upsert. */
  lemma UpsertKeepsPresent(rows: seq<StoredOrder>, row: StoredOrder, id: string)
    requires Find(rows, id).Some?
    ensures Find(Upsert(rows, row), id).Some?
  {
    if id == row.id {
      UpsertStoresRow(rows, row);
    } else {
      UpsertKeepsOthers(rows, row, id);
    }
  }

  lemma {:induction false} StoreOrdersKeepsPresent(tables: map<string, seq<StoredOrder>>, name: string, orders: seq<OrderData>, id: string)
    requires Find(OrderRowsIn(tables, name), id).Some?
    ensures Find(OrderRowsIn(StoreOrders(tables, name, orders), name), id).Some?
    decreases |orders|
  {
    if orders != [] && StoredOrderOf(orders[0]).Success? {
      var row := StoredOrderOf(orders[0]).value;
      UpsertKeepsPresent(OrderRowsIn(tables, name), row, id);
      StoreOrdersKeepsPresent(tables[name := Upsert(OrderRowsIn(tables, name), row)], name, orders[1..], id);
    }
  }

  /** When every order is complete, every order's id ends up in the table. */
  lemma {:induction false} CompleteOrdersAllStored(tables: map<string, seq<StoredOrder>>, name: string, orders: seq<OrderData>, i: nat)
    requires forall j :: 0 <= j < |orders| ==> MissingKeys(orders[j]) == []
    requires i < |orders|
    ensures orders[i].id.Some? && Find(OrderRowsIn(StoreOrders(tables, name, orders), name), orders[i].id.value).Some?
    decreases i
  {
    StoredOrderOfReportsFirstMissingKey(orders[i]);
    StoredOrderOfReportsFirstMissingKey(orders[0]);
    var row := StoredOrderOf(orders[0]).value;
    var next := tables[name := Upsert(OrderRowsIn(tables, name), row)];
    if i == 0 {
      UpsertStoresRow(OrderRowsIn(tables, name), row);
      assert Find(OrderRowsIn(next, name), row.id).Some?;
      StoreOrdersKeepsPresent(next, name, orders[1..], row.id);
    } else {
      assert orders[i] == orders[1..][i - 1];
      assert forall j :: 0 <= j < |orders[1..]| ==> orders[1..][j] == orders[j + 1];
      CompleteOrdersAllStored(next, name, orders[1..], i - 1);
    }
  }

  /** A symbol whose requests all go unanswered leaves no trace, wherever it is in the list. */
  lemma {:induction false} UnansweredSymbolSkipped(tables: map<string, seq<StoredOrder>>, pre: seq<string>, s: string, post: seq<string>, request: string -> Option<OrdersReply>)
    requires forall c :: request(OrdersPath(s, c)).None?
    ensures UpdateAll(tables, pre + [s] + post, request) == UpdateAll(tables, pre + post, request)
    decreases |pre|
  {
    if pre == [] {
      assert pre + [s] + post == [s] + post;
      assert ([s] + post)[1..] == post;
      assert pre + post == post;
      assert request(RequestPath(tables, s)).None?;
      assert SymbolStep(tables, s, request) == tables;
    } else {
      assert (pre + [s] + post)[1..] == pre[1..] + [s] + post;
      assert (pre + post)[1..] == pre[1..] + post;
      UnansweredSymbolSkipped(SymbolStep(tables, pre[0], request), pre[1..], s, post, request);
    }
  }

  /** AS WRITTEN a step never stores anything, and it fails exactly when there are new orders. */
  lemma AsWrittenStoresNothing(tables: map<string, seq<StoredOrder>>, symbol: string, request: string -> Option<OrdersReply>)
    ensures SymbolStepAsWritten(tables, symbol, request).Failure? <==> NewOrders(tables, symbol, request) != []
    ensures SymbolStepAsWritten(tables, symbol, request).Success? ==> SymbolStepAsWritten(tables, symbol, request).value == tables
  {
  }

  /** One complete new order: the corrected step stores it, the step as written fails and stores nothing. */
  lemma OneNewOrderDiscrepancy(d: OrderData, request: string -> Option<OrdersReply>)
    requires MissingKeys(d) == []
    requires request(OrdersPath("BTC-USD", DefaultStart)) == Some(OrdersReply(Some([d])))
    ensures Find(OrderRowsIn(SymbolStep(map[], "BTC-USD", request), "btc_order_history"), d.id.value).Some?
    ensures SymbolStepAsWritten(map[], "BTC-USD", request) == Failure(NoSuchMethod)
  {
    BitcoinTables();
    assert OrderRowsIn(map[], OrderHistoryTable("BTC-USD")) == [];
    assert LastStoredUpdatedAt([]) == None;
    assert RequestPath(map[], "BTC-USD") == OrdersPath("BTC-USD", DefaultStart);
    assert NewOrders(map[], "BTC-USD", request) == [d];
    CompleteOrdersAllStored(map[], "btc_order_history", [d], 0);
  }

  // ---- The job against a DatabaseManager ----

  /** `fetch_new_orders(api_client, db_mgr, symbol)`. */
  method FetchNewOrders(db: DatabaseManager, symbol: string, request: string -> Option<OrdersReply>) returns (orders: seq<OrderData>)
    ensures orders == NewOrders(db.orderTables, symbol, request)
  {
    var last := db.GetLastUpdatedAt(OrderHistoryTable(symbol));
    LastStoredUpdatedAtIsMaximum(OrderRowsIn(db.orderTables, OrderHistoryTable(symbol)));
    assert last == LastStoredUpdatedAt(OrderRowsIn(db.orderTables, OrderHistoryTable(symbol))) by {
      if last.Some? {
        NotAfterAntisymmetric(last.value, LastStoredUpdatedAt(OrderRowsIn(db.orderTables, OrderHistoryTable(symbol))).value);
      }
    }
    var reply := request(OrdersPath(symbol, StartCursor(last)));
    if reply.None? || reply.value.results.None? {
      return [];
    }
    orders := reply.value.results.value;
  }

  /** The inner loop: upsert each order until one lacks a key. */
  method StoreNewOrders(db: DatabaseManager, name: string, orders: seq<OrderData>)
    modifies db
    ensures db.orderTables == StoreOrders(old(db.orderTables), name, orders)
    ensures db.valueTables == old(db.valueTables)
    ensures old(db.Valid()) ==> db.Valid()
  {
    var i := 0;
    while i < |orders|
      invariant 0 <= i <= |orders|
      invariant StoreOrders(db.orderTables, name, orders[i..]) == StoreOrders(old(db.orderTables), name, orders)
      invariant db.valueTables == old(db.valueTables)
      invariant old(db.Valid()) ==> db.Valid()
    {
      assert orders[i..][0] == orders[i] && orders[i..][1..] == orders[i + 1..];
      var outcome := db.InsertOrUpdateOrder(name, orders[i]);
      if outcome.Fail? {
        StoredOrderOfReportsFirstMissingKey(orders[i]);
        return;
      }
      StoredOrderOfReportsFirstMissingKey(orders[i]);
      i := i + 1;
    }
  }

  /** `main`'s loop over the symbols, with the corrected store call. */
  method RunJob(db: DatabaseManager, symbols: seq<string>, request: string -> Option<OrdersReply>)
    modifies db
    ensures db.orderTables == UpdateAll(old(db.orderTables), symbols, request)
    ensures db.valueTables == old(db.valueTables)
    ensures old(db.Valid()) ==> db.Valid()
  {
    var i := 0;
    while i < |symbols|
      invariant 0 <= i <= |symbols|
      invariant UpdateAll(db.orderTables, symbols[i..], request) == UpdateAll(old(db.orderTables), symbols, request)
      invariant db.valueTables == old(db.valueTables)
      invariant old(db.Valid()) ==> db.Valid()
    {
      assert symbols[i..][0] == symbols[i] && symbols[i..][1..] == symbols[i + 1..];
      var orders := FetchNewOrders(db, symbols[i], request);
      StoreNewOrders(db, OrderHistoryTable(symbols[i]), orders);
      i := i + 1;
    }
  }
}

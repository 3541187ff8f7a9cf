/**
 * The DatabaseManager: the value-history insert and newest-48 fetch, the `<coin>_order_history`
 * upsert over order dictionaries whose ten keys are all required, and the latest `updated_at`.
 */
module Database {
  import opened Wrappers
  import opened TimeOrder
  import opened Venue
  import opened TableNames
  import opened KeyedTable
  import opened ValueHistory

  /** `fetch_data` returns at most this many rows. */
  const FetchedRows: nat := 48

  /** The order dictionary handed to `insert_or_update_order`; a missing key is None. */
  datatype OrderData = OrderData(
    id: Option<string>,
    timestamp: Option<Timestamp>,
    updatedAt: Option<Timestamp>,
    side: Option<string>,
    state: Option<string>,
    price: Option<real>,
    limitConfig: Option<string>,   // "limit_order_configuration"
    quantity: Option<real>,
    fee: Option<real>,
    orderType: Option<string>)     // "type"

  /** A KeyError for the named key. */
  datatype DbError = MissingKey(key: string)

  /** The columns a repeated id keeps. */
  datatype StoredKept = StoredKept(timestamp: Timestamp, side: string)

  /** The columns a repeated id overwrites. */
  datatype StoredUpdated = StoredUpdated(
    updatedAt: Timestamp,
    state: string,
    price: real,
    limitConfig: string,
    quantity: real,
    fee: real,
    orderType: string)

  type StoredOrder = Row<StoredKept, StoredUpdated>

  /** The keys `d` lacks, in the order the value tuple reads them. */
  function MissingKeys(d: OrderData): seq<string> {
    (if d.id.None? then ["id"] else []) +
    (if d.timestamp.None? then ["timestamp"] else []) +
    (if d.updatedAt.None? then ["updated_at"] else []) +
    (if d.side.None? then ["side"] else []) +
    (if d.state.None? then ["state"] else []) +
    (if d.price.None? then ["price"] else []) +
    (if d.limitConfig.None? then ["limit_order_configuration"] else []) +
    (if d.quantity.None? then ["quantity"] else []) +
    (if d.fee.None? then ["fee"] else []) +
    (if d.orderType.None? then ["type"] else [])
  }

  /** The value tuple, or the KeyError raised by its first missing key. */
  function StoredOrderOf(d: OrderData): (r: Result<StoredOrder, DbError>)
    ensures r.Failure? ==> r.error.MissingKey?
    ensures r.Success? ==> Some(r.value.id) == d.id && Some(r.value.kept.timestamp) == d.timestamp
    ensures r.Success? ==> Some(r.value.updated.updatedAt) == d.updatedAt && Some(r.value.updated.orderType) == d.orderType
  {
    if d.id.None? then Failure(MissingKey("id"))
    else if d.timestamp.None? then Failure(MissingKey("timestamp"))
    else if d.updatedAt.None? then Failure(MissingKey("updated_at"))
    else if d.side.None? then Failure(MissingKey("side"))
    else if d.state.None? then Failure(MissingKey("state"))
    else if d.price.None? then Failure(MissingKey("price"))
    else if d.limitConfig.None? then Failure(MissingKey("limit_order_configuration"))
    else if d.quantity.None? then Failure(MissingKey("quantity"))
    else if d.fee.None? then Failure(MissingKey("fee"))
    else if d.orderType.None? then Failure(MissingKey("type"))
    else Success(Row(d.id.value, StoredKept(d.timestamp.value, d.side.value),
                     StoredUpdated(d.updatedAt.value, d.state.value, d.price.value, d.limitConfig.value,
                                   d.quantity.value, d.fee.value, d.orderType.value)))
  }

  function OrderRowsIn(tables: map<string, seq<StoredOrder>>, name: string): seq<StoredOrder> {
    if name in tables then tables[name] else []
  }

  function StoredUpdatedAts(rows: seq<StoredOrder>): seq<Option<Timestamp>> {
    seq(|rows|, i requires 0 <= i < |rows| => Some(rows[i].updated.updatedAt))
  }

  /** `get_last_updated_at`: the latest stored updated_at. */
  function LastStoredUpdatedAt(rows: seq<StoredOrder>): Option<Timestamp> {
    Latest(StoredUpdatedAts(rows))
  }

  // ---- Properties ----

  /** The tuple is built exactly when no key is missing, and otherwise the first missing key is reported. */
  lemma StoredOrderOfReportsFirstMissingKey(d: OrderData)
    ensures StoredOrderOf(d).Success? <==> MissingKeys(d) == []
    ensures StoredOrderOf(d).Failure? ==> StoredOrderOf(d).error == MissingKey(MissingKeys(d)[0])
    ensures StoredOrderOf(d).Success? ==>
      var r := StoredOrderOf(d).value;
      r.id == d.id.value && r.kept.timestamp == d.timestamp.value && r.kept.side == d.side.value &&
      r.updated.updatedAt == d.updatedAt.value && r.updated.state == d.state.value &&
      r.updated.price == d.price.value && r.updated.limitConfig == d.limitConfig.value &&
      r.updated.quantity == d.quantity.value && r.updated.fee == d.fee.value &&
      r.updated.orderType == d.orderType.value
  {
  }

  /** A repeated id keeps its timestamp and side and takes the other seven values of the new order. */
  lemma UpsertOfStoredOrder(rows: seq<StoredOrder>, r: StoredOrder, stored: StoredOrder)
    requires Find(rows, r.id) == Some(stored)
    ensures Find(Upsert(rows, r), r.id) == Some(Row(r.id, stored.kept, r.updated))
  {
    UpsertStoresRow(rows, r);
  }

  /** The latest updated_at is None only for an empty table, and otherwise the maximum stored value. */
  lemma LastStoredUpdatedAtIsMaximum(rows: seq<StoredOrder>)
    ensures LastStoredUpdatedAt(rows).None? <==> rows == []
    ensures LastStoredUpdatedAt(rows).Some? ==> exists i :: 0 <= i < |rows| && rows[i].updated.updatedAt == LastStoredUpdatedAt(rows).value
    ensures forall i :: 0 <= i < |rows| ==>
      LastStoredUpdatedAt(rows).Some? && NotAfter(rows[i].updated.updatedAt, LastStoredUpdatedAt(rows).value)
  {
    var ts := StoredUpdatedAts(rows);
    LatestIsMaximum(ts);
    assert forall i :: 0 <= i < |rows| ==> ts[i] == Some(rows[i].updated.updatedAt);
    if rows != [] {
      assert ts[0].Some?;
    }
    if LastStoredUpdatedAt(rows).Some? {
      var i :| 0 <= i < |ts| && ts[i] == Latest(ts);
      assert rows[i].updated.updatedAt == LastStoredUpdatedAt(rows).value;
    }
  }

  /** A table still under 48 rows is fetched whole: the row just inserted is among those fetched. */
  lemma ShortTableFetchedWhole(rows: seq<ValueRow>)
    requires |rows| <= FetchedRows
    ensures multiset(TakeNewest(rows, FetchedRows)) == multiset(rows)
  {
    TakeNewestSelects(rows, FetchedRows);
    var a, b := multiset(TakeNewest(rows, FetchedRows)), multiset(rows);
    assert |a| == |b|;
    assert |b - a| == 0 by {
      assert b == a + (b - a);
    }
  }

  /** The DatabaseManager's tables. */
  class DatabaseManager {
    var valueTables: map<string, seq<ValueRow>>
    var orderTables: map<string, seq<StoredOrder>>

    /** The `order_id` primary key: no order table holds two rows with the same id. */
    ghost predicate Valid()
      reads this
    {
      forall name :: name in orderTables ==> DistinctIds(orderTables[name])
    }

    constructor ()
      ensures valueTables == map[] && orderTables == map[]
      ensures Valid()
    {
      valueTables := map[];
      orderTables := map[];
    }

    /** `insert_data(coin, coin_data)`, with the current time passed in as `now`. */
    method InsertData(coin: string, q: Quote, now: Timestamp)
      modifies this
      ensures valueTables == Appended(old(valueTables), coin, q, now)
      ensures orderTables == old(orderTables)
    {
      var row := ValueRowOf(q, now);
      if row.Some? {
        var name := ValueHistoryTable(coin);
        valueTables := valueTables[name := RowsOf(valueTables, name) + [row.value]];
      }
    }

    /** `fetch_data(coin)`: the newest 48 rows of the coin's table, newest first. */
    method FetchData(coin: string) returns (rows: seq<ValueRow>)
      ensures var table := RowsOf(valueTables, ValueHistoryTable(coin));
        |rows| == Min(FetchedRows, |table|) && multiset(rows) <= multiset(table) &&
        (forall i, j :: 0 <= i < j < |rows| ==> NotAfter(rows[j].timestamp, rows[i].timestamp)) &&
        (forall x, y :: x in multiset(table) - multiset(rows) && y in rows ==> NotAfter(x.timestamp, y.timestamp))
    {
      var table := RowsOf(valueTables, ValueHistoryTable(coin));
      TakeNewestSelects(table, FetchedRows);
      rows := TakeNewest(table, FetchedRows);
    }

    /** `insert_or_update_order(table_name, order_data)`: a KeyError leaves the tables unchanged. */
    method InsertOrUpdateOrder(name: string, d: OrderData) returns (r: Outcome<DbError>)
      modifies this
      ensures r.Pass? <==> MissingKeys(d) == []
      ensures r.Fail? ==> r.error == MissingKey(MissingKeys(d)[0]) && orderTables == old(orderTables)
      ensures r.Pass? ==> orderTables == old(orderTables)[name := Upsert(OrderRowsIn(old(orderTables), name), StoredOrderOf(d).value)]
      ensures valueTables == old(valueTables)
      ensures old(Valid()) ==> Valid()
    {
      StoredOrderOfReportsFirstMissingKey(d);
      var row := StoredOrderOf(d);
      if row.Failure? {
        return Fail(row.error);
      }
      UpsertIds(OrderRowsIn(orderTables, name), row.value);
      orderTables := orderTables[name := Upsert(OrderRowsIn(orderTables, name), row.value)];
      r := Pass;
    }

    /** `get_last_updated_at(table_name)`: None for an empty table, else the maximum updated_at. */
    method GetLastUpdatedAt(name: string) returns (r: Option<Timestamp>)
      ensures r.None? <==> OrderRowsIn(orderTables, name) == []
      ensures r.Some? ==> exists i :: 0 <= i < |OrderRowsIn(orderTables, name)| && OrderRowsIn(orderTables, name)[i].updated.updatedAt == r.value
      ensures forall i :: 0 <= i < |OrderRowsIn(orderTables, name)| ==>
        r.Some? && NotAfter(OrderRowsIn(orderTables, name)[i].updated.updatedAt, r.value)
    {
      LastStoredUpdatedAtIsMaximum(OrderRowsIn(orderTables, name));
      r := LastStoredUpdatedAt(OrderRowsIn(orderTables, name));
    }
  }
}

/**
 * The OrderHistoryManager's `<coin>_order_history` tables: how an executed order becomes a row,
 * which columns a repeated id overwrites, and the latest `updated_at` query.
 */
module OrderHistory {
  import opened Wrappers
  import opened TimeOrder
  import opened Venue
  import opened KeyedTable

  const NotAvailable: string := "N/A"
  /** `json.dumps({})`: how a missing order configuration is stored. */
  const EmptyConfig: string := "{}"

  /** The columns an upsert keeps from the stored row. */
  datatype KeptColumns = KeptColumns(timestamp: Option<Timestamp>, side: string)

  /** The columns an upsert overwrites. */
  datatype UpdatedColumns = UpdatedColumns(
    updatedAt: Option<Timestamp>,
    state: string,
    price: real,
    quantity: real,
    limitConfig: string,
    stopLossConfig: string,
    stopLimitConfig: string)

  type OrderRow = Row<KeptColumns, UpdatedColumns>

  /**
   * The ten values `insert_or_update_order` extracts: "N/A" for a missing id, side or state,
   * None for a missing created_at (stored as `timestamp`) or updated_at, 0.0 for a missing
   * average_price or filled_asset_quantity, and "{}" for a missing configuration.
   */
  function RowOf(o: Order): (r: OrderRow)
    ensures o.id.Some? ==> r.id == o.id.value
    ensures r.kept.timestamp == o.createdAt && r.updated.updatedAt == o.updatedAt
    ensures o.averagePrice.Some? ==> r.updated.price == o.averagePrice.value
    ensures o.averagePrice.None? ==> r.updated.price == 0.0
  {
    Row(o.id.GetOr(NotAvailable),
        KeptColumns(o.createdAt, o.side.GetOr(NotAvailable)),
        UpdatedColumns(o.updatedAt, o.state.GetOr(NotAvailable),
                       o.averagePrice.GetOr(0.0), o.filledQuantity.GetOr(0.0),
                       o.limitConfig.GetOr(EmptyConfig), o.stopLossConfig.GetOr(EmptyConfig),
                       o.stopLimitConfig.GetOr(EmptyConfig)))
  }

  function RowsIn(tables: map<string, seq<OrderRow>>, name: string): seq<OrderRow> {
    if name in tables then tables[name] else []
  }

  /** The order tables after `insert_or_update_order(name, order)`. */
  function Upserted(tables: map<string, seq<OrderRow>>, name: string, o: Order): map<string, seq<OrderRow>> {
    tables[name := Upsert(RowsIn(tables, name), RowOf(o))]
  }

  function UpdatedAts(rows: seq<OrderRow>): seq<Option<Timestamp>> {
    seq(|rows|, i requires 0 <= i < |rows| => rows[i].updated.updatedAt)
  }

  /** `get_last_updated_at`: the latest stored updated_at. */
  function LastUpdatedAt(rows: seq<OrderRow>): Option<Timestamp> {
    Latest(UpdatedAts(rows))
  }

  // ---- Extraction ----

  lemma MissingFieldsDefault()
    ensures RowOf(Order(None, None, None, None, None, None, None, None, None, None))
      == Row("N/A", KeptColumns(None, "N/A"), UpdatedColumns(None, "N/A", 0.0, 0.0, "{}", "{}", "{}"))
  {
  }

  /** Price comes from average_price and quantity from filled_asset_quantity; present values are kept. */
  lemma PresentFieldsKept(id: string, created: Timestamp, updated: Timestamp, side: string, state: string,
                          averagePrice: real, filled: real, limit: string, stopLoss: string, stopLimit: string)
    ensures RowOf(Order(Some(id), Some(created), Some(updated), Some(side), Some(state), Some(averagePrice), Some(filled),
                        Some(limit), Some(stopLoss), Some(stopLimit)))
      == Row(id, KeptColumns(Some(created), side), UpdatedColumns(Some(updated), state, averagePrice, filled, limit, stopLoss, stopLimit))
  {
  }

  // ---- The upsert ----

  /** A new id is appended as a row holding all ten extracted values. */
  lemma UpsertNewOrder(rows: seq<OrderRow>, o: Order)
    requires Find(rows, RowOf(o).id).None?
    ensures Upsert(rows, RowOf(o)) == rows + [RowOf(o)]
  {
    UpsertOfNewId(rows, RowOf(o));
  }

  /**
   * An existing id gets the new updated_at, state, price, quantity and three configurations,
   * and keeps its stored timestamp and side.
   */
  lemma UpsertExistingOrder(rows: seq<OrderRow>, o: Order, stored: OrderRow)
    requires Find(rows, RowOf(o).id) == Some(stored)
    ensures Find(Upsert(rows, RowOf(o)), RowOf(o).id) == Some(Row(stored.id, stored.kept, RowOf(o).updated))
    ensures |Upsert(rows, RowOf(o))| == |rows|
  {
    UpsertStoresRow(rows, RowOf(o));
    FindId(rows, RowOf(o).id);
    UpsertOfExistingIdLength(rows, RowOf(o));
  }

  lemma {:induction false} FindId(rows: seq<OrderRow>, id: string)
    ensures Find(rows, id).Some? ==> Find(rows, id).value.id == id
    decreases |rows|
  {
    if rows != [] && rows[0].id != id {
      FindId(rows[1..], id);
    }
  }

  lemma {:induction false} UpsertOfExistingIdLength(rows: seq<OrderRow>, row: OrderRow)
    requires Find(rows, row.id).Some?
    ensures |Upsert(rows, row)| == |rows|
    decreases |rows|
  {
    if rows[0].id != row.id {
      UpsertOfExistingIdLength(rows[1..], row);
    }
  }

  /** Rows under other ids and other tables are unchanged, and upserting twice equals upserting once. */
  lemma UpsertedLeavesOthers(tables: map<string, seq<OrderRow>>, name: string, o: Order, other: string, id: string)
    ensures other != name ==> RowsIn(Upserted(tables, name, o), other) == RowsIn(tables, other)
    ensures id != RowOf(o).id ==> Find(RowsIn(Upserted(tables, name, o), name), id) == Find(RowsIn(tables, name), id)
    ensures Upserted(Upserted(tables, name, o), name, o) == Upserted(tables, name, o)
  {
    if id != RowOf(o).id {
      UpsertKeepsOthers(RowsIn(tables, name), RowOf(o), id);
    }
    UpsertIdempotent(RowsIn(tables, name), RowOf(o));
  }

  // ---- The latest updated_at ----

  /** The latest updated_at is the maximum stored value, and None when no row has one (an empty table). */
  lemma LastUpdatedAtIsMaximum(rows: seq<OrderRow>)
    ensures LastUpdatedAt(rows).None? <==> forall i :: 0 <= i < |rows| ==> rows[i].updated.updatedAt.None?
    ensures LastUpdatedAt(rows).Some? ==> exists i :: 0 <= i < |rows| && rows[i].updated.updatedAt == LastUpdatedAt(rows)
    ensures forall i :: 0 <= i < |rows| && rows[i].updated.updatedAt.Some? ==>
      LastUpdatedAt(rows).Some? && NotAfter(rows[i].updated.updatedAt.value, LastUpdatedAt(rows).value)
  {
    var ts := UpdatedAts(rows);
    LatestIsMaximum(ts);
    assert forall i :: 0 <= i < |rows| ==> ts[i] == rows[i].updated.updatedAt;
    if LastUpdatedAt(rows).Some? {
      var i :| 0 <= i < |ts| && ts[i] == Latest(ts);
      assert rows[i].updated.updatedAt == LastUpdatedAt(rows);
    }
  }

  /** The OrderHistoryManager: one keyed order table per name. */
  class OrderHistoryManager {
    var tables: map<string, seq<OrderRow>>

    /** The `order_id` primary key: no table holds two rows with the same id. */
    ghost predicate Valid()
      reads this
    {
      forall name :: name in tables ==> DistinctIds(tables[name])
    }

    constructor ()
      ensures tables == map[]
      ensures Valid()
    {
      tables := map[];
    }

    /** `insert_or_update_order(table_name, order_data)`. */
    method InsertOrUpdateOrder(name: string, o: Order)
      modifies this
      ensures tables == Upserted(old(tables), name, o)
      ensures old(Valid()) ==> Valid()
    {
      var row := RowOf(o);
      UpsertIds(RowsIn(tables, name), row);
      tables := tables[name := Upsert(RowsIn(tables, name), row)];
    }

    /** `get_last_updated_at(table_name)`: the maximum updated_at, or None when there is none. */
    method GetLastUpdatedAt(name: string) returns (r: Option<Timestamp>)
      ensures r.None? <==> forall i :: 0 <= i < |RowsIn(tables, name)| ==> RowsIn(tables, name)[i].updated.updatedAt.None?
      ensures r.Some? ==> exists i :: 0 <= i < |RowsIn(tables, name)| && RowsIn(tables, name)[i].updated.updatedAt == r
      ensures forall i :: 0 <= i < |RowsIn(tables, name)| && RowsIn(tables, name)[i].updated.updatedAt.Some? ==>
        r.Some? && NotAfter(RowsIn(tables, name)[i].updated.updatedAt.value, r.value)
    {
      LastUpdatedAtIsMaximum(RowsIn(tables, name));
      r := LastUpdatedAt(RowsIn(tables, name));
    }
  }
}

/**
 * A table whose rows are keyed by an `id` primary key, written with
 * `INSERT ... ON DUPLICATE KEY UPDATE`. A row splits into the columns such an upsert
 * keeps from the stored row (`kept`) and the columns it overwrites (`updated`).
 */
module KeyedTable {
  import opened Wrappers

  datatype Row<K, U> = Row(id: string, kept: K, updated: U)

  /** The row stored under `id`, if any. */
  function Find<K, U>(rows: seq<Row<K, U>>, id: string): Option<Row<K, U>>
    decreases |rows|
  {
    if rows == [] then None
    else if rows[0].id == id then Some(rows[0])
    else Find(rows[1..], id)
  }

  /** Insert `row`, or on a duplicate id overwrite the stored row's updatable columns. */
  function Upsert<K, U>(rows: seq<Row<K, U>>, row: Row<K, U>): seq<Row<K, U>>
    decreases |rows|
  {
    if rows == [] then [row]
    else if rows[0].id == row.id then [Row(row.id, rows[0].kept, row.updated)] + rows[1..]
    else [rows[0]] + Upsert(rows[1..], row)
  }

  /** The row an upsert leaves under `row.id`, given what was stored there before. */
  function Merged<K, U>(before: Option<Row<K, U>>, row: Row<K, U>): Row<K, U> {
    match before
    case None => row
    case Some(stored) => Row(row.id, stored.kept, row.updated)
  }

  ghost predicate DistinctIds<K, U>(rows: seq<Row<K, U>>) {
    forall i, j :: 0 <= i < j < |rows| ==> rows[i].id != rows[j].id
  }

  /** After the upsert, `row.id` holds the new row, or the stored row with its updatable columns replaced. */
  lemma {:induction false} UpsertStoresRow<K, U>(rows: seq<Row<K, U>>, row: Row<K, U>)
    ensures Find(Upsert(rows, row), row.id) == Some(Merged(Find(rows, row.id), row))
    decreases |rows|
  {
    if rows != [] && rows[0].id != row.id {
      UpsertStoresRow(rows[1..], row);
    }
  }

  /** Rows under other ids are untouched. */
  lemma {:induction false} UpsertKeepsOthers<K, U>(rows: seq<Row<K, U>>, row: Row<K, U>, id: string)
    requires id != row.id
    ensures Find(Upsert(rows, row), id) == Find(rows, id)
    decreases |rows|
  {
    if rows != [] && rows[0].id != row.id {
      UpsertKeepsOthers(rows[1..], row, id);
    }
  }

  /** A new id is appended at the end; the table grows by one row. */
  lemma {:induction false} UpsertOfNewId<K, U>(rows: seq<Row<K, U>>, row: Row<K, U>)
    requires Find(rows, row.id).None?
    ensures Upsert(rows, row) == rows + [row]
    decreases |rows|
  {
    if rows != [] {
      UpsertOfNewId(rows[1..], row);
      assert [rows[0]] + (rows[1..] + [row]) == rows + [row];
    }
  }

  /** Upserting the same row twice is the same as upserting it once. */
  lemma {:induction false} UpsertIdempotent<K, U>(rows: seq<Row<K, U>>, row: Row<K, U>)
    ensures Upsert(Upsert(rows, row), row) == Upsert(rows, row)
    decreases |rows|
  {
    if rows == [] {
      assert Upsert([row], row) == [Row(row.id, row.kept, row.updated)] + [];
    } else if rows[0].id != row.id {
      UpsertIdempotent(rows[1..], row);
    }
  }

  /** The upsert adds no id other than `row.id`, so a table with distinct ids keeps them distinct. */
  lemma {:induction false} UpsertIds<K, U>(rows: seq<Row<K, U>>, row: Row<K, U>)
    ensures forall i :: 0 <= i < |Upsert(rows, row)| ==>
      Upsert(rows, row)[i].id == row.id || exists j :: 0 <= j < |rows| && rows[j].id == Upsert(rows, row)[i].id
    ensures DistinctIds(rows) ==> DistinctIds(Upsert(rows, row))
    decreases |rows|
  {
    if rows != [] && rows[0].id != row.id {
      var tail := Upsert(rows[1..], row);
      UpsertIds(rows[1..], row);
      UpsertKeepsOthers(rows[1..], row, rows[0].id);
      FindAbsent(rows[1..], rows[0].id);
      FindAbsent(tail, rows[0].id);
      forall i | 0 <= i < |tail| ensures tail[i].id == row.id || exists j :: 0 <= j < |rows| && rows[j].id == tail[i].id {
        if tail[i].id != row.id {
          var j :| 0 <= j < |rows[1..]| && rows[1..][j].id == tail[i].id;
          assert rows[j + 1].id == tail[i].id;
        }
      }
    }
  }

  /** Find is None exactly when no row carries the id. */
  lemma {:induction false} FindAbsent<K, U>(rows: seq<Row<K, U>>, id: string)
    ensures Find(rows, id).None? <==> forall i :: 0 <= i < |rows| ==> rows[i].id != id
    decreases |rows|
  {
    if rows != [] {
      FindAbsent(rows[1..], id);
      assert forall i :: 1 <= i < |rows| ==> rows[i] == rows[1..][i - 1];
    }
  }
}

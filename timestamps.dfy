/** The `last_checked` table: one reconciliation cursor per coin. */
module Timestamps {
  import opened Wrappers
  import opened TimeOrder

  /** `get_last_timestamp(coin)` over the table's contents. */
  function Cursor(lastChecked: map<string, Timestamp>, coin: string): Option<Timestamp> {
    if coin in lastChecked then Some(lastChecked[coin]) else None
  }

  /** A coin that was never updated has no cursor. */
  lemma NeverUpdatedHasNoCursor(coin: string)
    ensures Cursor(map[], coin) == None
  {
  }

  /** After an update the coin's cursor is the new timestamp, and no other coin's cursor moves. */
  lemma UpdateSetsCursor(m: map<string, Timestamp>, coin: string, t: Timestamp, other: string)
    ensures Cursor(m[coin := t], coin) == Some(t)
    ensures other != coin ==> Cursor(m[coin := t], other) == Cursor(m, other)
  {
  }

  /** Updating twice with the same timestamp is updating once; a later update overrides an earlier one. */
  lemma RepeatedUpdates(m: map<string, Timestamp>, coin: string, t1: Timestamp, t2: Timestamp)
    ensures m[coin := t1][coin := t1] == m[coin := t1]
    ensures m[coin := t1][coin := t2] == m[coin := t2]
  {
  }

  /** The TimestampsManager over the `last_checked` table. */
  class TimestampsManager {
    var lastChecked: map<string, Timestamp>

    constructor ()
      ensures lastChecked == map[]
    {
      lastChecked := map[];
    }

    /** `get_last_timestamp(coin)`. */
    method GetLastTimestamp(coin: string) returns (r: Option<Timestamp>)
      ensures r.Some? <==> coin in lastChecked
      ensures r.Some? ==> r.value == lastChecked[coin]
    {
      r := Cursor(lastChecked, coin);
    }

    /** `update_last_timestamp(coin, timestamp)`: insert, or overwrite the coin's cursor. */
    method UpdateLastTimestamp(coin: string, t: Timestamp)
      modifies this
      ensures lastChecked == old(lastChecked)[coin := t]
      ensures Cursor(lastChecked, coin) == Some(t)
      ensures forall c :: c != coin ==> Cursor(lastChecked, c) == old(Cursor(lastChecked, c))
    {
      lastChecked := lastChecked[coin := t];
    }
  }
}

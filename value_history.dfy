/**
 * The per-coin value-history tables: the row `insert_data` appends for a quote, the
 * newest-first selection the fetch queries make, and the feature columns `fetch_data` derives.
 */
module ValueHistory {
  import opened Wrappers
  import opened TimeOrder
  import opened Venue
  import opened TableNames

  /** (timestamp, price, ask_inclusive_of_buy_spread, bid_inclusive_of_sell_spread) */
  datatype ValueRow = ValueRow(timestamp: Timestamp, price: real, ask: real, bid: real)

  /** Python truthiness of an optional text: None and "" are falsy. */
  predicate Falsy(t: Option<string>) {
    t.None? || t.value == ""
  }

  /**
   * The row `insert_data` writes: built from the first result only, with 0.0 for a missing
   * price, ask or bid and the current time `now` for a missing timestamp; None (nothing is
   * written) when the response has no results.
   */
  function ValueRowOf(q: Quote, now: Timestamp): (r: Option<ValueRow>)
    ensures r.None? <==> q.results.None? || q.results.value == []
    ensures r.Some? ==> r.value.timestamp == now || Some(r.value.timestamp) == q.results.value[0].timestamp
  {
    if q.results.None? || q.results.value == [] then None
    else
      var e := q.results.value[0];
      Some(ValueRow(if Falsy(e.timestamp) then now else e.timestamp.value,
                    e.price.GetOr(0.0), e.ask.GetOr(0.0), e.bid.GetOr(0.0)))
  }

  datatype InsertError = DatetimeUndefined

  /**
   * The row ValueHistoryManager.insert_data computes AS WRITTEN: its module never imports
   * `datetime`, so reaching the current-time fallback raises a NameError.
   */
  function ValueRowAsWritten(q: Quote): Result<Option<ValueRow>, InsertError> {
    if q.results.None? || q.results.value == [] then Success(None)
    else
      var e := q.results.value[0];
      if Falsy(e.timestamp) then Failure(DatetimeUndefined)
      else Success(Some(ValueRow(e.timestamp.value, e.price.GetOr(0.0), e.ask.GetOr(0.0), e.bid.GetOr(0.0))))
  }

  function RowsOf(tables: map<string, seq<ValueRow>>, name: string): seq<ValueRow> {
    if name in tables then tables[name] else []
  }

  /** The value-history tables after `insert_data(coin, quote)`. */
  function Appended(tables: map<string, seq<ValueRow>>, coin: string, q: Quote, now: Timestamp): map<string, seq<ValueRow>> {
    match ValueRowOf(q, now)
    case None => tables
    case Some(row) => tables[ValueHistoryTable(coin) := RowsOf(tables, ValueHistoryTable(coin)) + [row]]
  }

  // ---- Properties of the inserted row ----

  /** Nothing is written without results; otherwise exactly one row, at the end of the coin's table. */
  lemma AppendedRows(tables: map<string, seq<ValueRow>>, coin: string, q: Quote, now: Timestamp, name: string)
    ensures (q.results.None? || q.results.value == []) ==> Appended(tables, coin, q, now) == tables
    ensures name != ValueHistoryTable(coin) ==> RowsOf(Appended(tables, coin, q, now), name) == RowsOf(tables, name)
    ensures q.results.Some? && q.results.value != [] ==>
      RowsOf(Appended(tables, coin, q, now), ValueHistoryTable(coin)) == RowsOf(tables, ValueHistoryTable(coin)) + [ValueRowOf(q, now).value]
  {
  }

  /** Only the first result entry matters; later entries are ignored. */
  lemma OnlyFirstEntryCounts(e: QuoteEntry, rest1: seq<QuoteEntry>, rest2: seq<QuoteEntry>, now: Timestamp)
    ensures ValueRowOf(Quote(Some([e] + rest1)), now) == ValueRowOf(Quote(Some([e] + rest2)), now)
  {
  }

  /** Missing prices default to 0.0 and a missing timestamp to the current time. */
  lemma MissingFieldsDefault(symbol: string, now: Timestamp)
    ensures ValueRowOf(Quote(Some([QuoteEntry(symbol, None, None, None, None)])), now) == Some(ValueRow(now, 0.0, 0.0, 0.0))
  {
  }

  /** A present price, ask and bid are stored as given, alongside a present timestamp. */
  lemma PresentFieldsKept(symbol: string, t: Timestamp, p: real, a: real, b: real, now: Timestamp)
    requires t != ""
    ensures ValueRowOf(Quote(Some([QuoteEntry(symbol, Some(t), Some(p), Some(a), Some(b))])), now) == Some(ValueRow(t, p, a, b))
  {
  }

  /** As written, an entry without a timestamp makes the insert raise instead of using the current time. */
  lemma AsWrittenFailsWithoutTimestamp(symbol: string, p: real)
    ensures ValueRowAsWritten(Quote(Some([QuoteEntry(symbol, None, Some(p), Some(p), Some(p))]))) == Failure(DatetimeUndefined)
    ensures forall now :: ValueRowOf(Quote(Some([QuoteEntry(symbol, None, Some(p), Some(p), Some(p))])), now) == Some(ValueRow(now, p, p, p))
  {
  }

  /** Where the as-written insert does not raise, it writes the corrected row. */
  lemma AsWrittenAgreesOtherwise(q: Quote, now: Timestamp)
    requires ValueRowAsWritten(q).Success?
    ensures ValueRowAsWritten(q).value == ValueRowOf(q, now)
  {
  }

  // ---- Newest-first selection: `ORDER BY timestamp DESC LIMIT n` ----

  /** Every row of `s` is at or before `t`. */
  ghost predicate NoneAfter(s: seq<ValueRow>, t: Timestamp) {
    forall i :: 0 <= i < |s| ==> NotAfter(s[i].timestamp, t)
  }

  /** Sorted newest first: each row is at or after every row behind it. */
  ghost predicate NewestFirst(s: seq<ValueRow>)
    decreases |s|
  {
    s == [] || (NoneAfter(s[1..], s[0].timestamp) && NewestFirst(s[1..]))
  }

  function InsertByTime(r: ValueRow, s: seq<ValueRow>): seq<ValueRow>
    decreases |s|
  {
    if s == [] then [r]
    else if NotAfter(s[0].timestamp, r.timestamp) then [r] + s
    else [s[0]] + InsertByTime(r, s[1..])
  }

  function SortNewestFirst(rows: seq<ValueRow>): seq<ValueRow>
    decreases |rows|
  {
    if rows == [] then [] else InsertByTime(rows[0], SortNewestFirst(rows[1..]))
  }

  lemma {:induction false} InsertByTimePermutes(r: ValueRow, s: seq<ValueRow>)
    ensures multiset(InsertByTime(r, s)) == multiset(s) + multiset{r}
    ensures |InsertByTime(r, s)| == |s| + 1
    decreases |s|
  {
    if s != [] && !NotAfter(s[0].timestamp, r.timestamp) {
      InsertByTimePermutes(r, s[1..]);
      assert s == [s[0]] + s[1..];
    }
  }

  lemma {:induction false} InsertByTimeBounded(r: ValueRow, s: seq<ValueRow>, t: Timestamp)
    requires NoneAfter(s, t) && NotAfter(r.timestamp, t)
    ensures NoneAfter(InsertByTime(r, s), t)
    decreases |s|
  {
    if s != [] && !NotAfter(s[0].timestamp, r.timestamp) {
      InsertByTimeBounded(r, s[1..], t);
    }
  }

  lemma NoneAfterWeakens(s: seq<ValueRow>, t: Timestamp, u: Timestamp)
    requires NoneAfter(s, t) && NotAfter(t, u)
    ensures NoneAfter(s, u)
  {
    forall i | 0 <= i < |s| ensures NotAfter(s[i].timestamp, u) {
      NotAfterTransitive(s[i].timestamp, t, u);
    }
  }

  lemma {:induction false} InsertByTimeSorts(r: ValueRow, s: seq<ValueRow>)
    requires NewestFirst(s)
    ensures NewestFirst(InsertByTime(r, s))
    decreases |s|
  {
    if s == [] {
      assert InsertByTime(r, s)[1..] == [];
    } else if NotAfter(s[0].timestamp, r.timestamp) {
      NoneAfterWeakens(s[1..], s[0].timestamp, r.timestamp);
      var t := [r] + s;
      assert t[1..] == s;
    } else {
      NotAfterTotal(s[0].timestamp, r.timestamp);
      InsertByTimeSorts(r, s[1..]);
      InsertByTimeBounded(r, s[1..], s[0].timestamp);
      var t := [s[0]] + InsertByTime(r, s[1..]);
      assert t[1..] == InsertByTime(r, s[1..]);
    }
  }

  /** The sort orders newest first and is a permutation of the table. */
  lemma {:induction false} SortNewestFirstSorts(rows: seq<ValueRow>)
    ensures multiset(SortNewestFirst(rows)) == multiset(rows)
    ensures |SortNewestFirst(rows)| == |rows|
    ensures NewestFirst(SortNewestFirst(rows))
    decreases |rows|
  {
    if rows != [] {
      SortNewestFirstSorts(rows[1..]);
      InsertByTimePermutes(rows[0], SortNewestFirst(rows[1..]));
      InsertByTimeSorts(rows[0], SortNewestFirst(rows[1..]));
      assert rows == [rows[0]] + rows[1..];
    }
  }

  /** The pairwise reading of NewestFirst. */
  lemma {:induction false} NewestFirstPairwise(s: seq<ValueRow>, i: nat, j: nat)
    requires NewestFirst(s) && i < j < |s|
    ensures NotAfter(s[j].timestamp, s[i].timestamp)
    decreases i
  {
    if i == 0 {
      assert s[j] == s[1..][j - 1];
    } else {
      NewestFirstPairwise(s[1..], i - 1, j - 1);
    }
  }

  function Min(a: nat, b: nat): nat {
    if a < b then a else b
  }

  /** `SELECT ... ORDER BY timestamp DESC LIMIT n` over a table. */
  function TakeNewest(rows: seq<ValueRow>, n: nat): seq<ValueRow> {
    var s := SortNewestFirst(rows);
    s[..Min(n, |s|)]
  }

  /**
   * The selection holds min(n, |rows|) rows of the table, newest first, and no row left out is
   * later than a row selected.
   */
  lemma TakeNewestSelects(rows: seq<ValueRow>, n: nat)
    ensures |TakeNewest(rows, n)| == Min(n, |rows|)
    ensures multiset(TakeNewest(rows, n)) <= multiset(rows)
    ensures forall i, j :: 0 <= i < j < |TakeNewest(rows, n)| ==>
      NotAfter(TakeNewest(rows, n)[j].timestamp, TakeNewest(rows, n)[i].timestamp)
    ensures forall x, y :: x in multiset(rows) - multiset(TakeNewest(rows, n)) && y in TakeNewest(rows, n) ==>
      NotAfter(x.timestamp, y.timestamp)
  {
    var s := SortNewestFirst(rows);
    SortNewestFirstSorts(rows);
    NewestFirstDescending(s);
    var k := Min(n, |s|);
    TakeNewestSubset(rows, n);
    DescendingPrefix(s, k);
    RestNotLater(s, k, multiset(rows));
  }

  lemma TakeNewestSubset(rows: seq<ValueRow>, n: nat)
    ensures |TakeNewest(rows, n)| == Min(n, |rows|)
    ensures multiset(TakeNewest(rows, n)) <= multiset(rows)
  {
    var s := SortNewestFirst(rows);
    SortNewestFirstSorts(rows);
    var k := Min(n, |s|);
    assert s == s[..k] + s[k..];
    assert multiset(s) == multiset(s[..k]) + multiset(s[k..]);
  }

  lemma DescendingPrefix(s: seq<ValueRow>, k: nat)
    requires Descending(s) && k <= |s|
    ensures Descending(s[..k])
  {
    assert forall i :: 0 <= i < k ==> s[..k][i] == s[i];
  }

  /** Every row is at or after every row behind it. */
  ghost predicate Descending(s: seq<ValueRow>) {
    forall i, j :: 0 <= i < j < |s| ==> NotAfter(s[j].timestamp, s[i].timestamp)
  }

  lemma NewestFirstDescending(s: seq<ValueRow>)
    requires NewestFirst(s)
    ensures Descending(s)
  {
    forall i, j | 0 <= i < j < |s| ensures NotAfter(s[j].timestamp, s[i].timestamp) {
      NewestFirstPairwise(s, i, j);
    }
  }

  /** No row after the first k of a descending sequence is later than one of them. */
  lemma RestNotLater(s: seq<ValueRow>, k: nat, m: multiset<ValueRow>)
    requires Descending(s) && k <= |s| && m == multiset(s)
    ensures forall x, y :: x in m - multiset(s[..k]) && y in s[..k] ==> NotAfter(x.timestamp, y.timestamp)
  {
    var top, rest := s[..k], s[k..];
    assert s == top + rest;
    assert m - multiset(top) == multiset(rest);
    forall x: ValueRow, y: ValueRow | x in multiset(rest) && y in top ensures NotAfter(x.timestamp, y.timestamp) {
      assert x in rest;
      var j :| 0 <= j < |rest| && rest[j] == x;
      var i :| 0 <= i < |top| && top[i] == y;
      assert s[k + j] == x && s[i] == y;
    }
  }

  // ---- The feature frame of `fetch_data` ----

  const FetchLimit: nat := 500
  /** Rows before this index have no `rolling(10).std()` and are dropped by `dropna`. */
  const FirstCompleteRow: nat := 9
  const MomentumLag: nat := 5

  datatype FeatureRow = FeatureRow(timestamp: Timestamp, bid: real, ask: real, spread: real, momentum: real)

  datatype FetchError = NoData

  /** The rows oldest first: `sort_values('timestamp')` over a newest-first selection. */
  function OldestFirst(s: seq<ValueRow>): seq<ValueRow> {
    seq(|s|, i requires 0 <= i < |s| => s[|s| - 1 - i])
  }

  /** `pct_change` is 0/0, a NaN, at a row whose bid and previous bid are both 0.0. */
  predicate PctChangeUndefined(asc: seq<ValueRow>, k: nat)
    requires 1 <= k < |asc|
  {
    asc[k].bid == 0.0 && asc[k - 1].bid == 0.0
  }

  /** A row `dropna` keeps: every derived column, volatility and pct_change included, is defined. */
  predicate Complete(asc: seq<ValueRow>, k: nat)
    requires k < |asc|
  {
    FirstCompleteRow <= k && !PctChangeUndefined(asc, k)
  }

  /** The indexes from `k` on of the rows `dropna` keeps, in increasing order. */
  function KeptRows(asc: seq<ValueRow>, k: nat): (r: seq<nat>)
    ensures forall j :: 0 <= j < |r| ==> k <= r[j] < |asc| && Complete(asc, r[j])
    decreases |asc| - k
  {
    if k >= |asc| then []
    else (if Complete(asc, k) then [k] else []) + KeptRows(asc, k + 1)
  }

  function FeatureAt(asc: seq<ValueRow>, k: nat): FeatureRow
    requires MomentumLag <= k < |asc|
  {
    FeatureRow(asc[k].timestamp, asc[k].bid, asc[k].ask, asc[k].ask - asc[k].bid, asc[k].bid - asc[k - MomentumLag].bid)
  }

  /** spread = ask − bid and momentum = bid − (bid five rows earlier), over the rows `dropna` keeps. */
  function Features(asc: seq<ValueRow>): seq<FeatureRow> {
    var idx := KeptRows(asc, 0);
    seq(|idx|, j requires 0 <= j < |idx| => FeatureAt(asc, idx[j]))
  }

  /** `ValueHistoryManager.fetch_data` over the rows of the coin's table. */
  function FetchData(rows: seq<ValueRow>): (r: Result<seq<FeatureRow>, FetchError>)
    ensures r.Failure? <==> rows == []
    ensures r.Failure? ==> r.error == NoData
  {
    TakeNewestSelects(rows, FetchLimit);
    var top := TakeNewest(rows, FetchLimit);
    if top == [] then Failure(NoData) else Success(Features(OldestFirst(top)))
  }

  ghost predicate OldestFirstOrder(s: seq<ValueRow>) {
    forall i, j :: 0 <= i < j < |s| ==> NotAfter(s[i].timestamp, s[j].timestamp)
  }

  ghost predicate FrameAscending(f: seq<FeatureRow>) {
    forall i, j :: 0 <= i < j < |f| ==> NotAfter(f[i].timestamp, f[j].timestamp)
  }

  /** No two consecutive rows from the first complete one on both have a zero bid. */
  predicate NoZeroBidRun(asc: seq<ValueRow>) {
    forall k :: FirstCompleteRow <= k < |asc| ==> !PctChangeUndefined(asc, k)
  }

  function Max(a: nat, b: nat): nat {
    if a < b then b else a
  }

  lemma OldestFirstReverses(top: seq<ValueRow>)
    requires forall i, j :: 0 <= i < j < |top| ==> NotAfter(top[j].timestamp, top[i].timestamp)
    ensures |OldestFirst(top)| == |top|
    ensures OldestFirstOrder(OldestFirst(top))
  {
    var asc := OldestFirst(top);
    forall i, j | 0 <= i < j < |asc| ensures NotAfter(asc[i].timestamp, asc[j].timestamp) {
      assert asc[i] == top[|top| - 1 - i] && asc[j] == top[|top| - 1 - j];
    }
  }

  /** The kept indexes increase, and every complete row from `k` on is among them. */
  lemma KeptRowsExact(asc: seq<ValueRow>, k: nat)
    ensures forall a, b :: 0 <= a < b < |KeptRows(asc, k)| ==> KeptRows(asc, k)[a] < KeptRows(asc, k)[b]
    ensures forall m :: k <= m < |asc| && Complete(asc, m) ==> m in KeptRows(asc, k)
  {
    KeptRowsIncrease(asc, k);
    KeptRowsComplete(asc, k);
  }

  lemma {:induction false} KeptRowsIncrease(asc: seq<ValueRow>, k: nat)
    ensures forall a, b :: 0 <= a < b < |KeptRows(asc, k)| ==> KeptRows(asc, k)[a] < KeptRows(asc, k)[b]
    decreases |asc| - k
  {
    if k < |asc| {
      KeptRowsIncrease(asc, k + 1);
    }
  }

  lemma {:induction false} KeptRowsComplete(asc: seq<ValueRow>, k: nat)
    ensures forall m :: k <= m < |asc| && Complete(asc, m) ==> m in KeptRows(asc, k)
    decreases |asc| - k
  {
    if k < |asc| {
      KeptRowsComplete(asc, k + 1);
    }
  }

  /** Without a run of zero bids, every row from the tenth on is kept. */
  lemma {:induction false} KeptRowsFull(asc: seq<ValueRow>, k: nat)
    requires NoZeroBidRun(asc)
    ensures |KeptRows(asc, k)| == if |asc| <= Max(k, FirstCompleteRow) then 0 else |asc| - Max(k, FirstCompleteRow)
    ensures forall j :: 0 <= j < |KeptRows(asc, k)| ==> KeptRows(asc, k)[j] == Max(k, FirstCompleteRow) + j
    decreases |asc| - k
  {
    if k < |asc| {
      KeptRowsFull(asc, k + 1);
      if k >= FirstCompleteRow {
        assert !PctChangeUndefined(asc, k);
      }
    }
  }

  /** Each frame row is the kept row's timestamp, bid and ask, with its spread and momentum. */
  lemma FeaturesRows(asc: seq<ValueRow>)
    ensures |Features(asc)| == |KeptRows(asc, 0)|
    ensures forall j :: 0 <= j < |KeptRows(asc, 0)| ==> Features(asc)[j] == FeatureAt(asc, KeptRows(asc, 0)[j])
  {
  }

  lemma FeaturesAscending(asc: seq<ValueRow>)
    requires OldestFirstOrder(asc)
    ensures FrameAscending(Features(asc))
  {
    var f := Features(asc);
    var idx := KeptRows(asc, 0);
    KeptRowsExact(asc, 0);
    FeaturesRows(asc);
    forall i, j | 0 <= i < j < |f| ensures NotAfter(f[i].timestamp, f[j].timestamp) {
      assert idx[i] < idx[j];
      assert f[i].timestamp == asc[idx[i]].timestamp;
      assert f[j].timestamp == asc[idx[j]].timestamp;
    }
  }

  lemma FeaturesFull(asc: seq<ValueRow>)
    requires NoZeroBidRun(asc)
    ensures |Features(asc)| == (if |asc| <= FirstCompleteRow then 0 else |asc| - FirstCompleteRow)
    ensures forall i :: MomentumLag <= i < |Features(asc)| ==>
      Features(asc)[i].momentum == Features(asc)[i].bid - Features(asc)[i - MomentumLag].bid
  {
    var f := Features(asc);
    var idx := KeptRows(asc, 0);
    KeptRowsFull(asc, 0);
    FeaturesRows(asc);
    forall i | MomentumLag <= i < |f| ensures f[i].momentum == f[i].bid - f[i - MomentumLag].bid {
      assert idx[i] == FirstCompleteRow + i;
      assert idx[i - MomentumLag] == FirstCompleteRow + i - MomentumLag;
      assert f[i] == FeatureAt(asc, idx[i]);
      assert f[i - MomentumLag] == FeatureAt(asc, idx[i - MomentumLag]);
    }
  }

  /**
   * The frame holds exactly the complete rows, in order, each with its timestamp, bid and ask,
   * spread = ask − bid and momentum = bid − the bid five rows earlier. Without a run of zero bids
   * that is every row from the tenth on.
   */
  lemma FeaturesFrame(asc: seq<ValueRow>)
    ensures |Features(asc)| == |KeptRows(asc, 0)|
    ensures forall k :: 0 <= k < |asc| ==> (Complete(asc, k) <==> k in KeptRows(asc, 0))
    ensures forall j :: 0 <= j < |KeptRows(asc, 0)| ==>
      var k := KeptRows(asc, 0)[j];
      && Features(asc)[j].timestamp == asc[k].timestamp
      && Features(asc)[j].bid == asc[k].bid && Features(asc)[j].ask == asc[k].ask
      && Features(asc)[j].spread == asc[k].ask - asc[k].bid
      && Features(asc)[j].momentum == asc[k].bid - asc[k - MomentumLag].bid
    ensures OldestFirstOrder(asc) ==> FrameAscending(Features(asc))
    ensures NoZeroBidRun(asc) ==>
      && |Features(asc)| == (if |asc| <= FirstCompleteRow then 0 else |asc| - FirstCompleteRow)
      && forall i :: MomentumLag <= i < |Features(asc)| ==>
           Features(asc)[i].momentum == Features(asc)[i].bid - Features(asc)[i - MomentumLag].bid
  {
    KeptRowsExact(asc, 0);
    FeaturesRows(asc);
    if OldestFirstOrder(asc) {
      FeaturesAscending(asc);
    }
    if NoZeroBidRun(asc) {
      FeaturesFull(asc);
    }
  }

  /** Eleven rows whose last two bids are 0.0 (the one before being non-zero) give a one-row frame. */
  lemma ZeroBidPairDropsRow(asc: seq<ValueRow>)
    requires |asc| == 11 && asc[8].bid != 0.0 && asc[9].bid == 0.0 && asc[10].bid == 0.0
    ensures |Features(asc)| == 1
    ensures Features(asc)[0].timestamp == asc[9].timestamp
  {
    assert KeptRows(asc, 11) == [];
    assert KeptRows(asc, 10) == [];
    assert KeptRows(asc, 9) == [9];
    KeptRowsSkipsStart(asc, 0, 9);
  }

  /** No row before the first complete one is kept. */
  lemma {:induction false} KeptRowsSkipsStart(asc: seq<ValueRow>, k: nat, m: nat)
    requires k <= m <= FirstCompleteRow
    ensures KeptRows(asc, k) == KeptRows(asc, m)
    decreases m - k
  {
    if k < m {
      KeptRowsSkipsStart(asc, k + 1, m);
      if k < |asc| {
        assert !Complete(asc, k);
        assert KeptRows(asc, k) == [] + KeptRows(asc, k + 1);
      }
    }
  }

  /** No row of the table has a zero bid. */
  predicate NoZeroBid(rows: seq<ValueRow>) {
    forall i :: 0 <= i < |rows| ==> rows[i].bid != 0.0
  }

  /**
   * fetch_data fails exactly on an empty table. Otherwise the frame is in ascending time order,
   * every row has spread = ask − bid, and it holds at most the newest 500 rows less the first
   * nine. With no zero bid in the table it holds exactly those, and momentum is the bid's
   * change over five frame rows.
   */
  lemma FetchDataFrame(rows: seq<ValueRow>)
    ensures FetchData(rows).Failure? <==> rows == []
    ensures FetchData(rows).Success? ==>
      var f := FetchData(rows).value;
      && |f| <= (if Min(FetchLimit, |rows|) <= FirstCompleteRow then 0 else Min(FetchLimit, |rows|) - FirstCompleteRow)
      && FrameAscending(f)
      && (forall i :: 0 <= i < |f| ==> f[i].spread == f[i].ask - f[i].bid)
    ensures FetchData(rows).Success? && NoZeroBid(rows) ==>
      var f := FetchData(rows).value;
      && |f| == (if Min(FetchLimit, |rows|) <= FirstCompleteRow then 0 else Min(FetchLimit, |rows|) - FirstCompleteRow)
      && (forall i :: MomentumLag <= i < |f| ==> f[i].momentum == f[i].bid - f[i - MomentumLag].bid)
  {
    TakeNewestSelects(rows, FetchLimit);
    var top := TakeNewest(rows, FetchLimit);
    if top != [] {
      OldestFirstReverses(top);
      FeaturesShape(OldestFirst(top));
      if NoZeroBid(rows) {
        SelectionHasNoZeroBid(rows, top);
        FeaturesFull(OldestFirst(top));
      }
    }
  }

  /** An oldest-first frame is ascending, has its spreads, and at most all rows from the tenth. */
  lemma FeaturesShape(asc: seq<ValueRow>)
    requires OldestFirstOrder(asc)
    ensures |Features(asc)| <= if |asc| <= FirstCompleteRow then 0 else |asc| - FirstCompleteRow
    ensures FrameAscending(Features(asc))
    ensures forall i :: 0 <= i < |Features(asc)| ==> Features(asc)[i].spread == Features(asc)[i].ask - Features(asc)[i].bid
  {
    FeaturesRows(asc);
    FeaturesAscending(asc);
    KeptRowsSkipsStart(asc, 0, FirstCompleteRow);
    KeptRowsBound(asc, FirstCompleteRow);
  }

  /** Rows drawn from a table without zero bids, reversed, have no zero-bid run. */
  lemma SelectionHasNoZeroBid(rows: seq<ValueRow>, top: seq<ValueRow>)
    requires NoZeroBid(rows)
    requires multiset(top) <= multiset(rows)
    ensures NoZeroBidRun(OldestFirst(top))
  {
    var asc := OldestFirst(top);
    forall k | 0 <= k < |asc| ensures asc[k].bid != 0.0 {
      assert asc[k] == top[|top| - 1 - k];
      assert asc[k] in multiset(rows);
    }
  }

  lemma {:induction false} KeptRowsBound(asc: seq<ValueRow>, k: nat)
    ensures |KeptRows(asc, k)| <= if |asc| <= k then 0 else |asc| - k
    decreases |asc| - k
  {
    if k < |asc| {
      KeptRowsBound(asc, k + 1);
    }
  }

  /** A table with fewer than ten rows yields an empty frame. */
  lemma ShortTableGivesEmptyFrame(rows: seq<ValueRow>)
    requires 0 < |rows| <= FirstCompleteRow
    ensures FetchData(rows) == Success([])
  {
    FetchDataFrame(rows);
  }

  /** The ValueHistoryManager: one table of value rows per coin. */
  class ValueHistoryManager {
    var tables: map<string, seq<ValueRow>>

    constructor ()
      ensures tables == map[]
    {
      tables := map[];
    }

    /** `insert_data(coin, coin_data)`, with the current time passed in as `now`. */
    method InsertData(coin: string, q: Quote, now: Timestamp)
      modifies this
      ensures tables == Appended(old(tables), coin, q, now)
    {
      var row := ValueRowOf(q, now);
      if row.Some? {
        var name := ValueHistoryTable(coin);
        tables := tables[name := RowsOf(tables, name) + [row.value]];
      }
    }
  }
}

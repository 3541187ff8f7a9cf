/**
 * Per-coin table names. A coin is a pair such as "BTC-USD"; its tables are named after the
 * base asset in lower case: `coin.replace('-USD', '').lower()` plus a suffix.
 */
module TableNames {

  const QuoteSuffix: string := "-USD"
  const ValueHistorySuffix: string := "_value_history"
  const OrderHistorySuffix: string := "_order_history"

  /** `s.replace('-USD', '')`: every non-overlapping occurrence, scanning left to right, is removed. */
  function StripUsd(s: string): string
    decreases |s|
  {
    if |s| >= 4 && s[..4] == QuoteSuffix then StripUsd(s[4..])
    else if s == [] then []
    else [s[0]] + StripUsd(s[1..])
  }

  /** `str.lower()` on ASCII letters. */
  function LowerChar(c: char): char {
    if 'A' <= c <= 'Z' then (c as int + 32) as char else c
  }

  function Lower(s: string): string {
    seq(|s|, i requires 0 <= i < |s| => LowerChar(s[i]))
  }

  /** The base-asset part of a table name. */
  function CoinBase(coin: string): string {
    Lower(StripUsd(coin))
  }

  /** No upper-case ASCII letter in `s`. */
  predicate LowerCase(s: string) {
    forall i :: 0 <= i < |s| ==> !('A' <= s[i] <= 'Z')
  }

  /** A table name is all lower case. */
  function ValueHistoryTable(coin: string): (r: string)
    ensures LowerCase(r)
  {
    var name := CoinBase(coin) + ValueHistorySuffix;
    assert forall i :: |CoinBase(coin)| <= i < |name| ==> name[i] == ValueHistorySuffix[i - |CoinBase(coin)|];
    name
  }

  /** A table name is all lower case, and a coin's order table is never its value table. */
  function OrderHistoryTable(coin: string): (r: string)
    ensures LowerCase(r)
    ensures r != ValueHistoryTable(coin)
  {
    var name := CoinBase(coin) + OrderHistorySuffix;
    assert forall i :: |CoinBase(coin)| <= i < |name| ==> name[i] == OrderHistorySuffix[i - |CoinBase(coin)|];
    assert name[|CoinBase(coin)| + 1] == 'o';
    assert ValueHistoryTable(coin)[|CoinBase(coin)| + 1] == 'v';
    name
  }

  predicate NoDash(s: string) {
    forall i :: 0 <= i < |s| ==> s[i] != '-'
  }

  /** Stripping undoes forming the pair `f"{asset_code}-USD"` for an asset code without a dash. */
  lemma {:induction false} StripUsdOfPair(base: string)
    requires NoDash(base)
    ensures StripUsd(base + QuoteSuffix) == base
    decreases |base|
  {
    if base == [] {
      assert StripUsd(QuoteSuffix) == StripUsd([]);
    } else {
      var s := base + QuoteSuffix;
      assert s[0] == base[0] && s[0] != '-';
      assert s[1..] == base[1..] + QuoteSuffix;
      StripUsdOfPair(base[1..]);
      assert base == [base[0]] + base[1..];
    }
  }

  /** The tables of a canonical pair "BASE-USD" are the lower-cased base plus the suffix. */
  lemma PairTables(base: string)
    requires NoDash(base)
    ensures ValueHistoryTable(base + QuoteSuffix) == Lower(base) + ValueHistorySuffix
    ensures OrderHistoryTable(base + QuoteSuffix) == Lower(base) + OrderHistorySuffix
  {
    StripUsdOfPair(base);
  }

  /** Table names carry no upper-case ASCII letter. */
  lemma CoinBaseIsLowerCase(coin: string)
    ensures forall i :: 0 <= i < |CoinBase(coin)| ==> !('A' <= CoinBase(coin)[i] <= 'Z')
  {
  }

  /** Stripping leaves a name without a dash unchanged. */
  lemma {:induction false} StripUsdOfNoDash(s: string)
    requires NoDash(s)
    ensures StripUsd(s) == s
    decreases |s|
  {
    if s != [] {
      assert s[0] != '-';
      StripUsdOfNoDash(s[1..]);
      assert s == [s[0]] + s[1..];
    }
  }

  lemma BitcoinTables()
    ensures ValueHistoryTable("BTC-USD") == "btc_value_history"
    ensures OrderHistoryTable("BTC-USD") == "btc_order_history"
  {
    BitcoinValueTable();
    BitcoinOrderTable();
  }

  lemma BitcoinValueTable()
    ensures ValueHistoryTable("BTC-USD") == "btc_value_history"
  {
    BitcoinBase();
  }

  lemma BitcoinOrderTable()
    ensures OrderHistoryTable("BTC-USD") == "btc_order_history"
  {
    BitcoinBase();
  }

  lemma BitcoinBase()
    ensures CoinBase("BTC-USD") == "btc"
  {
    var base := "BTC";
    assert NoDash(base);
    assert base + QuoteSuffix == "BTC-USD";
    StripUsdOfPair(base);
    var low := Lower(base);
    assert low[0] == 'b' && low[1] == 't' && low[2] == 'c';
  }

  /** Two different coins can share their tables: the naming is not injective. */
  lemma DistinctCoinsShareTables()
    ensures "BTC-USD" != "btc"
    ensures OrderHistoryTable("BTC-USD") == OrderHistoryTable("btc")
  {
    BitcoinTables();
    assert NoDash("btc");
    StripUsdOfNoDash("btc");
    var low := Lower("btc");
    assert low[0] == 'b' && low[1] == 't' && low[2] == 'c';
    assert low == "btc";
  }
}

/**
 * One pass of the bot over its symbols: fetch the quote, record it, run the strategy, then
 * reconcile the orders executed since the coin's cursor. Each stage's exception is caught
 * per coin; the venue, the strategy and database failures are the environment.
 */
module Core {
  import opened Wrappers
  import opened TimeOrder
  import opened Venue
  import opened TableNames
  import opened ValueHistory
  import opened OrderHistory
  import opened Timestamps

  /** What the bot hands to its strategy, in order. */
  datatype Call =
    | StrategyCall(coin: string, quote: Quote, best: map<string, Quote>)
    | PostBuyCall(coin: string, order: Order)

  /** The collaborators, and which of their calls raise. */
  datatype Env = Env(
    bestPrice: string -> Option<Quote>,                           // get_best_price
    insertFails: string -> bool,                                  // the value-history insert raises
    fetchFails: string -> bool,                                   // value_history.fetch_data raises
    strategyFails: string -> bool,                                // execute_strategy raises
    executedOrders: (string, Option<Timestamp>) -> Option<seq<Order>>,  // None: the call raises or returns nothing iterable
    postBuyFails: Order -> bool,                                  // handle_post_buy_actions raises
    upsertFails: Order -> bool,                                   // insert_or_update_order raises
    now: Timestamp)

  /** The three managers' tables and the strategy's call log. */
  datatype Store = Store(
    values: map<string, seq<ValueRow>>,
    orders: map<string, seq<OrderRow>>,
    cursors: map<string, Timestamp>,
    calls: seq<Call>)

  /** The quote is recorded when it has results and its insert does not raise. */
  predicate Admitted(env: Env, coin: string) {
    HasResults(env.bestPrice(coin)) && !env.insertFails(coin)
  }

  /** An executed order is fully processed: post-buy action, upsert, and cursor update. */
  predicate Completes(env: Env, o: Order) {
    !env.postBuyFails(o) && !env.upsertFails(o) && o.updatedAt.Some?
  }

  /** The orders and cursors of coins other than `coin` are those of `s`. */
  predicate OthersUnchanged(s: Store, r: Store, coin: string) {
    r.cursors - {coin} == s.cursors - {coin} &&
    r.orders - {OrderHistoryTable(coin)} == s.orders - {OrderHistoryTable(coin)}
  }

  /**
   * The loop over executed orders; an exception ends it, keeping what was done. It touches
   * only the coin's order table and cursor, leaves the value tables alone and only appends calls.
   */
  function Reconcile(s: Store, coin: string, os: seq<Order>, env: Env): (r: Store)
    ensures r.values == s.values
    ensures OthersUnchanged(s, r, coin)
    ensures |s.calls| <= |r.calls| && r.calls[..|s.calls|] == s.calls
    decreases |os|
  {
    if os == [] then s
    else
      var o := os[0];
      var s1 := s.(calls := s.calls + [PostBuyCall(coin, o)]);
      if env.postBuyFails(o) || env.upsertFails(o) then s1
      else
        var s2 := s1.(orders := Upserted(s1.orders, OrderHistoryTable(coin), o));
        if o.updatedAt.None? then s2
        else
          var s3 := s2.(cursors := s2.cursors[coin := o.updatedAt.value]);
          assert OthersUnchanged(s, s3, coin);
          var r := Reconcile(s3, coin, os[1..], env);
          assert r.calls[..|s.calls|] == r.calls[..|s3.calls|][..|s.calls|];
          r
  }

  /**
   * One coin of `run`, with the best-price dictionary before and after. A coin that is not
   * admitted changes nothing; otherwise the dictionary gains its quote. No other coin's orders
   * or cursor change, and calls are only appended.
   */
  function CoinStep(s: Store, best: map<string, Quote>, coin: string, env: Env): (r: (Store, map<string, Quote>))
    ensures !Admitted(env, coin) ==> r == (s, best)
    ensures Admitted(env, coin) ==> r.1 == best[coin := env.bestPrice(coin).value]
    ensures OthersUnchanged(s, r.0, coin)
    ensures |s.calls| <= |r.0.calls| && r.0.calls[..|s.calls|] == s.calls
  {
    var q := env.bestPrice(coin);
    if !Admitted(env, coin) then (s, best)
    else
      var best1 := best[coin := q.value];
      var s1 := s.(values := Appended(s.values, coin, q.value, env.now));
      if env.fetchFails(coin) then (s1, best1)
      else
        var s2 := s1.(calls := s1.calls + [StrategyCall(coin, q.value, best1)]);
        if env.strategyFails(coin) then (s2, best1)
        else
          match env.executedOrders(coin, Cursor(s2.cursors, coin))
          case None => (s2, best1)
          case Some(os) => (Reconcile(s2, coin, os, env), best1)
  }

  function RunFrom(s: Store, best: map<string, Quote>, coins: seq<string>, env: Env): (Store, map<string, Quote>)
    decreases |coins|
  {
    if coins == [] then (s, best)
    else
      var r := CoinStep(s, best, coins[0], env);
      RunFrom(r.0, r.1, coins[1..], env)
  }

  // ---- Properties ----

  /** A coin without results, or whose insert raises, changes nothing, wherever it is in the list. */
  lemma {:induction false} SkippedCoinLeavesNoTrace(s: Store, best: map<string, Quote>, pre: seq<string>, coin: string, post: seq<string>, env: Env)
    requires !Admitted(env, coin)
    ensures RunFrom(s, best, pre + [coin] + post, env) == RunFrom(s, best, pre + post, env)
    decreases |pre|
  {
    if pre == [] {
      assert pre + [coin] + post == [coin] + post;
      assert ([coin] + post)[1..] == post;
      assert pre + post == post;
    } else {
      assert (pre + [coin] + post)[1..] == pre[1..] + [coin] + post;
      assert (pre + post)[1..] == pre[1..] + post;
      var r := CoinStep(s, best, pre[0], env);
      SkippedCoinLeavesNoTrace(r.0, r.1, pre[1..], coin, post, env);
    }
  }

  /** The best-price dictionary holds exactly the admitted coins, each with its own quote. */
  lemma {:induction false} BestPriceEntries(s: Store, best: map<string, Quote>, coins: seq<string>, env: Env)
    ensures forall c :: c in RunFrom(s, best, coins, env).1 <==> c in best || (c in coins && Admitted(env, c))
    ensures forall c :: c in coins && Admitted(env, c) ==> RunFrom(s, best, coins, env).1[c] == env.bestPrice(c).value
    ensures forall c :: c in best && !(c in coins && Admitted(env, c)) ==> RunFrom(s, best, coins, env).1[c] == best[c]
    decreases |coins|
  {
    if coins != [] {
      var r := CoinStep(s, best, coins[0], env);
      BestPriceEntries(r.0, r.1, coins[1..], env);
      assert forall c :: c in coins <==> c == coins[0] || c in coins[1..];
    }
  }

  /** A raising fetch_data skips the strategy and reconciliation; only the quote is recorded. */
  lemma FetchFailureSkipsStrategy(s: Store, best: map<string, Quote>, coin: string, env: Env)
    requires Admitted(env, coin) && env.fetchFails(coin)
    ensures CoinStep(s, best, coin, env).0 == s.(values := Appended(s.values, coin, env.bestPrice(coin).value, env.now))
  {
  }

  /**
   * Where fetch_data raises for every coin, as a call with an argument it does not take does,
   * a run never calls the strategy and never reconciles an order.
   */
  lemma {:induction false} AlwaysFailingFetchNeverTrades(s: Store, best: map<string, Quote>, coins: seq<string>, env: Env)
    requires forall c :: env.fetchFails(c)
    ensures RunFrom(s, best, coins, env).0.calls == s.calls
    ensures RunFrom(s, best, coins, env).0.orders == s.orders
    ensures RunFrom(s, best, coins, env).0.cursors == s.cursors
    decreases |coins|
  {
    if coins != [] {
      var r := CoinStep(s, best, coins[0], env);
      assert r.0.calls == s.calls && r.0.orders == s.orders && r.0.cursors == s.cursors;
      AlwaysFailingFetchNeverTrades(r.0, r.1, coins[1..], env);
    }
  }

  /** A raising strategy call skips reconciliation; the strategy sees the coin's own quote. */
  lemma StrategyFailureSkipsReconciliation(s: Store, best: map<string, Quote>, coin: string, env: Env)
    requires Admitted(env, coin) && !env.fetchFails(coin) && env.strategyFails(coin)
    ensures CoinStep(s, best, coin, env).0.orders == s.orders
    ensures CoinStep(s, best, coin, env).0.cursors == s.cursors
    ensures CoinStep(s, best, coin, env).0.calls == s.calls + [StrategyCall(coin, env.bestPrice(coin).value, best[coin := env.bestPrice(coin).value])]
  {
  }

  /** Reconciliation appends one post-buy call per order it reaches, in order, and nothing else. */
  lemma {:induction false} ReconcileLogsPostBuyCalls(s: Store, coin: string, os: seq<Order>, env: Env)
    ensures |s.calls| <= |Reconcile(s, coin, os, env).calls| <= |s.calls| + |os|
    ensures Reconcile(s, coin, os, env).calls[..|s.calls|] == s.calls
    ensures forall i :: |s.calls| <= i < |Reconcile(s, coin, os, env).calls| ==>
      Reconcile(s, coin, os, env).calls[i] == PostBuyCall(coin, os[i - |s.calls|])
    ensures Reconcile(s, coin, os, env).values == s.values
    decreases |os|
  {
    if os != [] {
      var o := os[0];
      var s1 := s.(calls := s.calls + [PostBuyCall(coin, o)]);
      if !(env.postBuyFails(o) || env.upsertFails(o)) && o.updatedAt.Some? {
        var s3 := s1.(orders := Upserted(s1.orders, OrderHistoryTable(coin), o)).(cursors := s1.cursors[coin := o.updatedAt.value]);
        ReconcileLogsPostBuyCalls(s3, coin, os[1..], env);
        var r := Reconcile(s3, coin, os[1..], env);
        assert r.calls[..|s3.calls|] == s3.calls;
        assert r.calls[..|s.calls|] == s3.calls[..|s.calls|];
        forall i | |s.calls| <= i < |r.calls| ensures r.calls[i] == PostBuyCall(coin, os[i - |s.calls|]) {
          if i > |s.calls| {
            assert r.calls[i] == PostBuyCall(coin, os[1..][i - |s3.calls|]);
          } else {
            assert r.calls[i] == s3.calls[i];
          }
        }
      }
    }
  }

  /** The state after the first order of a batch completes. */
  function AfterCompleted(s: Store, coin: string, o: Order): Store
    requires o.updatedAt.Some?
  {
    s.(calls := s.calls + [PostBuyCall(coin, o)]).(orders := Upserted(s.orders, OrderHistoryTable(coin), o)).(cursors := s.cursors[coin := o.updatedAt.value])
  }

  lemma CompletedOrderContinues(s: Store, coin: string, os: seq<Order>, env: Env)
    requires os != [] && Completes(env, os[0])
    ensures Reconcile(s, coin, os, env) == Reconcile(AfterCompleted(s, coin, os[0]), coin, os[1..], env)
  {
  }

  /** Every order of the batch completes, read from its head. */
  predicate AllComplete(env: Env, os: seq<Order>)
    decreases |os|
  {
    os == [] || (Completes(env, os[0]) && AllComplete(env, os[1..]))
  }

  lemma {:induction false} AllCompleteOf(env: Env, os: seq<Order>)
    requires forall i :: 0 <= i < |os| ==> Completes(env, os[i])
    ensures AllComplete(env, os)
    decreases |os|
  {
    if os != [] {
      assert forall i :: 0 <= i < |os[1..]| ==> os[1..][i] == os[i + 1];
      AllCompleteOf(env, os[1..]);
    }
  }

  lemma Overwrite(m: map<string, Timestamp>, k: string, a: Timestamp, b: Timestamp)
    ensures m[k := a][k := b] == m[k := b]
  {
  }

  /** After a complete batch, the cursor is the last order's updated_at. */
  lemma {:induction false} CompleteBatchCursorOnly(s: Store, coin: string, os: seq<Order>, env: Env)
    requires AllComplete(env, os)
    ensures os == [] ==> Reconcile(s, coin, os, env).cursors == s.cursors
    ensures os != [] ==> (os[|os| - 1].updatedAt.Some? && Reconcile(s, coin, os, env).cursors == s.cursors[coin := os[|os| - 1].updatedAt.value])
    decreases |os|
  {
    if os != [] {
      var rest := os[1..];
      var s3 := AfterCompleted(s, coin, os[0]);
      CompletedOrderContinues(s, coin, os, env);
      CompleteBatchCursorOnly(s3, coin, rest, env);
      var last := os[|os| - 1];
      if rest == [] {
        assert last == os[0];
      } else {
        assert rest[|rest| - 1] == last;
        assert Reconcile(s, coin, os, env).cursors == s3.cursors[coin := last.updatedAt.value];
        Overwrite(s.cursors, coin, os[0].updatedAt.value, last.updatedAt.value);
      }
    }
  }

  /** A complete batch logs one post-buy call per order. */
  lemma {:induction false} CompleteBatchCalls(s: Store, coin: string, os: seq<Order>, env: Env)
    requires AllComplete(env, os)
    ensures |Reconcile(s, coin, os, env).calls| == |s.calls| + |os|
    decreases |os|
  {
    if os != [] {
      CompletedOrderContinues(s, coin, os, env);
      CompleteBatchCalls(AfterCompleted(s, coin, os[0]), coin, os[1..], env);
    }
  }

  /** After a batch in which every order completes, the cursor is the LAST order's updated_at. */
  lemma CompleteBatchCursor(s: Store, coin: string, os: seq<Order>, env: Env)
    requires forall i :: 0 <= i < |os| ==> Completes(env, os[i])
    ensures os == [] ==> Reconcile(s, coin, os, env).cursors == s.cursors
    ensures os != [] ==> (os[|os| - 1].updatedAt.Some? && Reconcile(s, coin, os, env).cursors == s.cursors[coin := os[|os| - 1].updatedAt.value])
    ensures |Reconcile(s, coin, os, env).calls| == |s.calls| + |os|
  {
    AllCompleteOf(env, os);
    CompleteBatchCursorOnly(s, coin, os, env);
    CompleteBatchCalls(s, coin, os, env);
  }

  /**
   * An order whose post-buy action or upsert raises ends the batch: the state is the one after
   * the orders before it, plus that order's post-buy call.
   */
  lemma {:induction false} FailingOrderEndsBatch(s: Store, coin: string, os: seq<Order>, k: nat, env: Env)
    requires k < |os|
    requires forall i :: 0 <= i < k ==> Completes(env, os[i])
    requires env.postBuyFails(os[k]) || env.upsertFails(os[k])
    ensures var before := Reconcile(s, coin, os[..k], env);
      Reconcile(s, coin, os, env) == before.(calls := before.calls + [PostBuyCall(coin, os[k])])
    decreases k
  {
    if k == 0 {
      assert os[..k] == [];
    } else {
      var o := os[0];
      var s3 := s.(calls := s.calls + [PostBuyCall(coin, o)]).(orders := Upserted(s.orders, OrderHistoryTable(coin), o)).(cursors := s.cursors[coin := o.updatedAt.value]);
      assert os[..k][0] == o;
      assert os[..k][1..] == os[1..][..k - 1];
      assert forall i :: 0 <= i < k - 1 ==> os[1..][i] == os[i + 1];
      FailingOrderEndsBatch(s3, coin, os[1..], k - 1, env);
    }
  }

  /** The cursor follows list order, not time: a newer order listed first is overtaken. */
  lemma CursorIsLastNotLatest(s: Store, env: Env, newer: Order, older: Order)
    requires newer.updatedAt == Some(February) && older.updatedAt == Some(January)
    requires Completes(env, newer) && Completes(env, older)
    ensures "BTC-USD" in Reconcile(s, "BTC-USD", [newer, older], env).cursors
    ensures Reconcile(s, "BTC-USD", [newer, older], env).cursors["BTC-USD"] == January
    ensures !NotAfter(February, January)
  {
    CompleteBatchCursor(s, "BTC-USD", [newer, older], env);
    FebruaryIsAfterJanuary();
  }

  const January: Timestamp := "2024-01-01T00:00:00Z"
  const February: Timestamp := "2024-02-01T00:00:00Z"

  lemma FebruaryIsAfterJanuary()
    ensures !NotAfter(February, January)
  {
    assert February[..6] == January[..6];
    assert February[6] == '2' && January[6] == '1';
    NotAfterAtFirstDifference(February, January, 6);
  }

  /** Strings that agree before index k and differ at k are ordered by their k-th characters. */
  lemma {:induction false} NotAfterAtFirstDifference(a: string, b: string, k: nat)
    requires k < |a| && k < |b| && a[..k] == b[..k] && a[k] > b[k]
    ensures !NotAfter(a, b)
    decreases k
  {
    if k > 0 {
      assert a[0] == a[..k][0] && b[0] == b[..k][0];
      assert a[1..][..k - 1] == a[..k][1..] && b[1..][..k - 1] == b[..k][1..];
      NotAfterAtFirstDifference(a[1..], b[1..], k - 1);
    }
  }

  /** The bot: its symbols and the three managers it writes through. */
  class Bot {
    const symbols: seq<string>
    const valueHistory: ValueHistoryManager
    const orderHistory: OrderHistoryManager
    const timestamps: TimestampsManager
    var calls: seq<Call>

    constructor (symbols: seq<string>, valueHistory: ValueHistoryManager, orderHistory: OrderHistoryManager, timestamps: TimestampsManager)
      ensures this.symbols == symbols && this.valueHistory == valueHistory
      ensures this.orderHistory == orderHistory && this.timestamps == timestamps
      ensures calls == []
    {
      this.symbols := symbols;
      this.valueHistory := valueHistory;
      this.orderHistory := orderHistory;
      this.timestamps := timestamps;
      calls := [];
    }

    function State(): Store
      reads this, valueHistory, orderHistory, timestamps
    {
      Store(valueHistory.tables, orderHistory.tables, timestamps.lastChecked, calls)
    }

    /** The executed-orders loop of `run` for one coin. */
    method ReconcileOrders(coin: string, os: seq<Order>, env: Env)
      modifies this, orderHistory, timestamps
      ensures State() == Reconcile(old(State()), coin, os, env)
      ensures old(orderHistory.Valid()) ==> orderHistory.Valid()
    {
      var i := 0;
      while i < |os|
        invariant 0 <= i <= |os|
        invariant Reconcile(State(), coin, os[i..], env) == Reconcile(old(State()), coin, os, env)
        invariant old(orderHistory.Valid()) ==> orderHistory.Valid()
      {
        assert os[i..][0] == os[i] && os[i..][1..] == os[i + 1..];
        var o := os[i];
        calls := calls + [PostBuyCall(coin, o)];
        if env.postBuyFails(o) || env.upsertFails(o) {
          return;
        }
        orderHistory.InsertOrUpdateOrder(OrderHistoryTable(coin), o);
        if o.updatedAt.None? {
          return;
        }
        timestamps.UpdateLastTimestamp(coin, o.updatedAt.value);
        i := i + 1;
      }
    }

    /**
     * `run`: one pass over the symbols. The source returns nothing; the best-price dictionary
     * it builds is returned here only so that its contents can be stated.
     */
    method Run(env: Env) returns (best: map<string, Quote>)
      modifies this, valueHistory, orderHistory, timestamps
      ensures (State(), best) == RunFrom(old(State()), map[], symbols, env)
      ensures old(orderHistory.Valid()) ==> orderHistory.Valid()
    {
      best := map[];
      var i := 0;
      while i < |symbols|
        invariant 0 <= i <= |symbols|
        invariant RunFrom(State(), best, symbols[i..], env) == RunFrom(old(State()), map[], symbols, env)
        invariant old(orderHistory.Valid()) ==> orderHistory.Valid()
      {
        assert symbols[i..][0] == symbols[i] && symbols[i..][1..] == symbols[i + 1..];
        var coin := symbols[i];
        var q := env.bestPrice(coin);
        if Admitted(env, coin) {
          valueHistory.InsertData(coin, q.value, env.now);
          best := best[coin := q.value];
          if !env.fetchFails(coin) {
            calls := calls + [StrategyCall(coin, q.value, best)];
          }
          if !env.fetchFails(coin) && !env.strategyFails(coin) {
            var last := timestamps.GetLastTimestamp(coin);
            assert last == Cursor(timestamps.lastChecked, coin);
            var executed := env.executedOrders(coin, last);
            if executed.Some? {
              ReconcileOrders(coin, executed.value, env);
            }
          }
        }
        i := i + 1;
      }
    }
  }
}

/** An account's value, explained: what it is worth is the cash that did not come from trades, the gains
    realized so far and the gains still open (investments/services/valuation.py over the postings of
    investments/services/transactions.py). */
module AccountValue {
  import opened Wrappers
  import opened Decimals
  import opened Trades
  import opened Holdings
  import opened Posting
  import opened PostingProtocol
  import opened Conservation
  import opened PostedCash
  import opened ReplayFigures
  import opened ExchangeRates
  import V = Valuation

  function SnapshotAt(items: seq<Trade>, security: nat, date: int): Result<HoldingSnapshot, Oversell> {
    Snapshot(EXACT, AsOf(Of(items, security), date))
  }

  /** `calculate_holdings` without the closed ones, as the valuation takes them; the label and the latest price of
      each security come from a catalog. */
  function OpenHoldings(items: seq<Trade>, date: int, securities: seq<nat>,
      catalog: nat -> V.OpenHolding): seq<V.OpenHolding> {
    if securities == [] then []
    else
      var rest := OpenHoldings(items, date, securities[1..], catalog);
      match SnapshotAt(items, securities[0], date)
      case Err(_) => rest
      case Ok(h) =>
        if h.quantity == 0.0 then rest
        else [catalog(securities[0]).(quantity := h.quantity, baseCost := h.baseCost)] + rest
  }

  /** The realized gains of all holdings, closed ones included. */
  function RealizedTotal(items: seq<Trade>, date: int, securities: seq<nat>): real {
    if securities == [] then 0.0
    else
      var rest := RealizedTotal(items, date, securities[1..]);
      match SnapshotAt(items, securities[0], date)
      case Err(_) => rest
      case Ok(h) => h.realizedBase + rest
  }

  /** Cash entries of investment postings up to a day: all of them, or those that are not BUY or SELL. */
  function PostedTotal(log: seq<Trade>, entries: seq<CashEntry>, date: int): real
    requires |log| == |entries|
  {
    if log == [] then 0.0
    else
      var n := |log| - 1;
      PostedTotal(log[..n], entries[..n], date) + (if log[n].date <= date then entries[n].amount else 0.0)
  }

  function IncomeTotal(log: seq<Trade>, entries: seq<CashEntry>, date: int): real
    requires |log| == |entries|
  {
    if log == [] then 0.0
    else
      var n := |log| - 1;
      IncomeTotal(log[..n], entries[..n], date)
      + (if !log[n].IsTrade() && log[n].date <= date then entries[n].amount else 0.0)
  }

  lemma {:induction false} PostedIsTradesAndIncome(log: seq<Trade>, entries: seq<CashEntry>, date: int)
    requires |log| == |entries|
    ensures PostedTotal(log, entries, date) == EntryCash(log, entries, date) + IncomeTotal(log, entries, date)
  {
    if log != [] {
      var n := |log| - 1;
      PostedIsTradesAndIncome(log[..n], entries[..n], date);
    }
  }

  // ----- costs and realized gains

  lemma {:induction false} CostTotalOfHead(h: V.OpenHolding, rest: seq<V.OpenHolding>)
    ensures V.CostTotal([h] + rest) == h.baseCost + V.CostTotal(rest)
    decreases |rest|
  {
    if rest == [] {
      assert [h] + rest == [h] && [h][..0] == [];
    } else {
      var n := |rest| - 1;
      CostTotalOfHead(h, rest[..n]);
      assert ([h] + rest)[..n + 1] == [h] + rest[..n];
    }
  }

  /** What is booked over all securities is the realized total less the cost of the open holdings. */
  lemma {:induction false} BookedIsRealizedLessCost(items: seq<Trade>, date: int, securities: seq<nat>,
      catalog: nat -> V.OpenHolding)
    requires forall s | s in securities :: Snapshot(EXACT, AsOf(Of(items, s), date)).Ok?
    ensures BookedTotal(items, date, securities)
         == RealizedTotal(items, date, securities) - V.CostTotal(OpenHoldings(items, date, securities, catalog))
  {
    if securities != [] {
      var s, rest := securities[0], OpenHoldings(items, date, securities[1..], catalog);
      BookedIsRealizedLessCost(items, date, securities[1..], catalog);
      EmptyCostsNothing(AsOf(Of(items, s), date));
      var h := SnapshotAt(items, s, date).value;
      CostTotalOfHead(catalog(s).(quantity := h.quantity, baseCost := h.baseCost), rest);
      hide V.CostTotal, AsOf, Of, Replay;
    }
  }

  // ----- the identity

  /** An amount off by at most a bound is, converted, off by at most the bound converted. */
  lemma {:induction false} ConvertedBound(x: real, y: real, bound: real, rate: real)
    requires rate > 0.0 && Abs(x - y) <= bound
    ensures Abs(Times(x, rate) - Times(y, rate)) <= Times(bound, rate)
  {
    var d := x - y;
    assert Times(x, rate) - Times(y, rate) == d * rate;
    assert (bound - d) * rate >= 0.0 && (bound + d) * rate >= 0.0;
  }

  /** The valuation's figures as conversions at one rate. */
  lemma {:induction false} FiguresAreConverted(s: V.Setting, holdings: seq<V.OpenHolding>, balance: real,
      realized: real, p: V.Portfolio)
    requires V.IsValuation(s, holdings, balance, realized, p) && p.complete
    ensures GetFxRate(s.table, s.home, s.reporting, s.date).Ok? && p.market.Some?
    ensures var rate := GetFxRate(s.table, s.home, s.reporting, s.date).value;
            && p.realized == Some(Times(realized, rate))
            && p.unrealized == Some(p.market.value - Times(V.CostTotal(holdings), rate))
            && p.total == Some(Times(balance, rate) + p.market.value)
  {
    hide First, V.CostTotal, V.RowOf, V.MarketTotal, V.SumOver, V.SharesOf, V.HasLabel, V.LabelTotal, V.Allocated;
  }

  /** After any interleaving of postings, at every date and in every reporting currency: a complete valuation's
      total is the cash that did not come from trades, plus realized gain, plus unrealized gain, to within half a
      quantum, converted, for each foreign trade, and exactly when there is none.  The account's other entries
      are given by their sum. */
  lemma {:induction false} ValueIsExplained(
    actions: seq<Action>, st: State, securities: seq<nat>, catalog: nat -> V.OpenHolding, s: V.Setting, others: real,
        p: V.Portfolio)
    requires Runs(actions, st) && SalesCovered(st.log) && Distinct(securities) && |st.log| == |st.entries|
    requires forall t | t in st.log :: t.security in securities
    requires var items := Ordered(st.log);
             V.IsValuation(
               s, OpenHoldings(items, s.date, securities, catalog), others + PostedTotal(st.log, st.entries, s.date),
               RealizedTotal(items, s.date, securities), p)
    requires p.complete
    ensures GetFxRate(s.table, s.home, s.reporting, s.date).Ok? && p.total.Some? && p.realized.Some?
        && p.unrealized.Some?
    ensures var rate := GetFxRate(s.table, s.home, s.reporting, s.date).value;
            var own := Times(others + IncomeTotal(st.log, st.entries, s.date), rate);
            Abs(p.total.value - (own + p.realized.value + p.unrealized.value))
            <= Times(0.00005 * ForeignTrades(AsOf(Ordered(st.log), s.date)) as real, rate)
    ensures (forall t | t in st.log && t.IsTrade() && t.date <= s.date :: t.currency == t.home) ==>
              var rate := GetFxRate(s.table, s.home, s.reporting, s.date).value;
              var own := Times(others + IncomeTotal(st.log, st.entries, s.date), rate);
              p.total.value == own + p.realized.value + p.unrealized.value
  {
    hide *;
    var items := Ordered(st.log);
    var holdings := OpenHoldings(items, s.date, securities, catalog);
    var realized, cost := RealizedTotal(items, s.date, securities), V.CostTotal(holdings);
    var trades, income := EntryCash(st.log, st.entries, s.date), IncomeTotal(st.log, st.entries, s.date);
    PostedIsTradesAndIncome(st.log, st.entries, s.date);
    PostedCashBalances(actions, st, s.date, securities);
    BookedIsRealizedLessCost(items, s.date, securities, catalog);
    FiguresAreConverted(s, holdings, others + PostedTotal(st.log, st.entries, s.date), realized, p);
    RateIsPositive(s.table, s.home, s.reporting, s.date);
    var rate := GetFxRate(s.table, s.home, s.reporting, s.date).value;
    TimesDistributes(others + income, trades, rate);
    DifferenceConverts(realized, cost, rate);
    assert others + PostedTotal(st.log, st.entries, s.date) == others + income + trades;
    ConvertedBound(trades, realized - cost, 0.00005 * ForeignTrades(AsOf(items, s.date)) as real, rate);
  }

  lemma {:induction false} DifferenceConverts(x: real, y: real, rate: real)
    ensures Times(x - y, rate) == Times(x, rate) - Times(y, rate)
  {}
}

/** Valuing a brokerage account in a reporting currency (investments/services/valuation.py). */
module Valuation {
  import opened Wrappers
  import opened Decimals
  import opened ExchangeRates

  datatype Label = Bond | Cash | CashEquivalent | Crypto | Etf | Fund | Other | Stock

  /** The labels in alphabetical order; a security's type is any label but Cash. */
  const LABELS: seq<Label> := [Bond, Cash, CashEquivalent, Crypto, Etf, Fund, Other, Stock]

  datatype Price = Price(price: real, currency: nat)

  /** An open holding, with its latest price if there is one. */
  datatype Holding = Holding(kind: Label, quantity: real, baseCost: real, latest: Option<Price>)

  type OpenHolding = h: Holding | h.kind != Cash
    witness Holding(Stock, 1.0, 0.0, None)

  datatype Row = Row(
    holding: OpenHolding, marketNative: Option<real>, market: Option<real>, cost: Option<real>, gain: Option<real>,
    percent: Option<real>, allocation: Option<real>)

  datatype Share = Share(kind: Label, market: real, percentage: real)

  datatype Portfolio = Portfolio(
    rows: seq<Row>, market: Option<real>, cost: Option<real>, unrealized: Option<real>, unrealizedPercent: Option<real>,
    realized: Option<real>, cash: Option<real>, total: Option<real>, complete: bool, shares: seq<Share>)

  /** Where the account is, where it is reported, on what day and at what rates. */
  datatype Setting = Setting(table: Table, home: nat, reporting: nat, date: int)
  {
    function ToReporting(amount: real, currency: nat): Option<real> {
      match Convert(table, amount, currency, reporting, date)
      case Ok(x) => Some(x)
      case Err(_) => None
    }
  }

  // ----- one row

  /** The row of a holding before its allocation is known. */
  function RowOf(s: Setting, h: OpenHolding): Row {
    match h.latest
    case None => Row(h, None, None, Some(h.baseCost), None, None, None)
    case Some(price) =>
      var native := Times(h.quantity, price.price);
      var market, cost := s.ToReporting(native, price.currency), s.ToReporting(h.baseCost, s.home);
      if market.None? || cost.None? then Row(h, Some(native), None, Some(h.baseCost), None, None, None)
      else
        var gain := market.value - cost.value;
        Row(h, Some(native), market, cost, Some(gain),
            if cost.value != 0.0 then Some(gain / cost.value * 100.0) else None, None)
  }

  function RowsOf(s: Setting, holdings: seq<OpenHolding>): seq<Row> {
    seq(|holdings|, i requires 0 <= i < |holdings| => RowOf(s, holdings[i]))
  }

  function Known(x: Option<real>): real { if x.Some? then x.value else 0.0 }

  function MarketTotal(rows: seq<Row>): real {
    if rows == [] then 0.0 else MarketTotal(rows[..|rows| - 1]) + Known(rows[|rows| - 1].market)
  }

  function GainTotal(rows: seq<Row>): real {
    if rows == [] then 0.0 else GainTotal(rows[..|rows| - 1]) + Known(rows[|rows| - 1].gain)
  }

  function CostTotal(holdings: seq<OpenHolding>): real {
    if holdings == [] then 0.0 else CostTotal(holdings[..|holdings| - 1]) + holdings[|holdings| - 1].baseCost
  }

  predicate AllPriced(rows: seq<Row>) { forall i :: 0 <= i < |rows| ==> rows[i].market.Some? }

  /** The first loop: the rows and the totals. */
  method ValueHoldings(s: Setting, holdings: seq<OpenHolding>)
    returns (rows: seq<Row>, market: real, cost: real, complete: bool)
    ensures rows == RowsOf(s, holdings)
    ensures market == MarketTotal(rows) && cost == CostTotal(holdings)
    ensures complete <==> AllPriced(rows)
  {
    hide Setting.ToReporting;
    rows, market, cost, complete := [], 0.0, 0.0, true;
    for i := 0 to |holdings|
      invariant |rows| == i && forall j :: 0 <= j < i ==> rows[j] == RowOf(s, holdings[j])
      invariant market == MarketTotal(rows) && cost == CostTotal(holdings[..i])
      invariant complete <==> AllPriced(rows)
    {
      var h := holdings[i];
      assert holdings[..i + 1][..i] == holdings[..i];
      cost := cost + h.baseCost;
      var row;
      if h.latest.None? {
        complete := false;
        row := Row(h, None, None, Some(h.baseCost), None, None, None);
      } else {
        var native := Times(h.quantity, h.latest.value.price);
        var value := s.ToReporting(native, h.latest.value.currency);
        var basis := s.ToReporting(h.baseCost, s.home);
        if value.None? || basis.None? {
          complete := false;
          row := Row(h, Some(native), None, Some(h.baseCost), None, None, None);
        } else {
          var gain := value.value - basis.value;
          market := market + value.value;
          row := Row(h, Some(native), value, basis, Some(gain),
                     if basis.value != 0.0 then Some(gain / basis.value * 100.0) else None, None);
        }
      }
      assert row == RowOf(s, h);
      assert (rows + [row])[..i] == rows;
      rows := rows + [row];
    }
    assert holdings[..|holdings|] == holdings;
  }

  // ----- allocation

  function Percentage(amount: real, total: real): real
    requires total != 0.0
  {
    amount / total * 100.0
  }

  /** The row with its part of the market total. */
  function Allocated(r: Row, total: real): Row {
    if total != 0.0 && r.market.Some? then r.(allocation := Some(Percentage(r.market.value, total))) else r
  }

  method Allocate(rows: seq<Row>, total: real) returns (placed: seq<Row>)
    ensures |placed| == |rows| && forall i :: 0 <= i < |rows| ==> placed[i] == Allocated(rows[i], total)
  {
    placed := rows;
    if total != 0.0 {
      for i := 0 to |rows|
        invariant |placed| == |rows|
        invariant forall j :: 0 <= j < i ==> placed[j] == Allocated(rows[j], total)
        invariant forall j :: i <= j < |rows| ==> placed[j] == rows[j]
      {
        if rows[i].market.Some? {
          placed := placed[i := rows[i].(allocation := Some(rows[i].market.value / total * 100.0))];
        }
      }
    }
  }

  /** The market value of the rows of one label. */
  function LabelTotal(rows: seq<Row>, kind: Label): real {
    if rows == [] then 0.0
    else
      var last := rows[|rows| - 1];
      LabelTotal(rows[..|rows| - 1], kind) + (if last.holding.kind == kind then Known(last.market) else 0.0)
  }

  predicate HasLabel(rows: seq<Row>, kind: Label) { exists i :: 0 <= i < |rows| && rows[i].holding.kind == kind }

  /** The dictionary of allocation values. */
  method CollectValues(rows: seq<Row>, cash: real) returns (values: map<Label, real>)
    requires AllPriced(rows)
    ensures forall l: Label | l != Cash :: l in values <==> HasLabel(rows, l)
    ensures forall l: Label | l in values && l != Cash :: values[l] == LabelTotal(rows, l)
    ensures Cash in values <==> cash > 0.0
    ensures Cash in values ==> values[Cash] == cash
  {
    values := map[];
    for i := 0 to |rows|
      invariant forall l: Label :: l in values <==> HasLabel(rows[..i], l)
      invariant forall l: Label | l in values :: values[l] == LabelTotal(rows[..i], l)
      invariant Cash !in values
    {
      var row := rows[i];
      assert rows[..i + 1][..i] == rows[..i] && rows[..i + 1][i] == row;
      OneMoreLabel(rows, i);
      if row.holding.kind !in values {
        NoneOfLabel(rows[..i], row.holding.kind);
      }
      values := values[row.holding.kind :=
          (if row.holding.kind in values then values[row.holding.kind] else 0.0) + row.market.value];
    }
    assert rows[..|rows|] == rows;
    if cash > 0.0 {
      values := values[Cash := cash];
    }
  }

  lemma {:induction false} OneMoreLabel(rows: seq<Row>, i: nat)
    requires i < |rows|
    ensures forall l: Label :: HasLabel(rows[..i + 1], l) <==> HasLabel(rows[..i], l) || rows[i].holding.kind == l
  {
    forall l: Label
      ensures HasLabel(rows[..i + 1], l) <==> HasLabel(rows[..i], l) || rows[i].holding.kind == l
    {
      if HasLabel(rows[..i], l) {
        var j :| 0 <= j < i && rows[..i][j].holding.kind == l;
        assert rows[..i + 1][j].holding.kind == l;
      }
      assert rows[..i + 1][i] == rows[i];
      if HasLabel(rows[..i + 1], l) && rows[i].holding.kind != l {
        var j :| 0 <= j < i + 1 && rows[..i + 1][j].holding.kind == l;
        assert rows[..i][j].holding.kind == l;
      }
    }
  }

  lemma {:induction false} NoneOfLabel(rows: seq<Row>, kind: Label)
    requires !HasLabel(rows, kind)
    ensures LabelTotal(rows, kind) == 0.0
  {
    if rows != [] {
      var n := |rows| - 1;
      assert rows[n].holding.kind != kind;
      assert forall i :: 0 <= i < n ==> rows[..n][i] == rows[i];
      NoneOfLabel(rows[..n], kind);
    }
  }

  /** The value of a dictionary entry, nothing where there is none. */
  function At(values: map<Label, real>, l: Label): real { if l in values then values[l] else 0.0 }

  function SumOver(values: map<Label, real>, labels: seq<Label>): real {
    if labels == [] then 0.0 else SumOver(values, labels[..|labels| - 1]) + At(values, labels[|labels| - 1])
  }

  /** `sorted(allocation_values.items())`, as shares of the total. */
  function SharesOf(values: map<Label, real>, labels: seq<Label>, total: real): seq<Share>
    requires total != 0.0
  {
    if labels == [] then []
    else
      var l := labels[|labels| - 1];
      SharesOf(values, labels[..|labels| - 1], total)
          + (if l in values then [Share(l, values[l], Percentage(values[l], total))] else [])
  }

  method ShareOut(values: map<Label, real>) returns (shares: seq<Share>)
    ensures var total := SumOver(values, LABELS);
            shares == if total == 0.0 then [] else SharesOf(values, LABELS, total)
  {
    var total := 0.0;
    for i := 0 to |LABELS|
      invariant total == SumOver(values, LABELS[..i])
    {
      assert LABELS[..i + 1][..i] == LABELS[..i];
      if LABELS[i] in values {
        total := total + values[LABELS[i]];
      }
    }
    assert LABELS[..|LABELS|] == LABELS;
    shares := [];
    if total != 0.0 {
      for i := 0 to |LABELS|
        invariant shares == SharesOf(values, LABELS[..i], total)
      {
        assert LABELS[..i + 1][..i] == LABELS[..i];
        if LABELS[i] in values {
          shares := shares + [Share(LABELS[i], values[LABELS[i]], values[LABELS[i]] / total * 100.0)];
        }
      }
    }
  }

  // ----- the whole valuation

  /** A dictionary of amounts by label is that of a valuation. */
  ghost predicate ValuesOf(p: Portfolio, values: map<Label, real>)
    requires p.cash.Some?
  {
    && (forall l: Label | l != Cash :: l in values <==> HasLabel(p.rows, l))
    && (forall l: Label | l in values && l != Cash :: values[l] == LabelTotal(p.rows, l))
    && (Cash in values <==> p.cash.value > 0.0) && (Cash in values ==> values[Cash] == p.cash.value)
  }

  /** What a portfolio says, field by field. */
  ghost predicate IsValuation(s: Setting, holdings: seq<OpenHolding>, cash: real, realized: real, p: Portfolio) {
    && |p.rows| == |holdings|
    && (forall i :: 0 <= i < |p.rows| ==>
        p.rows[i] == Allocated(RowsOf(s, holdings)[i], MarketTotal(RowsOf(s, holdings))))
    && (p.complete <==> AllPriced(RowsOf(s, holdings)) && s.ToReporting(cash, s.home).Some?)
    && p.cash == s.ToReporting(cash, s.home)
    && p.cost == s.ToReporting(CostTotal(holdings), s.home)
    && p.realized == s.ToReporting(realized, s.home)
    && (p.complete ==>
          && p.market == Some(MarketTotal(p.rows)) && p.cash.Some? && p.cost.Some?
          && p.unrealized == Some(p.market.value - p.cost.value)
          && p.total == Some(p.cash.value + p.market.value)
          && (forall i :: 0 <= i < |p.rows| ==> p.rows[i].market.Some?)
          && exists values: map<Label, real> :: (
               && ValuesOf(p, values)
               && p.shares == if SumOver(values, LABELS) == 0.0 then []
                   else SharesOf(values, LABELS, SumOver(values, LABELS))))
    && (!p.complete ==> p.market == None && p.unrealized == None && p.total == None && p.shares == [])
    && p.unrealizedPercent
       == (if p.complete && p.cost.value != 0.0 then Some(p.unrealized.value / p.cost.value * 100.0) else None)
  }

  lemma {:induction false} AllocationKeepsTotals(rows: seq<Row>, placed: seq<Row>, total: real)
    requires |placed| == |rows| && forall i :: 0 <= i < |rows| ==> placed[i] == Allocated(rows[i], total)
    ensures MarketTotal(placed) == MarketTotal(rows) && GainTotal(placed) == GainTotal(rows)
    ensures AllPriced(placed) == AllPriced(rows)
  {
    if rows != [] {
      var n := |rows| - 1;
      AllocationKeepsTotals(rows[..n], placed[..n], total);
    }
    assert forall i :: 0 <= i < |rows| ==> placed[i].market == rows[i].market;
  }

  /** A zero amount converts exactly when any other does. */
  lemma {:induction false} SameRate(s: Setting, x: real, y: real, currency: nat)
    ensures s.ToReporting(x, currency).Some? <==> s.ToReporting(y, currency).Some?
  {}

  lemma {:induction false} HomeIsUnchanged(s: Setting, x: real)
    requires s.reporting == s.home
    ensures s.ToReporting(x, s.home) == Some(x)
  {
    assert Times(x, 1.0) == x;
  }

  /** `calculate_portfolio_value`. */
  method CalculatePortfolioValue(s: Setting, holdings: seq<OpenHolding>, balance: real, realizedBase: real)
      returns (p: Portfolio)
    ensures IsValuation(s, holdings, balance, realizedBase, p)
  {
    hide Setting.ToReporting, RowOf, MarketTotal, CostTotal, LabelTotal, HasLabel, SumOver, SharesOf, Allocated;
    var priced, market, cost, complete := ValueHoldings(s, holdings);
    var rows := Allocate(priced, market);
    AllocationKeepsTotals(priced, rows, market);
    var cash, totalCost, realized := Some(balance), Some(cost), Some(realizedBase);
    if s.reporting != s.home {
      SameRate(s, balance, cost, s.home);
      SameRate(s, balance, realizedBase, s.home);
      cash, totalCost, realized :=
          s.ToReporting(balance, s.home), s.ToReporting(cost, s.home), s.ToReporting(realizedBase, s.home);
      if cash.None? {
        complete := false;
      }
    } else {
      HomeIsUnchanged(s, balance);
      HomeIsUnchanged(s, cost);
      HomeIsUnchanged(s, realizedBase);
    }
    SameRate(s, balance, cost, s.home);
    var shares: seq<Share> := [];
    var unrealized, unrealizedPercent, total: Option<real> := None, None, None;
    if complete {
      var values := CollectValues(rows, cash.value);
      shares := ShareOut(values);
      unrealized := Some(market - totalCost.value);
      if totalCost.value != 0.0 {
        unrealizedPercent := Some((market - totalCost.value) / totalCost.value * 100.0);
      }
      total := Some(cash.value + market);
    }
    p := Portfolio(rows, if complete then Some(market) else None, totalCost, unrealized, unrealizedPercent,
                   realized, cash, total,
                   complete, shares);
  }

  // ----- the two ways of totalling agree

  /** Converting each cost and adding is adding and converting once. */
  lemma {:induction false} GainsAreMarketLessCost(s: Setting, holdings: seq<OpenHolding>)
    requires AllPriced(RowsOf(s, holdings)) && s.ToReporting(CostTotal(holdings), s.home).Some?
    ensures GainTotal(RowsOf(s, holdings))
        == MarketTotal(RowsOf(s, holdings)) - s.ToReporting(CostTotal(holdings), s.home).value
  {
    var rows := RowsOf(s, holdings);
    var rate := GetFxRate(s.table, s.home, s.reporting, s.date).value;
    if rows == [] {
      assert Times(0.0, rate) == 0.0;
    } else {
      var n := |rows| - 1;
      SameRate(s, CostTotal(holdings), CostTotal(holdings[..n]), s.home);
      assert rows[..n] == RowsOf(s, holdings[..n]);
      GainsAreMarketLessCost(s, holdings[..n]);
      assert rows[n] == RowOf(s, holdings[n]) && rows[n].market.Some?;
      TimesDistributes(CostTotal(holdings[..n]), holdings[n].baseCost, rate);
      hide First;
    }
  }

  /** When every holding is priced and every rate is there: the unrealized gain computed from converted
      totals is the sum of the gains of the rows, and total value is cash plus market value, in any
      reporting currency. */
  lemma {:induction false} TotalsAgree(s: Setting, holdings: seq<OpenHolding>, cash: real, realized: real, p: Portfolio)
    requires IsValuation(s, holdings, cash, realized, p) && p.complete
    ensures p.unrealized == Some(GainTotal(p.rows))
    ensures p.market == Some(MarketTotal(p.rows)) && p.cash.Some? && p.total == Some(p.cash.value + p.market.value)
  {
    var rows := RowsOf(s, holdings);
    SameRate(s, cash, CostTotal(holdings), s.home);
    hide Setting.ToReporting, RowOf, MarketTotal, CostTotal, GainTotal, Allocated, SumOver, SharesOf, LabelTotal,
        HasLabel;
    GainsAreMarketLessCost(s, holdings);
    AllocationKeepsTotals(rows, p.rows, MarketTotal(rows));
  }

  function AllocationTotal(rows: seq<Row>): real {
    if rows == [] then 0.0 else AllocationTotal(rows[..|rows| - 1]) + Known(rows[|rows| - 1].allocation)
  }

  lemma {:induction false} PercentageAdds(a: real, b: real, total: real)
    requires total != 0.0
    ensures Percentage(a + b, total) == Percentage(a, total) + Percentage(b, total)
    ensures Percentage(total, total) == 100.0 && Percentage(0.0, total) == 0.0
  {
    assert (a + b) / total == a / total + b / total;
  }

  lemma {:induction false} AllocationOf(rows: seq<Row>, placed: seq<Row>, total: real)
    requires total != 0.0 && |placed| == |rows|
    requires forall i :: 0 <= i < |rows| ==> rows[i].allocation == None && placed[i] == Allocated(rows[i], total)
    ensures AllocationTotal(placed) == Percentage(MarketTotal(rows), total)
  {
    hide Percentage;
    if rows == [] {
      PercentageAdds(0.0, 0.0, total);
      assert AllocationTotal(placed) == 0.0 == Percentage(MarketTotal(rows), total);
    } else {
      var n := |rows| - 1;
      assert rows[n].allocation == None && placed[n] == Allocated(rows[n], total);
      AllocationOf(rows[..n], placed[..n], total);
      PercentageAdds(MarketTotal(rows[..n]), Known(rows[n].market), total);
      PercentageAdds(0.0, 0.0, total);
      assert Known(placed[n].allocation) == Percentage(Known(rows[n].market), total);
      assert MarketTotal(rows) == MarketTotal(rows[..n]) + Known(rows[n].market);
      assert AllocationTotal(placed) == AllocationTotal(placed[..n]) + Known(placed[n].allocation);
      assert Percentage(MarketTotal(rows), total) == Percentage(MarketTotal(rows[..n]) + Known(rows[n].market), total);
    }
  }

  /** The rows' percentages add up to 100 whenever the market total is not zero, complete or not. */
  lemma {:induction false} RowsAddTo100(s: Setting, holdings: seq<OpenHolding>, cash: real, realized: real,
      p: Portfolio)
    requires IsValuation(s, holdings, cash, realized, p) && MarketTotal(p.rows) != 0.0
    ensures AllocationTotal(p.rows) == 100.0
  {
    var rows := RowsOf(s, holdings);
    assert forall i :: 0 <= i < |rows| ==> rows[i].allocation == None;
    hide Setting.ToReporting, RowOf, MarketTotal, CostTotal, GainTotal, Allocated, SumOver, SharesOf, LabelTotal,
        HasLabel, Percentage, AllocationTotal;
    AllocationKeepsTotals(rows, p.rows, MarketTotal(rows));
    AllocationOf(rows, p.rows, MarketTotal(rows));
    PercentageAdds(0.0, 0.0, MarketTotal(rows));
  }

  /** The labels partition the rows. */
  lemma {:induction false} LabelsPartition(rows: seq<Row>)
    ensures MarketTotal(rows) ==
            LabelTotal(rows, Bond) + LabelTotal(rows, CashEquivalent) + LabelTotal(rows, Crypto) + LabelTotal(rows, Etf)
            + LabelTotal(rows, Fund) + LabelTotal(rows, Other) + LabelTotal(rows, Stock)
  {
    if rows != [] {
      LabelsPartition(rows[..|rows| - 1]);
      assert rows[|rows| - 1].holding.kind != Cash;
    }
  }

  lemma {:induction false} SumOverLabels(values: map<Label, real>)
    ensures SumOver(values, LABELS) ==
            At(values, Bond) + At(values, Cash) + At(values, CashEquivalent) + At(values, Crypto) + At(values, Etf)
            + At(values, Fund) + At(values, Other) + At(values, Stock)
  {
    assert SumOver(values, LABELS[..0]) == 0.0;
    assert LABELS[..8] == LABELS;
    hide SumOver, At;
    SumOverNext(values, 0);
    SumOverNext(values, 1);
    SumOverNext(values, 2);
    SumOverNext(values, 3);
    SumOverNext(values, 4);
    SumOverNext(values, 5);
    SumOverNext(values, 6);
    SumOverNext(values, 7);
  }

  lemma {:induction false} SumOverNext(values: map<Label, real>, k: nat)
    requires k < 8
    ensures SumOver(values, LABELS[..k + 1]) == SumOver(values, LABELS[..k]) + At(values, LABELS[k])
  {
    assert LABELS[..k + 1][..k] == LABELS[..k];
  }

  function MarketOf(shares: seq<Share>): real {
    if shares == [] then 0.0 else MarketOf(shares[..|shares| - 1]) + shares[|shares| - 1].market
  }

  function PercentOf(shares: seq<Share>): real {
    if shares == [] then 0.0 else PercentOf(shares[..|shares| - 1]) + shares[|shares| - 1].percentage
  }

  lemma {:induction false} SharesAdd(values: map<Label, real>, labels: seq<Label>, total: real)
    requires total != 0.0
    ensures MarketOf(SharesOf(values, labels, total)) == SumOver(values, labels)
    ensures PercentOf(SharesOf(values, labels, total)) == Percentage(SumOver(values, labels), total)
  {
    if labels == [] {
      PercentageAdds(0.0, 0.0, total);
    } else {
      var n := |labels| - 1;
      SharesAdd(values, labels[..n], total);
      var front := SharesOf(values, labels[..n], total);
      PercentageAdds(SumOver(values, labels[..n]), At(values, labels[n]), total);
      PercentageAdds(0.0, 0.0, total);
      if labels[n] in values {
        var share := Share(labels[n], values[labels[n]], Percentage(values[labels[n]], total));
        assert (front + [share])[..|front|] == front;
      } else {
        assert SharesOf(values, labels, total) == front;
      }
      hide Percentage;
    }
  }

  /** The shares by category cover market value and positive cash, and their percentages add up to 100
      whenever that sum is not zero. */
  lemma {:induction false} SharesAddTo100(s: Setting, holdings: seq<OpenHolding>, cash: real, realized: real,
      p: Portfolio)
    requires IsValuation(s, holdings, cash, realized, p) && p.complete
    ensures p.cash.Some?
    ensures var covered := MarketTotal(p.rows) + Max(0.0, p.cash.value);
            if covered == 0.0 then p.shares == [] else MarketOf(p.shares) == covered && PercentOf(p.shares) == 100.0
  {
    var values: map<Label, real> :|
      && ValuesOf(p, values)
      && p.shares == if SumOver(values, LABELS) == 0.0 then [] else SharesOf(values, LABELS, SumOver(values, LABELS));
    hide IsValuation, HasLabel, MarketTotal, LabelTotal, SumOver, SharesOf, MarketOf, PercentOf, Percentage;
    ValuesCover(p, values);
    var total := SumOver(values, LABELS);
    if total != 0.0 {
      SharesAdd(values, LABELS, total);
      PercentageAdds(0.0, 0.0, total);
    }
  }

  // ----- what the rows show

  /** The units of the reporting currency for one unit of another, or 0 where there is no rate. */
  function RateOrZero(s: Setting, currency: nat): real {
    match GetFxRate(s.table, currency, s.reporting, s.date)
    case Ok(rate) => rate
    case Err(_) => 0.0
  }

  predicate HasRate(s: Setting, currency: nat) { GetFxRate(s.table, currency, s.reporting, s.date).Ok? }

  /** A holding can be valued when it has a price, and both the price and the account's costs have a rate. */
  predicate CanBeValued(s: Setting, h: OpenHolding) {
    h.latest.Some? && HasRate(s, h.latest.value.currency) && HasRate(s, s.home)
  }

  /** Quantity times latest price, at the rate of the price's currency. */
  function Worth(s: Setting, h: OpenHolding): real
    requires h.latest.Some?
  {
    Times(Times(h.quantity, h.latest.value.price), RateOrZero(s, h.latest.value.currency))
  }

  /** What the row of a holding shows: its worth, its cost at the rate of the account's currency, the difference and its
      percentage of the cost, and its percentage of the market total; or, when it cannot be valued, its unconverted cost
      alone. */
  predicate Shows(s: Setting, h: OpenHolding, r: Row, total: real) {
    && r.holding == h
    && (if h.latest.None? then r.marketNative == None
        else r.marketNative == Some(Times(h.quantity, h.latest.value.price)))
    && (if CanBeValued(s, h) then
          && r.market == Some(Worth(s, h)) && r.cost == Some(Times(h.baseCost, RateOrZero(s, s.home)))
          && r.gain == Some(r.market.value - r.cost.value)
          && (r.percent.Some? <==> r.cost.value != 0.0)
          && (r.percent.Some? ==> Times(r.percent.value, r.cost.value) == 100.0 * r.gain.value)
          && (r.allocation.Some? <==> total != 0.0)
          && (r.allocation.Some? ==> Times(r.allocation.value, total) == 100.0 * r.market.value)
        else r.market == r.gain == r.percent == r.allocation == None && r.cost == Some(h.baseCost))
  }

  lemma {:induction false} PercentOf100(x: real, total: real)
    requires total != 0.0
    ensures Times(x / total * 100.0, total) == 100.0 * x
  {
    assert x / total * 100.0 * total == x / total * total * 100.0;
  }

  lemma {:induction false} RowShows(s: Setting, h: OpenHolding, total: real)
    ensures Shows(s, h, Allocated(RowOf(s, h), total), total)
  {
    hide Times, First;
    var r := RowOf(s, h);
    if r.market.Some? {
      if r.cost.value != 0.0 {
        PercentOf100(r.gain.value, r.cost.value);
      }
      if total != 0.0 {
        PercentOf100(r.market.value, total);
      }
    }
  }

  /** Every row of a valuation shows its holding, in the order of the holdings, against the total of what could be
      valued. */
  lemma {:induction false} RowsShow(s: Setting, holdings: seq<OpenHolding>, cash: real, realized: real, p: Portfolio)
    requires IsValuation(s, holdings, cash, realized, p)
    ensures |p.rows| == |holdings|
    ensures forall i :: 0 <= i < |holdings| ==> Shows(s, holdings[i], p.rows[i], WorthTotal(s, holdings))
  {
    MarketIsWorth(s, holdings);
    hide Shows, RowOf, Allocated, MarketTotal, WorthTotal, Setting.ToReporting, CostTotal, SumOver, SharesOf, HasLabel,
      LabelTotal;
    forall i | 0 <= i < |holdings|
      ensures Shows(s, holdings[i], p.rows[i], WorthTotal(s, holdings))
    {
      RowShows(s, holdings[i], WorthTotal(s, holdings));
    }
  }

  /** The worth of the holdings that can be valued. */
  function WorthTotal(s: Setting, holdings: seq<OpenHolding>): real {
    if holdings == [] then 0.0
    else
      var h := holdings[|holdings| - 1];
      WorthTotal(s, holdings[..|holdings| - 1]) + (if CanBeValued(s, h) then Worth(s, h) else 0.0)
  }

  lemma {:induction false} MarketIsWorth(s: Setting, holdings: seq<OpenHolding>)
    ensures MarketTotal(RowsOf(s, holdings)) == WorthTotal(s, holdings)
  {
    if holdings != [] {
      var n := |holdings| - 1;
      MarketIsWorth(s, holdings[..n]);
      assert RowsOf(s, holdings)[..n] == RowsOf(s, holdings[..n]);
      RowShows(s, holdings[n], 0.0);
      hide Worth, RowOf, CanBeValued;
    }
  }

  /** A valuation is complete exactly when every holding can be valued and the cash has a rate; then its market total is
      the sum of quantities times prices at their rates, and its cost the sum of costs at the account's rate. */
  lemma {:induction false} CompleteIff(s: Setting, holdings: seq<OpenHolding>, cash: real, realized: real, p: Portfolio)
    requires IsValuation(s, holdings, cash, realized, p)
    ensures p.complete <==> (forall h | h in holdings :: CanBeValued(s, h)) && HasRate(s, s.home)
    ensures p.complete ==>
              && p.market == Some(WorthTotal(s, holdings))
              && p.cost == Some(Times(CostTotal(holdings), RateOrZero(s, s.home)))
              && p.cash == Some(Times(cash, RateOrZero(s, s.home)))
              && p.realized == Some(Times(realized, RateOrZero(s, s.home)))
  {
    MarketIsWorth(s, holdings);
    AllocationKeepsTotals(RowsOf(s, holdings), p.rows, MarketTotal(RowsOf(s, holdings)));
    forall i | 0 <= i < |holdings|
      ensures RowsOf(s, holdings)[i].market.Some? <==> CanBeValued(s, holdings[i])
    {
      RowShows(s, holdings[i], 0.0);
    }
    hide RowOf, Allocated, MarketTotal, WorthTotal, CostTotal, SumOver, SharesOf, HasLabel, LabelTotal,
        CanBeValued, First;
  }

  // ----- what the shares show

  /** A share of a valuation: a label that is held, or cash when positive, its amount, and its percentage of
      them all. */
  predicate IsShare(p: Portfolio, share: Share)
    requires p.cash.Some?
  {
    var covered := MarketTotal(p.rows) + Max(0.0, p.cash.value);
    && (if share.kind == Cash then p.cash.value > 0.0 && share.market == p.cash.value
        else HasLabel(p.rows, share.kind) && share.market == LabelTotal(p.rows, share.kind))
    && Times(share.percentage, covered) == 100.0 * share.market
  }

  lemma {:induction false} SharesAt(values: map<Label, real>, labels: seq<Label>, total: real)
    requires total != 0.0
    ensures forall x | x in SharesOf(values, labels, total) ::
              x.kind in labels && x.kind in values && x.market == values[x.kind]
                  && Times(x.percentage, total) == 100.0 * x.market
    ensures forall l | l in labels && l in values :: exists x :: x in SharesOf(values, labels, total) && x.kind == l
  {
    if labels != [] {
      var n := |labels| - 1;
      var front := SharesOf(values, labels[..n], total);
      SharesAt(values, labels[..n], total);
      assert labels == labels[..n] + [labels[n]];
      if labels[n] in values {
        var share := Share(labels[n], values[labels[n]], Percentage(values[labels[n]], total));
        PercentOf100(values[labels[n]], total);
        assert SharesOf(values, labels, total) == front + [share];
        hide SharesOf, Percentage, Times;
        forall l | l in labels && l in values
          ensures exists x :: x in SharesOf(values, labels, total) && x.kind == l
        {
          if l == labels[n] {
            assert share in front + [share];
          } else {
            var x :| x in front && x.kind == l;
            assert x in front + [share];
          }
        }
      } else {
        assert SharesOf(values, labels, total) == front;
      }
    }
  }

  /** The shares of a complete valuation are of the labels held, and of cash when positive, each at its amount and its
      percentage of what they cover. */
  lemma {:induction false} SharesShow(s: Setting, holdings: seq<OpenHolding>, cash: real, realized: real, p: Portfolio)
    requires IsValuation(s, holdings, cash, realized, p) && p.complete
    requires p.cash.Some? && MarketTotal(p.rows) + Max(0.0, p.cash.value) != 0.0
    ensures forall x | x in p.shares :: IsShare(p, x)
    ensures forall l: Label | if l == Cash then p.cash.value > 0.0 else HasLabel(p.rows, l) ::
              exists x :: x in p.shares && x.kind == l
    ensures forall j, k :: 0 <= j < k < |p.shares| ==> Rank(p.shares[j].kind) < Rank(p.shares[k].kind)
  {
    var values: map<Label, real> :|
      && ValuesOf(p, values)
      && p.shares == if SumOver(values, LABELS) == 0.0 then [] else SharesOf(values, LABELS, SumOver(values, LABELS));
    hide *;
    ValuesCover(p, values);
    SharesAreOf(p, values);
    EveryLabelShared(p, values);
    SharesInOrder(values, 8, SumOver(values, LABELS));
    assert LABELS[..8] == LABELS;
  }

  lemma {:induction false} SharesAreOf(p: Portfolio, values: map<Label, real>)
    requires p.cash.Some? && ValuesOf(p, values)
    requires var total := MarketTotal(p.rows) + Max(0.0, p.cash.value);
             total != 0.0 && SumOver(values, LABELS) == total && p.shares == SharesOf(values, LABELS, total)
    ensures forall x | x in p.shares :: IsShare(p, x)
  {
    hide HasLabel, MarketTotal, LabelTotal, SumOver, SharesOf, Times, Max;
    SharesAt(values, LABELS, SumOver(values, LABELS));
    forall x | x in p.shares
      ensures IsShare(p, x)
    {
      assert x.kind in values;
    }
  }

  lemma {:induction false} EveryLabelShared(p: Portfolio, values: map<Label, real>)
    requires p.cash.Some? && ValuesOf(p, values)
    requires SumOver(values, LABELS) != 0.0 && p.shares == SharesOf(values, LABELS, SumOver(values, LABELS))
    ensures forall l: Label | if l == Cash then p.cash.value > 0.0 else HasLabel(p.rows, l) ::
              exists x :: x in p.shares && x.kind == l
  {
    hide HasLabel, LabelTotal, SumOver, SharesOf, Times;
    SharesAt(values, LABELS, SumOver(values, LABELS));
    forall l: Label | if l == Cash then p.cash.value > 0.0 else HasLabel(p.rows, l)
      ensures exists x :: x in p.shares && x.kind == l
    {
      EveryLabel(l);
      assert l in values;
    }
  }

  /** Shares in the order of their labels, all of the first n. */
  ghost predicate InOrder(shares: seq<Share>, n: nat) {
    && (forall k :: 0 <= k < |shares| ==> Rank(shares[k].kind) < n)
    && (forall j, k :: 0 <= j < k < |shares| ==> Rank(shares[j].kind) < Rank(shares[k].kind))
  }

  lemma {:induction false} SharesInOrder(values: map<Label, real>, n: nat, total: real)
    requires n <= 8 && total != 0.0
    ensures InOrder(SharesOf(values, LABELS[..n], total), n)
  {
    if n > 0 {
      SharesInOrder(values, n - 1, total);
      assert LABELS[..n][..n - 1] == LABELS[..n - 1] && LABELS[..n][n - 1] == LABELS[n - 1];
      var l := LABELS[n - 1];
      var front, shares := SharesOf(values, LABELS[..n - 1], total), SharesOf(values, LABELS[..n], total);
      assert InOrder(front, n - 1) && Rank(l) == n - 1;
      if l in values {
        assert shares == front + [Share(l, values[l], Percentage(values[l], total))];
      } else {
        assert shares == front;
      }
    } else {
      assert LABELS[..0] == [];
    }
  }

  /** The place of a label in alphabetical order. */
  function Rank(l: Label): nat {
    match l
    case Bond => 0
    case Cash => 1
    case CashEquivalent => 2
    case Crypto => 3
    case Etf => 4
    case Fund => 5
    case Other => 6
    case Stock => 7
  }

  lemma {:induction false} EveryLabel(l: Label)
    ensures l in LABELS
  {
    match l
    case Bond => assert LABELS[0] == l;
    case Cash => assert LABELS[1] == l;
    case CashEquivalent => assert LABELS[2] == l;
    case Crypto => assert LABELS[3] == l;
    case Etf => assert LABELS[4] == l;
    case Fund => assert LABELS[5] == l;
    case Other => assert LABELS[6] == l;
    case Stock => assert LABELS[7] == l;
  }

  /** The values by label cover market value and positive cash. */
  lemma {:induction false} ValuesCover(p: Portfolio, values: map<Label, real>)
    requires p.cash.Some? && ValuesOf(p, values)
    ensures SumOver(values, LABELS) == MarketTotal(p.rows) + Max(0.0, p.cash.value)
  {
    hide HasLabel, MarketTotal, LabelTotal, SumOver;
    forall l: Label | l != Cash
      ensures At(values, l) == LabelTotal(p.rows, l)
    {
      if l !in values {
        NoneOfLabel(p.rows, l);
      }
    }
    LabelsPartition(p.rows);
    SumOverLabels(values);
  }
}

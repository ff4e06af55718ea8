/** Cash and cost balance: what the trades of an account moved in cash is what the holdings replay
    reports as realized, less what it still carries at cost. */
module Conservation {
  import opened Decimals
  import opened Trades
  import opened Holdings

  /** The sum of the cash entries of the BUY and SELL rows. */
  function TradeCash(items: seq<Trade>): real {
    if items == [] then 0.0
    else
      var last := items[|items| - 1];
      TradeCash(items[..|items| - 1]) + (if last.IsTrade() then last.Cash() else 0.0)
  }

  function ForeignTrades(items: seq<Trade>): nat {
    if items == [] then 0
    else
      var last := items[|items| - 1];
      ForeignTrades(items[..|items| - 1]) + (if last.IsTrade() && last.currency != last.home then 1 else 0)
  }

  /** Realized gain less remaining cost, in the account currency, of one security's replay. */
  function Booked(items: seq<Trade>): real
    requires Snapshot(EXACT, items).Ok?
  {
    Snapshot(EXACT, items).value.realizedBase - Snapshot(EXACT, items).value.baseCost
  }

  /** The same summed over some securities, at a date. */
  function BookedTotal(items: seq<Trade>, date: int, securities: seq<nat>): real
    requires forall s | s in securities :: Snapshot(EXACT, AsOf(Of(items, s), date)).Ok?
  {
    if securities == [] then 0.0
    else Booked(AsOf(Of(items, securities[0]), date)) + BookedTotal(items, date, securities[1..])
  }

  // ----- unrounded flows

  function Flow(t: Trade): real {
    if t.IsTrade() then Times(t.NetCashImpactNative(), t.Rate()) else 0.0
  }

  function FlowTotal(items: seq<Trade>): real {
    if items == [] then 0.0 else FlowTotal(items[..|items| - 1]) + Flow(items[|items| - 1])
  }

  lemma {:induction false} FlowSnoc(items: seq<Trade>, t: Trade)
    ensures FlowTotal(items + [t]) == FlowTotal(items) + Flow(t)
  {
    assert (items + [t])[..|items|] == items;
  }

  /** A row moves realized gain less cost by exactly its unrounded cash flow, also when a sale empties
      the position and the costs are reset. */
  lemma {:induction false} StepBooksFlow(st: Tally, t: Trade)
    requires TallyStep(EXACT, st, t).Ok?
    ensures var after := TallyStep(EXACT, st, t).value;
            after.realizedBase - after.position.baseCost == st.realizedBase - st.position.baseCost + Flow(t)
  {
    if t.kind == Buy {
      BuyBooksFlow(st, t);
    } else if t.kind == Sell {
      SellBooksFlow(st, t);
    }
  }

  lemma {:induction false} BuyBooksFlow(st: Tally, t: Trade)
    requires t.kind == Buy
    ensures var after := TallyStep(EXACT, st, t).value;
            after.realizedBase - after.position.baseCost == st.realizedBase - st.position.baseCost + Flow(t)
  {
    var cost := Acquisition(EXACT, t);
    assert EXACT.mul(cost, t.Rate()) == cost * t.Rate();
    assert TallyStep(EXACT, st, t).value.position.baseCost == st.position.baseCost + cost * t.Rate();
    assert Flow(t) == (-cost) * t.Rate() == -(cost * t.Rate());
  }

  lemma {:induction false} SellBooksFlow(st: Tally, t: Trade)
    requires t.kind == Sell && t.quantity <= st.position.quantity
    ensures var after := TallyStep(EXACT, st, t).value;
            after.realizedBase - after.position.baseCost == st.realizedBase - st.position.baseCost + Flow(t)
  {
    SellIsSold(st, t);
    var net := NetProceeds(EXACT, t);
    assert Flow(t) == net * t.Rate();
    SoldBooksProceeds(st, t.quantity, net, net * t.Rate());
  }

  lemma {:induction false} SoldBooksProceeds(st: Tally, quantity: real, net: real, netBase: real)
    requires 0.0 < quantity <= st.position.quantity
    ensures var after := Sold(st, quantity, net, netBase);
            after.realizedBase - after.position.baseCost == st.realizedBase - st.position.baseCost + netBase
  {
    var base, q := st.position.baseCost, st.position.quantity;
    if quantity == q {
      assert base / q * quantity == base;
    }
  }

  lemma {:induction false} ReplayBooksFlow(items: seq<Trade>)
    requires Replay(EXACT, items).Ok?
    ensures Booked(items) == FlowTotal(items)
  {
    if items != [] {
      ReplayBooksFlow(items[..|items| - 1]);
      StepBooksFlow(Replay(EXACT, items[..|items| - 1]).value, items[|items| - 1]);
    }
  }

  function FlowBySecurity(items: seq<Trade>, securities: seq<nat>): real {
    if securities == [] then 0.0 else FlowTotal(Of(items, securities[0])) + FlowBySecurity(items, securities[1..])
  }

  ghost predicate Distinct(securities: seq<nat>) {
    forall i, j :: 0 <= i < j < |securities| ==> securities[i] != securities[j]
  }

  lemma {:induction false} FlowBySecuritySnoc(items: seq<Trade>, t: Trade, securities: seq<nat>)
    requires Distinct(securities)
    ensures FlowBySecurity(items + [t], securities)
         == FlowBySecurity(items, securities) + (if t.security in securities then Flow(t) else 0.0)
  {
    if securities != [] {
      var s := securities[0];
      FlowBySecuritySnoc(items, t, securities[1..]);
      OfSnoc(items, t, s);
      FlowSnoc(Of(items, s), t);
      assert t.security in securities <==> t.security == s || t.security in securities[1..];
      if t.security == s {
        assert t.security !in securities[1..];
      } else {
        assert Of(items + [t], s) == Of(items, s);
      }
    }
  }

  /** Grouping by security loses no row and counts none twice. */
  lemma {:induction false} FlowIsPartitioned(items: seq<Trade>, securities: seq<nat>)
    requires Distinct(securities)
    requires forall t | t in items :: t.security in securities
    ensures FlowBySecurity(items, securities) == FlowTotal(items)
  {
    if items == [] {
      NoFlow(securities);
    } else {
      var front, t := items[..|items| - 1], items[|items| - 1];
      assert items == front + [t];
      FlowIsPartitioned(front, securities);
      FlowBySecuritySnoc(front, t, securities);
      assert t in items;
    }
  }

  lemma {:induction false} NoFlow(securities: seq<nat>)
    ensures FlowBySecurity([], securities) == 0.0
  {
    if securities != [] {
      NoFlow(securities[1..]);
    }
  }

  lemma {:induction false} BookedTotalIsFlow(items: seq<Trade>, date: int, securities: seq<nat>)
    requires forall s | s in securities :: Snapshot(EXACT, AsOf(Of(items, s), date)).Ok?
    ensures BookedTotal(items, date, securities) == FlowBySecurity(AsOf(items, date), securities)
  {
    if securities != [] {
      var s := securities[0];
      ReplayBooksFlow(AsOf(Of(items, s), date));
      AsOfCommutes(items, date, s);
      BookedTotalIsFlow(items, date, securities[1..]);
    }
  }

  // ----- rounded cash

  lemma {:induction false} CashNearFlow(t: Trade)
    ensures Abs(t.Cash() - Times(t.NetCashImpactNative(), t.Rate())) <= 0.00005
    ensures t.currency == t.home ==> t.Cash() == Times(t.NetCashImpactNative(), t.Rate())
  {
    QuantizeError(Times(t.NetCashImpactNative(), t.Rate()));
    MoneyAdds(t.gross, t.fees);
    MoneyAdds(t.gross + t.fees, t.taxes);
    MoneyAdds(t.gross - t.fees, t.taxes);
    MoneyAdds(t.gross + t.fees + t.taxes, t.gross);
    MoneyAdds(t.gross, t.gross);
    if t.currency == t.home {
      assert t.Rate() == 1.0;
      assert IsMoney(t.NetCashImpactNative());
      QuantizeExact(t.NetCashImpactNative());
    }
  }

  lemma {:induction false} TradeCashNearFlow(items: seq<Trade>)
    ensures Abs(TradeCash(items) - FlowTotal(items)) <= 0.00005 * ForeignTrades(items) as real
  {
    if items != [] {
      var last := items[|items| - 1];
      TradeCashNearFlow(items[..|items| - 1]);
      CashNearFlow(last);
    }
  }

  /** At every as-of date: the BUY and SELL cash entries of an account sum to realized gain less remaining
      cost over its securities, to within half a quantum for each trade in a foreign currency, and exactly
      when there is none. */
  lemma {:induction false} CashConservation(items: seq<Trade>, date: int, securities: seq<nat>)
    requires Distinct(securities)
    requires forall t | t in items :: t.security in securities
    requires forall s | s in securities :: Snapshot(EXACT, AsOf(Of(items, s), date)).Ok?
    ensures Abs(TradeCash(AsOf(items, date)) - BookedTotal(items, date, securities))
         <= 0.00005 * ForeignTrades(AsOf(items, date)) as real
    ensures (forall t | t in AsOf(items, date) && t.IsTrade() :: t.currency == t.home) ==>
              TradeCash(AsOf(items, date)) == BookedTotal(items, date, securities)
  {
    hide *;
    AllBookedIsFlow(items, date, securities);
    TradeCashNearFlow(AsOf(items, date));
    if forall t | t in AsOf(items, date) && t.IsTrade() :: t.currency == t.home {
      HomeTradeCashIsFlow(AsOf(items, date));
    }
  }

  lemma {:induction false} AllBookedIsFlow(items: seq<Trade>, date: int, securities: seq<nat>)
    requires Distinct(securities)
    requires forall t | t in items :: t.security in securities
    requires forall s | s in securities :: Snapshot(EXACT, AsOf(Of(items, s), date)).Ok?
    ensures BookedTotal(items, date, securities) == FlowTotal(AsOf(items, date))
  {
    AsOfMembers(items, date);
    BookedTotalIsFlow(items, date, securities);
    FlowIsPartitioned(AsOf(items, date), securities);
  }

  lemma {:induction false} HomeTradeCashIsFlow(items: seq<Trade>)
    requires forall t | t in items && t.IsTrade() :: t.currency == t.home
    ensures TradeCash(items) == FlowTotal(items)
  {
    if items != [] {
      assert items[|items| - 1] in items;
      HomeTradeCashIsFlow(items[..|items| - 1]);
      CashNearFlow(items[|items| - 1]);
    }
  }
}

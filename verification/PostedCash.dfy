/** The cash posted by any run of concurrent postings balances against the holdings replayed from it. */
module PostedCash {
  import opened Decimals
  import opened Trades
  import opened Holdings
  import opened Posting
  import opened PostingProtocol
  import opened Conservation

  /** The BUY and SELL entries dated on or before a day, read from the entry table. */
  function EntryCash(log: seq<Trade>, entries: seq<CashEntry>, date: int): real
    requires |log| == |entries|
  {
    if log == [] then 0.0
    else
      var n := |log| - 1;
      EntryCash(log[..n], entries[..n], date)
          + (if log[n].IsTrade() && log[n].date <= date then entries[n].amount else 0.0)
  }

  /** What a row adds to the trade cash as of a day. */
  function CashAt(t: Trade, date: int): real { if t.IsTrade() && t.date <= date then t.Cash() else 0.0 }

  lemma {:induction false} TradeCashSnoc(items: seq<Trade>, t: Trade, date: int)
    ensures TradeCash(AsOf(items + [t], date)) == TradeCash(AsOf(items, date)) + CashAt(t, date)
  {
    AsOfSnoc(items, t, date);
    hide AsOf;
    TradeCashAdds(AsOf(items, date), t);
    assert AsOf(items, date) + [] == AsOf(items, date);
    hide TradeCash, Item.Cash;
  }

  lemma {:induction false} TradeCashAdds(items: seq<Trade>, t: Trade)
    ensures TradeCash(items + [t]) == TradeCash(items) + (if t.IsTrade() then t.Cash() else 0.0)
  {
    hide Item.Cash;
    assert (items + [t])[..|items|] == items;
  }

  lemma {:induction false} TradeCashInsert(items: seq<Trade>, t: Trade, date: int)
    ensures TradeCash(AsOf(Insert(items, t), date)) == TradeCash(AsOf(items, date)) + CashAt(t, date)
  {
    var n := |items| - 1;
    if items == [] || items[n].date <= t.date {
      TradeCashSnoc(items, t, date);
    } else {
      assert items == items[..n] + [items[n]];
      hide AsOf, TradeCash, CashAt;
      TradeCashInsert(items[..n], t, date);
      TradeCashSnoc(items[..n], items[n], date);
      TradeCashSnoc(Insert(items[..n], t), items[n], date);
    }
  }

  lemma {:induction false} EntryCashIsTradeCash(log: seq<Trade>, entries: seq<CashEntry>, date: int)
    requires |log| == |entries| && forall i :: 0 <= i < |log| ==> entries[i].amount == log[i].Cash()
    ensures EntryCash(log, entries, date) == TradeCash(AsOf(Ordered(log), date))
  {
    if log == [] {
      assert Ordered(log) == [] && AsOf([], date) == [] && TradeCash([]) == 0.0;
    } else {
      var n := |log| - 1;
      assert Ordered(log) == Insert(Ordered(log[..n]), log[n]);
      assert EntryCash(log, entries, date) == EntryCash(log[..n], entries[..n], date) + CashAt(log[n], date);
      hide AsOf, TradeCash, Item.Cash, Ordered, Insert, EntryCash, CashAt;
      EntryCashIsTradeCash(log[..n], entries[..n], date);
      TradeCashInsert(Ordered(log[..n]), log[n], date);
    }
  }

  lemma {:induction false} OrderedRows(log: seq<Trade>, t: Item)
    ensures t in Ordered(log) <==> t in log
  {
    OrderedIsChronological(log);
    assert t in multiset(Ordered(log)) <==> t in multiset(log);
  }

  /** After any interleaving of postings to an account, and at every as-of date to which every holding can be
      replayed: the stored BUY and SELL cash entries sum to realized gain less remaining cost over the
      securities, to within half a quantum for each trade in a foreign currency, and exactly when there is
      none. */
  lemma {:induction false} ReplayedCashBalances(actions: seq<Action>, st: State, date: int, securities: seq<nat>)
    requires Runs(actions, st) && Distinct(securities)
    requires forall t | t in st.log :: t.security in securities
    requires forall s | s in securities :: Snapshot(EXACT, AsOf(Of(Ordered(st.log), s), date)).Ok?
    ensures |st.log| == |st.entries|
    ensures Abs(EntryCash(st.log, st.entries, date) - BookedTotal(Ordered(st.log), date, securities))
         <= 0.00005 * ForeignTrades(AsOf(Ordered(st.log), date)) as real
    ensures (forall t | t in st.log && t.IsTrade() && t.date <= date :: t.currency == t.home) ==>
              EntryCash(st.log, st.entries, date) == BookedTotal(Ordered(st.log), date, securities)
  {
    hide *;
    EntriesCarryCash(actions, st);
    ListedRows(st.log, date);
    EntryCashIsTradeCash(st.log, st.entries, date);
    CashConservation(Ordered(st.log), date, securities);
  }

  /** When every committed sale was covered, all holdings can be replayed, so the balance holds at every date. */
  lemma {:induction false} PostedCashBalances(actions: seq<Action>, st: State, date: int, securities: seq<nat>)
    requires Runs(actions, st) && SalesCovered(st.log) && Distinct(securities)
    requires forall t | t in st.log :: t.security in securities
    ensures |st.log| == |st.entries|
    ensures forall s | s in securities :: Snapshot(EXACT, AsOf(Of(Ordered(st.log), s), date)).Ok?
    ensures Abs(EntryCash(st.log, st.entries, date) - BookedTotal(Ordered(st.log), date, securities))
         <= 0.00005 * ForeignTrades(AsOf(Ordered(st.log), date)) as real
    ensures (forall t | t in st.log && t.IsTrade() && t.date <= date :: t.currency == t.home) ==>
              EntryCash(st.log, st.entries, date) == BookedTotal(Ordered(st.log), date, securities)
  {
    hide *;
    SnapshotsDefined(actions, st, date);
    ReplayedCashBalances(actions, st, date, securities);
  }

  lemma {:induction false} EntriesCarryCash(actions: seq<Action>, st: State)
    requires Runs(actions, st)
    ensures |st.log| == |st.entries| && forall i :: 0 <= i < |st.log| ==> st.entries[i].amount == st.log[i].Cash()
  {
    RunsKeepInv(actions, st);
    hide Item.Cash, SalesWereChecked, Runs;
  }

  lemma {:induction false} SnapshotsDefined(actions: seq<Action>, st: State, date: int)
    requires Runs(actions, st) && SalesCovered(st.log)
    ensures forall s: nat :: Snapshot(EXACT, AsOf(Of(Ordered(st.log), s), date)).Ok?
  {
    ReplaysNeverRaise(actions, st, date);
    hide Runs, SalesCovered, Replay, AsOf, Of, Ordered;
    forall s: nat
      ensures Snapshot(EXACT, AsOf(Of(Ordered(st.log), s), date)).Ok?
    {
      assert Held(st.log, s, date).Ok?;
    }
  }

  lemma {:induction false} ListedRows(log: seq<Trade>, date: int)
    ensures forall t :: t in Ordered(log) <==> t in log
    ensures forall t :: t in AsOf(Ordered(log), date) <==> t in log && t.date <= date
  {
    AsOfMembers(Ordered(log), date);
    hide Ordered, AsOf;
    forall t
      ensures t in Ordered(log) <==> t in log
    {
      OrderedRows(log, t);
    }
  }
}

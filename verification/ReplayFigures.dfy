/** What the figures of the two replays are, told by the rows themselves: proceeds, costs, gains and averages
    (investments/services/holdings.py, investments/services/cost_basis.py). */
module ReplayFigures {
  import opened Decimals
  import opened Trades
  import opened Holdings
  import opened CostBasis
  import opened Quantities

  // ----- the snapshot and the book

  /** For any rounding: the snapshot of a security shows the quantity and costs of its part of the interleaved
      replay and the gains of its events added up in order, and is there whenever that replay succeeds. */
  lemma {:induction false} SnapshotAgreement(c: Context, items: seq<Trade>, s: nat)
    requires BookReplay(c, OnlyTrades(items)).Ok?
    ensures var book, snapshot := BookReplay(c, OnlyTrades(items)).value, Snapshot(c, Of(items, s));
            && snapshot.Ok?
            && snapshot.value.quantity == book.PositionOf(s).quantity
            && snapshot.value.totalCost == book.PositionOf(s).nativeCost
            && snapshot.value.baseCost == book.PositionOf(s).baseCost
            && snapshot.value.realized == GainSum(c, EventsOf(book.events, s))
            && snapshot.value.realizedBase == GainBaseSum(c, EventsOf(book.events, s))
  {
    ReplayAgreement(c, items);
    assert Replay(c, Of(items, s)).Ok?;
    assert Agrees(c, BookReplay(c, OnlyTrades(items)).value, Replay(c, Of(items, s)).value, s);
  }

  /** The average cost is what each unit held cost, and nothing when nothing is held; then nothing is carried at cost in
      either currency. */
  lemma {:induction false} AverageIsCostPerUnit(items: seq<Trade>)
    requires Snapshot(EXACT, items).Ok?
    ensures var h := Snapshot(EXACT, items).value;
            && h.quantity >= 0.0 && Times(h.averageCost, h.quantity) == h.totalCost
            && (h.quantity == 0.0 ==> h.averageCost == h.totalCost == h.baseCost == 0.0)
  {
    EmptyCostsNothing(items);
    var h := Snapshot(EXACT, items).value;
    if h.quantity != 0.0 {
      assert h.averageCost == h.totalCost / h.quantity;
      hide Snapshot, Replay;
      QuotientBack(h.totalCost, h.quantity);
    }
  }

  lemma {:induction false} QuotientBack(x: real, y: real)
    requires y != 0.0
    ensures Times(x / y, y) == x
  {}

  lemma {:induction false} EmptyCostsNothing(items: seq<Trade>)
    requires Replay(EXACT, items).Ok?
    ensures var p := Replay(EXACT, items).value.position;
            p.quantity >= 0.0 && (p.quantity == 0.0 ==> p.nativeCost == p.baseCost == 0.0)
  {
    if items != [] {
      EmptyCostsNothing(items[..|items| - 1]);
      PositionStep(Replay(EXACT, items[..|items| - 1]).value, items[|items| - 1]);
    }
  }

  lemma {:induction false} PositionStep(st: Tally, t: Trade)
    requires st.position.quantity >= 0.0
    requires st.position.quantity == 0.0 ==> st.position.nativeCost == st.position.baseCost == 0.0
    requires TallyStep(EXACT, st, t).Ok?
    ensures var p := TallyStep(EXACT, st, t).value.position;
            p.quantity >= 0.0 && (p.quantity == 0.0 ==> p.nativeCost == p.baseCost == 0.0)
  {}

  // ----- what the trades moved

  /** Units of the account currency for one unit of the row's. */
  function UnitsPer(t: Trade): real { if t.currency == t.home then 1.0 else t.exchangeRate.value }

  /** What a row brings as a trade, charges included, in its own currency. */
  function Brought(t: Trade): real {
    match t.kind
    case Buy => -(t.gross + t.fees + t.taxes)
    case Sell => t.gross - t.fees - t.taxes
    case _ => 0.0
  }

  /** What the trades brought less what they cost, in their own currency and in the account's. */
  function TradeFlow(items: seq<Trade>): real {
    if items == [] then 0.0 else TradeFlow(items[..|items| - 1]) + Brought(items[|items| - 1])
  }

  function TradeFlowBase(items: seq<Trade>): real {
    if items == [] then 0.0
    else
      var t := items[|items| - 1];
      TradeFlowBase(items[..|items| - 1]) + Times(Brought(t), UnitsPer(t))
  }

  /** In both currencies, realized gain less remaining cost is what the trades brought less what they cost. */
  lemma {:induction false} GainsLessCostIsFlow(items: seq<Trade>)
    requires Snapshot(EXACT, items).Ok?
    ensures var h := Snapshot(EXACT, items).value;
            h.realized - h.totalCost == TradeFlow(items) && h.realizedBase - h.baseCost == TradeFlowBase(items)
  {
    if items != [] {
      var front, t := items[..|items| - 1], items[|items| - 1];
      GainsLessCostIsFlow(front);
      StepMovesFlow(Replay(EXACT, front).value, t);
    }
  }

  lemma {:induction false} StepMovesFlow(st: Tally, t: Trade)
    requires TallyStep(EXACT, st, t).Ok?
    ensures var after := TallyStep(EXACT, st, t).value;
            && after.realized - after.position.nativeCost == st.realized - st.position.nativeCost + Brought(t)
            && after.realizedBase - after.position.baseCost
               == st.realizedBase - st.position.baseCost + Times(Brought(t), UnitsPer(t))
  {
    if t.kind == Buy {
      PurchaseMovesCost(st, t);
      assert Times(Brought(t), UnitsPer(t)) == -Times(t.gross + t.fees + t.taxes, UnitsPer(t));
      hide TallyStep, Times;
    } else if t.kind == Sell {
      SellIsSold(st, t);
      ProceedsAtRate(t);
      var net := NetProceeds(EXACT, t);
      var netBase := net * t.Rate();
      SaleMovesProceeds(st, t.quantity, net, netBase);
      hide Sold, TallyStep, NetProceeds, Item.Rate, UnitsPer, Times;
    }
  }

  lemma {:induction false} PurchaseMovesCost(st: Tally, t: Trade)
    requires t.kind == Buy
    ensures TallyStep(EXACT, st, t).Ok?
    ensures var after := TallyStep(EXACT, st, t).value;
            && after.realized == st.realized && after.realizedBase == st.realizedBase
            && after.position.nativeCost == st.position.nativeCost + (t.gross + t.fees + t.taxes)
            && after.position.baseCost == st.position.baseCost + Times(t.gross + t.fees + t.taxes, UnitsPer(t))
  {
    var cost := Acquisition(EXACT, t);
    assert cost == t.gross + t.fees + t.taxes && t.Rate() == UnitsPer(t);
    assert EXACT.mul(cost, t.Rate()) == Times(cost, UnitsPer(t));
  }

  lemma {:induction false} ProceedsAtRate(t: Trade)
    ensures NetProceeds(EXACT, t) == t.gross - t.fees - t.taxes
    ensures NetProceeds(EXACT, t) * t.Rate() == Times(t.gross - t.fees - t.taxes, UnitsPer(t))
  {}

  lemma {:induction false} SaleMovesProceeds(st: Tally, quantity: real, net: real, netBase: real)
    requires 0.0 < quantity <= st.position.quantity
    ensures var after := Sold(st, quantity, net, netBase);
            && after.realized - after.position.nativeCost == st.realized - st.position.nativeCost + net
            && after.realizedBase - after.position.baseCost == st.realizedBase - st.position.baseCost + netBase
  {
    var Position(q, native, base) := st.position;
    ShareOfCost(native, q, quantity);
    ShareOfCost(base, q, quantity);
    var nativeShare, baseShare := native / q * quantity, base / q * quantity;
    assert Sold(st, quantity, net, netBase)
        == Tally(if quantity == q then FLAT else Position(q - quantity, native - nativeShare, base - baseShare),
                 st.realized + (net - nativeShare), st.realizedBase + (netBase - baseShare));
    hide Sold;
  }

  // ----- events

  /** An event shows its sale's proceeds less charges, in both currencies, and gains that are proceeds less basis. */
  predicate ShowsSale(e: Event) {
    var t := e.trade;
    && t.kind == Sell
    && e.netProceeds == t.gross - t.fees - t.taxes
    && e.netProceedsBase == Times(t.gross - t.fees - t.taxes, UnitsPer(t))
    && e.gain == e.netProceeds - e.basis && e.gainBase == e.netProceedsBase - e.basisBase
  }

  /** A sale adds one event: its basis is the part of the cost held that its quantity is of the quantity held, in both
      currencies, and is exactly what leaves the position, also when the sale empties it. */
  lemma {:induction false} SaleEvent(b: Book, t: Trade)
    requires t.kind == Sell && BookStep(EXACT, b, t).Ok?
    ensures var p, after := b.PositionOf(t.security), BookStep(EXACT, b, t).value;
            && |after.events| == |b.events| + 1 && after.events[..|b.events|] == b.events
            && var e, left := after.events[|b.events|], after.PositionOf(t.security);
               && e.trade == t && ShowsSale(e)
               && Times(e.basis, p.quantity) == Times(p.nativeCost, t.quantity)
               && Times(e.basisBase, p.quantity) == Times(p.baseCost, t.quantity)
               && left.quantity == p.quantity - t.quantity
               && left.nativeCost == p.nativeCost - e.basis && left.baseCost == p.baseCost - e.basisBase
  {
    var p := b.PositionOf(t.security);
    var e := EventOf(EXACT, p, t);
    ShareOfCost(p.nativeCost, p.quantity, t.quantity);
    ShareOfCost(p.baseCost, p.quantity, t.quantity);
    assert e.basis == p.nativeCost / p.quantity * t.quantity;
    assert e.basisBase == p.baseCost / p.quantity * t.quantity;
    assert e.netProceedsBase == Times(t.gross - t.fees - t.taxes, UnitsPer(t));
  }

  lemma {:induction false} ShareOfCost(cost: real, quantity: real, sold: real)
    requires quantity > 0.0
    ensures Times(cost / quantity * sold, quantity) == Times(cost, sold)
    ensures sold == quantity ==> cost / quantity * sold == cost
  {
    assert cost / quantity * sold * quantity == cost / quantity * quantity * sold;
  }

  /** Every event of the gain replay shows its sale, and there is one for each sale, in order. */
  lemma {:induction false} EventsShowSales(items: seq<Trade>)
    requires BookReplay(EXACT, items).Ok?
    ensures var events := BookReplay(EXACT, items).value.events;
            && (forall k :: 0 <= k < |events| ==> ShowsSale(events[k]))
            && SalesOf(events) == OnlySales(items)
  {
    if items != [] {
      var front, t := items[..|items| - 1], items[|items| - 1];
      EventsShowSales(front);
      var b := BookReplay(EXACT, front).value;
      if t.kind == Sell {
        SaleEvent(b, t);
        var after := BookReplay(EXACT, items).value;
        assert after.events == b.events + [after.events[|b.events|]];
        assert SalesOf(after.events)[..|b.events|] == SalesOf(b.events);
      }
      hide ShowsSale;
    }
  }

  function SalesOf(events: seq<Event>): seq<Trade> {
    seq(|events|, k requires 0 <= k < |events| => events[k].trade)
  }

  function OnlySales(items: seq<Trade>): seq<Trade> {
    if items == [] then []
    else
      var t := items[|items| - 1];
      OnlySales(items[..|items| - 1]) + (if t.kind == Sell then [t] else [])
  }

  // ----- the preview

  /** A preview is shown exactly when the history is never oversold and the quantity is positive and no more than was
      bought less sold; it shows proceeds less charges, the quantity at average cost, and the difference. */
  lemma {:induction false} PreviewIff(items: seq<Trade>, security: nat, quantity: real, gross: real, fees: real,
      taxes: real)
    ensures var shown, own := Preview(EXACT, items, security, quantity, gross, fees, taxes), Of(items, security);
            && (shown.Ok? <==> NeverOversold(own) && 0.0 < quantity <= Net(own))
            && (shown.Ok? ==>
                  && shown.value.netProceeds == gross - fees - taxes
                  && shown.value.gain == shown.value.netProceeds - shown.value.basis
                  && Times(shown.value.basis, Net(own)) == Times(Snapshot(EXACT, own).value.totalCost, quantity))
  {
    var own := Of(items, security);
    ReplayQuantity(own);
    if Snapshot(EXACT, own).Ok? {
      AverageIsCostPerUnit(own);
      var h := Snapshot(EXACT, own).value;
      AverageShare(h.averageCost, h.quantity, quantity);
      assert Preview(EXACT, items, security, quantity, gross, fees, taxes).Ok? <==> 0.0 < quantity <= h.quantity;
      hide Snapshot, Replay, NeverOversold, Net, Of, Times;
    }
  }

  lemma {:induction false} AverageShare(average: real, held: real, quantity: real)
    ensures Times(EXACT.mul(average, quantity), held) == Times(Times(average, held), quantity)
  {}
}

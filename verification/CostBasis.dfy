/** Realized gains, replayed over all securities at once (investments/services/cost_basis.py), and their
    agreement with the per-security replay. */
module CostBasis {
  import opened Wrappers
  import opened Decimals
  import opened Trades
  import opened Holdings

  datatype Event = Event(
    trade: Trade,
    netProceeds: real,
    basis: real,
    gain: real,
    netProceedsBase: real,
    basisBase: real,
    gainBase: real)

  /** The dictionary of positions and the list of events. */
  datatype Book = Book(positions: map<nat, Position>, events: seq<Event>)
  {
    function PositionOf(security: nat): Position {
      if security in positions then positions[security] else FLAT
    }
  }

  /** "Capital gain calculation is incomplete because cost basis is unavailable." */
  datatype Unavailable = Unavailable(security: nat)

  function EventOf(c: Context, p: Position, t: Trade): Event
    requires t.IsTrade() && p.quantity != 0.0
  {
    var basis := c.mul(c.div(p.nativeCost, p.quantity), t.quantity);
    var basisBase := c.mul(c.div(p.baseCost, p.quantity), t.quantity);
    var net := NetProceeds(c, t);
    var netBase := c.mul(net, t.Rate());
    Event(t, net, basis, c.sub(net, basis), netBase, basisBase, c.sub(netBase, basisBase))
  }

  function BookStep(c: Context, b: Book, t: Trade): Result<Book, Unavailable> {
    var p := b.PositionOf(t.security);
    if t.kind == Buy then
      var cost := Acquisition(c, t);
      Ok(b.(positions := b.positions[t.security :=
              Position(c.add(p.quantity, t.quantity), c.add(p.nativeCost, cost),
                  c.add(p.baseCost, c.mul(cost, t.Rate())))]))
    else if !t.IsTrade() then Ok(b)
    else if t.quantity > p.quantity || p.quantity == 0.0 then Err(Unavailable(t.security))
    else
      var e := EventOf(c, p, t);
      var left := c.sub(p.quantity, t.quantity);
      Ok(Book(b.positions[t.security := Position(
                  left,
                  if left == 0.0 then 0.0 else c.sub(p.nativeCost, e.basis),
                  if left == 0.0 then 0.0 else c.sub(p.baseCost, e.basisBase))],
              b.events + [e]))
  }

  function BookReplay(c: Context, items: seq<Trade>): Result<Book, Unavailable> {
    if items == [] then Ok(Book(map[], []))
    else
      match BookReplay(c, items[..|items| - 1])
      case Err(e) => Err(e)
      case Ok(b) => BookStep(c, b, items[|items| - 1])
  }

  /** The rows `calculate_realized_gain_events` reads out of a history. */
  function TradesUpTo(items: seq<Trade>, asOf: Option<int>): seq<Trade> {
    match asOf
    case None => OnlyTrades(items)
    case Some(date) => AsOf(OnlyTrades(items), date)
  }

  /** `calculate_realized_gain_events`. */
  method CalculateRealizedGainEvents(c: Context, items: seq<Trade>, asOf: Option<int>)
    returns (r: Result<seq<Event>, Unavailable>)
    ensures var replay := BookReplay(c, TradesUpTo(items, asOf));
            r == if replay.Ok? then Ok(replay.value.events) else Err(replay.error)
  {
    var rows := TradesUpTo(items, asOf);
    TradesUpToAreTrades(items, asOf);
    var positions: map<nat, Position> := map[];
    var events: seq<Event> := [];
    for i := 0 to |rows|
      invariant BookReplay(c, rows[..i]) == Ok(Book(positions, events))
    {
      var t := rows[i];
      assert rows[..i + 1][..i] == rows[..i];
      var Position(quantity, native, base) := if t.security in positions then positions[t.security] else FLAT;
      if t.kind == Buy {
        var cost := Acquisition(c, t);
        positions := positions[t.security :=
          Position(c.add(quantity, t.quantity), c.add(native, cost), c.add(base, c.mul(cost, t.Rate())))];
        continue;
      }
      if t.quantity > quantity || quantity == 0.0 {
        BookStaysFailed(c, rows, i + 1);
        return Err(Unavailable(t.security));
      }
      var basis := c.mul(c.div(native, quantity), t.quantity);
      var basisBase := c.mul(c.div(base, quantity), t.quantity);
      var net := NetProceeds(c, t);
      var netBase := c.mul(net, t.Rate());
      events := events + [Event(t, net, basis, c.sub(net, basis), netBase, basisBase, c.sub(netBase, basisBase))];
      var left := c.sub(quantity, t.quantity);
      positions := positions[t.security := Position(
        left,
        if left == 0.0 then 0.0 else c.sub(native, basis),
        if left == 0.0 then 0.0 else c.sub(base, basisBase))];
    }
    assert rows[..|rows|] == rows;
    return Ok(events);
  }

  lemma {:induction false} TradesUpToAreTrades(items: seq<Trade>, asOf: Option<int>)
    ensures forall t | t in TradesUpTo(items, asOf) :: t.IsTrade()
  {
    OnlyTradesMembers(items);
    if asOf.Some? {
      AsOfMembers(OnlyTrades(items), asOf.value);
    }
  }

  lemma {:induction false} OnlyTradesMembers(items: seq<Trade>)
    ensures forall t :: t in OnlyTrades(items) <==> t in items && t.IsTrade()
  {
    if items != [] {
      OnlyTradesMembers(items[..|items| - 1]);
      assert items == items[..|items| - 1] + [items[|items| - 1]];
    }
  }

  lemma {:induction false} BookStaysFailed(c: Context, items: seq<Trade>, k: nat)
    requires k <= |items| && BookReplay(c, items[..k]).Err?
    ensures BookReplay(c, items) == BookReplay(c, items[..k])
    decreases |items|
  {
    if k == |items| {
      assert items[..k] == items;
    } else {
      assert items[..|items| - 1][..k] == items[..k];
      BookStaysFailed(c, items[..|items| - 1], k);
    }
  }

  // ----- the two replays agree

  /** The events of one security. */
  function EventsOf(events: seq<Event>, security: nat): seq<Event> {
    if events == [] then []
    else
      var front := EventsOf(events[..|events| - 1], security);
      var last := events[|events| - 1];
      if last.trade.security == security then front + [last] else front
  }

  /** Adding up gains in order, each addition rounded by the context. */
  function GainSum(c: Context, events: seq<Event>): real {
    if events == [] then 0.0 else c.add(GainSum(c, events[..|events| - 1]), events[|events| - 1].gain)
  }

  function GainBaseSum(c: Context, events: seq<Event>): real {
    if events == [] then 0.0 else c.add(GainBaseSum(c, events[..|events| - 1]), events[|events| - 1].gainBase)
  }

  lemma {:induction false} EventsOfSnoc(events: seq<Event>, e: Event, security: nat)
    ensures EventsOf(events + [e], security)
         == EventsOf(events, security) + (if e.trade.security == security then [e] else [])
  {
    assert (events + [e])[..|events|] == events;
  }

  lemma {:induction false} GainSumSnoc(c: Context, events: seq<Event>, e: Event)
    ensures GainSum(c, events + [e]) == c.add(GainSum(c, events), e.gain)
    ensures GainBaseSum(c, events + [e]) == c.add(GainBaseSum(c, events), e.gainBase)
  {
    assert (events + [e])[..|events|] == events;
  }

  /** A security's part of the book is the state of its own replay. */
  ghost predicate Agrees(c: Context, b: Book, st: Tally, security: nat) {
    && b.PositionOf(security) == st.position
    && GainSum(c, EventsOf(b.events, security)) == st.realized
    && GainBaseSum(c, EventsOf(b.events, security)) == st.realizedBase
  }

  lemma {:induction false} StepsAgree(c: Context, b: Book, st: Tally, t: Trade)
    requires Agrees(c, b, st, t.security)
    ensures BookStep(c, b, t).Ok? <==> TallyStep(c, st, t).Ok?
    ensures BookStep(c, b, t).Ok? ==> Agrees(c, BookStep(c, b, t).value, TallyStep(c, st, t).value, t.security)
  {
    if t.kind == Sell && t.quantity <= st.position.quantity {
      var e := EventOf(c, st.position, t);
      EventsOfSnoc(b.events, e, t.security);
      GainSumSnoc(c, EventsOf(b.events, t.security), e);
    }
  }

  lemma {:induction false} StepLeavesOthers(c: Context, b: Book, t: Trade, security: nat)
    requires t.security != security && BookStep(c, b, t).Ok?
    ensures var after := BookStep(c, b, t).value;
            && after.PositionOf(security) == b.PositionOf(security)
            && EventsOf(after.events, security) == EventsOf(b.events, security)
  {
    var after := BookStep(c, b, t).value;
    if after.events != b.events {
      EventsOfSnoc(b.events, after.events[|b.events|], security);
    }
  }

  lemma {:induction false} ReplayOfSnoc(c: Context, items: seq<Trade>, t: Trade, s: nat)
    ensures Replay(c, Of(items + [t], s)) ==
            if s == t.security && Replay(c, Of(items, s)).Ok? then TallyStep(c, Replay(c, Of(items, s)).value, t)
            else Replay(c, Of(items, s))
  {
    OfSnoc(items, t, s);
    if s == t.security {
      assert Of(items + [t], s)[..|Of(items, s)|] == Of(items, s);
    }
  }

  lemma {:induction false} BookReplaySnoc(c: Context, items: seq<Trade>, t: Trade)
    ensures BookReplay(c, OnlyTrades(items + [t])) ==
            if BookReplay(c, OnlyTrades(items)).Ok? then BookStep(c, BookReplay(c, OnlyTrades(items)).value, t)
            else BookReplay(c, OnlyTrades(items))
  {
    OnlyTradesSnoc(items, t);
    if t.IsTrade() {
      assert OnlyTrades(items + [t])[..|OnlyTrades(items)|] == OnlyTrades(items);
    }
  }

  /** For any arithmetic whatever: the interleaved replay succeeds exactly when the replay of each
      security does; the two then hold the same positions, and a security's event gains, added in
      order, are its snapshot's realized gains. */
  lemma {:induction false} ReplayAgreement(c: Context, items: seq<Trade>)
    ensures BookReplay(c, OnlyTrades(items)).Ok? <==> forall s: nat :: Replay(c, Of(items, s)).Ok?
    ensures BookReplay(c, OnlyTrades(items)).Ok? ==>
              forall s: nat :: Agrees(c, BookReplay(c, OnlyTrades(items)).value, Replay(c, Of(items, s)).value, s)
  {
    if items != [] {
      var front, t := items[..|items| - 1], items[|items| - 1];
      assert items == front + [t];
      ReplayAgreement(c, front);
      BookReplaySnoc(c, front, t);
      forall s: nat {
        ReplayOfSnoc(c, front, t, s);
      }
      if BookReplay(c, OnlyTrades(front)).Err? {
        var s: nat :| Replay(c, Of(front, s)).Err?;
        assert Replay(c, Of(items, s)).Err?;
      } else {
        AgreementStep(c, front, t, BookReplay(c, OnlyTrades(front)).value);
      }
    }
  }

  lemma {:induction false} AgreementStep(c: Context, front: seq<Trade>, t: Trade, before: Book)
    requires forall s: nat :: Replay(c, Of(front, s)).Ok?
    requires forall s: nat :: Agrees(c, before, Replay(c, Of(front, s)).value, s)
    ensures BookStep(c, before, t).Ok? <==> forall s: nat :: Replay(c, Of(front + [t], s)).Ok?
    ensures BookStep(c, before, t).Ok? ==>
              forall s: nat :: Agrees(c, BookStep(c, before, t).value, Replay(c, Of(front + [t], s)).value, s)
  {
    if BookStep(c, before, t).Ok? {
      forall s: nat
        ensures Replay(c, Of(front + [t], s)).Ok?
        ensures Agrees(c, BookStep(c, before, t).value, Replay(c, Of(front + [t], s)).value, s)
      {
        assert Agrees(c, before, Replay(c, Of(front, s)).value, s);
        AgreementStepAt(c, front, t, before, s);
      }
    } else {
      assert Replay(c, Of(front, t.security)).Ok?;
      assert Agrees(c, before, Replay(c, Of(front, t.security)).value, t.security);
      StepsAgree(c, before, Replay(c, Of(front, t.security)).value, t);
      ReplayOfSnoc(c, front, t, t.security);
      assert Replay(c, Of(front + [t], t.security)).Err?;
    }
  }

  lemma {:induction false} AgreementStepAt(c: Context, front: seq<Trade>, t: Trade, before: Book, s: nat)
    requires Replay(c, Of(front, s)).Ok? && Agrees(c, before, Replay(c, Of(front, s)).value, s)
    requires BookStep(c, before, t).Ok?
    ensures Replay(c, Of(front + [t], s)).Ok?
    ensures Agrees(c, BookStep(c, before, t).value, Replay(c, Of(front + [t], s)).value, s)
  {
    ReplayOfSnoc(c, front, t, s);
    if s == t.security {
      StepsAgree(c, before, Replay(c, Of(front, s)).value, t);
    } else {
      StepLeavesOthers(c, before, t, s);
    }
  }

  /** The same at any as-of date, with the dated querysets of both services. */
  lemma {:induction false} ReplayAgreementAsOf(c: Context, items: seq<Trade>, date: int)
    ensures BookReplay(c, TradesUpTo(items, Some(date))).Ok? <==>
            forall s: nat :: Replay(c, AsOf(Of(items, s), date)).Ok?
    ensures BookReplay(c, TradesUpTo(items, Some(date))).Ok? ==>
              forall s: nat :: Agrees(c, BookReplay(c, TradesUpTo(items, Some(date))).value,
                                      Replay(c, AsOf(Of(items, s), date)).value, s)
  {
    ReplayAgreement(c, AsOf(items, date));
    AsOfCommutes(items, date, 0);
    if BookReplay(c, TradesUpTo(items, Some(date))).Ok? {
      forall s: nat
        ensures Replay(c, AsOf(Of(items, s), date)).Ok?
        ensures Agrees(c, BookReplay(c, TradesUpTo(items, Some(date))).value,
            Replay(c, AsOf(Of(items, s), date)).value, s)
      {
        AsOfCommutes(items, date, s);
        assert Replay(c, Of(AsOf(items, date), s)).Ok?;
        assert Agrees(c, BookReplay(c, OnlyTrades(AsOf(items, date))).value,
            Replay(c, Of(AsOf(items, date), s)).value, s);
      }
    } else {
      var s: nat :| Replay(c, Of(AsOf(items, date), s)).Err?;
      AsOfCommutes(items, date, s);
      assert Replay(c, AsOf(Of(items, s), date)).Err?;
    }
  }

  // ----- previewing a sale

  datatype PreviewError = NotPositive | Insufficient(asked: real, held: real) | Broken(cause: Oversell)

  datatype RealizedGain = RealizedGain(netProceeds: real, basis: real, gain: real)

  /** `calculate_realized_gain`. */
  function Preview(c: Context, items: seq<Trade>, security: nat, quantity: real, gross: real, fees: real, taxes: real)
    : Result<RealizedGain, PreviewError>
  {
    match Snapshot(c, Of(items, security))
    case Err(e) => Err(Broken(e))
    case Ok(holding) =>
      if quantity <= 0.0 then Err(NotPositive)
      else if quantity > holding.quantity then Err(Insufficient(quantity, holding.quantity))
      else
        var basis := c.mul(holding.averageCost, quantity);
        var net := c.sub(c.sub(gross, fees), taxes);
        Ok(RealizedGain(net, basis, c.sub(net, basis)))
  }

  /** The preview of a sale is refused exactly when recording that sale next would make the gain replay
      raise; otherwise it shows the native figures of the event the sale produces. */
  lemma {:induction false} PreviewIsNextEvent(c: Context, items: seq<Trade>, sale: Trade)
    requires sale.kind == Sell && BookReplay(c, OnlyTrades(items)).Ok?
    ensures var shown := Preview(c, items, sale.security, sale.quantity, sale.gross, sale.fees, sale.taxes);
            var next := BookReplay(c, OnlyTrades(items + [sale]));
            && (shown.Ok? <==> next.Ok?)
            && (shown.Ok? ==>
                  var events := next.value.events;
                  && |events| > 0
                  && events[..|events| - 1] == BookReplay(c, OnlyTrades(items)).value.events
                  && events[|events| - 1].trade == sale
                  && events[|events| - 1].gain == shown.value.gain
                  && events[|events| - 1].basis == shown.value.basis
                  && events[|events| - 1].netProceeds == shown.value.netProceeds)
  {
    ReplayAgreement(c, items);
    BookReplaySnoc(c, items, sale);
    assert Replay(c, Of(items, sale.security)).Ok?;
    assert Agrees(c, BookReplay(c, OnlyTrades(items)).value, Replay(c, Of(items, sale.security)).value, sale.security);
  }
}

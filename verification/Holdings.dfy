/** Weighted-average positions, replayed one security at a time (investments/services/holdings.py). */
module Holdings {
  import opened Wrappers
  import opened Decimals
  import opened Trades

  datatype Position = Position(quantity: real, nativeCost: real, baseCost: real)

  const FLAT := Position(0.0, 0.0, 0.0)

  datatype Tally = Tally(position: Position, realized: real, realizedBase: real)

  const OPENING := Tally(FLAT, 0.0, 0.0)

  /** "Historical oversell detected". */
  datatype Oversell = Oversell(security: nat, sold: real, held: real)

  datatype HoldingSnapshot = HoldingSnapshot(
    quantity: real, totalCost: real, averageCost: real, baseCost: real, realized: real, realizedBase: real)

  // ----- what one row does to the running variables

  function TallyStep(c: Context, st: Tally, t: Trade): Result<Tally, Oversell> {
    var Position(quantity, native, base) := st.position;
    match t.kind
    case Buy =>
      var cost := Acquisition(c, t);
      Ok(st.(position := Position(c.add(quantity, t.quantity), c.add(native, cost),
          c.add(base, c.mul(cost, t.Rate())))))
    case Sell =>
      if t.quantity > quantity then Err(Oversell(t.security, t.quantity, quantity))
      else
        var basis := c.mul(c.div(native, quantity), t.quantity);
        var basisBase := c.mul(c.div(base, quantity), t.quantity);
        var net := NetProceeds(c, t);
        var left := c.sub(quantity, t.quantity);
        Ok(Tally(
             if left == 0.0 then Position(left, 0.0, 0.0)
             else Position(left, c.sub(native, basis), c.sub(base, basisBase)),
             c.add(st.realized, c.sub(net, basis)),
             c.add(st.realizedBase, c.sub(c.mul(net, t.Rate()), basisBase))))
    case _ => Ok(st)
  }

  function Replay(c: Context, items: seq<Trade>): Result<Tally, Oversell> {
    if items == [] then Ok(OPENING)
    else
      match Replay(c, items[..|items| - 1])
      case Err(e) => Err(e)
      case Ok(st) => TallyStep(c, st, items[|items| - 1])
  }

  function AverageCost(c: Context, p: Position): real {
    if p.quantity != 0.0 then c.div(p.nativeCost, p.quantity) else 0.0
  }

  function Snapshot(c: Context, items: seq<Trade>): Result<HoldingSnapshot, Oversell> {
    match Replay(c, items)
    case Err(e) => Err(e)
    case Ok(st) =>
      Ok(HoldingSnapshot(st.position.quantity, st.position.nativeCost, AverageCost(c, st.position),
                         st.position.baseCost, st.realized, st.realizedBase))
  }

  /** `_calculate_from_items`. */
  method CalculateFromItems(c: Context, items: seq<Trade>) returns (r: Result<HoldingSnapshot, Oversell>)
    ensures r == Snapshot(c, items)
  {
    var quantity, native, base, realized, realizedBase := 0.0, 0.0, 0.0, 0.0, 0.0;
    for i := 0 to |items|
      invariant Replay(c, items[..i]) == Ok(Tally(Position(quantity, native, base), realized, realizedBase))
    {
      var t := items[i];
      assert items[..i + 1][..i] == items[..i];
      if t.kind == Buy {
        quantity := c.add(quantity, t.quantity);
        var cost := Acquisition(c, t);
        native := c.add(native, cost);
        base := c.add(base, c.mul(cost, t.Rate()));
      } else if t.kind == Sell {
        if t.quantity > quantity {
          ReplayStaysFailed(c, items, i + 1);
          return Err(Oversell(t.security, t.quantity, quantity));
        }
        assert quantity > 0.0;
        var basis := c.mul(c.div(native, quantity), t.quantity);
        var basisBase := c.mul(c.div(base, quantity), t.quantity);
        var net := NetProceeds(c, t);
        realized := c.add(realized, c.sub(net, basis));
        realizedBase := c.add(realizedBase, c.sub(c.mul(net, t.Rate()), basisBase));
        quantity := c.sub(quantity, t.quantity);
        native := c.sub(native, basis);
        base := c.sub(base, basisBase);
        if quantity == 0.0 {
          native, base := 0.0, 0.0;
        }
      }
    }
    assert items[..|items|] == items;
    var average := if quantity != 0.0 then c.div(native, quantity) else 0.0;
    return Ok(HoldingSnapshot(quantity, native, average, base, realized, realizedBase));
  }

  /** A replay that raised raises with the same error whatever rows follow. */
  lemma {:induction false} ReplayStaysFailed(c: Context, items: seq<Trade>, k: nat)
    requires k <= |items| && Replay(c, items[..k]).Err?
    ensures Replay(c, items) == Replay(c, items[..k])
    decreases |items|
  {
    if k == |items| {
      assert items[..k] == items;
    } else {
      assert items[..|items| - 1][..k] == items[..k];
      ReplayStaysFailed(c, items[..|items| - 1], k);
    }
  }

  /** `calculate_holdings`: one snapshot for each security in the history, or the error of one of them. */
  method CalculateHoldings(c: Context, items: seq<Trade>, includeClosed: bool)
    returns (r: Result<map<nat, HoldingSnapshot>, Oversell>)
    ensures r.Ok? <==> forall s: nat :: Snapshot(c, Of(items, s)).Ok?
    ensures r.Ok? ==> forall s: nat :: s in r.value <==>
              Of(items, s) != [] && (includeClosed || Snapshot(c, Of(items, s)).value.quantity != 0.0)
    ensures r.Ok? ==> forall s: nat | s in r.value :: r.value[s] == Snapshot(c, Of(items, s)).value
    ensures r.Err? ==> exists s: nat :: Snapshot(c, Of(items, s)) == Err(r.error)
  {
    var grouped: map<nat, seq<Trade>> := map[];
    for i := 0 to |items|
      invariant forall s: nat :: s in grouped <==> Of(items[..i], s) != []
      invariant forall s: nat | s in grouped :: grouped[s] == Of(items[..i], s)
    {
      var t := items[i];
      assert items[..i + 1][..i] == items[..i];
      grouped := grouped[t.security := (if t.security in grouped then grouped[t.security] else []) + [t]];
    }
    assert items[..|items|] == items;
    var snapshots: map<nat, HoldingSnapshot> := map[];
    var pending := grouped.Keys;
    while pending != {}
      invariant pending <= grouped.Keys
      invariant forall s: nat | s in grouped && s !in pending :: Snapshot(c, Of(items, s)).Ok?
      invariant forall s: nat :: s in snapshots <==>
                  (s in grouped && s !in pending && (includeClosed || Snapshot(c, Of(items, s)).value.quantity != 0.0))
      invariant forall s: nat | s in snapshots :: snapshots[s] == Snapshot(c, Of(items, s)).value
    {
      var s :| s in pending;
      var one := CalculateFromItems(c, grouped[s]);
      if one.Err? {
        return Err(one.error);
      }
      if includeClosed || one.value.quantity != 0.0 {
        snapshots := snapshots[s := one.value];
      }
      pending := pending - {s};
    }
    return Ok(snapshots);
  }

  // ----- average cost

  /** A sale that leaves something behind leaves its average cost as it was, in both currencies. */
  lemma {:induction false} SellKeepsAverageCost(st: Tally, t: Trade)
    requires t.kind == Sell && t.quantity < st.position.quantity
    ensures TallyStep(EXACT, st, t).Ok?
    ensures var after := TallyStep(EXACT, st, t).value.position;
            && after.quantity == st.position.quantity - t.quantity
            && after.nativeCost / after.quantity == st.position.nativeCost / st.position.quantity
            && after.baseCost / after.quantity == st.position.baseCost / st.position.quantity
  {
    var Position(q, native, base) := st.position;
    KeepsRatio(native, q, t.quantity);
    KeepsRatio(base, q, t.quantity);
  }

  lemma {:induction false} KeepsRatio(cost: real, quantity: real, sold: real)
    requires 0.0 < sold < quantity
    ensures (cost - cost / quantity * sold) / (quantity - sold) == cost / quantity
  {
    var average := cost / quantity;
    assert cost == average * quantity;
    assert cost - average * sold == average * (quantity - sold);
  }

  /** Selling in two consecutive parts takes the same cost out, realizes the same gain and leaves the
      same position as selling at once, when the parts share out quantity, proceeds and charges. */
  lemma {:induction false} SplitSale(st: Tally, whole: Trade, first: Trade, second: Trade)
    requires whole.kind == first.kind == second.kind == Sell
    requires whole.Rate() == first.Rate() == second.Rate()
    requires whole.quantity == first.quantity + second.quantity <= st.position.quantity
    requires whole.gross == first.gross + second.gross
    requires whole.fees == first.fees + second.fees
    requires whole.taxes == first.taxes + second.taxes
    ensures TallyStep(EXACT, st, first).Ok?
    ensures TallyStep(EXACT, TallyStep(EXACT, st, first).value, second) == TallyStep(EXACT, st, whole)
  {
    var Position(q, native, base) := st.position;
    SplitCost(native, q, first.quantity, second.quantity);
    SplitCost(base, q, first.quantity, second.quantity);
    SplitProceeds(whole, first, second);
    SplitState(st, whole.quantity, NetProceeds(EXACT, whole), NetProceeds(EXACT, whole) * whole.Rate(),
               first.quantity, NetProceeds(EXACT, first), NetProceeds(EXACT, first) * first.Rate(),
               second.quantity, NetProceeds(EXACT, second), NetProceeds(EXACT, second) * second.Rate());
    SellIsSold(st, whole);
    SellIsSold(st, first);
    SellIsSold(Sold(st, first.quantity, NetProceeds(EXACT, first), NetProceeds(EXACT, first) * first.Rate()), second);
  }

  /** An exact sale of a quantity against net proceeds in both currencies. */
  function Sold(st: Tally, quantity: real, net: real, netBase: real): Tally
    requires 0.0 < quantity <= st.position.quantity
  {
    var Position(q, native, base) := st.position;
    Tally(if quantity == q then FLAT
          else Position(q - quantity, native - native / q * quantity, base - base / q * quantity),
          st.realized + (net - native / q * quantity),
          st.realizedBase + (netBase - base / q * quantity))
  }

  lemma {:induction false} SellIsSold(st: Tally, t: Trade)
    requires t.kind == Sell && t.quantity <= st.position.quantity
    ensures TallyStep(EXACT, st, t) == Ok(Sold(st, t.quantity, NetProceeds(EXACT, t), NetProceeds(EXACT, t) * t.Rate()))
  {
    var Position(q, native, base) := st.position;
    assert EXACT.mul(EXACT.div(native, q), t.quantity) == native / q * t.quantity;
    assert EXACT.mul(EXACT.div(base, q), t.quantity) == base / q * t.quantity;
    assert EXACT.mul(NetProceeds(EXACT, t), t.Rate()) == NetProceeds(EXACT, t) * t.Rate();
    var after := TallyStep(EXACT, st, t).value;
    var sold := Sold(st, t.quantity, NetProceeds(EXACT, t), NetProceeds(EXACT, t) * t.Rate());
    assert after.realized == sold.realized;
    assert after.realizedBase == sold.realizedBase;
    assert after.position.quantity == sold.position.quantity;
    assert after.position.nativeCost == sold.position.nativeCost;
    assert after.position == sold.position;
  }

  lemma {:induction false} SplitState(st: Tally, q: real, net: real, netBase: real, q1: real, net1: real,
      base1: real, q2: real, net2: real, base2: real)
    requires q1 > 0.0 && q2 > 0.0 && q == q1 + q2 <= st.position.quantity
    requires net == net1 + net2 && netBase == base1 + base2
    ensures Sold(Sold(st, q1, net1, base1), q2, net2, base2) == Sold(st, q, net, netBase)
  {
    var Position(quantity, native, base) := st.position;
    SplitCost(native, quantity, q1, q2);
    SplitCost(base, quantity, q1, q2);
    var once, twice := Sold(st, q, net, netBase), Sold(Sold(st, q1, net1, base1), q2, net2, base2);
    assert once.realized == twice.realized;
    assert once.realizedBase == twice.realizedBase;
    assert once.position == twice.position;
  }

  lemma {:induction false} SplitProceeds(whole: Trade, first: Trade, second: Trade)
    requires whole.Rate() == first.Rate() == second.Rate()
    requires whole.gross == first.gross + second.gross
    requires whole.fees == first.fees + second.fees
    requires whole.taxes == first.taxes + second.taxes
    ensures NetProceeds(EXACT, whole) == NetProceeds(EXACT, first) + NetProceeds(EXACT, second)
    ensures NetProceeds(EXACT, whole) * whole.Rate()
         == NetProceeds(EXACT, first) * first.Rate() + NetProceeds(EXACT, second) * second.Rate()
  {
    var n1, n2, rate := NetProceeds(EXACT, first), NetProceeds(EXACT, second), whole.Rate();
    assert (n1 + n2) * rate == n1 * rate + n2 * rate;
  }

  lemma {:induction false} SplitCost(cost: real, quantity: real, a: real, b: real)
    requires a > 0.0 && b > 0.0 && a + b <= quantity
    ensures cost / quantity * (a + b)
         == cost / quantity * a + (cost - cost / quantity * a) / (quantity - a) * b
  {
    KeepsRatio(cost, quantity, a);
    assert cost / quantity * (a + b) == cost / quantity * a + cost / quantity * b;
  }
}

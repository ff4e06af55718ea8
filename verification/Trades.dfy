/** Posted investment transactions (investments/models.py) and the orderings and filters that the
    replays put on them. */
module Trades {
  import opened Wrappers
  import opened Decimals

  datatype Kind = Buy | Sell | Dividend | Fee | Tax

  /** One investment detail row together with the fields of its ledger transaction that the replays
      read.  `quantity` is 0 where the column is null (dividends, fees and taxes). */
  datatype Item = Item(
    id: nat,
    date: int,
    kind: Kind,
    security: nat,
    quantity: real,
    gross: real,
    fees: real,
    taxes: real,
    currency: nat,
    home: nat,
    exchangeRate: Option<real>)
  {
    predicate IsTrade() { kind == Buy || kind == Sell }

    /** What the database constraints and `clean` guarantee of a stored row. */
    predicate Stored() {
      && (IsTrade() ==> quantity > 0.0)
      && gross >= 0.0 && fees >= 0.0 && taxes >= 0.0
      && IsMoney(gross) && IsMoney(fees) && IsMoney(taxes)
      && (currency != home ==> exchangeRate.Some?)
      && (exchangeRate.Some? ==> exchangeRate.value > 0.0)
    }

    /** `_rate_to_account`: units of the account currency for one unit of the item's currency. */
    function Rate(): real
      requires Stored()
    {
      if currency == home then 1.0 else exchangeRate.value
    }

    function NetCashImpactNative(): real {
      match kind
      case Buy => -(gross + fees + taxes)
      case Sell => gross - fees - taxes
      case Dividend => gross - fees - taxes
      case Fee => -gross
      case Tax => -gross
    }

    /** The amount of the one cash entry posted with this row. */
    function Cash(): real
      requires Stored()
    {
      QuantizeMoney(Times(NetCashImpactNative(), Rate()))
    }
  }

  type Trade = i: Item | i.Stored()
    witness Item(0, 0, Dividend, 0, 0.0, 0.0, 0.0, 0.0, 0, 0, None)

  function Acquisition(c: Context, t: Trade): real {
    c.add(c.add(t.gross, t.fees), t.taxes)
  }

  function NetProceeds(c: Context, t: Trade): real {
    c.sub(c.sub(t.gross, t.fees), t.taxes)
  }

  // ----- the querysets: filters that keep the order

  /** The rows of one security. */
  function Of(items: seq<Trade>, security: nat): seq<Trade> {
    if items == [] then []
    else
      var front := Of(items[..|items| - 1], security);
      var last := items[|items| - 1];
      if last.security == security then front + [last] else front
  }

  /** The BUY and SELL rows. */
  function OnlyTrades(items: seq<Trade>): seq<Trade> {
    if items == [] then []
    else
      var front := OnlyTrades(items[..|items| - 1]);
      var last := items[|items| - 1];
      if last.IsTrade() then front + [last] else front
  }

  /** The rows dated on or before a day. */
  function AsOf(items: seq<Trade>, date: int): seq<Trade> {
    if items == [] then []
    else
      var front := AsOf(items[..|items| - 1], date);
      var last := items[|items| - 1];
      if last.date <= date then front + [last] else front
  }

  ghost predicate Chronological(items: seq<Trade>) {
    forall i, j :: 0 <= i < j < |items| ==> items[i].date <= items[j].date
  }

  /** Where `order_by(date, id)` puts a row whose id is larger than every earlier one. */
  function Insert(items: seq<Trade>, t: Trade): seq<Trade> {
    if items == [] || items[|items| - 1].date <= t.date then items + [t]
    else Insert(items[..|items| - 1], t) + [items[|items| - 1]]
  }

  /** The stored rows, given in id order, as `order_by(date, id)` lists them. */
  function Ordered(log: seq<Trade>): seq<Trade> {
    if log == [] then [] else Insert(Ordered(log[..|log| - 1]), log[|log| - 1])
  }

  // ----- how the filters and the order interact

  lemma {:induction false} OfSnoc(items: seq<Trade>, t: Trade, security: nat)
    ensures Of(items + [t], security) == Of(items, security) + (if t.security == security then [t] else [])
  {
    assert (items + [t])[..|items|] == items;
  }

  lemma {:induction false} AsOfSnoc(items: seq<Trade>, t: Trade, date: int)
    ensures AsOf(items + [t], date) == AsOf(items, date) + (if t.date <= date then [t] else [])
  {
    assert (items + [t])[..|items|] == items;
  }

  lemma {:induction false} OnlyTradesSnoc(items: seq<Trade>, t: Trade)
    ensures OnlyTrades(items + [t]) == OnlyTrades(items) + (if t.IsTrade() then [t] else [])
  {
    assert (items + [t])[..|items|] == items;
  }

  lemma {:induction false} InsertedAt(items: seq<Trade>, t: Trade) returns (p: nat)
    ensures p <= |items| && Insert(items, t) == items[..p] + [t] + items[p..]
    ensures forall k :: p <= k < |items| ==> items[k].date > t.date
    ensures p > 0 ==> items[p - 1].date <= t.date
  {
    if items == [] || items[|items| - 1].date <= t.date {
      p := |items|;
    } else {
      var n := |items| - 1;
      p := InsertedAt(items[..n], t);
      assert items[..n][..p] == items[..p];
      assert items[..n][p..] + [items[n]] == items[p..];
    }
  }

  lemma {:induction false} InsertKeepsRows(items: seq<Trade>, t: Trade)
    ensures multiset(Insert(items, t)) == multiset(items) + multiset{t}
  {
    var n := |items| - 1;
    if items != [] && items[n].date > t.date {
      InsertKeepsRows(items[..n], t);
      assert items == items[..n] + [items[n]];
    }
  }

  lemma {:induction false} InsertKeepsOrder(items: seq<Trade>, t: Trade)
    requires Chronological(items)
    ensures Chronological(Insert(items, t))
  {
    var p := InsertedAt(items, t);
  }

  /** The listing is sorted by date and is a permutation of the stored rows. */
  lemma {:induction false} OrderedIsChronological(log: seq<Trade>)
    ensures Chronological(Ordered(log))
    ensures multiset(Ordered(log)) == multiset(log)
  {
    if log != [] {
      var n := |log| - 1;
      var front := Ordered(log[..n]);
      OrderedIsChronological(log[..n]);
      InsertKeepsOrder(front, log[n]);
      InsertKeepsRows(front, log[n]);
      assert Ordered(log) == Insert(front, log[n]);
      hide Chronological, Insert, Ordered;
      assert log == log[..n] + [log[n]];
    }
  }

  lemma {:induction false} OfInsert(items: seq<Trade>, t: Trade, security: nat)
    requires Chronological(items)
    ensures Of(Insert(items, t), security)
         == if t.security == security then Insert(Of(items, security), t) else Of(items, security)
  {
    var n := |items| - 1;
    if items == [] || items[n].date <= t.date {
      OfSnoc(items, t, security);
      OfMembers(items, security);
      OfChronological(items, security);
    } else {
      var last := items[n];
      OfInsert(items[..n], t, security);
      OfSnoc(Insert(items[..n], t), last, security);
    }
  }

  lemma {:induction false} OfMembers(items: seq<Trade>, security: nat)
    ensures forall t :: t in Of(items, security) <==> t in items && t.security == security
  {
    if items != [] {
      var n := |items| - 1;
      OfMembers(items[..n], security);
      assert items == items[..n] + [items[n]];
    }
  }

  lemma {:induction false} OfChronological(items: seq<Trade>, security: nat)
    requires Chronological(items)
    ensures Chronological(Of(items, security))
  {
    if items != [] {
      var n := |items| - 1;
      OfChronological(items[..n], security);
      OfMembers(items[..n], security);
      assert forall t :: t in items[..n] ==> t.date <= items[n].date;
    }
  }

  lemma {:induction false} AsOfMembers(items: seq<Trade>, date: int)
    ensures forall t :: t in AsOf(items, date) <==> t in items && t.date <= date
  {
    if items != [] {
      var n := |items| - 1;
      AsOfMembers(items[..n], date);
      assert items == items[..n] + [items[n]];
    }
  }

  /** Filtering a sorted listing by date cuts it. */
  lemma {:induction false} AsOfIsPrefix(items: seq<Trade>, date: int)
    requires Chronological(items)
    ensures AsOf(items, date) <= items
    ensures forall k :: |AsOf(items, date)| <= k < |items| ==> items[k].date > date
  {
    if items != [] {
      var n := |items| - 1;
      AsOfIsPrefix(items[..n], date);
      var front := AsOf(items[..n], date);
      if items[n].date <= date {
        assert |front| == n;
      }
    }
  }

  lemma {:induction false} AsOfCommutes(items: seq<Trade>, date: int, security: nat)
    ensures Of(AsOf(items, date), security) == AsOf(Of(items, security), date)
    ensures OnlyTrades(AsOf(items, date)) == AsOf(OnlyTrades(items), date)
    ensures Of(OnlyTrades(items), security) == OnlyTrades(Of(items, security))
  {
    if items != [] {
      var n := |items| - 1;
      var front, last := items[..n], items[n];
      AsOfCommutes(front, date, security);
      OfSnoc(AsOf(front, date), last, security);
      AsOfSnoc(Of(front, security), last, date);
      OnlyTradesSnoc(AsOf(front, date), last);
      AsOfSnoc(OnlyTrades(front), last, date);
      OfSnoc(OnlyTrades(front), last, security);
      OnlyTradesSnoc(Of(front, security), last);
    }
  }
}

/** Posting one investment transaction (investments/services/transactions.py). */
module Posting {
  import opened Wrappers
  import opened Decimals
  import opened Trades
  import opened Holdings
  import opened Quantities

  datatype Security = Security(id: nat, currency: nat, active: bool)

  datatype Account = Account(id: nat, owner: nat, brokerage: bool, currency: nat)

  /** The keyword arguments; `kind` is None for a ledger type that is not an investment type. */
  datatype Request = Request(
    owner: nat,
    account: Account,
    security: Security,
    kind: Option<Kind>,
    date: int,
    gross: real,
    currency: nat,
    quantity: Option<real>,
    price: Option<real>,
    fees: real,
    taxes: real,
    settlement: Option<int>,
    exchangeRate: Option<real>)

  datatype PostError =
    | NotOwner
    | NotBrokerage
    | Unsupported
    | Insufficient(asked: Option<real>, held: real)
    | Broken(cause: Oversell)
    | Invalid
    | NoCash

  datatype CashEntry = CashEntry(transaction: nat, account: nat, amount: real, exchangeRate: real)

  /** The checks made before the account row is locked. */
  function Refusal(req: Request): Option<PostError> {
    if req.account.owner != req.owner then Some(NotOwner)
    else if !req.account.brokerage then Some(NotBrokerage)
    else if req.kind.None? then Some(Unsupported)
    else None
  }

  /** What `full_clean` accepts: the field validators, the constraints and `InvestmentTransaction.clean`. */
  predicate CleanOk(req: Request) {
    && req.kind.Some?
    && req.account.brokerage && req.account.owner == req.owner
    && req.security.active && req.security.currency == req.currency
    && (req.settlement.Some? ==> req.settlement.value >= req.date)
    && req.gross >= 0.0 && req.fees >= 0.0 && req.taxes >= 0.0
    && IsMoney(req.gross) && IsMoney(req.fees) && IsMoney(req.taxes)
    && (if req.kind.value.Buy? || req.kind.value.Sell? then
          && req.quantity.Some? && req.quantity.value > 0.0
          && req.price.Some? && req.price.value >= 0.0
          && req.gross == QuantizeMoney(req.quantity.value * req.price.value)
        else req.quantity.None? && req.price.None?)
    && (req.exchangeRate.Some? ==> req.exchangeRate.value >= 0.000000000001)
    && (if req.currency == req.account.currency then req.exchangeRate == None || req.exchangeRate == Some(1.0)
        else req.exchangeRate.Some?)
  }

  function Row(req: Request, id: nat): Item
    requires req.kind.Some?
  {
    Item(id, req.date, req.kind.value, req.security.id,
         if req.quantity.Some? then req.quantity.value else 0.0,
         req.gross, req.fees, req.taxes, req.currency, req.account.currency, req.exchangeRate)
  }

  /** The security's rows in the order every replay reads them. */
  function Listing(log: seq<Trade>, security: nat): seq<Trade> {
    Of(Ordered(log), security)
  }

  /** `calculate_holding_quantity(account, security, date)`. */
  function Held(log: seq<Trade>, security: nat, date: int): Result<real, Oversell> {
    match Replay(EXACT, AsOf(Listing(log, security), date))
    case Err(e) => Err(e)
    case Ok(st) => Ok(st.position.quantity)
  }

  /** The holdings check, made while the lock is held. */
  function SaleRefusal(log: seq<Trade>, req: Request): Option<PostError> {
    if req.kind != Some(Sell) then None
    else
      match Held(log, req.security.id, req.date)
      case Err(e) => Some(Broken(e))
      case Ok(held) =>
        if req.quantity.None? || req.quantity.value > held then Some(Insufficient(req.quantity, held)) else None
  }

  /** What posting comes to: an error, or the row to store. */
  function Outcome(log: seq<Trade>, req: Request, id: nat): Result<Trade, PostError> {
    var early := Refusal(req);
    if early.Some? then Err(early.value)
    else
      var short := SaleRefusal(log, req);
      if short.Some? then Err(short.value)
      else if !CleanOk(req) then Err(Invalid)
      else
        var row: Trade := Row(req, id);
        if row.Cash() == 0.0 then Err(NoCash) else Ok(row)
  }

  function CashEntryOf(row: Trade, account: nat): CashEntry {
    CashEntry(row.id, account, row.Cash(), row.Rate())
  }

  /** The tables that posting to one account writes. */
  class Desk {
    var transactions: seq<nat>
    var log: seq<Trade>
    var entries: seq<CashEntry>
    var nextId: nat

    constructor ()
      ensures transactions == [] && log == [] && entries == [] && nextId == 0
    {
      transactions, log, entries, nextId := [], [], [], 0;
    }

    /** `create_investment_transaction`: a ledger transaction, its detail row and its cash entry are stored
        together, or nothing is. */
    method CreateInvestmentTransaction(req: Request) returns (r: Result<Trade, PostError>)
      modifies this
      ensures r == Outcome(old(log), req, old(nextId))
      ensures r.Ok? ==>
                && transactions == old(transactions) + [old(nextId)]
                && log == old(log) + [r.value]
                && entries == old(entries) + [CashEntryOf(r.value, req.account.id)]
                && nextId == old(nextId) + 1
      ensures r.Err? ==>
                transactions == old(transactions) && log == old(log) && entries == old(entries) && nextId == old(nextId)
    {
      if req.account.owner != req.owner {
        return Err(NotOwner);
      }
      if !req.account.brokerage {
        return Err(NotBrokerage);
      }
      if req.kind.None? {
        return Err(Unsupported);
      }
      if req.kind == Some(Sell) {
        var held := Held(log, req.security.id, req.date);
        if held.Err? {
          return Err(Broken(held.error));
        }
        if req.quantity.None? || req.quantity.value > held.value {
          return Err(Insufficient(req.quantity, held.value));
        }
      }
      // the savepoint of the atomic block
      var transactions0, log0, entries0, nextId0 := transactions, log, entries, nextId;
      transactions := transactions + [nextId];
      var detail := Row(req, nextId);
      nextId := nextId + 1;
      if !CleanOk(req) {
        transactions, log, entries, nextId := transactions0, log0, entries0, nextId0;
        return Err(Invalid);
      }
      log := log + [detail];
      var rate := if req.currency == req.account.currency then 1.0 else detail.exchangeRate.value;
      var cash := QuantizeMoney(Times(detail.NetCashImpactNative(), rate));
      assert rate == detail.Rate();
      if cash == 0.0 {
        transactions, log, entries, nextId := transactions0, log0, entries0, nextId0;
        return Err(NoCash);
      }
      entries := entries + [CashEntry(nextId0, req.account.id, cash, rate)];
      return Ok(detail);
    }
  }

  // ----- what one posting does to the replays

  /** No trade of the security already stored is dated later. */
  ghost predicate Latest(log: seq<Trade>, security: nat, date: int) {
    forall t | t in log && t.security == security && t.IsTrade() :: t.date <= date
  }

  /** The sale is of no more than what is found held on its date. */
  predicate Checked(log: seq<Trade>, row: Trade) {
    var held := Held(log, row.security, row.date);
    held.Ok? && row.quantity <= held.value
  }

  /** After each stored row of the security dated later, the running quantity covers the sale. */
  ghost predicate CoversLater(log: seq<Trade>, row: Trade) {
    var items := Listing(log, row.security);
    forall k :: 0 <= k < |items| && items[k].date > row.date ==> Net(items[..k + 1]) >= row.quantity
  }

  /** Every listing replays without raising. */
  ghost predicate Sound(log: seq<Trade>) {
    forall s: nat :: NeverOversold(Listing(log, s))
  }

  lemma {:induction false} ListingSnoc(log: seq<Trade>, t: Trade, s: nat)
    ensures Listing(log + [t], s) == if t.security == s then Insert(Listing(log, s), t) else Listing(log, s)
  {
    assert (log + [t])[..|log|] == log;
    OrderedIsChronological(log);
    OfInsert(Ordered(log), t, s);
  }

  lemma {:induction false} ListingRows(log: seq<Trade>, s: nat)
    ensures Chronological(Listing(log, s))
    ensures forall t | t in Listing(log, s) :: t in log && t.security == s
  {
    OrderedIsChronological(log);
    OfChronological(Ordered(log), s);
    OfMembers(Ordered(log), s);
    assert forall t :: t in Ordered(log) <==> t in multiset(Ordered(log));
    assert forall t :: t in log <==> t in multiset(log);
  }

  lemma {:induction false} QuietRowsKeepNet(items: seq<Trade>, k: nat)
    requires k <= |items| && forall i | k <= i < |items| :: !items[i].IsTrade()
    ensures Net(items) == Net(items[..k])
    decreases |items|
  {
    if k == |items| {
      assert items[..k] == items;
    } else {
      assert items[..|items| - 1][..k] == items[..k];
      QuietRowsKeepNet(items[..|items| - 1], k);
    }
  }

  /** In sound tables `calculate_holding_quantity` never raises, at any date, and never reports less than
      nothing. */
  lemma {:induction false} HeldIsDefined(log: seq<Trade>, s: nat, date: int)
    requires Sound(log)
    ensures Held(log, s, date).Ok? && Held(log, s, date).value == Net(AsOf(Listing(log, s), date)) >= 0.0
  {
    var items := Listing(log, s);
    ListingRows(log, s);
    AsOfIsPrefix(items, date);
    var k := |AsOf(items, date)|;
    assert AsOf(items, date) == items[..k];
    assert forall j :: 0 <= j <= k ==> items[..k][..j] == items[..j];
    ReplayQuantity(items[..k]);
    assert Net(items[..k][..k]) >= 0.0;
  }

  /** The quantity held on a date is the running quantity at the place of a new row of that date. */
  lemma {:induction false} HeldAtPlace(log: seq<Trade>, s: nat, date: int, p: nat)
    requires Sound(log) && p <= |Listing(log, s)|
    requires forall k :: p <= k < |Listing(log, s)| ==> Listing(log, s)[k].date > date
    requires p > 0 ==> Listing(log, s)[p - 1].date <= date
    ensures Held(log, s, date) == Ok(Net(Listing(log, s)[..p]))
  {
    var items := Listing(log, s);
    HeldIsDefined(log, s, date);
    ListingRows(log, s);
    AsOfIsPrefix(items, date);
    AsOfMembers(items, date);
    hide AsOf, Listing, Held, Sound;
    var m := |AsOf(items, date)|;
    if m > 0 {
      assert items[m - 1] == AsOf(items, date)[m - 1];
      assert items[m - 1].date <= date;
    }
    assert m == p;
    assert AsOf(items, date) == items[..p];
  }

  /** For a sale of any date, exactly when the history still replays after it: at the sale's place and
      after each later row, the running quantity is at least the quantity sold. */
  lemma {:induction false} SaleIsSoundIff(log: seq<Trade>, row: Trade) returns (p: nat)
    requires Sound(log) && row.kind == Sell
    ensures var items := Listing(log, row.security);
            && p <= |items|
            && (forall k :: p <= k < |items| ==> items[k].date > row.date)
            && (p > 0 ==> items[p - 1].date <= row.date)
            && (Sound(log + [row]) <==> forall k :: p <= k <= |items| ==> Net(items[..k]) >= row.quantity)
  {
    var items := Listing(log, row.security);
    p := InsertIsSafe(items, row);
    ListingSnoc(log, row, row.security);
    if NeverOversold(Insert(items, row)) {
      forall s: nat
        ensures NeverOversold(Listing(log + [row], s))
      {
        ListingSnoc(log, row, s);
      }
      forall k | p <= k <= |items|
        ensures Net(items[..k]) >= row.quantity
      {
        assert Net(items[..k]) + Signed(row) >= 0.0;
      }
    } else {
      assert !NeverOversold(Listing(log + [row], row.security));
    }
  }

  lemma {:induction false} OtherRowKeepsSound(log: seq<Trade>, row: Trade)
    requires Sound(log) && row.kind != Sell
    ensures Sound(log + [row])
  {
    forall s: nat
      ensures NeverOversold(Listing(log + [row], s))
    {
      ListingSnoc(log, row, s);
      if s == row.security {
        var items := Listing(log, s);
        var p := InsertIsSafe(items, row);
        assert forall k :: p <= k <= |items| ==> Net(items[..k]) >= 0.0;
      }
    }
  }

  /** When a row that passed the check is stored, every replay stays sound exactly if, in case it is a sale,
      the running quantity covers it after each row already stored under a later date. */
  lemma {:induction false} RowIsSoundIff(log: seq<Trade>, row: Trade)
    requires Sound(log) && (row.kind == Sell ==> Checked(log, row))
    ensures Sound(log + [row]) <==> (row.kind == Sell ==> CoversLater(log, row))
  {
    if row.kind == Sell {
      var items := Listing(log, row.security);
      var p := SaleIsSoundIff(log, row);
      HeldAtPlace(log, row.security, row.date, p);
      ListingRows(log, row.security);
      hide Sound, Held, Listing, Net, Chronological;
      CoveredFromPlace(items, p, row.date, row.quantity);
    } else {
      OtherRowKeepsSound(log, row);
    }
  }

  /** To be covered from a row's place on is to be covered there and after each later row. */
  lemma {:induction false} CoveredFromPlace(items: seq<Trade>, p: nat, date: int, quantity: real)
    requires Chronological(items) && p <= |items|
    requires p > 0 ==> items[p - 1].date <= date
    requires forall k :: p <= k < |items| ==> items[k].date > date
    ensures (forall k :: p <= k <= |items| ==> Net(items[..k]) >= quantity)
       <==> && Net(items[..p]) >= quantity
            && (forall k :: 0 <= k < |items| && items[k].date > date ==> Net(items[..k + 1]) >= quantity)
  {
    hide Net;
    forall k | 0 <= k < |items|
      ensures items[k].date > date <==> p <= k
    {}
    if && Net(items[..p]) >= quantity
       && (forall k :: 0 <= k < |items| && items[k].date > date ==> Net(items[..k + 1]) >= quantity) {
      forall k | p <= k <= |items|
        ensures Net(items[..k]) >= quantity
      {
        if k > p {
          assert items[k - 1].date > date && items[..k - 1 + 1] == items[..k];
        }
      }
    }
  }

  /** A sale of no more than was found held, with no trade of its security dated later, is covered. */
  lemma {:induction false} LatestIsCovered(log: seq<Trade>, row: Trade)
    requires Sound(log) && Checked(log, row) && Latest(log, row.security, row.date)
    ensures CoversLater(log, row)
  {
    var items := Listing(log, row.security);
    var p := InsertIsSafe(items, row);
    HeldAtPlace(log, row.security, row.date, p);
    LaterRowsAreQuiet(log, row);
    ListingRows(log, row.security);
    assert Net(items[..p]) >= row.quantity;
    hide Sound, Held, Listing, Net, Checked, Latest, NeverOversold, Insert, Chronological;
    QuietRowsStayCovered(items, p, row.date, row.quantity);
  }

  lemma {:induction false} QuietRowsStayCovered(items: seq<Trade>, p: nat, date: int, quantity: real)
    requires Chronological(items) && p <= |items| && Net(items[..p]) >= quantity
    requires p > 0 ==> items[p - 1].date <= date
    requires forall k :: p <= k < |items| ==> items[k].date > date
    requires forall i :: 0 <= i < |items| && items[i].date > date ==> !items[i].IsTrade()
    ensures forall k :: 0 <= k < |items| && items[k].date > date ==> Net(items[..k + 1]) >= quantity
  {
    hide Net, Item.IsTrade;
    forall k | 0 <= k < |items| && items[k].date > date
      ensures Net(items[..k + 1]) >= quantity
    {
      assert p <= k;
      assert items[..k + 1][..p] == items[..p];
      QuietRowsKeepNet(items[..k + 1], p);
    }
  }

  lemma {:induction false} LaterRowsAreQuiet(log: seq<Trade>, row: Trade)
    requires Latest(log, row.security, row.date)
    ensures var items := Listing(log, row.security);
            forall i :: 0 <= i < |items| && items[i].date > row.date ==> !items[i].IsTrade()
  {
    var items := Listing(log, row.security);
    ListingRows(log, row.security);
    hide Listing, Item.IsTrade;
    forall i | 0 <= i < |items| && items[i].date > row.date
      ensures !items[i].IsTrade()
    {
      assert items[i] in items;
    }
  }

  /** A row that is not a sale, or a sale of no more than was found held on its date with no trade of the
      security dated later, keeps every replay of the account sound. */
  lemma {:induction false} RowKeepsSound(log: seq<Trade>, row: Trade)
    requires Sound(log)
    requires row.kind == Sell ==> Checked(log, row) && Latest(log, row.security, row.date)
    ensures Sound(log + [row])
  {
    RowIsSoundIff(log, row);
    if row.kind == Sell {
      LatestIsCovered(log, row);
    }
  }

  /** Without the condition on dates the check is not enough: a purchase of ten on day 1, their sale on day
      3, and a second sale of ten dated day 2 are all accepted, and the history no longer replays. */
  lemma {:induction false} BackdatedSaleOversells()
    ensures var buy: Trade := Item(0, 1, Buy, 7, 10.0, 100.0, 0.0, 0.0, 1, 1, None);
            var sell: Trade := Item(1, 3, Sell, 7, 10.0, 100.0, 0.0, 0.0, 1, 1, None);
            var late := Request(5, Account(9, 5, true, 1), Security(7, 1, true), Some(Sell), 2, 100.0, 1,
                                Some(10.0), Some(10.0), 0.0, 0.0, None, None);
            && Sound([buy, sell])
            && Outcome([buy, sell], late, 2).Ok?
            && !Sound([buy, sell, Outcome([buy, sell], late, 2).value])
  {
    var buy: Trade := Item(0, 1, Buy, 7, 10.0, 100.0, 0.0, 0.0, 1, 1, None);
    var sell: Trade := Item(1, 3, Sell, 7, 10.0, 100.0, 0.0, 0.0, 1, 1, None);
    var late := Request(5, Account(9, 5, true, 1), Security(7, 1, true), Some(Sell), 2, 100.0, 1,
                        Some(10.0), Some(10.0), 0.0, 0.0, None, None);
    assert CleanOk(late);
    var row: Trade := Row(late, 2);
    assert row.Cash() == 100.0;
    LateSaleOversells(buy, sell, late, row);
  }

  lemma {:induction false} LateSaleOversells(buy: Trade, sell: Trade, late: Request, row: Trade)
    requires buy.kind == Buy && buy.date == 1 && buy.security == 7 && buy.quantity == 10.0
    requires sell.kind == Sell && sell.date == 3 && sell.security == 7 && sell.quantity == 10.0
    requires late.kind == Some(Sell) && late.date == 2 && late.security.id == 7 && late.quantity == Some(10.0)
    requires CleanOk(late) && row == Row(late, 2) && row.Cash() != 0.0
    ensures Sound([buy, sell])
    ensures Outcome([buy, sell], late, 2) == Ok(row)
    ensures !Sound([buy, sell, row])
  {
    ThreeRows(buy, sell, row);
    BuyThenSell(buy, sell);
    TenHeld(buy, sell);
    TooMuchSold(buy, row, sell);
    hide Held, Listing, Ordered, Of, AsOf, CleanOk, Item.Cash, NeverOversold;
    assert !NeverOversold(Listing([buy, sell, row], 7));
  }

  lemma {:induction false} TenHeld(buy: Trade, sell: Trade)
    requires buy.kind == Buy && buy.date == 1 && buy.security == 7 && buy.quantity == 10.0
    requires sell.date == 3 && sell.security == 7 && Sound([buy, sell])
    ensures Held([buy, sell], 7, 2) == Ok(10.0)
  {
    TwoRows(buy, sell, 7);
    hide Held, Sound, Listing;
    HeldIsDefined([buy, sell], 7, 2);
    AsOfSnoc([], buy, 2);
    AsOfSnoc([buy], sell, 2);
    assert AsOf([], 2) == [];
    hide AsOf;
    assert [buy] == [] + [buy] && [buy, sell] == [buy] + [sell];
    NetOfOne(buy);
  }

  lemma {:induction false} TooMuchSold(buy: Trade, row: Trade, sell: Trade)
    requires buy.kind == Buy && row.kind == sell.kind == Sell
    requires buy.quantity == row.quantity == sell.quantity == 10.0
    ensures !NeverOversold([buy, row, sell])
  {
    assert [buy, row, sell] == [buy] + [row] + [sell];
    NetConcat([buy] + [row], [sell]);
    NetConcat([buy], [row]);
    NetOfOne(buy);
    NetOfOne(row);
    NetOfOne(sell);
    assert [buy, row, sell][..3] == [buy, row, sell];
  }

  lemma {:induction false} BuyThenSell(buy: Trade, sell: Trade)
    requires buy.kind == Buy && buy.date == 1 && buy.security == 7 && buy.quantity == 10.0
    requires sell.kind == Sell && sell.date == 3 && sell.security == 7 && sell.quantity == 10.0
    ensures Sound([buy, sell])
  {
    BuyCoversSell(buy, sell);
    assert NeverOversold([]);
    hide NeverOversold, Listing;
    forall s: nat
      ensures NeverOversold(Listing([buy, sell], s))
    {
      TwoRows(buy, sell, s);
    }
  }

  lemma {:induction false} BuyCoversSell(buy: Trade, sell: Trade)
    requires buy.kind == Buy && buy.quantity == 10.0 && sell.kind == Sell && sell.quantity == 10.0
    ensures NeverOversold([buy, sell])
  {
    assert [buy, sell][..0] == [] && [buy, sell][..1] == [buy] && [buy, sell][..2] == [buy] + [sell];
    NetOfOne(buy);
    NetOfOne(sell);
    NetConcat([buy], [sell]);
  }

  lemma {:induction false} ThreeRows(buy: Trade, sell: Trade, row: Trade)
    requires buy.date == 1 && sell.date == 3 && row.date == 2
    requires buy.security == sell.security == row.security == 7
    ensures forall s: nat :: Listing([buy, sell], s) == if s == 7 then [buy, sell] else []
    ensures AsOf([buy, sell], 2) == [buy]
    ensures Listing([buy, sell, row], 7) == [buy, row, sell]
  {
    forall s: nat
      ensures Listing([buy, sell], s) == if s == 7 then [buy, sell] else []
    {
      TwoRows(buy, sell, s);
    }
    ListingSnoc([buy, sell], row, 7);
    TwoRows(buy, sell, 7);
    assert [buy, sell, row] == [buy, sell] + [row];
    InsertBetween(buy, sell, row);
  }

  lemma {:induction false} TwoRows(buy: Trade, sell: Trade, s: nat)
    requires buy.date == 1 && sell.date == 3 && buy.security == sell.security == 7
    ensures Listing([buy, sell], s) == if s == 7 then [buy, sell] else []
    ensures AsOf([buy, sell], 2) == [buy]
  {
    ListingSnoc([], buy, s);
    ListingSnoc([buy], sell, s);
    AsOfSnoc([], buy, 2);
    AsOfSnoc([buy], sell, 2);
    assert Listing([], s) == [] && AsOf([], 2) == [];
    InsertLast(buy, sell);
    hide Listing, AsOf, Insert;
    assert [buy] == [] + [buy] && [buy, sell] == [buy] + [sell];
  }

  lemma {:induction false} InsertLast(buy: Trade, sell: Trade)
    requires buy.date <= sell.date
    ensures Insert([], buy) == [buy] && Insert([buy], sell) == [buy, sell]
  {}

  lemma {:induction false} InsertBetween(buy: Trade, sell: Trade, row: Trade)
    requires buy.date == 1 && sell.date == 3 && row.date == 2
    ensures Insert([buy, sell], row) == [buy, row, sell]
  {
    assert [buy, sell][..1] == [buy];
    assert Insert([buy], row) == [buy] + [row];
  }
}

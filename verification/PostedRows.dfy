/** What is stored was asked for: every committed investment row and its cash entry, in every interleaving, in
    terms of the request they came from (investments/services/transactions.py, investments/models.py). */
module PostedRows {
  import opened Wrappers
  import opened Decimals
  import opened Trades
  import opened Quantities
  import opened Posting
  import opened PostingProtocol
  import opened AccountValue

  /** Units of the account currency for one unit of the request's. */
  function RateOf(req: Request): real {
    if req.currency == req.account.currency then 1.0
    else if req.exchangeRate.Some? then req.exchangeRate.value
    else 0.0
  }

  /** What the request moves in its own currency: a purchase costs gross and charges, sales and dividends bring gross
      less charges, and fees and taxes cost the gross amount alone. */
  function Moves(req: Request): real {
    if req.kind == Some(Buy) then -req.gross - req.fees - req.taxes
    else if req.kind == Some(Sell) || req.kind == Some(Dividend) then req.gross - req.fees - req.taxes
    else -req.gross
  }

  /** An amount to four places that is no further than half a quantum from what the request moves at its rate, and
      that exactly when the account has the request's currency. */
  predicate Pays(amount: real, req: Request) {
    && IsMoney(amount) && amount != 0.0
    && Abs(amount - Times(Moves(req), RateOf(req))) <= 0.00005
    && (req.currency == req.account.currency ==> amount == Moves(req))
  }

  /** What the service, the model's `clean` and the constraints demand of a request. */
  predicate Admissible(req: Request) {
    && req.kind.Some? && req.account.brokerage && req.account.owner == req.owner
    && req.security.active && req.security.currency == req.currency
    && (req.settlement.None? || req.settlement.value >= req.date)
    && req.gross >= 0.0 && req.fees >= 0.0 && req.taxes >= 0.0
    && IsMoney(req.gross) && IsMoney(req.fees) && IsMoney(req.taxes)
    && (if req.kind == Some(Buy) || req.kind == Some(Sell) then
          && req.quantity.Some? && req.quantity.value > 0.0 && req.price.Some? && req.price.value >= 0.0
          && req.gross == QuantizeMoney(req.quantity.value * req.price.value)
        else req.quantity == None && req.price == None)
    && (if req.currency == req.account.currency then req.exchangeRate == None || req.exchangeRate == Some(1.0)
        else req.exchangeRate.Some? && req.exchangeRate.value >= 0.000000000001)
  }

  /** A stored row and its entry come from an admissible request. */
  predicate Backed(req: Request, row: Trade, entry: CashEntry) {
    && Admissible(req)
    && req.kind == Some(row.kind) && row.security == req.security.id && row.date == req.date
    && row.gross == req.gross && row.fees == req.fees && row.taxes == req.taxes
    && row.currency == req.currency && row.home == req.account.currency && row.exchangeRate == req.exchangeRate
    && row.quantity == (if req.quantity.Some? then req.quantity.value else 0.0)
    && entry.transaction == row.id && entry.account == req.account.id && entry.exchangeRate == RateOf(req)
    && Pays(entry.amount, req)
  }

  // ----- rounding to a stored amount

  /** Rounding gives four places, and nothing exactly for what is within half a quantum of it. */
  lemma {:induction false} QuantizeKeeps(x: real)
    ensures IsMoney(QuantizeMoney(x)) && Abs(QuantizeMoney(x) - x) <= 0.00005
    ensures QuantizeMoney(x) == 0.0 <==> Abs(x) <= 0.00005
  {
    var k := RoundHalfEven(x * 10000.0);
    assert QuantizeMoney(x) * 10000.0 == k as real;
    WholeIsMoney(QuantizeMoney(x), k);
    QuantizeError(x);
  }

  lemma {:induction false} MovesIsMoney(req: Request)
    requires Admissible(req)
    ensures IsMoney(Moves(req))
  {
    assert IsMoney(req.gross) && IsMoney(req.fees) && IsMoney(req.taxes);
    hide IsMoney;
    MoneyAdds(req.gross, req.fees);
    MoneyAdds(req.gross - req.fees, req.taxes);
    assert IsMoney(-req.gross);
    MoneyAdds(-req.gross, req.fees);
    MoneyAdds(-req.gross - req.fees, req.taxes);
  }

  /** The cash of a stored row, told by the request. */
  lemma {:induction false} CashIsMoved(req: Request, id: nat)
    requires req.kind.Some? && Refusal(req) == None && CleanOk(req)
    ensures Admissible(req)
    ensures var row: Trade := Row(req, id);
            && row.Rate() == RateOf(req) && row.Cash() == QuantizeMoney(Times(Moves(req), RateOf(req)))
            && (req.currency == req.account.currency ==> row.Cash() == Moves(req))
  {
    AdmissibleIff(req);
    MovesIsMoney(req);
    var row: Trade := Row(req, id);
    assert row.Rate() == RateOf(req);
    assert row.NetCashImpactNative() == Moves(req);
    hide CleanOk, Admissible, QuantizeMoney, IsMoney, Moves;
    if req.currency == req.account.currency {
      assert Times(Moves(req), 1.0) == Moves(req);
      QuantizeExact(Moves(req));
    }
  }

  // ----- over every run

  /** The requests that sessions began with. */
  function Requests(actions: seq<Action>): set<Request> {
    set a | a in actions && a.Begin? :: a.req
  }

  ghost predicate Requested(requests: set<Request>, row: Trade, entry: CashEntry) {
    exists req :: req in requests && Backed(req, row, entry)
  }

  ghost predicate AllBacked(requests: set<Request>, st: State) {
    && |st.log| == |st.entries|
    && (forall s | s in st.sessions :: st.sessions[s].req in requests && Refusal(st.sessions[s].req) == None)
    && (forall k | 0 <= k < |st.log| :: Requested(requests, st.log[k], st.entries[k]))
  }

  lemma {:induction false} InsertedIsBacked(st: State, s: nat)
    requires Inv(st) && s in st.sessions && st.sessions[s].Inserted? && Refusal(st.sessions[s].req) == None
    ensures var p := st.sessions[s]; Backed(p.req, p.row, CashEntryOf(p.row, p.req.account.id))
  {
    var Inserted(req, held, row) := st.sessions[s];
    assert PhaseOk(st, st.sessions[s]);
    assert CleanOk(req) && row == Row(req, row.id) && row.Cash() != 0.0;
    hide *;
    RowIsBacked(req, row);
  }

  lemma {:induction false} RowIsBacked(req: Request, row: Trade)
    requires req.kind.Some? && Refusal(req) == None && CleanOk(req) && row == Row(req, row.id) && row.Cash() != 0.0
    ensures Backed(req, row, CashEntryOf(row, req.account.id))
  {
    CashIsMoved(req, row.id);
    QuantizeKeeps(Times(Moves(req), RateOf(req)));
    hide CleanOk, Admissible, QuantizeMoney, IsMoney, Item.Cash, Item.Rate, Moves, RateOf;
  }

  lemma {:induction false} StepKeepsBacked(st: State, a: Action, requests: set<Request>)
    requires Inv(st) && AllBacked(requests, st) && Step(st, a).Some? && (a.Begin? ==> a.req in requests)
    ensures AllBacked(requests, Step(st, a).value)
  {
    if a.Commit? {
      InsertedIsBacked(st, a.session);
    }
    hide Backed, Inv, Held, CleanOk, Item.Cash, CashEntryOf;
    var after := Step(st, a).value;
    forall k | 0 <= k < |after.log|
      ensures Requested(requests, after.log[k], after.entries[k])
    {
      if k < |st.log| {
        assert after.log[k] == st.log[k] && after.entries[k] == st.entries[k];
      } else {
        assert a.Commit?;
        assert Backed(st.sessions[a.session].req, after.log[k], after.entries[k]);
      }
    }
  }

  /** In every interleaving, every committed row and its one cash entry come from an admissible request some session
      made: the row repeats its fields, and the entry is what the request moves at its rate, to the quantum. */
  lemma {:induction false} CommittedIsRequested(actions: seq<Action>, st: State)
    requires Runs(actions, st)
    ensures |st.log| == |st.entries|
    ensures forall k | 0 <= k < |st.log| :: Requested(Requests(actions), st.log[k], st.entries[k])
  {
    AllIsBacked(actions, st, Requests(actions));
  }

  lemma {:induction false} AllIsBacked(actions: seq<Action>, st: State, requests: set<Request>)
    requires Runs(actions, st) && Requests(actions) <= requests
    ensures AllBacked(requests, st)
  {
    if actions != [] {
      var n := |actions| - 1;
      var before :| Runs(actions[..n], before) && Step(before, actions[n]) == Some(st);
      assert forall a | a in actions[..n] :: a in actions;
      assert actions[n] in actions;
      hide Runs, Inv, Step, AllBacked;
      AllIsBacked(actions[..n], before, requests);
      RunsKeepInv(actions[..n], before);
      StepKeepsBacked(before, actions[n], requests);
    } else {
      hide Backed, Refusal;
    }
  }

  // ----- what is accepted

  /** In sound tables a request is accepted exactly when it is admissible, a sale is of no more than was bought less
      sold by its date, and what it moves does not round to nothing. */
  lemma {:induction false} AcceptedIff(log: seq<Trade>, req: Request, id: nat)
    requires Sound(log)
    ensures Outcome(log, req, id).Ok? <==>
            && Admissible(req)
            && (req.kind == Some(Sell) ==> req.quantity.value <= Net(AsOf(Listing(log, req.security.id), req.date)))
            && Abs(Times(Moves(req), RateOf(req))) > 0.00005
  {
    HeldIsDefined(log, req.security.id, req.date);
    AdmissibleIff(req);
    if Admissible(req) {
      CashIsMoved(req, id);
      QuantizeKeeps(Times(Moves(req), RateOf(req)));
    }
    hide Sound, Held, Listing, AsOf, Net, CleanOk, Admissible, QuantizeMoney, Item.Cash, Moves, RateOf, Refusal;
  }

  lemma {:induction false} AdmissibleIff(req: Request)
    ensures Admissible(req) <==> Refusal(req) == None && CleanOk(req)
    ensures Admissible(req) ==> req.kind.Some? && (req.kind == Some(Sell) ==> req.quantity.Some?)
  {
    hide IsMoney, QuantizeMoney;
  }

  /** A refusal names the first check that fails. */
  lemma {:induction false} RefusalNames(log: seq<Trade>, req: Request, id: nat)
    requires Sound(log) && Outcome(log, req, id).Err?
    ensures var held := Net(AsOf(Listing(log, req.security.id), req.date));
            Outcome(log, req, id).error ==
            if req.account.owner != req.owner then NotOwner
            else if !req.account.brokerage then NotBrokerage
            else if req.kind == None then Unsupported
            else if req.kind == Some(Sell) && (req.quantity == None || req.quantity.value > held)
              then Insufficient(req.quantity, held)
            else if !Admissible(req) then Invalid
            else NoCash
  {
    HeldIsDefined(log, req.security.id, req.date);
    AdmissibleIff(req);
    hide Sound, Held, Listing, AsOf, Net, CleanOk, Admissible;
  }

  // ----- income and charges

  /** What the dividends bring and the fees and taxes cost up to a day, unrounded, in the account currency. */
  function IncomeDue(log: seq<Trade>, date: int): real {
    if log == [] then 0.0
    else
      var t := log[|log| - 1];
      IncomeDue(log[..|log| - 1], date) +
      (if t.IsTrade() || t.date > date then 0.0
       else Times(if t.kind == Dividend then t.gross - t.fees - t.taxes else -t.gross,
                  if t.currency == t.home then 1.0 else t.exchangeRate.value))
  }

  function ForeignIncome(log: seq<Trade>, date: int): nat {
    if log == [] then 0
    else
      var t := log[|log| - 1];
      ForeignIncome(log[..|log| - 1], date) + (if !t.IsTrade() && t.date <= date && t.currency != t.home then 1 else 0)
  }

  /** A row that is not a trade, backed by a request, moves what it is due. */
  lemma {:induction false} IncomeOfRow(requests: set<Request>, row: Trade, entry: CashEntry)
    requires Requested(requests, row, entry) && !row.IsTrade()
    ensures var moved := if row.kind == Dividend then row.gross - row.fees - row.taxes else -row.gross;
            var due := Times(moved, if row.currency == row.home then 1.0 else row.exchangeRate.value);
            Abs(entry.amount - due) <= 0.00005 && (row.currency == row.home ==> entry.amount == due)
  {
    hide Admissible, IsMoney;
    var req :| req in requests && Backed(req, row, entry);
    assert row.currency != row.home ==> row.exchangeRate.Some?;
    assert Times(Moves(req), 1.0) == Moves(req);
  }

  /** After any interleaving, at any date: the cash of the postings that are not trades is what dividends bring less
      charges and what fees and taxes cost, within half a quantum for each foreign one, and exactly without any. */
  lemma {:induction false} IncomeIsDue(actions: seq<Action>, st: State, date: int)
    requires Runs(actions, st)
    ensures |st.log| == |st.entries|
    ensures Abs(IncomeTotal(st.log, st.entries, date) - IncomeDue(st.log, date))
         <= 0.00005 * ForeignIncome(st.log, date) as real
  {
    CommittedIsRequested(actions, st);
    hide *;
    IncomeUpTo(Requests(actions), st.log, st.entries, date);
  }

  lemma {:induction false} IncomeUpTo(requests: set<Request>, log: seq<Trade>, entries: seq<CashEntry>, date: int)
    requires |log| == |entries|
    requires forall k | 0 <= k < |log| :: Requested(requests, log[k], entries[k])
    ensures Abs(IncomeTotal(log, entries, date) - IncomeDue(log, date)) <= 0.00005 * ForeignIncome(log, date) as real
  {
    hide Backed, Times, Requested;
    if log != [] {
      var n := |log| - 1;
      forall k | 0 <= k < n
        ensures Requested(requests, log[..n][k], entries[..n][k])
      {
        assert log[..n][k] == log[k] && entries[..n][k] == entries[k];
      }
      IncomeUpTo(requests, log[..n], entries[..n], date);
      if !log[n].IsTrade() {
        IncomeOfRow(requests, log[n], entries[n]);
      }
    }
  }
}

/** What a summary's lines and totals are of, told by the stored records and the observed rates alone
    (tax/services/aggregation.py). */
module SummaryLines {
  import opened Wrappers
  import opened Decimals
  import Trades
  import opened CostBasis
  import opened ExchangeRates
  import opened TaxTable
  import opened TaxLaws
  import opened TaxSources
  import opened TaxSummary
  import RuleAmounts

  /** An amount in the reporting currency at the rate of a day, or nothing where there is no rate. */
  predicate IsAtRate(x: Option<real>, table: Table, year: Year, amount: real, currency: nat, date: int) {
    match GetFxRate(table, currency, year.reporting, date)
    case Ok(rate) => x == Some(Times(amount, rate))
    case Err(_) => x == None
  }

  lemma {:induction false} ReportingIsAtRate(table: Table, year: Year, amount: real, currency: nat, date: int)
    ensures IsAtRate(Reporting(table, year, amount, currency, date), table, year, amount, currency, date)
  {}

  /** An amount of an investment row: as it is in the reporting currency; else through the rate fixed at posting and
      the account's currency where there is one; else at the rate of the row's own currency. */
  predicate IsInvestmentAtRate(x: Option<real>, table: Table, year: Year, amount: real, t: Trades.Trade) {
    if t.currency == year.reporting then x == Some(amount)
    else if t.exchangeRate.Some? then
      IsAtRate(x, table, year, Times(amount, t.exchangeRate.value), t.home, t.date)
    else IsAtRate(x, table, year, amount, t.currency, t.date)
  }

  lemma {:induction false} InvestmentIsAtRate(table: Table, year: Year, amount: real, t: Trades.Trade)
    ensures IsInvestmentAtRate(ReportingInvestment(table, year, amount, t), table, year, amount, t)
  {}

  /** Places in a list, in order and each once. */
  ghost predicate Ascending(at: seq<nat>, n: nat) {
    && (forall k :: 0 <= k < |at| ==> at[k] < n)
    && (forall j, k :: 0 <= j < k < |at| ==> at[j] < at[k])
  }

  // ----- which entries become lines

  predicate IsInterestReceived(year: Year, e: Entry) {
    e.kind == InterestEntry && year.start <= e.date <= year.end && e.amount > 0.0
  }

  predicate IsTaxPaid(year: Year, e: Entry) {
    e.kind == TaxEntry && year.start <= e.date <= year.end && e.amount < 0.0
  }

  predicate IsDividendReceived(year: Year, t: Trades.Trade) {
    t.kind == Trades.Dividend && year.start <= t.date <= year.end
  }

  lemma {:induction false} InterestPlaces(year: Year, entries: seq<Entry>) returns (at: seq<nat>)
    ensures Ascending(at, |entries|) && |at| == |EntriesOf(year, entries, InterestEntry)|
    ensures forall k :: 0 <= k < |at| ==> EntriesOf(year, entries, InterestEntry)[k] == entries[at[k]]
    ensures forall i: nat :: i in at <==> i < |entries| && IsInterestReceived(year, entries[i])
  {
    if entries == [] {
      at := [];
    } else {
      var n := |entries| - 1;
      at := InterestPlaces(year, entries[..n]);
      assert EntriesOf(year, entries, InterestEntry)
          == EntriesOf(year, entries[..n], InterestEntry)
              + (if IsInterestReceived(year, entries[n]) then [entries[n]] else []);
      hide EntriesOf;
      if IsInterestReceived(year, entries[n]) {
        at := at + [n];
      }
    }
  }

  lemma {:induction false} TaxPlaces(year: Year, entries: seq<Entry>) returns (at: seq<nat>)
    ensures Ascending(at, |entries|) && |at| == |EntriesOf(year, entries, TaxEntry)|
    ensures forall k :: 0 <= k < |at| ==> EntriesOf(year, entries, TaxEntry)[k] == entries[at[k]]
    ensures forall i: nat :: i in at <==> i < |entries| && IsTaxPaid(year, entries[i])
  {
    if entries == [] {
      at := [];
    } else {
      var n := |entries| - 1;
      at := TaxPlaces(year, entries[..n]);
      assert EntriesOf(year, entries, TaxEntry)
          == EntriesOf(year, entries[..n], TaxEntry) + (if IsTaxPaid(year, entries[n]) then [entries[n]] else []);
      hide EntriesOf;
      if IsTaxPaid(year, entries[n]) {
        at := at + [n];
      }
    }
  }

  lemma {:induction false} DividendPlaces(year: Year, items: seq<Trades.Trade>) returns (at: seq<nat>)
    ensures Ascending(at, |items|) && |at| == |DividendsOf(year, items)|
    ensures forall k :: 0 <= k < |at| ==> DividendsOf(year, items)[k] == items[at[k]]
    ensures forall i: nat :: i in at <==> i < |items| && IsDividendReceived(year, items[i])
  {
    if items == [] {
      at := [];
    } else {
      var n := |items| - 1;
      at := DividendPlaces(year, items[..n]);
      if IsDividendReceived(year, items[n]) {
        at := at + [n];
      }
    }
  }

  lemma {:induction false} EntryLineIs(table: Table, year: Year, entries: seq<Entry>, lines: seq<EntryLine>, k: nat)
    requires EntryLinesFor(table, year, entries, lines) && k < |entries|
    ensures |lines| == |entries| && lines[k].entry == entries[k]
    ensures IsAtRate(lines[k].reporting, table, year, Abs(entries[k].amount), entries[k].currency, entries[k].date)
  {
    hide Reporting, IsAtRate;
    ReportingIsAtRate(table, year, Abs(entries[k].amount), entries[k].currency, entries[k].date);
  }

  /** The interest lines are the entries of interest received in the year, each once and in order, at their amounts. */
  lemma {:induction false} InterestLinesAre(c: Context, table: Table, year: Year, src: Sources, s: Summary)
    returns (at: seq<nat>)
    requires IsSummary(c, table, year, src, s)
    ensures Ascending(at, |src.entries|) && |at| == |s.interestLines|
    ensures forall i: nat :: i in at <==> i < |src.entries| && IsInterestReceived(year, src.entries[i])
    ensures forall k :: 0 <= k < |at| ==>
              var e, l := src.entries[at[k]], s.interestLines[k];
              l.entry == e && IsAtRate(l.reporting, table, year, e.amount, e.currency, e.date)
  {
    at := InterestPlaces(year, src.entries);
    assert EntryLinesFor(table, year, EntriesOf(year, src.entries, InterestEntry), s.interestLines);
    hide IsSummary, EntriesOf, EntryLinesFor, IsAtRate;
    SameNumber(table, year, EntriesOf(year, src.entries, InterestEntry), s.interestLines);
    forall k | 0 <= k < |at|
      ensures var e, l := src.entries[at[k]], s.interestLines[k];
              l.entry == e && IsAtRate(l.reporting, table, year, e.amount, e.currency, e.date)
    {
      EntryLineIs(table, year, EntriesOf(year, src.entries, InterestEntry), s.interestLines, k);
      assert at[k] in at;
    }
  }

  lemma {:induction false} SameNumber(table: Table, year: Year, entries: seq<Entry>, lines: seq<EntryLine>)
    requires EntryLinesFor(table, year, entries, lines)
    ensures |lines| == |entries|
  {}

  /** A payment line shows a negative entry without its sign. */
  predicate IsPaymentLine(table: Table, year: Year, e: Entry, l: EntryLine) {
    && l.entry == e && IsAtRate(l.reporting, table, year, -e.amount, e.currency, e.date)
    && (l.reporting.Some? ==> l.reporting.value > 0.0)
  }

  lemma {:induction false} PaymentLineIs(table: Table, year: Year, entries: seq<Entry>, lines: seq<EntryLine>, k: nat)
    requires EntryLinesFor(table, year, entries, lines) && k < |entries| && entries[k].amount < 0.0
    ensures |lines| == |entries| && IsPaymentLine(table, year, entries[k], lines[k])
  {
    var e := entries[k];
    EntryLineIs(table, year, entries, lines, k);
    hide EntryLinesFor, IsAtRate;
    PositiveAtRate(lines[k].reporting, table, year, -e.amount, e.currency, e.date);
  }

  /** The payment lines are the entries of tax paid in the year, each once and in order, at their amounts without
      the sign. */
  lemma {:induction false} PaymentLinesAre(c: Context, table: Table, year: Year, src: Sources, s: Summary)
    returns (at: seq<nat>)
    requires IsSummary(c, table, year, src, s)
    ensures Ascending(at, |src.entries|) && |at| == |s.paymentLines|
    ensures forall i: nat :: i in at <==> i < |src.entries| && IsTaxPaid(year, src.entries[i])
    ensures forall k :: 0 <= k < |at| ==> IsPaymentLine(table, year, src.entries[at[k]], s.paymentLines[k])
  {
    assert EntryLinesFor(table, year, EntriesOf(year, src.entries, TaxEntry), s.paymentLines);
    hide *;
    at := PaymentPlaces(table, year, src.entries, s.paymentLines);
  }

  lemma {:induction false} PaymentPlaces(table: Table, year: Year, entries: seq<Entry>, lines: seq<EntryLine>)
    returns (at: seq<nat>)
    requires EntryLinesFor(table, year, EntriesOf(year, entries, TaxEntry), lines)
    ensures Ascending(at, |entries|) && |at| == |lines|
    ensures forall i: nat :: i in at <==> i < |entries| && IsTaxPaid(year, entries[i])
    ensures forall k :: 0 <= k < |at| ==> IsPaymentLine(table, year, entries[at[k]], lines[k])
  {
    at := TaxPlaces(year, entries);
    var paid := EntriesOf(year, entries, TaxEntry);
    SameNumber(table, year, paid, lines);
    hide EntriesOf, EntryLinesFor, IsPaymentLine;
    forall k | 0 <= k < |at|
      ensures IsPaymentLine(table, year, entries[at[k]], lines[k])
    {
      assert at[k] in at;
      PaymentLineIs(table, year, paid, lines, k);
    }
  }

  lemma {:induction false} PositiveAtRate(x: Option<real>, table: Table, year: Year, amount: real, currency: nat,
      date: int)
    requires IsAtRate(x, table, year, amount, currency, date) && amount > 0.0
    ensures x.Some? ==> x.value > 0.0
  {
    if x.Some? {
      RateIsPositive(table, currency, year.reporting, date);
      var rate := GetFxRate(table, currency, year.reporting, date).value;
      assert amount * rate > 0.0;
    }
  }

  /** The dividend lines are the dividends dated in the year, each once and in order: gross, tax withheld, and gross
      less both charges. */
  lemma {:induction false} DividendLinesAre(c: Context, table: Table, year: Year, src: Sources, s: Summary)
    returns (at: seq<nat>)
    requires IsSummary(c, table, year, src, s)
    ensures Ascending(at, |src.investments|) && |at| == |s.dividendLines|
    ensures forall i: nat :: i in at <==> i < |src.investments| && IsDividendReceived(year, src.investments[i])
    ensures forall k :: 0 <= k < |at| ==>
              var t, l := src.investments[at[k]], s.dividendLines[k];
              && l.item == t
              && IsInvestmentAtRate(l.gross, table, year, t.gross, t)
              && IsInvestmentAtRate(l.withheld, table, year, t.taxes, t)
              && IsInvestmentAtRate(l.net, table, year, t.gross - t.fees - t.taxes, t)
  {
    at := DividendPlaces(year, src.investments);
    assert DividendLinesFor(table, year, DividendsOf(year, src.investments), s.dividendLines);
    hide IsSummary, DividendsOf, ReportingInvestment, IsInvestmentAtRate;
    forall k | 0 <= k < |at|
      ensures var t, l := src.investments[at[k]], s.dividendLines[k];
              && l.item == t
              && IsInvestmentAtRate(l.gross, table, year, t.gross, t)
              && IsInvestmentAtRate(l.withheld, table, year, t.taxes, t)
              && IsInvestmentAtRate(l.net, table, year, t.gross - t.fees - t.taxes, t)
    {
      var t := src.investments[at[k]];
      assert at[k] in at;
      InvestmentIsAtRate(table, year, t.gross, t);
      InvestmentIsAtRate(table, year, t.taxes, t);
      InvestmentIsAtRate(table, year, t.gross - t.taxes - t.fees, t);
    }
  }

  // ----- disposals

  /** A disposal of an account: a sale its replay to the end of the year realizes, dated in the year. */
  ghost predicate IsDisposal(c: Context, year: Year, a: BrokerageAccount, e: Event) {
    var replay := BookReplay(c, Trades.OnlyTrades(Trades.AsOf(a.history, year.end)));
    replay.Ok? && e in replay.value.events && year.start <= e.trade.date
  }

  lemma {:induction false} FromMembers(events: seq<Event>, start: int)
    ensures forall e :: e in From(events, start) <==> e in events && start <= e.trade.date
  {
    if events != [] {
      var n := |events| - 1;
      FromMembers(events[..n], start);
      assert events == events[..n] + [events[n]];
    }
  }

  lemma {:induction false} YearEventsAre(c: Context, year: Year, a: BrokerageAccount)
    ensures forall e :: e in YearEvents(c, year, a) <==> IsDisposal(c, year, a, e)
  {
    Trades.AsOfCommutes(a.history, year.end, 0);
    var replay := BookReplay(c, TradesUpTo(a.history, Some(year.end)));
    if replay.Ok? {
      FromMembers(replay.value.events, year.start);
    }
  }

  predicate IsGainLine(table: Table, year: Year, currency: nat, l: GainLine) {
    && IsAtRate(l.proceeds, table, year, l.event.netProceedsBase, currency, l.event.trade.date)
    && IsAtRate(l.cost, table, year, l.event.basisBase, currency, l.event.trade.date)
    && IsAtRate(l.gain, table, year, l.event.gainBase, currency, l.event.trade.date)
  }

  /** The gain lines are the year's disposals of the accounts, each with its figures at the rate of its day. */
  lemma {:induction false} GainLinesAre(c: Context, table: Table, year: Year, src: Sources, s: Summary)
    requires IsSummary(c, table, year, src, s)
    ensures forall l | l in s.gainLines ::
              exists a :: a in src.accounts && IsDisposal(c, year, a, l.event) && IsGainLine(table, year, a.currency, l)
    ensures forall a, e | a in src.accounts && IsDisposal(c, year, a, e) :: exists l :: l in s.gainLines && l.event == e
  {
    assert s.gainLines == AllGainLines(c, table, year, src.accounts);
    hide IsSummary, AllGainLines;
    LinesOfAccounts(c, table, year, src.accounts);
  }

  lemma {:induction false} LinesOfAccounts(c: Context, table: Table, year: Year, accounts: seq<BrokerageAccount>)
    ensures forall l | l in AllGainLines(c, table, year, accounts) ::
              exists a :: a in accounts && IsDisposal(c, year, a, l.event) && IsGainLine(table, year, a.currency, l)
    ensures forall a, e | a in accounts && IsDisposal(c, year, a, e) ::
              exists l :: l in AllGainLines(c, table, year, accounts) && l.event == e
  {
    if accounts != [] {
      var n := |accounts| - 1;
      var last := accounts[n];
      assert accounts == accounts[..n] + [last];
      LinesOfAccounts(c, table, year, accounts[..n]);
      LinesOfAccount(c, table, year, last);
      var front, more := AllGainLines(c, table, year, accounts[..n]),
          GainLines(table, year, last.currency, YearEvents(c, year, last));
      assert AllGainLines(c, table, year, accounts) == front + more;
      hide AllGainLines, GainLines, YearEvents, IsDisposal, IsGainLine;
      forall a, e | a in accounts && IsDisposal(c, year, a, e)
        ensures exists l :: l in AllGainLines(c, table, year, accounts) && l.event == e
      {
        if a == last {
          var l :| l in more && l.event == e;
          assert l in front + more;
        } else {
          var l :| l in front && l.event == e;
          assert l in front + more;
        }
      }
    }
  }

  lemma {:induction false} LinesOfAccount(c: Context, table: Table, year: Year, a: BrokerageAccount)
    ensures var lines := GainLines(table, year, a.currency, YearEvents(c, year, a));
            && (forall l | l in lines :: IsDisposal(c, year, a, l.event) && IsGainLine(table, year, a.currency, l))
            && (forall e | IsDisposal(c, year, a, e) :: exists l :: l in lines && l.event == e)
  {
    YearEventsAre(c, year, a);
    var events := YearEvents(c, year, a);
    var lines := GainLines(table, year, a.currency, events);
    assert forall i :: 0 <= i < |events| ==> lines[i].event == events[i] && events[i] in events;
    hide YearEvents, IsDisposal, Reporting;
    forall l | l in lines
      ensures IsDisposal(c, year, a, l.event) && IsGainLine(table, year, a.currency, l)
    {
      var e := l.event;
      ReportingIsAtRate(table, year, e.netProceedsBase, a.currency, e.trade.date);
      ReportingIsAtRate(table, year, e.basisBase, a.currency, e.trade.date);
      ReportingIsAtRate(table, year, e.gainBase, a.currency, e.trade.date);
    }
    forall e | IsDisposal(c, year, a, e)
      ensures exists l :: l in lines && l.event == e
    {
      var i :| 0 <= i < |events| && events[i] == e;
      assert lines[i] in lines;
    }
  }

  // ----- what makes a summary incomplete

  /** There is a rate: the currency is the reporting one, or the pair was observed by the day, either way round. */
  ghost predicate Rated(table: Table, year: Year, currency: nat, date: int) {
    currency == year.reporting || exists o :: o in table && Usable(o, currency, year.reporting, date)
  }

  lemma {:induction false} ConvertibleIsRated(table: Table, year: Year, currency: nat, date: int)
    ensures Convertible(table, year, currency, date) <==> Rated(table, year, currency, date)
  {
    if currency != year.reporting {
      RateIsNewestObservation(table, currency, year.reporting, date);
    }
  }

  /** Every record of the year has a rate on its day (allowances on the first day of the year), and the sales of every
      brokerage account can be replayed to the end of the year. */
  ghost predicate AllRated(c: Context, table: Table, year: Year, src: Sources) {
    && (forall e | e in src.entries && (IsInterestReceived(year, e) || IsTaxPaid(year, e)) ::
          Rated(table, year, e.currency, e.date))
    && (forall t | t in src.investments && IsDividendReceived(year, t) && t.currency != year.reporting ::
          Rated(table, year, if t.exchangeRate.Some? then t.home else t.currency, t.date))
    && (forall a | a in src.accounts ::
          && BookReplay(c, Trades.OnlyTrades(Trades.AsOf(a.history, year.end))).Ok?
          && forall e | IsDisposal(c, year, a, e) :: Rated(table, year, a.currency, e.trade.date))
    && (forall m | m in src.allowances :: Rated(table, year, m.currency, year.start))
    && (forall m | m in src.deductions :: Rated(table, year, m.currency, m.date))
    && (forall a | a in src.adjustments :: Rated(table, year, a.currency, a.date))
  }

  lemma {:induction false} RatedEverywhere(table: Table, year: Year)
    ensures forall currency: nat, date: int ::
              Convertible(table, year, currency, date) <==> Rated(table, year, currency, date)
  {
    forall currency: nat, date: int
      ensures Convertible(table, year, currency, date) <==> Rated(table, year, currency, date)
    {
      ConvertibleIsRated(table, year, currency, date);
    }
  }

  lemma {:induction false} EntryMembers(year: Year, entries: seq<Entry>)
    ensures forall e :: e in EntriesOf(year, entries, InterestEntry) <==> e in entries && IsInterestReceived(year, e)
    ensures forall e :: e in EntriesOf(year, entries, TaxEntry) <==> e in entries && IsTaxPaid(year, e)
  {
    if entries != [] {
      var n := |entries| - 1;
      EntryMembers(year, entries[..n]);
      assert entries == entries[..n] + [entries[n]];
    }
  }

  lemma {:induction false} DividendMembers(year: Year, items: seq<Trades.Trade>)
    ensures forall t :: t in DividendsOf(year, items) <==> t in items && IsDividendReceived(year, t)
  {
    if items != [] {
      var n := |items| - 1;
      DividendMembers(year, items[..n]);
      assert items == items[..n] + [items[n]];
    }
  }

  lemma {:induction false} AccountSoundIff(c: Context, table: Table, year: Year, a: BrokerageAccount)
    ensures AccountSound(c, table, year, a) <==>
            && BookReplay(c, Trades.OnlyTrades(Trades.AsOf(a.history, year.end))).Ok?
            && forall e | IsDisposal(c, year, a, e) :: Rated(table, year, a.currency, e.trade.date)
  {
    Trades.AsOfCommutes(a.history, year.end, 0);
    YearEventsAre(c, year, a);
    RatedEverywhere(table, year);
    var events := YearEvents(c, year, a);
    hide Convertible, Rated, IsDisposal, YearEvents, BookReplay;
    assert (forall i :: 0 <= i < |events| ==> Rated(table, year, a.currency, events[i].trade.date))
      <==> (forall e | e in events :: Rated(table, year, a.currency, e.trade.date));
  }

  /** A summary is INCOMPLETE exactly when some record of the year has no rate on its day, or some account's sales
      cannot be replayed. */
  lemma {:induction false} IncompleteIff(c: Context, table: Table, year: Year, src: Sources, s: Summary)
    requires IsSummary(c, table, year, src, s)
    ensures s.status == INCOMPLETE <==> !AllRated(c, table, year, src)
  {
    assert s.status == INCOMPLETE <==> !NothingMissing(c, table, year, src);
    hide IsSummary;
    NothingMissingIff(c, table, year, src);
  }

  lemma {:induction false} NothingMissingIff(c: Context, table: Table, year: Year, src: Sources)
    ensures NothingMissing(c, table, year, src) <==> AllRated(c, table, year, src)
  {
    RatedEverywhere(table, year);
    EntryMembers(year, src.entries);
    DividendMembers(year, src.investments);
    hide Convertible, Rated, IsDisposal, EntriesOf, DividendsOf, AccountSound, IsInterestReceived, IsTaxPaid,
        BookReplay, IsDividendReceived;
    forall a | a in src.accounts
      ensures AccountSound(c, table, year, a) <==>
              && BookReplay(c, Trades.OnlyTrades(Trades.AsOf(a.history, year.end))).Ok?
              && forall e | IsDisposal(c, year, a, e) :: Rated(table, year, a.currency, e.trade.date)
    {
      AccountSoundIff(c, table, year, a);
    }
  }

  // ----- the verdict

  ghost predicate HasFlatRate(rules: seq<ActiveRule>, c: Category) {
    exists r :: r in rules && r.kind == FlatRate && (r.target == Overall || r.target == Only(c))
  }

  /** Nothing to review: every transaction of the year is classified, and every category that is still taxable has a
      flat-rate rule aimed at it or at all categories. */
  ghost predicate NothingToReview(year: Year, src: Sources, s: Summary)
    requires |s.categories| == 5
  {
    && (forall t | t in src.transactions && year.start <= t.date <= year.end :: t.kind == OtherKind)
    && (forall i: nat | i < 5 && s.categories[i].taxable > 0.0 ::
          HasFlatRate(src.rules, ORDER[i]))
  }

  /** The verdict, told by the records: COMPLETE exactly when all is rated and there is nothing to review, INCOMPLETE
      exactly when something is not rated, whatever else there is to review. */
  lemma {:induction false} VerdictIff(c: Context, table: Table, year: Year, src: Sources, s: Summary)
    requires IsSummary(c, table, year, src, s)
    ensures |s.categories| == 5
    ensures s.status == INCOMPLETE <==> !AllRated(c, table, year, src)
    ensures s.status == COMPLETE <==> AllRated(c, table, year, src) && NothingToReview(year, src, s)
  {
    assert |s.categories| == 5;
    assert s.status == COMPLETE <==> s.status != INCOMPLETE && s.reviews == [];
    hide *;
    IncompleteIff(c, table, year, src, s);
    ReviewsIff(c, table, year, src, s);
  }

  lemma {:induction false} ReviewsIff(c: Context, table: Table, year: Year, src: Sources, s: Summary)
    requires IsSummary(c, table, year, src, s)
    ensures |s.categories| == 5 && (s.reviews == [] <==> NothingToReview(year, src, s))
  {
    hide Estimate, RawRows, Amounts, HasFlatTrace, HasFlatRate, EntryLinesFor, DividendLinesFor, AllGainLines,
        AreFigures,
      NothingMissing, WithheldTotal, Liability, SumInto, SumKnown, EntryConversions;
    var rows := s.categories;
    assert Amounts(table, year, src).Valid();
    assert rows == Estimate(RawRows(c, table, year, src), Amounts(table, year, src), src.rules);
    assert s.reviews == [] <==>
           && (forall t | t in src.transactions :: !IsUnclassified(year, t))
           && (forall i :: 0 <= i < 5 ==> rows[i].taxable > 0.0 ==> HasFlatTrace(rows[i]));
    hide IsSummary;
    FlatTraces(c, table, year, src, rows);
  }

  lemma {:induction false} FlatTraces(c: Context, table: Table, year: Year, src: Sources, rows: seq<Row>)
    requires Amounts(table, year, src).Valid()
    requires rows == Estimate(RawRows(c, table, year, src), Amounts(table, year, src), src.rules)
    ensures forall i: nat :: i < 5 ==> (HasFlatTrace(rows[i]) <==> HasFlatRate(src.rules, ORDER[i]))
  {
    RawRowsAreRaw(c, table, year, src);
    hide Estimate, RawRows, Amounts, HasFlatTrace, HasFlatRate, Covered, Raw;
    forall i: nat | i < 5
      ensures HasFlatTrace(rows[i]) <==> HasFlatRate(src.rules, ORDER[i])
    {
      FlatTraceIff(RawRows(c, table, year, src), Amounts(table, year, src), src.rules, i);
      CoveredIff(src.rules, i);
    }
  }

  lemma {:induction false} CoveredIff(rules: seq<ActiveRule>, i: nat)
    requires i < 5
    ensures Covered(rules, i) <==> HasFlatRate(rules, ORDER[i])
  {
    forall r: Rule
      ensures r.Hits(i) <==> r.target == Overall || r.target == Only(ORDER[i])
    {
      RuleAmounts.AimedIsHit(r, i);
    }
  }

  // ----- totals

  /** The totals of a summary are sums over its five categories. */
  lemma {:induction false} TotalsAreSums(c: Context, table: Table, year: Year, src: Sources, s: Summary)
    requires IsSummary(c, table, year, src, s)
    ensures |s.categories| == 5
    ensures var r := s.categories;
            && s.liability == r[0].tax + r[1].tax + r[2].tax + r[3].tax + r[4].tax
            && s.figures.allowances
               == r[0].allowances + r[1].allowances + r[2].allowances + r[3].allowances + r[4].allowances
            && s.figures.deductions
               == r[0].deductions + r[1].deductions + r[2].deductions + r[3].deductions + r[4].deductions
            && s.figures.taxableIncome == r[0].gross + r[1].gross + r[3].gross + r[4].gross
            && s.figures.netGain == r[2].gross + r[2].losses
  {
    assert |s.categories| == 5 && s.liability == Liability(s.categories) && AreFigures(s.categories, s.figures);
    hide IsSummary, Liability, AllowancesTotal, DeductionsTotal;
    FiveSums(s.categories);
  }

  lemma {:induction false} FiveSums(r: seq<Row>)
    requires |r| == 5
    ensures Liability(r) == r[0].tax + r[1].tax + r[2].tax + r[3].tax + r[4].tax
    ensures AllowancesTotal(r)
         == r[0].allowances + r[1].allowances + r[2].allowances + r[3].allowances + r[4].allowances
    ensures DeductionsTotal(r)
         == r[0].deductions + r[1].deductions + r[2].deductions + r[3].deductions + r[4].deductions
  {
    assert r[..0] == [] && r[..5] == r;
    assert Liability([]) == AllowancesTotal([]) == DeductionsTotal([]) == 0.0;
    hide Liability, AllowancesTotal, DeductionsTotal;
    FiveRows(r, 0);
    FiveRows(r, 1);
    FiveRows(r, 2);
    FiveRows(r, 3);
    FiveRows(r, 4);
  }

  lemma {:induction false} FiveRows(r: seq<Row>, k: nat)
    requires k < |r|
    ensures Liability(r[..k + 1]) == Liability(r[..k]) + r[k].tax
    ensures AllowancesTotal(r[..k + 1]) == AllowancesTotal(r[..k]) + r[k].allowances
    ensures DeductionsTotal(r[..k + 1]) == DeductionsTotal(r[..k]) + r[k].deductions
  {
    assert r[..k + 1][..k] == r[..k];
  }

  // ----- gains and losses apart

  /** The gains of some lines that are above zero, and those below it, added up. */
  function GainsAbove(lines: seq<GainLine>): real {
    if lines == [] then 0.0
    else
      var gain := lines[|lines| - 1].gain;
      GainsAbove(lines[..|lines| - 1]) + (if gain.Some? && gain.value > 0.0 then gain.value else 0.0)
  }

  function GainsBelow(lines: seq<GainLine>): real {
    if lines == [] then 0.0
    else
      var gain := lines[|lines| - 1].gain;
      GainsBelow(lines[..|lines| - 1]) + (if gain.Some? && gain.value < 0.0 then gain.value else 0.0)
  }

  lemma {:induction false} SidesOfConcat(a: seq<GainLine>, b: seq<GainLine>)
    ensures GainsAbove(a + b) == GainsAbove(a) + GainsAbove(b) && GainsBelow(a + b) == GainsBelow(a) + GainsBelow(b)
  {
    if b == [] {
      assert a + b == a;
    } else {
      SidesOfConcat(a, b[..|b| - 1]);
      assert (a + b)[..|a + b| - 1] == a + b[..|b| - 1];
    }
  }

  lemma {:induction false} SidesOfEvents(table: Table, year: Year, currency: nat, events: seq<Event>)
    ensures GainsAbove(GainLines(table, year, currency, events)) == Gains(table, year, currency, events)
    ensures GainsBelow(GainLines(table, year, currency, events)) == Losses(table, year, currency, events)
  {
    hide Reporting;
    if events != [] {
      var n := |events| - 1;
      SidesOfEvents(table, year, currency, events[..n]);
      assert GainLines(table, year, currency, events)[..n] == GainLines(table, year, currency, events[..n]);
    }
  }

  lemma {:induction false} SidesOfAccounts(c: Context, table: Table, year: Year, accounts: seq<BrokerageAccount>)
    ensures GainsAbove(AllGainLines(c, table, year, accounts)) == AllGains(c, table, year, accounts)
    ensures GainsBelow(AllGainLines(c, table, year, accounts)) == AllLosses(c, table, year, accounts)
  {
    if accounts != [] {
      var last := accounts[|accounts| - 1];
      SidesOfAccounts(c, table, year, accounts[..|accounts| - 1]);
      SidesOfEvents(table, year, last.currency, YearEvents(c, year, last));
      SidesOfConcat(AllGainLines(c, table, year, accounts[..|accounts| - 1]),
                    GainLines(table, year, last.currency, YearEvents(c, year, last)));
      hide GainsAbove, GainsBelow, GainLines, Gains, Losses, YearEvents;
    }
  }

  /** The gross of capital gains is the gains of the lines above zero, and its losses are those below zero; neither is
      netted against the other, and adjustments come on top. */
  lemma {:induction false} GainsBySign(c: Context, table: Table, year: Year, src: Sources, s: Summary)
    requires IsSummary(c, table, year, src, s)
    ensures |s.categories| == 5
    ensures s.figures.gains == s.categories[2].gross
         == GainsAbove(s.gainLines) + SumInto(table, year, src.adjustments, Gross(CapitalGain))
    ensures s.figures.losses == s.categories[2].losses
         == GainsBelow(s.gainLines) + SumInto(table, year, src.adjustments, Loss)
  {
    hide Estimate, RawRows, Amounts, AllGainLines, AllGains, AllLosses, GainsAbove, GainsBelow, SumInto, EntryLinesFor,
      DividendLinesFor, NothingMissing, WithheldTotal, Liability, SumKnown, EntryConversions, HasFlatTrace;
    assert s.gainLines == AllGainLines(c, table, year, src.accounts) && AreFigures(s.categories, s.figures);
    assert Amounts(table, year, src).Valid();
    assert s.categories == Estimate(RawRows(c, table, year, src), Amounts(table, year, src), src.rules);
    hide IsSummary;
    SidesOfAccounts(c, table, year, src.accounts);
    EstimateKeepsReceipts(c, table, year, src, s.categories, 2);
  }
}

/** Aggregation of a tax year's actual events into the table of category rows
    (tax/services/aggregation.py, first half of `build_tax_year_summary`). */
module TaxSources {
  import opened Wrappers
  import opened Decimals
  import opened Trades
  import opened CostBasis
  import opened ExchangeRates
  import opened TaxTable

  datatype Year = Year(start: int, end: int, reporting: nat)
  {
    predicate Covers(date: int) { start <= date <= end }
  }

  datatype EntryKind = InterestEntry | TaxEntry | OtherEntry

  /** A ledger entry of the owner, with the kind and date of its transaction. */
  datatype Entry = Entry(kind: EntryKind, date: int, amount: real, currency: nat)

  datatype BrokerageAccount = BrokerageAccount(currency: nat, history: seq<Trade>)

  /** An active allowance or deduction of the year; stored amounts are not negative. */
  datatype ManualItem = ManualItem(target: Target, amount: real, currency: nat, date: int)

  type StoredItem = m: ManualItem | m.amount >= 0.0
    witness ManualItem(Overall, 0.0, 0, 0)

  datatype AdjustmentKind = Taxable(category: Category) | CapitalLoss | ToAllowance | ToDeduction | WithholdingTax
      | TaxPayment

  datatype Adjustment = Adjustment(kind: AdjustmentKind, appliesTo: Option<Target>, amount: real, currency: nat,
      date: int)

  datatype Reason = NoRate(missing: MissingRate) | NoBasis(unavailable: Unavailable)

  datatype EntryLine = EntryLine(entry: Entry, reporting: Option<real>)

  datatype DividendLine = DividendLine(item: Trade, gross: Option<real>, withheld: Option<real>, net: Option<real>)

  datatype GainLine = GainLine(event: Event, proceeds: Option<real>, cost: Option<real>, gain: Option<real>)

  // ----- conversion

  /** `_convert`, without its list of reasons. */
  function Reporting(table: Table, year: Year, amount: real, currency: nat, date: int): Option<real> {
    match Convert(table, amount, currency, year.reporting, date)
    case Ok(x) => Some(x)
    case Err(_) => None
  }

  predicate Convertible(table: Table, year: Year, currency: nat, date: int) {
    GetFxRate(table, currency, year.reporting, date).Ok?
  }

  /** `_convert`. */
  method ConvertOrNote(table: Table, year: Year, amount: real, currency: nat, date: int, reasons: seq<Reason>)
    returns (converted: Option<real>, noted: seq<Reason>)
    ensures converted == Reporting(table, year, amount, currency, date)
    ensures converted.Some? <==> Convertible(table, year, currency, date)
    ensures noted == if converted.Some? then reasons
        else reasons + [NoRate(MissingRate(currency, year.reporting, date))]
  {
    var x := Convert(table, amount, currency, year.reporting, date);
    match x {
      case Ok(value) => return Some(value), reasons;
      case Err(e) => return None, reasons + [NoRate(e)];
    }
  }

  /** What an investment amount is converted from: its own currency, or the account's through the rate
      fixed at posting. */
  predicate InvestmentConvertible(table: Table, year: Year, item: Trade) {
    item.currency == year.reporting
    || Convertible(table, year, if item.exchangeRate.Some? then item.home else item.currency, item.date)
  }

  function ReportingInvestment(table: Table, year: Year, amount: real, item: Trade): Option<real> {
    if item.currency == year.reporting then Some(amount)
    else if item.exchangeRate.Some? then
      Reporting(table, year, Times(amount, item.exchangeRate.value), item.home, item.date)
    else Reporting(table, year, amount, item.currency, item.date)
  }

  /** `_convert_investment`. */
  method ConvertInvestment(table: Table, year: Year, amount: real, item: Trade, reasons: seq<Reason>)
    returns (converted: Option<real>, noted: seq<Reason>)
    ensures converted == ReportingInvestment(table, year, amount, item)
    ensures converted.Some? <==> InvestmentConvertible(table, year, item)
    ensures if converted.Some? then noted == reasons else |noted| == |reasons| + 1
  {
    if item.currency == year.reporting {
      return Some(amount), reasons;
    }
    if item.exchangeRate.Some? {
      converted, noted :=
        ConvertOrNote(table, year, Times(amount, item.exchangeRate.value), item.home, item.date, reasons);
    } else {
      converted, noted := ConvertOrNote(table, year, amount, item.currency, item.date, reasons);
    }
  }

  /** The sum of the amounts that could be converted. */
  function SumKnown(xs: seq<Option<real>>): real {
    if xs == [] then 0.0
    else SumKnown(xs[..|xs| - 1]) + (if xs[|xs| - 1].Some? then xs[|xs| - 1].value else 0.0)
  }

  lemma {:induction false} NothingKnown()
    ensures SumKnown([]) == 0.0
  {}

  lemma {:induction false} SumKnownSnoc(xs: seq<Option<real>>, x: Option<real>)
    ensures SumKnown(xs + [x]) == SumKnown(xs) + (if x.Some? then x.value else 0.0)
  {
    assert (xs + [x])[..|xs|] == xs;
  }

  // ----- the querysets

  function EntriesOf(year: Year, entries: seq<Entry>, kind: EntryKind): seq<Entry> {
    if entries == [] then []
    else
      var last := entries[|entries| - 1];
      EntriesOf(year, entries[..|entries| - 1], kind) +
      (if last.kind == kind && year.Covers(last.date)
          && (if kind == InterestEntry then last.amount > 0.0 else last.amount < 0.0) then [last] else [])
  }

  function DividendsOf(year: Year, items: seq<Trade>): seq<Trade> {
    if items == [] then []
    else
      var last := items[|items| - 1];
      DividendsOf(year, items[..|items| - 1])
          + (if last.kind == Trades.Dividend && year.Covers(last.date) then [last] else [])
  }

  /** The sales of an account that fall in the year; none when its replay raises. */
  function YearEvents(c: Context, year: Year, account: BrokerageAccount): seq<Event> {
    var replay := BookReplay(c, TradesUpTo(account.history, Some(year.end)));
    if replay.Ok? then From(replay.value.events, year.start) else []
  }

  function From(events: seq<Event>, start: int): seq<Event> {
    if events == [] then []
    else
      var last := events[|events| - 1];
      From(events[..|events| - 1], start) + (if last.trade.date < start then [] else [last])
  }

  predicate ReplayFails(c: Context, year: Year, account: BrokerageAccount) {
    BookReplay(c, TradesUpTo(account.history, Some(year.end))).Err?
  }

  // ----- entries: interest received and tax paid

  function EntryConversions(table: Table, year: Year, entries: seq<Entry>): seq<Option<real>> {
    seq(|entries|, i requires 0 <= i < |entries| =>
      Reporting(table, year, Abs(entries[i].amount), entries[i].currency, entries[i].date))
  }

  /** One line for each entry, in order, with the converted amount where there is one. */
  ghost predicate EntryLinesFor(table: Table, year: Year, entries: seq<Entry>, lines: seq<EntryLine>) {
    && |lines| == |entries|
    && forall i :: 0 <= i < |lines| ==> lines[i] == EntryLine(entries[i], EntryConversions(table, year, entries)[i])
  }

  ghost predicate EntriesConvertible(table: Table, year: Year, entries: seq<Entry>) {
    forall e | e in entries :: Convertible(table, year, e.currency, e.date)
  }

  lemma {:induction false} EntryLinesKnown(table: Table, year: Year, entries: seq<Entry>, lines: seq<EntryLine>)
    requires EntryLinesFor(table, year, entries, lines) && EntriesConvertible(table, year, entries)
    ensures forall l | l in lines :: l.reporting.Some?
  {
    forall i | 0 <= i < |lines|
      ensures lines[i].reporting.Some?
    {
      assert entries[i] in entries;
    }
  }

  /** The loop over interest entries, and the one over tax entries, which report amounts without sign. */
  method AggregateEntries(table: Table, year: Year, entries: seq<Entry>, reasons: seq<Reason>)
    returns (lines: seq<EntryLine>, total: real, noted: seq<Reason>)
    requires forall e | e in entries :: e.amount != 0.0
    ensures EntryLinesFor(table, year, entries, lines)
    ensures total == SumKnown(EntryConversions(table, year, entries))
    ensures |reasons| <= |noted|
    ensures |noted| == |reasons| <==> EntriesConvertible(table, year, entries)
  {
    hide Reporting, Convertible, SumKnown;
    ghost var all := EntryConversions(table, year, entries);
    NothingKnown();
    assert all[..0] == [];
    lines, total, noted := [], 0.0, reasons;
    for i := 0 to |entries|
      invariant |lines| == i
      invariant forall j :: 0 <= j < i ==> lines[j] == EntryLine(entries[j], all[j])
      invariant total == SumKnown(all[..i])
      invariant |reasons| <= |noted|
      invariant |noted| == |reasons| <==> forall j :: 0 <= j < i ==>
          Convertible(table, year, entries[j].currency, entries[j].date)
    {
      var e := entries[i];
      var converted;
      converted, noted :=
        ConvertOrNote(table, year, if e.amount > 0.0 then e.amount else -e.amount, e.currency, e.date, noted);
      lines := lines + [EntryLine(e, converted)];
      if converted.Some? {
        total := total + converted.value;
      }
      assert all[..i + 1] == all[..i] + [converted];
      SumKnownSnoc(all[..i], converted);
    }
    assert all[..|entries|] == all;
  }

  // ----- dividends

  function DividendGross(table: Table, year: Year, items: seq<Trade>): seq<Option<real>> {
    seq(|items|, i requires 0 <= i < |items| => ReportingInvestment(table, year, items[i].gross, items[i]))
  }

  function DividendWithheld(table: Table, year: Year, items: seq<Trade>): seq<Option<real>> {
    seq(|items|, i requires 0 <= i < |items| => ReportingInvestment(table, year, items[i].taxes, items[i]))
  }

  function DividendNet(table: Table, year: Year, item: Trade): Option<real> {
    ReportingInvestment(table, year, item.gross - item.taxes - item.fees, item)
  }

  ghost predicate DividendLinesFor(table: Table, year: Year, items: seq<Trade>, lines: seq<DividendLine>) {
    && |lines| == |items|
    && forall i :: 0 <= i < |lines| ==>
         lines[i] == DividendLine(items[i], DividendGross(table, year, items)[i],
             DividendWithheld(table, year, items)[i],
                                  DividendNet(table, year, items[i]))
  }

  ghost predicate DividendsConvertible(table: Table, year: Year, items: seq<Trade>) {
    forall t | t in items :: InvestmentConvertible(table, year, t)
  }

  lemma {:induction false} DividendLinesKnown(table: Table, year: Year, items: seq<Trade>, lines: seq<DividendLine>)
    requires DividendLinesFor(table, year, items, lines) && DividendsConvertible(table, year, items)
    ensures forall l | l in lines :: l.gross.Some? && l.withheld.Some? && l.net.Some?
  {
    forall i | 0 <= i < |lines|
      ensures lines[i].gross.Some? && lines[i].withheld.Some? && lines[i].net.Some?
    {
      assert InvestmentConvertible(table, year, items[i]);
    }
  }

  method AggregateDividends(table: Table, year: Year, items: seq<Trade>, reasons: seq<Reason>)
    returns (lines: seq<DividendLine>, gross: real, withheld: real, noted: seq<Reason>)
    ensures DividendLinesFor(table, year, items, lines)
    ensures gross == SumKnown(DividendGross(table, year, items))
    ensures withheld == SumKnown(DividendWithheld(table, year, items))
    ensures |reasons| <= |noted|
    ensures |noted| == |reasons| <==> DividendsConvertible(table, year, items)
  {
    hide ReportingInvestment, InvestmentConvertible, SumKnown;
    NothingKnown();
    ghost var gs, ws := DividendGross(table, year, items), DividendWithheld(table, year, items);
    assert gs[..0] == [] && ws[..0] == [];
    lines, gross, withheld, noted := [], 0.0, 0.0, reasons;
    for i := 0 to |items|
      invariant |lines| == i
      invariant forall j :: 0 <= j < i ==>
          lines[j] == DividendLine(items[j], gs[j], ws[j], DividendNet(table, year, items[j]))
      invariant gross == SumKnown(gs[..i]) && withheld == SumKnown(ws[..i])
      invariant |reasons| <= |noted|
      invariant |noted| == |reasons| <==> forall j :: 0 <= j < i ==> InvestmentConvertible(table, year, items[j])
    {
      var item := items[i];
      var net := item.gross - item.taxes - item.fees;
      var grossReporting, taxReporting, netReporting;
      grossReporting, noted := ConvertInvestment(table, year, item.gross, item, noted);
      taxReporting, noted := ConvertInvestment(table, year, item.taxes, item, noted);
      netReporting, noted := ConvertInvestment(table, year, net, item, noted);
      lines := lines + [DividendLine(item, grossReporting, taxReporting, netReporting)];
      if grossReporting.Some? {
        gross := gross + grossReporting.value;
      }
      if taxReporting.Some? {
        withheld := withheld + taxReporting.value;
      }
      assert gs[..i + 1] == gs[..i] + [grossReporting] && ws[..i + 1] == ws[..i] + [taxReporting];
      SumKnownSnoc(gs[..i], grossReporting);
      SumKnownSnoc(ws[..i], taxReporting);
    }
    assert gs[..|items|] == gs && ws[..|items|] == ws;
  }

  // ----- realized gains

  function GainOf(table: Table, year: Year, currency: nat, e: Event): Option<real> {
    Reporting(table, year, e.gainBase, currency, e.trade.date)
  }

  /** The gains of some sales that count as gross, and the ones that count as losses. */
  function Gains(table: Table, year: Year, currency: nat, events: seq<Event>): real {
    if events == [] then 0.0
    else
      var g := GainOf(table, year, currency, events[|events| - 1]);
      Gains(table, year, currency, events[..|events| - 1]) + (if g.Some? then Max(0.0, g.value) else 0.0)
  }

  function Losses(table: Table, year: Year, currency: nat, events: seq<Event>): real {
    if events == [] then 0.0
    else
      var g := GainOf(table, year, currency, events[|events| - 1]);
      Losses(table, year, currency, events[..|events| - 1]) + (if g.Some? then Min(0.0, g.value) else 0.0)
  }

  predicate EventsConvertible(table: Table, year: Year, currency: nat, events: seq<Event>) {
    forall i :: 0 <= i < |events| ==> Convertible(table, year, currency, events[i].trade.date)
  }

  function GainLineOf(table: Table, year: Year, currency: nat, e: Event): GainLine {
    GainLine(e,
             Reporting(table, year, e.netProceedsBase, currency, e.trade.date),
             Reporting(table, year, e.basisBase, currency, e.trade.date),
             GainOf(table, year, currency, e))
  }

  function GainLines(table: Table, year: Year, currency: nat, events: seq<Event>): seq<GainLine> {
    seq(|events|, i requires 0 <= i < |events| => GainLineOf(table, year, currency, events[i]))
  }

  lemma {:induction false} NoEvents(table: Table, year: Year, currency: nat)
    ensures GainLines(table, year, currency, []) == []
    ensures Gains(table, year, currency, []) == 0.0 && Losses(table, year, currency, []) == 0.0
    ensures EventsConvertible(table, year, currency, [])
  {}

  lemma {:induction false} OneMoreEvent(table: Table, year: Year, currency: nat, kept: seq<Event>, e: Event)
    ensures GainLines(table, year, currency, kept + [e])
        == GainLines(table, year, currency, kept) + [GainLineOf(table, year, currency, e)]
    ensures var g := GainOf(table, year, currency, e);
            && Gains(table, year, currency, kept + [e])
               == Gains(table, year, currency, kept) + (if g.Some? then Max(0.0, g.value) else 0.0)
            && Losses(table, year, currency, kept + [e])
               == Losses(table, year, currency, kept) + (if g.Some? then Min(0.0, g.value) else 0.0)
    ensures EventsConvertible(table, year, currency, kept + [e]) <==>
            EventsConvertible(table, year, currency, kept) && Convertible(table, year, currency, e.trade.date)
  {
    hide Reporting, Convertible;
    assert (kept + [e])[..|kept|] == kept;
    assert (kept + [e])[|kept|] == e;
    assert forall j :: 0 <= j < |kept| ==> (kept + [e])[j] == kept[j];
  }

  /** The inner loop: the sales of one account that fall in the year. */
  method AggregateEvents(table: Table, year: Year, currency: nat, events: seq<Event>, reasons: seq<Reason>)
    returns (lines: seq<GainLine>, gains: real, losses: real, noted: seq<Reason>)
    ensures var kept := From(events, year.start);
            && lines == GainLines(table, year, currency, kept)
            && gains == Gains(table, year, currency, kept)
            && losses == Losses(table, year, currency, kept)
            && |reasons| <= |noted|
            && (|noted| == |reasons| <==> EventsConvertible(table, year, currency, kept))
  {
    hide Reporting, Convertible, EventsConvertible, GainLines, Gains, Losses;
    NoEvents(table, year, currency);
    ghost var kept: seq<Event> := [];
    lines, gains, losses, noted := [], 0.0, 0.0, reasons;
    for i := 0 to |events|
      invariant kept == From(events[..i], year.start)
      invariant lines == GainLines(table, year, currency, kept)
      invariant gains == Gains(table, year, currency, kept)
      invariant losses == Losses(table, year, currency, kept)
      invariant |reasons| <= |noted|
      invariant |noted| == |reasons| <==> EventsConvertible(table, year, currency, kept)
    {
      var e := events[i];
      assert events[..i + 1][..i] == events[..i];
      if e.trade.date < year.start {
        continue;
      }
      var proceeds, cost, gain;
      proceeds, noted := ConvertOrNote(table, year, e.netProceedsBase, currency, e.trade.date, noted);
      cost, noted := ConvertOrNote(table, year, e.basisBase, currency, e.trade.date, noted);
      gain, noted := ConvertOrNote(table, year, e.gainBase, currency, e.trade.date, noted);
      lines := lines + [GainLine(e, proceeds, cost, gain)];
      if gain.Some? {
        if gain.value >= 0.0 {
          gains := gains + gain.value;
        } else {
          losses := losses + gain.value;
        }
      }
      OneMoreEvent(table, year, currency, kept, e);
      kept := kept + [e];
    }
    assert events[..|events|] == events;
  }

  function AllGains(c: Context, table: Table, year: Year, accounts: seq<BrokerageAccount>): real {
    if accounts == [] then 0.0
    else
      var last := accounts[|accounts| - 1];
      AllGains(c, table, year, accounts[..|accounts| - 1])
          + Gains(table, year, last.currency, YearEvents(c, year, last))
  }

  function AllLosses(c: Context, table: Table, year: Year, accounts: seq<BrokerageAccount>): real {
    if accounts == [] then 0.0
    else
      var last := accounts[|accounts| - 1];
      AllLosses(c, table, year, accounts[..|accounts| - 1])
          + Losses(table, year, last.currency, YearEvents(c, year, last))
  }

  function AllGainLines(c: Context, table: Table, year: Year, accounts: seq<BrokerageAccount>): seq<GainLine> {
    if accounts == [] then []
    else
      var last := accounts[|accounts| - 1];
      AllGainLines(c, table, year, accounts[..|accounts| - 1])
          + GainLines(table, year, last.currency, YearEvents(c, year, last))
  }

  predicate AccountSound(c: Context, table: Table, year: Year, account: BrokerageAccount) {
    !ReplayFails(c, year, account) && EventsConvertible(table, year, account.currency, YearEvents(c, year, account))
  }

  ghost predicate AccountsSound(c: Context, table: Table, year: Year, accounts: seq<BrokerageAccount>) {
    forall a | a in accounts :: AccountSound(c, table, year, a)
  }

  /** The loop over brokerage accounts: one whose replay raises is noted and skipped. */
  method AggregateGains(c: Context, table: Table, year: Year, accounts: seq<BrokerageAccount>, reasons: seq<Reason>)
    returns (lines: seq<GainLine>, gains: real, losses: real, noted: seq<Reason>)
    ensures lines == AllGainLines(c, table, year, accounts)
    ensures gains == AllGains(c, table, year, accounts)
    ensures losses == AllLosses(c, table, year, accounts)
    ensures |reasons| <= |noted|
    ensures |noted| == |reasons| <==> AccountsSound(c, table, year, accounts)
  {
    hide BookReplay, TradesUpTo, EventsConvertible, GainLines, Gains, Losses, From;
    lines, gains, losses, noted := [], 0.0, 0.0, reasons;
    for i := 0 to |accounts|
      invariant lines == AllGainLines(c, table, year, accounts[..i])
      invariant gains == AllGains(c, table, year, accounts[..i])
      invariant losses == AllLosses(c, table, year, accounts[..i])
      invariant |reasons| <= |noted|
      invariant |noted| == |reasons| <==> forall j :: 0 <= j < i ==> AccountSound(c, table, year, accounts[j])
    {
      var account := accounts[i];
      assert accounts[..i + 1][..i] == accounts[..i];
      var events := CalculateRealizedGainEvents(c, account.history, Some(year.end));
      if events.Err? {
        noted := noted + [NoBasis(events.error)];
        NoEvents(table, year, account.currency);
        continue;
      }
      var more, g, l;
      more, g, l, noted := AggregateEvents(table, year, account.currency, events.value, noted);
      lines, gains, losses := lines + more, gains + g, losses + l;
    }
    assert accounts[..|accounts|] == accounts;
  }
}

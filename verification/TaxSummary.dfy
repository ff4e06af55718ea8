/** The annual summary: manual items and adjustments, the reduction stages, and the verdict on
    completeness (tax/services/aggregation.py, `build_tax_year_summary`). */
module TaxSummary {
  import opened Wrappers
  import opened Decimals
  import Trades
  import opened CostBasis
  import opened ExchangeRates
  import opened TaxTable
  import opened TaxLaws
  import opened TaxSources

  datatype TransactionKind = Income | AdjustmentEntry | GenericDividend | OtherKind

  /** A transaction of the owner; a dividend counts as generic when it has no investment detail. */
  datatype LedgerTransaction = LedgerTransaction(id: nat, kind: TransactionKind, date: int)

  datatype Sources = Sources(
    entries: seq<Entry>,
    investments: seq<Trades.Trade>,
    accounts: seq<BrokerageAccount>,
    allowances: seq<StoredItem>,
    deductions: seq<StoredItem>,
    adjustments: seq<Adjustment>,
    rules: seq<ActiveRule>,
    transactions: seq<LedgerTransaction>)

  datatype Status = INCOMPLETE | NEEDS_REVIEW | COMPLETE

  datatype Review = Unclassified(transaction: LedgerTransaction) | NoFlatRate(category: Category)

  /** The figures shown above the tables. */
  datatype Figures = Figures(
    grossInterest: real, grossDividends: real, gains: real, losses: real, netGain: real,
    deductions: real, allowances: real, taxableIncome: real)

  datatype Summary = Summary(
    categories: seq<Row>,
    interestLines: seq<EntryLine>,
    dividendLines: seq<DividendLine>,
    gainLines: seq<GainLine>,
    paymentLines: seq<EntryLine>,
    figures: Figures,
    withheld: real,
    paid: real,
    liability: real,
    due: real,
    refund: real,
    status: Status,
    reasons: seq<Reason>,
    reviews: seq<Review>)

  // ----- manual allowances and deductions

  /** Allowances have no date of their own and use the first day of the year. */
  function ItemDate(year: Year, item: StoredItem, dated: bool): int {
    if dated then item.date else year.start
  }

  function ItemSum(table: Table, year: Year, items: seq<StoredItem>, dated: bool, target: Target): real {
    if items == [] then 0.0
    else
      var last := items[|items| - 1];
      var x := Reporting(table, year, last.amount, last.currency, ItemDate(year, last, dated));
      ItemSum(table, year, items[..|items| - 1], dated, target)
          + (if last.target == target && x.Some? then x.value else 0.0)
  }

  const ZEROS: map<Target, real> := map[Only(Interest) := 0.0, Only(Dividend) := 0.0, Only(CapitalGain) := 0.0,
                                        Only(EmploymentIncome) := 0.0, Only(OtherIncome) := 0.0, Overall := 0.0]

  ghost predicate Full(totals: map<Target, real>) {
    forall t: Target :: t in totals
  }

  lemma {:induction false} ZerosFull()
    ensures Full(ZEROS) && forall t: Target :: t in ZEROS ==> ZEROS[t] == 0.0
  {
    forall t: Target
      ensures t in ZEROS && ZEROS[t] == 0.0
    {
      match t
      case Overall =>
      case Only(c) =>
        match c {
          case Interest => assert t == Only(Interest);
          case Dividend => assert t == Only(Dividend);
          case CapitalGain => assert t == Only(CapitalGain);
          case EmploymentIncome => assert t == Only(EmploymentIncome);
          case OtherIncome => assert t == Only(OtherIncome);
        }
    }
  }

  lemma {:induction false} NoItems(table: Table, year: Year, dated: bool)
    ensures forall t :: ItemSum(table, year, [], dated, t) == 0.0
  {}

  lemma {:induction false} ItemSumStep(table: Table, year: Year, items: seq<StoredItem>, i: nat, dated: bool,
      target: Target)
    requires i < |items|
    ensures var x := Reporting(table, year, items[i].amount, items[i].currency, ItemDate(year, items[i], dated));
            ItemSum(table, year, items[..i + 1], dated, target)
            == ItemSum(table, year, items[..i], dated, target)
                + (if items[i].target == target && x.Some? then x.value else 0.0)
  {
    assert items[..i + 1][..i] == items[..i];
  }

  lemma {:induction false} ItemSumGrows(table: Table, year: Year, items: seq<StoredItem>, dated: bool, target: Target)
    ensures ItemSum(table, year, items, dated, target) >= 0.0
  {
    if items != [] {
      var last := items[|items| - 1];
      ItemSumGrows(table, year, items[..|items| - 1], dated, target);
      ReportingKeepsSign(table, year, last.amount, last.currency, ItemDate(year, last, dated));
    }
  }

  lemma {:induction false} ReportingKeepsSign(table: Table, year: Year, amount: real, currency: nat, date: int)
    requires amount >= 0.0
    ensures var x := Reporting(table, year, amount, currency, date); x.Some? ==> x.value >= 0.0
  {
    if Reporting(table, year, amount, currency, date).Some? {
      RateIsPositive(table, currency, year.reporting, date);
      TimesMonotone(0.0, amount, GetFxRate(table, currency, year.reporting, date).value);
      assert Times(0.0, GetFxRate(table, currency, year.reporting, date).value) == 0.0;
    }
  }

  ghost predicate ItemsConvertible(table: Table, year: Year, items: seq<StoredItem>, dated: bool) {
    forall m | m in items :: Convertible(table, year, m.currency, ItemDate(year, m, dated))
  }

  method AddItems(table: Table, year: Year, items: seq<StoredItem>, dated: bool, reasons: seq<Reason>)
    returns (totals: map<Target, real>, noted: seq<Reason>)
    ensures Full(totals)
    ensures forall t: Target :: totals[t] == ItemSum(table, year, items, dated, t)
    ensures |reasons| <= |noted|
    ensures |noted| == |reasons| <==> ItemsConvertible(table, year, items, dated)
  {
    hide Reporting, Convertible, ItemSum;
    NoItems(table, year, dated);
    ZerosFull();
    assert items[..0] == [];
    totals, noted := ZEROS, reasons;
    for i := 0 to |items|
      invariant Full(totals)
      invariant forall t: Target :: totals[t] == ItemSum(table, year, items[..i], dated, t)
      invariant |reasons| <= |noted|
      invariant |noted| == |reasons| <==>
                forall j :: 0 <= j < i ==> Convertible(table, year, items[j].currency, ItemDate(year, items[j], dated))
    {
      var item := items[i];
      var converted;
      converted, noted := ConvertOrNote(table, year, item.amount, item.currency, ItemDate(year, item, dated), noted);
      forall t: Target
        ensures ItemSum(table, year, items[..i + 1], dated, t)
             == ItemSum(table, year, items[..i], dated, t)
                 + (if item.target == t && converted.Some? then converted.value else 0.0)
      {
        ItemSumStep(table, year, items, i, dated, t);
      }
      if converted.Some? {
        totals := totals[item.target := totals[item.target] + converted.value];
      }
    }
    assert items[..|items|] == items;
  }

  // ----- adjustments

  /** The total that an adjustment is added to. */
  datatype Slot = Gross(category: Category) | Loss | AllowanceFor(target: Target) | DeductionFor(target: Target)
                | WithheldAt(category: Category) | WithheldOverall | Paid

  function SlotOf(a: Adjustment): Slot {
    var target := if a.appliesTo.Some? then a.appliesTo.value else Overall;
    match a.kind
    case Taxable(c) => Gross(c)
    case CapitalLoss => Loss
    case ToAllowance => AllowanceFor(target)
    case ToDeduction => DeductionFor(target)
    case WithholdingTax => if target.Only? then WithheldAt(target.category) else WithheldOverall
    case TaxPayment => Paid
  }

  /** A taxable adjustment keeps its sign, a loss counts negative, everything else positive. */
  function Share(slot: Slot, converted: real): real {
    match slot
    case Gross(_) => converted
    case Loss => -Abs(converted)
    case _ => Abs(converted)
  }

  function SumInto(table: Table, year: Year, adjustments: seq<Adjustment>, slot: Slot): real {
    if adjustments == [] then 0.0
    else
      var last := adjustments[|adjustments| - 1];
      var x := Reporting(table, year, last.amount, last.currency, last.date);
      SumInto(table, year, adjustments[..|adjustments| - 1], slot)
      + (if SlotOf(last) == slot && x.Some? then Share(slot, x.value) else 0.0)
  }

  lemma {:induction false} SumIntoStep(table: Table, year: Year, adjustments: seq<Adjustment>, i: nat, slot: Slot)
    requires i < |adjustments|
    ensures var a := adjustments[i];
            var x := Reporting(table, year, a.amount, a.currency, a.date);
            SumInto(table, year, adjustments[..i + 1], slot)
            == SumInto(table, year, adjustments[..i], slot)
                + (if SlotOf(a) == slot && x.Some? then Share(slot, x.value) else 0.0)
  {
    assert adjustments[..i + 1][..i] == adjustments[..i];
  }

  lemma {:induction false} SumIntoGrows(table: Table, year: Year, adjustments: seq<Adjustment>, slot: Slot)
    requires !slot.Gross? && !slot.Loss?
    ensures SumInto(table, year, adjustments, slot) >= 0.0
  {
    if adjustments != [] {
      SumIntoGrows(table, year, adjustments[..|adjustments| - 1], slot);
    }
  }

  lemma {:induction false} NoAdjustments(table: Table, year: Year)
    ensures forall slot :: SumInto(table, year, [], slot) == 0.0
  {}

  /** What an adjustment adds to a slot. */
  function Portion(table: Table, year: Year, a: Adjustment, slot: Slot): real {
    var x := Reporting(table, year, a.amount, a.currency, a.date);
    if SlotOf(a) == slot && x.Some? then Share(slot, x.value) else 0.0
  }

  /** A row with amounts added to its gross, losses and withholding. */
  function Bumped(r: Row, gross: real, losses: real, withheld: real): Row {
    r.(gross := r.gross + gross, losses := r.losses + losses, withholding := r.withholding + withheld)
  }

  /** A row with the adjustments added that belong to its category. */
  function Adjusted(table: Table, year: Year, adjustments: seq<Adjustment>, r: Row, c: Category): Row {
    Bumped(r,
           SumInto(table, year, adjustments, Gross(c)),
           if c == CapitalGain then SumInto(table, year, adjustments, Loss) else 0.0,
           SumInto(table, year, adjustments, WithheldAt(c)))
  }

  /** One pass of the loop: the adjustment is added to one slot and to nothing else. */
  method AddAdjustment(table: Table, year: Year, a: Adjustment, rows: array<Row>, allowances0: map<Target, real>,
                       deductions0: map<Target, real>, withheld0: real, paid0: real, reasons: seq<Reason>)
    returns (allowances: map<Target, real>, deductions: map<Target, real>, withheld: real, paid: real,
        noted: seq<Reason>)
    requires rows.Length == 5 && Full(allowances0) && Full(deductions0)
    modifies rows
    ensures forall i: nat :: i < 5 ==>
              rows[i] == Bumped(old(rows[i]), Portion(table, year, a, Gross(ORDER[i])),
                                if i == 2 then Portion(table, year, a, Loss) else 0.0,
                                Portion(table, year, a, WithheldAt(ORDER[i])))
    ensures Full(allowances) && Full(deductions)
    ensures forall t: Target ::
              allowances[t] == allowances0[t] + Portion(table, year, a, AllowanceFor(t))
    ensures forall t: Target ::
              deductions[t] == deductions0[t] + Portion(table, year, a, DeductionFor(t))
    ensures withheld == withheld0 + Portion(table, year, a, WithheldOverall)
    ensures paid == paid0 + Portion(table, year, a, Paid)
    ensures |reasons| <= |noted|
    ensures |noted| == |reasons| <==> Convertible(table, year, a.currency, a.date)
  {
    PortionsAre(table, year, a);
    hide Reporting, Convertible, Portion, Abs;
    allowances, deductions, withheld, paid := allowances0, deductions0, withheld0, paid0;
    var converted;
    converted, noted := ConvertOrNote(table, year, a.amount, a.currency, a.date, reasons);
    if converted.None? {
      return;
    }
    var x := converted.value;
    var target := if a.appliesTo.Some? then a.appliesTo.value else Overall;
    RowPortions(table, year, a, x, target);
    match a.kind {
      case Taxable(c) =>
        var row := rows[Index(c)];
        rows[Index(c)] := row.(gross := row.gross + x);
      case CapitalLoss =>
        var row := rows[Index(CapitalGain)];
        rows[Index(CapitalGain)] := row.(losses := row.losses - Abs(x));
      case ToAllowance =>
        allowances := allowances[target := allowances[target] + Abs(x)];
      case ToDeduction =>
        deductions := deductions[target := deductions[target] + Abs(x)];
      case WithholdingTax =>
        if target.Only? {
          var row := rows[Index(target.category)];
          rows[Index(target.category)] := row.(withholding := row.withholding + Abs(x));
        } else {
          withheld := withheld + Abs(x);
        }
      case TaxPayment =>
        paid := paid + Abs(x);
    }
  }

  ghost predicate AdjustmentsConvertible(table: Table, year: Year, adjustments: seq<Adjustment>) {
    forall a | a in adjustments :: Convertible(table, year, a.currency, a.date)
  }

  /** The loop over adjustments. */
  method AddAdjustments(table: Table, year: Year, adjustments: seq<Adjustment>, rows: array<Row>,
                        allowances0: map<Target, real>, deductions0: map<Target, real>, paid0: real,
                        reasons: seq<Reason>)
    returns (allowances: map<Target, real>, deductions: map<Target, real>, withheld: real, paid: real,
        noted: seq<Reason>)
    requires rows.Length == 5 && Full(allowances0) && Full(deductions0)
    modifies rows
    ensures forall i: nat :: i < 5 ==> rows[i] == Adjusted(table, year, adjustments, old(rows[i]), ORDER[i])
    ensures Full(allowances) && Full(deductions)
    ensures forall t: Target ::
              allowances[t] == allowances0[t] + SumInto(table, year, adjustments, AllowanceFor(t))
    ensures forall t: Target ::
              deductions[t] == deductions0[t] + SumInto(table, year, adjustments, DeductionFor(t))
    ensures withheld == SumInto(table, year, adjustments, WithheldOverall)
    ensures paid == paid0 + SumInto(table, year, adjustments, Paid)
    ensures |reasons| <= |noted|
    ensures |noted| == |reasons| <==> AdjustmentsConvertible(table, year, adjustments)
  {
    hide Convertible, SumInto, Portion;
    NoAdjustments(table, year);
    assert adjustments[..0] == [];
    allowances, deductions, withheld, paid, noted := allowances0, deductions0, 0.0, paid0, reasons;
    for n := 0 to |adjustments|
      invariant forall i: nat :: i < 5 ==> rows[i] == Adjusted(table, year, adjustments[..n], old(rows[i]), ORDER[i])
      invariant Full(allowances) && Full(deductions)
      invariant forall t: Target ::
                  allowances[t] == allowances0[t] + SumInto(table, year, adjustments[..n], AllowanceFor(t))
      invariant forall t: Target ::
                  deductions[t] == deductions0[t] + SumInto(table, year, adjustments[..n], DeductionFor(t))
      invariant withheld == SumInto(table, year, adjustments[..n], WithheldOverall)
      invariant paid == paid0 + SumInto(table, year, adjustments[..n], Paid)
      invariant |reasons| <= |noted|
      invariant |noted| == |reasons| <==>
                forall j :: 0 <= j < n ==> Convertible(table, year, adjustments[j].currency, adjustments[j].date)
    {
      forall slot: Slot
        ensures SumInto(table, year, adjustments[..n + 1], slot)
             == SumInto(table, year, adjustments[..n], slot) + Portion(table, year, adjustments[n], slot)
      {
        SumIntoStep(table, year, adjustments, n, slot);
        PortionIs(table, year, adjustments[n], slot);
      }
      allowances, deductions, withheld, paid, noted :=
        AddAdjustment(table, year, adjustments[n], rows, allowances, deductions, withheld, paid, noted);
    }
    assert adjustments[..|adjustments|] == adjustments;
  }

  lemma {:induction false} PortionsAre(table: Table, year: Year, a: Adjustment)
    ensures var x := Reporting(table, year, a.amount, a.currency, a.date);
            forall slot ::
              Portion(table, year, a, slot) == if SlotOf(a) == slot && x.Some? then Share(slot, x.value) else 0.0
  {}

  /** Which row an adjustment goes to, if any. */
  lemma {:induction false} RowPortions(table: Table, year: Year, a: Adjustment, x: real, target: Target)
    requires Reporting(table, year, a.amount, a.currency, a.date) == Some(x)
    requires target == if a.appliesTo.Some? then a.appliesTo.value else Overall
    ensures forall i: nat | i < 5 ::
              Portion(table, year, a, Gross(ORDER[i]))
              == if a.kind.Taxable? && i == Index(a.kind.category) then x else 0.0
    ensures Portion(table, year, a, Loss) == if a.kind.CapitalLoss? then -Abs(x) else 0.0
    ensures forall i: nat | i < 5 ::
              Portion(table, year, a, WithheldAt(ORDER[i]))
              == if a.kind.WithholdingTax? && target.Only? && i == Index(target.category) then Abs(x) else 0.0
  {}

  lemma {:induction false} PortionIs(table: Table, year: Year, a: Adjustment, slot: Slot)
    ensures var x := Reporting(table, year, a.amount, a.currency, a.date);
            Portion(table, year, a, slot) == if SlotOf(a) == slot && x.Some? then Share(slot, x.value) else 0.0
  {}

  // ----- what goes into the estimate

  function InterestEntries(year: Year, src: Sources): seq<Entry> { EntriesOf(year, src.entries, InterestEntry) }

  function TaxEntries(year: Year, src: Sources): seq<Entry> { EntriesOf(year, src.entries, TaxEntry) }

  /** The events of each category: interest received, gross dividends, realized gains. */
  function EventRow(c: Context, table: Table, year: Year, src: Sources, category: Category): Row {
    var empty := Row(0.0, 0.0, 0.0, 0.0, 0.0, 0.0, 0.0, []);
    match category
    case Interest => empty.(gross := SumKnown(EntryConversions(table, year, InterestEntries(year, src))))
    case Dividend =>
      var items := DividendsOf(year, src.investments);
      empty.(gross := SumKnown(DividendGross(table, year, items)),
             withholding := SumKnown(DividendWithheld(table, year, items)))
    case CapitalGain =>
      empty.(gross := AllGains(c, table, year, src.accounts), losses := AllLosses(c, table, year, src.accounts))
    case _ => empty
  }

  /** The table of rows before any reduction. */
  function RawRows(c: Context, table: Table, year: Year, src: Sources): (r: seq<Row>)
    ensures |r| == 5
  {
    seq(5, i requires 0 <= i < 5 =>
      Adjusted(table, year, src.adjustments, EventRow(c, table, year, src, ORDER[i]), ORDER[i]))
  }

  function AllowanceTotal(table: Table, year: Year, src: Sources, t: Target): real {
    ItemSum(table, year, src.allowances, false, t) + SumInto(table, year, src.adjustments, AllowanceFor(t))
  }

  function DeductionTotal(table: Table, year: Year, src: Sources, t: Target): real {
    ItemSum(table, year, src.deductions, true, t) + SumInto(table, year, src.adjustments, DeductionFor(t))
  }

  function Amounts(table: Table, year: Year, src: Sources): ManualAmounts {
    ManualAmounts(
      seq(5, i requires 0 <= i < 5 => AllowanceTotal(table, year, src, Only(ORDER[i]))),
      seq(5, i requires 0 <= i < 5 => DeductionTotal(table, year, src, Only(ORDER[i]))),
      AllowanceTotal(table, year, src, Overall),
      DeductionTotal(table, year, src, Overall))
  }

  lemma {:induction false} AmountsValid(table: Table, year: Year, src: Sources)
    ensures Amounts(table, year, src).Valid()
  {
    forall t: Target
      ensures AllowanceTotal(table, year, src, t) >= 0.0 && DeductionTotal(table, year, src, t) >= 0.0
    {
      ItemSumGrows(table, year, src.allowances, false, t);
      ItemSumGrows(table, year, src.deductions, true, t);
      SumIntoGrows(table, year, src.adjustments, AllowanceFor(t));
      SumIntoGrows(table, year, src.adjustments, DeductionFor(t));
    }
  }

  lemma {:induction false} RawRowsAreRaw(c: Context, table: Table, year: Year, src: Sources)
    ensures forall i: nat :: i < 5 ==> Raw(RawRows(c, table, year, src)[i])
  {}

  // ----- the verdict

  /** Nothing the year needs is missing: every conversion has a rate and every brokerage history replays. */
  ghost predicate NothingMissing(c: Context, table: Table, year: Year, src: Sources) {
    && EntriesConvertible(table, year, InterestEntries(year, src))
    && DividendsConvertible(table, year, DividendsOf(year, src.investments))
    && AccountsSound(c, table, year, src.accounts)
    && EntriesConvertible(table, year, TaxEntries(year, src))
    && ItemsConvertible(table, year, src.allowances, false)
    && ItemsConvertible(table, year, src.deductions, true)
    && AdjustmentsConvertible(table, year, src.adjustments)
  }

  predicate IsUnclassified(year: Year, t: LedgerTransaction) {
    t.kind != OtherKind && year.Covers(t.date)
  }

  function WithheldTotal(rows: seq<Row>): real {
    if rows == [] then 0.0 else WithheldTotal(rows[..|rows| - 1]) + rows[|rows| - 1].withholding
  }

  function DeductionsTotal(rows: seq<Row>): real {
    if rows == [] then 0.0 else DeductionsTotal(rows[..|rows| - 1]) + rows[|rows| - 1].deductions
  }

  function AllowancesTotal(rows: seq<Row>): real {
    if rows == [] then 0.0 else AllowancesTotal(rows[..|rows| - 1]) + rows[|rows| - 1].allowances
  }

  predicate AreFigures(rows: seq<Row>, f: Figures)
    requires |rows| == 5
  {
    && f.grossInterest == rows[0].gross && f.grossDividends == rows[1].gross
    && f.gains == rows[2].gross && f.losses == rows[2].losses && f.netGain == f.gains + f.losses
    && f.deductions == DeductionsTotal(rows) && f.allowances == AllowancesTotal(rows)
    && f.taxableIncome == rows[0].gross + rows[1].gross + rows[3].gross + rows[4].gross
  }

  /** What a summary says, field by field. */
  ghost predicate IsSummary(c: Context, table: Table, year: Year, src: Sources, s: Summary) {
    && Amounts(table, year, src).Valid()
    && s.categories == Estimate(RawRows(c, table, year, src), Amounts(table, year, src), src.rules)
    && EntryLinesFor(table, year, InterestEntries(year, src), s.interestLines)
    && DividendLinesFor(table, year, DividendsOf(year, src.investments), s.dividendLines)
    && s.gainLines == AllGainLines(c, table, year, src.accounts)
    && EntryLinesFor(table, year, TaxEntries(year, src), s.paymentLines)
    && AreFigures(s.categories, s.figures)
    && s.withheld == WithheldTotal(s.categories) + SumInto(table, year, src.adjustments, WithheldOverall)
    && s.paid == SumKnown(EntryConversions(table, year, TaxEntries(year, src)))
        + SumInto(table, year, src.adjustments, Paid)
    && s.liability == Liability(s.categories)
    && s.due == Max(0.0, s.liability - s.withheld - s.paid)
    && s.refund == Max(0.0, -(s.liability - s.withheld - s.paid))
    && (s.reasons == [] <==> NothingMissing(c, table, year, src))
    && (s.reviews == [] <==>
          && (forall t | t in src.transactions :: !IsUnclassified(year, t))
          && (forall i :: 0 <= i < 5 ==> s.categories[i].taxable > 0.0 ==> HasFlatTrace(s.categories[i])))
    && s.status == if s.reasons != [] then INCOMPLETE else if s.reviews != [] then NEEDS_REVIEW else COMPLETE
  }

  lemma {:induction false} EntriesNonZero(year: Year, entries: seq<Entry>, kind: EntryKind)
    ensures forall e | e in EntriesOf(year, entries, kind) :: e.amount != 0.0
  {
    if entries != [] {
      EntriesNonZero(year, entries[..|entries| - 1], kind);
    }
  }

  method Reviews(year: Year, transactions: seq<LedgerTransaction>, rows: array<Row>) returns (reviews: seq<Review>)
    requires rows.Length == 5
    ensures reviews == [] <==>
            && (forall t | t in transactions :: !IsUnclassified(year, t))
            && (forall i :: 0 <= i < 5 ==> rows[i].taxable > 0.0 ==> HasFlatTrace(rows[i]))
  {
    reviews := [];
    for i := 0 to |transactions|
      invariant reviews == [] <==> forall j :: 0 <= j < i ==> !IsUnclassified(year, transactions[j])
    {
      if IsUnclassified(year, transactions[i]) {
        reviews := reviews + [Unclassified(transactions[i])];
      }
    }
    for i := 0 to 5
      invariant reviews == [] <==>
                && (forall t | t in transactions :: !IsUnclassified(year, t))
                && (forall j :: 0 <= j < i ==> rows[j].taxable > 0.0 ==> HasFlatTrace(rows[j]))
    {
      if rows[i].taxable > 0.0 && !HasFlatTrace(rows[i]) {
        reviews := reviews + [NoFlatRate(ORDER[i])];
      }
    }
  }

  method Totals(rows: array<Row>) returns (withheld: real, liability: real, figures: Figures)
    requires rows.Length == 5
    ensures withheld == WithheldTotal(rows[..]) && liability == Liability(rows[..])
    ensures AreFigures(rows[..], figures)
  {
    withheld, liability := 0.0, 0.0;
    var deductions, allowances := 0.0, 0.0;
    for i := 0 to rows.Length
      invariant withheld == WithheldTotal(rows[..i]) && liability == Liability(rows[..i])
      invariant deductions == DeductionsTotal(rows[..i]) && allowances == AllowancesTotal(rows[..i])
    {
      assert rows[..i + 1][..i] == rows[..i];
      withheld, liability := withheld + rows[i].withholding, liability + rows[i].tax;
      deductions, allowances := deductions + rows[i].deductions, allowances + rows[i].allowances;
    }
    assert rows[..rows.Length] == rows[..];
    figures := Figures(rows[0].gross, rows[1].gross, rows[2].gross, rows[2].losses, rows[2].gross + rows[2].losses,
                       deductions, allowances, rows[0].gross + rows[1].gross + rows[3].gross + rows[4].gross);
  }

  /** The loops over actual events: the rows as the events fill them, and the lines. */
  method AggregateActual(c: Context, table: Table, year: Year, src: Sources)
    returns (rows: array<Row>, paid: real, interest: seq<EntryLine>, dividends: seq<DividendLine>,
             gains: seq<GainLine>, payments: seq<EntryLine>, reasons: seq<Reason>)
    ensures fresh(rows) && rows.Length == 5
    ensures forall i: nat :: i < 5 ==> rows[i] == EventRow(c, table, year, src, ORDER[i])
    ensures paid == SumKnown(EntryConversions(table, year, TaxEntries(year, src)))
    ensures EntryLinesFor(table, year, InterestEntries(year, src), interest)
    ensures DividendLinesFor(table, year, DividendsOf(year, src.investments), dividends)
    ensures gains == AllGainLines(c, table, year, src.accounts)
    ensures EntryLinesFor(table, year, TaxEntries(year, src), payments)
    ensures reasons == [] <==>
            && EntriesConvertible(table, year, InterestEntries(year, src))
            && DividendsConvertible(table, year, DividendsOf(year, src.investments))
            && AccountsSound(c, table, year, src.accounts)
            && EntriesConvertible(table, year, TaxEntries(year, src))
  {
    EntriesNonZero(year, src.entries, InterestEntry);
    EntriesNonZero(year, src.entries, TaxEntry);
    hide SumKnown, EntryConversions, DividendGross, DividendWithheld, EntriesOf, DividendsOf,
      AllGains, AllLosses, AllGainLines, EntryLinesFor, DividendLinesFor, EntriesConvertible, DividendsConvertible,
      AccountsSound;
    var empty := Row(0.0, 0.0, 0.0, 0.0, 0.0, 0.0, 0.0, []);
    rows := new Row[5](_ => empty);
    var total, held, losses;
    interest, total, reasons := AggregateEntries(table, year, EntriesOf(year, src.entries, InterestEntry), []);
    rows[0] := empty.(gross := total);
    dividends, total, held, reasons := AggregateDividends(table, year, DividendsOf(year, src.investments), reasons);
    rows[1] := empty.(gross := total, withholding := held);
    gains, total, losses, reasons := AggregateGains(c, table, year, src.accounts, reasons);
    rows[2] := empty.(gross := total, losses := losses);
    payments, paid, reasons := AggregateEntries(table, year, EntriesOf(year, src.entries, TaxEntry), reasons);
  }

  /** The loops over manual items and adjustments. */
  method AggregateManual(c: Context, table: Table, year: Year, src: Sources, rows: array<Row>, paid0: real,
      reasons0: seq<Reason>)
    returns (m: ManualAmounts, withheld: real, paid: real, reasons: seq<Reason>)
    requires rows.Length == 5
    requires forall i: nat :: i < 5 ==> rows[i] == EventRow(c, table, year, src, ORDER[i])
    modifies rows
    ensures rows[..] == RawRows(c, table, year, src)
    ensures m == Amounts(table, year, src) && m.Valid()
    ensures withheld == SumInto(table, year, src.adjustments, WithheldOverall)
    ensures paid == paid0 + SumInto(table, year, src.adjustments, Paid)
    ensures |reasons0| <= |reasons|
    ensures |reasons| == |reasons0| <==>
            && ItemsConvertible(table, year, src.allowances, false)
            && ItemsConvertible(table, year, src.deductions, true)
            && AdjustmentsConvertible(table, year, src.adjustments)
  {
    AmountsValid(table, year, src);
    hide EventRow, Adjusted, ItemSum, SumInto, ItemsConvertible, AdjustmentsConvertible;
    var allowances, deductions;
    allowances, reasons := AddItems(table, year, src.allowances, false, reasons0);
    deductions, reasons := AddItems(table, year, src.deductions, true, reasons);
    allowances, deductions, withheld, paid, reasons :=
      AddAdjustments(table, year, src.adjustments, rows, allowances, deductions, paid0, reasons);
    m := ManualAmounts(
      seq(5, i requires 0 <= i < 5 => allowances[Only(ORDER[i])]),
      seq(5, i requires 0 <= i < 5 => deductions[Only(ORDER[i])]),
      allowances[Overall], deductions[Overall]);
  }

  /** `build_tax_year_summary`. */
  method BuildTaxYearSummary(c: Context, table: Table, year: Year, src: Sources) returns (s: Summary)
    ensures IsSummary(c, table, year, src, s)
    ensures s.status == INCOMPLETE <==> !NothingMissing(c, table, year, src)
  {
    hide Estimate, RawRows, Amounts, SumInto, SumKnown, EntryConversions, EntriesOf, DividendsOf, AllGainLines,
      EntriesConvertible,
      DividendsConvertible, AccountsSound, ItemsConvertible, AdjustmentsConvertible, EntryLinesFor,
      DividendLinesFor, IsUnclassified, HasFlatTrace, WithheldTotal, Liability, AreFigures;
    var rows, paid, interest, dividends, gains, payments, reasons := AggregateActual(c, table, year, src);
    var m, withheld;
    m, withheld, paid, reasons := AggregateManual(c, table, year, src, rows, paid, reasons);
    ApplyAllStages(rows, m, src.rules);
    var reviews := Reviews(year, src.transactions, rows);
    var held, liability, figures := Totals(rows);
    var due := liability - (held + withheld) - paid;
    s := Summary(rows[..], interest, dividends, gains, payments, figures, held + withheld, paid, liability,
                 Max(0.0, due), Max(0.0, -due),
                 if reasons != [] then INCOMPLETE else if reviews != [] then NEEDS_REVIEW else COMPLETE,
                 reasons, reviews);
  }

  // ----- what the verdict means

  lemma {:induction false} AllGainLinesKnown(c: Context, table: Table, year: Year, accounts: seq<BrokerageAccount>)
    requires forall a | a in accounts :: AccountSound(c, table, year, a)
    ensures forall l | l in AllGainLines(c, table, year, accounts) :: l.proceeds.Some? && l.cost.Some? && l.gain.Some?
  {
    if accounts != [] {
      var last := accounts[|accounts| - 1];
      AllGainLinesKnown(c, table, year, accounts[..|accounts| - 1]);
      var events := YearEvents(c, year, last);
      assert AccountSound(c, table, year, last);
      forall i | 0 <= i < |events|
        ensures var l := GainLineOf(table, year, last.currency, events[i]);
                l.proceeds.Some? && l.cost.Some? && l.gain.Some?
      {
        assert Convertible(table, year, last.currency, events[i].trade.date);
      }
    }
  }

  /** A complete summary has every line converted, every manual item convertible, no account skipped,
      nothing unclassified, and a flat-rate rule on every category with a taxable amount. */
  lemma {:induction false} CompleteMeans(c: Context, table: Table, year: Year, src: Sources, s: Summary)
    requires IsSummary(c, table, year, src, s) && s.status == COMPLETE
    ensures forall l | l in s.interestLines :: l.reporting.Some?
    ensures forall l | l in s.paymentLines :: l.reporting.Some?
    ensures forall l | l in s.dividendLines :: l.gross.Some? && l.withheld.Some? && l.net.Some?
    ensures forall l | l in s.gainLines :: l.proceeds.Some? && l.cost.Some? && l.gain.Some?
    ensures forall a | a in src.accounts :: !ReplayFails(c, year, a)
    ensures ItemsConvertible(table, year, src.allowances, false) && ItemsConvertible(table, year, src.deductions, true)
    ensures AdjustmentsConvertible(table, year, src.adjustments)
    ensures forall t | t in src.transactions :: !IsUnclassified(year, t)
    ensures forall i: nat :: i < 5 && s.categories[i].taxable > 0.0 ==> Covered(src.rules, i)
  {
    RawRowsAreRaw(c, table, year, src);
    forall i: nat | i < 5 && s.categories[i].taxable > 0.0
      ensures Covered(src.rules, i)
    {
      FlatTraceIff(RawRows(c, table, year, src), Amounts(table, year, src), src.rules, i);
    }
    hide Estimate, Amounts, RawRows, EntryLinesFor, DividendLinesFor, EntriesConvertible, DividendsConvertible,
      SumInto, SumKnown, EntryConversions, EntriesOf, DividendsOf, ItemsConvertible, AdjustmentsConvertible,
      AllGainLines, Covered, IsUnclassified,
      HasFlatTrace, WithheldTotal, Liability;
    EntryLinesKnown(table, year, InterestEntries(year, src), s.interestLines);
    EntryLinesKnown(table, year, TaxEntries(year, src), s.paymentLines);
    DividendLinesKnown(table, year, DividendsOf(year, src.investments), s.dividendLines);
    AllGainLinesKnown(c, table, year, src.accounts);
  }

  /** The converted amounts of some lines, added up. */
  function LineTotal(lines: seq<EntryLine>): real {
    if lines == [] then 0.0
    else
      var last := lines[|lines| - 1].reporting;
      LineTotal(lines[..|lines| - 1]) + (if last.Some? then last.value else 0.0)
  }

  function GainLineTotal(lines: seq<GainLine>): real {
    if lines == [] then 0.0
    else
      var last := lines[|lines| - 1].gain;
      GainLineTotal(lines[..|lines| - 1]) + (if last.Some? then last.value else 0.0)
  }

  lemma {:induction false} LineTotalIs(table: Table, year: Year, entries: seq<Entry>, lines: seq<EntryLine>)
    requires EntryLinesFor(table, year, entries, lines)
    ensures LineTotal(lines) == SumKnown(EntryConversions(table, year, entries))
  {
    hide Reporting;
    if lines != [] {
      var n := |lines| - 1;
      assert EntryConversions(table, year, entries)[..n] == EntryConversions(table, year, entries[..n]);
      LineTotalIs(table, year, entries[..n], lines[..n]);
    }
  }

  lemma {:induction false} GainLineTotalConcat(a: seq<GainLine>, b: seq<GainLine>)
    ensures GainLineTotal(a + b) == GainLineTotal(a) + GainLineTotal(b)
  {
    if b == [] {
      assert a + b == a;
    } else {
      GainLineTotalConcat(a, b[..|b| - 1]);
      assert (a + b)[..|a + b| - 1] == a + b[..|b| - 1];
    }
  }

  lemma {:induction false} GainLinesAddUp(table: Table, year: Year, currency: nat, events: seq<Event>)
    ensures GainLineTotal(GainLines(table, year, currency, events)) ==
        Gains(table, year, currency, events) + Losses(table, year, currency, events)
    ensures Gains(table, year, currency, events) >= 0.0 >= Losses(table, year, currency, events)
  {
    hide Reporting;
    if events != [] {
      var n := |events| - 1;
      GainLinesAddUp(table, year, currency, events[..n]);
      assert GainLines(table, year, currency, events)[..n] == GainLines(table, year, currency, events[..n]);
    }
  }

  lemma {:induction false} AllGainLinesAddUp(c: Context, table: Table, year: Year, accounts: seq<BrokerageAccount>)
    ensures GainLineTotal(AllGainLines(c, table, year, accounts)) ==
        AllGains(c, table, year, accounts) + AllLosses(c, table, year, accounts)
    ensures AllGains(c, table, year, accounts) >= 0.0 >= AllLosses(c, table, year, accounts)
  {
    if accounts != [] {
      var last := accounts[|accounts| - 1];
      AllGainLinesAddUp(c, table, year, accounts[..|accounts| - 1]);
      GainLinesAddUp(table, year, last.currency, YearEvents(c, year, last));
      GainLineTotalConcat(AllGainLines(c, table, year, accounts[..|accounts| - 1]),
                          GainLines(table, year, last.currency, YearEvents(c, year, last)));
      hide GainLineTotal, GainLines, Gains, Losses, YearEvents;
    }
  }

  function GrossLineTotal(lines: seq<DividendLine>): real {
    if lines == [] then 0.0
    else
      var last := lines[|lines| - 1].gross;
      GrossLineTotal(lines[..|lines| - 1]) + (if last.Some? then last.value else 0.0)
  }

  function WithheldLineTotal(lines: seq<DividendLine>): real {
    if lines == [] then 0.0
    else
      var withheld := lines[|lines| - 1].withheld;
      WithheldLineTotal(lines[..|lines| - 1]) + (if withheld.Some? then withheld.value else 0.0)
  }

  lemma {:induction false} DividendLinesAddUp(table: Table, year: Year, items: seq<Trades.Trade>,
      lines: seq<DividendLine>)
    requires DividendLinesFor(table, year, items, lines)
    ensures GrossLineTotal(lines) == SumKnown(DividendGross(table, year, items))
    ensures WithheldLineTotal(lines) == SumKnown(DividendWithheld(table, year, items))
  {
    hide ReportingInvestment, DividendNet;
    if lines != [] {
      var n := |lines| - 1;
      assert DividendGross(table, year, items)[..n] == DividendGross(table, year, items[..n]);
      assert DividendWithheld(table, year, items)[..n] == DividendWithheld(table, year, items[..n]);
      DividendLinesAddUp(table, year, items[..n], lines[..n]);
    }
  }

  /** What a category received and had withheld is what its events and adjustments come to. */
  ghost predicate Received(c: Context, table: Table, year: Year, src: Sources, r: Row, i: nat)
    requires i < 5
  {
    var row, x := EventRow(c, table, year, src, ORDER[i]), src.adjustments;
    && r.gross == row.gross + SumInto(table, year, x, Gross(ORDER[i]))
    && r.losses == row.losses + (if i == 2 then SumInto(table, year, x, Loss) else 0.0)
    && r.withholding == row.withholding + SumInto(table, year, x, WithheldAt(ORDER[i]))
  }

  /** The estimate leaves it as aggregation left it. */
  lemma {:induction false} EstimateKeepsReceipts(c: Context, table: Table, year: Year, src: Sources,
      rows: seq<Row>, i: nat)
    requires Amounts(table, year, src).Valid() && i < 5
    requires rows == Estimate(RawRows(c, table, year, src), Amounts(table, year, src), src.rules)
    ensures Received(c, table, year, src, rows[i], i)
  {
    RawRowsAreRaw(c, table, year, src);
    hide Estimate, Amounts, EventRow, Raw, SumInto;
    AuditConservation(RawRows(c, table, year, src), Amounts(table, year, src), src.rules, i);
  }

  lemma {:induction false} InterestAddsUp(c: Context, table: Table, year: Year, src: Sources, r: Row,
      lines: seq<EntryLine>)
    requires Received(c, table, year, src, r, 0) && EntryLinesFor(table, year, InterestEntries(year, src), lines)
    ensures r.gross == LineTotal(lines) + SumInto(table, year, src.adjustments, Gross(Interest)) && r.losses == 0.0
    ensures r.withholding == SumInto(table, year, src.adjustments, WithheldAt(Interest))
  {
    hide SumInto, SumKnown, EntryConversions, LineTotal, EntryLinesFor;
    LineTotalIs(table, year, InterestEntries(year, src), lines);
  }

  lemma {:induction false} DividendsAddUp(c: Context, table: Table, year: Year, src: Sources, r: Row,
      lines: seq<DividendLine>)
    requires Received(c, table, year, src, r, 1)
        && DividendLinesFor(table, year, DividendsOf(year, src.investments), lines)
    ensures r.gross == GrossLineTotal(lines) + SumInto(table, year, src.adjustments, Gross(Dividend)) && r.losses == 0.0
    ensures r.withholding == WithheldLineTotal(lines) + SumInto(table, year, src.adjustments, WithheldAt(Dividend))
  {
    hide SumInto, SumKnown, DividendGross, DividendWithheld, GrossLineTotal, WithheldLineTotal, DividendLinesFor,
        DividendsOf;
    DividendLinesAddUp(table, year, DividendsOf(year, src.investments), lines);
  }

  lemma {:induction false} GainsAddUp(c: Context, table: Table, year: Year, src: Sources, r: Row)
    requires Received(c, table, year, src, r, 2)
    ensures r.gross + r.losses
         == GainLineTotal(AllGainLines(c, table, year, src.accounts))
            + SumInto(table, year, src.adjustments, Gross(CapitalGain)) + SumInto(table, year, src.adjustments, Loss)
    ensures r.gross >= SumInto(table, year, src.adjustments, Gross(CapitalGain))
    ensures r.losses <= SumInto(table, year, src.adjustments, Loss)
    ensures r.withholding == SumInto(table, year, src.adjustments, WithheldAt(CapitalGain))
  {
    hide SumInto, AllGains, AllLosses, AllGainLines, GainLineTotal;
    AllGainLinesAddUp(c, table, year, src.accounts);
  }

  lemma {:induction false} OthersAddUp(c: Context, table: Table, year: Year, src: Sources, r: Row, i: nat)
    requires 3 <= i < 5 && Received(c, table, year, src, r, i)
    ensures r.gross == SumInto(table, year, src.adjustments, Gross(ORDER[i])) && r.losses == 0.0
    ensures r.withholding == SumInto(table, year, src.adjustments, WithheldAt(ORDER[i]))
  {
    hide SumInto;
  }

  /** The figures of the categories are those of the lines shown, with adjustments on top: interest, gross
      dividends and the tax withheld on them, net realized gain (its gains and losses kept apart by sign) and
      tax paid are the lines added up, and the other categories have adjustments only. */
  lemma {:induction false} LinesAddUp(c: Context, table: Table, year: Year, src: Sources, s: Summary)
    requires IsSummary(c, table, year, src, s)
    ensures |s.categories| == 5
    ensures var r, x := s.categories[0], src.adjustments;
            && r.gross == LineTotal(s.interestLines) + SumInto(table, year, x, Gross(Interest)) && r.losses == 0.0
            && r.withholding == SumInto(table, year, x, WithheldAt(Interest))
    ensures var r, x := s.categories[1], src.adjustments;
            && r.gross == GrossLineTotal(s.dividendLines) + SumInto(table, year, x, Gross(Dividend)) && r.losses == 0.0
            && r.withholding == WithheldLineTotal(s.dividendLines) + SumInto(table, year, x, WithheldAt(Dividend))
    ensures var r, x := s.categories[2], src.adjustments;
            && r.gross + r.losses == GainLineTotal(s.gainLines) + SumInto(table, year, x, Gross(CapitalGain))
                                     + SumInto(table, year, x, Loss)
            && r.gross >= SumInto(table, year, x, Gross(CapitalGain)) && r.losses <= SumInto(table, year, x, Loss)
            && r.withholding == SumInto(table, year, x, WithheldAt(CapitalGain))
    ensures forall i: nat | i == 3 || i == 4 ::
              var r, x := s.categories[i], src.adjustments;
              && r.gross == SumInto(table, year, x, Gross(ORDER[i])) && r.losses == 0.0
              && r.withholding == SumInto(table, year, x, WithheldAt(ORDER[i]))
    ensures s.paid == LineTotal(s.paymentLines) + SumInto(table, year, src.adjustments, Paid)
  {
    assert |s.categories| == 5;
    hide SumInto, SumKnown, EntryConversions, AllGainLines, LineTotal, GainLineTotal, GrossLineTotal, WithheldLineTotal,
      Estimate, Amounts, EntryLinesFor, DividendLinesFor, NothingMissing, HasFlatTrace, IsUnclassified, WithheldTotal,
      Liability, AreFigures, RawRows, Received;
    LineTotalIs(table, year, TaxEntries(year, src), s.paymentLines);
    forall i: nat | i < 5
      ensures Received(c, table, year, src, s.categories[i], i)
    {
      EstimateKeepsReceipts(c, table, year, src, s.categories, i);
    }
    InterestAddsUp(c, table, year, src, s.categories[0], s.interestLines);
    DividendsAddUp(c, table, year, src, s.categories[1], s.dividendLines);
    GainsAddUp(c, table, year, src, s.categories[2]);
    OthersAddUp(c, table, year, src, s.categories[3], 3);
    OthersAddUp(c, table, year, src, s.categories[4], 4);
  }

  function TaxableTotal(rows: seq<Row>): real {
    if rows == [] then 0.0 else TaxableTotal(rows[..|rows| - 1]) + rows[|rows| - 1].taxable
  }

  /** Income net of losses, category by category. */
  function NettedTotal(rows: seq<Row>): real {
    if rows == [] then 0.0
    else NettedTotal(rows[..|rows| - 1]) + Max(0.0, rows[|rows| - 1].gross + rows[|rows| - 1].losses)
  }

  lemma {:induction false} TotalsBalance(rows: seq<Row>, raw: seq<Row>)
    requires |rows| == |raw|
    requires forall i :: 0 <= i < |rows| ==>
               rows[i].taxable + rows[i].allowances + rows[i].deductions == Max(0.0, raw[i].gross + raw[i].losses)
    ensures TaxableTotal(rows) + AllowancesTotal(rows) + DeductionsTotal(rows) == NettedTotal(raw)
  {
    hide Max;
    if rows != [] {
      TotalsBalance(rows[..|rows| - 1], raw[..|raw| - 1]);
    }
  }

  /** What is netted is taxable, allowed or deducted, and the traces lead from the given start to the final
      taxable amount and add up to the tax. */
  predicate Balanced(row: Row, raw: Row, start: real) {
    && Max(0.0, raw.gross + raw.losses) == row.taxable + row.allowances + row.deductions
    && TraceTax(row.traces) == row.tax
    && Chained(row.traces, start, row.taxable)
  }

  lemma {:induction false} CategoriesBalance(c: Context, table: Table, year: Year, src: Sources, s: Summary)
    requires IsSummary(c, table, year, src, s)
    ensures var raw, m := RawRows(c, table, year, src), Amounts(table, year, src);
            forall i: nat :: i < 5 ==> Balanced(s.categories[i], raw[i], OverallStage(raw, m)[i].taxable)
  {
    RawRowsAreRaw(c, table, year, src);
    var raw, m := RawRows(c, table, year, src), Amounts(table, year, src);
    hide Estimate, OverallStage, RawRows, Raw, Chained, TraceTax, Amounts;
    forall i: nat | i < 5
      ensures Balanced(s.categories[i], raw[i], OverallStage(raw, m)[i].taxable)
    {
      AuditConservation(raw, m, src.rules, i);
    }
  }

  /** The balance: due less refund is the estimate less what was withheld and paid, and never both are
      positive; every category balances, and so do their totals. */
  lemma {:induction false} SummaryBalances(c: Context, table: Table, year: Year, src: Sources, s: Summary)
    requires IsSummary(c, table, year, src, s)
    ensures s.due - s.refund == s.liability - s.withheld - s.paid
    ensures s.due == 0.0 || s.refund == 0.0
    ensures s.due >= 0.0 && s.refund >= 0.0
    ensures var raw, m := RawRows(c, table, year, src), Amounts(table, year, src);
            && (forall i: nat :: i < 5 ==> Balanced(s.categories[i], raw[i], OverallStage(raw, m)[i].taxable))
            && TaxableTotal(s.categories) + s.figures.allowances + s.figures.deductions == NettedTotal(raw)
  {
    CategoriesBalance(c, table, year, src, s);
    hide Estimate, Amounts, OverallStage, RawRows, Chained, TraceTax, NothingMissing, Liability, WithheldTotal, SumInto;
    TotalsBalance(s.categories, RawRows(c, table, year, src));
  }
}

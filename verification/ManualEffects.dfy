/** What one more manual item changes in a summary (tax/services/aggregation.py): exactly one total, by its amount in
    the reporting currency. */
module ManualEffects {
  import opened Wrappers
  import opened Decimals
  import opened ExchangeRates
  import opened TaxTable
  import opened TaxSources
  import opened TaxSummary
  import opened SummaryLines

  /** What an amount counts for: nothing where there is no rate. */
  function Counted(x: Option<real>): real { if x.Some? then x.value else 0.0 }

  // ----- allowances and deductions

  /** The manual amounts with something added to those of one target. */
  predicate AllowancesRaised(m: ManualAmounts, more: ManualAmounts, target: Target, x: real)
    requires |m.allowances| == |more.allowances| == |m.deductions| == |more.deductions| == 5
  {
    && (forall i: nat :: i < 5 ==>
        more.allowances[i] == m.allowances[i] + (if target == Only(ORDER[i]) then x else 0.0))
    && more.overallAllowance == m.overallAllowance + (if target == Overall then x else 0.0)
    && more.deductions == m.deductions && more.overallDeduction == m.overallDeduction
  }

  predicate DeductionsRaised(m: ManualAmounts, more: ManualAmounts, target: Target, x: real)
    requires |m.allowances| == |more.allowances| == |m.deductions| == |more.deductions| == 5
  {
    && (forall i: nat :: i < 5 ==>
        more.deductions[i] == m.deductions[i] + (if target == Only(ORDER[i]) then x else 0.0))
    && more.overallDeduction == m.overallDeduction + (if target == Overall then x else 0.0)
    && more.allowances == m.allowances && more.overallAllowance == m.overallAllowance
  }

  lemma {:induction false} ItemSumMore(table: Table, year: Year, items: seq<StoredItem>, item: StoredItem, dated: bool,
      target: Target, x: Option<real>)
    requires IsAtRate(x, table, year, item.amount, item.currency, if dated then item.date else year.start)
    ensures ItemSum(table, year, items + [item], dated, target)
         == ItemSum(table, year, items, dated, target) + (if item.target == target then Counted(x) else 0.0)
  {
    assert (items + [item])[..|items|] == items;
  }

  /** One more allowance raises the allowance of its target, converted on the first day of the year, and nothing
      else. */
  lemma {:induction false} OneMoreAllowance(table: Table, year: Year, src: Sources, item: StoredItem, x: Option<real>)
    requires IsAtRate(x, table, year, item.amount, item.currency, year.start)
    ensures AllowancesRaised(
              Amounts(table, year, src), Amounts(table, year, src.(allowances := src.allowances + [item])),
              item.target, Counted(x))
  {
    forall t: Target
      ensures ItemSum(table, year, src.allowances + [item], false, t)
           == ItemSum(table, year, src.allowances, false, t) + (if item.target == t then Counted(x) else 0.0)
    {
      ItemSumMore(table, year, src.allowances, item, false, t, x);
    }
    hide ItemSum, SumInto, IsAtRate, Counted;
  }

  /** One more deduction raises the deduction of its target, converted on its own day, and nothing else. */
  lemma {:induction false} OneMoreDeduction(table: Table, year: Year, src: Sources, item: StoredItem, x: Option<real>)
    requires IsAtRate(x, table, year, item.amount, item.currency, item.date)
    ensures DeductionsRaised(
              Amounts(table, year, src), Amounts(table, year, src.(deductions := src.deductions + [item])),
              item.target, Counted(x))
  {
    forall t: Target
      ensures ItemSum(table, year, src.deductions + [item], true, t)
           == ItemSum(table, year, src.deductions, true, t) + (if item.target == t then Counted(x) else 0.0)
    {
      ItemSumMore(table, year, src.deductions, item, true, t, x);
    }
    hide ItemSum, SumInto, IsAtRate, Counted;
  }

  // ----- adjustments

  lemma {:induction false} SumIntoMore(table: Table, year: Year, adjustments: seq<Adjustment>, a: Adjustment,
      slot: Slot, x: Option<real>)
    requires IsAtRate(x, table, year, a.amount, a.currency, a.date)
    ensures SumInto(table, year, adjustments + [a], slot)
         == SumInto(table, year, adjustments, slot) + (if SlotOf(a) == slot then Share(slot, Counted(x)) else 0.0)
  {
    assert (adjustments + [a])[..|adjustments|] == adjustments;
  }

  /** A row with an adjustment added where its kind says: income to the gross of its category, a loss to the losses of
      capital gains, tax withheld to the category it applies to. */
  predicate RowAdjusted(row: Row, more: Row, category: Category, a: Adjustment, x: real) {
    && more.gross == row.gross + (if a.kind == Taxable(category) then x else 0.0)
    && more.losses == row.losses - (if a.kind == CapitalLoss && category == CapitalGain then Abs(x) else 0.0)
    && more.withholding
       == row.withholding + (if a.kind == WithholdingTax && a.appliesTo == Some(Only(category)) then Abs(x) else 0.0)
  }

  predicate ReceiptsAdjusted(rows: seq<Row>, more: seq<Row>, a: Adjustment, x: real)
    requires |rows| == |more| == 5
  {
    forall i: nat :: i < 5 ==> RowAdjusted(rows[i], more[i], ORDER[i], a, x)
  }

  /** An adjustment without a category of its own applies to all of them together. */
  function TargetOf(a: Adjustment): Target { if a.appliesTo == None then Overall else a.appliesTo.value }

  /** Amounts follow the totals by target. */
  lemma {:induction false} RaisedTotals(table: Table, year: Year, src: Sources, more: Sources, target: Target, x: real)
    ensures (forall t: Target ::
               AllowanceTotal(table, year, more, t)
                   == AllowanceTotal(table, year, src, t) + (if t == target then x else 0.0))
            ==> var m, n := Amounts(table, year, src), Amounts(table, year, more);
                AllowancesRaised(m, n.(deductions := m.deductions, overallDeduction := m.overallDeduction), target, x)
    ensures (forall t: Target ::
               DeductionTotal(table, year, more, t)
                   == DeductionTotal(table, year, src, t) + (if t == target then x else 0.0))
            ==> var m, n := Amounts(table, year, src), Amounts(table, year, more);
                DeductionsRaised(m, n.(allowances := m.allowances, overallAllowance := m.overallAllowance), target, x)
  {
    hide AllowanceTotal, DeductionTotal;
  }

  lemma {:induction false} AdjustedAllowances(table: Table, year: Year, src: Sources, a: Adjustment, x: Option<real>)
    requires IsAtRate(x, table, year, a.amount, a.currency, a.date)
    ensures var m, more := Amounts(table, year, src), Amounts(table, year, src.(adjustments := src.adjustments + [a]));
            AllowancesRaised(m, more.(deductions := m.deductions, overallDeduction := m.overallDeduction), TargetOf(a),
                             if a.kind == ToAllowance then Abs(Counted(x)) else 0.0)
  {
    var longer := src.(adjustments := src.adjustments + [a]);
    var added := if a.kind == ToAllowance then Abs(Counted(x)) else 0.0;
    forall t: Target
      ensures AllowanceTotal(table, year, longer, t)
           == AllowanceTotal(table, year, src, t) + (if t == TargetOf(a) then added else 0.0)
    {
      SumIntoMore(table, year, src.adjustments, a, AllowanceFor(t), x);
      hide ItemSum, SumInto, IsAtRate, Counted;
    }
    hide *;
    RaisedTotals(table, year, src, longer, TargetOf(a), added);
  }

  lemma {:induction false} AdjustedDeductions(table: Table, year: Year, src: Sources, a: Adjustment, x: Option<real>)
    requires IsAtRate(x, table, year, a.amount, a.currency, a.date)
    ensures var m, more := Amounts(table, year, src), Amounts(table, year, src.(adjustments := src.adjustments + [a]));
            DeductionsRaised(m, more.(allowances := m.allowances, overallAllowance := m.overallAllowance), TargetOf(a),
                             if a.kind == ToDeduction then Abs(Counted(x)) else 0.0)
  {
    var longer := src.(adjustments := src.adjustments + [a]);
    var added := if a.kind == ToDeduction then Abs(Counted(x)) else 0.0;
    forall t: Target
      ensures DeductionTotal(table, year, longer, t)
           == DeductionTotal(table, year, src, t) + (if t == TargetOf(a) then added else 0.0)
    {
      SumIntoMore(table, year, src.adjustments, a, DeductionFor(t), x);
      hide ItemSum, SumInto, IsAtRate, Counted;
    }
    hide *;
    RaisedTotals(table, year, src, longer, TargetOf(a), added);
  }

  lemma {:induction false} GrossMore(table: Table, year: Year, xs: seq<Adjustment>, a: Adjustment, c: Category,
      x: Option<real>)
    requires IsAtRate(x, table, year, a.amount, a.currency, a.date)
    ensures SumInto(table, year, xs + [a], Gross(c))
         == SumInto(table, year, xs, Gross(c)) + (if a.kind == Taxable(c) then Counted(x) else 0.0)
  {
    SumIntoMore(table, year, xs, a, Gross(c), x);
    hide SumInto, IsAtRate, Counted;
  }

  lemma {:induction false} LossMore(table: Table, year: Year, xs: seq<Adjustment>, a: Adjustment, x: Option<real>)
    requires IsAtRate(x, table, year, a.amount, a.currency, a.date)
    ensures SumInto(table, year, xs + [a], Loss)
         == SumInto(table, year, xs, Loss) - (if a.kind == CapitalLoss then Abs(Counted(x)) else 0.0)
  {
    SumIntoMore(table, year, xs, a, Loss, x);
    hide SumInto, IsAtRate, Counted;
  }

  lemma {:induction false} WithheldMore(table: Table, year: Year, xs: seq<Adjustment>, a: Adjustment, c: Category,
      x: Option<real>)
    requires IsAtRate(x, table, year, a.amount, a.currency, a.date)
    ensures SumInto(table, year, xs + [a], WithheldAt(c))
         == SumInto(table, year, xs, WithheldAt(c))
            + (if a.kind == WithholdingTax && a.appliesTo == Some(Only(c)) then Abs(Counted(x)) else 0.0)
    ensures SumInto(table, year, xs + [a], WithheldOverall)
         == SumInto(table, year, xs, WithheldOverall)
            + (if a.kind == WithholdingTax && !TargetOf(a).Only? then Abs(Counted(x)) else 0.0)
  {
    SumIntoMore(table, year, xs, a, WithheldAt(c), x);
    SumIntoMore(table, year, xs, a, WithheldOverall, x);
    hide SumInto, IsAtRate, Counted;
  }

  lemma {:induction false} PaidMore(table: Table, year: Year, xs: seq<Adjustment>, a: Adjustment, x: Option<real>)
    requires IsAtRate(x, table, year, a.amount, a.currency, a.date)
    ensures SumInto(table, year, xs + [a], Paid)
         == SumInto(table, year, xs, Paid) + (if a.kind == TaxPayment then Abs(Counted(x)) else 0.0)
  {
    SumIntoMore(table, year, xs, a, Paid, x);
    hide SumInto, IsAtRate, Counted;
  }

  lemma {:induction false} CapitalGainPlace(i: nat)
    requires i < 5
    ensures |ORDER| == 5 && (ORDER[i] == CapitalGain <==> i == 2)
  {}

  /** What a row received, with the adjustments named. */
  lemma {:induction false} ReceivedWith(c: Context, table: Table, year: Year, src: Sources, xs: seq<Adjustment>,
      row: Row,
      i: nat)
    requires i < 5 && Received(c, table, year, src.(adjustments := xs), row, i)
    ensures var events := EventRow(c, table, year, src, ORDER[i]);
            && row.gross == events.gross + SumInto(table, year, xs, Gross(ORDER[i]))
            && row.losses == events.losses + (if i == 2 then SumInto(table, year, xs, Loss) else 0.0)
            && row.withholding == events.withholding + SumInto(table, year, xs, WithheldAt(ORDER[i]))
  {
    EventsUnadjusted(c, table, year, src, xs, i);
    hide EventRow, SumInto;
  }

  lemma {:induction false} AdjustedRow(c: Context, table: Table, year: Year, src: Sources, a: Adjustment,
      x: Option<real>, row: Row, more: Row, i: nat)
    requires i < 5 && IsAtRate(x, table, year, a.amount, a.currency, a.date)
    requires Received(c, table, year, src, row, i)
    requires Received(c, table, year, src.(adjustments := src.adjustments + [a]), more, i)
    ensures RowAdjusted(row, more, ORDER[i], a, Counted(x))
  {
    CapitalGainPlace(i);
    hide Received, EventRow, SumInto, IsAtRate, Counted, Abs, ORDER;
    ReceivedWith(c, table, year, src, src.adjustments, row, i);
    ReceivedWith(c, table, year, src, src.adjustments + [a], more, i);
    GrossMore(table, year, src.adjustments, a, ORDER[i], x);
    LossMore(table, year, src.adjustments, a, x);
    WithheldMore(table, year, src.adjustments, a, ORDER[i], x);
  }

  lemma {:induction false} AdjustedReceipts(c: Context, table: Table, year: Year, src: Sources, a: Adjustment,
      x: Option<real>, rows: seq<Row>, more: seq<Row>)
    requires |rows| == |more| == 5 && IsAtRate(x, table, year, a.amount, a.currency, a.date)
    requires forall i: nat :: i < 5 ==> Received(c, table, year, src, rows[i], i)
    requires forall i: nat :: i < 5 ==> Received(c, table, year, src.(adjustments := src.adjustments + [a]), more[i], i)
    ensures ReceiptsAdjusted(rows, more, a, Counted(x))
  {
    hide Received, RowAdjusted, IsAtRate, Counted;
    forall i: nat | i < 5
      ensures RowAdjusted(rows[i], more[i], ORDER[i], a, Counted(x))
    {
      AdjustedRow(c, table, year, src, a, x, rows[i], more[i], i);
    }
  }

  lemma {:induction false} EventsUnadjusted(c: Context, table: Table, year: Year, src: Sources,
      x: seq<Adjustment>, i: nat)
    requires i < 5
    ensures EventRow(c, table, year, src.(adjustments := x), ORDER[i]) == EventRow(c, table, year, src, ORDER[i])
  {}

  lemma {:induction false} WithheldOfFive(rows: seq<Row>)
    requires |rows| == 5
    ensures WithheldTotal(rows)
         == rows[0].withholding + rows[1].withholding + rows[2].withholding + rows[3].withholding + rows[4].withholding
  {
    assert WithheldTotal(rows[..0]) == 0.0;
    assert rows[..1][..0] == rows[..0] && rows[..2][..1] == rows[..1] && rows[..3][..2] == rows[..2];
    assert rows[..4][..3] == rows[..3] && rows[..5][..4] == rows[..4] && rows[..5] == rows;
    assert WithheldTotal(rows[..1]) == rows[0].withholding;
    assert WithheldTotal(rows[..2]) == WithheldTotal(rows[..1]) + rows[1].withholding;
    assert WithheldTotal(rows[..3]) == WithheldTotal(rows[..2]) + rows[2].withholding;
    assert WithheldTotal(rows[..4]) == WithheldTotal(rows[..3]) + rows[3].withholding;
  }

  /** The adjusted rows withhold more by the amount if it applies to a category. */
  lemma {:induction false} WithheldRaised(rows: seq<Row>, more: seq<Row>, a: Adjustment, x: real)
    requires |rows| == |more| == 5 && ReceiptsAdjusted(rows, more, a, x)
    ensures WithheldTotal(more)
         == WithheldTotal(rows) + (if a.kind == WithholdingTax && TargetOf(a).Only? then Abs(x) else 0.0)
  {
    WithheldOfFive(rows);
    WithheldOfFive(more);
    hide WithheldTotal;
    if TargetOf(a).Only? {
      var i := Index(TargetOf(a).category);
      assert ORDER[i] == TargetOf(a).category;
    }
  }

  /** One more adjustment, by its kind: income raises the gross of its category; a loss lowers the losses of capital
      gains; an allowance or deduction raises the manual amount of its target; tax withheld raises the tax withheld,
      whatever it applies to; a payment raises the tax paid.  Nothing else that the summary adds up changes. */
  lemma {:induction false} OneMoreAdjustment(c: Context, table: Table, year: Year, src: Sources, a: Adjustment,
      x: Option<real>, s: Summary, t: Summary)
    requires IsAtRate(x, table, year, a.amount, a.currency, a.date)
    requires IsSummary(c, table, year, src, s)
    requires IsSummary(c, table, year, src.(adjustments := src.adjustments + [a]), t)
    ensures |s.categories| == |t.categories| == 5 && ReceiptsAdjusted(s.categories, t.categories, a, Counted(x))
    ensures t.paid == s.paid + (if a.kind == TaxPayment then Abs(Counted(x)) else 0.0)
    ensures t.withheld == s.withheld + (if a.kind == WithholdingTax then Abs(Counted(x)) else 0.0)
    ensures var m, more := Amounts(table, year, src), Amounts(table, year, src.(adjustments := src.adjustments + [a]));
            && AllowancesRaised(m, more.(deductions := m.deductions, overallDeduction := m.overallDeduction),
                TargetOf(a), if a.kind == ToAllowance then Abs(Counted(x)) else 0.0)
            && DeductionsRaised(m, more.(allowances := m.allowances, overallAllowance := m.overallAllowance),
                TargetOf(a), if a.kind == ToDeduction then Abs(Counted(x)) else 0.0)
  {
    hide *;
    var longer := src.(adjustments := src.adjustments + [a]);
    AdjustedAllowances(table, year, src, a, x);
    AdjustedDeductions(table, year, src, a, x);
    PaidMore(table, year, src.adjustments, a, x);
    WithheldMore(table, year, src.adjustments, a, Interest, x);
    SummaryTotals(c, table, year, src, s);
    SummaryTotals(c, table, year, longer, t);
    TaxEntriesUnadjusted(table, year, src, longer.adjustments);
    AdjustedReceipts(c, table, year, src, a, x, s.categories, t.categories);
    WithheldRaised(s.categories, t.categories, a, Counted(x));
  }

  lemma {:induction false} SummaryTotals(c: Context, table: Table, year: Year, src: Sources, s: Summary)
    requires IsSummary(c, table, year, src, s)
    ensures |s.categories| == 5
    ensures forall i: nat :: i < 5 ==> Received(c, table, year, src, s.categories[i], i)
    ensures s.withheld == WithheldTotal(s.categories) + SumInto(table, year, src.adjustments, WithheldOverall)
    ensures s.paid == SumKnown(EntryConversions(table, year, TaxEntries(year, src)))
                      + SumInto(table, year, src.adjustments, Paid)
  {
    hide Estimate, RawRows, Amounts, Received, SumInto, WithheldTotal;
    forall i: nat | i < 5
      ensures Received(c, table, year, src, s.categories[i], i)
    {
      EstimateKeepsReceipts(c, table, year, src, s.categories, i);
    }
  }

  lemma {:induction false} TaxEntriesUnadjusted(table: Table, year: Year, src: Sources, x: seq<Adjustment>)
    ensures EntryConversions(table, year, TaxEntries(year, src.(adjustments := x)))
         == EntryConversions(table, year, TaxEntries(year, src))
  {}

  /** Without manual items there are no manual amounts. */
  lemma {:induction false} NoManualItems(table: Table, year: Year, src: Sources)
    requires src.allowances == [] && src.deductions == [] && src.adjustments == []
    ensures Amounts(table, year, src)
         == ManualAmounts([0.0, 0.0, 0.0, 0.0, 0.0], [0.0, 0.0, 0.0, 0.0, 0.0], 0.0, 0.0)
  {}
}

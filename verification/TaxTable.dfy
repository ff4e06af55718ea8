/** The table of category rows and the staged reductions of the annual estimate
    (tax/services/aggregation.py): manual amounts, the overall waterfall, rules and flat rates. */
module TaxTable {
  import opened Wrappers
  import opened Decimals

  datatype Category = Interest | Dividend | CapitalGain | EmploymentIncome | OtherIncome

  /** CATEGORY_ORDER. */
  const ORDER: seq<Category> := [Interest, Dividend, CapitalGain, EmploymentIncome, OtherIncome]

  function Index(c: Category): (i: nat)
    ensures i < 5 && ORDER[i] == c
  {
    match c
    case Interest => 0
    case Dividend => 1
    case CapitalGain => 2
    case EmploymentIncome => 3
    case OtherIncome => 4
  }

  datatype Target = Only(category: Category) | Overall

  datatype RuleType = FlatRate | Threshold | Allowance | Deduction

  datatype Rule = Rule(
    pk: nat, kind: RuleType, target: Target, rate: Option<real>, threshold: Option<real>, fixedAmount: Option<real>)
  {
    /** What `TaxRule.clean` and the constraints guarantee. */
    predicate Clean() {
      && (kind.FlatRate? ==> rate.Some?)
      && (rate.Some? ==> 0.0 <= rate.value <= 100.0)
      && (threshold.Some? ==> threshold.value >= 0.0)
      && (fixedAmount.Some? ==> fixedAmount.value >= 0.0)
    }

    /** `reduction_limit or ZERO`. */
    function Limit(): real {
      var stored := if kind.Threshold? then threshold else fixedAmount;
      if stored.Some? then stored.value else 0.0
    }

    predicate Hits(i: nat) { target.Overall? || Index(target.category) == i }
  }

  type ActiveRule = r: Rule | r.Clean()
    witness Rule(0, Allowance, Overall, None, None, None)

  datatype Trace = Trace(rule: ActiveRule, input: real, adjustment: real, output: real, tax: real)

  datatype Row = Row(
    gross: real, losses: real, allowances: real, deductions: real,
    taxable: real, tax: real, withholding: real, traces: seq<Trace>)

  /** A row as aggregation leaves it, before any reduction. */
  predicate Raw(r: Row) {
    r.allowances == r.deductions == r.taxable == r.tax == 0.0 && r.traces == []
  }

  datatype Attribute = Allowances | Deductions

  /** Take an amount off the taxable amount and account for it under an attribute. */
  function Reduce(r: Row, used: real, attribute: Attribute): Row {
    match attribute
    case Allowances => r.(taxable := r.taxable - used, allowances := r.allowances + used)
    case Deductions => r.(taxable := r.taxable - used, deductions := r.deductions + used)
  }

  // ----- manual amounts of one category

  function Manual(r: Row, allowance: real, deduction: real): Row {
    var start := r.(taxable := Max(0.0, r.gross + r.losses));
    var allowed := Reduce(start, Min(start.taxable, allowance), Allowances);
    Reduce(allowed, Min(allowed.taxable, deduction), Deductions)
  }

  /** The first loop over the rows; `allowances` and `deductions` are indexed in category order. */
  method ApplyManual(rows: array<Row>, allowances: seq<real>, deductions: seq<real>)
    requires |allowances| >= rows.Length && |deductions| >= rows.Length
    modifies rows
    ensures forall i :: 0 <= i < rows.Length ==> rows[i] == Manual(old(rows[i]), allowances[i], deductions[i])
  {
    for i := 0 to rows.Length
      invariant forall j :: 0 <= j < i ==> rows[j] == Manual(old(rows[j]), allowances[j], deductions[j])
      invariant forall j :: i <= j < rows.Length ==> rows[j] == old(rows[j])
    {
      var row := rows[i];
      row := row.(taxable := Max(0.0, row.gross + row.losses));
      var allowance := Min(row.taxable, allowances[i]);
      row := row.(allowances := row.allowances + allowance, taxable := row.taxable - allowance);
      var deduction := Min(row.taxable, deductions[i]);
      row := row.(deductions := row.deductions + deduction, taxable := row.taxable - deduction);
      rows[i] := row;
    }
  }

  // ----- the overall waterfall

  function Waterfall(rows: seq<Row>, amount: real, attribute: Attribute): (r: seq<Row>)
    ensures |r| == |rows|
  {
    if rows == [] || amount <= 0.0 then rows
    else
      var used := Min(Max(0.0, rows[0].taxable), amount);
      [Reduce(rows[0], used, attribute)] + Waterfall(rows[1..], amount - used, attribute)
  }

  lemma {:induction false} WaterfallAt(rows: seq<Row>, i: nat, remaining: real, attribute: Attribute)
    requires i < |rows| && remaining > 0.0
    ensures var used := Min(Max(0.0, rows[i].taxable), remaining);
            Waterfall(rows[i..], remaining, attribute)
            == [Reduce(rows[i], used, attribute)] + Waterfall(rows[i + 1..], remaining - used, attribute)
  {
    assert rows[i..][0] == rows[i] && rows[i..][1..] == rows[i + 1..];
  }

  lemma {:induction false} WaterfallStops(rows: seq<Row>, remaining: real, attribute: Attribute)
    requires rows == [] || remaining <= 0.0
    ensures Waterfall(rows, remaining, attribute) == rows
  {}

  /** `_apply_overall_reduction`. */
  method ApplyOverallReduction(rows: array<Row>, amount: real, attribute: Attribute)
    modifies rows
    ensures rows[..] == Waterfall(old(rows[..]), amount, attribute)
  {
    hide Waterfall;
    ghost var before := rows[..];
    var remaining := amount;
    var i := 0;
    while i < rows.Length
      invariant 0 <= i <= rows.Length
      invariant rows[i..] == before[i..]
      invariant Waterfall(before, amount, attribute) == rows[..i] + Waterfall(before[i..], remaining, attribute)
    {
      if remaining <= 0.0 {
        WaterfallStops(before[i..], remaining, attribute);
        assert rows[..] == rows[..i] + rows[i..];
        return;
      }
      WaterfallAt(before, i, remaining, attribute);
      ghost var done := rows[..i];
      assert rows[i] == rows[i..][0] == before[i];
      remaining := ReduceRow(rows, i, remaining, attribute);
      assert rows[..i + 1] == done + [rows[i]];
      i := i + 1;
    }
    WaterfallStops(before[i..], remaining, attribute);
    assert rows[..] == rows[..i];
  }

  /** One pass of its loop: what the row can take is taken off, and what remains goes to the next row. */
  method ReduceRow(rows: array<Row>, i: nat, remaining: real, attribute: Attribute) returns (left: real)
    requires i < rows.Length
    modifies rows
    ensures var used := Min(Max(0.0, old(rows[i]).taxable), remaining);
            left == remaining - used && rows[i] == Reduce(old(rows[i]), used, attribute)
    ensures rows[..i] == old(rows[..i]) && rows[i + 1..] == old(rows[i + 1..])
  {
    var row := rows[i];
    var available := Max(0.0, row.taxable);
    var used := Min(available, remaining);
    row := row.(taxable := row.taxable - used);
    if attribute == Allowances {
      row := row.(allowances := row.allowances + used);
    } else {
      row := row.(deductions := row.deductions + used);
    }
    rows[i] := row;
    left := remaining - used;
  }

  // ----- rules

  function NonFlat(rules: seq<ActiveRule>): seq<ActiveRule> {
    if rules == [] then []
    else
      var last := rules[|rules| - 1];
      NonFlat(rules[..|rules| - 1]) + (if last.kind.FlatRate? then [] else [last])
  }

  function Flat(rules: seq<ActiveRule>): seq<ActiveRule> {
    if rules == [] then []
    else
      var last := rules[|rules| - 1];
      Flat(rules[..|rules| - 1]) + (if last.kind.FlatRate? then [last] else [])
  }

  function ReduceByRule(r: Row, rule: ActiveRule): Row {
    var reduction := Min(r.taxable, rule.Limit());
    var reduced := Reduce(r, reduction, if rule.kind.Allowance? then Allowances else Deductions);
    reduced.(traces := r.traces + [Trace(rule, r.taxable, -reduction, reduced.taxable, 0.0)])
  }

  function TaxByRule(r: Row, rule: ActiveRule): Row
    requires rule.kind.FlatRate?
  {
    var tax := Times(r.taxable, rule.rate.value) / 100.0;
    r.(tax := r.tax + tax, traces := r.traces + [Trace(rule, r.taxable, 0.0, r.taxable, tax)])
  }

  function UseRule(r: Row, rule: ActiveRule): Row {
    if rule.kind.FlatRate? then TaxByRule(r, rule) else ReduceByRule(r, rule)
  }

  /** What a list of rules does to the row of one category. */
  function RowUnder(r: Row, i: nat, rules: seq<ActiveRule>): Row {
    if rules == [] then r
    else
      var before := RowUnder(r, i, rules[..|rules| - 1]);
      var rule := rules[|rules| - 1];
      if rule.Hits(i) then UseRule(before, rule) else before
  }

  /** The two loops over the rules, which are given in priority order. */
  method ApplyRules(rows: array<Row>, rules: seq<ActiveRule>)
    requires rows.Length == 5
    modifies rows
    ensures forall i :: 0 <= i < 5 ==> rows[i] == RowUnder(RowUnder(old(rows[i]), i, NonFlat(rules)), i, Flat(rules))
  {
    RulesOfKind(rules);
    ApplyInOrder(rows, NonFlat(rules));
    ApplyInOrder(rows, Flat(rules));
  }

  /** One loop over rules of either kind. */
  method ApplyInOrder(rows: array<Row>, rules: seq<ActiveRule>)
    requires rows.Length == 5
    modifies rows
    ensures forall i :: 0 <= i < 5 ==> rows[i] == RowUnder(old(rows[i]), i, rules)
  {
    for n := 0 to |rules|
      invariant forall i :: 0 <= i < 5 ==> rows[i] == RowUnder(old(rows[i]), i, rules[..n])
    {
      assert rules[..n + 1][..n] == rules[..n];
      ApplyRule(rows, rules[n]);
    }
    assert rules[..|rules|] == rules;
  }

  ghost predicate Among(targets: seq<Category>, i: nat) {
    exists j :: 0 <= j < |targets| && Index(targets[j]) == i
  }

  /** Each rule acts on its category, or on every one in order. */
  method ApplyRule(rows: array<Row>, rule: ActiveRule)
    requires rows.Length == 5
    modifies rows
    ensures forall i: nat :: i < 5 ==> rows[i] == if rule.Hits(i) then UseRule(old(rows[i]), rule) else old(rows[i])
  {
    var targets := if rule.target.Overall? then ORDER else [rule.target.category];
    for k := 0 to |targets|
      invariant forall i: nat :: i < 5 ==>
                  rows[i] == if Among(targets[..k], i) then UseRule(old(rows[i]), rule) else old(rows[i])
    {
      var at := Index(targets[k]);
      forall i: nat
        ensures Among(targets[..k + 1], i) <==> Among(targets[..k], i) || i == at
      {
        assert targets[..k + 1] == targets[..k] + [targets[k]];
        if i == at {
          assert targets[..k + 1][k] == targets[k];
        } else if Among(targets[..k], i) {
          var j :| 0 <= j < k && Index(targets[..k][j]) == i;
          assert Index(targets[..k + 1][j]) == i;
        }
      }
      assert !Among(targets[..k], at);
      ApplyToRow(rows, at, rule);
    }
    assert targets[..|targets|] == targets;
    forall i: nat | i < 5
      ensures Among(targets, i) <==> rule.Hits(i)
    {
      if rule.target.Overall? {
        assert Index(targets[i]) == i;
      } else {
        assert Index(targets[0]) == Index(rule.target.category);
      }
    }
  }

  method ApplyToRow(rows: array<Row>, at: nat, rule: ActiveRule)
    requires at < rows.Length
    modifies rows
    ensures rows[..] == old(rows[..])[at := UseRule(old(rows[at]), rule)]
  {
    var row := rows[at];
    if rule.kind.FlatRate? {
      var tax := Times(row.taxable, rule.rate.value) / 100.0;
      row := row.(tax := row.tax + tax);
      rows[at] := row.(traces := row.traces + [Trace(rule, row.taxable, 0.0, row.taxable, tax)]);
    } else {
      var input := row.taxable;
      var reduction := Min(input, rule.Limit());
      row := row.(taxable := row.taxable - reduction);
      if rule.kind.Allowance? {
        row := row.(allowances := row.allowances + reduction);
      } else {
        row := row.(deductions := row.deductions + reduction);
      }
      rows[at] := row.(traces := row.traces + [Trace(rule, input, -reduction, row.taxable, 0.0)]);
    }
  }

  lemma {:induction false} RulesOfKind(rules: seq<ActiveRule>)
    ensures forall r | r in NonFlat(rules) :: !r.kind.FlatRate?
    ensures forall r | r in Flat(rules) :: r.kind.FlatRate?
  {
    if rules != [] {
      RulesOfKind(rules[..|rules| - 1]);
    }
  }

  // ----- all stages

  /** The manual amounts: one per category, and the overall ones. */
  datatype ManualAmounts = ManualAmounts(allowances: seq<real>, deductions: seq<real>, overallAllowance: real,
      overallDeduction: real)
  {
    predicate Valid() {
      && |allowances| == |deductions| == 5
      && (forall i :: 0 <= i < 5 ==> allowances[i] >= 0.0 && deductions[i] >= 0.0)
      && overallAllowance >= 0.0 && overallDeduction >= 0.0
    }
  }

  function ManualStage(rows: seq<Row>, m: ManualAmounts): (r: seq<Row>)
    requires |rows| == 5 && m.Valid()
    ensures |r| == 5
  {
    seq(5, i requires 0 <= i < 5 => Manual(rows[i], m.allowances[i], m.deductions[i]))
  }

  function OverallStage(rows: seq<Row>, m: ManualAmounts): (r: seq<Row>)
    requires |rows| == 5 && m.Valid()
    ensures |r| == 5
  {
    Waterfall(Waterfall(ManualStage(rows, m), m.overallAllowance, Allowances), m.overallDeduction, Deductions)
  }

  function RuleStage(rows: seq<Row>, rules: seq<ActiveRule>): (r: seq<Row>)
    requires |rows| == 5
    ensures |r| == 5
  {
    seq(5, i requires 0 <= i < 5 => RowUnder(RowUnder(rows[i], i, NonFlat(rules)), i, Flat(rules)))
  }

  function Estimate(rows: seq<Row>, m: ManualAmounts, rules: seq<ActiveRule>): (r: seq<Row>)
    requires |rows| == 5 && m.Valid()
    ensures |r| == 5
  {
    RuleStage(OverallStage(rows, m), rules)
  }

  /** The reducing half of `build_tax_year_summary`, on the table of rows in place. */
  method ApplyAllStages(rows: array<Row>, m: ManualAmounts, rules: seq<ActiveRule>)
    requires rows.Length == 5 && m.Valid()
    modifies rows
    ensures rows[..] == Estimate(old(rows[..]), m, rules)
  {
    ghost var before := rows[..];
    ApplyManual(rows, m.allowances, m.deductions);
    assert rows[..] == ManualStage(before, m);
    ApplyOverallReduction(rows, m.overallAllowance, Allowances);
    ApplyOverallReduction(rows, m.overallDeduction, Deductions);
    assert rows[..] == OverallStage(before, m);
    ApplyRules(rows, rules);
    assert rows[..] == RuleStage(OverallStage(before, m), rules);
  }
}

/** The estimate by what its rules have stored (tax/services/aggregation.py): how much each takes off, what it is aimed
    at, which column is charged, and what the traces show. */
module RuleAmounts {
  import opened Decimals
  import opened TaxTable
  import opened TaxLaws
  import opened Selections

  /** A rule is aimed at a category, or at all of them. */
  predicate AimedAt(rule: Rule, c: Category) { rule.target == Overall || rule.target == Only(c) }

  lemma {:induction false} AimedIsHit(rule: Rule, i: nat)
    requires i < 5
    ensures rule.Hits(i) <==> AimedAt(rule, ORDER[i])
  {
    if rule.target.Only? {
      assert ORDER[Index(rule.target.category)] == rule.target.category;
    }
  }

  // ----- one rule

  /** A rule that stores its amount lowers a category by that or by all there is.  A threshold rule takes its threshold
      and a deduction rule its fixed amount, as deductions; an allowance rule takes its fixed amount, as an allowance.
      A flat rate takes nothing and adds its percentage of what is taxable to the tax. */
  lemma {:induction false} RuleTakes(r: Row, rule: ActiveRule)
    ensures var s := UseRule(r, rule);
            && s.gross == r.gross && s.losses == r.losses && s.withholding == r.withholding
            && (rule.kind == Threshold && rule.threshold.Some? ==>
                  && s.taxable == r.taxable - Min(r.taxable, rule.threshold.value)
                  && s.deductions == r.deductions + Min(r.taxable, rule.threshold.value)
                  && s.allowances == r.allowances && s.tax == r.tax)
            && (rule.kind == Deduction && rule.fixedAmount.Some? ==>
                  && s.taxable == r.taxable - Min(r.taxable, rule.fixedAmount.value)
                  && s.deductions == r.deductions + Min(r.taxable, rule.fixedAmount.value)
                  && s.allowances == r.allowances && s.tax == r.tax)
            && (rule.kind == Allowance && rule.fixedAmount.Some? ==>
                  && s.taxable == r.taxable - Min(r.taxable, rule.fixedAmount.value)
                  && s.allowances == r.allowances + Min(r.taxable, rule.fixedAmount.value)
                  && s.deductions == r.deductions && s.tax == r.tax)
            && (rule.kind == FlatRate ==>
                  && s.taxable == r.taxable && s.allowances == r.allowances && s.deductions == r.deductions
                  && 100.0 * (s.tax - r.tax) == Times(r.taxable, rule.rate.value))
  {}

  // ----- all rules

  /** The thresholds stored by the threshold rules aimed at a category. */
  function Thresholds(rules: seq<ActiveRule>, c: Category): real {
    if rules == [] then 0.0
    else
      var r := rules[|rules| - 1];
      Thresholds(rules[..|rules| - 1], c)
      + (if r.kind == Threshold && r.threshold.Some? && AimedAt(r, c) then r.threshold.value else 0.0)
  }

  /** The fixed amounts stored by the allowance or deduction rules aimed at a category. */
  function FixedAmounts(rules: seq<ActiveRule>, kind: RuleType, c: Category): real {
    if rules == [] then 0.0
    else
      var r := rules[|rules| - 1];
      FixedAmounts(rules[..|rules| - 1], kind, c)
      + (if r.kind == kind && r.fixedAmount.Some? && AimedAt(r, c) then r.fixedAmount.value else 0.0)
  }

  /** The percentages of the flat rates aimed at a category. */
  function Percentages(rules: seq<ActiveRule>, c: Category): real {
    if rules == [] then 0.0
    else
      var r := rules[|rules| - 1];
      Percentages(rules[..|rules| - 1], c) + (if r.kind == FlatRate && AimedAt(r, c) then r.rate.value else 0.0)
  }

  lemma {:induction false} LimitsAreStored(rules: seq<ActiveRule>, i: nat)
    requires i < 5
    ensures LimitSum(rules, i)
         == Thresholds(rules, ORDER[i]) + FixedAmounts(rules, Allowance, ORDER[i])
             + FixedAmounts(rules, Deduction, ORDER[i])
    ensures RateSum(rules, i) == Percentages(rules, ORDER[i])
  {
    if rules != [] {
      LimitsAreStored(rules[..|rules| - 1], i);
      AimedIsHit(rules[|rules| - 1], i);
      hide AimedAt, Rule.Hits;
    }
  }

  /** The final taxable amount of a category is what the overall stage leaves, less the thresholds and fixed amounts of
      all rules aimed at it, and never negative; the tax is the percentages aimed at it of that. */
  lemma {:induction false} EstimateByStoredAmounts(rows: seq<Row>, m: ManualAmounts, rules: seq<ActiveRule>, i: nat)
    requires |rows| == 5 && m.Valid() && i < 5 && Raw(rows[i])
    ensures var c, row := ORDER[i], Estimate(rows, m, rules)[i];
            var taken := Thresholds(rules, c) + FixedAmounts(rules, Allowance, c) + FixedAmounts(rules, Deduction, c);
            && row.taxable == Max(0.0, OverallStage(rows, m)[i].taxable - taken)
            && row.tax == Times(row.taxable, Percentages(rules, c)) / 100.0
  {
    LimitsAreStored(rules, i);
    EstimateClosedForm(rows, m, rules, i);
    OverallTaxable(rows, m, i);
    hide Estimate, OverallStage, LimitSum, RateSum, Thresholds, FixedAmounts, Percentages, OwnPrefix;
  }

  // ----- traces

  /** A trace shows what its rule took off its input, or the tax it put on it. */
  predicate Tells(t: Trace) {
    match t.rule.kind
    case FlatRate => t.adjustment == 0.0 && t.output == t.input && 100.0 * t.tax == Times(t.input, t.rule.rate.value)
    case Threshold => t.tax == 0.0 && (t.rule.threshold.Some? ==> t.adjustment == -Min(t.input, t.rule.threshold.value))
    case _ => t.tax == 0.0 && (t.rule.fixedAmount.Some? ==> t.adjustment == -Min(t.input, t.rule.fixedAmount.value))
  }

  /** What the traces of allowance rules, or of the other reducing rules, took off. */
  function TakenBy(traces: seq<Trace>, allowances: bool): real {
    if traces == [] then 0.0
    else
      var t := traces[|traces| - 1];
      TakenBy(traces[..|traces| - 1], allowances)
      + (if (t.rule.kind == Allowance) == allowances then -t.adjustment else 0.0)
  }

  ghost predicate Told(r: Row, allowances: real, deductions: real) {
    && (forall k :: 0 <= k < |r.traces| ==> Tells(r.traces[k]))
    && r.allowances == allowances + TakenBy(r.traces, true)
    && r.deductions == deductions + TakenBy(r.traces, false)
  }

  lemma {:induction false} RuleIsTold(r: Row, rule: ActiveRule, allowances: real, deductions: real)
    requires Told(r, allowances, deductions)
    ensures Told(UseRule(r, rule), allowances, deductions)
  {
    RuleTakes(r, rule);
    var s := UseRule(r, rule);
    assert s.traces[..|r.traces|] == r.traces && |s.traces| == |r.traces| + 1;
    NewTraceTells(r, rule);
    forall k | 0 <= k < |s.traces|
      ensures Tells(s.traces[k])
    {
      if k < |r.traces| {
        assert s.traces[k] == r.traces[k];
      }
    }
  }

  lemma {:induction false} NewTraceTells(r: Row, rule: ActiveRule)
    ensures var s := UseRule(r, rule);
            && |s.traces| == |r.traces| + 1 && Tells(s.traces[|r.traces|])
            && s.traces[|r.traces|].rule == rule
            && s.allowances == r.allowances + (if rule.kind == Allowance then -s.traces[|r.traces|].adjustment else 0.0)
            && s.deductions == r.deductions + (if rule.kind == Allowance then 0.0 else -s.traces[|r.traces|].adjustment)
  {}

  lemma {:induction false} RulesAreTold(r: Row, i: nat, rules: seq<ActiveRule>, allowances: real, deductions: real)
    requires Told(r, allowances, deductions)
    ensures Told(RowUnder(r, i, rules), allowances, deductions)
  {
    if rules != [] {
      var front, last := rules[..|rules| - 1], rules[|rules| - 1];
      RulesAreTold(r, i, front, allowances, deductions);
      if last.Hits(i) {
        hide Told, UseRule;
        RuleIsTold(RowUnder(r, i, front), last, allowances, deductions);
      }
    }
  }

  // ----- columns

  /** A category's income net of its losses. */
  function Netted(r: Row): real { Max(0.0, r.gross + r.losses) }

  /** What a waterfall of an amount takes at one step of running totals. */
  function Share(amount: real, before: real, upTo: real): real { Min(amount, upTo) - Min(amount, before) }

  lemma {:induction false} WaterfallColumns(rows: seq<Row>, amount: real, attribute: Attribute, i: nat)
    requires NonNegative(rows) && amount >= 0.0 && i < |rows|
    ensures var s := Waterfall(rows, amount, attribute)[i];
            var taken := Share(amount, Prefix(rows, i), Prefix(rows, i + 1));
            && s.taxable == rows[i].taxable - taken
            && s.allowances == rows[i].allowances + (if attribute == Allowances then taken else 0.0)
            && s.deductions == rows[i].deductions + (if attribute == Deductions then taken else 0.0)
  {
    WaterfallUses(rows, amount, attribute, i);
    WaterfallUses(rows, amount, attribute, i + 1);
    WaterfallCharges(rows, amount, attribute, i);
    hide Waterfall;
  }

  lemma {:induction false} WaterfallCharges(rows: seq<Row>, amount: real, attribute: Attribute, i: nat)
    requires i < |rows|
    ensures var r, s := rows[i], Waterfall(rows, amount, attribute)[i];
            && s.allowances == r.allowances + (if attribute == Allowances then r.taxable - s.taxable else 0.0)
            && s.deductions == r.deductions + (if attribute == Deductions then r.taxable - s.taxable else 0.0)
    decreases |rows|
  {
    if amount > 0.0 && i > 0 {
      WaterfallCharges(rows[1..], amount - Min(Max(0.0, rows[0].taxable), amount), attribute, i - 1);
    }
  }

  lemma {:induction false} ManualColumns(r: Row, allowance: real, deduction: real)
    requires Raw(r) && allowance >= 0.0 && deduction >= 0.0
    ensures var s := Manual(r, allowance, deduction);
            && s.allowances == Min(Netted(r), allowance)
            && s.deductions == Min(Max(0.0, Netted(r) - allowance), deduction)
  {}

  /** What every stage charges to each column: the category's own manual amounts as far as its income goes, its share of
      the overall amounts along the category order, the allowances before the deductions, and what the traces of its
      rules took off. */
  lemma {:induction false} EstimateColumns(rows: seq<Row>, m: ManualAmounts, rules: seq<ActiveRule>, i: nat)
    requires |rows| == 5 && m.Valid() && i < 5 && Raw(rows[i])
    ensures var row, before, upTo := Estimate(rows, m, rules)[i], OwnPrefix(rows, m, i), OwnPrefix(rows, m, i + 1);
            var left, leftUpTo := Max(0.0, before - m.overallAllowance), Max(0.0, upTo - m.overallAllowance);
            && row.allowances == Min(Netted(rows[i]), m.allowances[i]) + Share(m.overallAllowance, before, upTo)
                                 + TakenBy(row.traces, true)
            && row.deductions == Min(Max(0.0, Netted(rows[i]) - m.allowances[i]), m.deductions[i])
                                 + Share(m.overallDeduction, left, leftUpTo) + TakenBy(row.traces, false)
            && forall k :: 0 <= k < |row.traces| ==> Tells(row.traces[k])
  {
    OverallColumns(rows, m, i);
    var start := OverallStage(rows, m)[i];
    OverallMoves(rows, m, i);
    assert Told(start, start.allowances, start.deductions);
    var reduced := RowUnder(start, i, NonFlat(rules));
    RulesAreTold(start, i, NonFlat(rules), start.allowances, start.deductions);
    RulesAreTold(reduced, i, Flat(rules), start.allowances, start.deductions);
    assert Estimate(rows, m, rules)[i] == RowUnder(reduced, i, Flat(rules));
    hide Estimate, OverallStage, RowUnder, NonFlat, Flat, OwnPrefix, Share, Netted, Tells, TakenBy, Min, Max;
  }

  lemma {:induction false} OverallColumns(rows: seq<Row>, m: ManualAmounts, i: nat)
    requires |rows| == 5 && m.Valid() && i < 5 && Raw(rows[i])
    ensures var s, before, upTo := OverallStage(rows, m)[i], OwnPrefix(rows, m, i), OwnPrefix(rows, m, i + 1);
            var left, leftUpTo := Max(0.0, before - m.overallAllowance), Max(0.0, upTo - m.overallAllowance);
            && s.allowances == Min(Netted(rows[i]), m.allowances[i]) + Share(m.overallAllowance, before, upTo)
            && s.deductions == Min(Max(0.0, Netted(rows[i]) - m.allowances[i]), m.deductions[i])
                               + Share(m.overallDeduction, left, leftUpTo)
  {
    FirstColumns(rows, m, i);
    SecondColumns(rows, m, i);
    hide *;
  }

  lemma {:induction false} FirstColumns(rows: seq<Row>, m: ManualAmounts, i: nat)
    requires |rows| == 5 && m.Valid() && i < 5 && Raw(rows[i])
    ensures var first := Waterfall(ManualStage(rows, m), m.overallAllowance, Allowances)[i];
            && first.allowances
               == Min(Netted(rows[i]), m.allowances[i])
                  + Share(m.overallAllowance, OwnPrefix(rows, m, i), OwnPrefix(rows, m, i + 1))
            && first.deductions == Min(Max(0.0, Netted(rows[i]) - m.allowances[i]), m.deductions[i])
  {
    ManualColumns(rows[i], m.allowances[i], m.deductions[i]);
    ManualPrefix(rows, m, i);
    ManualPrefix(rows, m, i + 1);
    hide Waterfall, Prefix, OwnPrefix, Netted, Min, Max, Share, Manual;
    WaterfallColumns(ManualStage(rows, m), m.overallAllowance, Allowances, i);
  }

  lemma {:induction false} SecondColumns(rows: seq<Row>, m: ManualAmounts, i: nat)
    requires |rows| == 5 && m.Valid() && i < 5
    ensures var first := Waterfall(ManualStage(rows, m), m.overallAllowance, Allowances)[i];
            var s, before, upTo := OverallStage(rows, m)[i], OwnPrefix(rows, m, i), OwnPrefix(rows, m, i + 1);
            var left, leftUpTo := Max(0.0, before - m.overallAllowance), Max(0.0, upTo - m.overallAllowance);
            s.allowances == first.allowances
                && s.deductions == first.deductions + Share(m.overallDeduction, left, leftUpTo)
  {
    hide Waterfall, Prefix, OwnPrefix, Min, Max, Share, ManualStage;
    ManualPrefix(rows, m, i);
    ManualPrefix(rows, m, i + 1);
    TwoWaterfalls(ManualStage(rows, m), m.overallAllowance, m.overallDeduction, i);
  }

  lemma {:induction false} TwoWaterfalls(rows: seq<Row>, a: real, b: real, i: nat)
    requires NonNegative(rows) && a >= 0.0 && b >= 0.0 && i < |rows|
    ensures var first := Waterfall(rows, a, Allowances);
            var second := Waterfall(first, b, Deductions);
            && second[i].allowances == first[i].allowances
            && second[i].deductions
               == first[i].deductions + Share(b, Max(0.0, Prefix(rows, i) - a), Max(0.0, Prefix(rows, i + 1) - a))
  {
    hide Waterfall, Prefix, Min, Max, Share;
    var first := Waterfall(rows, a, Allowances);
    WaterfallStaysNonNegative(rows, a, Allowances);
    WaterfallColumns(first, b, Deductions, i);
    PrefixAfter(rows, a, Allowances, i);
    PrefixAfter(rows, a, Allowances, i + 1);
  }

  lemma {:induction false} PrefixAfter(rows: seq<Row>, amount: real, attribute: Attribute, k: nat)
    requires NonNegative(rows) && amount >= 0.0 && k <= |rows|
    ensures Prefix(Waterfall(rows, amount, attribute), k) == Max(0.0, Prefix(rows, k) - amount)
  {
    WaterfallUses(rows, amount, attribute, k);
  }

  // ----- which rules are traced, and in what order

  /** The places of flat rates or of reducing rules, as asked, that are aimed at a category. */
  function Chosen(rules: seq<ActiveRule>, flat: bool, c: Category): nat -> bool {
    (j: nat) => j < |rules| && (rules[j].kind == FlatRate) == flat && AimedAt(rules[j], c)
  }

  /** The flat rates or reducing rules that hit a category. */
  function Kept(rules: seq<ActiveRule>, flat: bool, i: nat): seq<ActiveRule> {
    Hitting(if flat then Flat(rules) else NonFlat(rules), i)
  }

  lemma {:induction false} AimedPlaces(rules: seq<ActiveRule>, flat: bool, i: nat, n: nat) returns (at: seq<nat>)
    requires i < 5 && n <= |rules|
    ensures Selects(at, n, Chosen(rules, flat, ORDER[i])) && Picks(at, rules, Kept(rules[..n], flat, i))
  {
    assert |ORDER| == 5;
    hide *;
    if n == 0 {
      at := [];
      NothingPicked(rules, Chosen(rules, flat, ORDER[i]));
      NoRules(rules, flat, i);
    } else {
      var before := AimedPlaces(rules, flat, i, n - 1);
      at := NextRule(rules, flat, i, n - 1, before);
    }
  }

  lemma {:induction false} NoRules(rules: seq<ActiveRule>, flat: bool, i: nat)
    ensures Kept(rules[..0], flat, i) == []
  {}

  lemma {:induction false} ChosenIff(rules: seq<ActiveRule>, flat: bool, i: nat, n: nat)
    requires i < 5 && n < |rules|
    ensures Chosen(rules, flat, ORDER[i])(n) <==> (rules[n].kind == FlatRate) == flat && rules[n].Hits(i)
  {
    AimedIsHit(rules[n], i);
  }

  lemma {:induction false} NextRule(rules: seq<ActiveRule>, flat: bool, i: nat, n: nat, before: seq<nat>)
    returns (at: seq<nat>)
    requires i < 5 && n < |rules|
    requires Selects(before, n, Chosen(rules, flat, ORDER[i])) && Picks(before, rules, Kept(rules[..n], flat, i))
    ensures Selects(at, n + 1, Chosen(rules, flat, ORDER[i])) && Picks(at, rules, Kept(rules[..n + 1], flat, i))
  {
    assert |ORDER| == 5;
    hide *;
    assert rules[..n + 1][..n] == rules[..n];
    KeptSnoc(rules[..n + 1], flat, i);
    ChosenIff(rules, flat, i, n);
    SelectsNext(before, n, Chosen(rules, flat, ORDER[i]));
    var kept := Kept(rules[..n], flat, i);
    if (rules[n].kind == FlatRate) == flat && rules[n].Hits(i) {
      at := before + [n];
      PicksNext(before, rules, kept, n);
    } else {
      at := before;
      assert Kept(rules[..n + 1], flat, i) == kept;
    }
  }

  lemma {:induction false} KeptSnoc(rules: seq<ActiveRule>, flat: bool, i: nat)
    requires rules != []
    ensures var front, last := rules[..|rules| - 1], rules[|rules| - 1];
            Kept(rules, flat, i)
            == Kept(front, flat, i)
               + (if (last.kind == FlatRate) == flat && last.Hits(i) then [last] else [])
  {
    var front, last := rules[..|rules| - 1], rules[|rules| - 1];
    var before, after := if flat then Flat(front) else NonFlat(front), if flat then Flat(rules) else NonFlat(rules);
    if (last.kind == FlatRate) == flat {
      assert after == before + [last];
      assert (before + [last])[..|before|] == before;
    } else {
      assert after == before;
      assert Hitting(before, i) + [] == Hitting(before, i);
    }
  }

  /** The traces of a category are of the rules aimed at it or at all categories, each once: first the reducing ones in
      the order given, then the flat rates in the order given. */
  lemma {:induction false} TracesInOrder(rows: seq<Row>, m: ManualAmounts, rules: seq<ActiveRule>, i: nat)
    returns (reducing: seq<nat>, flat: seq<nat>)
    requires |rows| == 5 && m.Valid() && i < 5 && Raw(rows[i])
    ensures Selects(reducing, |rules|, Chosen(rules, false, ORDER[i]))
    ensures Selects(flat, |rules|, Chosen(rules, true, ORDER[i]))
    ensures var traces := Estimate(rows, m, rules)[i].traces;
            && |traces| == |reducing| + |flat|
            && Picks(reducing, rules, TracedRules(traces[..|reducing|]))
            && Picks(flat, rules, TracedRules(traces[|reducing|..]))
  {
    AuditConservation(rows, m, rules, i);
    reducing := AimedPlaces(rules, false, i, |rules|);
    flat := AimedPlaces(rules, true, i, |rules|);
    assert rules[..|rules|] == rules;
    var traces := Estimate(rows, m, rules)[i].traces;
    var first, second := Kept(rules, false, i), Kept(rules, true, i);
    assert TracedRules(traces) == first + second && |first| == |reducing| && |second| == |flat|;
    hide *;
    TracedInParts(traces, first, second);
  }

  lemma {:induction false} TracedInParts(traces: seq<Trace>, first: seq<ActiveRule>, second: seq<ActiveRule>)
    requires TracedRules(traces) == first + second
    ensures |traces| == |first| + |second|
    ensures TracedRules(traces[..|first|]) == first && TracedRules(traces[|first|..]) == second
  {
    assert |TracedRules(traces)| == |traces|;
    assert forall k :: 0 <= k < |traces| ==> TracedRules(traces)[k] == traces[k].rule;
    assert forall k :: 0 <= k < |first| ==> (first + second)[k] == first[k];
    assert forall k :: 0 <= k < |second| ==> (first + second)[|first| + k] == second[k];
  }
}

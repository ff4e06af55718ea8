/** What the reduction stages of the annual estimate amount to (tax/services/aggregation.py): closed
    forms, conservation, order independence and monotonicity. */
module TaxLaws {
  import opened Wrappers
  import opened Decimals
  import opened TaxTable

  function Clamp(x: real, low: real, high: real): real {
    if x < low then low else if x > high then high else x
  }

  predicate NonNegative(rows: seq<Row>) {
    forall i :: 0 <= i < |rows| ==> rows[i].taxable >= 0.0
  }

  /** The taxable amounts of the first k rows together. */
  function Prefix(rows: seq<Row>, k: nat): real
    requires k <= |rows|
  {
    if k == 0 then 0.0 else Prefix(rows, k - 1) + rows[k - 1].taxable
  }

  lemma {:induction false} PrefixFromHead(rows: seq<Row>, k: nat)
    requires 0 < k <= |rows|
    ensures Prefix(rows, k) == rows[0].taxable + Prefix(rows[1..], k - 1)
  {
    if k > 1 {
      PrefixFromHead(rows, k - 1);
      assert rows[1..][k - 2] == rows[k - 1];
    } else {
      assert Prefix(rows, 0) == 0.0;
    }
  }

  lemma {:induction false} PrefixGrows(rows: seq<Row>, k: nat)
    requires k <= |rows| && NonNegative(rows)
    ensures Prefix(rows, k) >= 0.0
  {
    if k > 0 {
      PrefixGrows(rows, k - 1);
    }
  }

  // ----- the waterfall

  /** Each category is left with what the amount does not reach: the taxable amounts up to and including
      its own, less the amount, between nothing and its own taxable amount. */
  lemma {:induction false} WaterfallClosedForm(rows: seq<Row>, amount: real, attribute: Attribute, i: nat)
    requires NonNegative(rows) && i < |rows|
    ensures Waterfall(rows, amount, attribute)[i].taxable == Clamp(Prefix(rows, i + 1) - amount, 0.0, rows[i].taxable)
  {
    PrefixGrows(rows, i);
    assert Prefix(rows, i + 1) == Prefix(rows, i) + rows[i].taxable;
    if amount > 0.0 {
      var used := Min(rows[0].taxable, amount);
      var rest := rows[1..];
      assert Waterfall(rows, amount, attribute)
          == [Reduce(rows[0], used, attribute)] + Waterfall(rest, amount - used, attribute);
      hide Waterfall;
      if i > 0 {
        WaterfallClosedForm(rest, amount - used, attribute, i - 1);
        PrefixFromHead(rows, i + 1);
        assert Prefix(rest, i) == Prefix(rest, i - 1) + rest[i - 1].taxable;
        PrefixGrows(rest, i - 1);
        hide Prefix;
      }
    }
  }

  lemma {:induction false} WaterfallStaysNonNegative(rows: seq<Row>, amount: real, attribute: Attribute)
    requires NonNegative(rows)
    ensures NonNegative(Waterfall(rows, amount, attribute))
  {
    forall i | 0 <= i < |rows|
      ensures Waterfall(rows, amount, attribute)[i].taxable >= 0.0
    {
      WaterfallClosedForm(rows, amount, attribute, i);
    }
  }

  /** Up to any category, the amount is used in full or everything there is used up; over all of them the
      waterfall takes off exactly the smaller of the amount and the total. */
  lemma {:induction false} WaterfallUses(rows: seq<Row>, amount: real, attribute: Attribute, k: nat)
    requires NonNegative(rows) && amount >= 0.0 && k <= |rows|
    ensures Prefix(rows, k) - Prefix(Waterfall(rows, amount, attribute), k) == Min(amount, Prefix(rows, k))
  {
    if k > 0 {
      WaterfallUses(rows, amount, attribute, k - 1);
      WaterfallClosedForm(rows, amount, attribute, k - 1);
      PrefixGrows(rows, k - 1);
    }
  }

  /** Two waterfalls one after the other leave the taxable amounts of one waterfall of both amounts
      together, whatever they are accounted as; so overall allowances and deductions commute. */
  lemma {:induction false} WaterfallsAdd(rows: seq<Row>, a: real, b: real, x: Attribute, y: Attribute,
      z: Attribute, i: nat)
    requires NonNegative(rows) && a >= 0.0 && b >= 0.0 && i < |rows|
    ensures Waterfall(Waterfall(rows, a, x), b, y)[i].taxable == Waterfall(rows, a + b, z)[i].taxable
  {
    hide Waterfall, Prefix;
    var first := Waterfall(rows, a, x);
    WaterfallStaysNonNegative(rows, a, x);
    WaterfallClosedForm(rows, a, x, i);
    WaterfallClosedForm(first, b, y, i);
    WaterfallClosedForm(rows, a + b, z, i);
    WaterfallUses(rows, a, x, i + 1);
    PrefixGrows(rows, i);
  }

  lemma {:induction false} OverallAmountsCommute(rows: seq<Row>, a: real, b: real, x: Attribute, y: Attribute, i: nat)
    requires NonNegative(rows) && a >= 0.0 && b >= 0.0 && i < |rows|
    ensures Waterfall(Waterfall(rows, a, x), b, y)[i].taxable == Waterfall(Waterfall(rows, b, y), a, x)[i].taxable
  {
    WaterfallsAdd(rows, a, b, x, y, x, i);
    WaterfallsAdd(rows, b, a, y, x, x, i);
  }

  /** A reduction moves amounts between a row's columns and touches nothing else. */
  predicate SameButMoved(r: Row, s: Row) {
    && s.taxable + s.allowances + s.deductions == r.taxable + r.allowances + r.deductions
    && s.gross == r.gross && s.losses == r.losses && s.withholding == r.withholding
  }

  lemma {:induction false} WaterfallMoves(rows: seq<Row>, amount: real, attribute: Attribute, i: nat)
    requires i < |rows|
    ensures var w := Waterfall(rows, amount, attribute);
            SameButMoved(rows[i], w[i]) && w[i].tax == rows[i].tax && w[i].traces == rows[i].traces
    decreases |rows|
  {
    if amount > 0.0 && i > 0 {
      WaterfallMoves(rows[1..], amount - Min(Max(0.0, rows[0].taxable), amount), attribute, i - 1);
    }
  }

  // ----- rules

  /** The limits of the non-flat rules aimed at a category or at the overall basis. */
  function LimitSum(rules: seq<ActiveRule>, i: nat): real {
    if rules == [] then 0.0
    else
      var last := rules[|rules| - 1];
      LimitSum(rules[..|rules| - 1], i) + (if !last.kind.FlatRate? && last.Hits(i) then last.Limit() else 0.0)
  }

  function RateSum(rules: seq<ActiveRule>, i: nat): real {
    if rules == [] then 0.0
    else
      var last := rules[|rules| - 1];
      RateSum(rules[..|rules| - 1], i) + (if last.kind.FlatRate? && last.Hits(i) then last.rate.value else 0.0)
  }

  lemma {:induction false} RowUnderSnoc(r: Row, i: nat, rules: seq<ActiveRule>, rule: ActiveRule)
    ensures RowUnder(r, i, rules + [rule])
         == if rule.Hits(i) then UseRule(RowUnder(r, i, rules), rule) else RowUnder(r, i, rules)
  {
    assert (rules + [rule])[..|rules|] == rules;
  }

  lemma {:induction false} LimitSumGrows(rules: seq<ActiveRule>, i: nat)
    ensures LimitSum(rules, i) >= 0.0
  {
    if rules != [] {
      LimitSumGrows(rules[..|rules| - 1], i);
    }
  }

  lemma {:induction false} RateSumGrows(rules: seq<ActiveRule>, i: nat)
    ensures RateSum(rules, i) >= 0.0
  {
    if rules != [] {
      RateSumGrows(rules[..|rules| - 1], i);
    }
  }

  lemma {:induction false} LimitAdds(r: Row, before: Row, rule: ActiveRule, sum: real)
    requires !rule.kind.FlatRate? && sum >= 0.0 && r.taxable >= 0.0
    requires before.taxable == Max(0.0, r.taxable - sum) && before.tax == r.tax && SameButMoved(r, before)
    ensures var after := UseRule(before, rule);
            after.taxable == Max(0.0, r.taxable - (sum + rule.Limit())) && after.tax == r.tax && SameButMoved(r, after)
  {}

  lemma {:induction false} LimitsAdd(r: Row, i: nat, rules: seq<ActiveRule>)
    requires r.taxable >= 0.0
    ensures RowUnder(r, i, NonFlat(rules)).taxable == Max(0.0, r.taxable - LimitSum(rules, i))
    ensures RowUnder(r, i, NonFlat(rules)).tax == r.tax
    ensures SameButMoved(r, RowUnder(r, i, NonFlat(rules)))
  {
    if rules != [] {
      var front, last := rules[..|rules| - 1], rules[|rules| - 1];
      LimitsAdd(r, i, front);
      LimitSumGrows(front, i);
      hide RowUnder, UseRule, SameButMoved, Max;
      if !last.kind.FlatRate? {
        RowUnderSnoc(r, i, NonFlat(front), last);
        LimitAdds(r, RowUnder(r, i, NonFlat(front)), last, LimitSum(front, i));
      } else {
        assert NonFlat(rules) == NonFlat(front);
      }
    }
  }

  lemma {:induction false} RatesAdd(r: Row, i: nat, rules: seq<ActiveRule>)
    ensures RowUnder(r, i, Flat(rules)).tax == r.tax + Times(r.taxable, RateSum(rules, i)) / 100.0
    ensures RowUnder(r, i, Flat(rules)).taxable == r.taxable
    ensures SameButMoved(r, RowUnder(r, i, Flat(rules)))
  {
    if rules != [] {
      var front, last := rules[..|rules| - 1], rules[|rules| - 1];
      RatesAdd(r, i, front);
      if last.kind.FlatRate? {
        RowUnderSnoc(r, i, Flat(front), last);
        if last.Hits(i) {
          TimesAdds(r.taxable, RateSum(front, i), last.rate.value);
        }
      } else {
        assert Flat(rules) == Flat(front);
      }
    }
  }

  lemma {:induction false} TimesAdds(x: real, y: real, z: real)
    ensures Times(x, y + z) == Times(x, y) + Times(x, z)
  {}

  // ----- closed form of the whole estimate

  /** A category's taxable amount after its own manual amounts. */
  function Own(r: Row, allowance: real, deduction: real): real {
    Max(0.0, r.gross + r.losses - (allowance + deduction))
  }

  function OwnPrefix(rows: seq<Row>, m: ManualAmounts, k: nat): real
    requires |rows| == 5 && m.Valid() && k <= 5
  {
    if k == 0 then 0.0 else OwnPrefix(rows, m, k - 1) + Own(rows[k - 1], m.allowances[k - 1], m.deductions[k - 1])
  }

  /** The taxable amount the estimate ends with, said directly. */
  function FinalTaxable(rows: seq<Row>, m: ManualAmounts, rules: seq<ActiveRule>, i: nat): real
    requires |rows| == 5 && m.Valid() && i < 5
  {
    Max(0.0, Clamp(OwnPrefix(rows, m, i + 1) - (m.overallAllowance + m.overallDeduction),
                   0.0, Own(rows[i], m.allowances[i], m.deductions[i]))
             - LimitSum(rules, i))
  }

  lemma {:induction false} ManualIsOwn(r: Row, allowance: real, deduction: real)
    requires allowance >= 0.0 && deduction >= 0.0
    ensures Manual(r, allowance, deduction).taxable == Own(r, allowance, deduction)
    ensures Raw(r) ==>
              var s := Manual(r, allowance, deduction);
              && s.taxable + s.allowances + s.deductions == Max(0.0, r.gross + r.losses)
              && s.gross == r.gross && s.losses == r.losses && s.withholding == r.withholding
              && s.tax == 0.0 && s.traces == []
  {}

  lemma {:induction false} ManualPrefix(rows: seq<Row>, m: ManualAmounts, k: nat)
    requires |rows| == 5 && m.Valid() && k <= 5
    ensures Prefix(ManualStage(rows, m), k) == OwnPrefix(rows, m, k)
    ensures NonNegative(ManualStage(rows, m))
  {
    forall i | 0 <= i < 5
      ensures ManualStage(rows, m)[i].taxable == Own(rows[i], m.allowances[i], m.deductions[i]) >= 0.0
    {
      ManualIsOwn(rows[i], m.allowances[i], m.deductions[i]);
    }
    if k > 0 {
      ManualPrefix(rows, m, k - 1);
    }
  }

  lemma {:induction false} OverallTaxable(rows: seq<Row>, m: ManualAmounts, i: nat)
    requires |rows| == 5 && m.Valid() && i < 5
    ensures OverallStage(rows, m)[i].taxable
         == Clamp(OwnPrefix(rows, m, i + 1) - (m.overallAllowance + m.overallDeduction),
                  0.0, Own(rows[i], m.allowances[i], m.deductions[i]))
    ensures OverallStage(rows, m)[i].taxable >= 0.0
  {
    hide Waterfall, Prefix, OwnPrefix;
    var start := ManualStage(rows, m);
    ManualPrefix(rows, m, i + 1);
    ManualIsOwn(rows[i], m.allowances[i], m.deductions[i]);
    WaterfallsAdd(start, m.overallAllowance, m.overallDeduction, Allowances, Deductions, Allowances, i);
    WaterfallClosedForm(start, m.overallAllowance + m.overallDeduction, Allowances, i);
  }

  /** What every stage together leaves taxable, and the tax on it. */
  lemma {:induction false} EstimateClosedForm(rows: seq<Row>, m: ManualAmounts, rules: seq<ActiveRule>, i: nat)
    requires |rows| == 5 && m.Valid() && i < 5 && Raw(rows[i])
    ensures Estimate(rows, m, rules)[i].taxable == FinalTaxable(rows, m, rules, i) >= 0.0
    ensures Estimate(rows, m, rules)[i].tax == Times(FinalTaxable(rows, m, rules, i), RateSum(rules, i)) / 100.0
  {
    OverallTaxable(rows, m, i);
    OverallMoves(rows, m, i);
    var before := OverallStage(rows, m)[i];
    LimitsAdd(before, i, rules);
    RatesAdd(RowUnder(before, i, NonFlat(rules)), i, rules);
  }

  lemma {:induction false} OverallMoves(rows: seq<Row>, m: ManualAmounts, i: nat)
    requires |rows| == 5 && m.Valid() && i < 5 && Raw(rows[i])
    ensures var s := OverallStage(rows, m)[i];
            && s.taxable + s.allowances + s.deductions == Max(0.0, rows[i].gross + rows[i].losses)
            && s.gross == rows[i].gross && s.losses == rows[i].losses && s.withholding == rows[i].withholding
            && s.tax == 0.0 && s.traces == []
  {
    ManualIsOwn(rows[i], m.allowances[i], m.deductions[i]);
    WaterfallMoves(ManualStage(rows, m), m.overallAllowance, Allowances, i);
    WaterfallMoves(Waterfall(ManualStage(rows, m), m.overallAllowance, Allowances), m.overallDeduction, Deductions, i);
  }

  // ----- overall rules and the documented allocation

  /** At most one category still has something taxable. */
  predicate AtMostOnePositive(rows: seq<Row>) {
    forall i, j :: 0 <= i < j < |rows| ==> rows[i].taxable <= 0.0 || rows[j].taxable <= 0.0
  }

  /** When taking an overall limit off every category is the same as allocating it along their order: there
      is no limit, or it exhausts everything, or at most one category has something left. */
  predicate OrderDoesNotMatter(rows: seq<Row>, limit: real) {
    limit <= 0.0 || limit >= Prefix(rows, |rows|) || AtMostOnePositive(rows)
  }

  lemma {:induction false} PrefixGrowsWith(rows: seq<Row>, j: nat, k: nat)
    requires j <= k <= |rows| && NonNegative(rows)
    ensures 0.0 <= Prefix(rows, j) <= Prefix(rows, k)
    ensures forall i :: j <= i < k ==> Prefix(rows, j) + rows[i].taxable <= Prefix(rows, k)
  {
    if j < k {
      PrefixGrowsWith(rows, j, k - 1);
    } else {
      PrefixGrows(rows, j);
    }
  }

  lemma {:induction false} PrefixOfNothing(rows: seq<Row>, j: nat, k: nat)
    requires j <= k <= |rows| && forall i :: j <= i < k ==> rows[i].taxable == 0.0
    ensures Prefix(rows, k) == Prefix(rows, j)
  {
    if j < k {
      PrefixOfNothing(rows, j, k - 1);
    }
  }

  /** What is left in a category when the limit is taken off it alone is what the waterfall leaves there. */
  predicate Agrees(rows: seq<Row>, limit: real, attribute: Attribute, i: nat)
    requires i < |rows|
  {
    Max(0.0, rows[i].taxable - limit) == Waterfall(rows, limit, attribute)[i].taxable
  }

  lemma {:induction false} AgreesIff(rows: seq<Row>, limit: real, attribute: Attribute, i: nat)
    requires NonNegative(rows) && limit >= 0.0 && i < |rows|
    ensures Agrees(rows, limit, attribute, i)
       <==> Prefix(rows, i) == 0.0 || rows[i].taxable == 0.0 || limit == 0.0 || limit >= Prefix(rows, i + 1)
  {
    WaterfallClosedForm(rows, limit, attribute, i);
    PrefixGrows(rows, i);
    hide Waterfall;
    assert Prefix(rows, i + 1) == Prefix(rows, i) + rows[i].taxable;
  }

  /** Taking an overall limit off every category leaves what allocating it along their order leaves, exactly
      when there is no limit, it covers everything, or at most one category has something taxable. */
  lemma {:induction false} OverallLimitIsWaterfallIff(rows: seq<Row>, limit: real, attribute: Attribute)
    requires NonNegative(rows) && limit >= 0.0
    ensures (forall i :: 0 <= i < |rows| ==> Agrees(rows, limit, attribute, i)) <==> OrderDoesNotMatter(rows, limit)
  {
    var n := |rows|;
    hide Agrees;
    if OrderDoesNotMatter(rows, limit) {
      forall i | 0 <= i < n
        ensures Agrees(rows, limit, attribute, i)
      {
        AgreesIff(rows, limit, attribute, i);
        PrefixGrowsWith(rows, i + 1, n);
        if AtMostOnePositive(rows) && rows[i].taxable > 0.0 {
          PrefixOfNothing(rows, 0, i);
        }
      }
    } else {
      LastPositiveDiffers(rows, limit, attribute);
    }
  }

  lemma {:induction false} LastPositiveDiffers(rows: seq<Row>, limit: real, attribute: Attribute)
    requires NonNegative(rows) && !OrderDoesNotMatter(rows, limit)
    ensures exists i :: 0 <= i < |rows| && !Agrees(rows, limit, attribute, i)
  {
    var p, q :| 0 <= p < q < |rows| && rows[p].taxable > 0.0 && rows[q].taxable > 0.0;
    var last := LastPositive(rows, q);
    PrefixOfNothing(rows, last + 1, |rows|);
    PrefixGrowsWith(rows, p, last);
    PrefixGrowsWith(rows, 0, p);
    AgreesIff(rows, limit, attribute, last);
    assert !Agrees(rows, limit, attribute, last);
  }

  ghost function LastPositive(rows: seq<Row>, q: nat): (i: nat)
    requires NonNegative(rows) && q < |rows| && rows[q].taxable > 0.0
    ensures q <= i < |rows| && rows[i].taxable > 0.0 && (forall j :: i < j < |rows| ==> rows[j].taxable == 0.0)
    decreases |rows| - q
  {
    if j :| q < j < |rows| && rows[j].taxable > 0.0 then LastPositive(rows, j) else q
  }

  /** The rules as documented: an overall limit is allocated along the category order. */
  function DocumentedRule(rows: seq<Row>, rule: ActiveRule): (r: seq<Row>)
    ensures |r| == |rows|
  {
    if rule.kind.FlatRate? || !rule.target.Overall? then CodedRule(rows, rule)
    else Waterfall(rows, rule.Limit(), if rule.kind.Allowance? then Allowances else Deductions)
  }

  /** One rule as the code applies it. */
  function CodedRule(rows: seq<Row>, rule: ActiveRule): (r: seq<Row>)
    ensures |r| == |rows|
  {
    seq(|rows|, i requires 0 <= i < |rows| => if rule.Hits(i) then UseRule(rows[i], rule) else rows[i])
  }

  predicate SameTaxables(a: seq<Row>, b: seq<Row>) {
    |a| == |b| && forall i :: 0 <= i < |a| ==> a[i].taxable == b[i].taxable
  }

  /** An overall rule leaves the documented taxable amounts exactly when the order does not matter. */
  lemma {:induction false} OverallRuleIsDocumentedIff(rows: seq<Row>, rule: ActiveRule)
    requires NonNegative(rows) && rule.target.Overall? && !rule.kind.FlatRate?
    ensures SameTaxables(CodedRule(rows, rule), DocumentedRule(rows, rule)) <==> OrderDoesNotMatter(rows, rule.Limit())
  {
    var attribute := if rule.kind.Allowance? then Allowances else Deductions;
    OverallLimitIsWaterfallIff(rows, rule.Limit(), attribute);
    hide OrderDoesNotMatter, Waterfall;
    forall i | 0 <= i < |rows|
      ensures CodedRule(rows, rule)[i].taxable == Max(0.0, rows[i].taxable - rule.Limit())
    {}
    assert forall i :: 0 <= i < |rows| ==>
             (Agrees(rows, rule.Limit(), attribute, i)
              <==> CodedRule(rows, rule)[i].taxable == DocumentedRule(rows, rule)[i].taxable);
  }

  /** A whole list of rules, in order, as the code applies it. */
  function CodedRules(rows: seq<Row>, rules: seq<ActiveRule>): (r: seq<Row>)
    ensures |r| == |rows|
  {
    seq(|rows|, i requires 0 <= i < |rows| => RowUnder(rows[i], i, rules))
  }

  /** The same list as documented. */
  function DocumentedRules(rows: seq<Row>, rules: seq<ActiveRule>): (r: seq<Row>)
    ensures |r| == |rows|
  {
    if rules == [] then rows
    else DocumentedRule(DocumentedRules(rows, rules[..|rules| - 1]), rules[|rules| - 1])
  }

  lemma {:induction false} PrefixOfSame(a: seq<Row>, b: seq<Row>, k: nat)
    requires SameTaxables(a, b) && k <= |a|
    ensures Prefix(a, k) == Prefix(b, k)
  {
    if k > 0 {
      PrefixOfSame(a, b, k - 1);
    }
  }

  lemma {:induction false} DocumentedKeepsSame(a: seq<Row>, b: seq<Row>, rule: ActiveRule)
    requires SameTaxables(a, b) && NonNegative(a)
    ensures SameTaxables(DocumentedRule(a, rule), DocumentedRule(b, rule))
  {
    var attribute := if rule.kind.Allowance? then Allowances else Deductions;
    forall i | 0 <= i < |a|
      ensures DocumentedRule(a, rule)[i].taxable == DocumentedRule(b, rule)[i].taxable
    {
      hide Waterfall, Prefix;
      WaterfallClosedForm(a, rule.Limit(), attribute, i);
      WaterfallClosedForm(b, rule.Limit(), attribute, i);
      PrefixOfSame(a, b, i + 1);
    }
  }

  lemma {:induction false} CodedRulesSnoc(rows: seq<Row>, rules: seq<ActiveRule>, k: nat)
    requires k < |rules|
    ensures CodedRules(rows, rules[..k + 1]) == CodedRule(CodedRules(rows, rules[..k]), rules[k])
    ensures DocumentedRules(rows, rules[..k + 1]) == DocumentedRule(DocumentedRules(rows, rules[..k]), rules[k])
  {
    assert rules[..k + 1][..k] == rules[..k] && rules[..k + 1][k] == rules[k];
    assert rules[..k + 1] == rules[..k] + [rules[k]];
    forall i | 0 <= i < |rows|
      ensures CodedRules(rows, rules[..k + 1])[i] == CodedRule(CodedRules(rows, rules[..k]), rules[k])[i]
    {
      RowUnderSnoc(rows[i], i, rules[..k], rules[k]);
    }
  }

  lemma {:induction false} RowUnderStaysNonNegative(r: Row, i: nat, rules: seq<ActiveRule>)
    requires r.taxable >= 0.0
    ensures RowUnder(r, i, rules).taxable >= 0.0
  {
    if rules != [] {
      RowUnderStaysNonNegative(r, i, rules[..|rules| - 1]);
    }
  }

  /** The first k rules leave the documented taxable amounts. */
  predicate FollowsDocuments(rows: seq<Row>, rules: seq<ActiveRule>, k: nat)
    requires k <= |rules|
  {
    SameTaxables(CodedRules(rows, rules[..k]), DocumentedRules(rows, rules[..k]))
  }

  /** If a rule is an overall reducing one, it finds rows on which the order does not matter. */
  predicate Harmless(rows: seq<Row>, rules: seq<ActiveRule>, k: nat)
    requires k < |rules|
  {
    rules[k].target.Overall? && !rules[k].kind.FlatRate? ==>
      OrderDoesNotMatter(CodedRules(rows, rules[..k]), rules[k].Limit())
  }

  lemma {:induction false} NextRuleFollowsIff(rows: seq<Row>, rules: seq<ActiveRule>, k: nat)
    requires NonNegative(rows) && k < |rules| && FollowsDocuments(rows, rules, k)
    ensures FollowsDocuments(rows, rules, k + 1) <==> Harmless(rows, rules, k)
  {
    var coded, documented := CodedRules(rows, rules[..k]), DocumentedRules(rows, rules[..k]);
    forall i | 0 <= i < |rows|
      ensures coded[i].taxable >= 0.0
    {
      RowUnderStaysNonNegative(rows[i], i, rules[..k]);
    }
    CodedRulesSnoc(rows, rules, k);
    hide CodedRules, DocumentedRules, CodedRule, OrderDoesNotMatter;
    DocumentedKeepsSame(coded, documented, rules[k]);
    if rules[k].target.Overall? && !rules[k].kind.FlatRate? {
      OverallRuleIsDocumentedIff(coded, rules[k]);
    }
  }

  lemma {:induction false} HarmlessFollows(rows: seq<Row>, rules: seq<ActiveRule>, k: nat)
    requires NonNegative(rows) && k <= |rules| && forall j :: 0 <= j < k ==> Harmless(rows, rules, j)
    ensures FollowsDocuments(rows, rules, k)
  {
    if k > 0 {
      HarmlessFollows(rows, rules, k - 1);
      NextRuleFollowsIff(rows, rules, k - 1);
    }
  }

  /** The code follows the documented allocation after every rule of a list exactly when each overall rule
      finds rows on which the order does not matter. */
  lemma {:induction false} RulesAreDocumentedIff(rows: seq<Row>, rules: seq<ActiveRule>)
    requires NonNegative(rows)
    ensures (forall k :: 0 <= k <= |rules| ==> FollowsDocuments(rows, rules, k))
       <==> (forall k :: 0 <= k < |rules| ==> Harmless(rows, rules, k))
  {
    hide Harmless, FollowsDocuments;
    if forall k :: 0 <= k < |rules| ==> Harmless(rows, rules, k) {
      forall k | 0 <= k <= |rules|
        ensures FollowsDocuments(rows, rules, k)
      {
        HarmlessFollows(rows, rules, k);
      }
    }
    if forall k :: 0 <= k <= |rules| ==> FollowsDocuments(rows, rules, k) {
      forall k | 0 <= k < |rules|
        ensures Harmless(rows, rules, k)
      {
        NextRuleFollowsIff(rows, rules, k);
      }
    }
  }

  /** What the estimate ends with is what its non-flat rules, in order, leave of the overall stage. */
  lemma {:induction false} EstimateIsCodedRules(rows: seq<Row>, m: ManualAmounts, rules: seq<ActiveRule>)
    requires |rows| == 5 && m.Valid()
    ensures NonNegative(OverallStage(rows, m))
    ensures SameTaxables(Estimate(rows, m, rules), CodedRules(OverallStage(rows, m), NonFlat(rules)))
  {
    var before := OverallStage(rows, m);
    forall i | 0 <= i < 5
      ensures before[i].taxable >= 0.0
      ensures Estimate(rows, m, rules)[i].taxable == RowUnder(before[i], i, NonFlat(rules)).taxable
    {
      OverallTaxable(rows, m, i);
      RatesAdd(RowUnder(before[i], i, NonFlat(rules)), i, rules);
    }
  }

  /** Five categories of 100 under an overall allowance rule of 50: the code takes 50 off each, the documented
      allocation 50 off the first. */
  lemma {:induction false} OverallRuleOverReduces()
    ensures var row := Row(100.0, 0.0, 0.0, 0.0, 100.0, 0.0, 0.0, []);
            var rule := Rule(1, Allowance, Overall, None, None, Some(50.0));
            var rows := [row, row, row, row, row];
            && rule.Clean()
            && CodedRule(rows, rule)[1].taxable == 50.0
            && DocumentedRule(rows, rule)[1].taxable == 100.0
            && Prefix(rows, 5) - Prefix(CodedRule(rows, rule), 5) == 250.0
            && Prefix(rows, 5) - Prefix(DocumentedRule(rows, rule), 5) == 50.0
  {
    var row := Row(100.0, 0.0, 0.0, 0.0, 100.0, 0.0, 0.0, []);
    var rule := Rule(1, Allowance, Overall, None, None, Some(50.0));
    var rows := [row, row, row, row, row];
    var coded := CodedRule(rows, rule);
    forall i | 0 <= i < 5
      ensures coded[i].taxable == 50.0
    {}
    PrefixOfEqual(rows, 100.0, 1);
    PrefixOfEqual(rows, 100.0, 2);
    PrefixOfEqual(rows, 100.0, 5);
    PrefixOfEqual(coded, 50.0, 5);
    hide Prefix, Waterfall, CodedRule;
    WaterfallClosedForm(rows, 50.0, Allowances, 1);
    WaterfallUses(rows, 50.0, Allowances, 5);
  }

  lemma {:induction false} PrefixOfEqual(rows: seq<Row>, amount: real, k: nat)
    requires k <= |rows| && forall i :: 0 <= i < k ==> rows[i].taxable == amount
    ensures Prefix(rows, k) == k as real * amount
  {
    if k > 0 {
      PrefixOfEqual(rows, amount, k - 1);
    }
  }

  // ----- order of the rules

  lemma {:induction false} LimitSumConcat(a: seq<ActiveRule>, b: seq<ActiveRule>, i: nat)
    ensures LimitSum(a + b, i) == LimitSum(a, i) + LimitSum(b, i)
    ensures RateSum(a + b, i) == RateSum(a, i) + RateSum(b, i)
    decreases |b|
  {
    if b == [] {
      assert a + b == a;
    } else {
      LimitSumConcat(a, b[..|b| - 1], i);
      assert (a + b)[..|a + b| - 1] == a + b[..|b| - 1];
    }
  }

  lemma {:induction false} WithoutOne(rules: seq<ActiveRule>, j: nat)
    requires j < |rules|
    ensures multiset(rules[..j] + rules[j + 1..]) == multiset(rules) - multiset{rules[j]}
  {
    assert rules == rules[..j] + ([rules[j]] + rules[j + 1..]);
  }

  lemma {:induction false} SumsWithoutOne(rules: seq<ActiveRule>, j: nat, i: nat)
    requires j < |rules|
    ensures LimitSum(rules, i) == LimitSum(rules[..j] + rules[j + 1..], i) + LimitSum([rules[j]], i)
    ensures RateSum(rules, i) == RateSum(rules[..j] + rules[j + 1..], i) + RateSum([rules[j]], i)
  {
    hide LimitSum, RateSum;
    assert rules == rules[..j] + [rules[j]] + rules[j + 1..];
    LimitSumConcat(rules[..j] + [rules[j]], rules[j + 1..], i);
    LimitSumConcat(rules[..j], [rules[j]], i);
    LimitSumConcat(rules[..j], rules[j + 1..], i);
  }

  lemma {:induction false} SumsIgnoreOrder(a: seq<ActiveRule>, b: seq<ActiveRule>, i: nat)
    requires multiset(a) == multiset(b)
    ensures LimitSum(a, i) == LimitSum(b, i) && RateSum(a, i) == RateSum(b, i)
  {
    hide LimitSum, RateSum;
    if a == [] {
      assert |multiset(b)| == 0;
    } else {
      assert a[0] in multiset(b);
      var j :| 0 <= j < |b| && b[j] == a[0];
      WithoutOne(a, 0);
      WithoutOne(b, j);
      SumsIgnoreOrder(a[..0] + a[1..], b[..j] + b[j + 1..], i);
      SumsWithoutOne(a, 0, i);
      SumsWithoutOne(b, j, i);
    }
  }

  /** Any reordering of the rules leaves every taxable amount and every tax as they were. */
  lemma {:induction false} RuleOrderIsIrrelevant(rows: seq<Row>, m: ManualAmounts, rules: seq<ActiveRule>,
      reordered: seq<ActiveRule>, i: nat)
    requires |rows| == 5 && m.Valid() && i < 5 && Raw(rows[i])
    requires multiset(rules) == multiset(reordered)
    ensures Estimate(rows, m, rules)[i].taxable == Estimate(rows, m, reordered)[i].taxable
    ensures Estimate(rows, m, rules)[i].tax == Estimate(rows, m, reordered)[i].tax
  {
    EstimateClosedForm(rows, m, rules, i);
    EstimateClosedForm(rows, m, reordered, i);
    SumsIgnoreOrder(rules, reordered, i);
  }

  // ----- audit trail

  /** The traces lead from one taxable amount to another, each taking up where the one before it ended. */
  predicate Chained(traces: seq<Trace>, start: real, end: real) {
    if traces == [] then start == end
    else
      var last := traces[|traces| - 1];
      && Chained(traces[..|traces| - 1], start, last.input)
      && last.input + last.adjustment == last.output == end
      && last.adjustment <= 0.0
  }

  function TraceTax(traces: seq<Trace>): real {
    if traces == [] then 0.0 else TraceTax(traces[..|traces| - 1]) + traces[|traces| - 1].tax
  }

  function TracedRules(traces: seq<Trace>): seq<ActiveRule> {
    seq(|traces|, k requires 0 <= k < |traces| => traces[k].rule)
  }

  function Hitting(rules: seq<ActiveRule>, i: nat): seq<ActiveRule> {
    if rules == [] then []
    else
      var last := rules[|rules| - 1];
      Hitting(rules[..|rules| - 1], i) + (if last.Hits(i) then [last] else [])
  }

  lemma {:induction false} UseRuleTraces(r: Row, rule: ActiveRule, start: real)
    requires r.taxable >= 0.0 && Chained(r.traces, start, r.taxable)
    ensures var s := UseRule(r, rule);
            && Chained(s.traces, start, s.taxable) && s.taxable >= 0.0
            && TraceTax(s.traces) - s.tax == TraceTax(r.traces) - r.tax
            && TracedRules(s.traces) == TracedRules(r.traces) + [rule]
  {
    var s := UseRule(r, rule);
    assert s.traces[..|r.traces|] == r.traces;
  }

  lemma {:induction false} RulesTrace(r: Row, i: nat, rules: seq<ActiveRule>, start: real)
    requires r.taxable >= 0.0 && Chained(r.traces, start, r.taxable)
    ensures var s := RowUnder(r, i, rules);
            && Chained(s.traces, start, s.taxable) && s.taxable >= 0.0
            && TraceTax(s.traces) - s.tax == TraceTax(r.traces) - r.tax
            && TracedRules(s.traces) == TracedRules(r.traces) + Hitting(rules, i)
  {
    if rules != [] {
      var front, last := rules[..|rules| - 1], rules[|rules| - 1];
      RulesTrace(r, i, front, start);
      if last.Hits(i) {
        UseRuleTraces(RowUnder(r, i, front), last, start);
      }
    }
  }

  /** Nothing taxable appears or disappears without a record: what is netted from gross and losses is
      taxable, allowed or deducted at the end; the traces lead from the amount after the manual stages to
      the final one, name exactly the rules that apply, non-flat ones first, and add up to the tax. */
  lemma {:induction false} AuditConservation(rows: seq<Row>, m: ManualAmounts, rules: seq<ActiveRule>, i: nat)
    requires |rows| == 5 && m.Valid() && i < 5 && Raw(rows[i])
    ensures var row := Estimate(rows, m, rules)[i];
            && Max(0.0, rows[i].gross + rows[i].losses) == row.taxable + row.allowances + row.deductions
            && row.gross == rows[i].gross && row.losses == rows[i].losses && row.withholding == rows[i].withholding
            && Chained(row.traces, OverallStage(rows, m)[i].taxable, row.taxable)
            && TraceTax(row.traces) == row.tax
            && TracedRules(row.traces) == Hitting(NonFlat(rules), i) + Hitting(Flat(rules), i)
  {
    hide OverallStage, RowUnder, NonFlat, Flat, Hitting;
    OverallTaxable(rows, m, i);
    OverallMoves(rows, m, i);
    var before := OverallStage(rows, m)[i];
    var reduced := RowUnder(before, i, NonFlat(rules));
    LimitsAdd(before, i, rules);
    RatesAdd(reduced, i, rules);
    assert Chained(before.traces, before.taxable, before.taxable);
    RulesTrace(before, i, NonFlat(rules), before.taxable);
    RulesTrace(reduced, i, Flat(rules), before.taxable);
    assert Estimate(rows, m, rules)[i] == RowUnder(reduced, i, Flat(rules));
  }

  // ----- coverage by flat rates

  predicate HasFlatTrace(r: Row) {
    exists k :: 0 <= k < |r.traces| && r.traces[k].rule.kind.FlatRate?
  }

  /** Some flat-rate rule is aimed at the category or at the overall basis. */
  ghost predicate Covered(rules: seq<ActiveRule>, i: nat) {
    exists r :: r in rules && r.kind.FlatRate? && r.Hits(i)
  }

  /** A category ends with a flat-rate trace exactly when a flat-rate rule is aimed at it. */
  lemma {:induction false} FlatTraceIff(rows: seq<Row>, m: ManualAmounts, rules: seq<ActiveRule>, i: nat)
    requires |rows| == 5 && m.Valid() && i < 5 && Raw(rows[i])
    ensures HasFlatTrace(Estimate(rows, m, rules)[i]) <==> Covered(rules, i)
  {
    AuditConservation(rows, m, rules, i);
    HittingMembers(NonFlat(rules), i);
    HittingMembers(Flat(rules), i);
    KindMembers(rules);
    hide Estimate, Hitting, NonFlat, Flat, Chained, TraceTax, OverallStage;
    var traces := Estimate(rows, m, rules)[i].traces;
    var traced := Hitting(NonFlat(rules), i) + Hitting(Flat(rules), i);
    assert TracedRules(traces) == traced;
    assert forall k :: 0 <= k < |traces| ==> traces[k].rule == traced[k];
    FlatAmong(traces, traced, rules, i);
  }

  lemma {:induction false} FlatAmong(traces: seq<Trace>, traced: seq<ActiveRule>, rules: seq<ActiveRule>, i: nat)
    requires |traces| == |traced| && forall k :: 0 <= k < |traces| ==> traces[k].rule == traced[k]
    requires forall r :: r in traced <==> r in rules && r.Hits(i)
    ensures (exists k :: 0 <= k < |traces| && traces[k].rule.kind.FlatRate?) <==> Covered(rules, i)
  {
    if r :| r in rules && r.kind.FlatRate? && r.Hits(i) {
      assert r in traced;
      var k :| 0 <= k < |traced| && traced[k] == r;
      assert traces[k].rule.kind.FlatRate?;
    }
    if k :| 0 <= k < |traces| && traces[k].rule.kind.FlatRate? {
      assert traced[k] in traced;
    }
  }

  lemma {:induction false} HittingMembers(rules: seq<ActiveRule>, i: nat)
    ensures forall r :: r in Hitting(rules, i) <==> r in rules && r.Hits(i)
  {
    if rules != [] {
      HittingMembers(rules[..|rules| - 1], i);
      assert rules == rules[..|rules| - 1] + [rules[|rules| - 1]];
    }
  }

  lemma {:induction false} KindMembers(rules: seq<ActiveRule>)
    ensures forall r :: r in NonFlat(rules) <==> r in rules && !r.kind.FlatRate?
    ensures forall r :: r in Flat(rules) <==> r in rules && r.kind.FlatRate?
  {
    if rules != [] {
      var front, last := rules[..|rules| - 1], rules[|rules| - 1];
      KindMembers(front);
      assert NonFlat(rules) == NonFlat(front) + (if last.kind.FlatRate? then [] else [last]);
      assert Flat(rules) == Flat(front) + (if last.kind.FlatRate? then [last] else []);
      hide NonFlat, Flat;
      assert rules == front + [last];
    }
  }

  // ----- monotonicity

  /** The second rule list is the first with no limit lowered. */
  predicate RaisedLimits(rules: seq<ActiveRule>, raised: seq<ActiveRule>) {
    |rules| == |raised| &&
    forall k :: 0 <= k < |rules| ==>
      && rules[k].kind == raised[k].kind && rules[k].target == raised[k].target && rules[k].rate == raised[k].rate
      && rules[k].Limit() <= raised[k].Limit()
  }

  /** The second input is the first with more gross income or fewer losses. */
  predicate MoreIncome(rows: seq<Row>, more: seq<Row>) {
    |rows| == |more| && forall i :: 0 <= i < |rows| ==>
        rows[i].gross <= more[i].gross && rows[i].losses <= more[i].losses
  }

  predicate LargerAmounts(m: ManualAmounts, larger: ManualAmounts)
    requires m.Valid() && larger.Valid()
  {
    && (forall i :: 0 <= i < 5 ==> m.allowances[i] <= larger.allowances[i] && m.deductions[i] <= larger.deductions[i])
    && m.overallAllowance <= larger.overallAllowance && m.overallDeduction <= larger.overallDeduction
  }

  lemma {:induction false} RaisedSums(rules: seq<ActiveRule>, raised: seq<ActiveRule>, i: nat)
    requires RaisedLimits(rules, raised)
    ensures LimitSum(rules, i) <= LimitSum(raised, i) && RateSum(rules, i) == RateSum(raised, i)
  {
    if rules != [] {
      RaisedSums(rules[..|rules| - 1], raised[..|raised| - 1], i);
    }
  }

  lemma {:induction false} OwnPrefixMonotone(rows: seq<Row>, m: ManualAmounts, more: seq<Row>,
      larger: ManualAmounts, k: nat)
    requires |rows| == |more| == 5 && m.Valid() && larger.Valid() && k <= 5
    requires MoreIncome(rows, more) && LargerAmounts(m, larger)
    ensures OwnPrefix(rows, larger, k) <= OwnPrefix(more, m, k)
  {
    if k > 0 {
      OwnPrefixMonotone(rows, m, more, larger, k - 1);
    }
  }

  /** For a fixed list of rules: more gross income never lowers, and larger losses, manual amounts or rule
      limits never raise, the taxable amount or the tax of any category, through every stage. */
  lemma {:induction false} TaxIsMonotone(rows: seq<Row>, larger: ManualAmounts, raised: seq<ActiveRule>,
                      more: seq<Row>, m: ManualAmounts, rules: seq<ActiveRule>, i: nat)
    requires |rows| == |more| == 5 && m.Valid() && larger.Valid() && i < 5 && Raw(rows[i]) && Raw(more[i])
    requires MoreIncome(rows, more) && LargerAmounts(m, larger) && RaisedLimits(rules, raised)
    ensures Estimate(rows, larger, raised)[i].taxable <= Estimate(more, m, rules)[i].taxable
    ensures Estimate(rows, larger, raised)[i].tax <= Estimate(more, m, rules)[i].tax
  {
    EstimateClosedForm(rows, larger, raised, i);
    EstimateClosedForm(more, m, rules, i);
    RaisedSums(rules, raised, i);
    OwnPrefixMonotone(rows, m, more, larger, i + 1);
    RateSumGrows(rules, i);
    assert Own(rows[i], larger.allowances[i], larger.deductions[i]) <= Own(more[i], m.allowances[i], m.deductions[i]);
    var less, greater := FinalTaxable(rows, larger, raised, i), FinalTaxable(more, m, rules, i);
    assert less <= greater;
    TimesMonotone(less, greater, RateSum(rules, i));
  }

  lemma {:induction false} TimesMonotone(x: real, y: real, rate: real)
    requires x <= y && rate >= 0.0
    ensures Times(x, rate) <= Times(y, rate)
  {}

  /** The total liability over the categories. */
  function Liability(rows: seq<Row>): real {
    if rows == [] then 0.0 else Liability(rows[..|rows| - 1]) + rows[|rows| - 1].tax
  }

  lemma {:induction false} LiabilityPointwise(a: seq<Row>, b: seq<Row>)
    requires |a| == |b| && forall i :: 0 <= i < |a| ==> a[i].tax <= b[i].tax
    ensures Liability(a) <= Liability(b)
  {
    if a != [] {
      LiabilityPointwise(a[..|a| - 1], b[..|b| - 1]);
    }
  }

  lemma {:induction false} LiabilityIsMonotone(rows: seq<Row>, larger: ManualAmounts, raised: seq<ActiveRule>,
                            more: seq<Row>, m: ManualAmounts, rules: seq<ActiveRule>)
    requires |rows| == |more| == 5 && m.Valid() && larger.Valid()
    requires forall i :: 0 <= i < 5 ==> Raw(rows[i]) && Raw(more[i])
    requires MoreIncome(rows, more) && LargerAmounts(m, larger) && RaisedLimits(rules, raised)
    ensures Liability(Estimate(rows, larger, raised)) <= Liability(Estimate(more, m, rules))
  {
    forall i | 0 <= i < 5
      ensures Estimate(rows, larger, raised)[i].tax <= Estimate(more, m, rules)[i].tax
    {
      TaxIsMonotone(rows, larger, raised, more, m, rules, i);
    }
    LiabilityPointwise(Estimate(rows, larger, raised), Estimate(more, m, rules));
  }
}

/** Tax years, their items and their rules as stored records behind their validation (tax/models.py). */
module TaxYears {
  import opened Wrappers
  import TaxTable

  datatype Status = OPEN | CLOSED | FILED | ARCHIVED

  datatype TaxYear = TaxYear(
    owner: nat, name: string, jurisdiction: string, start: int, end: int, currency: nat, status: Status, notes: string)

  /** A deduction or adjustment, which carry a date, or an allowance, which does not. */
  datatype YearItem = YearItem(owner: nat, year: nat, date: Option<int>, active: bool, content: string)

  datatype YearRule = YearRule(
    owner: Option<nat>, year: Option<nat>, jurisdiction: string, kind: TaxTable.RuleType, target: TaxTable.Target,
    rate: Option<real>, threshold: Option<real>, fixedAmount: Option<real>, active: bool)

  /** The stored rows, by primary key. */
  datatype Tables = Tables(years: map<nat, TaxYear>, items: map<nat, YearItem>, rules: map<nat, YearRule>)

  datatype Field = NameField | JurisdictionField | EndDate | StartDate | StatusField | Year | DateField | Owner
      | Rate | Threshold | Fixed | Pk

  // ----- years

  function UpperChar(c: char): char {
    if 'a' <= c <= 'z' then ((c as int) - 32) as char else c
  }

  function Upper(s: string): string {
    seq(|s|, i requires 0 <= i < |s| => UpperChar(s[i]))
  }

  predicate Overlaps(a: TaxYear, b: TaxYear) {
    a.start <= b.end && a.end >= b.start
  }

  predicate SameTracked(a: TaxYear, b: TaxYear) {
    && a.name == b.name && a.jurisdiction == b.jurisdiction && a.start == b.start && a.end == b.end
    && a.currency == b.currency && a.status == b.status && a.notes == b.notes
  }

  predicate ClashesWith(years: map<nat, TaxYear>, pk: Option<nat>, y: TaxYear, other: nat)
    requires other in years
  {
    && Some(other) != pk && years[other].owner == y.owner && years[other].jurisdiction == y.jurisdiction
    && Overlaps(years[other], y)
  }

  /** Another stored year of the owner and jurisdiction shares a day with this one. */
  predicate Overlapped(years: map<nat, TaxYear>, pk: Option<nat>, y: TaxYear) {
    exists other :: other in years && ClashesWith(years, pk, y, other)
  }

  predicate NameTaken(years: map<nat, TaxYear>, pk: Option<nat>, y: TaxYear) {
    exists other :: (
      && other in years && Some(other) != pk && years[other].owner == y.owner
      && years[other].jurisdiction == y.jurisdiction && years[other].name == y.name)
  }

  /** The errors `full_clean` finds in a year about to be stored, its jurisdiction already in upper case. */
  function YearErrors(years: map<nat, TaxYear>, pk: Option<nat>, y: TaxYear): set<Field> {
    (if y.name == "" || NameTaken(years, pk, y) then {NameField} else {})
    + (if y.jurisdiction == "" then {JurisdictionField} else {})
    + (if y.end < y.start then {EndDate} else {})
    + (if y.jurisdiction != "" && Overlapped(years, pk, y) then {StartDate} else {})
    + (if pk.Some? && pk.value in years && years[pk.value].status == FILED && !SameTracked(years[pk.value], y)
       then {StatusField} else {})
  }

  predicate IsFiled(t: Tables, year: nat) {
    year in t.years && t.years[year].status == FILED
  }

  // ----- items and rules

  /** `TaxYearItem.clean` and the date check of its subclasses. */
  function ItemErrors(t: Tables, item: YearItem): set<Field> {
    if item.year !in t.years then {Year}
    else
      var y := t.years[item.year];
      (if item.owner != y.owner || y.status == FILED then {Year} else {})
      + (if item.date.Some? && !(y.start <= item.date.value <= y.end) then {DateField} else {})
  }

  /** `TaxRule.clean` first rewrites the rule: the year's jurisdiction, and only the amount its type uses. */
  function Normalized(t: Tables, r: YearRule): YearRule {
    var placed :=
      if r.year.Some? && r.year.value in t.years then r.(jurisdiction := t.years[r.year.value].jurisdiction) else r;
    match r.kind
    case FlatRate => placed.(threshold := None, fixedAmount := None)
    case Threshold => placed.(rate := None, fixedAmount := None)
    case _ => placed.(rate := None, threshold := None)
  }

  function PlacementErrors(t: Tables, r: YearRule): set<Field> {
    (if r.owner.None? then {Owner} else {})
    + (if r.year.None? || r.year.value !in t.years
          || (r.owner.Some? && r.owner.value != t.years[r.year.value].owner)
          || t.years[r.year.value].status == FILED then {Year} else {})
  }

  /** The amount a rule's type needs must be there and in bounds; a rate is bounded on every rule. */
  function AmountErrors(r: YearRule): set<Field> {
    (if (r.kind.FlatRate? && r.rate.None?) || (r.rate.Some? && !(0.0 <= r.rate.value <= 100.0)) then {Rate} else {})
    + (if r.kind.Threshold? && (r.threshold.None? || r.threshold.value < 0.0) then {Threshold} else {})
    + (if (r.kind.Allowance? || r.kind.Deduction?) && (r.fixedAmount.None? || r.fixedAmount.value < 0.0)
       then {Fixed} else {})
  }

  /** The field validators, `TaxRule.clean`, and the constraints on the rewritten rule. */
  function RuleErrors(t: Tables, r: YearRule): set<Field> {
    PlacementErrors(t, r) + AmountErrors(r)
  }

  // ----- the operations on stored state

  datatype Action =
    | SaveYear(pk: nat, draft: TaxYear)
    | SaveItem(pk: nat, item: YearItem)
    | DeleteItem(pk: nat)
    | SaveRule(pk: nat, rule: YearRule)
    | DeleteRule(pk: nat)

  /** What the operation leaves stored.  A refused one changes nothing.  A fresh key inserts a row, a key in
      use replaces its row. */
  function After(t: Tables, a: Action): Tables {
    match a
    case SaveYear(pk, draft) =>
      var y := draft.(jurisdiction := Upper(draft.jurisdiction));
      if YearErrors(t.years, Some(pk), y) == {} then t.(years := t.years[pk := y]) else t
    case SaveItem(pk, item) =>
      if ItemErrors(t, item) == {} then t.(items := t.items[pk := item]) else t
    case DeleteItem(pk) =>
      if pk in t.items && !IsFiled(t, t.items[pk].year) then t.(items := t.items - {pk}) else t
    case SaveRule(pk, rule) =>
      if RuleErrors(t, rule) == {} then t.(rules := t.rules[pk := Normalized(t, rule)]) else t
    case DeleteRule(pk) =>
      if pk in t.rules && !(t.rules[pk].year.Some? && IsFiled(t, t.rules[pk].year.value))
          then t.(rules := t.rules - {pk}) else t
  }

  /** The database with the guarded save and delete methods of the models. */
  class TaxStore {
    var years: map<nat, TaxYear>
    var items: map<nat, YearItem>
    var rules: map<nat, YearRule>

    function Stored(): Tables
      reads this
    {
      Tables(years, items, rules)
    }

    constructor ()
      ensures Stored() == Tables(map[], map[], map[])
    {
      years, items, rules := map[], map[], map[];
    }

    /** `TaxYear.save`: clean fills a dictionary of errors, and only a clean year is stored. */
    method SaveYear(pk: nat, draft: TaxYear) returns (errors: set<Field>)
      modifies this
      ensures Stored() == After(old(Stored()), Action.SaveYear(pk, draft))
      ensures errors == YearErrors(old(years), Some(pk), draft.(jurisdiction := Upper(draft.jurisdiction)))
    {
      hide YearErrors, Upper;
      var y := draft.(jurisdiction := Upper(draft.jurisdiction));
      errors := CheckYear(pk, y);
      if errors == {} {
        years := years[pk := y];
      }
    }

    /** Fills the dictionary of errors. */
    method CheckYear(pk: nat, y: TaxYear) returns (errors: set<Field>)
      ensures errors == YearErrors(years, Some(pk), y)
    {
      hide Overlapped, NameTaken, SameTracked;
      errors := {};
      if y.name == "" {
        errors := errors + {NameField};
      }
      if y.jurisdiction == "" {
        errors := errors + {JurisdictionField};
      }
      if y.end < y.start {
        errors := errors + {EndDate};
      }
      if y.jurisdiction != "" && Overlapped(years, Some(pk), y) {
        errors := errors + {StartDate};
      }
      if NameTaken(years, Some(pk), y) {
        errors := errors + {NameField};
      }
      if pk in years {
        var previous := years[pk];
        if previous.status == FILED && !SameTracked(previous, y) {
          errors := errors + {StatusField};
        }
      }
    }

    method SaveItem(pk: nat, item: YearItem) returns (errors: set<Field>)
      modifies this
      ensures Stored() == After(old(Stored()), Action.SaveItem(pk, item))
      ensures errors == ItemErrors(old(Stored()), item)
    {
      errors := {};
      if item.year !in years {
        return {Year};
      }
      var y := years[item.year];
      if item.owner != y.owner {
        errors := errors + {Year};
      }
      if y.status == FILED {
        errors := errors + {Year};
      }
      if item.date.Some? && !(y.start <= item.date.value <= y.end) {
        errors := errors + {DateField};
      }
      if errors == {} {
        items := items[pk := item];
      }
    }

    method DeleteItem(pk: nat) returns (refused: bool)
      requires pk in items
      modifies this
      ensures Stored() == After(old(Stored()), Action.DeleteItem(pk))
      ensures refused == IsFiled(old(Stored()), old(items[pk]).year)
    {
      refused := items[pk].year in years && years[items[pk].year].status == FILED;
      if !refused {
        items := items - {pk};
      }
    }

    method SaveRule(pk: nat, rule: YearRule) returns (errors: set<Field>)
      modifies this
      ensures Stored() == After(old(Stored()), Action.SaveRule(pk, rule))
      ensures errors == RuleErrors(old(Stored()), rule)
    {
      var placement := CheckPlacement(rule);
      var r, amounts := CheckAmounts(rule);
      errors := placement + amounts;
      if errors == {} {
        rules := rules[pk := r];
      }
    }

    method CheckPlacement(r: YearRule) returns (errors: set<Field>)
      ensures errors == PlacementErrors(Stored(), r)
    {
      errors := {};
      if r.owner.None? {
        errors := errors + {Owner};
      }
      if r.year.None? || r.year.value !in years {
        errors := errors + {Year};
      } else if r.owner.Some? && r.owner.value != years[r.year.value].owner {
        errors := errors + {Year};
      } else if years[r.year.value].status == FILED {
        errors := errors + {Year};
      }
    }

    /** Looks at the amounts and rewrites the rule: amounts of other types are cleared before their own
        bounds are looked at. */
    method CheckAmounts(rule: YearRule) returns (r: YearRule, errors: set<Field>)
      ensures r == Normalized(Stored(), rule) && errors == AmountErrors(rule)
    {
      r, errors := rule, {};
      if r.rate.Some? && !(0.0 <= r.rate.value <= 100.0) {
        errors := errors + {Rate};
      }
      if r.year.Some? && r.year.value in years {
        r := r.(jurisdiction := years[r.year.value].jurisdiction);
      }
      if r.kind.FlatRate? {
        if r.rate.None? {
          errors := errors + {Rate};
        }
        r := r.(threshold := None, fixedAmount := None);
      } else if r.kind.Threshold? {
        if r.threshold.None? || r.threshold.value < 0.0 {
          errors := errors + {Threshold};
        }
        r := r.(rate := None, fixedAmount := None);
      } else {
        if r.fixedAmount.None? || r.fixedAmount.value < 0.0 {
          errors := errors + {Fixed};
        }
        r := r.(rate := None, threshold := None);
      }
    }

    method DeleteRule(pk: nat) returns (refused: bool)
      requires pk in rules
      modifies this
      ensures Stored() == After(old(Stored()), Action.DeleteRule(pk))
      ensures refused == (old(rules[pk]).year.Some? && IsFiled(old(Stored()), old(rules[pk]).year.value))
    {
      refused := rules[pk].year.Some? && rules[pk].year.value in years && years[rules[pk].year.value].status == FILED;
      if !refused {
        rules := rules - {pk};
      }
    }
  }

  // ----- runs

  const EMPTY := Tables(map[], map[], map[])

  function Run(t: Tables, actions: seq<Action>): Tables {
    if actions == [] then t else After(Run(t, actions[..|actions| - 1]), actions[|actions| - 1])
  }

  /** Every stored period is well formed, every stored jurisdiction is in upper case, and the periods of one
      owner and jurisdiction have no day in common. */
  ghost predicate PeriodsDisjoint(t: Tables) {
    && (forall p | p in t.years ::
          t.years[p].start <= t.years[p].end && Upper(t.years[p].jurisdiction) == t.years[p].jurisdiction != "")
    && (forall p, q | p in t.years && q in t.years && p != q
            && t.years[p].owner == t.years[q].owner && t.years[p].jurisdiction == t.years[q].jurisdiction ::
          t.years[p].end < t.years[q].start || t.years[q].end < t.years[p].start)
  }

  lemma {:induction false} UpperTwice(s: string)
    ensures Upper(Upper(s)) == Upper(s)
  {}

  lemma {:induction false} SaveYearKeepsDisjoint(t: Tables, pk: nat, draft: TaxYear)
    requires PeriodsDisjoint(t)
    ensures PeriodsDisjoint(After(t, SaveYear(pk, draft)))
  {
    var y := draft.(jurisdiction := Upper(draft.jurisdiction));
    UpperTwice(draft.jurisdiction);
    var t' := After(t, SaveYear(pk, draft));
    if YearErrors(t.years, Some(pk), y) == {} {
      assert y.jurisdiction != "" by {
        assert JurisdictionField !in YearErrors(t.years, Some(pk), y);
      }
      assert y.start <= y.end by {
        assert EndDate !in YearErrors(t.years, Some(pk), y);
      }
      assert !Overlapped(t.years, Some(pk), y) by {
        assert StartDate !in YearErrors(t.years, Some(pk), y);
      }
      hide YearErrors, Upper;
      forall p, q | p in t'.years && q in t'.years && p != q
          && t'.years[p].owner == t'.years[q].owner && t'.years[p].jurisdiction == t'.years[q].jurisdiction
        ensures t'.years[p].end < t'.years[q].start || t'.years[q].end < t'.years[p].start
      {
        if p == pk {
          assert !ClashesWith(t.years, Some(pk), y, q);
        } else if q == pk {
          assert !ClashesWith(t.years, Some(pk), y, p);
        }
      }
    }
  }

  /** In every run, whatever is attempted, the stored periods stay pairwise disjoint. */
  lemma {:induction false} PeriodsStayDisjoint(actions: seq<Action>)
    ensures PeriodsDisjoint(Run(EMPTY, actions))
  {
    if actions != [] {
      var n := |actions| - 1;
      PeriodsStayDisjoint(actions[..n]);
      match actions[n] {
        case SaveYear(pk, draft) => SaveYearKeepsDisjoint(Run(EMPTY, actions[..n]), pk, draft);
        case _ =>
      }
    }
  }

  /** A day belongs to at most one stored year of an owner and jurisdiction. */
  lemma {:induction false} DayInOneYear(actions: seq<Action>, p: nat, q: nat, day: int)
    requires p in Run(EMPTY, actions).years && q in Run(EMPTY, actions).years
    requires var a, b := Run(EMPTY, actions).years[p], Run(EMPTY, actions).years[q];
             a.owner == b.owner && a.jurisdiction == b.jurisdiction && a.start <= day <= a.end
                 && b.start <= day <= b.end
    ensures p == q
  {
    PeriodsStayDisjoint(actions);
  }

  // ----- the filed lock

  function ItemsOf(t: Tables, year: nat): map<nat, YearItem> {
    map pk | pk in t.items && t.items[pk].year == year :: t.items[pk]
  }

  function RulesOf(t: Tables, year: nat): map<nat, YearRule> {
    map pk | pk in t.rules && t.rules[pk].year == Some(year) :: t.rules[pk]
  }

  /** What the lock protects. */
  ghost predicate SameUnderLock(t: Tables, u: Tables, year: nat)
    requires year in t.years && year in u.years
  {
    SameTracked(t.years[year], u.years[year]) && ItemsOf(t, year) == ItemsOf(u, year)
        && RulesOf(t, year) == RulesOf(u, year)
  }

  /** Saving a stored item or rule of the year under another year: accepted, because only the year it is
      moved to is looked at. */
  predicate MovesOut(t: Tables, a: Action, year: nat) {
    || (a.SaveItem? && a.pk in t.items && t.items[a.pk].year == year && a.item.year != year
        && ItemErrors(t, a.item) == {})
    || (a.SaveRule? && a.pk in t.rules && t.rules[a.pk].year == Some(year) && a.rule.year != Some(year)
        && RuleErrors(t, a.rule) == {})
  }

  lemma {:induction false} FiledRefusesItem(t: Tables, item: YearItem)
    requires IsFiled(t, item.year)
    ensures ItemErrors(t, item) != {}
  {
    assert Year in ItemErrors(t, item);
  }

  lemma {:induction false} FiledRefusesRule(t: Tables, rule: YearRule)
    requires rule.year.Some? && IsFiled(t, rule.year.value)
    ensures RuleErrors(t, rule) != {}
  {
    assert Year in RuleErrors(t, rule);
  }

  lemma {:induction false} FiledRefusesYear(t: Tables, pk: nat, draft: TaxYear)
    requires IsFiled(t, pk)
    ensures pk in After(t, SaveYear(pk, draft)).years
        && SameTracked(t.years[pk], After(t, SaveYear(pk, draft)).years[pk])
  {
    var y := draft.(jurisdiction := Upper(draft.jurisdiction));
    if !SameTracked(t.years[pk], y) {
      assert StatusField in YearErrors(t.years, Some(pk), y);
    }
  }

  /** One operation changes what belongs to a filed year exactly when it moves an item or rule out of it. */
  lemma {:induction false} FiledLockIff(t: Tables, a: Action, year: nat)
    requires IsFiled(t, year)
    ensures year in After(t, a).years && IsFiled(After(t, a), year)
    ensures SameUnderLock(t, After(t, a), year) <==> !MovesOut(t, a, year)
  {
    match a
    case SaveYear(pk, draft) =>
      if pk == year {
        FiledRefusesYear(t, pk, draft);
      }
      hide YearErrors, Upper;
    case SaveItem(pk, item) => SaveItemUnderLock(t, pk, item, year);
    case DeleteItem(pk) =>
      assert ItemsOf(After(t, a), year) == ItemsOf(t, year);
    case SaveRule(pk, rule) => SaveRuleUnderLock(t, pk, rule, year);
    case DeleteRule(pk) =>
      assert RulesOf(After(t, a), year) == RulesOf(t, year);
  }

  lemma {:induction false} SaveItemUnderLock(t: Tables, pk: nat, item: YearItem, year: nat)
    requires IsFiled(t, year)
    ensures SameUnderLock(t, After(t, SaveItem(pk, item)), year) <==> !MovesOut(t, SaveItem(pk, item), year)
  {
    if item.year == year {
      FiledRefusesItem(t, item);
    }
    hide ItemErrors;
    var u := After(t, SaveItem(pk, item));
    if MovesOut(t, SaveItem(pk, item), year) {
      assert pk in ItemsOf(t, year) && pk !in ItemsOf(u, year);
    } else {
      assert ItemsOf(u, year) == ItemsOf(t, year);
    }
  }

  lemma {:induction false} SaveRuleUnderLock(t: Tables, pk: nat, rule: YearRule, year: nat)
    requires IsFiled(t, year)
    ensures SameUnderLock(t, After(t, SaveRule(pk, rule)), year) <==> !MovesOut(t, SaveRule(pk, rule), year)
  {
    if rule.year == Some(year) {
      FiledRefusesRule(t, rule);
    }
    assert Normalized(t, rule).year == rule.year;
    hide RuleErrors, Normalized;
    var u := After(t, SaveRule(pk, rule));
    if MovesOut(t, SaveRule(pk, rule), year) {
      assert pk in RulesOf(t, year) && pk !in RulesOf(u, year);
    } else {
      assert RulesOf(u, year) == RulesOf(t, year);
    }
  }

  /** Once a year is filed, no run of saves and deletes that never moves an item or rule out of it changes
      its tracked fields, its deductions, allowances and adjustments, or its rules. */
  lemma {:induction false} FiledLock(t: Tables, actions: seq<Action>, year: nat)
    requires IsFiled(t, year)
    requires forall k :: 0 <= k < |actions| ==> !MovesOut(Run(t, actions[..k]), actions[k], year)
    ensures IsFiled(Run(t, actions), year) && SameUnderLock(t, Run(t, actions), year)
  {
    if actions != [] {
      var n := |actions| - 1;
      forall k | 0 <= k < n
        ensures !MovesOut(Run(t, actions[..n][..k]), actions[..n][k], year)
      {
        assert actions[..n][..k] == actions[..k];
      }
      FiledLock(t, actions[..n], year);
      FiledLockIff(Run(t, actions[..n]), actions[n], year);
      hide Run, After;
    }
  }

  /** The gap is real: a deduction of a filed year can be saved under an open one. */
  lemma {:induction false} ItemsCanLeaveFiledYear()
    ensures var filed := TaxYear(1, "2024", "MT", 0, 364, 1, FILED, "");
            var open := TaxYear(1, "2025", "MT", 365, 729, 1, OPEN, "");
            var item := YearItem(1, 7, Some(10), true, "pension");
            var t := Tables(map[7 := filed, 8 := open], map[3 := item], map[]);
            var a := SaveItem(3, item.(year := 8, date := Some(400)));
            IsFiled(t, 7) && MovesOut(t, a, 7) && 3 in ItemsOf(t, 7) && 3 !in ItemsOf(After(t, a), 7)
  {}

  // ----- stored rules are what the estimate relies on

  predicate CarriesItsAmount(r: YearRule) {
    && TaxTable.Rule(0, r.kind, r.target, r.rate, r.threshold, r.fixedAmount).Clean()
    && (r.kind.FlatRate? <==> r.rate.Some?) && (r.kind.Threshold? <==> r.threshold.Some?)
    && (r.kind.Allowance? || r.kind.Deduction? <==> r.fixedAmount.Some?)
    && (r.rate.Some? ==> Within(r.rate, Some(100.0))) && (r.threshold.Some? ==> Within(r.threshold, None))
    && (r.fixedAmount.Some? ==> Within(r.fixedAmount, None))
  }

  ghost predicate RulesClean(t: Tables) {
    forall p | p in t.rules :: CarriesItsAmount(t.rules[p])
  }

  /** In every run each stored rule carries exactly the amount its type uses, within its bounds. */
  lemma {:induction false} RulesStayClean(actions: seq<Action>)
    ensures RulesClean(Run(EMPTY, actions))
  {
    if actions != [] {
      var n := |actions| - 1;
      RulesStayClean(actions[..n]);
      var t, a := Run(EMPTY, actions[..n]), actions[n];
      if a.SaveRule? && RuleErrors(t, a.rule) == {} {
        SavedRuleClean(t, a.rule);
      }
      hide RuleErrors, Normalized, CarriesItsAmount;
    }
  }

  lemma {:induction false} SavedRuleClean(t: Tables, r: YearRule)
    requires RuleErrors(t, r) == {}
    ensures CarriesItsAmount(Normalized(t, r))
  {
    assert Rate !in AmountErrors(r) && Threshold !in AmountErrors(r) && Fixed !in AmountErrors(r) by {
      assert AmountErrors(r) <= RuleErrors(t, r);
    }
  }

  // ----- what is accepted and what is then stored

  /** Upper case: letters are raised one for one, and nothing else changes. */
  lemma {:induction false} UpperRaises(s: string, i: nat)
    requires i < |s|
    ensures |Upper(s)| == |s|
    ensures if 'a' <= s[i] <= 'z' then Upper(s)[i] as int - 'A' as int == s[i] as int - 'a' as int
        else Upper(s)[i] == s[i]
  {}

  /** A year to be stored under a key does not get in the way of another stored year: other owners and jurisdictions
      never matter, and within one the periods have no day in common and the names differ. */
  predicate Fits(years: map<nat, TaxYear>, pk: nat, y: TaxYear) {
    forall other | other in years && other != pk && years[other].owner == y.owner
        && years[other].jurisdiction == y.jurisdiction ::
      (years[other].end < y.start || y.end < years[other].start) && years[other].name != y.name
  }

  /** A year can be saved exactly when it has a name, a jurisdiction and a period, fits among the stored ones,
      and, if the stored one is filed, changes none of its fields but the owner. Then just it is stored, its
      jurisdiction in upper case; otherwise nothing changes. */
  lemma {:induction false} YearSavedIff(t: Tables, pk: nat, draft: TaxYear)
    ensures var y := draft.(jurisdiction := Upper(draft.jurisdiction));
            var accepted := && y.name != "" && draft.jurisdiction != "" && y.start <= y.end && Fits(t.years, pk, y)
                            && (pk in t.years && t.years[pk].status == FILED ==> y == t.years[pk].(owner := y.owner));
            After(t, SaveYear(pk, draft)) == if accepted then t.(years := t.years[pk := y]) else t
  {
    var y := draft.(jurisdiction := Upper(draft.jurisdiction));
    assert |y.jurisdiction| == |draft.jurisdiction|;
    hide Upper;
    YearErrorsIff(t.years, pk, y);
    hide YearErrors, Fits;
  }

  lemma {:induction false} YearErrorsIff(years: map<nat, TaxYear>, pk: nat, y: TaxYear)
    ensures YearErrors(years, Some(pk), y) == {} <==>
              && y.name != "" && y.jurisdiction != "" && y.start <= y.end && Fits(years, pk, y)
              && (pk in years && years[pk].status == FILED ==> y == years[pk].(owner := y.owner))
  {
    NoErrorsIff(years, pk, y);
    FitsIff(years, pk, y);
    hide YearErrors, Fits, Overlapped, NameTaken;
  }

  lemma {:induction false} NoErrorsIff(years: map<nat, TaxYear>, pk: nat, y: TaxYear)
    ensures YearErrors(years, Some(pk), y) == {} <==>
              && y.name != "" && y.jurisdiction != "" && y.start <= y.end
              && !Overlapped(years, Some(pk), y) && !NameTaken(years, Some(pk), y)
              && (pk in years && years[pk].status == FILED ==> SameTracked(years[pk], y))
  {
    hide Overlapped, NameTaken, SameTracked;
    var errors := YearErrors(years, Some(pk), y);
    assert NameField in errors <==> y.name == "" || NameTaken(years, Some(pk), y);
    assert JurisdictionField in errors <==> y.jurisdiction == "";
    assert EndDate in errors <==> y.end < y.start;
    assert StartDate in errors <==> y.jurisdiction != "" && Overlapped(years, Some(pk), y);
    assert StatusField in errors <==> pk in years && years[pk].status == FILED && !SameTracked(years[pk], y);
  }

  lemma {:induction false} FitsIff(years: map<nat, TaxYear>, pk: nat, y: TaxYear)
    ensures Fits(years, pk, y) <==> !Overlapped(years, Some(pk), y) && !NameTaken(years, Some(pk), y)
  {
    if Fits(years, pk, y) {
      assert forall other | other in years :: !ClashesWith(years, Some(pk), y, other);
    } else {
      var other :| other in years && other != pk && years[other].owner == y.owner
        && years[other].jurisdiction == y.jurisdiction
        && !((years[other].end < y.start || y.end < years[other].start) && years[other].name != y.name);
      assert ClashesWith(years, Some(pk), y, other) || years[other].name == y.name;
    }
  }

  /** An item can be saved exactly under a stored year of its owner that is not filed and covers its date, if it
      has one; then just it is stored, as given. */
  lemma {:induction false} ItemSavedIff(t: Tables, pk: nat, item: YearItem)
    ensures var accepted :=
              && item.year in t.years && t.years[item.year].owner == item.owner && t.years[item.year].status != FILED
              && (item.date.Some? ==> t.years[item.year].start <= item.date.value <= t.years[item.year].end);
            After(t, SaveItem(pk, item)) == if accepted then t.(items := t.items[pk := item]) else t
  {
    if item.year in t.years {
      var errors := ItemErrors(t, item);
      assert Year in errors <==> item.owner != t.years[item.year].owner || t.years[item.year].status == FILED;
      assert DateField in errors <==>
             item.date.Some? && !(t.years[item.year].start <= item.date.value <= t.years[item.year].end);
    } else {
      assert Year in ItemErrors(t, item);
    }
  }

  /** An amount within bounds. */
  predicate Within(x: Option<real>, high: Option<real>) {
    x.Some? && x.value >= 0.0 && (high.Some? ==> x.value <= high.value)
  }

  /** A rule can be saved exactly with an owner, under a stored year of that owner that is not filed, with the amount of
      its type in bounds, and without a rate out of bounds.  It is stored with the year's jurisdiction and that amount
      alone, and otherwise as given. */
  lemma {:induction false} RuleSavedIff(t: Tables, pk: nat, r: YearRule)
    ensures var accepted :=
              && r.owner.Some? && r.year.Some? && r.year.value in t.years
              && t.years[r.year.value].owner == r.owner.value && t.years[r.year.value].status != FILED
              && (r.rate.Some? ==> Within(r.rate, Some(100.0)))
              && (match r.kind
                  case FlatRate => r.rate.Some?
                  case Threshold => Within(r.threshold, None)
                  case _ => Within(r.fixedAmount, None));
            var after := After(t, SaveRule(pk, r));
            if !accepted then after == t
            else
              && after == t.(rules := t.rules[pk := after.rules[pk]])
              && after.rules[pk].jurisdiction == t.years[r.year.value].jurisdiction
              && after.rules[pk].(jurisdiction := r.jurisdiction)
                 == (match r.kind
                     case FlatRate => r.(threshold := None, fixedAmount := None)
                     case Threshold => r.(rate := None, fixedAmount := None)
                     case _ => r.(rate := None, threshold := None))
  {
    RuleErrorsIff(t, r);
    hide RuleErrors;
  }

  lemma {:induction false} RuleErrorsIff(t: Tables, r: YearRule)
    ensures RuleErrors(t, r) == {} <==>
              && r.owner.Some? && r.year.Some? && r.year.value in t.years
              && t.years[r.year.value].owner == r.owner.value && t.years[r.year.value].status != FILED
              && (r.rate.Some? ==> Within(r.rate, Some(100.0)))
              && (match r.kind
                  case FlatRate => r.rate.Some?
                  case Threshold => Within(r.threshold, None)
                  case _ => Within(r.fixedAmount, None))
  {
    var placement, amounts := PlacementErrors(t, r), AmountErrors(r);
    assert Owner in placement <==> r.owner.None?;
    assert Year in placement <==>
           || r.year.None? || r.year.value !in t.years
           || (r.owner.Some? && r.owner.value != t.years[r.year.value].owner) || t.years[r.year.value].status == FILED;
    assert Rate in amounts <==>
           (r.kind.FlatRate? && r.rate.None?) || (r.rate.Some? && !(0.0 <= r.rate.value <= 100.0));
    assert Threshold in amounts <==> r.kind.Threshold? && (r.threshold.None? || r.threshold.value < 0.0);
    assert Fixed in amounts <==>
           (r.kind.Allowance? || r.kind.Deduction?) && (r.fixedAmount.None? || r.fixedAmount.value < 0.0);
    assert RuleErrors(t, r) == {} <==> placement == {} && amounts == {};
    hide PlacementErrors, AmountErrors, RuleErrors;
  }

  /** Deleting a stored item or rule takes just it away, unless its year is filed. */
  lemma {:induction false} DeletedIff(t: Tables, pk: nat)
    ensures pk in t.items ==>
              var year := t.items[pk].year;
              var filed := year in t.years && t.years[year].status == FILED;
              After(t, DeleteItem(pk)) == if filed then t else t.(items := t.items - {pk})
    ensures pk in t.rules ==>
              var year := t.rules[pk].year;
              var filed := year.Some? && year.value in t.years && t.years[year.value].status == FILED;
              After(t, DeleteRule(pk)) == if filed then t else t.(rules := t.rules - {pk})
  {}

  /** Under the lock, field by field and record by record: a filed year keeps its name, jurisdiction, period, currency,
      status and notes; the items and rules of the year are exactly those it had, as they were. */
  lemma {:induction false} FiledYearIsFrozen(t: Tables, actions: seq<Action>, year: nat)
    requires IsFiled(t, year)
    requires forall k :: 0 <= k < |actions| ==> !MovesOut(Run(t, actions[..k]), actions[k], year)
    ensures var u := Run(t, actions);
            && year in u.years && u.years[year] == t.years[year].(owner := u.years[year].owner)
            && (forall pk: nat | pk in t.items && t.items[pk].year == year ::
                  pk in u.items && u.items[pk] == t.items[pk])
            && (forall pk: nat | pk in u.items && u.items[pk].year == year ::
                  pk in t.items && t.items[pk] == u.items[pk])
            && (forall pk: nat | pk in t.rules && t.rules[pk].year == Some(year) ::
                  pk in u.rules && u.rules[pk] == t.rules[pk])
            && (forall pk: nat | pk in u.rules && u.rules[pk].year == Some(year) ::
                  pk in t.rules && t.rules[pk] == u.rules[pk])
  {
    FiledLock(t, actions, year);
    hide Run, MovesOut;
    SameRecords(t, Run(t, actions), year);
  }

  lemma {:induction false} SameRecords(t: Tables, u: Tables, year: nat)
    requires ItemsOf(t, year) == ItemsOf(u, year) && RulesOf(t, year) == RulesOf(u, year)
    ensures forall pk: nat | pk in t.items && t.items[pk].year == year :: pk in u.items && u.items[pk] == t.items[pk]
    ensures forall pk: nat | pk in u.items && u.items[pk].year == year :: pk in t.items && t.items[pk] == u.items[pk]
    ensures forall pk: nat | pk in t.rules && t.rules[pk].year == Some(year) ::
              pk in u.rules && u.rules[pk] == t.rules[pk]
    ensures forall pk: nat | pk in u.rules && u.rules[pk].year == Some(year) ::
              pk in t.rules && t.rules[pk] == u.rules[pk]
  {
    SameRecordsOneWay(t, u, year);
    SameRecordsOneWay(u, t, year);
  }

  lemma {:induction false} SameRecordsOneWay(t: Tables, u: Tables, year: nat)
    requires ItemsOf(t, year) == ItemsOf(u, year) && RulesOf(t, year) == RulesOf(u, year)
    ensures forall pk: nat | pk in t.items && t.items[pk].year == year :: pk in u.items && u.items[pk] == t.items[pk]
    ensures forall pk: nat | pk in t.rules && t.rules[pk].year == Some(year) ::
              pk in u.rules && u.rules[pk] == t.rules[pk]
  {
    forall pk: nat | pk in t.items && t.items[pk].year == year
      ensures pk in u.items && u.items[pk] == t.items[pk]
    {
      assert pk in ItemsOf(t, year) && ItemsOf(t, year)[pk] == t.items[pk];
      assert pk in ItemsOf(u, year) && ItemsOf(u, year)[pk] == u.items[pk];
    }
    forall pk: nat | pk in t.rules && t.rules[pk].year == Some(year)
      ensures pk in u.rules && u.rules[pk] == t.rules[pk]
    {
      assert pk in RulesOf(t, year) && RulesOf(t, year)[pk] == t.rules[pk];
      assert pk in RulesOf(u, year) && RulesOf(u, year)[pk] == u.rules[pk];
    }
  }
}

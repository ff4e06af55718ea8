/** Simple and compound interest (ledger/calculations/interest.py) and the fixed-term figures built on it
    (accounts/services/fixed_term.py). */
module Interest {
  import opened Wrappers
  import opened Decimals

  datatype Frequency = Daily | Monthly | Quarterly | Annually

  datatype InterestError = Unsupported | Reversed | NoPrincipal | NegativeRate | NoDuration | NoFrequency
      | UnknownMethod

  function PerYear(f: Frequency): nat {
    match f
    case Daily => 365
    case Monthly => 12
    case Quarterly => 4
    case Annually => 1
  }

  /** Decimal's power operator; only its values at whole exponents are relied on. */
  type Power = (real, real) -> real

  function Pow(x: real, n: nat): real { if n == 0 then 1.0 else Times(x, Pow(x, n - 1)) }

  ghost predicate AgreesOnWholes(pow: Power) {
    forall x: real, n: nat :: pow(x, n as real) == Pow(x, n)
  }

  /** Powers of a base of at least one start at one and never fall as the exponent rises. */
  ghost predicate GrowsWithExponent(pow: Power) {
    && (forall x: real | x >= 1.0 :: pow(x, 0.0) == 1.0)
    && (forall x: real, a: real, b: real | x >= 1.0 && 0.0 <= a <= b :: pow(x, a) <= pow(x, b))
  }

  /** `calculate_simple_interest` over a number of days, negative when the dates are reversed. */
  function SimpleInterest(principal: real, rate: real, days: int): Result<real, InterestError> {
    if days < 0 then Err(Reversed) else Ok(Times(Times(principal, rate), days as real) / 365.0)
  }

  /** `calculate_compound_interest`; the frequency is None for a name the table does not hold. */
  function CompoundInterest(pow: Power, principal: real, rate: real, days: int, frequency: Option<Frequency>)
    : Result<real, InterestError>
  {
    if frequency.None? then Err(Unsupported)
    else if days < 0 then Err(Reversed)
    else
      var n := PerYear(frequency.value) as real;
      Ok(Times(principal, pow(1.0 + rate / n, n * (days as real / 365.0)) - 1.0))
  }

  // ----- powers

  lemma {:induction false} PowAdds(x: real, a: nat, b: nat)
    ensures Pow(x, a + b) == Times(Pow(x, a), Pow(x, b))
  {
    if a > 0 {
      PowAdds(x, a - 1, b);
      TimesAssociates(x, Pow(x, a - 1), Pow(x, b));
    }
  }

  lemma {:induction false} PowMultiplies(x: real, a: nat, b: nat)
    ensures Pow(x, a * b) == Pow(Pow(x, a), b)
  {
    if b > 0 {
      PowMultiplies(x, a, b - 1);
      assert a * b == a + a * (b - 1);
      PowAdds(x, a, a * (b - 1));
    } else {
      assert a * b == 0;
    }
  }

  lemma {:induction false} TimesKeepsOrder(x: real, y: real, u: real, v: real)
    requires 0.0 <= x <= y && 0.0 <= u <= v
    ensures 0.0 <= Times(x, u) <= Times(y, v)
  {
    assert x * u <= x * v <= y * v;
  }

  lemma {:induction false} PowIsPositive(x: real, n: nat)
    requires x > 0.0
    ensures Pow(x, n) > 0.0
  {
    if n > 0 {
      PowIsPositive(x, n - 1);
      assert x * Pow(x, n - 1) > 0.0;
    }
  }

  lemma {:induction false} PowGrowsWithBase(x: real, y: real, n: nat)
    requires 0.0 <= x <= y
    ensures 0.0 <= Pow(x, n) <= Pow(y, n)
  {
    if n > 0 {
      PowGrowsWithBase(x, y, n - 1);
      TimesKeepsOrder(x, y, Pow(x, n - 1), Pow(y, n - 1));
    }
  }

  lemma {:induction false} PowGrowsWithExponent(x: real, a: nat, b: nat)
    requires x >= 1.0 && a <= b
    ensures 1.0 <= Pow(x, a) <= Pow(x, b)
  {
    PowGrowsWithBase(1.0, x, a);
    PowOfOne(a);
    if a < b {
      PowGrowsWithExponent(x, a, b - 1);
      TimesKeepsOrder(1.0, x, Pow(x, b - 1), Pow(x, b - 1));
      assert Times(1.0, Pow(x, b - 1)) == Pow(x, b - 1);
    }
  }

  /** The power to the whole part of the exponent. */
  function WholePower(x: real, y: real): real { if y >= 0.0 then Pow(x, y.Floor) else 0.0 }

  /** There are power operators with the properties relied on. */
  lemma {:induction false} WholePowerFits()
    ensures AgreesOnWholes(WholePower) && GrowsWithExponent(WholePower)
  {
    forall x: real, n: nat
      ensures WholePower(x, n as real) == Pow(x, n)
    {
      assert (n as real).Floor == n;
    }
    forall x: real, a: real, b: real | x >= 1.0 && 0.0 <= a <= b
      ensures WholePower(x, a) <= WholePower(x, b)
    {
      PowGrowsWithExponent(x, a.Floor, b.Floor);
    }
    assert (0.0).Floor == 0;
  }

  lemma {:induction false} PowOfOne(n: nat)
    ensures Pow(1.0, n) == 1.0
  {
    if n > 0 {
      PowOfOne(n - 1);
    }
  }

  lemma {:induction false} PowOfProduct(x: real, y: real, n: nat)
    ensures Pow(Times(x, y), n) == Times(Pow(x, n), Pow(y, n))
  {
    if n > 0 {
      PowOfProduct(x, y, n - 1);
      var p, q := Pow(x, n - 1), Pow(y, n - 1);
      assert (x * y) * (p * q) == (x * p) * (y * q);
    }
  }

  /** Bernoulli's inequality. */
  lemma {:induction false} Bernoulli(x: real, n: nat)
    requires x >= -1.0
    ensures Pow(1.0 + x, n) >= 1.0 + Times(n as real, x)
  {
    if n > 0 {
      Bernoulli(x, n - 1);
      var m := (n - 1) as real;
      ScaleKeepsOrder(1.0 + x, 1.0 + Times(m, x), Pow(1.0 + x, n - 1));
      BernoulliStep(x, m);
      assert Times(n as real, x) == Times(m + 1.0, x);
    }
  }

  lemma {:induction false} BernoulliStep(x: real, m: real)
    requires m >= 0.0
    ensures Times(1.0 + x, 1.0 + Times(m, x)) >= 1.0 + Times(m + 1.0, x)
  {
    var square := x * x;
    assert square >= 0.0;
    assert m * square >= 0.0;
    assert x * (m * x) == m * square;
    assert (1.0 + x) * (1.0 + m * x) == 1.0 + m * x + x + x * (m * x);
    assert (m + 1.0) * x == m * x + x;
  }

  lemma {:induction false} ScaleKeepsOrder(p: real, x: real, y: real)
    requires p >= 0.0 && x <= y
    ensures Times(p, x) <= Times(p, y)
  {
    assert p * (y - x) >= 0.0;
  }

  // ----- more frequent compounding gives more

  /** One year's growth at n periods. */
  function YearGrowth(rate: real, n: nat): real
    requires n > 0
  {
    Pow(1.0 + rate / n as real, n)
  }

  /** The ratio of two consecutive period factors, against which Bernoulli's inequality is used. */
  lemma {:induction false} FactorRatio(rate: real, n: nat)
    requires rate >= 0.0 && n > 0
    ensures var a, b := 1.0 + rate / n as real, 1.0 + rate / (n + 1) as real;
            var x := (b - a) / a;
            && a >= 1.0 && b > 0.0 && x >= -1.0
            && Times(a, 1.0 + x) == b
            && 1.0 + Times((n + 1) as real, x) == 1.0 / a
  {
    var s, t := n as real, (n + 1) as real;
    var p, q := rate / s, rate / t;
    var a, b := 1.0 + p, 1.0 + q;
    var x := (b - a) / a;
    assert p * s == rate && q * t == rate && t == s + 1.0;
    assert x * a == b - a;
    assert t * (b - a) == q * t - p * t == rate - (p * s + p) == 1.0 - a;
    assert a * (1.0 + x) == b;
    assert (1.0 + t * x) * a == a + t * (x * a) == 1.0;
    assert 1.0 + t * x == 1.0 / a;
    assert (1.0 + x) * a > 0.0;
    assert x >= -1.0;
  }

  lemma {:induction false} OnePeriodMore(rate: real, n: nat)
    requires rate >= 0.0 && n > 0
    ensures YearGrowth(rate, n) <= YearGrowth(rate, n + 1)
  {
    var a, b := 1.0 + rate / n as real, 1.0 + rate / (n + 1) as real;
    var x := (b - a) / a;
    FactorRatio(rate, n);
    Bernoulli(x, n + 1);
    PowOfProduct(a, 1.0 + x, n + 1);
    PowIsPositive(a, n);
    PowIsPositive(a, n + 1);
    var bound := 1.0 / a;
    assert Pow(b, n + 1) == Times(Pow(a, n + 1), Pow(1.0 + x, n + 1));
    ScaleKeepsOrder(Pow(a, n + 1), bound, Pow(1.0 + x, n + 1));
    assert Times(Pow(a, n + 1), bound) == Pow(a, n) by {
      Cancel(a, Pow(a, n));
    }
  }

  lemma {:induction false} Cancel(a: real, p: real)
    requires a > 0.0
    ensures Times(Times(a, p), 1.0 / a) == p
  {
    var inverse := 1.0 / a;
    assert a * inverse == 1.0;
    assert (a * p) * inverse == p * (a * inverse);
  }

  lemma {:induction false} MorePeriods(rate: real, m: nat, n: nat)
    requires rate >= 0.0 && 0 < m <= n
    ensures YearGrowth(rate, m) <= YearGrowth(rate, n)
  {
    if m < n {
      MorePeriods(rate, m, n - 1);
      OnePeriodMore(rate, n - 1);
    }
  }

  /** Compound interest over whole years, as a power of one year's growth. */
  lemma {:induction false} CompoundOverYears(pow: Power, principal: real, rate: real, years: nat, f: Frequency)
    requires AgreesOnWholes(pow)
    ensures CompoundInterest(pow, principal, rate, 365 * years, Some(f))
         == Ok(Times(principal, Pow(YearGrowth(rate, PerYear(f)), years) - 1.0))
  {
    var n := PerYear(f);
    var base := 1.0 + rate / n as real;
    assert n as real * ((365 * years) as real / 365.0) == (n * years) as real;
    assert pow(base, (n * years) as real) == Pow(base, n * years);
    PowMultiplies(base, n, years);
  }

  /** Over any whole number of 365-day years, at any rate that is not negative: simple interest is at most
      annual, annual at most quarterly, quarterly at most monthly and monthly at most daily compounding. */
  lemma {:induction false} CompoundingOrder(pow: Power, principal: real, rate: real, years: nat)
    requires AgreesOnWholes(pow) && principal >= 0.0 && rate >= 0.0
    ensures var c := (f: Frequency) => CompoundInterest(pow, principal, rate, 365 * years, Some(f));
            && c(Annually).Ok? && c(Quarterly).Ok? && c(Monthly).Ok? && c(Daily).Ok?
            && SimpleInterest(principal, rate, 365 * years).Ok?
            && SimpleInterest(principal, rate, 365 * years).value <= c(Annually).value
            && c(Annually).value <= c(Quarterly).value <= c(Monthly).value <= c(Daily).value
  {
    CompoundOverYears(pow, principal, rate, years, Annually);
    CompoundOverYears(pow, principal, rate, years, Quarterly);
    CompoundOverYears(pow, principal, rate, years, Monthly);
    CompoundOverYears(pow, principal, rate, years, Daily);
    MoreOverYears(principal, rate, years, 1, 4);
    MoreOverYears(principal, rate, years, 4, 12);
    MoreOverYears(principal, rate, years, 12, 365);
    SimpleIsLeast(principal, rate, years);
  }

  lemma {:induction false} MoreOverYears(principal: real, rate: real, years: nat, m: nat, n: nat)
    requires principal >= 0.0 && rate >= 0.0 && 0 < m <= n
    ensures Times(principal, Pow(YearGrowth(rate, m), years) - 1.0)
        <= Times(principal, Pow(YearGrowth(rate, n), years) - 1.0)
  {
    MorePeriods(rate, m, n);
    assert rate / m as real >= 0.0;
    PowIsPositive(1.0 + rate / m as real, m);
    PowGrowsWithBase(YearGrowth(rate, m), YearGrowth(rate, n), years);
    ScaleKeepsOrder(principal, Pow(YearGrowth(rate, m), years) - 1.0, Pow(YearGrowth(rate, n), years) - 1.0);
  }

  lemma {:induction false} SimpleIsLeast(principal: real, rate: real, years: nat)
    requires principal >= 0.0 && rate >= 0.0
    ensures SimpleInterest(principal, rate, 365 * years).value
        <= Times(principal, Pow(YearGrowth(rate, 1), years) - 1.0)
  {
    var y := years as real;
    Bernoulli(rate, years);
    assert YearGrowth(rate, 1) == 1.0 + rate by {
      assert Pow(1.0 + rate, 0) == 1.0 && Pow(1.0 + rate, 1) == Times(1.0 + rate, Pow(1.0 + rate, 0));
    }
    ScaleKeepsOrder(principal, Times(y, rate), Pow(1.0 + rate, years) - 1.0);
    assert (365 * years) as real == 365.0 * y;
    assert principal * rate * (365.0 * y) / 365.0 == principal * (y * rate);
  }

  // ----- daily compounding

  /** What one unit grows to over some days of daily compounding. */
  function DailyGrowth(rate: real, days: nat): real { Pow(1.0 + rate / 365.0, days) }

  lemma {:induction false} DailyInterest(pow: Power, principal: real, rate: real, days: nat)
    requires AgreesOnWholes(pow)
    ensures CompoundInterest(pow, principal, rate, days, Some(Daily))
        == Ok(Times(principal, DailyGrowth(rate, days) - 1.0))
  {
    assert 365.0 * (days as real / 365.0) == days as real;
    assert pow(1.0 + rate / 365.0, days as real) == Pow(1.0 + rate / 365.0, days);
  }

  /** Leaving a deposit for some days and then some more is leaving what the first days made of it for the
      rest, for any numbers of days. */
  lemma {:induction false} DailyGrowthComposes(pow: Power, principal: real, rate: real, a: nat, b: nat)
    requires AgreesOnWholes(pow)
    ensures DailyGrowth(rate, a + b) == Times(DailyGrowth(rate, a), DailyGrowth(rate, b))
    ensures var first := CompoundInterest(pow, principal, rate, a, Some(Daily)).value;
            CompoundInterest(pow, principal, rate, a + b, Some(Daily)).value
            == first + CompoundInterest(pow, principal + first, rate, b, Some(Daily)).value
  {
    PowAdds(1.0 + rate / 365.0, a, b);
    DailyInterest(pow, principal, rate, a);
    DailyInterest(pow, principal, rate, a + b);
    var first := Times(principal, DailyGrowth(rate, a) - 1.0);
    DailyInterest(pow, principal + first, rate, b);
    hide DailyGrowth, CompoundInterest;
    GrowthSplits(principal, DailyGrowth(rate, a), DailyGrowth(rate, b));
  }

  lemma {:induction false} GrowthSplits(principal: real, u: real, v: real)
    ensures var first := Times(principal, u - 1.0);
            Times(principal, Times(u, v) - 1.0) == first + Times(principal + first, v - 1.0)
  {
    var first := principal * (u - 1.0);
    assert principal + first == principal * u;
    assert principal * (u * v) == (principal * u) * v;
  }

  // ----- fixed terms

  datatype Method = Simple | Compound

  datatype Projection = Projection(principal: real, interest: real, maturityValue: real, days: int)

  /** `calculate_fixed_term_projection`; the method is None for a name that is neither, and the frequency is
      None inside when the name given is not in the table. */
  function Project(pow: Power, principal: real, rate: real, start: int, maturity: int, kind: Option<Method>,
                   frequency: Option<Option<Frequency>>): Result<Projection, InterestError>
  {
    if principal <= 0.0 then Err(NoPrincipal)
    else if rate < 0.0 then Err(NegativeRate)
    else if maturity <= start then Err(NoDuration)
    else if kind.None? then Err(UnknownMethod)
    else if kind.value.Compound? && frequency.None? then Err(NoFrequency)
    else
      match (if kind.value.Simple? then SimpleInterest(principal, rate, maturity - start)
             else CompoundInterest(pow, principal, rate, maturity - start, frequency.value))
      case Err(e) => Err(e)
      case Ok(interest) => Ok(Projection(principal, interest, principal + interest, maturity - start))
  }

  /** The stored contract; its constraints and `clean` hold. */
  datatype Contract = Contract(principal: real, rate: real, start: int, maturity: int, kind: Method,
      frequency: Option<Frequency>)

  type Term = c: Contract | c.principal > 0.0 && c.rate >= 0.0 && c.maturity > c.start
      && (c.kind.Compound? ==> c.frequency.Some?)
    witness Contract(1.0, 0.0, 0, 1, Simple, None)

  datatype Progress = Progress(accrued: real, elapsed: int, remaining: int, percent: real)

  function ProjectTerm(pow: Power, t: Term, end: int): Result<Projection, InterestError> {
    Project(pow, t.principal, t.rate, t.start, end, Some(t.kind), if t.frequency.Some? then Some(t.frequency) else None)
  }

  /** `calculate_fixed_term_progress`. */
  function ProgressOf(pow: Power, t: Term, asOf: int): Progress {
    var duration := t.maturity - t.start;
    if asOf < t.start then Progress(0.0, 0, duration, 0.0)
    else
      var effective := if asOf <= t.maturity then asOf else t.maturity;
      var elapsed := effective - t.start;
      var accrued := if elapsed != 0 then ProjectTerm(pow, t, effective).value.interest else 0.0;
      var remaining := if t.maturity - asOf > 0 then t.maturity - asOf else 0;
      Progress(accrued, elapsed, remaining, Min(elapsed as real * 100.0 / duration as real, 100.0))
  }

  /** From its maturity on a contract shows the projected interest in full, no days left and 100 percent;
      before that the days elapsed and remaining make up its duration and the percentage is in between. */
  lemma {:induction false} ProgressIsConsistent(pow: Power, t: Term, asOf: int)
    ensures var p := ProgressOf(pow, t, asOf);
            && 0.0 <= p.percent <= 100.0 && p.elapsed >= 0 && p.remaining >= 0
            && (asOf >= t.start ==> p.elapsed + p.remaining == t.maturity - t.start)
            && (p.percent == 100.0 <==> asOf >= t.maturity)
            && (asOf >= t.maturity ==> p.remaining == 0 && p.accrued == ProjectTerm(pow, t, t.maturity).value.interest)
  {
    var duration := t.maturity - t.start;
    if asOf >= t.start {
      var elapsed := (if asOf <= t.maturity then asOf else t.maturity) - t.start;
      PercentInRange(elapsed, duration);
    }
  }

  lemma {:induction false} PercentInRange(elapsed: int, duration: int)
    requires 0 <= elapsed <= duration && duration > 0
    ensures var p := elapsed as real * 100.0 / duration as real;
            0.0 <= p <= 100.0 && (p == 100.0 <==> elapsed == duration)
  {
    var e, d := elapsed as real, duration as real;
    QuotientCompares(e * 100.0, d, 100.0);
    QuotientCompares(e * 100.0, d, 0.0);
  }

  /** A quotient compares with a number as the dividend does with its product. */
  lemma {:induction false} QuotientCompares(x: real, d: real, y: real)
    requires d > 0.0
    ensures x / d > y <==> x > y * d
    ensures x / d < y <==> x < y * d
  {
    var q := x / d;
    assert q * d == x;
    if q > y {
      PositiveProduct(q - y, d);
    } else if q < y {
      PositiveProduct(y - q, d);
    }
  }

  lemma {:induction false} PositiveProduct(x: real, y: real)
    requires x > 0.0 && y > 0.0
    ensures x * y > 0.0
  {}

  /** Accrued interest never falls as days pass, with simple interest and with daily compounding. */
  lemma {:induction false} AccruedNeverFalls(pow: Power, t: Term, earlier: int, later: int)
    requires AgreesOnWholes(pow) && earlier <= later
    requires t.kind.Simple? || t.frequency == Some(Daily)
    ensures 0.0 <= ProgressOf(pow, t, earlier).accrued <= ProgressOf(pow, t, later).accrued
  {
    AccruedIs(pow, t, earlier);
    AccruedIs(pow, t, later);
    var a, b := Elapsed(t, earlier), Elapsed(t, later);
    hide ProgressOf;
    if t.kind.Simple? {
      SimpleGrows(t.principal, t.rate, 0, a);
      SimpleGrows(t.principal, t.rate, a, b);
    } else {
      assert t.rate / 365.0 >= 0.0;
      PowGrowsWithExponent(1.0 + t.rate / 365.0, a, b);
      ScaleKeepsOrder(t.principal, 0.0, DailyGrowth(t.rate, a) - 1.0);
      ScaleKeepsOrder(t.principal, DailyGrowth(t.rate, a) - 1.0, DailyGrowth(t.rate, b) - 1.0);
      assert Times(t.principal, 0.0) == 0.0;
    }
  }

  /** The same for every method and frequency, when the power operator grows with its exponent. */
  lemma {:induction false} AnyAccrualNeverFalls(pow: Power, t: Term, earlier: int, later: int)
    requires GrowsWithExponent(pow) && earlier <= later
    ensures 0.0 <= ProgressOf(pow, t, earlier).accrued <= ProgressOf(pow, t, later).accrued
  {
    var a, b := Elapsed(t, earlier), Elapsed(t, later);
    AccruedIsInterest(pow, t, earlier);
    AccruedIsInterest(pow, t, later);
    hide ProgressOf, InterestOf;
    InterestGrows(pow, t, 0, a);
    InterestGrows(pow, t, a, b);
  }

  /** The interest of a contract over some days. */
  function InterestOf(pow: Power, t: Term, days: nat): real {
    if t.kind.Simple? then SimpleInterest(t.principal, t.rate, days).value
    else CompoundInterest(pow, t.principal, t.rate, days, t.frequency).value
  }

  lemma {:induction false} AccruedIsInterest(pow: Power, t: Term, asOf: int)
    requires GrowsWithExponent(pow)
    ensures ProgressOf(pow, t, asOf).accrued == InterestOf(pow, t, Elapsed(t, asOf))
    ensures InterestOf(pow, t, 0) == 0.0
  {
    if t.kind.Simple? {
      SimpleGrows(t.principal, t.rate, 0, 0);
    } else {
      var n := PerYear(t.frequency.value) as real;
      assert n * (0 as real / 365.0) == 0.0;
      BaseIsAtLeastOne(t.rate, n);
      assert pow(1.0 + t.rate / n, 0.0) == 1.0;
      assert Times(t.principal, 0.0) == 0.0;
    }
  }

  lemma {:induction false} BaseIsAtLeastOne(rate: real, n: real)
    requires rate >= 0.0 && n > 0.0
    ensures 1.0 + rate / n >= 1.0
  {
    QuotientCompares(rate, n, 0.0);
  }

  lemma {:induction false} InterestGrows(pow: Power, t: Term, a: nat, b: nat)
    requires GrowsWithExponent(pow) && a <= b
    ensures InterestOf(pow, t, a) <= InterestOf(pow, t, b)
  {
    if t.kind.Simple? {
      SimpleGrows(t.principal, t.rate, a, b);
    } else {
      var n := PerYear(t.frequency.value) as real;
      BaseIsAtLeastOne(t.rate, n);
      var x, y := n * (a as real / 365.0), n * (b as real / 365.0);
      assert 0.0 <= x <= y;
      assert pow(1.0 + t.rate / n, x) <= pow(1.0 + t.rate / n, y);
      ScaleKeepsOrder(t.principal, pow(1.0 + t.rate / n, x) - 1.0, pow(1.0 + t.rate / n, y) - 1.0);
    }
  }

  function Elapsed(t: Term, asOf: int): nat {
    if asOf < t.start then 0 else if asOf <= t.maturity then asOf - t.start else t.maturity - t.start
  }

  lemma {:induction false} AccruedIs(pow: Power, t: Term, asOf: int)
    requires AgreesOnWholes(pow) && (t.kind.Simple? || t.frequency == Some(Daily))
    ensures ProgressOf(pow, t, asOf).accrued
         == if t.kind.Simple? then SimpleInterest(t.principal, t.rate, Elapsed(t, asOf)).value
            else Times(t.principal, DailyGrowth(t.rate, Elapsed(t, asOf)) - 1.0)
  {
    DailyInterest(pow, t.principal, t.rate, Elapsed(t, asOf));
    assert Times(t.principal, 0.0) == 0.0;
    assert Times(Times(t.principal, t.rate), 0.0) == 0.0;
    assert DailyGrowth(t.rate, 0) == 1.0;
  }

  lemma {:induction false} SimpleGrows(principal: real, rate: real, a: nat, b: nat)
    requires principal > 0.0 && rate >= 0.0 && a <= b
    ensures SimpleInterest(principal, rate, a).value <= SimpleInterest(principal, rate, b).value
    ensures SimpleInterest(principal, rate, 0).value == 0.0
  {
    var k := Times(principal, rate);
    assert k >= 0.0;
    ScaleKeepsOrder(k, a as real, b as real);
    assert Times(k, 0.0) == 0.0;
  }

  // ----- the figures themselves

  /** Simple interest is principal times rate for each day of a 365th of a year, and refuses reversed dates. */
  lemma {:induction false} SimpleInterestIs(principal: real, rate: real, days: int)
    ensures var r := SimpleInterest(principal, rate, days);
            if days < 0 then r == Err(Reversed)
            else r.Ok? && 365.0 * r.value == principal * rate * days as real
  {}

  /** Over whole years of 365 days: simple interest adds the yearly interest once a year; compounding multiplies by one
      plus a 365th of the rate each day, a twelfth each month, a quarter each quarter, all of it each year. */
  lemma {:induction false} WholeYearFigures(pow: Power, principal: real, rate: real, years: nat)
    requires AgreesOnWholes(pow)
    ensures SimpleInterest(principal, rate, 365 * years) == Ok(Times(Times(principal, rate), years as real))
    ensures CompoundInterest(pow, principal, rate, 365 * years, Some(Daily))
         == Ok(Times(principal, Pow(1.0 + rate / 365.0, 365 * years) - 1.0))
    ensures CompoundInterest(pow, principal, rate, 365 * years, Some(Monthly))
         == Ok(Times(principal, Pow(1.0 + rate / 12.0, 12 * years) - 1.0))
    ensures CompoundInterest(pow, principal, rate, 365 * years, Some(Quarterly))
         == Ok(Times(principal, Pow(1.0 + rate / 4.0, 4 * years) - 1.0))
    ensures CompoundInterest(pow, principal, rate, 365 * years, Some(Annually))
         == Ok(Times(principal, Pow(1.0 + rate, years) - 1.0))
  {
    WholeYearsSimple(principal, rate, years);
    WholeYearsOf(pow, principal, rate, years, Daily);
    WholeYearsOf(pow, principal, rate, years, Monthly);
    WholeYearsOf(pow, principal, rate, years, Quarterly);
    WholeYearsOf(pow, principal, rate, years, Annually);
    assert rate / 1.0 == rate;
    hide CompoundInterest, SimpleInterest, Pow;
  }

  lemma {:induction false} WholeYearsSimple(principal: real, rate: real, years: nat)
    ensures SimpleInterest(principal, rate, 365 * years) == Ok(Times(Times(principal, rate), years as real))
  {
    var x, y := Times(principal, rate), years as real;
    assert (365 * years) as real == 365.0 * y;
    YearByYear(x, y);
    hide Times;
  }

  lemma {:induction false} YearByYear(x: real, y: real)
    ensures Times(x, 365.0 * y) / 365.0 == Times(x, y)
  {
    assert Times(x, 365.0 * y) == 365.0 * (x * y);
    var z := x * y;
    assert 365.0 * z / 365.0 == z;
  }

  lemma {:induction false} WholeYearsOf(pow: Power, principal: real, rate: real, years: nat, f: Frequency)
    requires AgreesOnWholes(pow)
    ensures var n := PerYear(f);
            CompoundInterest(pow, principal, rate, 365 * years, Some(f))
            == Ok(Times(principal, Pow(1.0 + rate / n as real, n * years) - 1.0))
  {
    var n := PerYear(f);
    assert (365 * years) as real / 365.0 == years as real;
    assert n as real * years as real == (n * years) as real;
    assert pow(1.0 + rate / n as real, (n * years) as real) == Pow(1.0 + rate / n as real, n * years);
  }

  /** A projection is given exactly for a positive principal, a rate that is not negative, a term of at least a
      day and a known method and frequency; it counts the days and adds the interest to the principal. */
  lemma {:induction false} ProjectionIff(pow: Power, principal: real, rate: real, start: int, maturity: int,
      kind: Option<Method>, frequency: Option<Option<Frequency>>)
    ensures var r := Project(pow, principal, rate, start, maturity, kind, frequency);
            && (r.Ok? <==> && principal > 0.0 && rate >= 0.0 && start < maturity && kind.Some?
                           && (kind == Some(Compound) ==> frequency.Some? && frequency.value.Some?))
            && (r.Ok? ==>
                  && r.value.principal == principal && r.value.days == maturity - start
                  && r.value.maturityValue == principal + r.value.interest
                  && Ok(r.value.interest)
                     == if kind == Some(Simple) then SimpleInterest(principal, rate, maturity - start)
                        else CompoundInterest(pow, principal, rate, maturity - start, frequency.value))
  {
    hide SimpleInterest, CompoundInterest;
    SimpleInterestIs(principal, rate, maturity - start);
    if frequency.Some? {
      CompoundIsDefined(pow, principal, rate, maturity - start, frequency.value);
    }
  }

  lemma {:induction false} CompoundIsDefined(pow: Power, principal: real, rate: real, days: int, f: Option<Frequency>)
    ensures CompoundInterest(pow, principal, rate, days, f).Ok? <==> f.Some? && days >= 0
  {}

  /** The progress of a contract: before its start nothing has accrued and all its days remain; from then on the days up
      to its maturity have elapsed, they are the given percentage of its duration, and what has accrued is the interest
      of a contract of just those days. */
  lemma {:induction false} ProgressIs(pow: Power, t: Term, asOf: int)
    ensures var p, duration := ProgressOf(pow, t, asOf), t.maturity - t.start;
            && p.elapsed == Elapsed(t, asOf) && p.remaining == (if asOf >= t.maturity then 0
                                                                else if asOf < t.start then duration
                                                                else t.maturity - asOf)
            && Times(p.percent, duration as real) == 100.0 * p.elapsed as real
            && (p.elapsed == 0 ==> p.accrued == 0.0)
            && (p.elapsed > 0 ==>
                  var end := t.start + p.elapsed;
                  ProjectTerm(pow, t, end).Ok? && p.accrued == ProjectTerm(pow, t, end).value.interest)
  {
    hide ProjectTerm;
    var duration, elapsed := t.maturity - t.start, Elapsed(t, asOf);
    PercentInRange(elapsed, duration);
    PercentBack(elapsed as real, duration as real);
    assert Times(0.0, duration as real) == 0.0;
    assert ProgressOf(pow, t, asOf).percent
        == if asOf < t.start then 0.0 else elapsed as real * 100.0 / duration as real;
    if elapsed > 0 {
      TermIsProjected(pow, t, t.start + elapsed);
    }
  }

  lemma {:induction false} TermIsProjected(pow: Power, t: Term, end: int)
    requires end > t.start
    ensures ProjectTerm(pow, t, end).Ok?
  {}

  lemma {:induction false} PercentBack(x: real, d: real)
    requires d != 0.0
    ensures Times(x * 100.0 / d, d) == 100.0 * x
  {}
}

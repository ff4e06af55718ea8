/** Amounts as text: the exporter prints them (ledger/exports.py), the importers read them back
    (ledger/imports.py). */
module AmountText {
  import opened Wrappers
  import opened Decimals
  import opened Text

  /** A decimal number as it was written: units of 10 to the power of -places. */
  datatype Number = Number(units: int, places: nat)
  {
    function Value(): real { units as real / Pow10(places) as real }
  }

  datatype AmountError = NotANumber | Zero | TooLong

  // ----- reading

  /** `Decimal(text)` on plain fixed-point text. */
  function ParseUnsigned(s: string): Option<Number> {
    if Contains(s, '.') then FromParts(Split(s, '.'))
    else if s != "" && AllDigits(s) then Some(Number(NatOf(s), 0))
    else None
  }

  /** The digits before and after the point. */
  function FromParts(parts: seq<string>): Option<Number> {
    if |parts| == 2 && AllDigits(parts[0]) && AllDigits(parts[1]) && parts[0] + parts[1] != "" then
      Some(Number(NatOf(parts[0] + parts[1]), |parts[1]|))
    else None
  }

  function ParseDecimal(s: string): Option<Number> {
    if s != "" && (s[0] == '-' || s[0] == '+') then
      match ParseUnsigned(s[1..])
      case None => None
      case Some(n) => Some(if s[0] == '-' then Number(-n.units, n.places) else n)
    else ParseUnsigned(s)
  }

  /** The rewriting of separators: whichever of comma and point comes last is the decimal one. */
  function Normalize(text: string): string {
    var value := Remove(Remove(Strip(text), '\U{00a0}'), ' ');
    if Contains(value, ',') && Contains(value, '.') then
      if RFind(value, ',') > RFind(value, '.') then Replace(Remove(value, '.'), ',', '.') else Remove(value, ',')
    else if Contains(value, ',') then Replace(value, ',', '.')
    else value
  }

  predicate Fits(n: Number) {
    n.places <= 4 && -10000000000000000 * Pow10(n.places) < n.units < 10000000000000000 * Pow10(n.places)
  }

  /** `_parse_amount`. */
  function ParseAmount(text: string): Result<Number, AmountError> {
    match ParseDecimal(Normalize(text))
    case None => Err(NotANumber)
    case Some(n) => if n.units == 0 then Err(Zero) else if !Fits(n) then Err(TooLong) else Ok(n)
  }

  /** `_parse_pdf_number`. */
  function ParsePdfNumber(text: string): Option<Number> {
    ParseDecimal(Remove(text, ','))
  }

  // ----- printing

  /** A separator before every third digit from the right. */
  function Grouped(digits: string, separator: char): string {
    if |digits| <= 3 then digits
    else Grouped(digits[..|digits| - 3], separator) + [separator] + digits[|digits| - 3..]
  }

  function Cents(amount: real): int { RoundHalfEven(amount * 100.0) }

  function Magnitude(c: int): nat { if c < 0 then -c else c }

  function Sign(negative: bool): string { if negative then "-" else "" }

  /** Whole part and cents with the given separators. */
  function Print(negative: bool, c: nat, group: char, point: char): string {
    Sign(negative) + Grouped(Digits(c / 100), group) + [point] + Two(c % 100)
  }

  /** `f"{amount.quantize(Decimal('0.01')):,.2f}"`. */
  function ExportAmount(amount: real): string {
    Print(amount < 0.0, Magnitude(Cents(amount)), ',', '.')
  }

  /** The same figures with a decimal comma and points between the groups. */
  function MirroredAmount(amount: real): string {
    Print(amount < 0.0, Magnitude(Cents(amount)), '.', ',')
  }

  // ----- grouping and its removal

  lemma {:induction false} RemoveDigits(digits: string, separator: char)
    requires AllDigits(digits) && !IsDigit(separator)
    ensures Remove(digits, separator) == digits
  {
    DigitsHaveNone(digits, separator);
    RemoveAbsent(digits, separator);
  }

  lemma {:induction false} RemoveGroup(front: string, back: string, separator: char)
    requires Remove(back, separator) == back
    ensures Remove(front + [separator] + back, separator) == Remove(front, separator) + back
  {
    assert [separator][..0] == "";
    assert Remove([separator], separator) == "";
    hide Remove;
    RemoveConcat(front + [separator], back, separator);
    RemoveConcat(front, [separator], separator);
    assert Remove(front, separator) + "" == Remove(front, separator);
  }

  lemma {:induction false} RemoveFromGrouped(digits: string, separator: char)
    requires AllDigits(digits) && !IsDigit(separator)
    ensures Remove(Grouped(digits, separator), separator) == digits
  {
    hide Remove;
    if |digits| <= 3 {
      RemoveDigits(digits, separator);
    } else {
      var front, back := digits[..|digits| - 3], digits[|digits| - 3..];
      RemoveFromGrouped(front, separator);
      RemoveDigits(back, separator);
      RemoveGroup(Grouped(front, separator), back, separator);
      assert front + back == digits;
    }
  }

  lemma {:induction false} GroupedChars(digits: string, separator: char)
    requires AllDigits(digits) && digits != "" && !IsDigit(separator)
    ensures var g := Grouped(digits, separator);
            && (forall i :: 0 <= i < |g| ==> IsDigit(g[i]) || g[i] == separator)
            && |g| > 0 && IsDigit(g[0])
  {
    if |digits| > 3 {
      GroupedChars(digits[..|digits| - 3], separator);
    }
  }

  /** The text without group separators and with a decimal point. */
  function Plain(negative: bool, c: nat): string {
    Sign(negative) + Digits(c / 100) + "." + Two(c % 100)
  }

  function Signed(negative: bool, c: nat): int { if negative then -(c as int) else c }

  lemma {:induction false} PlainParses(negative: bool, c: nat)
    ensures ParseDecimal(Plain(negative, c)) == Some(Number(Signed(negative, c), 2))
  {
    var whole, part := Digits(c / 100), Two(c % 100);
    DigitsRoundTrip(c / 100);
    TwoRoundTrip(c % 100);
    assert |part| == 2 && IsDigit(whole[0]);
    PlainIsSigned(negative, c);
    PowTwo();
    hide Digits, Two, NatOf, ParseDecimal, ParseUnsigned, Pow10, AllDigits, Plain, IsDigit, Sign;
    var body := whole + "." + part;
    BodyParses(whole, part);
    assert body[0] == whole[0];
    SignParses(negative, body, Number(c, 2));
  }

  lemma {:induction false} PowTwo()
    ensures Pow10(2) == 100
  {
    assert Pow10(2) == 10 * Pow10(1) && Pow10(1) == 10 * Pow10(0);
  }

  lemma {:induction false} PlainIsSigned(negative: bool, c: nat)
    ensures Plain(negative, c) == Sign(negative) + (Digits(c / 100) + "." + Two(c % 100))
  {
    hide Digits, Two, Sign;
  }

  lemma {:induction false} SignParses(negative: bool, body: string, n: Number)
    requires body != "" && IsDigit(body[0]) && n.units >= 0 && ParseUnsigned(body) == Some(n)
    ensures ParseDecimal(Sign(negative) + body) == Some(Number(Signed(negative, n.units), n.places))
  {
    hide ParseUnsigned;
    if negative {
      assert (Sign(negative) + body)[1..] == body;
    } else {
      assert Sign(negative) + body == body;
    }
  }

  lemma {:induction false} BodyParses(whole: string, part: string)
    requires whole != "" && AllDigits(whole) && AllDigits(part)
    ensures ParseUnsigned(whole + "." + part) == Some(Number(NatOf(whole) * Pow10(|part|) + NatOf(part), |part|))
  {
    DigitsHaveNone(whole, '.');
    DigitsHaveNone(part, '.');
    SplitNone(whole, '.');
    SplitNext(whole, part, '.');
    PartsParse(whole, part);
    assert (whole + "." + part)[|whole|] == '.';
    assert Contains(whole + "." + part, '.');
    hide *;
    assert [whole] + [part] == [whole, part];
  }

  lemma {:induction false} PartsParse(whole: string, part: string)
    requires whole != "" && AllDigits(whole) && AllDigits(part)
    ensures FromParts([whole, part]) == Some(Number(NatOf(whole) * Pow10(|part|) + NatOf(part), |part|))
  {
    hide NatOf, Pow10, AllDigits;
    NatOfConcat(whole, part);
    assert |whole + part| > 0;
  }

  /** The printed text holds a sign, digits and the two separators, and its last separator is the decimal
      one. */
  lemma {:induction false} PrintedChars(negative: bool, c: nat, group: char, point: char)
    requires group != point && !IsDigit(group) && !IsDigit(point) && group != '-' && point != '-'
    ensures Printed(Print(negative, c, group, point), group, point)
  {
    DigitsRoundTrip(c / 100);
    GroupedChars(Digits(c / 100), group);
    TwoRoundTrip(c % 100);
    JoinedChars(Sign(negative), Grouped(Digits(c / 100), group), Two(c % 100), group, point);
  }

  ghost predicate Printed(s: string, group: char, point: char) {
    && |s| >= 4 && s[|s| - 3] == point
    && (forall i :: 0 <= i < |s| ==> IsDigit(s[i]) || s[i] == '-' || s[i] == group || s[i] == point)
    && (forall i :: 0 <= i < |s| && i != |s| - 3 ==> s[i] != point)
    && s[|s| - 1] != group && s[|s| - 2] != group
    && (IsDigit(s[0]) || s[0] == '-') && IsDigit(s[|s| - 1])
  }

  lemma {:induction false} JoinedChars(sign: string, g: string, part: string, group: char, point: char)
    requires group != point && !IsDigit(group) && !IsDigit(point) && group != '-' && point != '-'
    requires sign == "" || sign == "-"
    requires |g| > 0 && IsDigit(g[0]) && forall i :: 0 <= i < |g| ==> IsDigit(g[i]) || g[i] == group
    requires |part| == 2 && AllDigits(part)
    ensures Printed(sign + g + [point] + part, group, point)
  {
    var s := sign + g + [point] + part;
    var k := |sign|;
    forall i | 0 <= i < |s|
      ensures s[i] == if i < k then '-'
                      else if i < k + |g| then g[i - k]
                      else if i == k + |g| then point
                      else part[i - k - |g| - 1]
    {}
  }

  lemma {:induction false} RemoveGroups(negative: bool, c: nat, group: char, point: char)
    requires group != point && !IsDigit(group) && !IsDigit(point) && group != '-'
    ensures Remove(Print(negative, c, group, point), group) == Sign(negative) + Digits(c / 100) + [point] + Two(c % 100)
  {
    assert !Contains(Sign(negative), group);
    hide Remove, Digits, Two, Grouped, Contains, AllDigits, NatOf;
    DigitsRoundTrip(c / 100);
    RemoveFromGrouped(Digits(c / 100), group);
    TwoRoundTrip(c % 100);
    DigitsHaveNone(Two(c % 100), group);
    RemoveJoined(Sign(negative), Grouped(Digits(c / 100), group), Two(c % 100), group, point);
  }

  lemma {:induction false} RemoveJoined(sign: string, g: string, part: string, group: char, point: char)
    requires !Contains(sign, group) && !Contains(part, group) && point != group
    ensures Remove(sign + g + [point] + part, group) == sign + Remove(g, group) + [point] + part
  {
    RemoveAbsent(part, group);
    RemoveAbsent([point], group);
    RemoveAbsent(sign, group);
    hide Remove;
    RemoveConcat(sign + g + [point], part, group);
    RemoveConcat(sign + g, [point], group);
    RemoveConcat(sign, g, group);
  }

  /** Without group separators there is nothing to take out. */
  lemma {:induction false} NothingToStrip(s: string)
    requires s != "" && forall i :: 0 <= i < |s| ==> IsDigit(s[i]) || s[i] == '-' || s[i] == ',' || s[i] == '.'
    ensures Remove(Remove(Strip(s), '\U{00a0}'), ' ') == s
  {
    StripIsIdle(s);
    RemoveAbsent(s, '\U{00a0}');
    RemoveAbsent(s, ' ');
  }

  lemma {:induction false} NormalizeExported(negative: bool, c: nat)
    ensures Normalize(Print(negative, c, ',', '.')) == Plain(negative, c)
  {
    var s := Print(negative, c, ',', '.');
    PrintedChars(negative, c, ',', '.');
    RemoveGroups(negative, c, ',', '.');
    assert Plain(negative, c) == Sign(negative) + Digits(c / 100) + ['.'] + Two(c % 100);
    hide Remove, Print, Plain, Strip, RFind, Replace;
    NothingToStrip(s);
    assert Contains(s, '.');
    LastPoint(s, ',', '.');
    if !Contains(s, ',') {
      RemoveAbsent(s, ',');
    }
  }

  /** In a printed text the decimal separator comes after every group separator. */
  lemma {:induction false} LastPoint(s: string, group: char, point: char)
    requires Printed(s, group, point) && group != point
    ensures RFind(s, point) == |s| - 3 > RFind(s, group)
  {
    assert s[|s| - 3] == point;
  }

  lemma {:induction false} NormalizeMirrored(negative: bool, c: nat)
    ensures Normalize(Print(negative, c, '.', ',')) == Plain(negative, c)
  {
    var s := Print(negative, c, '.', ',');
    PrintedChars(negative, c, '.', ',');
    RemoveGroups(negative, c, '.', ',');
    PointForComma(negative, c);
    hide Remove, Print, Plain, Strip, RFind, Replace;
    NothingToStrip(s);
    assert Contains(s, ',');
    LastPoint(s, '.', ',');
    if !Contains(s, '.') {
      RemoveAbsent(s, '.');
    }
  }

  lemma {:induction false} PointForComma(negative: bool, c: nat)
    ensures Replace(Sign(negative) + Digits(c / 100) + [','] + Two(c % 100), ',', '.') == Plain(negative, c)
  {
    DigitsRoundTrip(c / 100);
    TwoRoundTrip(c % 100);
    hide Digits, Two;
    var t := Sign(negative) + Digits(c / 100) + [','] + Two(c % 100);
    assert |t| == |Plain(negative, c)|;
    forall i | 0 <= i < |t|
      ensures Replace(t, ',', '.')[i] == Plain(negative, c)[i]
    {}
  }

  /** What reading an exported amount gives, for every amount: its value rounded to cents, unless that is
      zero or has more than sixteen digits before the point. */
  lemma {:induction false} AmountRoundTrip(amount: real)
    ensures var c := Cents(amount);
            ParseAmount(ExportAmount(amount)) ==
            if c == 0 then Err(Zero) else if Magnitude(c) >= 1000000000000000000 then Err(TooLong) else Ok(Number(c, 2))
    ensures ParseAmount(MirroredAmount(amount)) == ParseAmount(ExportAmount(amount))
  {
    var c := Cents(amount);
    SignOfCents(amount);
    hide Cents, Normalize, Print, Plain, ParseDecimal, Pow10, ParseAmount;
    var m := Magnitude(c);
    NormalizeExported(amount < 0.0, m);
    NormalizeMirrored(amount < 0.0, m);
    PlainParses(amount < 0.0, m);
    TwoPlacesJudged(ExportAmount(amount), c);
    TwoPlacesJudged(MirroredAmount(amount), c);
  }

  lemma {:induction false} TwoPlacesJudged(text: string, c: int)
    requires ParseDecimal(Normalize(text)) == Some(Number(c, 2))
    ensures ParseAmount(text) ==
            if c == 0 then Err(Zero) else if Magnitude(c) >= 1000000000000000000 then Err(TooLong) else Ok(Number(c, 2))
  {
    assert Pow10(2) == 10 * Pow10(1) && Pow10(1) == 10 * Pow10(0);
    hide ParseDecimal, Normalize, Pow10;
  }

  lemma {:induction false} SignOfCents(amount: real)
    ensures amount < 0.0 ==> Cents(amount) <= 0
    ensures amount >= 0.0 ==> Cents(amount) >= 0
  {}

  /** An amount that already has no more than two decimals comes back unchanged. */
  lemma {:induction false} WholeCentsRoundTrip(amount: real, c: int)
    requires amount * 100.0 == c as real && c != 0 && Magnitude(c) < 1000000000000000000
    ensures ParseAmount(ExportAmount(amount)).Ok? && ParseAmount(ExportAmount(amount)).value.Value() == amount
  {
    assert Cents(amount) == c;
    assert Pow10(2) == 10 * Pow10(1) && Pow10(1) == 10 * Pow10(0);
    hide ParseAmount, ExportAmount, Cents, Pow10;
    AmountRoundTrip(amount);
  }
}

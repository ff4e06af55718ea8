/** What the printed and parsed forms look like, character by character: amounts, dates, notes, descriptions and
    inferred types (ledger/exports.py, ledger/imports.py). */
module TextFormats {
  import opened Wrappers
  import opened Decimals
  import opened Text
  import opened AmountText
  import opened CsvFiles
  import opened Selections
  import Statements
  import Ledger

  // ----- amounts

  /** Cents are the nearest number of hundredths, and the even one of two equally near. */
  lemma {:induction false} CentsAreNearest(amount: real, k: int)
    ensures Abs(amount * 100.0 - Cents(amount) as real) <= Abs(amount * 100.0 - k as real)
    ensures k != Cents(amount) && Abs(amount * 100.0 - Cents(amount) as real) == Abs(amount * 100.0 - k as real)
            ==> Cents(amount) % 2 == 0
  {
    RoundHalfEvenNearest(amount * 100.0, k);
  }

  /** A number is printed without leading zeros. */
  lemma {:induction false} NoLeadingZero(n: nat)
    ensures Digits(n) != "" && (Digits(n)[0] == '0' <==> n == 0) && (n == 0 ==> Digits(n) == "0")
  {
    if n >= 10 {
      NoLeadingZero(n / 10);
    }
  }

  /** The place of a character among groups of three, counted from the right. */
  predicate IsSeparatorPlace(length: nat, i: nat)
    requires i < length
  {
    (length - 1 - i) % 4 == 3
  }

  /** Grouping puts a separator before every third digit from the right and nowhere else, and keeps the digits: the text
      has no separator at either end, and each one is at a place of its own. */
  lemma {:induction false} GroupedPlaces(digits: string, separator: char, i: nat)
    requires AllDigits(digits) && digits != "" && !IsDigit(separator) && i < |Grouped(digits, separator)|
    ensures var g := Grouped(digits, separator);
            && |g| == |digits| + (|digits| - 1) / 3
            && (g[i] == separator <==> IsSeparatorPlace(|g|, i))
            && Remove(g, separator) == digits
  {
    RemoveFromGrouped(digits, separator);
    GroupedLength(digits, separator);
    SeparatorPlaces(digits, separator, i);
    hide *;
  }

  lemma {:induction false} SeparatorPlaces(digits: string, separator: char, i: nat)
    requires AllDigits(digits) && digits != "" && !IsDigit(separator) && i < |Grouped(digits, separator)|
    ensures var g := Grouped(digits, separator); g[i] == separator <==> IsSeparatorPlace(|g|, i)
  {
    var n := |digits|;
    if n <= 3 {
      assert IsDigit(digits[i]);
    } else {
      var front, back := Grouped(digits[..n - 3], separator), digits[n - 3..];
      var g := Grouped(digits, separator);
      assert g == front + [separator] + back;
      assert AllDigits(digits[..n - 3]) && AllDigits(back);
      if i < |front| {
        SeparatorPlaces(digits[..n - 3], separator, i);
        hide Grouped, AllDigits, IsSeparatorPlace;
        PlaceInFront(|front|, i);
      } else {
        hide Grouped, AllDigits, IsSeparatorPlace;
        PlaceInBack(|front|, i);
        LastGroup(front, back, separator, i);
      }
    }
  }

  lemma {:induction false} LastGroup(front: string, back: string, separator: char, i: nat)
    requires |back| == 3 && AllDigits(back) && !IsDigit(separator) && |front| <= i < |front| + 4
    ensures (front + [separator] + back)[i] == separator <==> i == |front|
  {
    if i > |front| {
      assert (front + [separator] + back)[i] == back[i - |front| - 1];
    }
  }

  lemma {:induction false} PlaceInFront(length: nat, i: nat)
    requires i < length
    ensures IsSeparatorPlace(length + 4, i) <==> IsSeparatorPlace(length, i)
  {}

  lemma {:induction false} PlaceInBack(length: nat, i: nat)
    requires length <= i < length + 4
    ensures IsSeparatorPlace(length + 4, i) <==> i == length
  {}

  lemma {:induction false} GroupedLength(digits: string, separator: char)
    requires digits != ""
    ensures |Grouped(digits, separator)| == |digits| + (|digits| - 1) / 3
  {
    if |digits| > 3 {
      GroupedLength(digits[..|digits| - 3], separator);
    }
  }

  /** The texts of one negative amount in both notations, and of one small one. */
  lemma {:induction false} PrintedForms()
    ensures ExportAmount(-1234.5) == "-1,234.50" && MirroredAmount(-1234.5) == "-1.234,50"
    ensures ExportAmount(0.05) == "0.05"
  {
    SmallCents();
    SmallDigits();
    hide Cents, Digits, Grouped, Two, Print;
    assert ExportAmount(-1234.5) == Print(true, 123450, ',', '.');
    assert MirroredAmount(-1234.5) == Print(true, 123450, '.', ',');
    assert ExportAmount(0.05) == Print(false, 5, ',', '.');
    hide *;
    PrintOf(true, 123450, ',', '.', "1234", "1,234", "50");
    PrintOf(true, 123450, '.', ',', "1234", "1.234", "50");
    PrintOf(false, 5, ',', '.', "0", "0", "05");
    assert "-" + "1,234" + ['.'] + "50" == "-1,234.50";
    assert "-" + "1.234" + [','] + "50" == "-1.234,50";
    assert "" + "0" + ['.'] + "05" == "0.05";
  }

  lemma {:induction false} SmallCents()
    ensures Cents(-1234.5) == -123450 && Cents(0.05) == 5
  {}

  lemma {:induction false} PrintOf(
    negative: bool, c: nat, group: char, point: char, whole: string, grouped: string, part: string)
    requires Digits(c / 100) == whole && Grouped(whole, group) == grouped && Two(c % 100) == part
    ensures Print(negative, c, group, point) == (if negative then "-" else "") + grouped + [point] + part
  {}

  lemma {:induction false} SmallDigits()
    ensures Digits(0) == "0" && Grouped("0", ',') == "0" && Two(50) == "50" && Two(5) == "05"
    ensures Digits(1234) == "1234" && Grouped("1234", ',') == "1,234" && Grouped("1234", '.') == "1.234"
  {
    assert Digits(0) == "0" && Grouped("0", ',') == "0" && Two(50) == "50" && Two(5) == "05";
    assert Grouped("1", ',') == Grouped("1", '.') == "1";
    DigitsTo1234();
    hide Digits, Grouped, Two;
    NextGroup("1", "234", ',');
    NextGroup("1", "234", '.');
    assert "1" + "234" == "1234" && "1" + [','] + "234" == "1,234" && "1" + ['.'] + "234" == "1.234";
  }

  lemma {:induction false} DigitsTo1234()
    ensures Digits(1234) == "1234"
  {
    assert Digits(1) == "1" && Digits(12) == "12" && Digits(123) == "123";
  }

  lemma {:induction false} NextGroup(front: string, back: string, separator: char)
    requires front != "" && |back| == 3
    ensures Grouped(front + back, separator) == Grouped(front, separator) + [separator] + back
  {
    var s := front + back;
    assert s[..|s| - 3] == front && s[|s| - 3..] == back;
  }

  /** A statement's numbers have commas between groups: an exported amount reads as its cents there too. */
  lemma {:induction false} PdfNumberReads(amount: real)
    ensures ParsePdfNumber(ExportAmount(amount)) == Some(Number(Cents(amount), 2))
  {
    var c := Cents(amount);
    SignOfCents(amount);
    RemoveGroups(amount < 0.0, Magnitude(c), ',', '.');
    PlainParses(amount < 0.0, Magnitude(c));
    hide Cents, Print, ParseDecimal, Remove, Digits, Two;
    assert Plain(amount < 0.0, Magnitude(c))
        == Sign(amount < 0.0) + Digits(Magnitude(c) / 100) + ['.'] + Two(Magnitude(c) % 100);
  }

  /** A text without a point is a number exactly when it is all digits, after a sign if there is one, and then a whole
      one. */
  lemma {:induction false} WholeNumberReads(s: string)
    requires !Contains(s, '.') && (s != "" ==> s[0] != '-' && s[0] != '+')
    ensures ParseDecimal(s) == ParseDecimal("+" + s)
         == if s != "" && AllDigits(s) then Some(Number(NatOf(s), 0)) else None
    ensures ParseDecimal("-" + s) == if s != "" && AllDigits(s) then Some(Number(-(NatOf(s) as int), 0)) else None
  {
    assert ("-" + s)[1..] == s && ("+" + s)[1..] == s;
  }

  /** A number fits exactly with at most four places and a value below ten to the sixteenth either way. */
  lemma {:induction false} FitsIff(n: Number)
    ensures Fits(n) <==> n.places <= 4 && -10000000000000000.0 < n.Value() < 10000000000000000.0
  {
    hide Pow10;
    RatioBelow(n.units, Pow10(n.places), 10000000000000000);
    RatioBelow(-n.units, Pow10(n.places), 10000000000000000);
    NegativeRatio(n.units as real, Pow10(n.places) as real);
  }

  lemma {:induction false} RatioBelow(u: int, p: nat, bound: nat)
    requires p > 0
    ensures u as real / p as real < bound as real <==> u < bound * p
  {
    var v := u as real / p as real;
    assert v * p as real == u as real;
    assert (bound * p) as real == bound as real * p as real;
    Compares(v, bound as real, p as real);
  }

  lemma {:induction false} NegativeRatio(x: real, p: real)
    requires p > 0.0
    ensures (-x) / p == -(x / p)
  {}

  lemma {:induction false} Compares(x: real, y: real, p: real)
    requires p > 0.0
    ensures x < y <==> x * p < y * p
  {
    if x < y {
      assert (y - x) * p > 0.0;
    } else {
      assert (x - y) * p >= 0.0;
    }
  }

  // ----- dates

  /** The forms of a date, and of the note that keeps it. */
  lemma {:induction false} DateForms()
    ensures SlashText(Date(2024, 3, 5)) == "05/03/2024" && IsoText(Date(2024, 3, 5)) == "2024-03-05"
    ensures ValueNote(Date(2024, 3, 5)) == "Value date: 2024-03-05"
  {
    assert Two(5) == "05" && Two(3) == "03" && Two(20) == "20" && Two(24) == "24";
    assert Four(2024) == "2024";
  }

  /** February has 29 days in 2000 and 2024 and 28 in 1900 and 2023; April ends on the 30th and December on the 31st. */
  lemma {:induction false} MonthEnds()
    ensures ValidDate(Date(2000, 2, 29)) && ValidDate(Date(2024, 2, 29))
    ensures !ValidDate(Date(1900, 2, 29)) && !ValidDate(Date(2023, 2, 29)) && ValidDate(Date(2023, 2, 28))
    ensures !ValidDate(Date(2000, 2, 30)) && ValidDate(Date(2023, 4, 30)) && !ValidDate(Date(2023, 4, 31))
    ensures ValidDate(Date(2023, 12, 31)) && !ValidDate(Date(2023, 12, 32)) && !ValidDate(Date(2023, 13, 1))
    ensures ValidDate(Date(1, 1, 1)) && ValidDate(Date(9999, 12, 31)) && !ValidDate(Date(10000, 1, 1))
    ensures !ValidDate(Date(0, 1, 1)) && !ValidDate(Date(1, 0, 1)) && !ValidDate(Date(1, 1, 0))
  {}

  /** The days of the first months of a year. */
  function DaysTo(year: nat, month: nat): nat {
    if month == 0 then 0 else DaysTo(year, month - 1) + DaysIn(year, month)
  }

  /** Every year has 365 days, and one more exactly when it is divisible by four but not by a hundred, or by four
      hundred. */
  lemma {:induction false} YearLength(year: nat)
    ensures DaysTo(year, 12) == if year % 400 == 0 || (year % 4 == 0 && year % 100 != 0) then 366 else 365
  {
    assert DaysTo(year, 1) == DaysTo(year, 0) + 31;
    assert DaysTo(year, 2) == DaysTo(year, 1) + DaysIn(year, 2);
    assert DaysTo(year, 3) == DaysTo(year, 2) + 31;
    assert DaysTo(year, 4) == DaysTo(year, 3) + 30;
    assert DaysTo(year, 5) == DaysTo(year, 4) + 31;
    assert DaysTo(year, 6) == DaysTo(year, 5) + 30;
    assert DaysTo(year, 7) == DaysTo(year, 6) + 31;
    assert DaysTo(year, 8) == DaysTo(year, 7) + 31;
    assert DaysTo(year, 9) == DaysTo(year, 8) + 30;
    assert DaysTo(year, 10) == DaysTo(year, 9) + 31;
    assert DaysTo(year, 11) == DaysTo(year, 10) + 30;
  }

  /** Three runs of digits between slashes read as day, month and year, when that is a day of the calendar. */
  lemma {:induction false} SlashReads(day: string, month: string, year: string)
    requires IsNumber(day) && IsNumber(month) && IsNumber(year)
    ensures var d := Date(NatOf(year), NatOf(month), NatOf(day));
            ParseDate(day + "/" + month + "/" + year) == if ValidDate(d) then Some(d) else None
  {
    var s := day + "/" + month + "/" + year;
    assert s == day + ['/'] + month + ['/'] + year;
    DigitsHaveNone(day, '/');
    DigitsHaveNone(month, '/');
    DigitsHaveNone(year, '/');
    assert s[0] == day[0] && s[|s| - 1] == year[|year| - 1] && IsDigit(s[0]) && IsDigit(s[|s| - 1]);
    StripIsIdle(s);
    assert s[|day|] == '/';
    assert Contains(s, '/');
    hide Split, Strip, Contains, AllDigits, NatOf, ValidDate;
    SplitNone(day, '/');
    SplitNext(day, month, '/');
    SplitNext(day + ['/'] + month, year, '/');
    assert [day] + [month] + [year] == [day, month, year];
  }

  /** Digits of a number of four places. */
  lemma {:induction false} FourInverse(s: string)
    requires |s| == 4 && AllDigits(s)
    ensures NatOf(s) < 10000 && Four(NatOf(s)) == s
  {
    var a, b := s[..2], s[2..];
    TwoInverse(a);
    TwoInverse(b);
    NatOfConcat(a, b);
    PowTwo();
    assert s == a + b;
    hide NatOf, Two, Pow10, AllDigits;
    assert (NatOf(a) * 100 + NatOf(b)) / 100 == NatOf(a) && (NatOf(a) * 100 + NatOf(b)) % 100 == NatOf(b);
  }

  lemma {:induction false} TwoInverse(s: string)
    requires |s| == 2 && AllDigits(s)
    ensures NatOf(s) < 100 && Two(NatOf(s)) == s
  {
    hide *;
    TwoDigits(s);
    var x, y := s[0], s[1];
    DigitInverse(x);
    DigitInverse(y);
    TwoOf(ValueOf(x), ValueOf(y));
    assert s == [x, y];
  }

  lemma {:induction false} TwoDigits(s: string)
    requires |s| == 2 && AllDigits(s)
    ensures IsDigit(s[0]) && IsDigit(s[1]) && NatOf(s) == 10 * ValueOf(s[0]) + ValueOf(s[1])
  {
    assert s[..1][..0] == "" && s[..1][0] == s[0];
    assert NatOf(s[..1]) == ValueOf(s[0]);
  }

  lemma {:induction false} TwoOf(a: nat, b: nat)
    requires a < 10 && b < 10
    ensures 10 * a + b < 100 && Two(10 * a + b) == [DigitOf(a), DigitOf(b)]
  {
    hide DigitOf;
    var n := 10 * a + b;
    assert n / 10 == a && n % 10 == b;
  }

  lemma {:induction false} DigitInverse(c: char)
    requires IsDigit(c)
    ensures ValueOf(c) < 10 && DigitOf(ValueOf(c)) == c
  {}

  /** An ISO text is read as a date exactly when it is that date's ISO text. */
  lemma {:induction false} IsoReadsIff(s: string, d: CalendarDate)
    ensures ParseIso(s) == Some(d) <==> s == IsoText(d)
  {
    IsoRoundTrip(d);
    if ParseIso(s) == Some(d) {
      FourInverse(s[..4]);
      TwoInverse(s[5..7]);
      TwoInverse(s[8..]);
      hide NatOf, Two, Four;
      assert s == s[..4] + [s[4]] + s[5..7] + [s[7]] + s[8..];
    }
  }

  /** The value date of notes is that of the first line that starts with the prefix, if what follows is an ISO date. */
  lemma {:induction false} FirstValueDate(lines: seq<string>, k: nat)
    requires k <= |lines| && forall j :: 0 <= j < k ==> !("Value date: " <= lines[j])
    requires k < |lines| ==> "Value date: " <= lines[k]
    ensures ValueDate(lines) == if k == |lines| then None else ParseIso(Strip(lines[k][12..]))
  {
    if k > 0 {
      FirstValueDate(lines[1..], k - 1);
    }
  }

  // ----- white space and formulas

  /** Stripping takes white space off both ends and nothing else. */
  lemma {:induction false} StripTakesEnds(s: string) returns (from: nat, to: nat)
    ensures from <= to <= |s| && Strip(s) == s[from..to]
    ensures forall i :: 0 <= i < from || to <= i < |s| ==> IsSpace(s[i])
    ensures Strip(s) != "" ==> !IsSpace(Strip(s)[0]) && !IsSpace(Strip(s)[|Strip(s)| - 1])
    decreases |s|
  {
    if s == "" {
      from, to := 0, 0;
    } else if IsSpace(s[0]) {
      from, to := StripTakesEnds(s[1..]);
      from, to := from + 1, to + 1;
      assert s[1..][from - 1..to - 1] == s[from..to];
      assert forall i :: 1 <= i < |s| ==> s[i] == s[1..][i - 1];
    } else if IsSpace(s[|s| - 1]) {
      from, to := StripTakesEnds(s[..|s| - 1]);
      assert s[..|s| - 1][from..to] == s[from..to];
      assert forall i :: 0 <= i < |s| - 1 ==> s[i] == s[..|s| - 1][i];
    } else {
      from, to := 0, |s|;
    }
  }

  /** A text starts a formula after k characters of white space. */
  predicate FormulaAt(s: string, k: nat) {
    k < |s| && (forall i :: 0 <= i < k ==> IsSpace(s[i])) && s[k] in "=+-@"
  }

  lemma {:induction false} StartsFormulaIff(s: string)
    ensures StartsFormula(s) <==> exists k: nat :: FormulaAt(s, k)
  {
    if s != "" && IsSpace(s[0]) {
      StartsFormulaIff(s[1..]);
      if k: nat :| FormulaAt(s[1..], k) {
        assert forall i :: 1 <= i <= k ==> s[i] == s[1..][i - 1];
        assert FormulaAt(s, k + 1);
      }
      if k: nat :| FormulaAt(s, k) {
        assert forall i :: 0 <= i < k - 1 ==> s[1..][i] == s[i + 1];
        assert FormulaAt(s[1..], k - 1);
      }
    } else if s != "" {
      assert StartsFormula(s) ==> FormulaAt(s, 0);
    }
  }

  /** Exported text never starts a formula; it is the description, with an apostrophe in front exactly when that
      does. */
  lemma {:induction false} ExportedIsSafe(s: string)
    ensures !exists k: nat :: FormulaAt(SpreadsheetSafe(s), k)
    ensures SpreadsheetSafe(s) == if exists k: nat :: FormulaAt(s, k) then "'" + s else s
  {
    StartsFormulaIff(s);
    StartsFormulaIff(SpreadsheetSafe(s));
  }

  // ----- rows of a file

  lemma {:induction false} StripsToNothing(s: string)
    ensures Strip(s) == "" <==> forall i :: 0 <= i < |s| ==> IsSpace(s[i])
  {
    var from, to := StripTakesEnds(s);
    if Strip(s) != "" {
      assert s[from] == Strip(s)[0];
    } else {
      assert from == to;
    }
  }

  predicate AllSpace(s: string) { forall i :: 0 <= i < |s| ==> IsSpace(s[i]) }

  /** A row counts as blank exactly when its fields are all white space. */
  lemma {:induction false} BlankIff(f: Fields)
    ensures Blank(f) <==> AllSpace(f.date) && AllSpace(f.valueDate) && AllSpace(f.description) && AllSpace(f.amount)
  {
    StripsToNothing(f.date);
    StripsToNothing(f.valueDate);
    StripsToNothing(f.description);
    StripsToNothing(f.amount);
    hide Strip;
  }

  /** The places of rows that are not blank. */
  function Written(rows: seq<Fields>): nat -> bool { (i: nat) => i < |rows| && !Blank(rows[i]) }

  /** The rows that are read are those that are not blank, each once and in order. */
  lemma {:induction false} RowPlaces(rows: seq<Fields>, n: nat) returns (at: seq<nat>)
    requires n <= |rows|
    ensures Selects(at, n, Written(rows)) && Picks(at, rows, NonBlank(rows[..n]))
  {
    hide *;
    if n == 0 {
      at := [];
      NothingPicked(rows, Written(rows));
      NothingWritten(rows);
    } else {
      var before := RowPlaces(rows, n - 1);
      at := NextRow(rows, n - 1, before);
    }
  }

  lemma {:induction false} NothingWritten(rows: seq<Fields>)
    ensures NonBlank(rows[..0]) == []
  {}

  lemma {:induction false} WrittenIff(rows: seq<Fields>, n: nat)
    requires n < |rows|
    ensures Written(rows)(n) <==> !Blank(rows[n])
  {}

  lemma {:induction false} NextRow(rows: seq<Fields>, n: nat, before: seq<nat>) returns (at: seq<nat>)
    requires n < |rows| && Selects(before, n, Written(rows)) && Picks(before, rows, NonBlank(rows[..n]))
    ensures Selects(at, n + 1, Written(rows)) && Picks(at, rows, NonBlank(rows[..n + 1]))
  {
    hide *;
    NonBlankStep(rows, n);
    WrittenIff(rows, n);
    SelectsNext(before, n, Written(rows));
    var kept := NonBlank(rows[..n]);
    if Blank(rows[n]) {
      at := before;
      assert NonBlank(rows[..n + 1]) == kept;
    } else {
      at := before + [n];
      PicksNext(before, rows, kept, n);
    }
  }

  /** A row is read exactly when its description is there and fits, its date is a day, its amount is accepted, and its
      value date is blank or a day; it keeps them, with the type they suggest. */
  lemma {:induction false} RowReads(f: Fields)
    ensures var description, date, amount := Strip(f.description), ParseDate(f.date), ParseAmount(f.amount);
            var value, row := ParseDate(f.valueDate), ParseRow(f);
            && (row.Ok? <==> && 0 < |description| <= 255 && date.Some? && amount.Ok?
                             && (AllSpace(f.valueDate) || value.Some?))
            && (row.Ok? ==>
                  && row.value.description == description && Some(row.value.date) == date
                      && Ok(row.value.amount) == amount
                  && row.value.kind == KindOf(description, row.value.amount.Value())
                  && row.value.notes == if AllSpace(f.valueDate) then "" else "Value date: " + IsoText(value.value))
            && (row.Err? ==>
                  row.error == if description == "" then NoDescription
                               else if |description| > 255 then LongDescription
                               else if date == None then BadDate
                               else if amount.Err? then BadAmount(amount.error)
                               else BadDate)
  {
    StripsToNothing(f.valueDate);
    hide Strip, ParseDate, ParseAmount, KindOf, IsoText;
  }

  // ----- inferred types

  /** The same letter, of whichever case; the second is in lower case. */
  predicate SameLetter(c: char, lower: char) {
    c == lower || ('A' <= c <= 'Z' && c as int + 32 == lower as int)
  }

  /** A word in lower case occurs in a text of any case. */
  ghost predicate Says(s: string, word: string) {
    exists i: nat :: SaysAt(s, word, i)
  }

  predicate SaysAt(s: string, word: string, i: nat) {
    i + |word| <= |s| && forall j :: 0 <= j < |word| ==> SameLetter(s[i + j], word[j])
  }

  lemma {:induction false} SaysIff(s: string, word: string)
    requires forall j :: 0 <= j < |word| ==> 'a' <= word[j] <= 'z'
    ensures Says(s, word) <==> HasWord(Lower(s), word)
  {
    forall i: nat
      ensures SaysAt(s, word, i) <==> WordAt(Lower(s), word, i)
    {
      if i + |word| <= |s| {
        var part := Lower(s)[i..i + |word|];
        assert forall j :: 0 <= j < |word| ==> part[j] == LowerChar(s[i + j]);
        assert forall j :: 0 <= j < |word| ==> (part[j] == word[j] <==> SameLetter(s[i + j], word[j]));
        if WordAt(Lower(s), word, i) {
          assert part == word;
        }
        if SaysAt(s, word, i) {
          assert part == word;
        }
      }
    }
    if HasWord(Lower(s), word) {
      var i: nat :| i <= |s| && WordAt(Lower(s), word, i);
      assert SaysAt(s, word, i);
    }
    if Says(s, word) {
      var i: nat :| SaysAt(s, word, i);
      assert i <= |Lower(s)| && WordAt(Lower(s), word, i);
    }
  }

  /** The type follows the first of the words interest, tax, and fee or charge that the description has, in that
      order of the words; without any, money coming in is a deposit and the rest a withdrawal. */
  lemma {:induction false} TypeFollowsWords(description: string, amount: real)
    ensures KindOf(description, amount) ==
            if Says(description, "interest") then Ledger.Interest
            else if Says(description, "tax") then Ledger.Tax
            else if Says(description, "fee") || Says(description, "charge") then Ledger.Fee
            else if amount > 0.0 then Ledger.Deposit
            else Ledger.Withdrawal
  {
    SaysIff(description, "interest");
    SaysIff(description, "tax");
    SaysIff(description, "fee");
    SaysIff(description, "charge");
    hide HasWord, Lower, Says;
  }

  // ----- statement descriptions

  /** Joined texts: nothing for nothing, a text for itself, and a blank between two that are not empty. */
  lemma {:induction false} JoinedParts(x: string, a: seq<string>, b: seq<string>)
    ensures Statements.Joined([]) == "" && Statements.Joined([x]) == x
    ensures Statements.Joined(a + b) == WithBlank(Statements.Joined(a), Statements.Joined(b))
    decreases |b|
  {
    assert [x][..0] == [];
    if b == [] {
      assert a + b == a;
    } else {
      var n := |b| - 1;
      JoinedParts(x, a, b[..n]);
      assert (a + b)[..|a| + n] == a + b[..n];
      JoinedLast(a + b);
      JoinedLast(b);
      hide Statements.Joined;
      WithBlankAssociates(Statements.Joined(a), Statements.Joined(b[..n]), b[n]);
    }
  }

  /** Two texts with a blank between them, unless one is empty. */
  function WithBlank(x: string, y: string): string {
    if x == "" then y else if y == "" then x else x + " " + y
  }

  lemma {:induction false} WithBlankAssociates(x: string, y: string, z: string)
    ensures WithBlank(WithBlank(x, y), z) == WithBlank(x, WithBlank(y, z))
  {
    assert x + " " + y + " " + z == x + " " + (y + " " + z);
  }

  lemma {:induction false} JoinedLast(parts: seq<string>)
    requires parts != []
    ensures Statements.Joined(parts) == WithBlank(Statements.Joined(parts[..|parts| - 1]), parts[|parts| - 1])
  {}

  /** A statement row's description is its record's texts joined and stripped, cut to 252 characters and three dots when
      longer than 255. */
  lemma {:induction false} DescriptionFits(r: Statements.Record)
    ensures var whole, shown := Strip(Statements.Joined([r.fields.description] + r.details)), Statements.Description(r);
            && |shown| <= 255
            && (|whole| <= 255 ==> shown == whole)
            && (|whole| > 255 ==> |shown| == 255 && shown[..252] == whole[..252] && shown[252..] == "...")
  {}
}

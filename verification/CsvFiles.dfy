/** Dates as text and the rows of exported and imported files (ledger/exports.py, ledger/imports.py). */
module CsvFiles {
  import opened Wrappers
  import opened Text
  import opened AmountText
  import Ledger

  datatype Date = Date(year: nat, month: nat, day: nat)

  predicate IsLeap(year: nat) { year % 4 == 0 && (year % 100 != 0 || year % 400 == 0) }

  function DaysIn(year: nat, month: nat): nat {
    if month == 2 then (if IsLeap(year) then 29 else 28)
    else if month == 4 || month == 6 || month == 9 || month == 11 then 30
    else 31
  }

  /** What the `date` constructor accepts. */
  predicate ValidDate(d: Date) {
    1 <= d.year <= 9999 && 1 <= d.month <= 12 && 1 <= d.day <= DaysIn(d.year, d.month)
  }

  type CalendarDate = d: Date | ValidDate(d)
    witness Date(2000, 1, 1)

  function Four(n: nat): string
    requires n < 10000
  {
    Two(n / 100) + Two(n % 100)
  }

  /** `strftime("%d/%m/%Y")`. */
  function SlashText(d: CalendarDate): string {
    Two(d.day) + "/" + Two(d.month) + "/" + Four(d.year)
  }

  /** `isoformat()`. */
  function IsoText(d: CalendarDate): string {
    Four(d.year) + "-" + Two(d.month) + "-" + Two(d.day)
  }

  function Checked(d: Date): Option<CalendarDate> {
    if ValidDate(d) then Some(d) else None
  }

  predicate IsNumber(s: string) { s != "" && AllDigits(s) }

  /** `date.fromisoformat` on the form YYYY-MM-DD. */
  function ParseIso(s: string): Option<CalendarDate> {
    if |s| == 10 && s[4] == '-' && s[7] == '-' && AllDigits(s[..4]) && AllDigits(s[5..7]) && AllDigits(s[8..]) then
      Checked(Date(NatOf(s[..4]), NatOf(s[5..7]), NatOf(s[8..])))
    else None
  }

  function FromFields(fields: seq<string>): Option<CalendarDate> {
    if |fields| == 3 && IsNumber(fields[0]) && IsNumber(fields[1]) && IsNumber(fields[2]) then
      Checked(Date(NatOf(fields[2]), NatOf(fields[1]), NatOf(fields[0])))
    else None
  }

  /** `_parse_date`: day, month and year between slashes, or an ISO date. */
  function ParseDate(text: string): Option<CalendarDate> {
    var value := Strip(text);
    if Contains(value, '/') then FromFields(Split(value, '/')) else ParseIso(value)
  }

  lemma {:induction false} FourRoundTrip(n: nat)
    requires n < 10000
    ensures |Four(n)| == 4 && AllDigits(Four(n)) && NatOf(Four(n)) == n
  {
    TwoRoundTrip(n / 100);
    TwoRoundTrip(n % 100);
    NatOfConcat(Two(n / 100), Two(n % 100));
    assert Pow10(2) == 10 * Pow10(1) && Pow10(1) == 10 * Pow10(0);
  }

  lemma {:induction false} SlashRoundTrip(d: CalendarDate)
    ensures ParseDate(SlashText(d)) == Some(d)
  {
    TwoRoundTrip(d.day);
    TwoRoundTrip(d.month);
    FourRoundTrip(d.year);
    var day, month, year := Two(d.day), Two(d.month), Four(d.year);
    DigitsHaveNone(day, '/');
    DigitsHaveNone(month, '/');
    DigitsHaveNone(year, '/');
    var s := SlashText(d);
    assert s == day + ['/'] + month + ['/'] + year;
    assert |s| == 10 && s[2] == '/' && IsDigit(s[0]) && IsDigit(s[9]) by {
      assert s[0] == day[0] && s[9] == year[3];
    }
    StripIsIdle(s);
    hide Two, Four, NatOf, Split, Strip, AllDigits;
    SplitNone(day, '/');
    SplitNext(day, month, '/');
    SplitNext(day + ['/'] + month, year, '/');
    assert Split(s, '/') == [day, month, year];
    assert Contains(s, '/');
  }

  lemma {:induction false} IsoRoundTrip(d: CalendarDate)
    ensures ParseIso(IsoText(d)) == Some(d)
    ensures ParseDate(IsoText(d)) == Some(d)
    ensures Strip(IsoText(d)) == IsoText(d)
  {
    TwoRoundTrip(d.day);
    TwoRoundTrip(d.month);
    FourRoundTrip(d.year);
    var day, month, year := Two(d.day), Two(d.month), Four(d.year);
    var s := IsoText(d);
    hide Two, Four, NatOf, Strip, Split;
    assert s == year + "-" + month + "-" + day;
    assert s[..4] == year && s[5..7] == month && s[8..] == day;
    assert forall i :: 0 <= i < 10 ==> IsDigit(s[i]) || s[i] == '-' by {
      assert forall i :: 0 <= i < 4 ==> s[i] == year[i];
      assert s[5] == month[0] && s[6] == month[1] && s[8] == day[0] && s[9] == day[1];
    }
    assert !Contains(s, '/');
    StripIsIdle(s);
  }

  // ----- value dates kept in notes

  const PREFIX := "Value date: "

  /** `_value_date`, on the lines of the notes: the first line with the prefix decides. */
  function ValueDate(lines: seq<string>): Option<CalendarDate> {
    if lines == [] then None
    else if PREFIX <= lines[0] then ParseIso(Strip(lines[0][|PREFIX|..]))
    else ValueDate(lines[1..])
  }

  /** The note the importer writes for a value date. */
  function ValueNote(d: CalendarDate): string { PREFIX + IsoText(d) }

  /** The exporter finds the value date in notes the importer wrote, and its text leads back to the same
      note. */
  lemma {:induction false} ValueDateRoundTrip(d: CalendarDate)
    ensures ValueDate([ValueNote(d)]) == Some(d)
    ensures ParseDate(SlashText(d)) == Some(d)
  {
    IsoRoundTrip(d);
    SlashRoundTrip(d);
    assert ValueNote(d)[|PREFIX|..] == IsoText(d);
  }

  // ----- inferred types

  function LowerChar(c: char): char {
    if 'A' <= c <= 'Z' then ((c as int) + 32) as char else c
  }

  function Lower(s: string): string {
    seq(|s|, i requires 0 <= i < |s| => LowerChar(s[i]))
  }

  predicate WordAt(s: string, word: string, i: nat) {
    i + |word| <= |s| && s[i..i + |word|] == word
  }

  predicate HasWord(s: string, word: string) {
    exists i :: 0 <= i <= |s| && WordAt(s, word, i)
  }

  /** `_transaction_type`. */
  function KindOf(description: string, amount: real): Ledger.Kind {
    var d := Lower(description);
    if HasWord(d, "interest") then Ledger.Interest
    else if HasWord(d, "tax") then Ledger.Tax
    else if HasWord(d, "fee") || HasWord(d, "charge") then Ledger.Fee
    else if amount > 0.0 then Ledger.Deposit
    else Ledger.Withdrawal
  }

  // ----- rows

  /** A ledger entry with the fields of its transaction that are exported; notes are given line by line. */
  datatype ExportedEntry = ExportedEntry(date: CalendarDate, notes: seq<string>, description: string, amount: real)

  /** The four fields of a row. */
  datatype Fields = Fields(date: string, valueDate: string, description: string, amount: string)

  datatype ImportedRow = ImportedRow(
    date: CalendarDate, description: string, amount: Number, kind: Ledger.Kind, notes: string)

  datatype RowError = NoDescription | LongDescription | BadDate | BadAmount(cause: AmountError) | NoRows

  predicate StartsFormula(s: string) {
    s != "" && if IsSpace(s[0]) then StartsFormula(s[1..]) else s[0] == '=' || s[0] == '+' || s[0] == '-' || s[0] == '@'
  }

  /** `_spreadsheet_safe`. */
  function SpreadsheetSafe(s: string): string { if StartsFormula(s) then "'" + s else s }

  function ExportRow(e: ExportedEntry): Fields {
    var value := ValueDate(e.notes);
    Fields(SlashText(e.date), if value.Some? then SlashText(value.value) else "",
           SpreadsheetSafe(e.description), ExportAmount(e.amount))
  }

  /** `export_account_transactions`, for entries in the order of its query. */
  method ExportAccountTransactions(entries: seq<ExportedEntry>) returns (rows: seq<Fields>)
    ensures |rows| == |entries|
    ensures forall i :: 0 <= i < |rows| ==> rows[i] == ExportRow(entries[i])
  {
    hide SlashText, SpreadsheetSafe, ExportAmount, ValueDate;
    rows := [];
    for i := 0 to |entries|
      invariant |rows| == i
      invariant forall j :: 0 <= j < i ==> rows[j] == ExportRow(entries[j])
    {
      var e := entries[i];
      var value := ValueDate(e.notes);
      rows := rows + [Fields(SlashText(e.date), if value.Some? then SlashText(value.value) else "",
                             SpreadsheetSafe(e.description), ExportAmount(e.amount))];
    }
  }

  predicate Blank(f: Fields) {
    Strip(f.date) == "" && Strip(f.valueDate) == "" && Strip(f.description) == "" && Strip(f.amount) == ""
  }

  /** One pass of the loop over the rows of a file, blank rows apart. */
  function ParseRow(f: Fields): Result<ImportedRow, RowError> {
    var description := Strip(f.description);
    if description == "" then Err(NoDescription)
    else if |description| > 255 then Err(LongDescription)
    else
      match ParseDate(f.date)
      case None => Err(BadDate)
      case Some(date) =>
        match ParseAmount(f.amount)
        case Err(e) => Err(BadAmount(e))
        case Ok(amount) =>
          var kind := KindOf(description, amount.Value());
          if Strip(f.valueDate) == "" then Ok(ImportedRow(date, description, amount, kind, ""))
          else
            match ParseDate(f.valueDate)
            case None => Err(BadDate)
            case Some(value) => Ok(ImportedRow(date, description, amount, kind, ValueNote(value)))
  }

  function NonBlank(rows: seq<Fields>): seq<Fields> {
    if rows == [] then []
    else
      var last := rows[|rows| - 1];
      NonBlank(rows[..|rows| - 1]) + (if Blank(last) then [] else [last])
  }

  predicate AllParsed(fields: seq<Fields>, parsed: seq<ImportedRow>) {
    |parsed| == |fields| && forall i :: 0 <= i < |fields| ==> ParseRow(fields[i]) == Ok(parsed[i])
  }

  /** The first row that cannot be read is the k-th. */
  predicate FirstBad(fields: seq<Fields>, k: nat, error: RowError) {
    && k < |fields| && ParseRow(fields[k]) == Err(error)
    && forall j :: 0 <= j < k ==> ParseRow(fields[j]).Ok?
  }

  /** The loop of `parse_transaction_csv`: every row that is not blank gives one imported row, in order, or
      the first bad one stops the import. */
  method ParseTransactionCsv(rows: seq<Fields>) returns (r: Result<seq<ImportedRow>, RowError>)
    ensures r.Ok? <==> NonBlank(rows) != [] && forall f | f in NonBlank(rows) :: ParseRow(f).Ok?
    ensures r.Ok? ==> AllParsed(NonBlank(rows), r.value)
    ensures r.Err? ==>
              if NonBlank(rows) == [] then r.error == NoRows else exists k: nat :: FirstBad(NonBlank(rows), k, r.error)
  {
    hide ParseRow, Blank;
    var parsed: seq<ImportedRow> := [];
    for i := 0 to |rows|
      invariant AllParsed(NonBlank(rows[..i]), parsed)
    {
      NonBlankStep(rows, i);
      hide NonBlank;
      if Blank(rows[i]) {
        continue;
      }
      var row := ParseRow(rows[i]);
      if row.Err? {
        NonBlankPrefix(rows, i + 1);
        assert FirstBad(NonBlank(rows), |parsed|, row.error);
        return Err(row.error);
      }
      parsed := parsed + [row.value];
    }
    assert rows[..|rows|] == rows;
    if parsed == [] {
      return Err(NoRows);
    }
    return Ok(parsed);
  }

  lemma {:induction false} NonBlankStep(rows: seq<Fields>, i: nat)
    requires i < |rows|
    ensures NonBlank(rows[..i + 1]) == NonBlank(rows[..i]) + (if Blank(rows[i]) then [] else [rows[i]])
  {
    assert rows[..i + 1][..i] == rows[..i];
  }

  lemma {:induction false} NonBlankPrefix(rows: seq<Fields>, i: nat)
    requires i <= |rows|
    ensures NonBlank(rows[..i]) <= NonBlank(rows)
    decreases |rows| - i
  {
    if i < |rows| {
      NonBlankPrefix(rows, i + 1);
      NonBlankStep(rows, i);
    } else {
      assert rows[..i] == rows;
    }
  }

  /** The descriptions and amounts an exported entry must have for its row to be read back. */
  predicate Importable(e: ExportedEntry) {
    && Strip(SpreadsheetSafe(e.description)) != "" && |Strip(SpreadsheetSafe(e.description))| <= 255
    && Cents(e.amount) != 0 && Magnitude(Cents(e.amount)) < 1000000000000000000
  }

  /** Reading an exported row back succeeds exactly for importable entries, and gives the entry's date, its
      description as exported, its amount to the cent, the type these two suggest, and the note of its value date. */
  lemma {:induction false} RowRoundTrip(e: ExportedEntry)
    ensures ParseRow(ExportRow(e)).Ok? <==> Importable(e)
    ensures Importable(e) ==>
              var row, value := ParseRow(ExportRow(e)).value, ValueDate(e.notes);
              && row.date == e.date
              && row.description == Strip(SpreadsheetSafe(e.description))
              && row.amount == Number(Cents(e.amount), 2)
              && row.kind == KindOf(row.description, row.amount.Value())
              && row.notes == (if value.Some? then ValueNote(value.value) else "")
  {
    hide ParseDate, ParseAmount, SlashText, ExportAmount, Cents, Magnitude, Strip, SpreadsheetSafe, ValueDate,
        ValueNote, KindOf;
    SlashRoundTrip(e.date);
    AmountRoundTrip(e.amount);
    ValueDateReads(ValueDate(e.notes));
  }

  /** The exported value date is blank when there is none, and otherwise reads back. */
  lemma {:induction false} ValueDateReads(value: Option<CalendarDate>)
    ensures var text := if value.Some? then SlashText(value.value) else "";
            if value.Some? then Strip(text) != "" && ParseDate(text) == value else Strip(text) == ""
  {
    if value.Some? {
      SlashTextIsText(value.value);
      SlashRoundTrip(value.value);
    }
  }

  lemma {:induction false} SlashTextIsText(d: CalendarDate)
    ensures Strip(SlashText(d)) != ""
  {
    SlashRoundTrip(d);
    hide SlashText, Strip;
    assert ParseIso("").None? && !Contains("", '/');
  }

  /** A whole exported file is accepted exactly when every entry is importable, and then read back row for
      row. */
  lemma {:induction false} FileRoundTrip(entries: seq<ExportedEntry>, rows: seq<Fields>)
    requires |rows| == |entries| && forall i :: 0 <= i < |rows| ==> rows[i] == ExportRow(entries[i])
    ensures NonBlank(rows) == rows
    ensures (forall f | f in rows :: ParseRow(f).Ok?) <==> forall i :: 0 <= i < |entries| ==> Importable(entries[i])
    ensures forall i :: 0 <= i < |entries| && Importable(entries[i]) ==>
              && ParseRow(rows[i]).Ok? && ParseRow(rows[i]).value.date == entries[i].date
              && ParseRow(rows[i]).value.amount == Number(Cents(entries[i].amount), 2)
  {
    hide ExportRow, ParseRow, Importable, Blank;
    forall i | 0 <= i < |entries|
      ensures !Blank(rows[i]) && (ParseRow(rows[i]).Ok? <==> Importable(entries[i]))
      ensures Importable(entries[i]) ==>
                && ParseRow(rows[i]).Ok? && ParseRow(rows[i]).value.date == entries[i].date
                && ParseRow(rows[i]).value.amount == Number(Cents(entries[i].amount), 2)
    {
      RowRoundTrip(entries[i]);
      NotBlank(entries[i]);
    }
    AllKept(rows);
  }

  lemma {:induction false} NotBlank(e: ExportedEntry)
    ensures !Blank(ExportRow(e))
  {
    SlashTextIsText(e.date);
    hide Strip, SlashText, SpreadsheetSafe, ExportAmount, ValueDate;
  }

  lemma {:induction false} AllKept(rows: seq<Fields>)
    requires forall i :: 0 <= i < |rows| ==> !Blank(rows[i])
    ensures NonBlank(rows) == rows
  {
    hide Blank;
    if rows != [] {
      var front := rows[..|rows| - 1];
      AllKept(front);
      assert NonBlank(rows) == front + [rows[|rows| - 1]];
    }
  }
}

/** Bank statements in PDF form: grouping lines into transactions, reconciling amounts with the running
    balance, and importing the result (ledger/imports.py). */
module Statements {
  import opened Wrappers
  import opened Decimals
  import opened Text
  import opened AmountText
  import opened CsvFiles
  import Ledger

  // ----- lines

  /** The named groups of a transaction row. */
  datatype RowFields = RowFields(date: string, description: string, amount: string, currency: string, balance: string)

  /** The named groups of a reference row; the reference has at least eight digits. */
  datatype Reference = Reference(number: string, related: string)

  type FoundReference = r: Reference | r.number != ""
    witness Reference("00000000", "")

  /** A line of extracted text as the patterns see it: what it matches as a transaction row or a reference
      row, its stripped text, whether that starts like a footer, and whether the line starts with space. */
  datatype Line = Line(row: Option<RowFields>, reference: Option<FoundReference>, stripped: string, footer: bool,
      indented: bool)

  /** A page, and whether it carries the labels of the supported layout. */
  datatype Page = Page(labelled: bool, lines: seq<Line>)

  datatype Record = Record(fields: RowFields, details: seq<string>, reference: string, related: string)

  datatype PdfError =
    | UnsupportedLayout | NoTransactions
    | Unreadable | ZeroAmount | TooManyDigits | NotReconciled | BadDate | MixedCurrencies
    | WrongOwner | WrongCurrency

  function Open(fields: RowFields): Record { Record(fields, [], "", "") }

  predicate Closes(l: Line) { l.stripped != "" && l.footer }

  /** The lines that belong to an open row: up to the next transaction row or footer. */
  function Block(lines: seq<Line>): seq<Line> {
    if lines == [] || lines[0].row.Some? || Closes(lines[0]) then [] else [lines[0]] + Block(lines[1..])
  }

  /** What one such line adds to the row. */
  function Absorb(r: Record, l: Line): Record {
    if l.stripped == "" then r
    else if l.reference.Some? && r.reference == "" then
      r.(reference := l.reference.value.number, related := l.reference.value.related)
    else if l.indented then r.(details := r.details + [l.stripped])
    else r
  }

  function AbsorbAll(r: Record, block: seq<Line>): Record
    decreases |block|
  {
    if block == [] then r else AbsorbAll(Absorb(r, block[0]), block[1..])
  }

  /** The rows of a page: one for each transaction line, in order, with the lines that follow it. */
  function RecordsOf(lines: seq<Line>): seq<Record> {
    if lines == [] then []
    else if lines[0].row.Some? then [AbsorbAll(Open(lines[0].row.value), Block(lines[1..]))] + RecordsOf(lines[1..])
    else RecordsOf(lines[1..])
  }

  /** What is still to come of a page, given the row that is open. */
  function Pending(current: Option<Record>, lines: seq<Line>): seq<Record> {
    (if current.Some? then [AbsorbAll(current.value, Block(lines))] else []) + RecordsOf(lines)
  }

  lemma {:induction false} PendingStep(current: Option<Record>, lines: seq<Line>)
    requires lines != []
    ensures var l, rest := lines[0], lines[1..];
            Pending(current, lines) ==
            if l.row.Some? then (if current.Some? then [current.value] else []) + Pending(Some(Open(l.row.value)), rest)
            else if current.None? then Pending(None, rest)
            else if Closes(l) then [current.value] + Pending(None, rest)
            else Pending(Some(Absorb(current.value, l)), rest)
  {
    if current.Some? && lines[0].row.None? && !Closes(lines[0]) {
      assert Block(lines)[1..] == Block(lines[1..]);
    }
  }

  /** The loop over the lines of one page. */
  method ReadPage(lines: seq<Line>) returns (records: seq<Record>)
    ensures records == RecordsOf(lines)
  {
    hide RecordsOf, Pending, AbsorbAll, Block;
    records := [];
    var current: Option<Record> := None;
    PendingAtStart(lines);
    for i := 0 to |lines|
      invariant RecordsOf(lines) == records + Pending(current, lines[i..])
    {
      var line := lines[i];
      assert lines[i..][0] == line && lines[i..][1..] == lines[i + 1..];
      PendingStep(current, lines[i..]);
      if line.row.Some? {
        if current.Some? {
          records := records + [current.value];
        }
        current := Some(Open(line.row.value));
        continue;
      }
      if current.None? {
        continue;
      }
      if line.stripped == "" {
        continue;
      }
      if line.footer {
        records := records + [current.value];
        current := None;
        continue;
      }
      var r := current.value;
      if line.reference.Some? && r.reference == "" {
        current := Some(r.(reference := line.reference.value.number, related := line.reference.value.related));
        continue;
      }
      if line.indented {
        current := Some(r.(details := r.details + [line.stripped]));
      }
    }
    PendingAtEnd(current);
    if current.Some? {
      records := records + [current.value];
    }
  }

  lemma {:induction false} PendingAtStart(lines: seq<Line>)
    ensures RecordsOf(lines) == [] + Pending(None, lines[0..])
  {
    assert lines[0..] == lines;
  }

  lemma {:induction false} PendingAtEnd(current: Option<Record>)
    ensures Pending(current, []) == if current.Some? then [current.value] else []
  {}

  function AllRecords(pages: seq<Page>): seq<Record> {
    if pages == [] then [] else AllRecords(pages[..|pages| - 1]) + RecordsOf(pages[|pages| - 1].lines)
  }

  /** `_raw_pdf_transactions`. */
  method RawPdfTransactions(pages: seq<Page>) returns (r: Result<seq<Record>, PdfError>)
    ensures r == if !(exists i :: 0 <= i < |pages| && pages[i].labelled) then Err(UnsupportedLayout)
                 else if AllRecords(pages) == [] then Err(NoTransactions) else Ok(AllRecords(pages))
  {
    var records: seq<Record> := [];
    var supported := false;
    for i := 0 to |pages|
      invariant records == AllRecords(pages[..i])
      invariant supported <==> exists j :: 0 <= j < i && pages[j].labelled
    {
      assert pages[..i + 1][..i] == pages[..i];
      if pages[i].labelled {
        supported := true;
      }
      var more := ReadPage(pages[i].lines);
      records := records + more;
    }
    assert pages[..|pages|] == pages;
    if !supported {
      return Err(UnsupportedLayout);
    }
    if records == [] {
      return Err(NoTransactions);
    }
    return Ok(records);
  }

  // ----- what grouping keeps

  /** The transaction rows among some lines. */
  function RowsAmong(lines: seq<Line>): seq<RowFields> {
    if lines == [] then [] else (if lines[0].row.Some? then [lines[0].row.value] else []) + RowsAmong(lines[1..])
  }

  function RowsOnPages(pages: seq<Page>): seq<RowFields> {
    if pages == [] then [] else RowsOnPages(pages[..|pages| - 1]) + RowsAmong(pages[|pages| - 1].lines)
  }

  function FieldsOf(records: seq<Record>): seq<RowFields> {
    seq(|records|, i requires 0 <= i < |records| => records[i].fields)
  }

  lemma {:induction false} AbsorbKeepsFields(r: Record, block: seq<Line>)
    ensures AbsorbAll(r, block).fields == r.fields
    decreases |block|
  {
    if block != [] {
      AbsorbKeepsFields(Absorb(r, block[0]), block[1..]);
    }
  }

  lemma {:induction false} PageRows(lines: seq<Line>)
    ensures FieldsOf(RecordsOf(lines)) == RowsAmong(lines)
  {
    if lines != [] {
      PageRows(lines[1..]);
      if lines[0].row.Some? {
        AbsorbKeepsFields(Open(lines[0].row.value), Block(lines[1..]));
      }
    }
  }

  /** Every transaction line of the statement becomes exactly one record, in order, over all pages. */
  lemma {:induction false} EachRowOnce(pages: seq<Page>)
    ensures FieldsOf(AllRecords(pages)) == RowsOnPages(pages)
  {
    if pages != [] {
      EachRowOnce(pages[..|pages| - 1]);
      PageRows(pages[|pages| - 1].lines);
    }
  }

  /** The first line that gives the reference. */
  function ReferenceAt(block: seq<Line>): (k: nat)
    ensures k <= |block|
    ensures k < |block| ==> block[k].stripped != "" && block[k].reference.Some?
    ensures forall i :: 0 <= i < k ==> !(block[i].stripped != "" && block[i].reference.Some?)
  {
    if block == [] || (block[0].stripped != "" && block[0].reference.Some?) then 0 else 1 + ReferenceAt(block[1..])
  }

  /** The texts of the indented lines. */
  function IndentedTexts(block: seq<Line>): seq<string> {
    if block == [] then []
    else (if block[0].stripped != "" && block[0].indented then [block[0].stripped] else []) + IndentedTexts(block[1..])
  }

  lemma {:induction false} DetailsWhenReferenced(r: Record, block: seq<Line>)
    requires r.reference != ""
    ensures AbsorbAll(r, block) == r.(details := r.details + IndentedTexts(block))
    decreases |block|
  {
    if block != [] {
      DetailsWhenReferenced(Absorb(r, block[0]), block[1..]);
    }
  }

  lemma {:induction false} DetailsWithoutReference(r: Record, block: seq<Line>)
    requires forall i :: 0 <= i < |block| ==> !(block[i].stripped != "" && block[i].reference.Some?)
    ensures AbsorbAll(r, block) == r.(details := r.details + IndentedTexts(block))
    decreases |block|
  {
    if block != [] {
      DetailsWithoutReference(Absorb(r, block[0]), block[1..]);
    }
  }

  lemma {:induction false} AbsorbConcat(r: Record, a: seq<Line>, b: seq<Line>)
    ensures AbsorbAll(r, a + b) == AbsorbAll(AbsorbAll(r, a), b)
    decreases |a|
  {
    if a == [] {
      assert a + b == b;
    } else {
      assert (a + b)[1..] == a[1..] + b;
      AbsorbConcat(Absorb(r, a[0]), a[1..], b);
    }
  }

  /** A row takes its reference from the first reference line of its block, and as details the texts of all
      other indented lines of the block, in order. */
  lemma {:induction false} BlockMeaning(r: Record, block: seq<Line>)
    requires r.reference == ""
    ensures var k, s := ReferenceAt(block), AbsorbAll(r, block);
            if k == |block| then s == r.(details := r.details + IndentedTexts(block))
            else s == r.(details := r.details + IndentedTexts(block[..k]) + IndentedTexts(block[k + 1..]),
                         reference := block[k].reference.value.number, related := block[k].reference.value.related)
  {
    var k := ReferenceAt(block);
    DetailsWithoutReference(r, block[..k]);
    if k == |block| {
      assert block[..k] == block;
    } else {
      var before, l, rest := AbsorbAll(r, block[..k]), block[k], block[k + 1..];
      assert block == block[..k] + ([l] + rest);
      AbsorbConcat(r, block[..k], [l] + rest);
      assert ([l] + rest)[1..] == rest;
      assert AbsorbAll(before, [l] + rest) == AbsorbAll(Absorb(before, l), rest);
      DetailsWhenReferenced(Absorb(before, l), rest);
    }
  }

  // ----- descriptions

  /** Joining the parts that are not empty. */
  function Joined(parts: seq<string>): string {
    if parts == [] then ""
    else
      var front, last := Joined(parts[..|parts| - 1]), parts[|parts| - 1];
      if last == "" then front else if front == "" then last else front + " " + last
  }

  function Description(r: Record): string {
    var full := Strip(Joined([r.fields.description] + r.details));
    if |full| > 255 then full[..252] + "..." else full
  }

  // ----- amounts and the running balance

  datatype StatementRow = StatementRow(date: CalendarDate, description: string, amount: real, balance: real,
      currency: string, kind: Ledger.Kind)

  /** What one record becomes, given the balance before it when that is known. */
  function RowOf(r: Record, previous: Option<real>): Result<StatementRow, PdfError> {
    var raw, after := ParsePdfNumber(r.fields.amount), ParsePdfNumber(r.fields.balance);
    if raw.None? || after.None? then Err(Unreadable)
    else if raw.value.units == 0 then Err(ZeroAmount)
    else if !Fits(raw.value) then Err(TooManyDigits)
    else
      var printed, balance := raw.value.Value(), after.value.Value();
      if previous.Some? && Abs(balance - previous.value) != Abs(printed) then Err(NotReconciled)
      else
        var amount := if previous.Some? then balance - previous.value else printed;
        var date := ParseDate(r.fields.date);
        if date.None? then Err(PdfError.BadDate)
        else Ok(StatementRow(date.value, Description(r), amount, balance, r.fields.currency,
            KindOf(Description(r), amount)))
  }

  /** The balance printed on the record before the k-th, or the opening balance. */
  function Previous(records: seq<Record>, opening: Option<real>, k: nat): Option<real>
    requires k <= |records|
  {
    if k == 0 then opening
    else
      var b := ParsePdfNumber(records[k - 1].fields.balance);
      if b.Some? then Some(b.value.Value()) else None
  }

  /** Each row is what its record becomes after the one before it. */
  ghost predicate RowsOf(records: seq<Record>, opening: Option<real>, rows: seq<StatementRow>) {
    |rows| <= |records| && forall k :: 0 <= k < |rows| ==>
        RowOf(records[k], Previous(records, opening, k)) == Ok(rows[k])
  }

  predicate OneCurrency(rows: seq<StatementRow>, opening: Option<string>) {
    forall k :: 0 <= k < |rows| ==> rows[k].currency == if opening.Some? then opening.value else rows[0].currency
  }

  /** The first record that cannot be read is the k-th. */
  ghost predicate FirstBad(records: seq<Record>, opening: Option<real>, k: nat, error: PdfError) {
    && k < |records| && RowOf(records[k], Previous(records, opening, k)) == Err(error)
    && forall j :: 0 <= j < k ==> RowOf(records[j], Previous(records, opening, j)).Ok?
  }

  /** One pass of the loop: the row of a record after a known or unknown balance. */
  method ReadRecord(record: Record, previous: Option<real>) returns (r: Result<StatementRow, PdfError>)
    ensures r == RowOf(record, previous)
  {
    hide ParsePdfNumber, Fits, ParseDate, Description, KindOf;
    var raw := ParsePdfNumber(record.fields.amount);
    if raw.None? {
      return Err(Unreadable);
    }
    var after := ParsePdfNumber(record.fields.balance);
    if after.None? {
      return Err(Unreadable);
    }
    if raw.value.units == 0 {
      return Err(ZeroAmount);
    }
    if !Fits(raw.value) {
      return Err(TooManyDigits);
    }
    var balance := after.value.Value();
    var amount := raw.value.Value();
    if previous.Some? {
      var change := balance - previous.value;
      if Abs(change) != Abs(amount) {
        return Err(NotReconciled);
      }
      amount := change;
    }
    var description := Description(record);
    var date := ParseDate(record.fields.date);
    if date.None? {
      return Err(PdfError.BadDate);
    }
    return Ok(StatementRow(date.value, description, amount, balance, record.fields.currency,
        KindOf(description, amount)));
  }

  /** The balance carried to the next record is the one printed on this. */
  lemma {:induction false} BalanceIsPrinted(records: seq<Record>, opening: Option<real>, k: nat)
    requires k < |records| && RowOf(records[k], Previous(records, opening, k)).Ok?
    ensures Previous(records, opening, k + 1) == Some(RowOf(records[k], Previous(records, opening, k)).value.balance)
  {
    hide ParsePdfNumber, Fits, ParseDate, Description, KindOf;
  }

  /** The loop of `parse_transaction_pdf`. */
  method ReadRecords(records: seq<Record>, opening: Option<real>, openingCurrency: Option<string>)
    returns (r: Result<seq<StatementRow>, PdfError>)
    ensures r.Ok? ==>
              |r.value| == |records| && RowsOf(records, opening, r.value) && OneCurrency(r.value, openingCurrency)
    ensures r.Err? ==>
              || (r.error == MixedCurrencies
                  && exists rows ::
                       |rows| == |records| && RowsOf(records, opening, rows) && !OneCurrency(rows, openingCurrency))
              || exists k: nat :: FirstBad(records, opening, k, r.error)
  {
    hide RowOf, Previous, OneCurrency;
    var rows: seq<StatementRow> := [];
    var previous := opening;
    NothingBefore(records, opening);
    for k := 0 to |records|
      invariant |rows| == k && RowsOf(records, opening, rows)
      invariant previous == Previous(records, opening, k)
    {
      var row := ReadRecord(records[k], previous);
      if row.Err? {
        assert FirstBad(records, opening, k, row.error);
        return Err(row.error);
      }
      BalanceIsPrinted(records, opening, k);
      previous := Some(row.value.balance);
      rows := rows + [row.value];
    }
    if !OneCurrency(rows, openingCurrency) {
      return Err(MixedCurrencies);
    }
    return Ok(rows);
  }

  lemma {:induction false} NothingBefore(records: seq<Record>, opening: Option<real>)
    ensures Previous(records, opening, 0) == opening
  {}

  // ----- reconciliation

  function AmountTotal(rows: seq<StatementRow>): real {
    if rows == [] then 0.0 else AmountTotal(rows[..|rows| - 1]) + rows[|rows| - 1].amount
  }

  lemma {:induction false} ValueIsZeroIff(n: Number)
    ensures n.Value() == 0.0 <==> n.units == 0
  {
    var p := Pow10(n.places) as real;
    assert n.Value() * p == n.units as real;
  }

  /** Every amount is the printed one up to its sign, and not zero. */
  lemma {:induction false} AmountsArePrinted(records: seq<Record>, opening: Option<real>,
      rows: seq<StatementRow>, k: nat)
    requires RowsOf(records, opening, rows) && k < |rows|
    ensures ParsePdfNumber(records[k].fields.amount).Some?
    ensures var printed := ParsePdfNumber(records[k].fields.amount).value.Value();
            Abs(rows[k].amount) == Abs(printed) && rows[k].amount != 0.0
    ensures opening.None? && k == 0 ==> rows[k].amount == ParsePdfNumber(records[k].fields.amount).value.Value()
  {
    assert RowOf(records[k], Previous(records, opening, k)) == Ok(rows[k]);
    hide ParsePdfNumber, ParseDate, Description, KindOf;
    ValueIsZeroIff(ParsePdfNumber(records[k].fields.amount).value);
  }

  /** A row's amount is the change from the balance before it, when that is known. */
  lemma {:induction false} AmountIsChange(records: seq<Record>, opening: Option<real>, rows: seq<StatementRow>, k: nat)
    requires RowsOf(records, opening, rows) && k < |rows|
    ensures k > 0 ==> rows[k].amount == rows[k].balance - rows[k - 1].balance
    ensures k == 0 && opening.Some? ==> rows[k].amount == rows[k].balance - opening.value
  {
    hide ParsePdfNumber, ParseDate, Description, KindOf, Fits, Abs;
    assert RowOf(records[k], Previous(records, opening, k)) == Ok(rows[k]);
    if k > 0 {
      assert RowOf(records[k - 1], Previous(records, opening, k - 1)) == Ok(rows[k - 1]);
    }
  }

  lemma {:induction false} RowsOfPrefix(records: seq<Record>, opening: Option<real>, rows: seq<StatementRow>, n: nat)
    requires RowsOf(records, opening, rows) && n <= |rows|
    ensures RowsOf(records, opening, rows[..n])
  {
    hide RowOf, Previous;
    assert forall k :: 0 <= k < n ==> rows[..n][k] == rows[k];
  }

  /** The amounts of a statement add up to its closing balance less the balance it starts from, whatever
      signs were printed. */
  lemma {:induction false} StatementReconciles(records: seq<Record>, opening: Option<real>, rows: seq<StatementRow>)
    requires RowsOf(records, opening, rows) && rows != []
    ensures AmountTotal(rows) == rows[|rows| - 1].balance - StartBalance(rows)
    ensures opening.Some? ==> StartBalance(rows) == opening.value
  {
    hide RowsOf;
    var n := |rows| - 1;
    AmountIsChange(records, opening, rows, 0);
    if n > 0 {
      AmountIsChange(records, opening, rows, n);
      RowsOfPrefix(records, opening, rows, n);
      StatementReconciles(records, opening, rows[..n]);
    } else {
      assert rows[..0] == [];
    }
  }

  /** The balance before the first row: the opening balance, or the first printed balance less the first
      printed amount. */
  function StartBalance(rows: seq<StatementRow>): real
    requires rows != []
  {
    rows[0].balance - rows[0].amount
  }

  // ----- importing

  /** A date as the number yyyymmdd. */
  function DayKey(d: CalendarDate): int { 10000 * d.year + 100 * d.month + d.day }

  function LedgerRows(rows: seq<StatementRow>): seq<(int, real, Ledger.Kind)> {
    seq(|rows|, i requires 0 <= i < |rows| => (DayKey(rows[i].date), rows[i].amount, rows[i].kind))
  }

  lemma {:induction false} LedgerRowsTotal(rows: seq<StatementRow>)
    ensures Ledger.RowTotal(LedgerRows(rows)) == AmountTotal(rows)
  {
    if rows != [] {
      LedgerRowsTotal(rows[..|rows| - 1]);
      assert LedgerRows(rows)[..|rows| - 1] == LedgerRows(rows[..|rows| - 1]);
    }
  }

  lemma {:induction false} RowsImportable(records: seq<Record>, opening: Option<real>, rows: seq<StatementRow>)
    requires RowsOf(records, opening, rows)
    ensures forall k :: 0 <= k < |LedgerRows(rows)| ==> LedgerRows(rows)[k].1 != 0.0
  {
    forall k | 0 <= k < |rows|
      ensures rows[k].amount != 0.0
    {
      AmountsArePrinted(records, opening, rows, k);
    }
  }

  function OpeningBalance(opening: Option<(string, string)>): Option<real> {
    if opening.None? then None
    else
      var number := ParsePdfNumber(opening.value.0);
      if number.Some? then Some(number.value.Value()) else None
  }

  /** Every record can be read after the ones before it, and the statement has the account's currency. */
  ghost predicate Acceptable(records: seq<Record>, opening: Option<(string, string)>, code: string) {
    && (opening.Some? ==> ParsePdfNumber(opening.value.0).Some? && opening.value.1 == code)
    && forall k :: 0 <= k < |records| ==>
         RowOf(records[k], Previous(records, OpeningBalance(opening), k)).Ok? && records[k].fields.currency == code
  }

  lemma {:induction false} RowCurrencies(records: seq<Record>, opening: Option<real>, rows: seq<StatementRow>)
    requires RowsOf(records, opening, rows)
    ensures forall k :: 0 <= k < |rows| ==> rows[k].currency == records[k].fields.currency
  {
    hide ParsePdfNumber, Fits, ParseDate, Description, KindOf, Previous;
    forall k | 0 <= k < |rows|
      ensures rows[k].currency == records[k].fields.currency
    {
      assert RowOf(records[k], Previous(records, opening, k)) == Ok(rows[k]);
    }
  }

  lemma {:induction false} MixedIsUnacceptable(
    records: seq<Record>, opening: Option<(string, string)>, code: string, rows: seq<StatementRow>)
    requires |rows| == |records| && RowsOf(records, OpeningBalance(opening), rows)
    requires !OneCurrency(rows, if opening.Some? then Some(opening.value.1) else None)
    ensures !Acceptable(records, opening, code)
  {
    RowCurrencies(records, OpeningBalance(opening), rows);
    hide RowOf, RowsOf, Previous, OpeningBalance;
  }

  lemma {:induction false} NoOpeningIsUnacceptable(records: seq<Record>, opening: Option<(string, string)>,
      code: string)
    requires opening.Some? && ParsePdfNumber(opening.value.0).None?
    ensures !Acceptable(records, opening, code)
  {}

  lemma {:induction false} UnreadIsUnacceptable(
    records: seq<Record>, opening: Option<(string, string)>, code: string, error: PdfError)
    requires var start := OpeningBalance(opening);
             || (exists k: nat :: FirstBad(records, start, k, error))
             || (exists rows :: |rows| == |records| && RowsOf(records, start, rows)
                                && !OneCurrency(rows, if opening.Some? then Some(opening.value.1) else None))
    ensures !Acceptable(records, opening, code)
  {
    hide RowOf, Previous, OpeningBalance, OneCurrency;
    var start := OpeningBalance(opening);
    if k: nat :| FirstBad(records, start, k, error) {
      assert RowOf(records[k], Previous(records, start, k)).Err?;
    } else {
      var rows :| |rows| == |records| && RowsOf(records, start, rows)
                  && !OneCurrency(rows, if opening.Some? then Some(opening.value.1) else None);
      MixedIsUnacceptable(records, opening, code, rows);
    }
  }

  lemma {:induction false} WrongIsUnacceptable(records: seq<Record>, opening: Option<(string, string)>, code: string)
    requires exists k :: 0 <= k < |records| && records[k].fields.currency != code
    ensures !Acceptable(records, opening, code)
  {
    hide RowOf, Previous;
    var k :| 0 <= k < |records| && records[k].fields.currency != code;
    assert records[k].fields.currency != code;
  }

  lemma {:induction false} ReadIsAcceptable(
    records: seq<Record>, opening: Option<(string, string)>, code: string, rows: seq<StatementRow>)
    requires opening.Some? ==> ParsePdfNumber(opening.value.0).Some?
    requires rows != [] && |rows| == |records| && RowsOf(records, OpeningBalance(opening), rows)
    requires OneCurrency(rows, if opening.Some? then Some(opening.value.1) else None)
    requires forall k :: 0 <= k < |rows| ==> rows[k].currency == code
    ensures Acceptable(records, opening, code)
  {
    RowCurrencies(records, OpeningBalance(opening), rows);
    hide RowOf, Previous, OpeningBalance;
    assert rows[0].currency == code;
  }

  /** `import_transactions` on a PDF: the account moves from the statement's opening to its closing balance
      and no other account moves, or nothing is stored at all. */
  method ImportStatement(book: Ledger.Book, owner: nat, account: Ledger.Account, code: string,
                         pages: seq<Page>, opening: Option<(string, string)>)
    returns (r: Result<seq<StatementRow>, PdfError>)
    modifies book
    ensures r.Ok? <==>
              && account.owner == owner
              && (exists i :: 0 <= i < |pages| && pages[i].labelled) && AllRecords(pages) != []
              && Acceptable(AllRecords(pages), opening, code)
    ensures r.Err? ==> book.Stored() == old(book.Stored())
    ensures r.Ok? ==>
              && r.value != []
              && account.owner == owner
              && (opening.Some? ==> ParsePdfNumber(opening.value.0).Some?)
              && RowsOf(AllRecords(pages), OpeningBalance(opening), r.value)
              && |r.value| == |AllRecords(pages)|
              && (forall k :: 0 <= k < |r.value| ==> r.value[k].currency == code)
              && book.Stored() == Ledger.CreateAll(old(book.Stored()), owner, account, LedgerRows(r.value))
    ensures r.Ok? ==> Ledger.Balance(book.entries, account.pk)
                      == Ledger.Balance(old(book.entries), account.pk)
                          + r.value[|r.value| - 1].balance - StartBalance(r.value)
    ensures r.Ok? && opening.Some? ==> StartBalance(r.value) == ParsePdfNumber(opening.value.0).value.Value()
    ensures r.Ok? ==>
              forall other | other != account.pk ::
                Ledger.Balance(book.entries, other) == Ledger.Balance(old(book.entries), other)
  {
    hide ParsePdfNumber, RowOf, RowsOf, OneCurrency, AllRecords, LedgerRows, AmountTotal, Acceptable, FirstBad,
      Previous, Ledger.CreateAll, Ledger.Balance, Ledger.RowTotal;
    ghost var all := AllRecords(pages);
    if account.owner != owner {
      return Err(WrongOwner);
    }
    var records := RawPdfTransactions(pages);
    if records.Err? {
      return Err(records.error);
    }
    var start: Option<real> := None;
    if opening.Some? {
      var number := ParsePdfNumber(opening.value.0);
      if number.None? {
        NoOpeningIsUnacceptable(all, opening, code);
        return Err(Unreadable);
      }
      start := Some(number.value.Value());
    }
    assert start == OpeningBalance(opening);
    var rows := ReadRecords(records.value, start, if opening.Some? then Some(opening.value.1) else None);
    if rows.Err? {
      UnreadIsUnacceptable(all, opening, code, rows.error);
      return Err(rows.error);
    }
    RowCurrencies(all, start, rows.value);
    if exists k :: 0 <= k < |rows.value| && rows.value[k].currency != code {
      WrongIsUnacceptable(all, opening, code);
      return Err(WrongCurrency);
    }
    ReadIsAcceptable(all, opening, code, rows.value);
    RowsImportable(records.value, start, rows.value);
    ghost var before := book.Stored();
    var error := book.ImportAll(owner, account, LedgerRows(rows.value));
    assert error.None?;
    StatementReconciles(records.value, start, rows.value);
    LedgerRowsTotal(rows.value);
    forall other: nat
      ensures Ledger.Balance(book.entries, other)
           == Ledger.Balance(before.entries, other) + (if other == account.pk then AmountTotal(rows.value) else 0.0)
    {
      Ledger.ImportMovesBalance(before, owner, account, LedgerRows(rows.value), other);
    }
    return Ok(rows.value);
  }
}

/** What a statement's lines and records become, told by the lines themselves (ledger/imports.py). */
module StatementRows {
  import opened Wrappers
  import opened Decimals
  import opened AmountText
  import opened CsvFiles
  import opened Statements
  import Ledger
  import LedgerBalances
  import TextFormats

  // ----- lines

  /** A line that ends the row before it: a transaction line, or a footer that is not blank. */
  predicate Ends(l: Line) { l.row.Some? || (l.stripped != "" && l.footer) }

  /** The lines of a row reach up to the first that ends it, or to the end of the page. */
  lemma {:induction false} BlockReaches(lines: seq<Line>) returns (k: nat)
    ensures k <= |lines| && Block(lines) == lines[..k]
    ensures forall j :: 0 <= j < k ==> !Ends(lines[j])
    ensures k < |lines| ==> Ends(lines[k])
  {
    if lines == [] || Ends(lines[0]) {
      k := 0;
    } else {
      k := BlockReaches(lines[1..]);
      k := k + 1;
      assert lines[..k] == [lines[0]] + lines[1..][..k - 1];
      assert forall j :: 1 <= j < |lines| ==> lines[j] == lines[1..][j - 1];
    }
  }

  /** The record of a transaction line: its fields, and the lines of its row taken in. */
  predicate RecordAt(lines: seq<Line>, i: nat, r: Record) {
    i < |lines| && lines[i].row.Some? && r == AbsorbAll(Open(lines[i].row.value), Block(lines[i + 1..]))
  }

  /** A page's records are those of its transaction lines, each once and in order. */
  lemma {:induction false} RecordPlaces(lines: seq<Line>) returns (at: seq<nat>)
    ensures |at| == |RecordsOf(lines)| && forall j, k :: 0 <= j < k < |at| ==> at[j] < at[k]
    ensures forall i: nat :: i in at <==> i < |lines| && lines[i].row.Some?
    ensures forall k :: 0 <= k < |at| ==> RecordAt(lines, at[k], RecordsOf(lines)[k])
  {
    if lines == [] {
      at := [];
    } else {
      var rest := RecordPlaces(lines[1..]);
      FirstPlace(lines);
      hide RecordsOf, RecordAt, AbsorbAll, Block;
      at := LaterPlaces(lines, rest, RecordsOf(lines[1..]));
      if lines[0].row.Some? {
        at := WithFirst(lines, at, RecordsOf(lines));
      }
    }
  }

  lemma {:induction false} WithFirst(lines: seq<Line>, later: seq<nat>, records: seq<Record>) returns (at: seq<nat>)
    requires lines != [] && lines[0].row.Some? && |records| == |later| + 1 && RecordAt(lines, 0, records[0])
    requires forall j, k :: 0 <= j < k < |later| ==> later[j] < later[k]
    requires forall i: nat :: i in later <==> 0 < i < |lines| && lines[i].row.Some?
    requires forall k :: 0 <= k < |later| ==> later[k] > 0 && RecordAt(lines, later[k], records[1..][k])
    ensures |at| == |records| && forall j, k :: 0 <= j < k < |at| ==> at[j] < at[k]
    ensures forall i: nat :: i in at <==> i < |lines| && lines[i].row.Some?
    ensures forall k :: 0 <= k < |at| ==> RecordAt(lines, at[k], records[k])
  {
    hide RecordAt;
    at := [0] + later;
    forall k | 0 <= k < |at|
      ensures RecordAt(lines, at[k], records[k])
    {
      if k > 0 {
        assert at[k] == later[k - 1] && records[k] == records[1..][k - 1];
      }
    }
    forall i: nat
      ensures i in at <==> i < |lines| && lines[i].row.Some?
    {
      assert i in at <==> i == 0 || i in later;
    }
  }

  lemma {:induction false} FirstPlace(lines: seq<Line>)
    requires lines != []
    ensures lines[0].row.Some? ==> |RecordsOf(lines)| > 0 && RecordAt(lines, 0, RecordsOf(lines)[0])
                                   && RecordsOf(lines)[1..] == RecordsOf(lines[1..])
    ensures lines[0].row.None? ==> RecordsOf(lines) == RecordsOf(lines[1..])
  {}

  /** The places of the rest of a page, seen from its first line. */
  lemma {:induction false} LaterPlaces(lines: seq<Line>, rest: seq<nat>, records: seq<Record>) returns (later: seq<nat>)
    requires lines != [] && |rest| == |records|
    requires forall j, k :: 0 <= j < k < |rest| ==> rest[j] < rest[k]
    requires forall i: nat :: i in rest <==> i < |lines| - 1 && lines[1..][i].row.Some?
    requires forall k :: 0 <= k < |rest| ==> RecordAt(lines[1..], rest[k], records[k])
    ensures |later| == |records| && forall j, k :: 0 <= j < k < |later| ==> later[j] < later[k]
    ensures forall i: nat :: i in later <==> 0 < i < |lines| && lines[i].row.Some?
    ensures forall k :: 0 <= k < |later| ==> later[k] > 0 && RecordAt(lines, later[k], records[k])
  {
    later := Shifted(rest);
    hide Shifted;
    forall k | 0 <= k < |later|
      ensures RecordAt(lines, later[k], records[k])
    {
      assert RecordAt(lines[1..], rest[k], records[k]);
      assert lines[1..][rest[k] + 1..] == lines[later[k] + 1..];
    }
    hide RecordAt;
    forall i: nat
      ensures i in later <==> 0 < i < |lines| && lines[i].row.Some?
    {
      ShiftedMember(rest, i);
      if 0 < i < |lines| {
        assert lines[1..][i - 1] == lines[i];
      }
    }
  }

  function Shifted(rest: seq<nat>): (r: seq<nat>)
    ensures |r| == |rest| && forall k :: 0 <= k < |rest| ==> r[k] == rest[k] + 1
  {
    seq(|rest|, k requires 0 <= k < |rest| => rest[k] + 1)
  }

  lemma {:induction false} ShiftedMember(rest: seq<nat>, i: nat)
    ensures i in Shifted(rest) <==> i > 0 && i - 1 in rest
  {
    if i in Shifted(rest) {
      var k :| 0 <= k < |rest| && Shifted(rest)[k] == i;
      assert rest[k] in rest;
    }
    if i > 0 && i - 1 in rest {
      var k :| 0 <= k < |rest| && rest[k] == i - 1;
      assert Shifted(rest)[k] == i;
    }
  }

  // ----- records

  /** A record is read exactly when its amount and balance are numbers, the amount is not zero and not too long,
      the balance moves by it when the one before is known, and the date is a day. The row keeps them, with the
      description, the currency and the type these suggest. */
  lemma {:induction false} RecordReads(r: Record, previous: Option<real>)
    ensures var amount, balance := ParsePdfNumber(r.fields.amount), ParsePdfNumber(r.fields.balance);
            var date, row := ParseDate(r.fields.date), RowOf(r, previous);
            && (row.Ok? <==>
                  && amount.Some? && balance.Some? && date.Some?
                  && amount.value.Value() != 0.0 && amount.value.places <= 4
                  && -10000000000000000.0 < amount.value.Value() < 10000000000000000.0
                  && (previous.Some? ==> Abs(balance.value.Value() - previous.value) == Abs(amount.value.Value())))
            && (row.Ok? ==>
                  && Some(row.value.date) == date && row.value.balance == balance.value.Value()
                  && row.value.amount
                     == (if previous.Some? then balance.value.Value() - previous.value else amount.value.Value())
                  && row.value.description == Description(r) && row.value.currency == r.fields.currency
                  && row.value.kind == KindOf(row.value.description, row.value.amount))
  {
    var amount := ParsePdfNumber(r.fields.amount);
    if amount.Some? {
      ValueIsZeroIff(amount.value);
      TextFormats.FitsIff(amount.value);
    }
    hide ParsePdfNumber, ParseDate, Description, KindOf, Fits, Number.Value;
  }

  // ----- imports

  /** Stored dates are in the order of the calendar, and equal only for the same day. */
  lemma {:induction false} DayKeyOrders(a: CalendarDate, b: CalendarDate)
    ensures DayKey(a) < DayKey(b) <==>
            a.year < b.year || (a.year == b.year && (a.month < b.month || (a.month == b.month && a.day < b.day)))
    ensures DayKey(a) == DayKey(b) <==> a == b
    ensures DayKey(Date(2024, 3, 5)) == 20240305
  {}

  /** An imported statement is stored row by row: each with its own transaction, dated, typed and entered as the row. */
  lemma {:induction false} StatementStores(st: Ledger.State, owner: nat, account: Ledger.Account,
      rows: seq<StatementRow>, k: nat)
    requires Ledger.Inv(st) && k < |rows|
    ensures var after, id := Ledger.CreateAll(st, owner, account, LedgerRows(rows)), st.nextId + k;
            && after.nextId == st.nextId + |rows| && id in after.transactions
            && after.transactions[id] == Ledger.Transaction(owner, DayKey(rows[k].date), rows[k].kind, None)
            && Ledger.EntriesOf(after.entries, id) == [Ledger.Entry(id, account, rows[k].amount, Ledger.Only)]
  {
    assert forall id | Ledger.Mentions(st.entries, id) :: id in st.transactions;
    hide Ledger.Inv, Ledger.CreateAll;
    LedgerBalances.ImportStores(st, owner, account, LedgerRows(rows), k);
  }
}

/** Disposals and tax years: a sale is the same event whichever year it is reported in, and years that do
    not overlap never share one (tax/services/aggregation.py, investments/services/cost_basis.py). */
module YearPartition {
  import opened Wrappers
  import opened Decimals
  import opened Trades
  import opened CostBasis
  import opened TaxSources
  import TaxYears

  /** Replaying fewer rows gives the beginning of the same list of events. */
  lemma {:induction false} EventsOfPrefix(c: Context, rows: seq<Trade>, k: nat)
    requires k <= |rows| && BookReplay(c, rows).Ok?
    ensures BookReplay(c, rows[..k]).Ok?
    ensures BookReplay(c, rows[..k]).value.events <= BookReplay(c, rows).value.events
    decreases |rows|
  {
    if k == |rows| {
      assert rows[..k] == rows;
    } else {
      assert rows[..|rows| - 1][..k] == rows[..k];
      EventsOfPrefix(c, rows[..|rows| - 1], k);
    }
  }

  lemma {:induction false} OnlyTradesChronological(items: seq<Trade>)
    requires Chronological(items)
    ensures Chronological(OnlyTrades(items))
  {
    if items != [] {
      var n := |items| - 1;
      OnlyTradesChronological(items[..n]);
      OnlyTradesMembers(items[..n]);
      assert forall t :: t in items[..n] ==> t.date <= items[n].date;
    }
  }

  lemma {:induction false} EarlierRowsArePrefix(items: seq<Trade>, earlier: int, later: int)
    requires Chronological(items) && earlier <= later
    ensures TradesUpTo(items, Some(earlier)) <= TradesUpTo(items, Some(later))
  {
    var rows := OnlyTrades(items);
    OnlyTradesChronological(items);
    AsOfIsPrefix(rows, earlier);
    AsOfIsPrefix(rows, later);
    AsOfMembers(rows, earlier);
    hide OnlyTrades, AsOf;
    var a, b := |AsOf(rows, earlier)|, |AsOf(rows, later)|;
    if a > 0 {
      assert rows[a - 1] == AsOf(rows, earlier)[a - 1];
      assert rows[a - 1] in AsOf(rows, earlier);
    }
    assert a <= b;
  }

  /** The events replayed to an earlier day are a prefix of those replayed to a later one, and when the
      later replay succeeds so does the earlier. */
  lemma {:induction false} EarlierEventsArePrefix(c: Context, items: seq<Trade>, earlier: int, later: int)
    requires Chronological(items) && earlier <= later
    requires BookReplay(c, TradesUpTo(items, Some(later))).Ok?
    ensures BookReplay(c, TradesUpTo(items, Some(earlier))).Ok?
    ensures BookReplay(c, TradesUpTo(items, Some(earlier))).value.events
         <= BookReplay(c, TradesUpTo(items, Some(later))).value.events
  {
    EarlierRowsArePrefix(items, earlier, later);
    var rows := TradesUpTo(items, Some(later));
    var k := |TradesUpTo(items, Some(earlier))|;
    assert rows[..k] == TradesUpTo(items, Some(earlier));
    EventsOfPrefix(c, rows, k);
  }

  /** The events of a list that fall on or before a day. */
  function Until(events: seq<Event>, end: int): seq<Event> {
    if events == [] then []
    else
      var last := events[|events| - 1];
      Until(events[..|events| - 1], end) + (if last.trade.date <= end then [last] else [])
  }

  /** Event trades are rows of the history, in order. */
  lemma {:induction false} EventsComeFromRows(c: Context, rows: seq<Trade>)
    requires BookReplay(c, rows).Ok?
    ensures forall e | e in BookReplay(c, rows).value.events :: e.trade in rows
  {
    if rows != [] {
      var n := |rows| - 1;
      EventsComeFromRows(c, rows[..n]);
      assert rows == rows[..n] + [rows[n]];
    }
  }

  /** The last row adds the event of that row, or nothing. */
  lemma {:induction false} LastRowEvent(c: Context, rows: seq<Trade>)
    requires rows != [] && BookReplay(c, rows).Ok?
    ensures BookReplay(c, rows[..|rows| - 1]).Ok?
    ensures var before, after := BookReplay(c, rows[..|rows| - 1]).value.events, BookReplay(c, rows).value.events;
            || after == before
            || exists e: Event :: e.trade == rows[|rows| - 1] && after == before + [e]
  {
    var n := |rows| - 1;
    EventsOfPrefix(c, rows, n);
    var before, after := BookReplay(c, rows[..n]).value.events, BookReplay(c, rows).value.events;
    if after != before {
      assert after[..|before|] == before;
      assert after[|before|].trade == rows[n];
      assert after == before + [after[|before|]];
    }
  }

  lemma {:induction false} UntilCut(c: Context, rows: seq<Trade>, k: nat, end: int)
    requires k <= |rows| && BookReplay(c, rows).Ok?
    requires forall i :: 0 <= i < k ==> rows[i].date <= end
    requires forall i :: k <= i < |rows| ==> rows[i].date > end
    ensures BookReplay(c, rows[..k]).Ok?
    ensures Until(BookReplay(c, rows).value.events, end) == BookReplay(c, rows[..k]).value.events
    decreases |rows|
  {
    hide BookReplay, Until;
    if k == |rows| {
      assert rows[..k] == rows;
      EventsComeFromRows(c, rows);
      var events := BookReplay(c, rows).value.events;
      forall i | 0 <= i < |events|
        ensures events[i].trade.date <= end
      {
        assert events[i] in events;
      }
      AllUntil(events, end);
    } else {
      var n := |rows| - 1;
      LastRowEvent(c, rows);
      UntilCut(c, rows[..n], k, end);
      assert rows[..n][..k] == rows[..k];
      var before, after := BookReplay(c, rows[..n]).value.events, BookReplay(c, rows).value.events;
      if after != before {
        var e: Event :| e.trade == rows[n] && after == before + [e];
        UntilSnoc(before, e, end);
        assert Until(before, end) + [] == Until(before, end);
      }
    }
  }

  lemma {:induction false} AllUntil(events: seq<Event>, end: int)
    requires forall i :: 0 <= i < |events| ==> events[i].trade.date <= end
    ensures Until(events, end) == events
  {
    if events != [] {
      var front, last := events[..|events| - 1], events[|events| - 1];
      assert events == front + [last];
      hide *;
      AllUntil(front, end);
      UntilSnoc(front, last, end);
    }
  }

  /** Replaying to an earlier day is replaying to a later day and dropping the later events. */
  lemma {:induction false} EarlierReplayIsCut(c: Context, items: seq<Trade>, earlier: int, later: int)
    requires Chronological(items) && earlier <= later
    requires BookReplay(c, TradesUpTo(items, Some(later))).Ok?
    ensures BookReplay(c, TradesUpTo(items, Some(earlier))).Ok?
    ensures BookReplay(c, TradesUpTo(items, Some(earlier))).value.events
         == Until(BookReplay(c, TradesUpTo(items, Some(later))).value.events, earlier)
  {
    EarlierRowsArePrefix(items, earlier, later);
    OnlyTradesChronological(items);
    var trades := OnlyTrades(items);
    AsOfIsPrefix(trades, earlier);
    AsOfIsPrefix(trades, later);
    AsOfMembers(trades, earlier);
    var rows := TradesUpTo(items, Some(later));
    var k := |TradesUpTo(items, Some(earlier))|;
    assert rows[..k] == TradesUpTo(items, Some(earlier));
    hide BookReplay, AsOf, OnlyTrades;
    forall i | 0 <= i < k
      ensures rows[i].date <= earlier
    {
      assert rows[i] == AsOf(trades, earlier)[i];
    }
    UntilCut(c, rows, k, earlier);
  }

  lemma {:induction false} FromSnoc(events: seq<Event>, e: Event, start: int)
    ensures From(events + [e], start) == From(events, start) + (if e.trade.date < start then [] else [e])
  {
    assert (events + [e])[..|events|] == events;
  }

  lemma {:induction false} UntilSnoc(events: seq<Event>, e: Event, end: int)
    ensures Until(events + [e], end) == Until(events, end) + (if e.trade.date <= end then [e] else [])
  {
    assert (events + [e])[..|events|] == events;
  }

  lemma {:induction false} WindowMembers(events: seq<Event>, start: int, end: int)
    ensures forall e :: e in From(Until(events, end), start) <==> e in events && start <= e.trade.date <= end
  {
    if events != [] {
      var n := |events| - 1;
      WindowMembers(events[..n], start, end);
      assert events == events[..n] + [events[n]];
      if events[n].trade.date <= end {
        FromSnoc(Until(events[..n], end), events[n], start);
      } else {
        assert Until(events, end) == Until(events[..n], end);
      }
    }
  }

  /** A year reports exactly the sales of the whole replay that fall in it: each with the figures it has in
      any other report. */
  lemma {:induction false} YearIsWindow(c: Context, year: Year, account: BrokerageAccount, later: int)
    requires Chronological(account.history) && year.end <= later
    requires BookReplay(c, TradesUpTo(account.history, Some(later))).Ok?
    ensures !ReplayFails(c, year, account)
    ensures YearEvents(c, year, account)
         == From(Until(BookReplay(c, TradesUpTo(account.history, Some(later))).value.events, year.end), year.start)
    ensures forall e :: e in YearEvents(c, year, account) <==>
              e in BookReplay(c, TradesUpTo(account.history, Some(later))).value.events && year.Covers(e.trade.date)
  {
    EarlierReplayIsCut(c, account.history, year.end, later);
    WindowMembers(BookReplay(c, TradesUpTo(account.history, Some(later))).value.events, year.start, year.end);
  }

  /** Years without a common day share no disposal. */
  lemma {:induction false} DisposalCountedOnce(c: Context, first: Year, second: Year, account: BrokerageAccount,
      e: Event)
    requires Chronological(account.history)
    requires first.end < second.start || second.end < first.start
    ensures e !in YearEvents(c, first, account) || e !in YearEvents(c, second, account)
  {
    if !ReplayFails(c, first, account) && !ReplayFails(c, second, account) {
      YearIsWindow(c, first, account, first.end);
      YearIsWindow(c, second, account, second.end);
    }
  }

  /** Two consecutive years report, one after the other, what the whole span reports. */
  lemma {:induction false} ConsecutiveYearsConcatenate(c: Context, first: Year, second: Year, span: Year,
      account: BrokerageAccount)
    requires Chronological(account.history)
    requires span.start == first.start && first.end + 1 == second.start && second.end == span.end
    requires first.start <= first.end && second.start <= second.end
    requires !ReplayFails(c, span, account)
    ensures YearEvents(c, span, account) == YearEvents(c, first, account) + YearEvents(c, second, account)
  {
    hide BookReplay, TradesUpTo, Until, From, Chronological;
    YearIsWindow(c, first, account, span.end);
    EventDatesAscend(c, TradesUpTo(account.history, Some(span.end)), account.history, span.end);
    SplitFrom(BookReplay(c, TradesUpTo(account.history, Some(span.end))).value.events, first.start, first.end);
  }

  /** Years that follow each other without a gap. */
  predicate Contiguous(years: seq<Year>) {
    && (forall i :: 0 <= i < |years| ==> years[i].start <= years[i].end)
    && (forall i :: 0 < i < |years| ==> years[i - 1].end + 1 == years[i].start)
  }

  /** What a list of years reports, one after the other. */
  function EventsOfYears(c: Context, years: seq<Year>, account: BrokerageAccount): seq<Event> {
    if years == [] then []
    else EventsOfYears(c, years[..|years| - 1], account) + YearEvents(c, years[|years| - 1], account)
  }

  /** Any number of years that follow each other without a gap report, one after the other, what the whole
      span reports. */
  lemma {:induction false} ContiguousYearsConcatenate(c: Context, years: seq<Year>, span: Year,
      account: BrokerageAccount)
    requires Chronological(account.history) && years != [] && Contiguous(years)
    requires span.start == years[0].start && span.end == years[|years| - 1].end
    requires !ReplayFails(c, span, account)
    ensures YearEvents(c, span, account) == EventsOfYears(c, years, account)
  {
    var n := |years| - 1;
    hide YearEvents, Chronological;
    if n == 0 {
      assert EventsOfYears(c, years[..0], account) == [];
      SameWindow(c, span, years[0], account);
    } else {
      var front := Year(span.start, years[n - 1].end, span.reporting);
      assert front.start <= front.end by {
        SpanIsOrdered(years[..n]);
      }
      YearIsWindow(c, front, account, span.end);
      ContiguousYearsConcatenate(c, years[..n], front, account);
      ConsecutiveYearsConcatenate(c, front, years[n], span, account);
    }
  }

  lemma {:induction false} SpanIsOrdered(years: seq<Year>)
    requires years != [] && Contiguous(years)
    ensures years[0].start <= years[|years| - 1].end
  {
    if |years| > 1 {
      SpanIsOrdered(years[..|years| - 1]);
    }
  }

  lemma {:induction false} SameWindow(c: Context, a: Year, b: Year, account: BrokerageAccount)
    requires a.start == b.start && a.end == b.end
    ensures YearEvents(c, a, account) == YearEvents(c, b, account)
  {}

  lemma {:induction false} EventDatesAscend(c: Context, rows: seq<Trade>, items: seq<Trade>, end: int)
    requires Chronological(items) && rows <= TradesUpTo(items, Some(end)) && BookReplay(c, rows).Ok?
    ensures var es := BookReplay(c, rows).value.events;
            forall i, j :: 0 <= i < j < |es| ==> es[i].trade.date <= es[j].trade.date
  {
    if rows != [] {
      var n := |rows| - 1;
      assert rows[..n] <= TradesUpTo(items, Some(end));
      EventsOfPrefix(c, rows, n);
      EventDatesAscend(c, rows[..n], items, end);
      EventsComeFromRows(c, rows[..n]);
      OnlyTradesChronological(items);
      AsOfIsPrefix(OnlyTrades(items), end);
      hide TradesUpTo, OnlyTrades;
      assert forall t | t in rows[..n] :: t.date <= rows[n].date;
      var b, after := BookReplay(c, rows[..n]).value, BookReplay(c, rows).value;
      if after.events != b.events {
        assert after.events[..|b.events|] == b.events;
        assert after.events[|b.events|].trade == rows[n];
      }
    }
  }

  lemma {:induction false} SplitFrom(events: seq<Event>, start: int, middle: int)
    requires forall i, j :: 0 <= i < j < |events| ==> events[i].trade.date <= events[j].trade.date
    requires start <= middle + 1
    ensures From(events, start) == From(Until(events, middle), start) + From(events, middle + 1)
  {
    if events == [] {
      assert Until(events, middle) == [] && From(events, start) == [] && From(events, middle + 1) == [];
    } else {
      var n := |events| - 1;
      var front, e := events[..n], events[n];
      assert events == front + [e];
      SplitFrom(front, start, middle);
      FromSnoc(front, e, start);
      FromSnoc(front, e, middle + 1);
      UntilSnoc(front, e, middle);
      if e.trade.date <= middle {
        FromSnoc(Until(front, middle), e, start);
        NothingAfter(front, middle + 1);
        assert From(front, middle + 1) == From(events, middle + 1) == [];
      } else {
        assert Until(events, middle) == Until(front, middle);
        assert From(events, start) == From(front, start) + [e];
      }
    }
  }

  lemma {:induction false} NothingAfter(events: seq<Event>, start: int)
    requires forall i :: 0 <= i < |events| ==> events[i].trade.date < start
    ensures From(events, start) == []
  {
    if events != [] {
      NothingAfter(events[..|events| - 1], start);
    }
  }

  function PeriodOf(y: TaxYears.TaxYear): Year {
    Year(y.start, y.end, y.currency)
  }

  /** Whatever saves and deletions are attempted, no two stored years of one owner and jurisdiction report
      the same disposal. */
  lemma {:induction false} DisposalInOneStoredYear(actions: seq<TaxYears.Action>, p: nat, q: nat, c: Context,
      account: BrokerageAccount, e: Event)
    requires var years := TaxYears.Run(TaxYears.EMPTY, actions).years;
             && p in years && q in years && p != q
             && years[p].owner == years[q].owner && years[p].jurisdiction == years[q].jurisdiction
    requires Chronological(account.history)
    ensures var years := TaxYears.Run(TaxYears.EMPTY, actions).years;
            e !in YearEvents(c, PeriodOf(years[p]), account) || e !in YearEvents(c, PeriodOf(years[q]), account)
  {
    TaxYears.PeriodsStayDisjoint(actions);
    var years := TaxYears.Run(TaxYears.EMPTY, actions).years;
    DisposalCountedOnce(c, PeriodOf(years[p]), PeriodOf(years[q]), account, e);
  }
}

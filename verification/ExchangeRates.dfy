/** Historical exchange rates (core/services/fx.py). */
module ExchangeRates {
  import opened Wrappers
  import opened Decimals

  /** One stored observation: 1 unit of `base` is `rate` units of `quote`.  `source` stands for the rank of
      the source's name in string order. */
  datatype Observation = Observation(date: int, base: nat, quote: nat, rate: real, source: nat, created: int)

  type Stored = o: Observation | o.rate > 0.0 && o.base != o.quote
    witness Observation(0, 0, 1, 1.0, 0, 0)

  type Table = seq<Stored>

  datatype MissingRate = MissingRate(source: nat, target: nat, cutoff: int)

  /** `order_by("-date", "source", "-created_at")`: o comes strictly before p. */
  predicate Precedes(o: Stored, p: Stored) {
    o.date > p.date || (o.date == p.date && (o.source < p.source || (o.source == p.source && o.created > p.created)))
  }

  predicate Matches(o: Stored, base: nat, quote: nat, cutoff: int) {
    o.base == base && o.quote == quote && o.date <= cutoff
  }

  /** The first row of the filtered and ordered queryset. */
  function First(table: Table, base: nat, quote: nat, cutoff: int): Option<Stored> {
    if table == [] then None
    else
      var best := First(table[..|table| - 1], base, quote, cutoff);
      var o := table[|table| - 1];
      if Matches(o, base, quote, cutoff) && (best.None? || Precedes(o, best.value)) then Some(o) else best
  }

  /** `get_fx_rate`. */
  function GetFxRate(table: Table, source: nat, target: nat, cutoff: int): Result<real, MissingRate> {
    if source == target then Ok(1.0)
    else
      var direct := First(table, source, target, cutoff);
      var inverse := First(table, target, source, cutoff);
      if direct.Some? && (inverse.None? || direct.value.date >= inverse.value.date) then Ok(direct.value.rate)
      else if inverse.Some? then Ok(1.0 / inverse.value.rate)
      else Err(MissingRate(source, target, cutoff))
  }

  /** `convert_currency`. */
  function Convert(table: Table, amount: real, source: nat, target: nat, cutoff: int): Result<real, MissingRate> {
    match GetFxRate(table, source, target, cutoff)
    case Err(e) => Err(e)
    case Ok(rate) => Ok(Times(amount, rate))
  }

  lemma {:induction false} FirstIsNewest(table: Table, base: nat, quote: nat, cutoff: int)
    ensures var f := First(table, base, quote, cutoff);
            && (f.None? <==> forall o | o in table :: !Matches(o, base, quote, cutoff))
            && (f.Some? ==>
                  && f.value in table && Matches(f.value, base, quote, cutoff)
                  && forall o | o in table && Matches(o, base, quote, cutoff) :: !Precedes(o, f.value))
  {
    if table != [] {
      var n := |table| - 1;
      FirstIsNewest(table[..n], base, quote, cutoff);
      assert table == table[..n] + [table[n]];
    }
  }

  /** The observations of a pair, in either orientation, that a lookup may use. */
  predicate Usable(o: Stored, source: nat, target: nat, cutoff: int) {
    Matches(o, source, target, cutoff) || Matches(o, target, source, cutoff)
  }

  /** The observation a lookup takes: no usable one is newer, none of the same day is in the direct orientation
      unless this one is, and none of its own orientation comes before it in the order of date, source and
      creation. */
  ghost predicate Chosen(table: Table, source: nat, target: nat, cutoff: int, o: Stored) {
    && o in table && Usable(o, source, target, cutoff)
    && (forall p | p in table && Usable(p, source, target, cutoff) :: p.date <= o.date)
    && (forall p | p in table && Matches(p, source, target, cutoff) :: p.date == o.date ==> o.base == source)
    && (forall p | p in table && Matches(p, o.base, o.quote, cutoff) :: !Precedes(p, o))
  }

  /** A rate is found exactly when the pair was observed by the cutoff; it is positive and that of the chosen
      observation, inverted when that one is stored the other way round. */
  lemma {:induction false} RateIsNewestObservation(table: Table, source: nat, target: nat, cutoff: int)
    requires source != target
    ensures var rate := GetFxRate(table, source, target, cutoff);
            && (rate.Ok? <==> exists o :: o in table && Usable(o, source, target, cutoff))
            && (rate.Ok? ==>
                  && rate.value > 0.0
                  && exists o :: Chosen(table, source, target, cutoff, o)
                                 && rate.value == if o.base == source then o.rate else 1.0 / o.rate)
  {
    FirstIsNewest(table, source, target, cutoff);
    FirstIsNewest(table, target, source, cutoff);
    var direct, inverse := First(table, source, target, cutoff), First(table, target, source, cutoff);
    if direct.Some? && (inverse.None? || direct.value.date >= inverse.value.date) {
      assert Chosen(table, source, target, cutoff, direct.value);
    } else if inverse.Some? {
      assert Chosen(table, source, target, cutoff, inverse.value);
    }
  }

  lemma {:induction false} RateIsPositive(table: Table, source: nat, target: nat, cutoff: int)
    requires GetFxRate(table, source, target, cutoff).Ok?
    ensures GetFxRate(table, source, target, cutoff).value > 0.0
  {
    if source != target {
      RateIsNewestObservation(table, source, target, cutoff);
    }
  }

  function UpTo(table: Table, cutoff: int): Table {
    if table == [] then []
    else
      var o := table[|table| - 1];
      UpTo(table[..|table| - 1], cutoff) + (if o.date <= cutoff then [o] else [])
  }

  lemma {:induction false} FirstIgnoresLater(table: Table, base: nat, quote: nat, cutoff: int)
    ensures First(UpTo(table, cutoff), base, quote, cutoff) == First(table, base, quote, cutoff)
  {
    if table != [] {
      var n := |table| - 1;
      FirstIgnoresLater(table[..n], base, quote, cutoff);
      if table[n].date <= cutoff {
        assert UpTo(table, cutoff)[..|UpTo(table[..n], cutoff)|] == UpTo(table[..n], cutoff);
      } else {
        assert UpTo(table, cutoff) == UpTo(table[..n], cutoff);
      }
    }
  }

  /** Two tables that hold the same observations up to the cutoff give the same rate. */
  lemma {:induction false} FutureNeverMatters(table: Table, other: Table, source: nat, target: nat, cutoff: int)
    requires UpTo(table, cutoff) == UpTo(other, cutoff)
    ensures GetFxRate(table, source, target, cutoff) == GetFxRate(other, source, target, cutoff)
  {
    FirstIgnoresLater(table, source, target, cutoff);
    FirstIgnoresLater(other, source, target, cutoff);
    FirstIgnoresLater(table, target, source, cutoff);
    FirstIgnoresLater(other, target, source, cutoff);
  }

  /** Both orientations of the pair are stored on the pair's newest date. */
  predicate Tied(table: Table, source: nat, target: nat, cutoff: int) {
    var direct, inverse := First(table, source, target, cutoff), First(table, target, source, cutoff);
    source != target && direct.Some? && inverse.Some? && direct.value.date == inverse.value.date
  }

  /** The rates of the two directions exist together.  They are reciprocal unless both orientations are
      stored on the newest date; in that case exactly when those two observations are. */
  lemma {:induction false} ReciprocalIff(table: Table, source: nat, target: nat, cutoff: int)
    requires GetFxRate(table, source, target, cutoff).Ok?
    ensures GetFxRate(table, target, source, cutoff).Ok?
    ensures var there, back := GetFxRate(table, source, target, cutoff), GetFxRate(table, target, source, cutoff);
            Times(there.value, back.value) == 1.0 <==>
            (Tied(table, source, target, cutoff) ==>
               Times(First(table, source, target, cutoff).value.rate,
                   First(table, target, source, cutoff).value.rate) == 1.0)
  {
    var direct, inverse := First(table, source, target, cutoff), First(table, target, source, cutoff);
    var there, back := GetFxRate(table, source, target, cutoff).value, GetFxRate(table, target, source, cutoff).value;
    if source == target {
      assert Times(1.0, 1.0) == 1.0;
    } else if direct.None? || (inverse.Some? && direct.value.date < inverse.value.date) {
      TimesInverse(inverse.value.rate);
    } else if inverse.None? || direct.value.date > inverse.value.date {
      TimesInverse(direct.value.rate);
    } else {
      assert there == direct.value.rate && back == inverse.value.rate;
    }
  }

  /** Outside that case, converting an amount there and back on one date gives it back. */
  lemma {:induction false} ThereAndBack(table: Table, amount: real, source: nat, target: nat, cutoff: int)
    requires GetFxRate(table, source, target, cutoff).Ok? && !Tied(table, source, target, cutoff)
    ensures Convert(table, Convert(table, amount, source, target, cutoff).value, target, source, cutoff) == Ok(amount)
  {
    ReciprocalIff(table, source, target, cutoff);
    var there, back := GetFxRate(table, source, target, cutoff).value, GetFxRate(table, target, source, cutoff).value;
    TimesAssociates(amount, there, back);
    assert Times(amount, 1.0) == amount;
  }

  /** The exception is real: with 1.10 stored one way and 0.92 the other way on one day, 100 comes back
      as 101.2. */
  lemma {:induction false} TieDoesNotRoundTrip()
    ensures var table: Table := [Observation(5, 1, 2, 1.10, 0, 0), Observation(5, 2, 1, 0.92, 0, 1)];
            && Tied(table, 1, 2, 9)
            && Convert(table, 100.0, 1, 2, 9) == Ok(110.0)
            && Convert(table, 110.0, 2, 1, 9) == Ok(101.2)
  {
    var o: Stored := Observation(5, 1, 2, 1.10, 0, 0);
    var p: Stored := Observation(5, 2, 1, 0.92, 0, 1);
    var table: Table := [o, p];
    assert table[..1] == [o] && [o][..0] == [];
    assert First([o], 1, 2, 9) == Some(o) && First([o], 2, 1, 9) == None;
    assert First(table, 1, 2, 9) == Some(o) && First(table, 2, 1, 9) == Some(p);
  }
}

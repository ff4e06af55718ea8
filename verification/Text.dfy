/** The string operations that the importers and the exporter use. */
module Text {

  predicate IsDigit(c: char) { '0' <= c <= '9' }

  predicate AllDigits(s: string) { forall i :: 0 <= i < |s| ==> IsDigit(s[i]) }

  predicate Contains(s: string, c: char) { exists i :: 0 <= i < |s| && s[i] == c }

  /** `s.replace(c, "")`. */
  function Remove(s: string, c: char): string {
    if s == "" then ""
    else
      var last := s[|s| - 1];
      Remove(s[..|s| - 1], c) + (if last == c then "" else [last])
  }

  /** `s.replace(c, d)`. */
  function Replace(s: string, c: char, d: char): string {
    seq(|s|, i requires 0 <= i < |s| => if s[i] == c then d else s[i])
  }

  /** `s.rfind(c)`. */
  function RFind(s: string, c: char): (r: int)
    ensures -1 <= r < |s|
    ensures r >= 0 ==> s[r] == c
    ensures forall i :: r < i < |s| ==> s[i] != c
  {
    if s == "" then -1
    else if s[|s| - 1] == c then |s| - 1
    else RFind(s[..|s| - 1], c)
  }

  predicate IsSpace(c: char) {
    c == ' ' || c == '\t' || c == '\n' || c == '\r' || c == '\U{00a0}'
  }

  /** `s.strip()`. */
  function Strip(s: string): string {
    if s == "" then ""
    else if IsSpace(s[0]) then Strip(s[1..])
    else if IsSpace(s[|s| - 1]) then Strip(s[..|s| - 1])
    else s
  }

  /** `s.split(c)`. */
  function Split(s: string, c: char): (r: seq<string>)
    ensures |r| >= 1
  {
    if s == "" then [""]
    else
      var front := Split(s[..|s| - 1], c);
      var last := s[|s| - 1];
      if last == c then front + [""]
      else front[..|front| - 1] + [front[|front| - 1] + [last]]
  }

  // ----- numbers

  function DigitOf(n: nat): char
    requires n < 10
  {
    "0123456789"[n]
  }

  function ValueOf(c: char): nat
    requires IsDigit(c)
  {
    c as nat - '0' as nat
  }

  lemma {:induction false} DigitRoundTrip(n: nat)
    requires n < 10
    ensures IsDigit(DigitOf(n)) && ValueOf(DigitOf(n)) == n
  {}

  function Digits(n: nat): string {
    if n < 10 then [DigitOf(n)] else Digits(n / 10) + [DigitOf(n % 10)]
  }

  function NatOf(s: string): nat
    requires AllDigits(s)
  {
    if s == "" then 0 else 10 * NatOf(s[..|s| - 1]) + ValueOf(s[|s| - 1])
  }

  lemma {:induction false} DigitsRoundTrip(n: nat)
    ensures Digits(n) != "" && AllDigits(Digits(n)) && NatOf(Digits(n)) == n
  {
    if n < 10 {
      DigitRoundTrip(n);
      assert [DigitOf(n)][..0] == "";
    } else {
      DigitsRoundTrip(n / 10);
      DigitRoundTrip(n % 10);
      assert Digits(n)[..|Digits(n)| - 1] == Digits(n / 10);
    }
  }

  /** Exactly two digits. */
  function Two(n: nat): string
    requires n < 100
  {
    [DigitOf(n / 10), DigitOf(n % 10)]
  }

  lemma {:induction false} TwoRoundTrip(n: nat)
    requires n < 100
    ensures AllDigits(Two(n)) && NatOf(Two(n)) == n
  {
    DigitRoundTrip(n / 10);
    DigitRoundTrip(n % 10);
    assert Two(n)[..1] == [DigitOf(n / 10)];
    assert [DigitOf(n / 10)][..0] == "";
  }

  function Pow10(k: nat): (p: nat)
    ensures p > 0
  {
    if k == 0 then 1 else 10 * Pow10(k - 1)
  }

  lemma {:induction false} NatOfConcat(a: string, b: string)
    requires AllDigits(a) && AllDigits(b)
    ensures AllDigits(a + b) && NatOf(a + b) == NatOf(a) * Pow10(|b|) + NatOf(b)
  {
    if b == "" {
      assert a + b == a;
    } else {
      NatOfConcat(a, b[..|b| - 1]);
      assert (a + b)[..|a + b| - 1] == a + b[..|b| - 1];
      Shift(NatOf(a), Pow10(|b| - 1), NatOf(b[..|b| - 1]), ValueOf(b[|b| - 1]));
    }
  }

  lemma {:induction false} Shift(x: nat, y: nat, z: nat, v: nat)
    ensures 10 * (x * y + z) + v == x * (10 * y) + (10 * z + v)
  {}

  // ----- lemmas on the operations

  lemma {:induction false} RemoveConcat(a: string, b: string, c: char)
    ensures Remove(a + b, c) == Remove(a, c) + Remove(b, c)
  {
    if b == "" {
      assert a + b == a;
    } else {
      RemoveConcat(a, b[..|b| - 1], c);
      assert (a + b)[..|a + b| - 1] == a + b[..|b| - 1];
    }
  }

  lemma {:induction false} RemoveAbsent(s: string, c: char)
    requires !Contains(s, c)
    ensures Remove(s, c) == s
  {
    if s != "" {
      assert s[|s| - 1] != c;
      assert forall i :: 0 <= i < |s| - 1 ==> s[..|s| - 1][i] == s[i];
      RemoveAbsent(s[..|s| - 1], c);
    }
  }

  lemma {:induction false} StripIsIdle(s: string)
    requires s != "" ==> !IsSpace(s[0]) && !IsSpace(s[|s| - 1])
    ensures Strip(s) == s
  {}

  lemma {:induction false} SplitConcat(a: string, b: string, c: char)
    requires !Contains(b, c)
    ensures Split(a + b, c) == Lengthen(Split(a, c), b)
    decreases |b|
  {
    hide Split, Contains;
    if b == "" {
      assert a + b == a;
      LengthenByNothing(Split(a, c));
    } else {
      var n := |b| - 1;
      var front := b[..n];
      assert b == front + [b[n]];
      ContainsSnoc(front, b[n], c);
      SplitConcat(a, front, c);
      SplitSnoc(a + front, b[n], c);
      assert a + b == a + front + [b[n]];
      LengthenTwice(Split(a, c), front, [b[n]]);
    }
  }

  /** The last field with more text. */
  function Lengthen(fields: seq<string>, more: string): seq<string>
    requires fields != []
  {
    fields[..|fields| - 1] + [fields[|fields| - 1] + more]
  }

  lemma {:induction false} LengthenByNothing(fields: seq<string>)
    requires fields != []
    ensures Lengthen(fields, "") == fields
  {
    assert fields[|fields| - 1] + "" == fields[|fields| - 1];
  }

  lemma {:induction false} ContainsSnoc(s: string, x: char, c: char)
    ensures Contains(s + [x], c) <==> Contains(s, c) || x == c
  {
    assert forall i :: 0 <= i < |s| ==> s[i] == (s + [x])[i];
    assert (s + [x])[|s|] == x;
  }

  lemma {:induction false} LengthenTwice(fields: seq<string>, x: string, y: string)
    requires fields != []
    ensures Lengthen(Lengthen(fields, x), y) == Lengthen(fields, x + y)
  {
    assert fields[|fields| - 1] + x + y == fields[|fields| - 1] + (x + y);
  }

  lemma {:induction false} SplitSnoc(s: string, x: char, c: char)
    requires x != c
    ensures Split(s + [x], c) == Lengthen(Split(s, c), [x])
  {
    assert (s + [x])[..|s|] == s;
  }

  lemma {:induction false} SplitNone(x: string, c: char)
    requires !Contains(x, c)
    ensures Split(x, c) == [x]
  {
    SplitConcat("", x, c);
    assert "" + x == x;
  }

  /** One more field: a separator and a text without one. */
  lemma {:induction false} SplitNext(s: string, x: string, c: char)
    requires !Contains(x, c)
    ensures Split(s + [c] + x, c) == Split(s, c) + [x]
  {
    assert (s + [c])[..|s|] == s;
    assert Split(s + [c], c) == Split(s, c) + [""];
    SplitConcat(s + [c], x, c);
    assert "" + x == x;
  }

  lemma {:induction false} DigitsHaveNone(s: string, c: char)
    requires AllDigits(s) && !IsDigit(c)
    ensures !Contains(s, c)
  {}
}

/** The quantity side of the replay in closed form: when it raises, and what it holds. */
module Quantities {
  import opened Decimals
  import opened Trades
  import opened Holdings

  function Signed(t: Trade): real {
    match t.kind
    case Buy => t.quantity
    case Sell => -t.quantity
    case _ => 0.0
  }

  /** Bought less sold. */
  function Net(items: seq<Trade>): real {
    if items == [] then 0.0 else Net(items[..|items| - 1]) + Signed(items[|items| - 1])
  }

  /** No prefix of the history has sold more than it bought. */
  ghost predicate NeverOversold(items: seq<Trade>) {
    forall k :: 0 <= k <= |items| ==> Net(items[..k]) >= 0.0
  }

  lemma {:induction false} StepQuantity(st: Tally, t: Trade)
    ensures TallyStep(EXACT, st, t).Ok? <==> (t.kind == Sell ==> t.quantity <= st.position.quantity)
    ensures TallyStep(EXACT, st, t).Ok? ==>
              TallyStep(EXACT, st, t).value.position.quantity == st.position.quantity + Signed(t)
  {}

  /** The replay of a security raises exactly when some prefix is oversold, and otherwise ends holding
      bought less sold. */
  lemma {:induction false} ReplayQuantity(items: seq<Trade>)
    ensures Replay(EXACT, items).Ok? <==> NeverOversold(items)
    ensures Replay(EXACT, items).Ok? ==> Replay(EXACT, items).value.position.quantity == Net(items)
  {
    if items == [] {
      assert forall k :: 0 <= k <= |items| ==> items[..k] == [];
    } else {
      var n := |items| - 1;
      var front, t := items[..n], items[n];
      ReplayQuantity(front);
      PrefixesOfFront(items);
      if Replay(EXACT, front).Ok? {
        StepQuantity(Replay(EXACT, front).value, t);
        hide Replay, TallyStep;
      }
    }
  }

  lemma {:induction false} PrefixesOfFront(items: seq<Trade>)
    requires items != []
    ensures NeverOversold(items) <==> NeverOversold(items[..|items| - 1]) && Net(items) >= 0.0
  {
    var n := |items| - 1;
    assert forall k :: 0 <= k <= n ==> items[..n][..k] == items[..k];
    assert items[..n + 1] == items;
    if NeverOversold(items) {
      forall k | 0 <= k <= n
        ensures Net(items[..n][..k]) >= 0.0
      {
        assert items[..n][..k] == items[..k];
      }
    } else if NeverOversold(items[..n]) && Net(items) >= 0.0 {
      forall k | 0 <= k <= n + 1
        ensures Net(items[..k]) >= 0.0
      {
        if k <= n {
          assert items[..n][..k] == items[..k];
        }
      }
    }
  }

  lemma {:induction false} NetConcat(a: seq<Trade>, b: seq<Trade>)
    ensures Net(a + b) == Net(a) + Net(b)
  {
    if b == [] {
      assert a + b == a;
    } else {
      NetConcat(a, b[..|b| - 1]);
      assert (a + b)[..|a + b| - 1] == a + b[..|b| - 1];
    }
  }

  lemma {:induction false} NetOfOne(t: Trade)
    ensures Net([t]) == Signed(t)
  {
    assert [t][..0] == [];
    assert Net([]) == 0.0;
  }

  /** Putting a row into a history shifts every later running quantity by what it buys or sells. */
  lemma {:induction false} InsertShifts(items: seq<Trade>, p: nat, t: Trade, k: nat)
    requires p <= |items| && k <= |items| + 1
    ensures Net((items[..p] + [t] + items[p..])[..k])
         == if k <= p then Net(items[..k]) else Net(items[..k - 1]) + Signed(t)
  {
    var whole := items[..p] + [t] + items[p..];
    if k <= p {
      assert whole[..k] == items[..k];
    } else {
      assert whole[..k] == items[..p] + [t] + items[p..k - 1];
      assert items[..k - 1] == items[..p] + items[p..k - 1];
      NetConcat(items[..p] + [t], items[p..k - 1]);
      NetConcat(items[..p], [t]);
      NetConcat(items[..p], items[p..k - 1]);
      NetOfOne(t);
    }
  }

  /** The exact condition under which a history without oversell takes one more row: at the row's place
      and at every later point, the running quantity covers what the row sells. */
  lemma {:induction false} InsertIsSafe(items: seq<Trade>, t: Trade) returns (p: nat)
    requires NeverOversold(items)
    ensures p <= |items| && Insert(items, t) == items[..p] + [t] + items[p..]
    ensures forall k :: p <= k < |items| ==> items[k].date > t.date
    ensures p > 0 ==> items[p - 1].date <= t.date
    ensures NeverOversold(Insert(items, t)) <==> forall k :: p <= k <= |items| ==> Net(items[..k]) + Signed(t) >= 0.0
  {
    p := InsertedAt(items, t);
    var whole := Insert(items, t);
    if forall k :: p <= k <= |items| ==> Net(items[..k]) + Signed(t) >= 0.0 {
      forall k | 0 <= k <= |whole|
        ensures Net(whole[..k]) >= 0.0
      {
        InsertShifts(items, p, t, k);
      }
    } else {
      var k :| p <= k <= |items| && Net(items[..k]) + Signed(t) < 0.0;
      InsertShifts(items, p, t, k + 1);
      assert Net(whole[..k + 1]) < 0.0;
    }
  }
}

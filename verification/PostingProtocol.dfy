/** Concurrent posting to one brokerage account: the row lock, the holdings check, the insert and the
    commit as separate steps of any number of sessions, in any interleaving
    (investments/services/transactions.py). */
module PostingProtocol {
  import opened Wrappers
  import opened Decimals
  import opened Trades
  import opened Holdings
  import opened Posting
  import CostBasis

  datatype Phase =
    | Waiting(req: Request)                          // blocked in select_for_update
    | Locked(req: Request)                           // holds the row lock
    | Cleared(req: Request, held: Option<real>)      // holdings checked; for a sale, what was found held
    | Inserted(req: Request, held: Option<real>, row: Trade) // written, not yet visible to others

  /** The committed tables, the lock and the open sessions. */
  datatype State = State(
    log: seq<Trade>,
    entries: seq<CashEntry>,
    nextId: nat,
    lock: Option<nat>,
    sessions: map<nat, Phase>)

  const START := State([], [], 0, None, map[])

  datatype Action = Begin(session: nat, req: Request) | Acquire(session: nat) | Check(session: nat)
      | Write(session: nat) | Commit(session: nat)

  predicate InCritical(p: Phase) { !p.Waiting? }

  /** Rolling back: the session is gone and the lock with it. */
  function Abort(st: State, session: nat): State {
    st.(lock := None, sessions := st.sessions - {session})
  }

  /** One step of one session; None when the step is not possible in this state. */
  function Step(st: State, a: Action): Option<State> {
    match a
    case Begin(s, req) =>
      if s in st.sessions || Refusal(req).Some? then None
      else Some(st.(sessions := st.sessions[s := Waiting(req)]))
    case Acquire(s) =>
      if s in st.sessions && st.sessions[s].Waiting? && st.lock == None then
        Some(st.(lock := Some(s), sessions := st.sessions[s := Locked(st.sessions[s].req)]))
      else None
    case Check(s) =>
      if s !in st.sessions || !st.sessions[s].Locked? then None
      else
        var req := st.sessions[s].req;
        if SaleRefusal(st.log, req).Some? then Some(Abort(st, s))
        else
          var held := if req.kind == Some(Sell) then Some(Held(st.log, req.security.id, req.date).value) else None;
          Some(st.(sessions := st.sessions[s := Cleared(req, held)]))
    case Write(s) =>
      if s !in st.sessions || !st.sessions[s].Cleared? then None
      else
        var Cleared(req, held) := st.sessions[s];
        if !CleanOk(req) then Some(Abort(st, s))
        else
          var row: Trade := Row(req, st.nextId);
          if row.Cash() == 0.0 then Some(Abort(st, s))
          else Some(st.(nextId := st.nextId + 1, sessions := st.sessions[s := Inserted(req, held, row)]))
    case Commit(s) =>
      if s !in st.sessions || !st.sessions[s].Inserted? then None
      else
        var row := st.sessions[s].row;
        Some(Abort(st, s).(
               log := st.log + [row],
               entries := st.entries + [CashEntryOf(row, st.sessions[s].req.account.id)]))
  }

  /** The states a sequence of possible actions can lead to. */
  ghost predicate Runs(actions: seq<Action>, st: State) {
    if actions == [] then st == START
    else
      var n := |actions| - 1;
      exists before :: Runs(actions[..n], before) && Step(before, actions[n]) == Some(st)
  }

  /** What a session may rely on from its check until its commit. */
  ghost predicate Promise(log: seq<Trade>, req: Request, held: Option<real>) {
    req.kind == Some(Sell) ==>
      && held.Some? && Held(log, req.security.id, req.date) == Ok(held.value)
      && req.quantity.Some? && req.quantity.value <= held.value
  }

  /** Every committed sale was of no more than what the rows committed before it held on its date. */
  predicate SalesWereChecked(log: seq<Trade>) {
    forall k | 0 <= k < |log| && log[k].kind == Sell :: Checked(log[..k], log[k])
  }

  ghost predicate PhaseOk(st: State, p: Phase) {
    match p
    case Waiting(_) => true
    case Locked(_) => true
    case Cleared(req, held) => Promise(st.log, req, held)
    case Inserted(req, held, row) =>
      Promise(st.log, req, held) && CleanOk(req) && row.Cash() != 0.0
      && row.id < st.nextId && row == Row(req, row.id) && (forall t | t in st.log :: t.id < row.id)
  }

  ghost predicate Inv(st: State) {
    && (forall s | s in st.sessions :: InCritical(st.sessions[s]) <==> st.lock == Some(s))
    && (st.lock.Some? ==> st.lock.value in st.sessions)
    && (forall s | s in st.sessions :: PhaseOk(st, st.sessions[s]))
    && SalesWereChecked(st.log)
    && |st.entries| == |st.log|
    && (forall i | 0 <= i < |st.log| ::
          st.entries[i].transaction == st.log[i].id && st.entries[i].amount == st.log[i].Cash() != 0.0)
    && (forall i, j | 0 <= i < j < |st.log| :: st.log[i].id < st.log[j].id)
    && (forall t | t in st.log :: t.id < st.nextId)
  }

  lemma {:induction false} CheckKeepsInv(st: State, s: nat)
    requires Inv(st) && Step(st, Check(s)).Some?
    ensures Inv(Step(st, Check(s)).value)
  {
    hide SalesWereChecked, Held;
  }

  lemma {:induction false} WriteKeepsInv(st: State, s: nat)
    requires Inv(st) && Step(st, Write(s)).Some?
    ensures Inv(Step(st, Write(s)).value)
  {
    hide SalesWereChecked, Held, CleanOk;
  }

  lemma {:induction false} CheckedSnoc(log: seq<Trade>, row: Trade)
    requires SalesWereChecked(log) && (row.kind == Sell ==> Checked(log, row))
    ensures SalesWereChecked(log + [row])
  {
    forall k | 0 <= k < |log + [row]| && (log + [row])[k].kind == Sell
      ensures Checked((log + [row])[..k], (log + [row])[k])
    {
      if k < |log| {
        assert (log + [row])[..k] == log[..k];
      } else {
        assert (log + [row])[..k] == log;
      }
    }
  }

  lemma {:induction false} CommitKeepsInv(st: State, s: nat)
    requires Inv(st) && Step(st, Commit(s)).Some?
    ensures Inv(Step(st, Commit(s)).value)
  {
    var Inserted(req, held, row) := st.sessions[s];
    assert PhaseOk(st, st.sessions[s]);
    CheckedSnoc(st.log, row);
    hide SalesWereChecked, Held, CleanOk;
  }

  lemma {:induction false} StepKeepsInv(st: State, a: Action)
    requires Inv(st) && Step(st, a).Some?
    ensures Inv(Step(st, a).value)
  {
    match a
    case Check(s) => CheckKeepsInv(st, s);
    case Write(s) => WriteKeepsInv(st, s);
    case Commit(s) => CommitKeepsInv(st, s);
    case _ =>
      hide SalesWereChecked, Held, CleanOk;
  }

  lemma {:induction false} RunsKeepInv(actions: seq<Action>, st: State)
    requires Runs(actions, st)
    ensures Inv(st)
  {
    if actions != [] {
      var n := |actions| - 1;
      var before :| Runs(actions[..n], before) && Step(before, actions[n]) == Some(st);
      RunsKeepInv(actions[..n], before);
      StepKeepsInv(before, actions[n]);
    }
  }

  /** In every reachable state: at most one session is past the lock; what a sale's check found held is
      still exactly what is held when it inserts and commits; and the sale is covered by it. */
  lemma {:induction false} CheckedQuantityIsStillHeld(actions: seq<Action>, st: State, s: nat)
    requires Runs(actions, st) && s in st.sessions && InCritical(st.sessions[s])
    ensures forall other | other in st.sessions && other != s :: st.sessions[other].Waiting?
    ensures var p := st.sessions[s];
            (p.Cleared? || p.Inserted?) && p.req.kind == Some(Sell) ==>
              && p.held.Some?
              && Held(st.log, p.req.security.id, p.req.date) == Ok(p.held.value)
              && p.req.quantity.Some? && p.req.quantity.value <= p.held.value
  {
    RunsKeepInv(actions, st);
    assert PhaseOk(st, st.sessions[s]);
  }

  // ----- when the replays stay sound

  /** Each committed sale was covered by the running quantity after every row that was already committed under
      a later date. */
  ghost predicate SalesCovered(log: seq<Trade>) {
    forall k | 0 <= k < |log| && log[k].kind == Sell :: CoversLater(log[..k], log[k])
  }

  /** The history replays after every commit. */
  ghost predicate SoundThroughout(log: seq<Trade>) {
    forall k | 0 <= k <= |log| :: Sound(log[..k])
  }

  /** No sale is dated before a trade of its security that was already committed. */
  ghost predicate SalesInOrder(log: seq<Trade>) {
    forall j, k | 0 <= j < k < |log| && log[k].kind == Sell && log[j].IsTrade() && log[j].security == log[k].security ::
      log[j].date <= log[k].date
  }

  lemma {:induction false} InOrderIsLatest(log: seq<Trade>, k: nat)
    requires SalesInOrder(log) && k < |log| && log[k].kind == Sell
    ensures Latest(log[..k], log[k].security, log[k].date)
  {
    forall t | t in log[..k] && t.security == log[k].security && t.IsTrade()
      ensures t.date <= log[k].date
    {
      var j :| 0 <= j < k && log[..k][j] == t;
      assert log[j] == t;
    }
  }

  lemma {:induction false} NextRowIsSoundIff(log: seq<Trade>, k: nat)
    requires SalesWereChecked(log) && k < |log| && Sound(log[..k])
    ensures Sound(log[..k + 1]) <==> (log[k].kind == Sell ==> CoversLater(log[..k], log[k]))
  {
    assert log[..k + 1] == log[..k] + [log[k]];
    RowIsSoundIff(log[..k], log[k]);
  }

  lemma {:induction false} CoveredIsSound(log: seq<Trade>, k: nat)
    requires SalesWereChecked(log) && SalesCovered(log) && k <= |log|
    ensures Sound(log[..k])
  {
    hide Sound, CoversLater, Checked;
    if k == 0 {
      NothingIsSound();
      assert log[..0] == [];
    } else {
      CoveredIsSound(log, k - 1);
      NextRowIsSoundIff(log, k - 1);
    }
  }

  lemma {:induction false} NothingIsSound()
    ensures Sound([])
  {}

  /** In every interleaving, whatever the dates: the history replays after each commit exactly when each
      committed sale was covered by the running quantity after every row already committed under a later date. */
  lemma {:induction false} RunIsSoundIff(actions: seq<Action>, st: State)
    requires Runs(actions, st)
    ensures SoundThroughout(st.log) <==> SalesCovered(st.log)
  {
    RunsKeepInv(actions, st);
    var log := st.log;
    hide Sound, CoversLater, SalesWereChecked, Runs;
    if SalesCovered(log) {
      forall k | 0 <= k <= |log|
        ensures Sound(log[..k])
      {
        CoveredIsSound(log, k);
      }
    }
    if SoundThroughout(log) {
      forall k | 0 <= k < |log| && log[k].kind == Sell
        ensures CoversLater(log[..k], log[k])
      {
        NextRowIsSoundIff(log, k);
      }
    }
  }

  /** Sales that are dated no earlier than the trades already committed for their security are covered;
      purchases may carry any date. */
  lemma {:induction false} SalesInOrderAreCovered(actions: seq<Action>, st: State)
    requires Runs(actions, st) && SalesInOrder(st.log)
    ensures SalesCovered(st.log)
  {
    RunsKeepInv(actions, st);
    hide Sound, CoversLater, Checked, Latest, Runs, SalesInOrder;
    forall k | 0 <= k < |st.log| && st.log[k].kind == Sell
      ensures CoversLater(st.log[..k], st.log[k])
    {
      InOrderIsSound(st.log, k);
      InOrderIsLatest(st.log, k);
      LatestIsCovered(st.log[..k], st.log[k]);
    }
  }

  lemma {:induction false} InOrderIsSound(log: seq<Trade>, k: nat)
    requires SalesWereChecked(log) && SalesInOrder(log) && k <= |log|
    ensures Sound(log[..k])
  {
    hide Sound, Checked, Latest, SalesInOrder;
    if k == 0 {
      NothingIsSound();
      assert log[..0] == [];
    } else {
      InOrderIsSound(log, k - 1);
      assert log[..k] == log[..k - 1] + [log[k - 1]];
      if log[k - 1].kind == Sell {
        InOrderIsLatest(log, k - 1);
      }
      RowKeepsSound(log[..k - 1], log[k - 1]);
    }
  }

  /** In every reachable state whose sales were covered, for every security and every as-of date, the holdings
      replay does not raise and reports at least zero, and so the gain replay does not raise either. */
  lemma {:induction false} ReplaysNeverRaise(actions: seq<Action>, st: State, date: int)
    requires Runs(actions, st) && SalesCovered(st.log)
    ensures forall s: nat :: Held(st.log, s, date).Ok? && Held(st.log, s, date).value >= 0.0
    ensures CostBasis.BookReplay(EXACT, CostBasis.TradesUpTo(Ordered(st.log), Some(date))).Ok?
  {
    RunsKeepInv(actions, st);
    CoveredIsSound(st.log, |st.log|);
    assert st.log[..|st.log|] == st.log;
    hide Runs, Inv, Sound, SalesCovered;
    forall s: nat
      ensures Held(st.log, s, date).Ok? && Held(st.log, s, date).value >= 0.0
    {
      HeldIsDefined(st.log, s, date);
    }
    CostBasis.ReplayAgreementAsOf(EXACT, Ordered(st.log), date);
    forall s: nat
      ensures Replay(EXACT, AsOf(Of(Ordered(st.log), s), date)).Ok?
    {
      assert Held(st.log, s, date).Ok?;
    }
  }

  /** A session left alone from its start does what the service does: the tables end as its outcome says. */
  lemma {:induction false} AloneIsOutcome(st: State, s: nat, req: Request)
    requires st.lock == None && s !in st.sessions && Refusal(req) == None
    ensures var st3 := Step(Step(Step(st, Begin(s, req)).value, Acquire(s)).value, Check(s)).value;
            match Outcome(st.log, req, st.nextId)
            case Err(e) =>
              if s !in st3.sessions then st3 == st
              else Step(st3, Write(s)) == Some(st)
            case Ok(row) =>
              && Step(st3, Write(s)).Some?
              && Step(Step(st3, Write(s)).value, Commit(s))
                 == Some(st.(log := st.log + [row], entries := st.entries + [CashEntryOf(row, req.account.id)],
                             nextId := st.nextId + 1))
  {
    hide Held, CleanOk;
    var st1 := Step(st, Begin(s, req)).value;
    var st2 := Step(st1, Acquire(s)).value;
    var st3 := Step(st2, Check(s)).value;
    assert st3.sessions - {s} == st.sessions;
    if s in st3.sessions {
      var st4 := Step(st3, Write(s)).value;
      assert st4.sessions - {s} == st.sessions;
      if s !in st4.sessions {
        assert st4 == st;
      }
    } else {
      assert st3 == st;
    }
  }
}

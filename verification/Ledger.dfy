/** The signed-entry ledger (ledger/services.py): creating, transferring and deleting, and what every
    sequence of these operations keeps. */
module Ledger {
  import opened Wrappers

  datatype Kind = Deposit | Withdrawal | Transfer | Income | Expense | Interest | Dividend | Buy | Sell | Fee | Tax
      | Adjustment

  datatype Account = Account(pk: nat, owner: nat, currency: nat)

  /** `detail` is the account of the investment detail attached to the transaction, if there is one. */
  datatype Transaction = Transaction(owner: nat, date: int, kind: Kind, detail: Option<nat>)

  datatype Role = Only | TransferOut | TransferIn

  datatype Entry = Entry(transaction: nat, account: Account, amount: real, role: Role)

  datatype Error = ZeroAmount | NotPositive | NotOwner | SameAccount | CrossCurrency | Immutable | Unsupported

  /** The stored transactions, and the stored entries in the order of their ids. */
  datatype State = State(transactions: map<nat, Transaction>, entries: seq<Entry>, nextId: nat)

  const EMPTY := State(map[], [], 0)

  // ----- balances

  /** `account_balance`. */
  function Balance(entries: seq<Entry>, account: nat): real {
    if entries == [] then 0.0
    else
      var last := entries[|entries| - 1];
      Balance(entries[..|entries| - 1], account) + (if last.account.pk == account then last.amount else 0.0)
  }

  // ----- the operations

  function Add(st: State, t: Transaction, entries: seq<Entry>): State {
    State(st.transactions[st.nextId := t], st.entries + entries, st.nextId + 1)
  }

  /** `_create`. */
  function Create(st: State, owner: nat, account: Account, amount: real, kind: Kind, date: int): Result<State, Error> {
    if amount == 0.0 then Err(ZeroAmount)
    else if account.owner != owner then Err(NotOwner)
    else Ok(Add(st, Transaction(owner, date, kind, None), [Entry(st.nextId, account, amount, Only)]))
  }

  function Withdraw(st: State, owner: nat, account: Account, amount: real, kind: Kind,
      date: int): Result<State, Error> {
    if amount <= 0.0 then Err(NotPositive) else Create(st, owner, account, -amount, kind, date)
  }

  function MakeTransfer(st: State, owner: nat, source: Account, destination: Account, amount: real,
      date: int): Result<State, Error> {
    if amount <= 0.0 then Err(NotPositive)
    else if source.pk == destination.pk then Err(SameAccount)
    else if source.owner != owner || destination.owner != owner then Err(NotOwner)
    else if source.currency != destination.currency then Err(CrossCurrency)
    else Ok(Add(st, Transaction(owner, date, Transfer, None),
                [Entry(st.nextId, source, -amount, TransferOut), Entry(st.nextId, destination, amount, TransferIn)]))
  }

  const INVESTMENT_KINDS: set<Kind> := {Buy, Sell, Dividend, Fee, Tax}

  /** The ledger side of `create_investment_transaction`: a transaction with a detail and one cash entry. */
  function PostInvestment(st: State, owner: nat, account: Account, cash: real, kind: Kind,
      date: int): Result<State, Error> {
    if account.owner != owner then Err(NotOwner)
    else if kind !in INVESTMENT_KINDS then Err(Unsupported)
    else if cash == 0.0 then Err(ZeroAmount)
    else Ok(Add(st, Transaction(owner, date, kind, Some(account.pk)), [Entry(st.nextId, account, cash, Only)]))
  }

  /** The entries of transactions outside a set. */
  function Without(entries: seq<Entry>, ids: set<nat>): seq<Entry> {
    if entries == [] then []
    else
      var last := entries[|entries| - 1];
      Without(entries[..|entries| - 1], ids) + (if last.transaction in ids then [] else [last])
  }

  function Remove(st: State, ids: set<nat>): State {
    st.(transactions := st.transactions - ids, entries := Without(st.entries, ids))
  }

  /** `delete_transaction`. */
  function Delete(st: State, owner: nat, id: nat): Result<State, Error>
    requires id in st.transactions
  {
    if st.transactions[id].owner != owner then Err(NotOwner)
    else if st.transactions[id].detail.Some? then Err(Immutable)
    else Ok(Remove(st, {id}))
  }

  /** The owner's transactions with an entry in the account. */
  function Touching(st: State, owner: nat, account: nat): set<nat> {
    set id | id in st.transactions && st.transactions[id].owner == owner
             && exists i :: 0 <= i < |st.entries| && st.entries[i].transaction == id
                 && st.entries[i].account.pk == account
  }

  /** `delete_account_transactions`. */
  function DeleteAll(st: State, owner: nat, account: Account): Result<State, Error> {
    if account.owner != owner then Err(NotOwner)
    else if exists id :: id in st.transactions && st.transactions[id].detail == Some(account.pk) then Err(Immutable)
    else Ok(Remove(st, Touching(st, owner, account.pk)))
  }

  /** The tables behind the ledger services. */
  class Book {
    var transactions: map<nat, Transaction>
    var entries: seq<Entry>
    var nextId: nat

    function Stored(): State
      reads this
    {
      State(transactions, entries, nextId)
    }

    constructor ()
      ensures Stored() == EMPTY
    {
      transactions, entries, nextId := map[], [], 0;
    }

    method CreateOne(owner: nat, account: Account, amount: real, kind: Kind, date: int) returns (error: Option<Error>)
      modifies this
      ensures var r := Create(old(Stored()), owner, account, amount, kind, date);
              if r.Ok? then error == None && Stored() == r.value
              else error == Some(r.error) && Stored() == old(Stored())
    {
      if amount == 0.0 {
        return Some(ZeroAmount);
      }
      if account.owner != owner {
        return Some(NotOwner);
      }
      var id := nextId;
      nextId := nextId + 1;
      transactions := transactions[id := Transaction(owner, date, kind, None)];
      entries := entries + [Entry(id, account, amount, Only)];
      return None;
    }

    method CreateWithdrawal(owner: nat, account: Account, amount: real, kind: Kind, date: int)
      returns (error: Option<Error>)
      modifies this
      ensures var r := Withdraw(old(Stored()), owner, account, amount, kind, date);
              if r.Ok? then error == None && Stored() == r.value
              else error == Some(r.error) && Stored() == old(Stored())
    {
      if amount > 0.0 {
        error := CreateOne(owner, account, -amount, kind, date);
      } else {
        error := Some(NotPositive);
      }
    }

    method CreateTransfer(owner: nat, source: Account, destination: Account, amount: real, date: int)
      returns (error: Option<Error>)
      modifies this
      ensures var r := MakeTransfer(old(Stored()), owner, source, destination, amount, date);
              if r.Ok? then error == None && Stored() == r.value
              else error == Some(r.error) && Stored() == old(Stored())
    {
      if amount <= 0.0 {
        return Some(NotPositive);
      }
      if source.pk == destination.pk {
        return Some(SameAccount);
      }
      if source.owner != owner || destination.owner != owner {
        return Some(NotOwner);
      }
      if source.currency != destination.currency {
        return Some(CrossCurrency);
      }
      var id := nextId;
      nextId := nextId + 1;
      transactions := transactions[id := Transaction(owner, date, Transfer, None)];
      entries := entries + [Entry(id, source, -amount, TransferOut), Entry(id, destination, amount, TransferIn)];
      return None;
    }

    method DeleteTransaction(owner: nat, id: nat) returns (error: Option<Error>)
      requires id in transactions
      modifies this
      ensures var r := Delete(old(Stored()), owner, id);
              if r.Ok? then error == None && Stored() == r.value
              else error == Some(r.error) && Stored() == old(Stored())
    {
      if transactions[id].owner != owner {
        return Some(NotOwner);
      }
      if transactions[id].detail.Some? {
        return Some(Immutable);
      }
      entries := Without(entries, {id});
      transactions := transactions - {id};
      return None;
    }

    method DeleteAccountTransactions(owner: nat, account: Account) returns (r: Result<nat, Error>)
      modifies this
      ensures var d := DeleteAll(old(Stored()), owner, account);
              if d.Ok? then r == Ok(|Touching(old(Stored()), owner, account.pk)|) && Stored() == d.value
              else r == Err(d.error) && Stored() == old(Stored())
    {
      if account.owner != owner {
        return Err(NotOwner);
      }
      if exists id :: id in transactions && transactions[id].detail == Some(account.pk) {
        return Err(Immutable);
      }
      var ids := Touching(Stored(), owner, account.pk);
      if ids == {} {
        NothingRemoved(entries);
        assert transactions - ids == transactions;
        return Ok(0);
      }
      entries := Without(entries, ids);
      transactions := transactions - ids;
      return Ok(|ids|);
    }

    /** The loop of `import_transactions`: every row is created, or none is. */
    method ImportAll(owner: nat, account: Account, rows: seq<(int, real, Kind)>) returns (error: Option<Error>)
      modifies this
      ensures error.None? <==>
              rows == [] || (account.owner == owner && forall i :: 0 <= i < |rows| ==> rows[i].1 != 0.0)
      ensures error.None? ==> Stored() == CreateAll(old(Stored()), owner, account, rows)
      ensures error.Some? ==> Stored() == old(Stored())
      ensures error.Some? ==>
                rows != [] && error.value == if rows[0].1 != 0.0 && account.owner != owner then NotOwner else ZeroAmount
    {
      var transactions0, entries0, nextId0 := transactions, entries, nextId;
      for i := 0 to |rows|
        invariant i > 0 ==> account.owner == owner
        invariant forall j :: 0 <= j < i ==> rows[j].1 != 0.0
        invariant Stored() == CreateAll(old(Stored()), owner, account, rows[..i])
      {
        assert rows[..i + 1][..i] == rows[..i];
        error := CreateOne(owner, account, rows[i].1, rows[i].2, rows[i].0);
        if error.Some? {
          transactions, entries, nextId := transactions0, entries0, nextId0;
          return;
        }
      }
      assert rows[..|rows|] == rows;
      error := None;
    }
  }

  function CreateAll(st: State, owner: nat, account: Account, rows: seq<(int, real, Kind)>): State {
    if rows == [] then st
    else
      var before := CreateAll(st, owner, account, rows[..|rows| - 1]);
      var last := rows[|rows| - 1];
      Add(before, Transaction(owner, last.0, last.2, None), [Entry(before.nextId, account, last.1, Only)])
  }

  lemma {:induction false} NothingRemoved(entries: seq<Entry>)
    ensures Without(entries, {}) == entries
  {
    if entries != [] {
      NothingRemoved(entries[..|entries| - 1]);
    }
  }

  // ----- what every run keeps

  predicate Mentions(entries: seq<Entry>, id: nat) {
    exists i :: 0 <= i < |entries| && entries[i].transaction == id
  }

  /** A single entry in an account of the transaction's owner, which is the account of its detail if it has
      one. */
  predicate SingleOk(transactions: map<nat, Transaction>, e: Entry) {
    && e.role == Only && e.amount != 0.0 && e.transaction in transactions
    && transactions[e.transaction].owner == e.account.owner
    && (transactions[e.transaction].detail.Some? ==> transactions[e.transaction].detail == Some(e.account.pk))
  }

  /** Two opposite entries in two accounts of the transaction's owner, in one currency. */
  predicate PairOk(transactions: map<nat, Transaction>, source: Entry, destination: Entry) {
    && source.role == TransferOut && destination.role == TransferIn && source.transaction == destination.transaction
    && source.amount == -destination.amount && destination.amount > 0.0
    && source.account.pk != destination.account.pk && source.account.currency == destination.account.currency
    && source.transaction in transactions
    && transactions[source.transaction].owner == source.account.owner == destination.account.owner
    && transactions[source.transaction].kind == Transfer
    && transactions[source.transaction].detail.None?
  }

  /** The entries are those of transactions one after the other: one entry, or the two of a transfer. */
  predicate Grouped(transactions: map<nat, Transaction>, entries: seq<Entry>) {
    var n := |entries|;
    if n == 0 then true
    else if entries[n - 1].role == TransferIn then
      && n >= 2 && PairOk(transactions, entries[n - 2], entries[n - 1])
      && !Mentions(entries[..n - 2], entries[n - 1].transaction)
      && Grouped(transactions, entries[..n - 2])
    else
      && SingleOk(transactions, entries[n - 1])
      && !Mentions(entries[..n - 1], entries[n - 1].transaction)
      && Grouped(transactions, entries[..n - 1])
  }

  /** Every entry belongs to a stored transaction and every stored transaction has its entries. */
  ghost predicate Inv(st: State) {
    && Grouped(st.transactions, st.entries)
    && (forall id :: id in st.transactions <==> Mentions(st.entries, id))
    && (forall id | id in st.transactions :: id < st.nextId)
  }

  datatype Action =
    | DoCreate(owner: nat, account: Account, amount: real, kind: Kind, date: int)
    | DoWithdraw(owner: nat, account: Account, amount: real, kind: Kind, date: int)
    | DoTransfer(owner: nat, source: Account, destination: Account, amount: real, date: int)
    | DoPost(owner: nat, account: Account, amount: real, kind: Kind, date: int)
    | DoDelete(owner: nat, id: nat)
    | DoDeleteAll(owner: nat, account: Account)

  function Outcome(st: State, a: Action): Result<State, Error> {
    match a
    case DoCreate(owner, account, amount, kind, date) => Create(st, owner, account, amount, kind, date)
    case DoWithdraw(owner, account, amount, kind, date) => Withdraw(st, owner, account, amount, kind, date)
    case DoTransfer(owner, source, destination, amount, date) =>
        MakeTransfer(st, owner, source, destination, amount, date)
    case DoPost(owner, account, amount, kind, date) => PostInvestment(st, owner, account, amount, kind, date)
    case DoDelete(owner, id) => if id in st.transactions then Delete(st, owner, id) else Ok(st)
    case DoDeleteAll(owner, account) => DeleteAll(st, owner, account)
  }

  function After(st: State, a: Action): State {
    var r := Outcome(st, a);
    if r.Ok? then r.value else st
  }

  function Run(actions: seq<Action>): State {
    if actions == [] then EMPTY else After(Run(actions[..|actions| - 1]), actions[|actions| - 1])
  }

  // ----- adding

  lemma {:induction false} GroupedWhileKept(transactions: map<nat, Transaction>, other: map<nat, Transaction>,
      entries: seq<Entry>)
    requires Grouped(transactions, entries)
    requires forall id | Mentions(entries, id) && id in transactions :: id in other && other[id] == transactions[id]
    ensures Grouped(other, entries)
  {
    var n := |entries|;
    if n > 0 {
      assert entries[n - 1] == entries[n - 1];
      var m := if entries[n - 1].role == TransferIn then n - 2 else n - 1;
      forall id | Mentions(entries[..m], id)
        ensures Mentions(entries, id)
      {
        var i :| 0 <= i < m && entries[..m][i].transaction == id;
        assert entries[i].transaction == id;
      }
      assert Mentions(entries, entries[n - 1].transaction);
      GroupedWhileKept(transactions, other, entries[..m]);
    }
  }

  lemma {:induction false} MentionsAppend(entries: seq<Entry>, more: seq<Entry>, id: nat)
    ensures Mentions(entries + more, id) <==> Mentions(entries, id) || Mentions(more, id)
  {
    if Mentions(entries, id) {
      var i :| 0 <= i < |entries| && entries[i].transaction == id;
      assert (entries + more)[i].transaction == id;
    }
    if Mentions(more, id) {
      var i :| 0 <= i < |more| && more[i].transaction == id;
      assert (entries + more)[|entries| + i].transaction == id;
    }
  }

  lemma {:induction false} AddKeepsInv(st: State, t: Transaction, added: seq<Entry>)
    requires Inv(st) && WellShaped(st.transactions[st.nextId := t], added)
    requires forall i :: 0 <= i < |added| ==> added[i].transaction == st.nextId
    ensures Inv(Add(st, t, added))
  {
    var all := st.transactions[st.nextId := t];
    assert added != [] && added[0].transaction == st.nextId;
    assert !Mentions(st.entries, st.nextId);
    hide Grouped, Mentions, WellShaped;
    GroupedUnderMore(st.transactions, st.entries, st.nextId, t);
    GroupedAppend(all, st.entries, added);
    MentionsAdded(st.entries, added, st.nextId);
  }

  lemma {:induction false} GroupedUnderMore(
    transactions: map<nat, Transaction>, entries: seq<Entry>, newId: nat, t: Transaction)
    requires Grouped(transactions, entries) && !Mentions(entries, newId)
    ensures Grouped(transactions[newId := t], entries)
  {
    hide Grouped, Mentions;
    GroupedWhileKept(transactions, transactions[newId := t], entries);
  }

  lemma {:induction false} MentionsAdded(entries: seq<Entry>, added: seq<Entry>, newId: nat)
    requires added != [] && forall i :: 0 <= i < |added| ==> added[i].transaction == newId
    ensures forall id: nat :: Mentions(entries + added, id) <==> Mentions(entries, id) || id == newId
  {
    forall id: nat
      ensures Mentions(entries + added, id) <==> Mentions(entries, id) || id == newId
    {
      MentionsAppend(entries, added, id);
      assert added[0].transaction == newId;
    }
  }

  lemma {:induction false} GroupedAppend(all: map<nat, Transaction>, entries: seq<Entry>, added: seq<Entry>)
    requires Grouped(all, entries) && added != [] && !Mentions(entries, added[0].transaction)
    requires WellShaped(all, added)
    ensures Grouped(all, entries + added)
  {
    var whole := entries + added;
    var n := |whole|;
    assert whole[..|entries|] == entries && whole[n - 1] == added[|added| - 1];
    hide Mentions, SingleOk, PairOk;
    if |added| == 2 {
      assert n >= 2 && whole[n - 2] == added[0];
      assert PairOk(all, added[0], added[1]);
    } else {
      assert SingleOk(all, added[0]);
    }
  }

  // ----- removing

  lemma {:induction false} WithoutMentions(entries: seq<Entry>, ids: set<nat>, id: nat)
    ensures Mentions(Without(entries, ids), id) <==> Mentions(entries, id) && id !in ids
  {
    var n := |entries|;
    if n > 0 {
      WithoutMentions(entries[..n - 1], ids, id);
      assert entries == entries[..n - 1] + [entries[n - 1]];
      MentionsAppend(entries[..n - 1], [entries[n - 1]], id);
      MentionsAppend(Without(entries[..n - 1], ids), [entries[n - 1]], id);
      assert Mentions([entries[n - 1]], id) <==> [entries[n - 1]][0].transaction == id;
      assert Without(entries[..n - 1], ids) + [] == Without(entries[..n - 1], ids);
    }
  }

  lemma {:induction false} WithoutPair(entries: seq<Entry>, ids: set<nat>)
    requires |entries| >= 2 && entries[|entries| - 2].transaction == entries[|entries| - 1].transaction
    ensures var n := |entries|;
            Without(entries, ids) == Without(entries[..n - 2], ids)
                                     + (if entries[n - 1].transaction in ids then []
                                         else [entries[n - 2], entries[n - 1]])
  {
    var n := |entries|;
    assert entries[..n - 1][..n - 2] == entries[..n - 2];
    assert entries[..n - 1][n - 2] == entries[n - 2];
  }

  lemma {:induction false} WithoutKeepsGrouped(transactions: map<nat, Transaction>, entries: seq<Entry>, ids: set<nat>)
    requires Grouped(transactions, entries)
    ensures Grouped(transactions, Without(entries, ids))
    decreases |entries|
  {
    var n := |entries|;
    if n > 0 {
      var pair := entries[n - 1].role == TransferIn;
      var m := if pair then n - 2 else n - 1;
      var front := Without(entries[..m], ids);
      WithoutKeepsGrouped(transactions, entries[..m], ids);
      WithoutMentions(entries[..m], ids, entries[n - 1].transaction);
      LastGroupWellShaped(transactions, entries);
      hide Grouped, WellShaped, Mentions;
      WithoutGroup(entries, m, ids);
      if entries[n - 1].transaction in ids {
        assert Without(entries, ids) == front;
      } else {
        GroupedAppend(transactions, front, entries[m..]);
      }
    }
  }

  lemma {:induction false} LastGroupWellShaped(transactions: map<nat, Transaction>, entries: seq<Entry>)
    requires Grouped(transactions, entries) && entries != []
    ensures var n := |entries|;
            var m := if entries[n - 1].role == TransferIn then n - 2 else n - 1;
            && 0 <= m && Grouped(transactions, entries[..m]) && WellShaped(transactions, entries[m..])
            && entries[m].transaction == entries[n - 1].transaction
  {}

  lemma {:induction false} WithoutGroup(entries: seq<Entry>, m: nat, ids: set<nat>)
    requires m < |entries| <= m + 2 && entries[m].transaction == entries[|entries| - 1].transaction
    ensures Without(entries, ids)
         == Without(entries[..m], ids) + (if entries[m].transaction in ids then [] else entries[m..])
  {
    if |entries| == m + 2 {
      WithoutPair(entries, ids);
      assert entries[m..] == [entries[m], entries[m + 1]];
    } else {
      assert entries[m..] == [entries[m]];
    }
  }

  lemma {:induction false} RemoveKeepsInv(st: State, ids: set<nat>)
    requires Inv(st)
    ensures Inv(Remove(st, ids))
  {
    WithoutKeepsGrouped(st.transactions, st.entries, ids);
    forall id
      ensures Mentions(Without(st.entries, ids), id) <==> Mentions(st.entries, id) && id !in ids
    {
      WithoutMentions(st.entries, ids, id);
    }
    GroupedWhileKept(st.transactions, st.transactions - ids, Without(st.entries, ids));
  }

  lemma {:induction false} StepKeepsInv(st: State, a: Action)
    requires Inv(st)
    ensures Inv(After(st, a))
  {
    hide Inv;
    if Outcome(st, a).Ok? {
      match a
      case DoCreate(owner, account, amount, kind, date) =>
        AddKeepsInv(st, Transaction(owner, date, kind, None), [Entry(st.nextId, account, amount, Only)]);
      case DoWithdraw(owner, account, amount, kind, date) =>
        AddKeepsInv(st, Transaction(owner, date, kind, None), [Entry(st.nextId, account, -amount, Only)]);
      case DoTransfer(owner, source, destination, amount, date) =>
        AddKeepsInv(st, Transaction(owner, date, Transfer, None),
                    [Entry(st.nextId, source, -amount, TransferOut),
                     Entry(st.nextId, destination, amount, TransferIn)]);
      case DoPost(owner, account, amount, kind, date) =>
        AddKeepsInv(st, Transaction(owner, date, kind, Some(account.pk)), [Entry(st.nextId, account, amount, Only)]);
      case DoDelete(owner, id) => RemoveKeepsInv(st, {id});
      case DoDeleteAll(owner, account) => RemoveKeepsInv(st, Touching(st, owner, account.pk));
    }
  }

  /** In every run: entries and transactions belong together, and each transaction is one entry or a
      transfer of two opposite entries between accounts of one owner. */
  lemma {:induction false} RunsKeepInv(actions: seq<Action>)
    ensures Inv(Run(actions))
  {
    if actions != [] {
      RunsKeepInv(actions[..|actions| - 1]);
      StepKeepsInv(Run(actions[..|actions| - 1]), actions[|actions| - 1]);
    } else {
      assert forall id :: !Mentions([], id);
    }
  }

  // ----- the shape of a transaction

  function EntriesOf(entries: seq<Entry>, id: nat): seq<Entry> {
    if entries == [] then []
    else
      var last := entries[|entries| - 1];
      EntriesOf(entries[..|entries| - 1], id) + (if last.transaction == id then [last] else [])
  }

  lemma {:induction false} NoEntriesOf(entries: seq<Entry>, id: nat)
    requires !Mentions(entries, id)
    ensures EntriesOf(entries, id) == []
  {
    var n := |entries|;
    if n > 0 {
      assert entries == entries[..n - 1] + [entries[n - 1]];
      MentionsAppend(entries[..n - 1], [entries[n - 1]], id);
      assert [entries[n - 1]][0] == entries[n - 1];
      NoEntriesOf(entries[..n - 1], id);
    }
  }

  predicate WellShaped(transactions: map<nat, Transaction>, own: seq<Entry>) {
    || (|own| == 1 && SingleOk(transactions, own[0]))
    || (|own| == 2 && PairOk(transactions, own[0], own[1]))
  }

  lemma {:induction false} GroupShape(transactions: map<nat, Transaction>, entries: seq<Entry>, id: nat)
    requires Grouped(transactions, entries) && Mentions(entries, id)
    ensures WellShaped(transactions, EntriesOf(entries, id))
    decreases |entries|
  {
    var n := |entries|;
    var last := entries[n - 1];
    var m := if last.role == TransferIn then n - 2 else n - 1;
    if last.role == TransferIn {
      assert entries[..n - 1][..n - 2] == entries[..n - 2] && entries[..n - 1][n - 2] == entries[n - 2];
    }
    if last.transaction == id {
      NoEntriesOf(entries[..m], id);
    } else {
      var i :| 0 <= i < n && entries[i].transaction == id;
      assert entries[..m][i].transaction == id;
      GroupShape(transactions, entries[..m], id);
      assert EntriesOf(entries, id) == EntriesOf(entries[..m], id);
    }
  }

  /** In every run, the entries of a stored transaction are exactly one, or exactly the two opposite legs
      of a transfer between accounts of its owner. */
  lemma {:induction false} TransactionsWellShaped(actions: seq<Action>, id: nat)
    requires id in Run(actions).transactions
    ensures WellShaped(Run(actions).transactions, EntriesOf(Run(actions).entries, id))
  {
    RunsKeepInv(actions);
    GroupShape(Run(actions).transactions, Run(actions).entries, id);
  }

  lemma {:induction false} EntriesOfAppend(entries: seq<Entry>, more: seq<Entry>, id: nat)
    ensures EntriesOf(entries + more, id) == EntriesOf(entries, id) + EntriesOf(more, id)
    decreases |more|
  {
    if more == [] {
      assert entries + more == entries;
    } else {
      var n := |more| - 1;
      EntriesOfAppend(entries, more[..n], id);
      assert (entries + more)[..|entries| + n] == entries + more[..n];
    }
  }

  lemma {:induction false} EntriesOfWithout(entries: seq<Entry>, ids: set<nat>, id: nat)
    requires id !in ids
    ensures EntriesOf(Without(entries, ids), id) == EntriesOf(entries, id)
  {
    if entries != [] {
      var front, last := entries[..|entries| - 1], entries[|entries| - 1];
      EntriesOfWithout(front, ids, id);
      if last.transaction in ids {
        assert Without(entries, ids) == Without(front, ids);
      } else {
        assert (Without(front, ids) + [last])[..|Without(front, ids)|] == Without(front, ids);
      }
    }
  }

  // ----- transfers with a single entry

  /** Every stored transfer has two entries, which are then its two opposite legs. */
  ghost predicate TransfersHaveTwoLegs(st: State) {
    forall id | id in st.transactions && st.transactions[id].kind == Transfer :: |EntriesOf(st.entries, id)| == 2
  }

  /** An accepted deposit or withdrawal under the type name TRANSFER. */
  predicate SingleEntryTransfer(a: Action) {
    match a
    case DoCreate(owner, account, amount, kind, _) => kind == Transfer && amount != 0.0 && account.owner == owner
    case DoWithdraw(owner, account, amount, kind, _) => kind == Transfer && amount > 0.0 && account.owner == owner
    case _ => false
  }

  lemma {:induction false} AddedLegs(st: State, t: Transaction, added: seq<Entry>)
    requires Inv(st) && TransfersHaveTwoLegs(st)
    requires forall i :: 0 <= i < |added| ==> added[i].transaction == st.nextId
    ensures TransfersHaveTwoLegs(Add(st, t, added)) <==> (t.kind == Transfer ==> |added| == 2)
  {
    var after := Add(st, t, added);
    assert !Mentions(st.entries, st.nextId);
    NoEntriesOf(st.entries, st.nextId);
    AllEntriesOf(added, st.nextId);
    forall id: nat
      ensures EntriesOf(after.entries, id) == if id == st.nextId then added else EntriesOf(st.entries, id)
    {
      EntriesOfAppend(st.entries, added, id);
      if id != st.nextId {
        NoEntriesOf(added, id);
      }
    }
    assert after.transactions[st.nextId] == t;
  }

  lemma {:induction false} AllEntriesOf(entries: seq<Entry>, id: nat)
    requires forall i :: 0 <= i < |entries| ==> entries[i].transaction == id
    ensures EntriesOf(entries, id) == entries
  {
    if entries != [] {
      AllEntriesOf(entries[..|entries| - 1], id);
    }
  }

  lemma {:induction false} RemovedLegs(st: State, ids: set<nat>)
    requires TransfersHaveTwoLegs(st)
    ensures TransfersHaveTwoLegs(Remove(st, ids))
  {
    var after := Remove(st, ids);
    forall id | id in after.transactions
      ensures EntriesOf(after.entries, id) == EntriesOf(st.entries, id)
    {
      EntriesOfWithout(st.entries, ids, id);
    }
  }

  lemma {:induction false} StepKeepsLegs(st: State, a: Action)
    requires Inv(st) && TransfersHaveTwoLegs(st)
    ensures TransfersHaveTwoLegs(After(st, a)) <==> !SingleEntryTransfer(a)
  {
    hide Inv, TransfersHaveTwoLegs, Remove, Add;
    if Outcome(st, a).Ok? {
      match a
      case DoCreate(owner, account, amount, kind, date) =>
        AddedLegs(st, Transaction(owner, date, kind, None), [Entry(st.nextId, account, amount, Only)]);
      case DoWithdraw(owner, account, amount, kind, date) =>
        AddedLegs(st, Transaction(owner, date, kind, None), [Entry(st.nextId, account, -amount, Only)]);
      case DoTransfer(owner, source, destination, amount, date) =>
        AddedLegs(st, Transaction(owner, date, Transfer, None),
                  [Entry(st.nextId, source, -amount, TransferOut), Entry(st.nextId, destination, amount, TransferIn)]);
      case DoPost(owner, account, amount, kind, date) =>
        AddedLegs(st, Transaction(owner, date, kind, Some(account.pk)), [Entry(st.nextId, account, amount, Only)]);
      case DoDelete(owner, id) =>
        if id in st.transactions {
          RemovedLegs(st, {id});
        }
      case DoDeleteAll(owner, account) => RemovedLegs(st, Touching(st, owner, account.pk));
    }
  }

  /** Every transfer has its two legs all through a run exactly when the run makes no deposit or withdrawal
      under the type name TRANSFER. */
  lemma {:induction false} TransfersHaveTwoLegsIff(actions: seq<Action>)
    ensures (forall k :: 0 <= k <= |actions| ==> TransfersHaveTwoLegs(Run(actions[..k])))
       <==> (forall k :: 0 <= k < |actions| ==> !SingleEntryTransfer(actions[k]))
  {
    if forall k :: 0 <= k < |actions| ==> !SingleEntryTransfer(actions[k]) {
      forall k | 0 <= k <= |actions|
        ensures TransfersHaveTwoLegs(Run(actions[..k]))
      {
        LegsWithoutSingles(actions[..k]);
      }
    }
    if k :| 0 <= k < |actions| && SingleEntryTransfer(actions[k]) {
      RunsKeepInv(actions[..k]);
      assert actions[..k + 1][..k] == actions[..k];
      assert Run(actions[..k + 1]) == After(Run(actions[..k]), actions[k]);
      if TransfersHaveTwoLegs(Run(actions[..k])) {
        StepKeepsLegs(Run(actions[..k]), actions[k]);
      }
    }
  }

  lemma {:induction false} LegsWithoutSingles(actions: seq<Action>)
    requires forall k :: 0 <= k < |actions| ==> !SingleEntryTransfer(actions[k])
    ensures TransfersHaveTwoLegs(Run(actions))
  {
    if actions != [] {
      var n := |actions| - 1;
      LegsWithoutSingles(actions[..n]);
      RunsKeepInv(actions[..n]);
      StepKeepsLegs(Run(actions[..n]), actions[n]);
    }
  }

  /** A deposit of 5 under the type name TRANSFER: accepted, and stored with a single entry. */
  lemma {:induction false} DepositTypedTransfer()
    ensures var account := Account(2, 1, 3);
            var st := Run([DoCreate(1, account, 5.0, Transfer, 0)]);
            && 0 in st.transactions && st.transactions[0].kind == Transfer
            && EntriesOf(st.entries, 0) == [Entry(0, account, 5.0, Only)]
            && !TransfersHaveTwoLegs(st)
  {
    var account := Account(2, 1, 3);
    var deposit := DoCreate(1, account, 5.0, Transfer, 0);
    assert [deposit][..0] == [];
    assert Run([deposit]) == After(EMPTY, deposit);
    AllEntriesOf([Entry(0, account, 5.0, Only)], 0);
  }

  // ----- deleting an account's transactions

  /** Accounts are identified by their key. */
  ghost predicate Known(entries: seq<Entry>, accounts: map<nat, Account>) {
    forall i :: 0 <= i < |entries| ==>
        entries[i].account.pk in accounts && accounts[entries[i].account.pk] == entries[i].account
  }

  predicate TouchesIn(entries: seq<Entry>, account: nat, id: nat) {
    exists i :: 0 <= i < |entries| && entries[i].transaction == id && entries[i].account.pk == account
  }

  /** The amounts of the account's own legs of transfers with another account. */
  function Counterparts(entries: seq<Entry>, account: nat, other: nat): real {
    var n := |entries|;
    if n == 0 then 0.0
    else if n >= 2 && entries[n - 1].role == TransferIn then
      Counterparts(entries[..n - 2], account, other)
      + (if entries[n - 1].account.pk == account && entries[n - 2].account.pk == other then entries[n - 1].amount
         else if entries[n - 2].account.pk == account && entries[n - 1].account.pk == other then entries[n - 2].amount
         else 0.0)
    else Counterparts(entries[..n - 1], account, other)
  }

  /** The ids picked out are those, among the ones mentioned, that have an entry in the account. */
  ghost predicate Picks(entries: seq<Entry>, account: nat, ids: set<nat>) {
    forall id | Mentions(entries, id) :: id in ids <==> TouchesIn(entries, account, id)
  }

  lemma {:induction false} PicksFront(entries: seq<Entry>, account: nat, ids: set<nat>, m: nat)
    requires m <= |entries| && Picks(entries, account, ids)
    requires forall i :: m <= i < |entries| ==> !Mentions(entries[..m], entries[i].transaction)
    ensures Picks(entries[..m], account, ids)
  {
    forall id | Mentions(entries[..m], id)
      ensures Mentions(entries, id)
      ensures TouchesIn(entries[..m], account, id) <==> TouchesIn(entries, account, id)
    {
      var i :| 0 <= i < m && entries[..m][i].transaction == id;
      assert entries[i].transaction == id;
      if TouchesIn(entries[..m], account, id) {
        var j :| 0 <= j < m && entries[..m][j].transaction == id && entries[..m][j].account.pk == account;
        assert entries[j].transaction == id;
      }
      if TouchesIn(entries, account, id) {
        var j :| 0 <= j < |entries| && entries[j].transaction == id && entries[j].account.pk == account;
        assert entries[..m][j].transaction == id;
      }
    }
  }

  lemma {:induction false} BalancePair(entries: seq<Entry>, account: nat)
    requires |entries| >= 2
    ensures var n := |entries|;
            Balance(entries, account) == Balance(entries[..n - 2], account)
              + (if entries[n - 2].account.pk == account then entries[n - 2].amount else 0.0)
              + (if entries[n - 1].account.pk == account then entries[n - 1].amount else 0.0)
  {
    var n := |entries|;
    assert entries[..n - 1][..n - 2] == entries[..n - 2] && entries[..n - 1][n - 2] == entries[n - 2];
  }

  lemma {:induction false} LastGroupPicked(transactions: map<nat, Transaction>, entries: seq<Entry>, account: nat,
      ids: set<nat>)
    requires Grouped(transactions, entries) && entries != [] && Picks(entries, account, ids)
    ensures var n := |entries|;
            entries[n - 1].transaction in ids <==>
            (entries[n - 1].account.pk == account
                || (entries[n - 1].role == TransferIn && entries[n - 2].account.pk == account))
  {
    var n := |entries|;
    var id := entries[n - 1].transaction;
    assert Mentions(entries, id);
    var m := if entries[n - 1].role == TransferIn then n - 2 else n - 1;
    if TouchesIn(entries, account, id) {
      forall j | 0 <= j < m
        ensures entries[j].transaction != id
      {
        assert entries[..m][j] == entries[j];
      }
    }
    if entries[n - 1].role == TransferIn && entries[n - 2].account.pk == account {
      assert entries[n - 2].transaction == id;
    }
  }

  /** What the last group of entries is. */
  lemma {:induction false} LastGroup(transactions: map<nat, Transaction>, entries: seq<Entry>)
    requires Grouped(transactions, entries) && entries != []
    ensures var n := |entries|;
            var m := if entries[n - 1].role == TransferIn then n - 2 else n - 1;
            && 0 <= m
            && Grouped(transactions, entries[..m])
            && (forall i :: m <= i < n ==> !Mentions(entries[..m], entries[i].transaction))
            && (m == n - 2 ==>
                  && entries[m].amount == -entries[m + 1].amount && entries[m].account.pk != entries[m + 1].account.pk
                  && entries[m].transaction == entries[m + 1].transaction && entries[m].role == TransferOut)
  {}

  /** Removing the picked transactions takes everything out of the account, and out of another account only
      the other legs of transfers between the two. */
  lemma {:induction false} RemovedBalances(transactions: map<nat, Transaction>, entries: seq<Entry>, account: nat,
      other: nat, ids: set<nat>)
    requires Grouped(transactions, entries) && Picks(entries, account, ids) && other != account
    ensures Balance(Without(entries, ids), account) == 0.0
    ensures Balance(Without(entries, ids), other) == Balance(entries, other) + Counterparts(entries, account, other)
    decreases |entries|
  {
    var n := |entries|;
    if n > 0 {
      LastGroup(transactions, entries);
      LastGroupPicked(transactions, entries, account, ids);
      var m := if entries[n - 1].role == TransferIn then n - 2 else n - 1;
      PicksFront(entries, account, ids, m);
      RemovedBalances(transactions, entries[..m], account, other, ids);
      hide Grouped, Picks;
      if entries[n - 1].role == TransferIn {
        RemovedPair(entries, account, other, ids);
      } else {
        RemovedSingle(entries, account, other, ids);
      }
    }
  }

  lemma {:induction false} RemovedPair(entries: seq<Entry>, account: nat, other: nat, ids: set<nat>)
    requires other != account && |entries| >= 2
    requires var s, d := entries[|entries| - 2], entries[|entries| - 1];
             && s.transaction == d.transaction && s.amount == -d.amount && d.role == TransferIn
                 && s.account.pk != d.account.pk
             && (d.transaction in ids <==> d.account.pk == account || s.account.pk == account)
    requires var front := entries[..|entries| - 2];
             && Balance(Without(front, ids), account) == 0.0
             && Balance(Without(front, ids), other) == Balance(front, other) + Counterparts(front, account, other)
    ensures Balance(Without(entries, ids), account) == 0.0
    ensures Balance(Without(entries, ids), other) == Balance(entries, other) + Counterparts(entries, account, other)
  {
    var n := |entries|;
    var s, d := entries[n - 2], entries[n - 1];
    var front := Without(entries[..n - 2], ids);
    WithoutPair(entries, ids);
    BalancePair(entries, other);
    if d.transaction !in ids {
      assert (front + [s, d])[..|front|] == front;
      BalancePair(front + [s, d], account);
      BalancePair(front + [s, d], other);
    } else {
      assert Without(entries, ids) == front;
    }
    hide Balance, Without;
  }

  lemma {:induction false} RemovedSingle(entries: seq<Entry>, account: nat, other: nat, ids: set<nat>)
    requires other != account && entries != []
    requires var e := entries[|entries| - 1];
             e.role != TransferIn && (e.transaction in ids <==> e.account.pk == account)
    requires var front := entries[..|entries| - 1];
             && Balance(Without(front, ids), account) == 0.0
             && Balance(Without(front, ids), other) == Balance(front, other) + Counterparts(front, account, other)
    ensures Balance(Without(entries, ids), account) == 0.0
    ensures Balance(Without(entries, ids), other) == Balance(entries, other) + Counterparts(entries, account, other)
  {
    var n := |entries|;
    var front := Without(entries[..n - 1], ids);
    if entries[n - 1].transaction !in ids {
      assert (front + [entries[n - 1]])[..|front|] == front;
    } else {
      assert Without(entries, ids) == front;
    }
  }

  lemma {:induction false} OwnersMatch(transactions: map<nat, Transaction>, entries: seq<Entry>, i: nat)
    requires Grouped(transactions, entries) && i < |entries|
    ensures var e := entries[i];
            && e.transaction in transactions && transactions[e.transaction].owner == e.account.owner
            && (transactions[e.transaction].detail.Some? ==> transactions[e.transaction].detail == Some(e.account.pk))
    decreases |entries|
  {
    var n := |entries|;
    var m := if entries[n - 1].role == TransferIn then n - 2 else n - 1;
    if i < m {
      OwnersMatch(transactions, entries[..m], i);
    }
  }

  lemma {:induction false} TouchingPicks(st: State, accounts: map<nat, Account>, account: Account)
    requires Inv(st) && Known(st.entries, accounts) && account.pk in accounts && accounts[account.pk] == account
    ensures Picks(st.entries, account.pk, Touching(st, account.owner, account.pk))
  {
    var ids := Touching(st, account.owner, account.pk);
    forall id | Mentions(st.entries, id)
      ensures id in ids <==> TouchesIn(st.entries, account.pk, id)
    {
      if TouchesIn(st.entries, account.pk, id) {
        var i :| 0 <= i < |st.entries| && st.entries[i].transaction == id && st.entries[i].account.pk == account.pk;
        OwnersMatch(st.transactions, st.entries, i);
        assert id in ids;
      }
    }
  }

  /** Deleting an account's transactions leaves it at zero and changes any other account only by the other
      legs of its transfers with this one; and no transaction with an investment detail is ever removed. */
  lemma {:induction false} BulkDeleteBalances(st: State, accounts: map<nat, Account>, owner: nat, account: Account,
      other: nat)
    requires Inv(st) && Known(st.entries, accounts) && account.pk in accounts && accounts[account.pk] == account
    requires other != account.pk && DeleteAll(st, owner, account).Ok?
    ensures var after := DeleteAll(st, owner, account).value;
            && (forall e | e in after.entries :: e.account.pk != account.pk)
            && Balance(after.entries, account.pk) == 0.0
            && Balance(after.entries, other) == Balance(st.entries, other) + Counterparts(st.entries, account.pk, other)
  {
    DeleteAllRemoves(st, owner, account);
    TouchingPicks(st, accounts, account);
    assert Grouped(st.transactions, st.entries);
    NothingLeft(st.entries, account.pk, Touching(st, owner, account.pk));
    hide *;
    RemovedBalances(st.transactions, st.entries, account.pk, other, Touching(st, owner, account.pk));
  }

  lemma {:induction false} WithoutMembers(entries: seq<Entry>, ids: set<nat>)
    ensures forall e | e in Without(entries, ids) :: e in entries && e.transaction !in ids
  {
    if entries != [] {
      WithoutMembers(entries[..|entries| - 1], ids);
    }
  }

  lemma {:induction false} NothingLeft(entries: seq<Entry>, account: nat, ids: set<nat>)
    requires Picks(entries, account, ids)
    ensures forall e | e in Without(entries, ids) :: e.account.pk != account
  {
    WithoutMembers(entries, ids);
    hide Without;
    forall e | e in Without(entries, ids)
      ensures e.account.pk != account
    {
      var i :| 0 <= i < |entries| && entries[i] == e;
      assert Mentions(entries, e.transaction);
      assert e.account.pk == account ==> TouchesIn(entries, account, e.transaction);
    }
  }

  lemma {:induction false} DeleteAllRemoves(st: State, owner: nat, account: Account)
    requires DeleteAll(st, owner, account).Ok?
    ensures owner == account.owner
    ensures DeleteAll(st, owner, account).value.entries == Without(st.entries, Touching(st, owner, account.pk))
  {}

  /** A transaction is as it was in an earlier state, with its entries. */
  predicate SameRecord(st: State, after: State, id: nat)
    requires id in st.transactions
  {
    && id in after.transactions && after.transactions[id] == st.transactions[id]
    && EntriesOf(after.entries, id) == EntriesOf(st.entries, id)
  }

  lemma {:induction false} AddKeepsOthers(st: State, t: Transaction, added: seq<Entry>, id: nat)
    requires id in st.transactions && id != st.nextId
    requires forall i :: 0 <= i < |added| ==> added[i].transaction == st.nextId
    ensures SameRecord(st, Add(st, t, added), id)
  {
    EntriesOfAppend(st.entries, added, id);
    NoEntriesOf(added, id);
  }

  lemma {:induction false} RemoveKeepsOthers(st: State, ids: set<nat>, id: nat)
    requires id in st.transactions && id !in ids
    ensures SameRecord(st, Remove(st, ids), id)
  {
    EntriesOfWithout(st.entries, ids, id);
  }

  lemma {:induction false} DetailsAreKept(st: State, a: Action, id: nat)
    requires Inv(st) && id in st.transactions && st.transactions[id].detail.Some?
    ensures SameRecord(st, After(st, a), id)
  {
    assert id < st.nextId;
    if Outcome(st, a).Ok? {
      match a
      case DoCreate(owner, account, amount, kind, date) =>
        AddKeepsOthers(st, Transaction(owner, date, kind, None), [Entry(st.nextId, account, amount, Only)], id);
      case DoWithdraw(owner, account, amount, kind, date) =>
        AddKeepsOthers(st, Transaction(owner, date, kind, None), [Entry(st.nextId, account, -amount, Only)], id);
      case DoTransfer(owner, source, destination, amount, date) =>
        AddKeepsOthers(
          st, Transaction(owner, date, Transfer, None),
          [Entry(st.nextId, source, -amount, TransferOut), Entry(st.nextId, destination, amount, TransferIn)], id);
      case DoPost(owner, account, amount, kind, date) =>
        AddKeepsOthers(
          st, Transaction(owner, date, kind, Some(account.pk)), [Entry(st.nextId, account, amount, Only)], id);
      case DoDelete(owner, other) =>
        if other in st.transactions {
          RemoveKeepsOthers(st, {other}, id);
        }
      case DoDeleteAll(owner, account) =>
        if id in Touching(st, owner, account.pk) {
          DetailIsTouched(st, id, owner, account.pk);
        } else {
          RemoveKeepsOthers(st, Touching(st, owner, account.pk), id);
        }
    }
  }

  lemma {:induction false} DetailIsTouched(st: State, id: nat, owner: nat, account: nat)
    requires Inv(st) && id in Touching(st, owner, account) && st.transactions[id].detail.Some?
    ensures st.transactions[id].detail == Some(account)
  {
    var i :| 0 <= i < |st.entries| && st.entries[i].transaction == id && st.entries[i].account.pk == account;
    OwnersMatch(st.transactions, st.entries, i);
  }

  /** In every run, an investment transaction, once posted, stays as it was posted, with its cash entry. */
  lemma {:induction false} InvestmentsAreImmutable(before: seq<Action>, later: seq<Action>, id: nat)
    requires id in Run(before).transactions && Run(before).transactions[id].detail.Some?
    ensures SameRecord(Run(before), Run(before + later), id)
  {
    if later == [] {
      assert before + later == before;
    } else {
      var n := |later| - 1;
      InvestmentsAreImmutable(before, later[..n], id);
      assert (before + later)[..|before + later| - 1] == before + later[..n];
      RunsKeepInv(before + later[..n]);
      hide Inv, EntriesOf, After;
      DetailsAreKept(Run(before + later[..n]), later[n], id);
    }
  }

  /** The accounts an action names. */
  predicate Names(a: Action, accounts: map<nat, Account>) {
    match a
    case DoCreate(_, x, _, _, _) => x.pk in accounts && accounts[x.pk] == x
    case DoWithdraw(_, x, _, _, _) => x.pk in accounts && accounts[x.pk] == x
    case DoTransfer(_, x, y, _, _) => x.pk in accounts && accounts[x.pk] == x && y.pk in accounts && accounts[y.pk] == y
    case DoPost(_, x, _, _, _) => x.pk in accounts && accounts[x.pk] == x
    case DoDelete(_, _) => true
    case DoDeleteAll(_, x) => x.pk in accounts && accounts[x.pk] == x
  }

  lemma {:induction false} WithoutKnown(entries: seq<Entry>, ids: set<nat>, accounts: map<nat, Account>)
    requires Known(entries, accounts)
    ensures Known(Without(entries, ids), accounts)
  {
    if entries != [] {
      WithoutKnown(entries[..|entries| - 1], ids, accounts);
    }
  }

  lemma {:induction false} RunsStayKnown(actions: seq<Action>, accounts: map<nat, Account>)
    requires forall a | a in actions :: Names(a, accounts)
    ensures Known(Run(actions).entries, accounts)
  {
    if actions != [] {
      var n := |actions| - 1;
      RunsStayKnown(actions[..n], accounts);
      var st := Run(actions[..n]);
      assert Names(actions[n], accounts);
      match actions[n]
      case DoDelete(_, id) => WithoutKnown(st.entries, {id}, accounts);
      case DoDeleteAll(owner, x) => WithoutKnown(st.entries, Touching(st, owner, x.pk), accounts);
      case _ =>
    }
  }

  /** The same at the end of any run over a fixed set of accounts. */
  lemma {:induction false} BulkDeleteAfterAnyRun(actions: seq<Action>, accounts: map<nat, Account>, owner: nat,
      account: Account, other: nat)
    requires forall a | a in actions :: Names(a, accounts)
    requires account.pk in accounts && accounts[account.pk] == account && other != account.pk
    requires DeleteAll(Run(actions), owner, account).Ok?
    ensures var st, after := Run(actions), DeleteAll(Run(actions), owner, account).value;
            && (forall e | e in after.entries :: e.account.pk != account.pk)
            && Balance(after.entries, account.pk) == 0.0
            && Balance(after.entries, other) == Balance(st.entries, other) + Counterparts(st.entries, account.pk, other)
  {
    RunsKeepInv(actions);
    RunsStayKnown(actions, accounts);
    BulkDeleteBalances(Run(actions), accounts, owner, account, other);
  }

  // ----- balances move by what is entered

  lemma {:induction false} BalanceAdds(entries: seq<Entry>, e: Entry, account: nat)
    ensures Balance(entries + [e], account)
        == Balance(entries, account) + (if e.account.pk == account then e.amount else 0.0)
  {
    assert (entries + [e])[..|entries|] == entries;
  }

  function RowTotal(rows: seq<(int, real, Kind)>): real {
    if rows == [] then 0.0 else RowTotal(rows[..|rows| - 1]) + rows[|rows| - 1].1
  }

  /** An import moves its account by the total of its rows and no other account at all. */
  lemma {:induction false} ImportMovesBalance(st: State, owner: nat, account: Account, rows: seq<(int, real, Kind)>,
      other: nat)
    ensures Balance(CreateAll(st, owner, account, rows).entries, other)
         == Balance(st.entries, other) + (if other == account.pk then RowTotal(rows) else 0.0)
  {
    if rows != [] {
      var n := |rows| - 1;
      ImportMovesBalance(st, owner, account, rows[..n], other);
      var before := CreateAll(st, owner, account, rows[..n]);
      BalanceAdds(before.entries, Entry(before.nextId, account, rows[n].1, Only), other);
    }
  }
}

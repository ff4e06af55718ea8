/** What operations on the ledger do to balances (ledger/services.py), one by one and over every run. */
module LedgerBalances {
  import opened Wrappers
  import opened Ledger

  /** The creations the services accept. */
  predicate Accepted(a: Action) {
    match a
    case DoCreate(owner, account, amount, _, _) => account.owner == owner && amount != 0.0
    case DoWithdraw(owner, account, amount, _, _) => account.owner == owner && amount > 0.0
    case DoTransfer(owner, source, destination, amount, _) =>
      && source.owner == owner && destination.owner == owner && source.pk != destination.pk
      && source.currency == destination.currency && amount > 0.0
    case DoPost(owner, account, amount, kind, _) =>
      account.owner == owner && amount != 0.0 && kind in {Buy, Sell, Dividend, Fee, Tax}
    case _ => false
  }

  /** How an accepted creation moves an account: a deposit or posting by its amount, a withdrawal by its amount down, a
      transfer from the source to the destination. */
  function Effect(a: Action, account: nat): real {
    match a
    case DoCreate(_, x, amount, _, _) => if x.pk == account then amount else 0.0
    case DoWithdraw(_, x, amount, _, _) => if x.pk == account then -amount else 0.0
    case DoTransfer(_, source, destination, amount, _) =>
      if source.pk == account then -amount else if destination.pk == account then amount else 0.0
    case DoPost(_, x, amount, _, _) => if x.pk == account then amount else 0.0
    case _ => 0.0
  }

  /** The transaction a creation stores. */
  predicate Stores(a: Action, t: Transaction) {
    match a
    case DoCreate(owner, _, _, kind, date) => t == Transaction(owner, date, kind, None)
    case DoWithdraw(owner, _, _, kind, date) => t == Transaction(owner, date, kind, None)
    case DoTransfer(owner, _, _, _, date) => t == Transaction(owner, date, Transfer, None)
    case DoPost(owner, account, _, kind, date) => t == Transaction(owner, date, kind, Some(account.pk))
    case _ => false
  }

  predicate IsCreation(a: Action) { !a.DoDelete? && !a.DoDeleteAll? }

  lemma {:induction false} BalanceOfAdded(entries: seq<Entry>, more: seq<Entry>, account: nat)
    ensures Balance(entries + more, account) == Balance(entries, account) + Balance(more, account)
    decreases |more|
  {
    if more == [] {
      assert entries + more == entries;
    } else {
      var n := |more| - 1;
      BalanceOfAdded(entries, more[..n], account);
      assert (entries + more)[..|entries| + n] == entries + more[..n];
    }
  }

  /** The state after a creation is the state before with one transaction and some entries of it. */
  ghost predicate AddsTo(st: State, after: State, t: Transaction, added: seq<Entry>) {
    && after == State(st.transactions[st.nextId := t], st.entries + added, st.nextId + 1)
    && forall i :: 0 <= i < |added| ==> added[i].transaction == st.nextId
  }

  lemma {:induction false} OneBalance(e: Entry, account: nat)
    ensures Balance([e], account) == if e.account.pk == account then e.amount else 0.0
  {
    assert [e][..0] == [];
  }

  lemma {:induction false} TwoBalance(e: Entry, f: Entry, account: nat)
    ensures Balance([e, f], account) == Balance([e], account) + Balance([f], account)
  {
    BalanceOfAdded([e], [f], account);
    assert [e] + [f] == [e, f];
  }

  /** An accepted creation adds one transaction whose entries move every account by the effect; a refused one leaves the
      ledger as it was. */
  lemma {:induction false} CreationMoves(st: State, a: Action) returns (t: Transaction, added: seq<Entry>)
    requires IsCreation(a)
    ensures Accepted(a) ==>
              AddsTo(st, After(st, a), t, added) && Stores(a, t) && forall x: nat :: Balance(added, x) == Effect(a, x)
    ensures !Accepted(a) ==> After(st, a) == st
  {
    t, added := Transaction(0, 0, Deposit, None), [];
    match a
    case DoCreate(owner, account, amount, kind, date) =>
      t, added := Transaction(owner, date, kind, None), [Entry(st.nextId, account, amount, Only)];
      forall x: nat {
        OneBalance(added[0], x);
      }
    case DoWithdraw(owner, account, amount, kind, date) =>
      t, added := Transaction(owner, date, kind, None), [Entry(st.nextId, account, -amount, Only)];
      forall x: nat {
        OneBalance(added[0], x);
      }
    case DoTransfer(owner, source, destination, amount, date) =>
      var e, f := Entry(st.nextId, source, -amount, TransferOut), Entry(st.nextId, destination, amount, TransferIn);
      t, added := Transaction(owner, date, Transfer, None), [e, f];
      forall x: nat
        ensures Accepted(a) ==> Balance([e, f], x) == Effect(a, x)
      {
        TwoBalance(e, f, x);
        OneBalance(e, x);
        OneBalance(f, x);
      }
    case DoPost(owner, account, amount, kind, date) =>
      t, added := Transaction(owner, date, kind, Some(account.pk)), [Entry(st.nextId, account, amount, Only)];
      forall x: nat {
        OneBalance(added[0], x);
      }
  }

  /** One operation: an accepted deposit, withdrawal, transfer or posting moves every balance by its effect and
      is stored as asked; a refused one moves none. */
  lemma {:induction false} OperationMoves(st: State, a: Action, account: nat)
    requires IsCreation(a)
    ensures var after := After(st, a);
            if Accepted(a) then
              && Balance(after.entries, account) == Balance(st.entries, account) + Effect(a, account)
              && st.nextId in after.transactions && Stores(a, after.transactions[st.nextId])
            else after == st
  {
    var t, added := CreationMoves(st, a);
    hide After, Balance, Stores, Effect;
    if Accepted(a) {
      BalanceOfAdded(st.entries, added, account);
    }
  }

  /** A refusal names the first check that fails. */
  lemma {:induction false} RefusalNames(st: State, a: Action)
    requires Outcome(st, a).Err?
    ensures Outcome(st, a).error == match a
              case DoCreate(_, _, amount, _, _) => if amount == 0.0 then ZeroAmount else NotOwner
              case DoWithdraw(_, _, amount, _, _) => if amount <= 0.0 then NotPositive else NotOwner
              case DoTransfer(owner, source, destination, amount, _) =>
                if amount <= 0.0 then NotPositive
                else if source.pk == destination.pk then SameAccount
                else if source.owner != owner || destination.owner != owner then NotOwner
                else CrossCurrency
              case DoPost(owner, account, _, kind, _) =>
                if account.owner != owner then NotOwner
                else if kind !in {Buy, Sell, Dividend, Fee, Tax} then Unsupported
                else ZeroAmount
              case DoDelete(owner, id) =>
                if id in st.transactions && st.transactions[id].owner != owner then NotOwner else Immutable
              case DoDeleteAll(owner, account) => if account.owner != owner then NotOwner else Immutable
  {}

  // ----- deletions

  lemma {:induction false} WithoutTwice(entries: seq<Entry>, first: set<nat>, second: set<nat>)
    ensures Without(Without(entries, first), second) == Without(entries, first + second)
  {
    if entries != [] {
      var front, last := entries[..|entries| - 1], entries[|entries| - 1];
      WithoutTwice(front, first, second);
      if last.transaction in first {
        assert Without(entries, first) == Without(front, first);
      } else {
        assert (Without(front, first) + [last])[..|Without(front, first)|] == Without(front, first);
      }
    }
  }

  lemma {:induction false} WithoutSnoc(entries: seq<Entry>, e: Entry, ids: set<nat>)
    ensures Without(entries + [e], ids) == Without(entries, ids) + (if e.transaction in ids then [] else [e])
  {
    assert (entries + [e])[..|entries|] == entries;
  }

  lemma {:induction false} WithoutAdded(entries: seq<Entry>, added: seq<Entry>, id: nat, ids: set<nat>)
    requires forall i :: 0 <= i < |added| ==> added[i].transaction == id
    ensures Without(entries + added, ids) == Without(entries, ids) + (if id in ids then [] else added)
    decreases |added|
  {
    hide Without;
    if added == [] {
      assert entries + added == entries;
    } else {
      var n := |added| - 1;
      WithoutAdded(entries, added[..n], id, ids);
      WithoutSnoc(entries + added[..n], added[n], ids);
      assert added == added[..n] + [added[n]];
      assert entries + added == entries + added[..n] + [added[n]];
    }
  }

  /** A deletion is accepted exactly for the owner's transactions without an investment detail; it removes the
      transaction with all its entries and leaves every other one as it was. */
  lemma {:induction false} DeleteIff(st: State, owner: nat, id: nat)
    requires id in st.transactions
    ensures Delete(st, owner, id).Ok? <==> st.transactions[id].owner == owner && st.transactions[id].detail == None
    ensures Delete(st, owner, id).Ok? ==>
              var after := Delete(st, owner, id).value;
              && id !in after.transactions && EntriesOf(after.entries, id) == []
              && (forall other | other in st.transactions && other != id :: SameRecord(st, after, other))
  {
    if Delete(st, owner, id).Ok? {
      GoneEntries(st.entries, {id}, id);
      forall other | other in st.transactions && other != id
        ensures SameRecord(st, Remove(st, {id}), other)
      {
        RemoveKeepsOthers(st, {id}, other);
      }
    }
  }

  lemma {:induction false} GoneEntries(entries: seq<Entry>, ids: set<nat>, id: nat)
    requires id in ids
    ensures EntriesOf(Without(entries, ids), id) == []
  {
    WithoutMembers(entries, ids);
    var left := Without(entries, ids);
    hide Without;
    assert forall i :: 0 <= i < |left| ==> left[i] in left;
    NoEntriesOf(left, id);
  }

  /** A bulk deletion is accepted exactly for the owner of an account without investment details; it removes exactly the
      transactions with an entry in the account, and leaves every other one as it was. */
  lemma {:induction false} BulkDeleteIff(st: State, accounts: map<nat, Account>, owner: nat, account: Account)
    requires Inv(st) && Known(st.entries, accounts) && account.pk in accounts && accounts[account.pk] == account
    ensures DeleteAll(st, owner, account).Ok? <==>
              account.owner == owner && forall id | id in st.transactions ::
                  st.transactions[id].detail != Some(account.pk)
    ensures DeleteAll(st, owner, account).Ok? ==>
              var after := DeleteAll(st, owner, account).value;
              forall id | id in st.transactions ::
                if exists e :: e in st.entries && e.transaction == id && e.account.pk == account.pk then
                  id !in after.transactions && EntriesOf(after.entries, id) == []
                else SameRecord(st, after, id)
  {
    if DeleteAll(st, owner, account).Ok? {
      TouchingPicks(st, accounts, account);
      assert forall id :: id in st.transactions <==> Mentions(st.entries, id);
      var ids := Touching(st, owner, account.pk);
      assert DeleteAll(st, owner, account).value == Remove(st, ids);
      hide Inv, Touching, Mentions;
      forall id | id in st.transactions
        ensures if exists e :: e in st.entries && e.transaction == id && e.account.pk == account.pk then
                  id !in Remove(st, ids).transactions && EntriesOf(Remove(st, ids).entries, id) == []
                else SameRecord(st, Remove(st, ids), id)
      {
        TouchesIff(st.entries, account.pk, id);
        if id in ids {
          GoneEntries(st.entries, ids, id);
        } else {
          RemoveKeepsOthers(st, ids, id);
        }
      }
    }
  }

  lemma {:induction false} TouchesIff(entries: seq<Entry>, account: nat, id: nat)
    ensures TouchesIn(entries, account, id) <==>
        exists e :: e in entries && e.transaction == id && e.account.pk == account
  {
    if e :| e in entries && e.transaction == id && e.account.pk == account {
      var i :| 0 <= i < |entries| && entries[i] == e;
      assert entries[i].transaction == id;
    }
  }

  // ----- balances over runs

  /** How many creations were accepted; the next one gets this number as its id. */
  function Count(actions: seq<Action>): nat {
    if actions == [] then 0 else Count(actions[..|actions| - 1]) + (if Accepted(actions[|actions| - 1]) then 1 else 0)
  }

  /** The effects of the accepted creations whose transactions are among those stored. */
  function Entered(actions: seq<Action>, stored: map<nat, Transaction>, account: nat): real {
    if actions == [] then 0.0
    else
      var front, last := actions[..|actions| - 1], actions[|actions| - 1];
      Entered(front, stored, account)
          + (if Accepted(last) && Count(front) in stored then Effect(last, account) else 0.0)
  }

  lemma {:induction false} EnteredByStored(actions: seq<Action>, stored: map<nat, Transaction>,
      other: map<nat, Transaction>, account: nat)
    requires forall id: nat | id < Count(actions) :: id in stored <==> id in other
    ensures Entered(actions, stored, account) == Entered(actions, other, account)
  {
    if actions != [] {
      EnteredByStored(actions[..|actions| - 1], stored, other, account);
    }
  }

  lemma {:induction false} NextIdIsCount(actions: seq<Action>)
    ensures Run(actions).nextId == Count(actions)
  {
    if actions != [] {
      var n := |actions| - 1;
      NextIdIsCount(actions[..n]);
      if IsCreation(actions[n]) {
        var t, added := CreationMoves(Run(actions[..n]), actions[n]);
      }
    }
  }

  /** What a deletion takes out. */
  lemma {:induction false} DeletionRemoves(st: State, a: Action) returns (ids: set<nat>)
    requires !IsCreation(a)
    ensures After(st, a) == st || After(st, a) == Remove(st, ids)
  {
    ids := {};
    match a
    case DoDelete(owner, id) => ids := {id};
    case DoDeleteAll(owner, account) => ids := Touching(st, owner, account.pk);
  }

  lemma {:induction false} BalanceWithout(actions: seq<Action>, ids: set<nat>, account: nat)
    ensures Balance(Without(Run(actions).entries, ids), account)
        == Entered(actions, Run(actions).transactions - ids, account)
    decreases |actions|
  {
    if actions != [] {
      var n := |actions| - 1;
      var front, last, before := actions[..n], actions[n], Run(actions[..n]);
      assert Run(actions) == After(before, last);
      hide Run, Balance, Without, After, Effect;
      if IsCreation(last) {
        var t, added := CreationMoves(before, last);
        BalanceWithout(front, ids, account);
        NextIdIsCount(front);
        if Accepted(last) {
          AddedWithout(front, before, last, t, added, ids, account);
          assert Entered(actions, Run(actions).transactions - ids, account)
              == Entered(front, Run(actions).transactions - ids, account)
                 + (if before.nextId in ids then 0.0 else Effect(last, account));
        }
      } else {
        var gone := DeletionRemoves(before, last);
        if Run(actions) == before {
          BalanceWithout(front, ids, account);
        } else {
          BalanceWithout(front, gone + ids, account);
          WithoutTwice(before.entries, gone, ids);
          assert before.transactions - gone - ids == before.transactions - (gone + ids);
        }
      }
    }
  }

  lemma {:induction false} AddedWithout(front: seq<Action>, before: State, last: Action, t: Transaction,
      added: seq<Entry>, ids: set<nat>, account: nat)
    requires before.nextId == Count(front) && Balance(added, account) == Effect(last, account)
    requires forall i :: 0 <= i < |added| ==> added[i].transaction == before.nextId
    ensures Balance(Without(before.entries + added, ids), account)
         == Balance(Without(before.entries, ids), account)
             + (if before.nextId in ids then 0.0 else Effect(last, account))
    ensures Entered(front, before.transactions[before.nextId := t] - ids, account)
         == Entered(front, before.transactions - ids, account)
  {
    WithoutAdded(before.entries, added, before.nextId, ids);
    hide Without, Effect;
    if before.nextId in ids {
      assert Without(before.entries, ids) + [] == Without(before.entries, ids);
    } else {
      BalanceOfAdded(Without(before.entries, ids), added, account);
    }
    EnteredByStored(front, before.transactions[before.nextId := t] - ids, before.transactions - ids, account);
  }

  /** After every run, the balance of every account is the signed sum of what the accepted operations entered, those
      whose transactions have been deleted left out. */
  lemma {:induction false} BalanceIsEntered(actions: seq<Action>, account: nat)
    ensures Balance(Run(actions).entries, account) == Entered(actions, Run(actions).transactions, account)
  {
    BalanceWithout(actions, {}, account);
    NothingRemoved(Run(actions).entries);
    assert Run(actions).transactions - {} == Run(actions).transactions;
  }

  // ----- imports

  /** An import stores one transaction for each row, in order, with its date, kind and amount. */
  lemma {:induction false} ImportStores(st: State, owner: nat, account: Account, rows: seq<(int, real, Kind)>, k: nat)
    requires k < |rows|
    requires forall id: nat | id >= st.nextId :: !Mentions(st.entries, id)
    ensures var after := CreateAll(st, owner, account, rows);
            && after.nextId == st.nextId + |rows| && st.nextId + k in after.transactions
            && after.transactions[st.nextId + k] == Transaction(owner, rows[k].0, rows[k].2, None)
            && EntriesOf(after.entries, st.nextId + k) == [Entry(st.nextId + k, account, rows[k].1, Only)]
    decreases |rows|
  {
    hide *;
    var n := |rows| - 1;
    var before, id := CreateAll(st, owner, account, rows[..n]), st.nextId + k;
    var t, e := Transaction(owner, rows[n].0, rows[n].2, None), Entry(before.nextId, account, rows[n].1, Only);
    ImportStep(st, owner, account, rows);
    ImportIds(st, owner, account, rows[..n]);
    if k < n {
      ImportStores(st, owner, account, rows[..n], k);
      assert rows[..n][k] == rows[k];
      AddedAfter(before, t, e, id);
    } else {
      AddedLast(before, t, e);
    }
  }

  lemma {:induction false} ImportStep(st: State, owner: nat, account: Account, rows: seq<(int, real, Kind)>)
    requires rows != []
    ensures var n := |rows| - 1;
            var before := CreateAll(st, owner, account, rows[..n]);
            var t, e := Transaction(owner, rows[n].0, rows[n].2, None), Entry(before.nextId, account, rows[n].1, Only);
            CreateAll(st, owner, account, rows) == Add(before, t, [e])
                && Add(before, t, [e]).nextId == before.nextId + 1
  {}

  lemma {:induction false} AddedAfter(before: State, t: Transaction, e: Entry, id: nat)
    requires id != before.nextId && e.transaction == before.nextId && id in before.transactions
    ensures var after := Add(before, t, [e]);
            && id in after.transactions && after.transactions[id] == before.transactions[id]
            && EntriesOf(after.entries, id) == EntriesOf(before.entries, id)
  {
    hide EntriesOf;
    EntriesOfAppend(before.entries, [e], id);
    NothingOf([e], id);
  }

  lemma {:induction false} AddedLast(before: State, t: Transaction, e: Entry)
    requires e.transaction == before.nextId && !Mentions(before.entries, before.nextId)
    ensures var after := Add(before, t, [e]);
            && before.nextId in after.transactions && after.transactions[before.nextId] == t
            && EntriesOf(after.entries, before.nextId) == [e]
  {
    hide EntriesOf, Mentions;
    EntriesOfAppend(before.entries, [e], before.nextId);
    AllEntriesOf([e], before.nextId);
    NoEntriesOf(before.entries, before.nextId);
  }

  lemma {:induction false} NothingOf(entries: seq<Entry>, id: nat)
    requires forall i :: 0 <= i < |entries| ==> entries[i].transaction != id
    ensures EntriesOf(entries, id) == []
  {
    NoEntriesOf(entries, id);
  }

  lemma {:induction false} ImportIds(st: State, owner: nat, account: Account, rows: seq<(int, real, Kind)>)
    requires forall id: nat | id >= st.nextId :: !Mentions(st.entries, id)
    ensures var after := CreateAll(st, owner, account, rows);
            after.nextId == st.nextId + |rows| && forall id: nat | id >= after.nextId :: !Mentions(after.entries, id)
  {
    if rows != [] {
      var n := |rows| - 1;
      ImportIds(st, owner, account, rows[..n]);
      var before := CreateAll(st, owner, account, rows[..n]);
      var e := Entry(before.nextId, account, rows[n].1, Only);
      forall id: nat | id >= before.nextId + 1
        ensures !Mentions(before.entries + [e], id)
      {
        MentionsAppend(before.entries, [e], id);
      }
    }
  }
}

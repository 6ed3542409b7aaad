/**
 * The expense tracker's ledger: the two tables, their auto-increment
 * counters and the currently selected account, with one method per action of
 * the tracker window. Each method does what the window's handler does to the
 * store; widgets, dialogs and the connection to the store are not modelled.
 */
module Tracker {
  import opened Outcomes
  import opened Combo
  import opened Tables
  import opened Receipts

  /** Why an action was refused or did nothing. */
  datatype Error =
    | BlankName          // "Account name cannot be empty."
    | NoAccountSelected  // "No account selected" / "Please select an account first!"
    | NoExpenseSelected  // "Select an expense to delete."
    | NoEntrySelected    // the account chooser has no selected item
    | MalformedEntry     // the chosen entry's id does not parse (NumberFormatException)
    | NotConfirmed       // the user answered "No" to the deletion prompt

  class Ledger {
    var accounts: seq<Account>
    var expenses: seq<Expense>
    /** The next id `AUTOINCREMENT` hands out in each table. */
    var nextAccountId: int
    var nextExpenseId: int
    /** The selected account, 0 when none is selected. */
    var currentAccountId: int

    ghost predicate Valid()
      reads this
    {
      WellFormed(accounts, expenses, nextAccountId, nextExpenseId)
    }

    /**
     * Every expense belongs to an existing account and the selection is empty
     * or an existing account. The store does not enforce this; the window's
     * actions keep it.
     */
    ghost predicate Consistent()
      reads this
    {
      Integrity(accounts, expenses) && (currentAccountId == 0 || currentAccountId in Ids(accounts))
    }

    /** A freshly created store: both tables empty, nothing selected. */
    constructor ()
      ensures Valid() && Consistent()
      ensures accounts == [] && expenses == [] && currentAccountId == 0
      ensures nextAccountId == 1 && nextExpenseId == 1
    {
      accounts, expenses := [], [];
      nextAccountId, nextExpenseId := 1, 1;
      currentAccountId := 0;
    }

    /** `refreshAccounts`: the chooser's entries, one per account in storage order. */
    method RefreshAccounts() returns (entries: seq<string>)
      requires Valid()
      ensures entries == ComboItems(accounts)
      ensures forall i :: 0 <= i < |accounts| && accounts[i].id <= IntMax ==> EntryId(entries[i]) == Some(accounts[i].id)
    {
      entries := [];
      var i := 0;
      while i < |accounts|
        invariant 0 <= i <= |accounts|
        invariant entries == ComboItems(accounts[..i])
      {
        entries := entries + [FormatEntry(accounts[i].id, accounts[i].name)];
        i := i + 1;
      }
      assert accounts[..i] == accounts;
      forall i | 0 <= i < |accounts| && accounts[i].id <= IntMax
        ensures EntryId(entries[i]) == Some(accounts[i].id)
      {
        assert accounts[i] in accounts;
        ChoosingListedEntry(accounts, i);
      }
    }

    /** `selectAccount`: select the account whose entry was chosen and show its expenses. */
    method SelectAccount(selected: Option<string>) returns (r: Result<Listing, Error>)
      requires Valid()
      modifies this`currentAccountId
      ensures Valid()
      ensures selected.None? ==> r == Err(NoEntrySelected) && currentAccountId == old(currentAccountId)
      ensures selected.Some? && EntryId(selected.value).None? ==>
        r == Err(MalformedEntry) && currentAccountId == old(currentAccountId)
      ensures selected.Some? && EntryId(selected.value).Some? ==>
        currentAccountId == EntryId(selected.value).value &&
        r == Ok(Listing(RowsOf(expenses, currentAccountId), Sum(RowsOf(expenses, currentAccountId))))
      ensures forall i :: 0 <= i < |accounts| && accounts[i].id <= IntMax && selected == Some(ComboItems(accounts)[i]) ==>
        currentAccountId == accounts[i].id
      ensures (old(Consistent()) && (forall a :: a in accounts ==> a.id <= IntMax) &&
        selected.Some? && selected.value in ComboItems(accounts)) ==> Consistent()
    {
      if selected.None? {
        return Err(NoEntrySelected);
      }
      forall i | 0 <= i < |accounts| && accounts[i].id <= IntMax && selected == Some(ComboItems(accounts)[i])
        ensures EntryId(selected.value) == Some(accounts[i].id)
      {
        ChoosingListedEntry(accounts, i);
      }
      if (forall a :: a in accounts ==> a.id <= IntMax) && selected.value in ComboItems(accounts) {
        var i :| 0 <= i < |accounts| && ComboItems(accounts)[i] == selected.value;
        assert accounts[i] in accounts;
        assert EntryId(selected.value) == Some(accounts[i].id);
      }
      var id := EntryId(selected.value);
      if id.None? {
        return Err(MalformedEntry);
      }
      currentAccountId := id.value;
      var listing := RefreshExpenses();
      r := Ok(listing);
    }

    /** `addAccount`: insert an account with a fresh id, refusing a blank name. */
    method AddAccount(name: string) returns (r: Result<int, Error>)
      requires Valid()
      modifies this`accounts, this`nextAccountId
      ensures Valid()
      ensures IsBlank(name) ==> r == Err(BlankName) && accounts == old(accounts) && nextAccountId == old(nextAccountId)
      ensures !IsBlank(name) ==>
        && r == Ok(old(nextAccountId))
        && accounts == old(accounts) + [Account(r.value, name)]
        && nextAccountId == old(nextAccountId) + 1
      ensures r.Ok? ==> r.value !in Ids(old(accounts)) && forall a :: a in old(accounts) ==> a.id < r.value
      ensures old(Consistent()) ==> Consistent()
    {
      if IsBlank(name) {
        return Err(BlankName);
      }
      InsertAccountKeepsWellFormed(accounts, expenses, nextAccountId, nextExpenseId, name);
      accounts := accounts + [Account(nextAccountId, name)];
      r := Ok(nextAccountId);
      nextAccountId := nextAccountId + 1;
    }

    /** `deleteAccountAction`: delete the account whose entry is chosen, once the user confirms. */
    method DeleteAccountAction(selected: Option<string>, confirmed: bool) returns (r: Result<int, Error>)
      requires Valid()
      modifies this`accounts, this`expenses, this`currentAccountId
      ensures Valid()
      ensures selected.None? ==> r == Err(NoEntrySelected)
      ensures selected.Some? && EntryId(selected.value).None? ==> r == Err(MalformedEntry)
      ensures selected.Some? && EntryId(selected.value).Some? && !confirmed ==> r == Err(NotConfirmed)
      ensures r.Err? ==> unchanged(this)
      ensures selected.Some? && EntryId(selected.value).Some? && confirmed ==>
        && r == Ok(EntryId(selected.value).value)
        && accounts == WithoutAccount(old(accounts), r.value)
        && expenses == WithoutExpensesOf(old(expenses), r.value)
        && currentAccountId == 0
      ensures old(Consistent()) ==> Consistent()
    {
      if selected.None? {
        return Err(NoEntrySelected);
      }
      var id := EntryId(selected.value);
      if id.None? {
        return Err(MalformedEntry);
      }
      if !confirmed {
        return Err(NotConfirmed);
      }
      DeleteAccount(id.value);
      r := Ok(id.value);
    }

    /**
     * `deleteAccount`: delete the account's expenses, then the account, then
     * clear the selection (whichever account was selected).
     */
    method DeleteAccount(id: int)
      requires Valid()
      modifies this`accounts, this`expenses, this`currentAccountId
      ensures Valid()
      ensures accounts == WithoutAccount(old(accounts), id)
      ensures expenses == WithoutExpensesOf(old(expenses), id)
      ensures currentAccountId == 0
      ensures id !in Ids(accounts) && ExpensesOf(expenses, id) == []
      ensures forall e :: e in expenses <==> e in old(expenses) && e.accountId != id
      ensures forall a :: a in accounts <==> a in old(accounts) && a.id != id
      ensures old(Consistent()) ==> Consistent()
    {
      CascadeKeepsWellFormed(accounts, expenses, nextAccountId, nextExpenseId, id);
      CascadeRemovesDependents(expenses, id);
      AccountRemoval(accounts, id);
      if Integrity(accounts, expenses) {
        CascadeKeepsIntegrity(accounts, expenses, id);
      }
      expenses := WithoutExpensesOf(expenses, id);
      accounts := WithoutAccount(accounts, id);
      currentAccountId := 0;
    }

    /** `addExpenseAction`: add an expense to the selected account and show the account's expenses again. */
    method AddExpenseAction(date: string, description: string, amount: int) returns (r: Result<Listing, Error>)
      requires Valid()
      modifies this`expenses, this`nextExpenseId
      ensures Valid()
      ensures currentAccountId == 0 ==> r == Err(NoAccountSelected) && unchanged(this)
      ensures currentAccountId != 0 ==>
        && expenses == old(expenses) + [Expense(old(nextExpenseId), currentAccountId, date, description, amount)]
        && nextExpenseId == old(nextExpenseId) + 1
        && r.Ok? && r.value.rows == RowsOf(expenses, currentAccountId)
        && r.value.total == Sum(RowsOf(old(expenses), currentAccountId)) + amount
      ensures old(Consistent()) ==> Consistent()
    {
      ghost var e := Expense(nextExpenseId, currentAccountId, date, description, amount);
      InsertTotal(expenses, e, currentAccountId);
      var added := AddExpense(currentAccountId, date, description, amount);
      if added.Err? {
        return Err(added.error);
      }
      var listing := RefreshExpenses();
      r := Ok(listing);
    }

    /**
     * `addExpense`: append an expense for `accountId`, refusing the "no
     * account" sentinel 0. Whether the account exists is not checked.
     */
    method AddExpense(accountId: int, date: string, description: string, amount: int) returns (r: Result<int, Error>)
      requires Valid()
      modifies this`expenses, this`nextExpenseId
      ensures Valid()
      ensures accountId == 0 ==> r == Err(NoAccountSelected) && unchanged(this)
      ensures accountId != 0 ==>
        && r == Ok(old(nextExpenseId))
        && expenses == old(expenses) + [Expense(r.value, accountId, date, description, amount)]
        && nextExpenseId == old(nextExpenseId) + 1
      ensures r.Ok? ==> forall e :: e in old(expenses) ==> e.id < r.value
      ensures old(Consistent()) && (accountId == 0 || accountId in Ids(accounts)) ==> Consistent()
    {
      if accountId == 0 {
        return Err(NoAccountSelected);
      }
      var e := Expense(nextExpenseId, accountId, date, description, amount);
      InsertExpenseKeepsWellFormed(accounts, expenses, nextAccountId, nextExpenseId, e);
      expenses := expenses + [e];
      nextExpenseId := nextExpenseId + 1;
      r := Ok(e.id);
    }

    /** `refreshExpenses`: the selected account's expenses in storage order and their total. */
    method RefreshExpenses() returns (listing: Listing)
      requires Valid()
      ensures listing.rows == RowsOf(expenses, currentAccountId)
      ensures listing.total == Sum(listing.rows)
      ensures currentAccountId == 0 ==> listing == Listing([], 0)
    {
      var rows: seq<Row> := [];
      var total := 0;
      var i := 0;
      while i < |expenses|
        invariant 0 <= i <= |expenses|
        invariant rows == RowsOf(expenses[..i], currentAccountId)
        invariant total == Sum(rows)
      {
        var e := expenses[i];
        RowsOfStep(expenses, i, currentAccountId);
        if e.accountId == currentAccountId {
          SumAppend(rows, [Project(e)]);
          rows := rows + [Project(e)];
          total := total + e.amount;
        }
        i := i + 1;
      }
      assert expenses[..i] == expenses;
      listing := Listing(rows, total);
      if currentAccountId == 0 {
        UnselectedMatchesNothing(expenses, Row("", "", 0));
      }
    }

    /**
     * `deleteSelectedExpense`: delete every expense of the selected account
     * whose date, description and amount equal the chosen row's, then show the
     * account's expenses again.
     */
    method DeleteSelectedExpense(selected: Option<Row>) returns (r: Result<Listing, Error>)
      requires Valid()
      modifies this`expenses
      ensures Valid()
      ensures selected.None? ==> r == Err(NoExpenseSelected) && expenses == old(expenses)
      ensures selected.Some? ==>
        && expenses == WithoutMatches(old(expenses), currentAccountId, selected.value)
        && r == Ok(Listing(RowsOf(expenses, currentAccountId), Sum(RowsOf(expenses, currentAccountId))))
      ensures selected.Some? ==> forall e :: e in expenses <==> e in old(expenses) && !Matches(e, currentAccountId, selected.value)
      ensures old(Consistent()) ==> Consistent()
    {
      if selected.None? {
        return Err(NoExpenseSelected);
      }
      DeleteMatchesKeepsWellFormed(accounts, expenses, nextAccountId, nextExpenseId, currentAccountId, selected.value);
      DeleteMatchesRemovesExactly(expenses, currentAccountId, selected.value);
      expenses := WithoutMatches(expenses, currentAccountId, selected.value);
      var listing := RefreshExpenses();
      r := Ok(listing);
    }

    /**
     * `generateReceipt`: nothing when no account is selected; otherwise the
     * account's name ("Unknown" when it has no row), one line per expense and
     * the total.
     */
    method GenerateReceipt() returns (r: Result<seq<Line>, Error>)
      requires Valid()
      ensures currentAccountId == 0 ==> r == Err(NoAccountSelected)
      ensures currentAccountId != 0 ==>
        r == Ok(Receipt(ReceiptName(accounts, currentAccountId), RowsOf(expenses, currentAccountId)))
      ensures r.Ok? && currentAccountId !in Ids(accounts) ==> r.value[1] == AccountLine("Unknown")
      ensures r.Ok? ==> forall a :: a in accounts && a.id == currentAccountId ==> r.value[1] == AccountLine(a.name)
    {
      if currentAccountId == 0 {
        return Err(NoAccountSelected);
      }
      var name := ReceiptName(accounts, currentAccountId);
      var cur := currentAccountId;
      var items: seq<Line> := [];
      var total := 0;
      var i := 0;
      while i < |expenses|
        invariant 0 <= i <= |expenses|
        invariant items == Items(RowsOf(expenses[..i], cur))
        invariant total == Sum(RowsOf(expenses[..i], cur))
      {
        var e := expenses[i];
        RowsOfStep(expenses, i, cur);
        if e.accountId == cur {
          SumAppend(RowsOf(expenses[..i], cur), [Project(e)]);
          assert Sum([Project(e)]) == e.amount;
          ItemsAppend(RowsOf(expenses[..i], cur), Project(e));
          items := items + [Item(Project(e))];
          total := total + e.amount;
        }
        i := i + 1;
      }
      assert expenses[..i] == expenses;
      r := Ok(Header(name) + items + [Rule, TotalLine(total)]);
      ReceiptNameOfMembers(accounts, cur);
    }
  }
}

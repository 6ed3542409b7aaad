/**
 * The two tables of the store, `accounts(id, name)` and
 * `expenses(id, account_id, date, description, amount)`, as sequences of
 * records in storage order, with the queries and deletions the tracker runs on
 * them and the facts those queries and deletions guarantee.
 */
module Tables {
  import opened Outcomes
  import opened Filtering
  import opened Combo

  /** A row of `accounts`. */
  datatype Account = Account(id: int, name: string)

  /** A row of `expenses`; `amount` is in cents. */
  datatype Expense = Expense(id: int, accountId: int, date: string, description: string, amount: int)

  /** The three columns the expense queries select: `date, description, amount`. */
  datatype Row = Row(date: string, description: string, amount: int)

  /** What refreshing the expense view shows: the selected account's rows and their total. */
  datatype Listing = Listing(rows: seq<Row>, total: int)

  function AccountKey(a: Account): int { a.id }

  function ExpenseKey(e: Expense): int { e.id }

  /** The ids present in `accounts`. */
  function Ids(accounts: seq<Account>): set<int>
  {
    set a | a in accounts :: a.id
  }

  /**
   * What holds of every reachable store: the auto-increment counters keep ids
   * positive, below the next id to hand out and increasing in storage order;
   * and no expense belongs to the "no account" sentinel 0, which the store
   * itself does not enforce but the guard of `addExpense` does.
   */
  predicate WellFormed(accounts: seq<Account>, expenses: seq<Expense>, nextAccountId: int, nextExpenseId: int)
  {
    && 1 <= nextAccountId && 1 <= nextExpenseId
    && (forall a :: a in accounts ==> 1 <= a.id < nextAccountId)
    && Ascending(accounts, AccountKey)
    && (forall e :: e in expenses ==> 1 <= e.id < nextExpenseId && e.accountId != 0)
    && Ascending(expenses, ExpenseKey)
  }

  /** Referential integrity: every expense belongs to an account that exists. */
  predicate Integrity(accounts: seq<Account>, expenses: seq<Expense>)
  {
    forall e :: e in expenses ==> e.accountId in Ids(accounts)
  }

  /** `SELECT ... FROM expenses WHERE account_id = accountId`. */
  function ExpensesOf(expenses: seq<Expense>, accountId: int): seq<Expense>
  {
    Filter(expenses, (e: Expense) => e.accountId == accountId)
  }

  /** What `DELETE FROM expenses WHERE account_id = accountId` leaves. */
  function WithoutExpensesOf(expenses: seq<Expense>, accountId: int): seq<Expense>
  {
    Filter(expenses, (e: Expense) => e.accountId != accountId)
  }

  /** What `DELETE FROM accounts WHERE id = id` leaves. */
  function WithoutAccount(accounts: seq<Account>, id: int): seq<Account>
  {
    Filter(accounts, (a: Account) => a.id != id)
  }

  /** The four-column condition of the expense deletion. */
  predicate Matches(e: Expense, accountId: int, row: Row)
  {
    e.accountId == accountId && e.date == row.date && e.description == row.description && e.amount == row.amount
  }

  /** The rows `DELETE FROM expenses WHERE account_id=? AND date=? AND description=? AND amount=?` removes. */
  function MatchesOf(expenses: seq<Expense>, accountId: int, row: Row): seq<Expense>
  {
    Filter(expenses, (e: Expense) => Matches(e, accountId, row))
  }

  /** What that deletion leaves. */
  function WithoutMatches(expenses: seq<Expense>, accountId: int, row: Row): seq<Expense>
  {
    Filter(expenses, (e: Expense) => !Matches(e, accountId, row))
  }

  function Project(e: Expense): Row
  {
    Row(e.date, e.description, e.amount)
  }

  function Rows(expenses: seq<Expense>): seq<Row>
  {
    seq(|expenses|, i requires 0 <= i < |expenses| => Project(expenses[i]))
  }

  /** The rows the expense query returns for an account, in storage order. */
  function RowsOf(expenses: seq<Expense>, accountId: int): seq<Row>
  {
    Rows(ExpensesOf(expenses, accountId))
  }

  /** The exact sum of the amounts, accumulated from the first row to the last. */
  function Sum(rows: seq<Row>): int
  {
    if |rows| == 0 then 0 else Sum(rows[..|rows| - 1]) + rows[|rows| - 1].amount
  }

  /** `SELECT name FROM accounts WHERE id = id`: the first matching row's name, if any. */
  function AccountName(accounts: seq<Account>, id: int): (r: Option<string>)
    ensures r.None? <==> id !in Ids(accounts)
    ensures r.Some? ==> Account(id, r.value) in accounts
  {
    if |accounts| == 0 then None
    else if accounts[0].id == id then Some(accounts[0].name)
    else
      assert Ids(accounts) == {accounts[0].id} + Ids(accounts[1..]) by {
        assert accounts == [accounts[0]] + accounts[1..];
      }
      AccountName(accounts[1..], id)
  }

  /** The name a receipt shows: the account's, or "Unknown" when no account has the id. */
  function ReceiptName(accounts: seq<Account>, id: int): string
  {
    match AccountName(accounts, id)
    case Some(name) => name
    case None => "Unknown"
  }

  /** The entries of the account chooser, one per account in storage order. */
  function ComboItems(accounts: seq<Account>): seq<string>
  {
    seq(|accounts|, i requires 0 <= i < |accounts| => FormatEntry(accounts[i].id, accounts[i].name))
  }

  /** Java's `Character.isWhitespace` on a code point. */
  predicate IsWhitespace(c: char)
  {
    var n := c as int;
    || 0x09 <= n <= 0x0D || 0x1C <= n <= 0x20
    || n == 0x1680 || 0x2000 <= n <= 0x2006 || 0x2008 <= n <= 0x200A
    || n == 0x2028 || n == 0x2029 || n == 0x205F || n == 0x3000
  }

  /** Java's `String.isBlank`: empty, or white space only. */
  predicate IsBlank(s: string)
  {
    forall i :: 0 <= i < |s| ==> IsWhitespace(s[i])
  }

  // ---------------------------------------------------------------- listings and totals

  /** Appending an expense extends an account's listing by its row exactly when it belongs to the account. */
  lemma RowsOfAppend(expenses: seq<Expense>, e: Expense, accountId: int)
    ensures e.accountId == accountId ==> RowsOf(expenses + [e], accountId) == RowsOf(expenses, accountId) + [Project(e)]
    ensures e.accountId != accountId ==> RowsOf(expenses + [e], accountId) == RowsOf(expenses, accountId)
  {
    FilterAppendOne(expenses, e, (x: Expense) => x.accountId == accountId);
    var f := ExpensesOf(expenses, accountId);
    if e.accountId == accountId {
      assert Rows(f + [e]) == Rows(f) + [Project(e)];
    } else {
      assert f + [] == f;
    }
  }

  /** One more scanned row extends the listing by that row exactly when it belongs to the account. */
  lemma RowsOfStep(expenses: seq<Expense>, i: int, accountId: int)
    requires 0 <= i < |expenses|
    ensures expenses[i].accountId == accountId ==>
      RowsOf(expenses[..i + 1], accountId) == RowsOf(expenses[..i], accountId) + [Project(expenses[i])]
    ensures expenses[i].accountId != accountId ==>
      RowsOf(expenses[..i + 1], accountId) == RowsOf(expenses[..i], accountId)
  {
    assert expenses[..i + 1] == expenses[..i] + [expenses[i]];
    RowsOfAppend(expenses[..i], expenses[i], accountId);
  }

  /** Totals add up over concatenation. */
  lemma {:induction false} SumAppend(a: seq<Row>, b: seq<Row>)
    ensures Sum(a + b) == Sum(a) + Sum(b)
  {
    if |b| > 0 {
      var n := |b| - 1;
      var ab := a + b;
      assert ab[..|ab| - 1] == a + b[..n];
      assert ab[|ab| - 1] == b[n];
      SumAppend(a, b[..n]);
      assert Sum(ab) == Sum(a + b[..n]) + b[n].amount;
    } else {
      assert a + b == a;
    }
  }

  /** A listing holds one row per expense of the account, carrying its date, description and amount, in storage order. */
  lemma ListingRows(expenses: seq<Expense>, accountId: int)
    ensures |RowsOf(expenses, accountId)| == |ExpensesOf(expenses, accountId)|
    ensures forall e :: e in ExpensesOf(expenses, accountId) <==> e in expenses && e.accountId == accountId
    ensures forall i :: 0 <= i < |RowsOf(expenses, accountId)| ==>
      RowsOf(expenses, accountId)[i] == Project(ExpensesOf(expenses, accountId)[i])
  {
    FilterMembers(expenses, (e: Expense) => e.accountId == accountId);
  }

  /** Inserting an expense adds its amount to its own account's total and leaves every other account's total alone. */
  lemma InsertTotal(expenses: seq<Expense>, e: Expense, accountId: int)
    ensures Sum(RowsOf(expenses + [e], accountId))
         == Sum(RowsOf(expenses, accountId)) + (if e.accountId == accountId then e.amount else 0)
  {
    RowsOfAppend(expenses, e, accountId);
    if e.accountId == accountId {
      SumAppend(RowsOf(expenses, accountId), [Project(e)]);
      assert Sum([Project(e)]) == e.amount;
    }
  }

  /** The grand total grows by the amount of an appended expense. */
  lemma GrandTotalAppend(expenses: seq<Expense>, e: Expense)
    ensures Sum(Rows(expenses + [e])) == Sum(Rows(expenses)) + e.amount
  {
    assert Rows(expenses + [e]) == Rows(expenses) + [Project(e)];
    SumAppend(Rows(expenses), [Project(e)]);
  }

  /** The grand total splits into one account's total and the total of everything else. */
  lemma {:induction false} TotalSplit(expenses: seq<Expense>, accountId: int)
    ensures Sum(Rows(expenses)) == Sum(RowsOf(expenses, accountId)) + Sum(Rows(WithoutExpensesOf(expenses, accountId)))
  {
    if |expenses| > 0 {
      var n := |expenses| - 1;
      var e := expenses[n];
      var prefix := expenses[..n];
      var kept := WithoutExpensesOf(prefix, accountId);
      TotalSplit(prefix, accountId);
      assert expenses == prefix + [e];
      GrandTotalAppend(prefix, e);
      InsertTotal(prefix, e, accountId);
      if e.accountId == accountId {
        assert WithoutExpensesOf(expenses, accountId) == kept;
      } else {
        assert WithoutExpensesOf(expenses, accountId) == kept + [e];
        GrandTotalAppend(kept, e);
      }
    }
  }

  // ---------------------------------------------------------------- what each change keeps

  /** Appending an account with the next id keeps the store well formed, and the id is one no account had. */
  lemma InsertAccountKeepsWellFormed(accounts: seq<Account>, expenses: seq<Expense>, nextAccountId: int, nextExpenseId: int, name: string)
    requires WellFormed(accounts, expenses, nextAccountId, nextExpenseId)
    ensures WellFormed(accounts + [Account(nextAccountId, name)], expenses, nextAccountId + 1, nextExpenseId)
    ensures nextAccountId !in Ids(accounts)
    ensures Ids(accounts + [Account(nextAccountId, name)]) == Ids(accounts) + {nextAccountId}
  {
    var a := Account(nextAccountId, name);
    var s := accounts + [a];
    forall i, j | 0 <= i < j < |s| ensures AccountKey(s[i]) < AccountKey(s[j]) {
      if j == |accounts| {
        assert s[i] in accounts;
      }
    }
  }

  /** Appending an expense with the next id for a non-zero account keeps the store well formed. */
  lemma InsertExpenseKeepsWellFormed(accounts: seq<Account>, expenses: seq<Expense>, nextAccountId: int, nextExpenseId: int, e: Expense)
    requires WellFormed(accounts, expenses, nextAccountId, nextExpenseId)
    requires e.id == nextExpenseId && e.accountId != 0
    ensures WellFormed(accounts, expenses + [e], nextAccountId, nextExpenseId + 1)
  {
    var s := expenses + [e];
    forall i, j | 0 <= i < j < |s| ensures ExpenseKey(s[i]) < ExpenseKey(s[j]) {
      if j == |expenses| {
        assert s[i] in expenses;
      }
    }
  }

  /** The cascade keeps the store well formed. */
  lemma CascadeKeepsWellFormed(accounts: seq<Account>, expenses: seq<Expense>, nextAccountId: int, nextExpenseId: int, id: int)
    requires WellFormed(accounts, expenses, nextAccountId, nextExpenseId)
    ensures WellFormed(WithoutAccount(accounts, id), WithoutExpensesOf(expenses, id), nextAccountId, nextExpenseId)
  {
    FilterAscending(expenses, (e: Expense) => e.accountId != id, ExpenseKey);
    FilterAscending(accounts, (a: Account) => a.id != id, AccountKey);
  }

  /** The value-matched deletion keeps the store well formed and referential integrity. */
  lemma DeleteMatchesKeepsWellFormed(accounts: seq<Account>, expenses: seq<Expense>, nextAccountId: int, nextExpenseId: int, accountId: int, row: Row)
    requires WellFormed(accounts, expenses, nextAccountId, nextExpenseId)
    ensures WellFormed(accounts, WithoutMatches(expenses, accountId, row), nextAccountId, nextExpenseId)
    ensures Integrity(accounts, expenses) ==> Integrity(accounts, WithoutMatches(expenses, accountId, row))
  {
    FilterAscending(expenses, (e: Expense) => !Matches(e, accountId, row), ExpenseKey);
  }

  // ---------------------------------------------------------------- deleting an account

  /** The cascade removes exactly the account's expenses: none of them is left and every other expense stays. */
  lemma CascadeRemovesDependents(expenses: seq<Expense>, id: int)
    ensures forall e :: e in WithoutExpensesOf(expenses, id) <==> e in expenses && e.accountId != id
    ensures ExpensesOf(WithoutExpensesOf(expenses, id), id) == []
    ensures RowsOf(WithoutExpensesOf(expenses, id), id) == [] && Sum(RowsOf(WithoutExpensesOf(expenses, id), id)) == 0
  {
    FilterMembers(expenses, (e: Expense) => e.accountId != id);
    FilterNone(WithoutExpensesOf(expenses, id), (e: Expense) => e.accountId == id);
  }

  /** The cascade leaves every other account's listing exactly as it was, order included. */
  lemma CascadeKeepsOtherListings(expenses: seq<Expense>, id: int, other: int)
    requires other != id
    ensures ExpensesOf(WithoutExpensesOf(expenses, id), other) == ExpensesOf(expenses, other)
  {
    FilterNarrower(expenses, (e: Expense) => e.accountId != id, (e: Expense) => e.accountId == other);
  }

  /** Deleting an account removes exactly that id from the accounts. */
  lemma AccountRemoval(accounts: seq<Account>, id: int)
    ensures forall a :: a in WithoutAccount(accounts, id) <==> a in accounts && a.id != id
    ensures Ids(WithoutAccount(accounts, id)) == Ids(accounts) - {id}
  {
    FilterMembers(accounts, (a: Account) => a.id != id);
  }

  /** Deleting an id no account has changes neither table, as long as no expense refers to it. */
  lemma DeleteMissingAccount(accounts: seq<Account>, expenses: seq<Expense>, id: int)
    requires Integrity(accounts, expenses)
    requires id !in Ids(accounts)
    ensures WithoutAccount(accounts, id) == accounts
    ensures WithoutExpensesOf(expenses, id) == expenses
  {
    FilterAll(accounts, (a: Account) => a.id != id);
    FilterAll(expenses, (e: Expense) => e.accountId != id);
  }

  /** The cascade keeps every remaining expense attached to an existing account. */
  lemma CascadeKeepsIntegrity(accounts: seq<Account>, expenses: seq<Expense>, id: int)
    requires Integrity(accounts, expenses)
    ensures Integrity(WithoutAccount(accounts, id), WithoutExpensesOf(expenses, id))
  {
    CascadeRemovesDependents(expenses, id);
    AccountRemoval(accounts, id);
  }

  /** Deleting an account lowers the grand total by exactly that account's total. */
  lemma CascadeTotal(expenses: seq<Expense>, id: int)
    ensures Sum(Rows(WithoutExpensesOf(expenses, id))) == Sum(Rows(expenses)) - Sum(RowsOf(expenses, id))
  {
    TotalSplit(expenses, id);
  }

  // ---------------------------------------------------------------- deleting expenses by value

  /**
   * The value-matched deletion removes every matching row, however many there
   * are, and keeps every other row; the rows removed and the rows left add up
   * to the table.
   */
  lemma DeleteMatchesRemovesExactly(expenses: seq<Expense>, accountId: int, row: Row)
    ensures forall e :: e in WithoutMatches(expenses, accountId, row) <==> e in expenses && !Matches(e, accountId, row)
    ensures forall e :: e in MatchesOf(expenses, accountId, row) <==> e in expenses && Matches(e, accountId, row)
    ensures |WithoutMatches(expenses, accountId, row)| + |MatchesOf(expenses, accountId, row)| == |expenses|
  {
    FilterMembers(expenses, (e: Expense) => !Matches(e, accountId, row));
    FilterMembers(expenses, (e: Expense) => Matches(e, accountId, row));
    FilterSplit(expenses, (e: Expense) => Matches(e, accountId, row), (e: Expense) => !Matches(e, accountId, row));
  }

  /** The value-matched deletion leaves the listings of other accounts exactly as they were. */
  lemma DeleteMatchesKeepsOtherListings(expenses: seq<Expense>, accountId: int, row: Row, other: int)
    requires other != accountId
    ensures ExpensesOf(WithoutMatches(expenses, accountId, row), other) == ExpensesOf(expenses, other)
  {
    FilterNarrower(expenses, (e: Expense) => !Matches(e, accountId, row), (e: Expense) => e.accountId == other);
  }

  /** The selected account's total drops by the amount once for every row removed. */
  lemma {:induction false} DeleteMatchesTotal(expenses: seq<Expense>, accountId: int, row: Row)
    ensures Sum(RowsOf(WithoutMatches(expenses, accountId, row), accountId))
         == Sum(RowsOf(expenses, accountId)) - |MatchesOf(expenses, accountId, row)| * row.amount
  {
    if |expenses| > 0 {
      var n := |expenses| - 1;
      DeleteMatchesTotal(expenses[..n], accountId, row);
      assert expenses == expenses[..n] + [expenses[n]];
      DeleteMatchesTotalStep(expenses[..n], expenses[n], accountId, row);
    }
  }

  /** One more copy of `x` in a product (kept apart so the step below stays linear). */
  lemma MulStep(k: int, x: int)
    ensures (k + 1) * x == k * x + x
  {
  }

  /** The inductive step of DeleteMatchesTotal: one more row at the end of the table. */
  lemma DeleteMatchesTotalStep(prefix: seq<Expense>, e: Expense, accountId: int, row: Row)
    requires Sum(RowsOf(WithoutMatches(prefix, accountId, row), accountId))
          == Sum(RowsOf(prefix, accountId)) - |MatchesOf(prefix, accountId, row)| * row.amount
    ensures Sum(RowsOf(WithoutMatches(prefix + [e], accountId, row), accountId))
         == Sum(RowsOf(prefix + [e], accountId)) - |MatchesOf(prefix + [e], accountId, row)| * row.amount
  {
    var kept := WithoutMatches(prefix, accountId, row);
    var k := |MatchesOf(prefix, accountId, row)|;
    InsertTotal(prefix, e, accountId);
    FilterAppendOne(prefix, e, (e: Expense) => !Matches(e, accountId, row));
    FilterAppendOne(prefix, e, (e: Expense) => Matches(e, accountId, row));
    if Matches(e, accountId, row) {
      assert WithoutMatches(prefix + [e], accountId, row) == kept;
      assert |MatchesOf(prefix + [e], accountId, row)| == k + 1;
      assert Sum(RowsOf(prefix + [e], accountId)) == Sum(RowsOf(prefix, accountId)) + row.amount;
      MulStep(k, row.amount);
    } else {
      assert WithoutMatches(prefix + [e], accountId, row) == kept + [e];
      assert |MatchesOf(prefix + [e], accountId, row)| == k;
      InsertTotal(kept, e, accountId);
    }
  }

  /** With no account selected (id 0) nothing is listed and the value-matched deletion removes nothing. */
  lemma UnselectedMatchesNothing(expenses: seq<Expense>, row: Row)
    requires forall e :: e in expenses ==> e.accountId != 0
    ensures RowsOf(expenses, 0) == []
    ensures WithoutMatches(expenses, 0, row) == expenses
  {
    FilterAll(expenses, (e: Expense) => !Matches(e, 0, row));
    FilterNone(expenses, (e: Expense) => e.accountId == 0);
  }

  // ---------------------------------------------------------------- the account chooser and the account name

  /** Choosing the entry listed for an account selects that account's id. */
  lemma ChoosingListedEntry(accounts: seq<Account>, i: int)
    requires 0 <= i < |accounts|
    requires IntMin <= accounts[i].id <= IntMax
    ensures EntryId(ComboItems(accounts)[i]) == Some(accounts[i].id)
  {
    EntryRoundTrip(accounts[i].id, accounts[i].name);
  }

  /** With unique ids, the name lookup finds the one account that has the id. */
  lemma AccountNameOf(accounts: seq<Account>, i: int)
    requires Ascending(accounts, AccountKey)
    requires 0 <= i < |accounts|
    ensures AccountName(accounts, accounts[i].id) == Some(accounts[i].name)
    ensures ReceiptName(accounts, accounts[i].id) == accounts[i].name
  {
    var r := AccountName(accounts, accounts[i].id);
    assert accounts[i] in accounts;
    var j :| 0 <= j < |accounts| && accounts[j] == Account(accounts[i].id, r.value);
    assert j == i;
  }

  /** With unique ids, every account that has the id gives the receipt its name. */
  lemma ReceiptNameOfMembers(accounts: seq<Account>, id: int)
    requires Ascending(accounts, AccountKey)
    ensures forall a :: a in accounts && a.id == id ==> ReceiptName(accounts, id) == a.name
  {
    forall a | a in accounts && a.id == id
      ensures ReceiptName(accounts, id) == a.name
    {
      var k :| 0 <= k < |accounts| && accounts[k] == a;
      AccountNameOf(accounts, k);
    }
  }
}

# Expense tracker ledger, modelled in Dafny

This project models the ledger inside `ExpenseTracker.java`, a Swing window that tracks expenses under named accounts in an SQLite file. The store has two tables, created at lines 76-77:
- `accounts(id, name)`;
- `expenses(id, account_id, date, description, amount)`.

Both use `AUTOINCREMENT` ids. The window holds `currentAccountId`, where 0 means no account is selected. Each button handler runs SQL statements against the store. The model keeps each table as a sequence of records in storage order. A class, `Tracker.Ledger`, owns the two tables, one auto-increment counter per table and the selection. Each handler becomes a method with the same branches and error cases.

Modules, one per concern:
- `Outcomes`: `Option` and `Result`.
- `Filtering`: what a `WHERE` clause keeps (`Filter`) and the facts about it: membership, order and splitting.
- `Combo`: the account chooser's entry `id + "|" + name`. The entry is parsed back with `split("\\|")[0]` and Java's `Integer.parseInt`.
- `Tables`: the records, the queries and deletions as functions, and lemmas about them (cascade, totals, value-matched deletion, invariants).
- `Receipts`: the receipt as structured lines.
- `Tracker`: the `Ledger` class, one method per handler.
- `Scenarios`: a session driven only through the methods' contracts: create "Groceries", select it, add expenses, delete a duplicated row, print the receipt.

Amounts are integer cents, so totals and the four-column equality of the expense deletion are exact.

The code has no per-account summary operation, no deletion of an expense by its id, and no check that an account exists before an expense is inserted for it. The model does what the code does:
- `addExpense` accepts any non-zero account id;
- deletion matches on the four column values;
- the receipt falls back to the name "Unknown" for an id no account has.

## Model

| member | source | states |
|---|---|---|
| `Filtering.Filter` | ExpenseTracker.java:341 | The rows a `WHERE` clause keeps: never more rows than the table, and each kept row is a row of the table that satisfies the condition |
| `Filtering.FilterMembers` | ExpenseTracker.java:301-302 | A row is in the filtered table exactly when it is in the table and satisfies the condition (both directions) |
| `Filtering.FilterAscending` | ExpenseTracker.java:366 | Deleting rows keeps the survivors in their storage (ascending id) order |
| `Filtering.AscendingDeterminedByMembers` | ExpenseTracker.java:76-77 | Two id-ordered tables with the same rows are equal, so "same rows, same order" is pinned down by membership |
| `Combo.ParseInt` | ExpenseTracker.java:270 | `Integer.parseInt`: a result exists only for an optional sign followed by at least one digit (a lone sign is refused), and it lies in the Java `int` range |
| `Combo.FirstField` | ExpenseTracker.java:270 | `split("\\|")[0]`: the longest prefix without a bar, followed in the text by a bar or by its end |
| `Combo.NatToString` | ExpenseTracker.java:260 | Java's decimal rendering of a non-negative id: at least one character, all digits, and no leading zero unless the number is 0 |
| `Combo.IntToString` | ExpenseTracker.java:260 | Java's decimal rendering of an `int` id (a minus sign, then the digits of its magnitude, when negative); never empty, it starts with a minus sign exactly when the id is negative, all other characters are digits, and it never contains a bar, so the bar after it is the entry's first |
| `Combo.DigitsRoundTrip` | ExpenseTracker.java:260 | Reading back the decimal digits of a number gives the number |
| `Combo.EntryRoundTrip` | ExpenseTracker.java:260-270 | Parsing the id out of `id + "\|" + name` returns `id` for every Java `int` id, even when the name contains bars |
| `Tables.AccountName` | ExpenseTracker.java:387-390 | The name lookup returns nothing exactly when no account has the id, and otherwise returns the name of an account with that id |
| `Tables.AccountNameOf` | ExpenseTracker.java:387-390 | With unique ids the lookup (and the receipt's name) is that account's own name |
| `Tables.ReceiptNameOfMembers` | ExpenseTracker.java:387-390 | With unique ids, any account that has the selected id supplies the receipt's name |
| `Tables.ChoosingListedEntry` | ExpenseTracker.java:293 | Choosing the chooser entry listed for an account selects that account's id |
| `Tables.RowsOfAppend` | ExpenseTracker.java:325-331 | Inserting an expense adds its row at the end of its own account's listing and leaves other listings alone |
| `Tables.RowsOfStep` | ExpenseTracker.java:344-345 | Scanning one more stored row adds it to the listing exactly when it belongs to the account |
| `Tables.SumAppend` | ExpenseTracker.java:346 | The accumulated total of two runs of rows is the sum of their totals |
| `Tables.ListingRows` | ExpenseTracker.java:341-345 | The listing holds exactly the account's expenses, one row each with their date, description and amount, in storage order |
| `Tables.InsertTotal` | ExpenseTracker.java:323-348 | Adding an expense raises its account's total by its amount and leaves every other account's total unchanged |
| `Tables.TotalSplit` | ExpenseTracker.java:301 | The grand total is one account's total plus the total of all other expenses |
| `Tables.CascadeTotal` | ExpenseTracker.java:301 | The cascade lowers the grand total by exactly the deleted account's total |
| `Tables.InsertAccountKeepsWellFormed` | ExpenseTracker.java:281-283 | Inserting with the next auto-increment id keeps ids positive, unique and ascending; the new id is one no account had, and the id set grows by exactly it |
| `Tables.InsertExpenseKeepsWellFormed` | ExpenseTracker.java:324-331 | Inserting an expense for a non-zero account with the next id keeps the expenses table well formed |
| `Tables.CascadeKeepsWellFormed` | ExpenseTracker.java:301-302 | The two deletions of an account keep both tables well formed |
| `Tables.DeleteMatchesKeepsWellFormed` | ExpenseTracker.java:366-371 | The value-matched deletion keeps the store well formed and keeps referential integrity |
| `Tables.CascadeRemovesDependents` | ExpenseTracker.java:301 | The cascade removes exactly the account's expenses: none is left, every other expense stays, and the account's listing and total become empty and 0 |
| `Tables.CascadeKeepsOtherListings` | ExpenseTracker.java:301 | Every other account's listing is exactly as before, order included |
| `Tables.AccountRemoval` | ExpenseTracker.java:302 | The account deletion removes exactly the rows with that id; the id set loses exactly that id |
| `Tables.DeleteMissingAccount` | ExpenseTracker.java:301-302 | Deleting an id no account has changes neither table when every expense belongs to an existing account |
| `Tables.CascadeKeepsIntegrity` | ExpenseTracker.java:298-306 | After the cascade every remaining expense still belongs to an existing account |
| `Tables.DeleteMatchesRemovesExactly` | ExpenseTracker.java:366-371 | The deletion removes every row equal on all four columns, however many, keeps every other row, and removed plus kept rows make up the table |
| `Tables.DeleteMatchesKeepsOtherListings` | ExpenseTracker.java:366-371 | Other accounts' listings are untouched by the value-matched deletion |
| `Tables.DeleteMatchesTotal` | ExpenseTracker.java:366-373 | The selected account's total drops by the selected amount once per removed row |
| `Tables.UnselectedMatchesNothing` | ExpenseTracker.java:341-342 | With the 0 sentinel selected nothing is listed and the value-matched deletion removes nothing |
| `Receipts.Receipt` | ExpenseTracker.java:396-408 | The receipt opens with its title, the account's name and the column header, has one item line per listed row in order between two rules, and ends with the total of the listed amounts |
| `Tracker.Ledger.constructor` | ExpenseTracker.java:76-77 | A new store is empty and well formed, with no account selected and both counters at 1 |
| `Tracker.Ledger.RefreshAccounts` | ExpenseTracker.java:255-265 | One entry `id\|name` per account in storage order, each of which parses back to its account's id |
| `Tracker.Ledger.SelectAccount` | ExpenseTracker.java:267-272 | No selection or an unparsable entry changes nothing; otherwise the parsed id is selected and its listing returned; a listed entry selects its own account and keeps the selection consistent |
| `Tracker.Ledger.AddAccount` | ExpenseTracker.java:274-288 | A blank name (`isBlank`) is refused and nothing changes; otherwise exactly one account is appended with the given name and a fresh id, larger than every existing id |
| `Tracker.Ledger.DeleteAccountAction` | ExpenseTracker.java:290-296 | No selection, an unparsable entry or a declined prompt changes nothing; a confirmed one deletes the parsed id's account as `DeleteAccount` does |
| `Tracker.Ledger.DeleteAccount` | ExpenseTracker.java:298-311 | Removes exactly the account's expenses and the account, leaves every other row, clears the selection, and keeps the store well formed and consistent |
| `Tracker.Ledger.AddExpenseAction` | ExpenseTracker.java:313-321 | With no account selected nothing changes; otherwise the expense is appended to the selected account and the refreshed total is the old total plus the amount |
| `Tracker.Ledger.AddExpense` | ExpenseTracker.java:323-333 | The 0 sentinel is refused and nothing changes; otherwise exactly one expense with the given fields and a fresh id is appended, whether or not the account exists |
| `Tracker.Ledger.RefreshExpenses` | ExpenseTracker.java:335-353 | The listing is exactly the selected account's rows in storage order, and the total is their exact sum (0 when there are none or none is selected) |
| `Tracker.Ledger.DeleteSelectedExpense` | ExpenseTracker.java:355-377 | No selected row changes nothing; otherwise every expense of the selected account matching the row's three values is removed, all others kept in order, and the refreshed listing returned |
| `Tracker.Ledger.GenerateReceipt` | ExpenseTracker.java:380-416 | Refused with no selection; otherwise the receipt of the account's name ("Unknown" when missing) and its listing, whose total equals the listing's total |
| `Scenarios.GroceriesSession` | ExpenseTracker.java:225-230 | Creating "Groceries", adding 3.50, 2.25 and two identical 1.00 rows, and deleting that row once leaves Milk and Bread; the receipt ends with a total of 5.75 |

## Left out

- Swing construction, layout, painting, `RoundedBorder`, theme switching, theme persistence in `theme.txt` and look-and-feel setup (lines 23-253): presentation and file I/O.
- The JDBC/SQLite connection, `initDB` and every `SQLException` path, including a failure between the two deletions of `deleteAccount`. The store is an in-memory value and its statements cannot fail. The model starts from an empty store, as a new database file would.
- Message dialogs and the table/label widgets. The methods return an `Error` value or the listing that would be shown instead.
- The confirmation prompt of `deleteAccountAction` is an input parameter, `confirmed`.
- `Double.parseDouble` of the amount field and the `%.2f` / `%-12s` formatting. Amounts are exact integer cents, and the receipt is a sequence of structured lines without column widths or blank lines.
- Floating-point summation and `REAL` equality are not modelled. The model's totals and matches are exact.
- Tracker.Ledger.RefreshAccounts: the entry round trip is stated only for ids up to 2^31-1, because `getInt`'s truncation of larger SQLite ids is not modelled.
- Tracker.Ledger.SelectAccount: consistency after choosing a listed entry is stated only when all ids fit a Java `int`, for the same reason.
- `Combo.ParseInt` accepts ASCII digits only. Java also accepts other Unicode decimal digits, which never occur in entries built from integer ids.
- Java's `split` throws an index error on an entry made only of bars. The model reports it as an unparsable entry, like a `NumberFormatException`; both leave the state unchanged.
- `Scenarios.GroceriesSession` adds its expenses with `AddExpense` on the selected account rather than through `AddExpenseAction`. `AddExpenseAction` is that same call followed by `RefreshExpenses`.

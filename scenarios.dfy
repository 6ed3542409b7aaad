/**
 * A session at the tracker window, driven through the ledger's contracts
 * alone: the actions a user triggers with the window's buttons.
 */
module Scenarios {
  import opened Outcomes
  import opened Filtering
  import opened Tables
  import opened Receipts
  import opened Tracker

  const Milk := Expense(1, 1, "2024-01-01", "Milk", 350)
  const Bread := Expense(2, 1, "2024-01-02", "Bread", 225)
  const Bag := Row("2024-01-03", "Bag", 100)

  /** Create "Groceries" and choose it in the account chooser. */
  method OpenGroceries() returns (ledger: Ledger)
    ensures fresh(ledger) && ledger.Valid()
    ensures ledger.accounts == [Account(1, "Groceries")] && ledger.currentAccountId == 1
    ensures ledger.expenses == [] && ledger.nextExpenseId == 1
  {
    ledger := new Ledger();
    assert !IsWhitespace("Groceries"[0]);
    var created := ledger.AddAccount("Groceries");
    assert ledger.accounts == [Account(1, "Groceries")] && ledger.expenses == [];
    var entries := ledger.RefreshAccounts();
    var shown := ledger.SelectAccount(Some(entries[0]));
  }

  /** Add Milk (3.50), Bread (2.25) and the same Bag (1.00) twice to the selected account. */
  method AddShopping(ledger: Ledger)
    requires ledger.Valid() && ledger.currentAccountId == 1
    requires ledger.expenses == [] && ledger.nextExpenseId == 1
    modifies ledger
    ensures ledger.Valid() && ledger.currentAccountId == 1 && ledger.accounts == old(ledger.accounts)
    ensures ledger.expenses == [Milk, Bread, Expense(3, 1, Bag.date, Bag.description, Bag.amount), Expense(4, 1, Bag.date, Bag.description, Bag.amount)]
  {
    var id := ledger.AddExpense(1, "2024-01-01", "Milk", 350);
    id := ledger.AddExpense(1, "2024-01-02", "Bread", 225);
    id := ledger.AddExpense(1, "2024-01-03", "Bag", 100);
    id := ledger.AddExpense(1, "2024-01-03", "Bag", 100);
  }

  /**
   * Open "Groceries", add the shopping, then delete the Bag row once: both
   * copies go. The receipt then shows
   * Groceries, Milk and Bread, and ends with the total 5.75.
   */
  method GroceriesSession() returns (receipt: Result<seq<Line>, Error>, left: seq<Expense>)
    ensures left == [Milk, Bread]
    ensures receipt.Ok? && |receipt.value| == 8
    ensures receipt.value[1] == AccountLine("Groceries")
    ensures receipt.value[4] == Item(Row("2024-01-01", "Milk", 350))
    ensures receipt.value[5] == Item(Row("2024-01-02", "Bread", 225))
    ensures receipt.value[7] == TotalLine(575)
  {
    var ledger := OpenGroceries();
    AddShopping(ledger);
    var all := ledger.expenses;
    var listing := ledger.DeleteSelectedExpense(Some(Bag));
    ShoppingDeletion(all);
    left := ledger.expenses;
    receipt := ledger.GenerateReceipt();
    AccountNameOf(ledger.accounts, 0);
    ShoppingListing();
  }

  /** The two "Bag" expenses are both removed by deleting one of them; Milk and Bread stay, in order. */
  lemma ShoppingDeletion(all: seq<Expense>)
    requires all == [Milk, Bread, Expense(3, 1, Bag.date, Bag.description, Bag.amount), Expense(4, 1, Bag.date, Bag.description, Bag.amount)]
    ensures WithoutMatches(all, 1, Bag) == [Milk, Bread]
  {
    var left := WithoutMatches(all, 1, Bag);
    DeleteMatchesRemovesExactly(all, 1, Bag);
    FilterAscending(all, (e: Expense) => !Matches(e, 1, Bag), ExpenseKey);
    assert forall e :: e in left <==> e in [Milk, Bread];
    AscendingDeterminedByMembers(left, [Milk, Bread], ExpenseKey);
  }

  /** Milk and Bread are listed as two rows totalling 5.75. */
  lemma ShoppingListing()
    ensures RowsOf([Milk, Bread], 1) == [Row("2024-01-01", "Milk", 350), Row("2024-01-02", "Bread", 225)]
    ensures Sum(RowsOf([Milk, Bread], 1)) == 575
  {
    FilterAll([Milk, Bread], (e: Expense) => e.accountId == 1);
    var rows := [Project(Milk), Project(Bread)];
    assert rows[..1] == [Project(Milk)];
    assert [Project(Milk)][..0] == [];
    assert Sum([Project(Milk)]) == 350;
    assert Sum(rows) == 575;
  }
}

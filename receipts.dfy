/**
 * The account receipt as a sequence of structured lines: a title, the
 * account's name, the column header, a rule, one line per expense, a rule and
 * the total. Column widths and the two-decimal rendering of amounts are not
 * modelled.
 */
module Receipts {
  import opened Tables

  datatype Line =
    | Title                   // "EXPENSE RECEIPT"
    | AccountLine(name: string) // "Account: <name>"
    | ColumnHeader            // "Date  Description  Amount"
    | Rule                    // the dashed separator
    | Item(row: Row)          // one expense: date, description, amount
    | TotalLine(total: int)   // "Total: <sum>"

  /** The lines before the first expense. */
  function Header(name: string): seq<Line>
  {
    [Title, AccountLine(name), ColumnHeader, Rule]
  }

  function Items(rows: seq<Row>): seq<Line>
  {
    seq(|rows|, i requires 0 <= i < |rows| => Item(rows[i]))
  }

  /** Items of one more row: one more item line at the end. */
  lemma ItemsAppend(rows: seq<Row>, row: Row)
    ensures Items(rows + [row]) == Items(rows) + [Item(row)]
  {
  }

  /**
   * The receipt for an account: its name, one line per expense in listing
   * order between two rules, and last the total of the listed amounts.
   */
  function Receipt(name: string, rows: seq<Row>): (lines: seq<Line>)
    ensures |lines| == |rows| + 6
    ensures lines[0] == Title && lines[1] == AccountLine(name) && lines[2] == ColumnHeader
    ensures lines[3] == Rule && lines[|rows| + 4] == Rule
    ensures forall i :: 0 <= i < |rows| ==> lines[i + 4] == Item(rows[i])
    ensures lines[|rows| + 5] == TotalLine(Sum(rows))
  {
    Header(name) + Items(rows) + [Rule, TotalLine(Sum(rows))]
  }
}

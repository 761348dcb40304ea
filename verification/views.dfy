/** View state of the transactions table: the sort toggle (`setSort`) and
    the filter tabs applied before sorting. */
module Views {
  import opened Entities
  import opened Seqs

  datatype Direction = Asc | Desc

  function Flip(d: Direction): Direction {
    if d == Asc then Desc else Asc
  }

  /** The column the table is sorted on and in which direction. */
  datatype SortState = SortState(field: string, direction: Direction)

  /** Clicking a column header: the current column flips its direction; a
      different column becomes current, ascending. */
  function SetSort(st: SortState, field: string): (r: SortState)
    ensures r.field == field
    ensures field == st.field ==> r.direction != st.direction
    ensures field != st.field ==> r.direction == Asc
  {
    if st.field == field then st.(direction := Flip(st.direction))
    else SortState(field, Asc)
  }

  /** Clicking the same header twice restores the previous sort. */
  lemma SetSortTwice(st: SortState)
    ensures SetSort(SetSort(st, st.field), st.field) == st
  {
  }

  /** Two clicks on a new column leave it sorted descending. */
  lemma NewFieldTwice(st: SortState, field: string)
    requires field != st.field
    ensures SetSort(SetSort(st, field), field) == SortState(field, Desc)
  {
  }

  /** Whether a transaction shows under the current filter tab. Tabs other
      than the four known ones filter nothing. */
  predicate Shows(filter: string, t: Transaction) {
    if filter == "All" then true
    else if filter == "Income" then t.amount > 0
    else if filter == "Expenses" then t.amount < 0
    else if filter == "Recurring" then t.recurring
    else true
  }

  function Visible(txs: seq<Transaction>, filter: string): (r: seq<Transaction>)
    ensures forall t :: t in r <==> t in txs && Shows(filter, t)
    ensures filter == "Income" ==> forall i :: 0 <= i < |r| ==> r[i].amount > 0
    ensures filter == "Expenses" ==> forall i :: 0 <= i < |r| ==> r[i].amount < 0
  {
    Filter(txs, (t: Transaction) => Shows(filter, t))
  }

  /** Unknown tabs show every transaction, like "All". */
  lemma UnknownFilterShowsAll(txs: seq<Transaction>, filter: string)
    requires filter != "Income" && filter != "Expenses" && filter != "Recurring"
    ensures Visible(txs, filter) == txs
  {
    FilterAll(txs, (t: Transaction) => Shows(filter, t));
  }

  /** Income and expenses never overlap, and zero-amount transactions are
      in neither, so the two tabs together list at most every transaction. */
  lemma {:induction false} IncomeAndExpensesPartition(txs: seq<Transaction>)
    ensures |Visible(txs, "Income")| + |Visible(txs, "Expenses")|
      + |Filter(txs, (t: Transaction) => t.amount == 0)| == |txs|
  {
    if txs != [] {
      IncomeAndExpensesPartition(txs[1..]);
    }
  }
}

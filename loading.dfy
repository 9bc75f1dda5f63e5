/**
 * The order the ledger is shown and logged in: the loaded rows sorted by transaction
 * date, rows without a date last.
 */
module Loading {
  import opened Wrappers
  import opened Ledger
  import opened Settlement
  import opened Trace

  /** Whether date a may come before date b: any date before a missing one, dates by day. */
  predicate NoLaterThan(a: Option<Date>, b: Option<Date>) {
    match (a, b)
    case (_, None) => true
    case (None, Some(_)) => false
    case (Some(x), Some(y)) => x <= y
  }

  predicate SortedByDate(rows: seq<Row>) {
    forall i, j :: 0 <= i < j < |rows| ==> NoLaterThan(rows[i].date, rows[j].date)
  }

  /** The first row of a sorted ledger may come before r, when r may not come before it. */
  lemma FirstNoLaterThanInserted(r: Row, rows: seq<Row>, x: Row)
    requires SortedByDate(rows) && rows != []
    requires !NoLaterThan(r.date, rows[0].date)
    requires x in multiset(rows[1..]) + multiset{r}
    ensures NoLaterThan(rows[0].date, x.date)
  {
    if x != r {
      assert x in rows[1..];
      var k :| 0 <= k < |rows[1..]| && rows[1..][k] == x;
      assert rows[k + 1] == x;
    }
  }

  /** A row that may come before every row of a sorted ledger can be put in front of it. */
  lemma ConsSorted(x: Row, rows: seq<Row>)
    requires SortedByDate(rows)
    requires forall j :: 0 <= j < |rows| ==> NoLaterThan(x.date, rows[j].date)
    ensures SortedByDate([x] + rows)
  {
    forall i, j | 0 <= i < j < |rows| + 1
      ensures NoLaterThan(([x] + rows)[i].date, ([x] + rows)[j].date)
    {
      if i > 0 {
        assert ([x] + rows)[i] == rows[i - 1] && ([x] + rows)[j] == rows[j - 1];
      }
    }
  }

  /** Places r in a date-sorted ledger. */
  function Insert(r: Row, rows: seq<Row>): (out: seq<Row>)
    requires SortedByDate(rows)
    ensures SortedByDate(out)
    ensures multiset(out) == multiset(rows) + multiset{r}
    decreases |rows|
  {
    if rows == [] then [r]
    else if NoLaterThan(r.date, rows[0].date) then
      assert forall j :: 0 <= j < |rows| ==> NoLaterThan(r.date, rows[j].date) by {
        forall j | 0 < j < |rows|
          ensures NoLaterThan(r.date, rows[j].date)
        {
          assert NoLaterThan(rows[0].date, rows[j].date);
        }
      }
      ConsSorted(r, rows);
      [r] + rows
    else
      var tail := Insert(r, rows[1..]);
      assert multiset([rows[0]] + tail) == multiset(rows) + multiset{r} by {
        assert rows == [rows[0]] + rows[1..];
      }
      assert forall j :: 0 <= j < |tail| ==> NoLaterThan(rows[0].date, tail[j].date) by {
        forall j | 0 <= j < |tail|
          ensures NoLaterThan(rows[0].date, tail[j].date)
        {
          FirstNoLaterThanInserted(r, rows, tail[j]);
        }
      }
      ConsSorted(rows[0], tail);
      [rows[0]] + tail
  }

  /**
   * The ledger sorted by transaction date with the rows that have no date last. The
   * result is a reordering of the input; which of two rows with the same date comes
   * first is not part of the contract.
   */
  function SortByDate(rows: seq<Row>): (out: seq<Row>)
    ensures SortedByDate(out)
    ensures multiset(out) == multiset(rows)
    decreases |rows|
  {
    if rows == [] then []
    else
      assert rows == [rows[0]] + rows[1..];
      Insert(rows[0], SortByDate(rows[1..]))
  }

  /** Sorting the loaded ledger changes neither the summary, the balance nor the log's final balance. */
  lemma SortKeepsSettlement(rows: seq<Row>)
    ensures Summarize(SortByDate(rows)) == Summarize(rows)
    ensures Balance(SortByDate(rows)) == Balance(rows)
    ensures Net(SortByDate(rows)) == Net(rows)
  {
    SummaryReorder(SortByDate(rows), rows);
    TraceReorder(SortByDate(rows), rows);
  }
}

/**
 * The ledger as the sheet and the edit grid hold it: named columns and rows of cells.
 * Two questions are asked of such tables: whether an edited table differs from the one
 * that was loaded (only then is it written back), and what is written.
 */
module Frames {
  import opened Wrappers

  /** One cell: empty, text, a number or a date (as its ordinal day number). */
  datatype Cell = Missing | Text(s: string) | Num(x: real) | Day(d: int)

  /** A table: its column names in order, and per row a map from column name to cell. */
  datatype Table = Table(columns: seq<string>, rows: seq<map<string, Cell>>)

  /** The cell of a row under a column; a column the row has no entry for reads as empty. */
  function CellAt(row: map<string, Cell>, c: string): Cell {
    if c in row then row[c] else Missing
  }

  /** A cell after empty cells have been filled with the empty string. */
  function Filled(cell: Cell): Cell {
    if cell == Missing then Text("") else cell
  }

  /** The columns of a that b has too, in a's order. */
  function CommonColumns(a: seq<string>, b: seq<string>): (common: seq<string>)
    ensures forall c :: c in common <==> c in a && c in b
  {
    if a == [] then []
    else if a[0] in b then [a[0]] + CommonColumns(a[1..], b)
    else CommonColumns(a[1..], b)
  }

  /** A table cut down to the given columns, empty cells filled, as a grid of cells. */
  function Grid(t: Table, cols: seq<string>): (g: seq<seq<Cell>>)
    ensures |g| == |t.rows|
  {
    seq(|t.rows|, i requires 0 <= i < |t.rows| =>
      seq(|cols|, j requires 0 <= j < |cols| => Filled(CellAt(t.rows[i], cols[j]))))
  }

  /**
   * Whether an edited table counts as unchanged: two absent tables are the same, one
   * absent table differs from a present one, and two present tables are compared on
   * their common columns only, after filling empty cells, row count first.
   */
  function Equivalent(a: Option<Table>, b: Option<Table>): (same: bool)
    ensures a.None? && b.None? ==> same
    ensures a.None? != b.None? ==> !same
    ensures same && a.Some? ==> |a.value.rows| == |b.value.rows|
  {
    match (a, b)
    case (None, None) => true
    case (Some(x), Some(y)) =>
      var common := CommonColumns(x.columns, y.columns);
      |x.rows| == |y.rows| && Grid(x, common) == Grid(y, common)
    case _ => false
  }

  /** Both tables have the same number of rows and agree, cell by cell, on every column they share. */
  ghost predicate AgreeOnShared(x: Table, y: Table) {
    && |x.rows| == |y.rows|
    && forall i, c :: 0 <= i < |x.rows| && c in x.columns && c in y.columns ==>
         Filled(CellAt(x.rows[i], c)) == Filled(CellAt(y.rows[i], c))
  }

  /**
   * Two present tables are equivalent exactly when they agree cell by cell on their
   * shared columns: a column in only one table is ignored, and an empty cell equals "".
   */
  lemma EquivalentIffAgree(x: Table, y: Table)
    ensures Equivalent(Some(x), Some(y)) <==> AgreeOnShared(x, y)
  {
    var common := CommonColumns(x.columns, y.columns);
    if Equivalent(Some(x), Some(y)) {
      forall i, c | 0 <= i < |x.rows| && c in x.columns && c in y.columns
        ensures Filled(CellAt(x.rows[i], c)) == Filled(CellAt(y.rows[i], c))
      {
        var j :| 0 <= j < |common| && common[j] == c;
        assert Grid(x, common)[i][j] == Grid(y, common)[i][j];
      }
    }
    if AgreeOnShared(x, y) {
      forall i | 0 <= i < |x.rows|
        ensures Grid(x, common)[i] == Grid(y, common)[i]
      {
        forall j | 0 <= j < |common|
          ensures Grid(x, common)[i][j] == Grid(y, common)[i][j]
        {
          assert common[j] in common;
        }
      }
      assert Grid(x, common) == Grid(y, common);
    }
  }

  /** Whether a table is unchanged does not depend on which table is called the edited one. */
  lemma EquivalentSymmetric(a: Option<Table>, b: Option<Table>)
    ensures Equivalent(a, b) == Equivalent(b, a)
  {
    if a.Some? && b.Some? {
      EquivalentIffAgree(a.value, b.value);
      EquivalentIffAgree(b.value, a.value);
    }
  }

  /** Every table is equivalent to itself. */
  lemma EquivalentReflexive(a: Option<Table>)
    ensures Equivalent(a, a)
  {
    if a.Some? {
      EquivalentIffAgree(a.value, a.value);
    }
  }

  /** The eight columns the sheet is written with, in this order. */
  const WriteOrder: seq<string> :=
    ["Transaction", "Amount", "Type", "Paid by", "Date of Transaction", "Entered by", "Timestamp", "Location"]

  /** Every row with one more column, filled with "". */
  function WithEmptyColumn(rows: seq<map<string, Cell>>, col: string): (r: seq<map<string, Cell>>)
    ensures |r| == |rows|
    ensures forall i, c :: 0 <= i < |rows| ==>
      CellAt(r[i], c) == if c == col then Text("") else CellAt(rows[i], c)
  {
    seq(|rows|, i requires 0 <= i < |rows| => rows[i][col := Text("")])
  }

  /** Every row cut down to the given columns. */
  function Restrict(rows: seq<map<string, Cell>>, cols: seq<string>): (r: seq<map<string, Cell>>)
    ensures |r| == |rows|
    ensures forall i, c :: 0 <= i < |rows| ==>
      CellAt(r[i], c) == if c in cols then CellAt(rows[i], c) else Missing
    ensures forall i, c :: 0 <= i < |rows| && c !in cols ==> c !in r[i]
  {
    seq(|rows|, i requires 0 <= i < |rows| => map c | c in cols && c in rows[i] :: rows[i][c])
  }

  /**
   * The table with exactly the given columns, in the given order: a column the table
   * lacks is added and filled with "", every other cell is kept, any further column is
   * dropped.
   */
  method WithColumns(t: Table, order: seq<string>) returns (out: Table)
    ensures out.columns == order
    ensures |out.rows| == |t.rows|
    ensures forall i, c :: 0 <= i < |t.rows| && c in order ==>
      CellAt(out.rows[i], c) == if c in t.columns then CellAt(t.rows[i], c) else Text("")
    ensures forall i, c :: 0 <= i < |t.rows| && c !in order ==> c !in out.rows[i]
  {
    var cols := t.columns;
    var rows := t.rows;
    for k := 0 to |order|
      invariant |rows| == |t.rows|
      invariant forall c :: c in cols <==> c in t.columns || c in order[..k]
      invariant forall i, c :: 0 <= i < |rows| ==>
        CellAt(rows[i], c) == if c in order[..k] && c !in t.columns then Text("") else CellAt(t.rows[i], c)
    {
      var col := order[k];
      assert order[..k + 1] == order[..k] + [col];
      if col !in cols {
        cols := cols + [col];
        rows := WithEmptyColumn(rows, col);
      }
    }
    assert order[..|order|] == order;
    out := Table(order, Restrict(rows, order));
  }

  /** The table as it is written back to the sheet: the eight sheet columns in their fixed order. */
  method PrepareForWrite(t: Table) returns (out: Table)
    ensures out.columns == WriteOrder
    ensures |out.rows| == |t.rows|
    ensures forall i, c :: 0 <= i < |t.rows| && c in WriteOrder ==>
      CellAt(out.rows[i], c) == if c in t.columns then CellAt(t.rows[i], c) else Text("")
    ensures forall i, c :: 0 <= i < |t.rows| && c !in WriteOrder ==> c !in out.rows[i]
  {
    out := WithColumns(t, WriteOrder);
  }
}

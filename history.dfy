/**
 * The transaction-history view: the ledger narrowed by payer, by type and by date,
 * keeping the rows' order, and the selections the page starts with.
 */
module History {
  import opened Wrappers
  import opened Ledger

  /** Whether a is b with some elements left out, the rest in the same order. */
  predicate IsSubsequence(a: seq<Row>, b: seq<Row>)
    decreases |b|
  {
    if a == [] then true
    else if b == [] then false
    else if a[0] == b[0] then IsSubsequence(a[1..], b[1..])
    else IsSubsequence(a, b[1..])
  }

  /** The rows that satisfy p, in their order: a boolean mask applied to the ledger. */
  function Select(rows: seq<Row>, p: Row -> bool): (kept: seq<Row>)
    ensures IsSubsequence(kept, rows)
    ensures forall x :: x in kept <==> x in rows && p(x)
    decreases |rows|
  {
    if rows == [] then []
    else
      assert rows == [rows[0]] + rows[1..];
      if p(rows[0]) then [rows[0]] + Select(rows[1..], p) else Select(rows[1..], p)
  }

  /** Every row that satisfies p is kept as often as it occurs; no other row is kept. */
  lemma {:induction false} SelectCounts(rows: seq<Row>, p: Row -> bool)
    ensures forall x :: multiset(Select(rows, p))[x] == if p(x) then multiset(rows)[x] else 0
    decreases |rows|
  {
    if rows != [] {
      SelectCounts(rows[1..], p);
      assert rows == [rows[0]] + rows[1..];
    }
  }

  /** Selecting with two predicates in turn is selecting with both at once. */
  lemma {:induction false} SelectTwice(rows: seq<Row>, p: Row -> bool, q: Row -> bool, both: Row -> bool)
    requires forall x :: both(x) == (p(x) && q(x))
    ensures Select(Select(rows, p), q) == Select(rows, both)
    decreases |rows|
  {
    if rows != [] {
      SelectTwice(rows[1..], p, q, both);
      if p(rows[0]) {
        var sp := Select(rows, p);
        assert sp[0] == rows[0] && sp[1..] == Select(rows[1..], p);
      }
    }
  }

  /** Selecting with a predicate that holds of every row keeps the ledger as it is. */
  lemma {:induction false} SelectEverything(rows: seq<Row>, p: Row -> bool)
    requires forall x :: p(x)
    ensures Select(rows, p) == rows
    decreases |rows|
  {
    if rows != [] {
      SelectEverything(rows[1..], p);
      assert Select(rows, p) == [rows[0]] + Select(rows[1..], p);
      assert rows == [rows[0]] + rows[1..];
    }
  }

  /** Selecting with two predicates that agree everywhere gives the same rows. */
  lemma {:induction false} SelectSame(rows: seq<Row>, p: Row -> bool, q: Row -> bool)
    requires forall x :: p(x) == q(x)
    ensures Select(rows, p) == Select(rows, q)
    decreases |rows|
  {
    if rows != [] {
      SelectSame(rows[1..], p, q);
    }
  }

  /**
   * The date part of the filter: a range of two dates (inclusive), a single date (the
   * widget returns one date while a range is being picked), or no date at all, in
   * which case the date filter fails and is skipped.
   */
  datatype DateSelection = Between(start: Date, end: Date) | On(day: Date) | NoDate

  predicate DateAdmits(dates: DateSelection, d: Option<Date>) {
    match dates
    case Between(start, end) => d.Some? && start <= d.value && d.value <= end
    case On(day) => d == Some(day)
    case NoDate => true
  }

  predicate PayerAdmits(payers: set<Payer>, r: Row) {
    payers == {} || r.payer in payers
  }

  predicate TypeAdmits(types: set<TxType>, r: Row) {
    types == {} || r.kind in types
  }

  /** Whether a row passes the three filters; an empty payer or type selection restricts nothing. */
  predicate Admits(payers: set<Payer>, types: set<TxType>, dates: DateSelection, r: Row) {
    PayerAdmits(payers, r) && TypeAdmits(types, r) && DateAdmits(dates, r.date)
  }

  /** The rows the history shows for the given selections. */
  function Shown(rows: seq<Row>, payers: set<Payer>, types: set<TxType>, dates: DateSelection): seq<Row> {
    Select(rows, r => Admits(payers, types, dates, r))
  }

  /**
   * Narrows the ledger step by step, as the page does: by payer, then by type, then by
   * date. The result is the in-order subsequence of the rows that pass all three, each
   * as often as it occurs in the ledger.
   */
  method FilterHistory(rows: seq<Row>, payers: set<Payer>, types: set<TxType>, dates: DateSelection)
    returns (filtered: seq<Row>)
    ensures filtered == Shown(rows, payers, types, dates)
    ensures IsSubsequence(filtered, rows)
    ensures forall r :: r in filtered <==> r in rows && Admits(payers, types, dates, r)
    ensures forall r :: multiset(filtered)[r] == if Admits(payers, types, dates, r) then multiset(rows)[r] else 0
  {
    filtered := rows;
    if payers != {} {
      filtered := Select(filtered, (r: Row) => r.payer in payers);
    }
    assert filtered == Select(rows, r => PayerAdmits(payers, r)) by {
      if payers == {} {
        SelectEverything(rows, r => PayerAdmits(payers, r));
      } else {
        SelectSame(rows, (r: Row) => r.payer in payers, r => PayerAdmits(payers, r));
      }
    }
    if types != {} {
      filtered := Select(filtered, (r: Row) => r.kind in types);
    }
    assert filtered == Select(rows, r => PayerAdmits(payers, r) && TypeAdmits(types, r)) by {
      if types == {} {
        SelectSame(rows, r => PayerAdmits(payers, r), r => PayerAdmits(payers, r) && TypeAdmits(types, r));
      } else {
        SelectTwice(rows, r => PayerAdmits(payers, r), (r: Row) => r.kind in types,
          r => PayerAdmits(payers, r) && TypeAdmits(types, r));
      }
    }
    if !dates.NoDate? {
      filtered := Select(filtered, (r: Row) => DateAdmits(dates, r.date));
    }
    assert filtered == Shown(rows, payers, types, dates) by {
      if dates.NoDate? {
        SelectSame(rows, r => PayerAdmits(payers, r) && TypeAdmits(types, r), r => Admits(payers, types, dates, r));
      } else {
        SelectTwice(rows, r => PayerAdmits(payers, r) && TypeAdmits(types, r), (r: Row) => DateAdmits(dates, r.date),
          r => Admits(payers, types, dates, r));
      }
    }
    SelectCounts(rows, r => Admits(payers, types, dates, r));
  }

  /** The payers the page offers and preselects: those present in the ledger, or both parties for an empty ledger. */
  function DefaultPayers(rows: seq<Row>): set<Payer> {
    if rows == [] then {AK, AA} else set r | r in rows && r.payer != NoPayer :: r.payer
  }

  /** The types the page offers and preselects: those present in the ledger, or all five for an empty ledger. */
  function DefaultTypes(rows: seq<Row>): set<TxType> {
    if rows == [] then {SharedExpense, ForAKOnly, ForAAOnly, RepaymentAKToAA, RepaymentAAToAK}
    else set r | r in rows && r.kind != NoType :: r.kind
  }

  /** The earliest transaction date in the ledger, if any row has one. */
  function EarliestDate(rows: seq<Row>): (d: Option<Date>)
    ensures d.None? <==> forall i :: 0 <= i < |rows| ==> rows[i].date.None?
    ensures d.Some? ==> forall i :: 0 <= i < |rows| && rows[i].date.Some? ==> d.value <= rows[i].date.value
    ensures d.Some? ==> exists i :: 0 <= i < |rows| && rows[i].date == d
    decreases |rows|
  {
    if rows == [] then None
    else
      var rest := EarliestDate(rows[1..]);
      assert forall i :: 1 <= i < |rows| ==> rows[i] == rows[1..][i - 1];
      if rows[0].date.None? then rest
      else if rest.None? || rows[0].date.value <= rest.value then rows[0].date
      else rest
  }

  /** The latest transaction date in the ledger, if any row has one. */
  function LatestDate(rows: seq<Row>): (d: Option<Date>)
    ensures d.None? <==> forall i :: 0 <= i < |rows| ==> rows[i].date.None?
    ensures d.Some? ==> forall i :: 0 <= i < |rows| && rows[i].date.Some? ==> rows[i].date.value <= d.value
    ensures d.Some? ==> exists i :: 0 <= i < |rows| && rows[i].date == d
    decreases |rows|
  {
    if rows == [] then None
    else
      var rest := LatestDate(rows[1..]);
      assert forall i :: 1 <= i < |rows| ==> rows[i] == rows[1..][i - 1];
      if rows[0].date.None? then rest
      else if rest.None? || rest.value <= rows[0].date.value then rows[0].date
      else rest
  }

  /** The date range the page starts with: from the earliest to the latest date, or today alone. */
  function DefaultDates(rows: seq<Row>, today: Date): DateSelection {
    match (EarliestDate(rows), LatestDate(rows))
    case (Some(first), Some(last)) => Between(first, last)
    case _ => Between(today, today)
  }

  /**
   * With the selections the page starts with, the history shows exactly the rows whose
   * payer, type and date are filled in (a payer or type restriction only applies when
   * some row has one).
   */
  lemma DefaultViewShowsCompleteRows(rows: seq<Row>, today: Date)
    ensures var shown := Shown(rows, DefaultPayers(rows), DefaultTypes(rows), DefaultDates(rows, today));
      forall r :: r in shown <==>
        && r in rows
        && (r.payer != NoPayer || DefaultPayers(rows) == {})
        && (r.kind != NoType || DefaultTypes(rows) == {})
        && r.date.Some?
  {
    var shown := Shown(rows, DefaultPayers(rows), DefaultTypes(rows), DefaultDates(rows, today));
    forall r | r in rows
      ensures DateAdmits(DefaultDates(rows, today), r.date) <==> r.date.Some?
    {
      var i :| 0 <= i < |rows| && rows[i] == r;
    }
  }
}

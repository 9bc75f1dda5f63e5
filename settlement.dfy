/**
 * The settlement summary: nine filtered sums over the ledger and the single signed
 * balance computed from them. A positive balance means AA owes AK; a negative one
 * means AK owes AA.
 */
module Settlement {
  import opened Wrappers
  import opened Ledger

  /** A row selection of the kind `df[df['Paid by'] == p]`, by type, or by both. */
  datatype Filter = PaidBy(p: Payer) | OfType(t: TxType) | OfTypePaidBy(t: TxType, p: Payer)

  predicate Matches(flt: Filter, r: Row) {
    match flt
    case PaidBy(p) => r.payer == p
    case OfType(t) => r.kind == t
    case OfTypePaidBy(t, p) => r.kind == t && r.payer == p
  }

  /** The amount a row adds to the sum selected by flt. */
  function Contribution(flt: Filter, r: Row): real {
    if Matches(flt, r) then r.amount else 0.0
  }

  /** The sum of the amounts of the rows that flt selects. */
  function AmountWhere(rows: seq<Row>, flt: Filter): real {
    Sum(rows, r => Contribution(flt, r))
  }

  /** The nine aggregates of the settlement summary. */
  datatype Summary = Summary(
    totalPaidByAK: real,
    totalPaidByAA: real,
    sharedExpenses: real,
    sharedPaidByAK: real,
    sharedPaidByAA: real,
    akOnlyPaidByAA: real,
    aaOnlyPaidByAK: real,
    repaymentAKToAA: real,
    repaymentAAToAK: real)

  const ZeroSummary := Summary(0.0, 0.0, 0.0, 0.0, 0.0, 0.0, 0.0, 0.0, 0.0)

  function Summarize(rows: seq<Row>): Summary {
    Summary(
      AmountWhere(rows, PaidBy(AK)),
      AmountWhere(rows, PaidBy(AA)),
      AmountWhere(rows, OfType(SharedExpense)),
      AmountWhere(rows, OfTypePaidBy(SharedExpense, AK)),
      AmountWhere(rows, OfTypePaidBy(SharedExpense, AA)),
      AmountWhere(rows, OfTypePaidBy(ForAKOnly, AA)),
      AmountWhere(rows, OfTypePaidBy(ForAAOnly, AK)),
      AmountWhere(rows, OfType(RepaymentAKToAA)),
      AmountWhere(rows, OfType(RepaymentAAToAK)))
  }

  /** Each party's half of the shared expenses; nothing when the shared total is not positive. */
  function EachShare(s: Summary): real {
    if s.sharedExpenses > 0.0 then s.sharedExpenses / 2.0 else 0.0
  }

  /** The balance the summary determines, from AK's side. */
  function BalanceOf(s: Summary): real {
    s.sharedPaidByAK - EachShare(s)
      + s.aaOnlyPaidByAK
      - s.akOnlyPaidByAA
      + s.repaymentAKToAA
      - s.repaymentAAToAK
  }

  function Balance(rows: seq<Row>): real {
    BalanceOf(Summarize(rows))
  }

  /**
   * The page's entry point: no ledger or an empty one gives balance 0 and all-zero
   * aggregates; otherwise the balance is the one its own summary determines.
   */
  function CalculateBalanceAndSummary(ledger: Option<seq<Row>>): (r: (real, Summary))
    ensures (ledger.None? || ledger.value == []) ==> r.0 == 0.0 && r.1 == ZeroSummary
    ensures ledger.Some? ==> r.1 == Summarize(ledger.value) && r.0 == BalanceOf(r.1)
  {
    if ledger.None? || ledger.value == [] then (0.0, ZeroSummary)
    else
      var s := Summarize(ledger.value);
      (BalanceOf(s), s)
  }

  /** Appending one row adds that row's amount to every sum that selects it. */
  lemma AmountWhereSnoc(rows: seq<Row>, r: Row, flt: Filter)
    ensures AmountWhere(rows + [r], flt) == AmountWhere(rows, flt) + Contribution(flt, r)
  {
    assert (rows + [r])[..|rows|] == rows;
  }

  /** Reordering the ledger changes neither the nine aggregates nor the balance. */
  lemma SummaryReorder(s: seq<Row>, t: seq<Row>)
    requires multiset(s) == multiset(t)
    ensures Summarize(s) == Summarize(t)
    ensures Balance(s) == Balance(t)
  {
    forall flt: Filter
      ensures AmountWhere(s, flt) == AmountWhere(t, flt)
    {
      SumPermutation(s, t, r => Contribution(flt, r));
    }
  }

  /** Whether a row's type and payer are one of the combinations the balance counts. */
  predicate AffectsBalance(r: Row) {
    || r.kind == SharedExpense
    || (r.kind == ForAAOnly && r.payer == AK)
    || (r.kind == ForAKOnly && r.payer == AA)
    || r.kind == RepaymentAKToAA
    || r.kind == RepaymentAAToAK
  }

  /**
   * A row of any other combination (a cost for AK only that AK paid, an unknown type)
   * leaves the balance as it was, yet still counts in the payer totals.
   */
  lemma NeutralRowKeepsBalance(rows: seq<Row>, r: Row)
    requires !AffectsBalance(r)
    ensures Balance(rows + [r]) == Balance(rows)
    ensures Summarize(rows + [r]).totalPaidByAK
         == Summarize(rows).totalPaidByAK + (if r.payer == AK then r.amount else 0.0)
    ensures Summarize(rows + [r]).totalPaidByAA
         == Summarize(rows).totalPaidByAA + (if r.payer == AA then r.amount else 0.0)
  {
    forall flt: Filter
      ensures AmountWhere(rows + [r], flt) == AmountWhere(rows, flt) + Contribution(flt, r)
    {
      AmountWhereSnoc(rows, r, flt);
    }
  }

  /** Every sum over rows with non-negative amounts is non-negative. */
  lemma {:induction false} AmountWhereNonNegative(rows: seq<Row>, flt: Filter)
    requires forall i :: 0 <= i < |rows| ==> rows[i].amount >= 0.0
    ensures AmountWhere(rows, flt) >= 0.0
    decreases |rows|
  {
    if rows != [] {
      var n := |rows| - 1;
      assert rows == rows[..n] + [rows[n]];
      AmountWhereSnoc(rows[..n], rows[n], flt);
      AmountWhereNonNegative(rows[..n], flt);
    }
  }

  /** A lone shared expense of A > 0 puts half of it on the side of whoever did not pay. */
  lemma SingleSharedExpense(r: Row)
    requires r.kind == SharedExpense && r.amount > 0.0
    ensures r.payer == AK ==> Balance([r]) == r.amount / 2.0
    ensures r.payer != AK ==> Balance([r]) == -r.amount / 2.0
  {
    forall flt: Filter
      ensures AmountWhere([r], flt) == Contribution(flt, r)
    {
      AmountWhereSnoc([], r, flt);
    }
  }

  /** The sums of a two-row ledger are the sums of its rows. */
  lemma AmountWherePair(a: Row, b: Row, flt: Filter)
    ensures AmountWhere([a, b], flt) == Contribution(flt, a) + Contribution(flt, b)
  {
    AmountWhereSnoc([], a, flt);
    AmountWhereSnoc([a], b, flt);
    assert [a] + [b] == [a, b];
  }

  /**
   * A cost for AA alone that AK paid, followed by a repayment of the same amount from
   * AA to AK, leaves the two parties settled.
   */
  lemma RepaymentSettlesCost(cost: Row, repayment: Row)
    requires cost.kind == ForAAOnly && cost.payer == AK
    requires repayment.kind == RepaymentAAToAK && repayment.amount == cost.amount
    ensures Balance([cost, repayment]) == 0.0
  {
    forall flt: Filter
      ensures AmountWhere([cost, repayment], flt) == Contribution(flt, cost) + Contribution(flt, repayment)
    {
      AmountWherePair(cost, repayment, flt);
    }
  }

  /**
   * Shared expenses of 100 paid by AK and 60 paid by AA: 160 shared, 80 each, and AA
   * owes AK the 20 that AK paid beyond AK's half.
   */
  lemma SharedExpensesExample(first: Row, second: Row)
    requires first.kind == SharedExpense && first.payer == AK && first.amount == 100.0
    requires second.kind == SharedExpense && second.payer == AA && second.amount == 60.0
    ensures Summarize([first, second]).sharedExpenses == 160.0
    ensures EachShare(Summarize([first, second])) == 80.0
    ensures Balance([first, second]) == 20.0
  {
    forall flt: Filter
      ensures AmountWhere([first, second], flt) == Contribution(flt, first) + Contribution(flt, second)
    {
      AmountWherePair(first, second, flt);
    }
  }
}

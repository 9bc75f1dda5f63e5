/**
 * The transaction-by-transaction log: every row gets a signed change, which is added
 * to a running balance that starts at zero. The log and the summary agree on the final
 * balance exactly when the shared-expense total is not negative.
 */
module Trace {
  import opened Ledger
  import opened Settlement

  /** The branch of the log that explains a row's effect on the balance. */
  datatype Rule =
    | SharedPaidByAK
    | SharedPaidByOther
    | AKPaidForAA
    | AAPaidForAK
    | AARepaidAK
    | AKRepaidAA
    | NoChange

  /** The first branch of the log's if/elif chain that a row takes. */
  function RuleFor(r: Row): Rule {
    if r.kind == SharedExpense then
      if r.payer == AK then SharedPaidByAK else SharedPaidByOther
    else if r.kind == ForAAOnly && r.payer == AK then AKPaidForAA
    else if r.kind == ForAKOnly && r.payer == AA then AAPaidForAK
    else if r.kind == RepaymentAAToAK then AARepaidAK
    else if r.kind == RepaymentAKToAA then AKRepaidAA
    else NoChange
  }

  /** The signed change one row makes to the running balance. */
  function Delta(r: Row): real {
    match RuleFor(r)
    case SharedPaidByAK => r.amount / 2.0
    case SharedPaidByOther => -(r.amount / 2.0)
    case AKPaidForAA => r.amount
    case AAPaidForAK => -r.amount
    case AARepaidAK => -r.amount
    case AKRepaidAA => r.amount
    case NoChange => 0.0
  }

  /** The running balance after all of the rows. */
  function Net(rows: seq<Row>): real {
    Sum(rows, Delta)
  }

  /** One entry of the log: the row, why it changes the balance, by how much, and the balance before and after. */
  datatype Step = Step(number: nat, row: Row, rule: Rule, change: real, before: real, after: real)

  /** The log's if/elif chain for one row: which branch it takes and the balance change. */
  method Explain(row: Row) returns (rule: Rule, change: real)
    ensures rule == RuleFor(row) && change == Delta(row)
  {
    rule, change := NoChange, 0.0;
    if row.kind == SharedExpense {
      var share := row.amount / 2.0;
      if row.payer == AK {
        rule, change := SharedPaidByAK, share;
      } else {
        rule, change := SharedPaidByOther, -share;
      }
    } else if row.kind == ForAAOnly && row.payer == AK {
      rule, change := AKPaidForAA, row.amount;
    } else if row.kind == ForAKOnly && row.payer == AA {
      rule, change := AAPaidForAK, -row.amount;
    } else if row.kind == RepaymentAAToAK {
      rule, change := AARepaidAK, -row.amount;
    } else if row.kind == RepaymentAKToAA {
      rule, change := AKRepaidAA, row.amount;
    }
  }

  /** The log entry for row i: from the net change of the rows before it to the net change including it. */
  function EntryFor(rows: seq<Row>, i: nat): Step
    requires i < |rows|
  {
    Step(i + 1, rows[i], RuleFor(rows[i]), Delta(rows[i]), Net(rows[..i]), Net(rows[..i + 1]))
  }

  /** The log so far holds the entries of the first |log| rows. */
  ghost predicate LogOfPrefix(rows: seq<Row>, log: seq<Step>) {
    |log| <= |rows| && forall k :: 0 <= k < |log| ==> log[k] == EntryFor(rows, k)
  }

  /**
   * Walks the ledger in order, one log entry per row, keeping the running balance.
   * Entry i is numbered i + 1, names row i, its rule and its change, and goes from the
   * net change of the rows before it to the net change including it; so the log starts
   * from 0, each entry starts where the previous one ended, and the last one ends at
   * the net change of the whole ledger.
   */
  method TransactionLog(rows: seq<Row>) returns (log: seq<Step>, final: real)
    ensures |log| == |rows|
    ensures forall i :: 0 <= i < |log| ==> log[i] == EntryFor(rows, i)
    ensures forall i :: 0 <= i < |log| ==> log[i].after == log[i].before + log[i].change
    ensures |log| > 0 ==> log[0].before == 0.0
    ensures forall i :: 0 < i < |log| ==> log[i].before == log[i - 1].after
    ensures final == Net(rows)
  {
    var running := 0.0;
    log := [];
    var i := 0;
    while i < |rows|
      invariant 0 <= i <= |rows|
      invariant |log| == i
      invariant running == Net(rows[..i])
      invariant LogOfPrefix(rows, log)
    {
      var row := rows[i];
      var rule, change := Explain(row);
      var next := running + change;
      NetPrefix(rows, i);
      log := log + [Step(i + 1, row, rule, change, running, next)];
      running := next;
      i := i + 1;
    }
    assert rows[..i] == rows;
    final := running;
    forall k | 0 <= k < |log|
      ensures log[k].after == log[k].before + log[k].change
    {
      NetPrefix(rows, k);
    }
    assert |log| > 0 ==> rows[..0] == [];
  }

  /** The running balance after row i is the one before it plus the row's change. */
  lemma NetPrefix(rows: seq<Row>, i: nat)
    requires i < |rows|
    ensures Net(rows[..i + 1]) == Net(rows[..i]) + Delta(rows[i])
  {
    assert rows[..i + 1] == rows[..i] + [rows[i]];
    NetSnoc(rows[..i], rows[i]);
  }

  lemma NetSnoc(rows: seq<Row>, r: Row)
    ensures Net(rows + [r]) == Net(rows) + Delta(r)
  {
    assert (rows + [r])[..|rows|] == rows;
  }

  /**
   * The log's final balance, term by term: what AK fronted for shared costs minus half
   * of all shared costs, plus and minus the one-sided costs and the repayments.
   */
  lemma {:induction false} NetDecomposes(rows: seq<Row>)
    ensures var s := Summarize(rows);
      Net(rows) == s.sharedPaidByAK - s.sharedExpenses / 2.0
        + s.aaOnlyPaidByAK - s.akOnlyPaidByAA + s.repaymentAKToAA - s.repaymentAAToAK
    decreases |rows|
  {
    if rows != [] {
      var n := |rows| - 1;
      var init, r := rows[..n], rows[n];
      assert rows == init + [r];
      NetDecomposes(init);
      NetSnoc(init, r);
      forall flt: Filter
        ensures AmountWhere(rows, flt) == AmountWhere(init, flt) + Contribution(flt, r)
      {
        AmountWhereSnoc(init, r, flt);
      }
    }
  }

  /**
   * The log ends at the summary balance exactly when the shared-expense total is not
   * negative: the summary counts no share of a negative total, the log halves every row.
   */
  lemma TraceMatchesSummary(rows: seq<Row>)
    ensures Net(rows) == Balance(rows) <==> Summarize(rows).sharedExpenses >= 0.0
  {
    NetDecomposes(rows);
  }

  /** With no negative amount in the ledger, the log ends at the summary balance. */
  lemma NonNegativeLedgerAgrees(rows: seq<Row>)
    requires forall i :: 0 <= i < |rows| ==> rows[i].amount >= 0.0
    ensures Net(rows) == Balance(rows)
  {
    AmountWhereNonNegative(rows, OfType(SharedExpense));
    TraceMatchesSummary(rows);
  }

  /**
   * Appending a row with a non-negative amount to a ledger whose shared total is not
   * negative moves the summary balance by that row's change in the log.
   */
  lemma AppendShiftsBalance(ledger: seq<Row>, r: Row)
    requires Summarize(ledger).sharedExpenses >= 0.0
    requires r.amount >= 0.0
    ensures Summarize(ledger + [r]).sharedExpenses >= 0.0
    ensures Balance(ledger + [r]) == Balance(ledger) + Delta(r)
  {
    var after := ledger + [r];
    assert Summarize(after).sharedExpenses >= 0.0 by {
      AmountWhereSnoc(ledger, r, OfType(SharedExpense));
    }
    assert Net(ledger) == Balance(ledger) by {
      TraceMatchesSummary(ledger);
    }
    assert Net(after) == Balance(after) by {
      TraceMatchesSummary(after);
    }
    NetSnoc(ledger, r);
  }

  /** A single shared expense of -10 paid by AK: the summary says -10, the log -5. */
  lemma NegativeSharedExpenseDisagrees(r: Row)
    requires r.kind == SharedExpense && r.payer == AK && r.amount == -10.0
    ensures Balance([r]) == -10.0 && Net([r]) == -5.0
  {
    NetSnoc([], r);
    forall flt: Filter
      ensures AmountWhere([r], flt) == Contribution(flt, r)
    {
      AmountWhereSnoc([], r, flt);
    }
  }

  /** Reordering the ledger leaves the log's final balance unchanged. */
  lemma TraceReorder(s: seq<Row>, t: seq<Row>)
    requires multiset(s) == multiset(t)
    ensures Net(s) == Net(t)
  {
    SumPermutation(s, t, Delta);
  }

  /** A row's change in the log is the balance a ledger of that row alone would have. */
  lemma DeltaIsSingletonBalance(r: Row)
    requires r.kind == SharedExpense ==> r.amount >= 0.0
    ensures Delta(r) == Balance([r])
  {
    NetSnoc([], r);
    AmountWhereSnoc([], r, OfType(SharedExpense));
    TraceMatchesSummary([r]);
  }

  function SwapPayer(p: Payer): Payer {
    match p
    case AK => AA
    case AA => AK
    case _ => p
  }

  function SwapType(t: TxType): TxType {
    match t
    case ForAKOnly => ForAAOnly
    case ForAAOnly => ForAKOnly
    case RepaymentAKToAA => RepaymentAAToAK
    case RepaymentAAToAK => RepaymentAKToAA
    case _ => t
  }

  /** The same ledger told with the roles of AK and AA exchanged. */
  function SwapParties(rows: seq<Row>): (swapped: seq<Row>)
    ensures |swapped| == |rows|
  {
    seq(|rows|, i requires 0 <= i < |rows| => rows[i].(kind := SwapType(rows[i].kind), payer := SwapPayer(rows[i].payer)))
  }

  /** Every shared expense names one of the two parties as payer. */
  predicate SharedPaidByParties(rows: seq<Row>) {
    forall i :: 0 <= i < |rows| && rows[i].kind == SharedExpense ==> rows[i].payer == AK || rows[i].payer == AA
  }

  /**
   * Exchanging the parties negates the log's final balance, provided no shared expense
   * was paid by a third name (the log charges those to AA).
   */
  lemma {:induction false} NetSwapParties(rows: seq<Row>)
    requires SharedPaidByParties(rows)
    ensures Net(SwapParties(rows)) == -Net(rows)
    ensures AmountWhere(SwapParties(rows), OfType(SharedExpense)) == AmountWhere(rows, OfType(SharedExpense))
    decreases |rows|
  {
    if rows != [] {
      var n := |rows| - 1;
      var init, r := rows[..n], rows[n];
      assert rows == init + [r];
      var sw := SwapParties(rows);
      assert sw == SwapParties(init) + [sw[n]];
      NetSwapParties(init);
      NetSnoc(init, r);
      NetSnoc(SwapParties(init), sw[n]);
      AmountWhereSnoc(init, r, OfType(SharedExpense));
      AmountWhereSnoc(SwapParties(init), sw[n], OfType(SharedExpense));
    }
  }

  /** Exchanging the parties negates the summary balance of a ledger without negative shared totals. */
  lemma BalanceSwapParties(rows: seq<Row>)
    requires SharedPaidByParties(rows)
    requires Summarize(rows).sharedExpenses >= 0.0
    ensures Balance(SwapParties(rows)) == -Balance(rows)
  {
    NetSwapParties(rows);
    TraceMatchesSummary(rows);
    TraceMatchesSummary(SwapParties(rows));
  }
}

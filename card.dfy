/**
 * The balance card at the top of the page: who owes whom, with a tolerance of one
 * paisa either way, and a displayed amount that is never negative.
 */
module BalanceCard {
  import opened Ledger
  import opened Settlement
  import opened Trace

  datatype Verdict = AAOwesAK | AKOwesAA | SettledUp

  /** What the card shows: the verdict (its title and colour) and the amount in rupees. */
  datatype Card = Card(verdict: Verdict, shown: real)

  const Tolerance: real := 0.01

  function Classify(balance: real): (c: Card)
    ensures c.shown >= 0.0
    ensures c.verdict == AAOwesAK <==> balance > Tolerance
    ensures c.verdict == AKOwesAA <==> balance < -Tolerance
    ensures c.verdict == SettledUp <==> -Tolerance <= balance <= Tolerance
    ensures c.verdict == SettledUp ==> c.shown == 0.0
    ensures c.verdict != SettledUp ==> c.shown == (if balance < 0.0 then -balance else balance)
  {
    if balance > Tolerance then Card(AAOwesAK, balance)
    else if balance < -Tolerance then Card(AKOwesAA, -balance)
    else Card(SettledUp, 0.0)
  }

  function Mirror(v: Verdict): Verdict {
    match v
    case AAOwesAK => AKOwesAA
    case AKOwesAA => AAOwesAK
    case SettledUp => SettledUp
  }

  /** Negating the balance swaps who owes whom and shows the same amount. */
  lemma ClassifyNegated(balance: real)
    ensures Classify(-balance) == Card(Mirror(Classify(balance).verdict), Classify(balance).shown)
  {
  }

  /**
   * The card for the ledger told with AK and AA exchanged is the mirror of the card for
   * the ledger itself, when every shared expense names one of the two as payer and the
   * shared total is not negative.
   */
  lemma SwappedLedgerMirrorsCard(rows: seq<Row>)
    requires SharedPaidByParties(rows)
    requires Summarize(rows).sharedExpenses >= 0.0
    ensures Classify(Balance(SwapParties(rows))).verdict == Mirror(Classify(Balance(rows)).verdict)
    ensures Classify(Balance(SwapParties(rows))).shown == Classify(Balance(rows)).shown
  {
    BalanceSwapParties(rows);
    ClassifyNegated(Balance(rows));
  }
}

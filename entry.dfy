/**
 * The "Add New Transaction" form: a submission with an empty description or an amount
 * that is not positive is refused with a warning; any other is appended to the ledger.
 */
module Entry {
  import opened Wrappers
  import opened Ledger
  import opened Settlement
  import opened Trace

  /** What the form collects from the user. */
  datatype Form = Form(description: string, amount: real, date: Date, payer: Payer, kind: TxType)

  /** The warning shown for an incomplete or invalid submission. */
  datatype Warning = FillInAllFields

  /**
   * Submits the form on behalf of the logged-in user at time now (seconds) from the
   * advisory location: the ledger with the new row appended, or the warning.
   */
  function Submit(ledger: seq<Row>, form: Form, user: string, now: int, location: string)
    : (r: Result<seq<Row>, Warning>)
    ensures r.Failure? <==> form.description == "" || form.amount <= 0.0
    ensures r.Success? ==> |r.value| == |ledger| + 1 && r.value[..|ledger|] == ledger
    ensures r.Success? ==> var added := r.value[|ledger|];
      && added.amount > 0.0 && added.description != ""
      && added.amount == form.amount && added.kind == form.kind && added.payer == form.payer
      && added.date == Some(form.date) && added.enteredBy == user
      && added.description == form.description
      && added.timestamp == Some(now) && added.location == location
  {
    if form.description == "" || form.amount <= 0.0 then Failure(FillInAllFields)
    else
      var row := Row(form.description, form.amount, form.kind, form.payer, Some(form.date),
                     user, Some(now), location);
      assert (ledger + [row])[..|ledger|] == ledger;
      Success(ledger + [row])
  }

  /**
   * Adding an accepted transaction moves the balance by exactly the change the log
   * shows for it, and keeps the shared-expense total non-negative, so that the log and
   * the summary keep agreeing.
   */
  lemma SubmitShiftsBalance(ledger: seq<Row>, form: Form, user: string, now: int, location: string)
    requires Summarize(ledger).sharedExpenses >= 0.0
    requires Submit(ledger, form, user, now, location).Success?
    ensures var after := Submit(ledger, form, user, now, location).value;
      && Summarize(after).sharedExpenses >= 0.0
      && Balance(after) == Balance(ledger) + Delta(after[|ledger|])
  {
    var after := Submit(ledger, form, user, now, location).value;
    assert after == ledger + [after[|ledger|]];
    AppendShiftsBalance(ledger, after[|ledger|]);
  }
}

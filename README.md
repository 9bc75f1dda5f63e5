# AK & AA shared-expense ledger: the settlement engine in Dafny

The application keeps a ledger of transactions between two people, AK and AA. Each
row has a description, an amount in rupees, a type, a payer, a transaction date, who
entered it, when and from where. The page turns the ledger into one signed
balance. A positive balance means AA owes AK; a negative one means AK owes AA. The
page explains that balance twice: once as nine aggregate sums, and once as a
transaction-by-transaction log with a running balance.

This project models that engine and the small pure helpers around it:

- `Ledger` (ledger.dfy): the values. `Payer` and `TxType` have one constructor per
  known label. Text that is not a known label is kept as `OtherPayer`/`OtherType`, and
  an empty cell as `NoPayer`/`NoType`, so unknown values pass through without effect.
  Amounts are exact reals and dates are ordinal day numbers. The module also holds the
  generic `Sum` over rows and the proof that a sum does not depend on row order.
- `Settlement` (settlement.dfy): `calculate_balance_and_summary`, meaning the nine
  filtered sums, each party's share and the balance.
- `Trace` (trace.dfy): the transaction log. `TransactionLog` is a loop over the rows
  that keeps a running balance. `Delta` is the per-row change. It is proved that the
  log ends where the summary does exactly when the shared total is not negative
  (always, if no amount is negative), and that exchanging the parties negates the
  balance when every shared expense names AK or AA and the shared total is not
  negative.
- `BalanceCard` (card.dfy): the three-way classification with a tolerance of 0.01.
- `Frames` (frames.dfy): `df_equivalent`, the edit-detection equality, on tables of
  named columns and rows of cells. It also models how `save_data` fixes the written
  columns to the eight sheet columns in order.
- `Loading` (loading.dfy): the sort of the loaded ledger by transaction date, with
  missing dates last.
- `History` (history.dfy): the history filters by payer set, type set and date
  selection, and the selections the page starts with.
- `Styling` (styling.dfy): `color_row`.
- `Entry` (entry.dfy): validation of the "Add New Transaction" form and appending the
  new row.

Three points about the code that are easy to misread:

- Repayment signs: the code is consistent. "Repayment from AK to AA" adds its amount to
  the balance, and "Repayment from AA to AK" subtracts it, in both the summary and the
  log.
- A shared expense whose payer is anything other than AK counts as paid by AA in the
  log (−A/2). The summary does the same (when the shared total is positive), because
  such a row adds to the shared total but not to AK's part of it.
- The log and the summary do not always agree. The summary uses a share of 0 when the
  shared total is not positive, while the log always halves each shared row. So the two
  agree exactly when the shared total is not negative (`Trace.TraceMatchesSummary`).
  They can disagree only when negative amounts come in through the edit grid or the
  sheet itself, since loading converts amounts without rejecting negative ones. The
  form itself refuses amounts ≤ 0.

## Model

| member | source | states |
|---|---|---|
| `Ledger.ParseType` | app.py:364 | a stored text maps to the type whose label it is; unknown text is kept as `OtherType` with that text, and never becomes a known type |
| `Ledger.ParseTypeLabel` | app.py:364 | every present type in canonical form is recovered by parsing its own label (round trip) |
| `Ledger.ParsePayer` | app.py:363 | a stored text maps to AK, AA or `OtherPayer` with that text; the label of the result is the text |
| `Ledger.ParsePayerLabel` | app.py:363 | every present payer in canonical form is recovered by parsing its own label (round trip) |
| `Ledger.SumPermutation` | app.py:179-187 | a sum over the rows depends only on the multiset of rows, not on their order |
| `Settlement.CalculateBalanceAndSummary` | app.py:171-195 | no ledger or an empty ledger gives balance 0.0 and all nine aggregates 0; otherwise the result is the nine filtered sums and the balance they determine, and the empty shortcut agrees with that formula |
| `Settlement.SummaryReorder` | app.py:178-194 | reordering the ledger changes neither the nine aggregates nor the balance |
| `Settlement.NeutralRowKeepsBalance` | app.py:179-194 | a row whose type and payer are none of the combinations the balance counts (an unknown type, a cost for AK only paid by AK, ...) leaves the balance unchanged but still adds to its payer's total paid |
| `Settlement.AmountWhereNonNegative` | app.py:179-187 | over a ledger with no negative amount, every filtered sum is non-negative |
| `Settlement.SingleSharedExpense` | app.py:181-190 | a lone shared expense of A > 0 gives balance A/2 when AK paid and −A/2 for any other payer |
| `Settlement.RepaymentSettlesCost` | app.py:184-194 | a cost for AA only paid by AK followed by an equal repayment from AA to AK gives balance 0 |
| `Settlement.SharedExpensesExample` | app.py:181-190 | shared expenses of 100 paid by AK and 60 paid by AA: total 160, share 80, balance 20 |
| `Trace.Explain` | app.py:328-349 | the log's if/elif chain picks the branch and change that `RuleFor`/`Delta` give: +A/2 or −A/2 for a shared expense (AK or other payer), +A for AA-only paid by AK, −A for AK-only paid by AA, −A for a repayment AA→AK, +A for AK→AA, 0 otherwise |
| `Trace.TransactionLog` | app.py:322-354 | one log entry per row in input order; entry i is numbered i+1, starts from the net change of the rows before it (0 for the first) and ends at that plus the row's change; each entry starts where the previous ended; the final running balance is the net change of the whole ledger |
| `Trace.NetDecomposes` | app.py:330-353 | the log's final balance equals AK's shared payments minus half the shared total, plus AA-only paid by AK, minus AK-only paid by AA, plus repayments AK→AA, minus repayments AA→AK |
| `Trace.TraceMatchesSummary` | app.py:189-194 | the log's final balance equals the summary balance if and only if the shared total is not negative |
| `Trace.NonNegativeLedgerAgrees` | app.py:323-353 | when no amount is negative, the log ends at the summary balance |
| `Trace.NegativeSharedExpenseDisagrees` | app.py:189 | a single shared expense of −10 paid by AK: the summary gives −10, the log −5 |
| `Trace.TraceReorder` | app.py:326-353 | reordering the ledger leaves the log's final balance unchanged |
| `Trace.DeltaIsSingletonBalance` | app.py:328-349 | a row's change in the log is the summary balance of a ledger holding that row alone (for a shared row, when its amount is not negative) |
| `Trace.AppendShiftsBalance` | app.py:351-353 | appending a row with a non-negative amount to a ledger whose shared total is not negative keeps that total non-negative and moves the summary balance by the row's change in the log |
| `Trace.NetSwapParties` | app.py:330-349 | exchanging AK and AA in every row (payers, one-sided types, repayment directions) negates the log's final balance and keeps the shared total, provided every shared expense names AK or AA |
| `Trace.BalanceSwapParties` | app.py:189-194 | under the same condition and a non-negative shared total, exchanging the parties negates the summary balance |
| `BalanceCard.Classify` | app.py:257-262 | "AA owes AK" exactly when balance > 0.01, "AK owes AA" exactly when balance < −0.01, settled otherwise; the amount shown is the absolute value of the balance when not settled, 0 when settled, never negative |
| `BalanceCard.SwappedLedgerMirrorsCard` | app.py:257-262 | when every shared expense names AK or AA and the shared total is not negative, the card for the ledger with the parties exchanged names the other debtor and shows the same amount |
| `Frames.CommonColumns` | app.py:205 | the compared columns are exactly those present in both tables |
| `Frames.Equivalent` | app.py:197-212 | two absent tables are equivalent, one absent table is not equivalent to a present one, and equivalent present tables have the same row count |
| `Frames.EquivalentIffAgree` | app.py:203-210 | two present tables are equivalent if and only if they have the same row count and agree cell by cell on every shared column after empty cells become ""; a column in only one table is ignored |
| `Frames.EquivalentSymmetric` | app.py:197-210 | swapping the two tables does not change the answer |
| `Frames.EquivalentReflexive` | app.py:197-210 | every table is equivalent to itself |
| `Frames.WithColumns` | app.py:161-165 | the result has exactly the given columns in that order and the same rows; a column the table lacked reads "", every other listed cell is unchanged, unlisted columns are gone |
| `Frames.PrepareForWrite` | app.py:153-166 | the written table has the eight sheet columns in their fixed order, the same rows, "" in the columns the table lacked, the table's own cells elsewhere, and no other column |
| `Loading.Insert` | app.py:147 | one step of the insertion sort that stands in for the date sort: inserting a row into a date-sorted ledger gives a date-sorted ledger with that row added |
| `Loading.SortByDate` | app.py:147 | the loaded ledger is sorted by date with missing dates last, and is a permutation of the rows read |
| `Loading.SortKeepsSettlement` | app.py:147 | sorting leaves the summary, the balance and the log's final balance unchanged |
| `History.Select` | app.py:415-430 | a boolean-mask filter keeps an in-order subsequence of the rows, and a row is in it exactly when it is in the ledger and passes the mask |
| `History.SelectCounts` | app.py:415-430 | each row passing the mask is kept as many times as it occurs, and no other row is kept |
| `History.SelectTwice` | app.py:415-427 | filtering by one mask and then another is the same as filtering once by both |
| `History.FilterHistory` | app.py:414-432 | narrowing by payer set, then type set, then date selection gives the in-order subsequence of rows whose payer is selected (or no payer is), whose type is selected (or no type is), and whose date is in the inclusive range or on the chosen day; undated rows are dropped whenever a date is selected |
| `History.EarliestDate` | app.py:404-406 | the earliest date is absent exactly when no row has a date; otherwise it is one of the rows' dates and no later than any row's date |
| `History.LatestDate` | app.py:404-406 | the latest date is absent exactly when no row has a date; otherwise it is one of the rows' dates and no earlier than any row's date |
| `History.DefaultViewShowsCompleteRows` | app.py:394-430 | with the preselected payers, types and date range, the history shows exactly the rows whose payer, type and date are filled in (a payer or type restriction applies only when some row has one) |
| `Styling.ColorRow` | app.py:434-440 | one style per cell of the row, all the same, chosen by the row's type |
| `Styling.RepaymentShades` | app.py:438-439 | both kinds of repayment are shaded amber |
| `Styling.AKOnlyShade` | app.py:440 | a cost for AK only is shaded blue |
| `Styling.AAOnlyShade` | app.py:440 | a cost for AA only is shaded blue |
| `Styling.EmptyTypeShade` | app.py:435-440 | a row with an empty type cell ("nan") is shaded blue |
| `Styling.SharedShadeIsGreen` | app.py:436-437 | a shared expense is shaded green |
| `Styling.OtherTypeShade` | app.py:438 | an unknown type is shaded amber exactly when its text contains "Repayment", and never green |
| `Entry.Submit` | app.py:366-379 | a submission is refused exactly when the description is empty or the amount ≤ 0; otherwise the ledger gains one row at the end and nothing before it changes; the new row carries the form's description, positive amount, type, payer and date, the user as its author, the submission time and the given location |
| `Entry.SubmitShiftsBalance` | app.py:366-379 | on a ledger whose shared total is not negative, an accepted submission keeps it so and moves the balance by exactly the new row's change in the log |

## Left out

- Authentication: the login/logout flow, the authenticator built from secrets, and the bcrypt hashing are not modelled. They are a foreign library plus secrets handling.
- Google Sheets I/O: `read`/`update`, caching, `time.sleep` and `experimental_rerun` are not modelled. They are I/O and re-render plumbing. The new row's clock time and location come in as parameters of `Entry.Submit`.
- `get_location`: a network call whose result is only advisory. It is not modelled.
- Presentation is not modelled: page layout, CSS, the three metrics, the charts with their group-by, the breakdown text and credit/debit messages, and currency formatting of the card and the log. The log's explanatory sentence is represented by `Trace.Rule`.
- `load_data`: the model receives typed rows. It does not model parsing cells into amounts, types, payers and dates (non-numeric amounts become 0.0, unparseable dates become missing). It also leaves out dropping all-empty rows and adding absent columns as empty. Only the sort is modelled.
- Ledger rows are taken to be canonical (`Ledger.CanonicalPayer`, `Ledger.CanonicalType`), as `Ledger.ParsePayer` and `Ledger.ParseType` produce them. A value such as `OtherType("Shared Expense")` is outside the model: the settlement compares constructors, while the source compares text.
- Loading.SortByDate: the order of two rows with the same date is not specified, because the underlying sort is not guaranteed to be stable.
- `save_data`: reformatting dates and timestamps as text (`strftime`) is not modelled. The errors it reports are not modelled either.
- Frames.Equivalent: this is value equality of cells. It does not model pandas dtype sensitivity or the `try/except` that turns an internal error into "different".
- History.FilterHistory: comparisons that raise are not modelled (the page would then skip the date filter). The one case where the date selection is unusable, an empty tuple, is modelled as `NoDate`. Payer and type selections are sets, so the widget's option order is not modelled.
- BalanceCard.Classify: the tolerance is an exact comparison with 0.01, and floating-point rounding is not modelled.
- Entry.Submit: the widget's own limits (minimum 0.01, two decimals, payer and type chosen from fixed lists) are not modelled. The model checks only the explicit guard of the form.

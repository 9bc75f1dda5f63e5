/**
 * The values of the shared-expense ledger kept by AK and AA: who paid, what kind of
 * transaction it was, and one ledger row. The sheet stores the type and the payer as
 * text; a text that is not one of the known labels is kept as OtherType / OtherPayer,
 * and an empty cell as NoType / NoPayer, so that unknown values flow through every
 * computation without effect instead of being rejected.
 */
module Ledger {
  import opened Wrappers

  /** The value of the "Paid by" column. */
  datatype Payer = AK | AA | OtherPayer(name: string) | NoPayer

  /** The value of the "Type" column. */
  datatype TxType =
    | SharedExpense
    | ForAKOnly
    | ForAAOnly
    | RepaymentAKToAA
    | RepaymentAAToAK
    | OtherType(text: string)
    | NoType

  /** A calendar date, as its ordinal day number (later dates are larger). */
  type Date = int

  /**
   * One row of the ledger, with the eight columns the sheet holds. Rows read from the
   * sheet come out of ParsePayer and ParseType, so their payer and type are canonical
   * (CanonicalPayer, CanonicalType): a known label is always its own constructor, never
   * OtherPayer or OtherType carrying that label's text.
   */
  datatype Row = Row(
    description: string,
    amount: real,
    kind: TxType,
    payer: Payer,
    date: Option<Date>,
    enteredBy: string,
    timestamp: Option<int>,
    location: string)

  const SharedLabel: string := "Shared Expense"
  const AKOnlyLabel: string := "For AK only"
  const AAOnlyLabel: string := "For AA only"
  const RepayAKToAALabel: string := "Repayment from AK to AA"
  const RepayAAToAKLabel: string := "Repayment from AA to AK"

  const TypeLabels: set<string> :=
    {SharedLabel, AKOnlyLabel, AAOnlyLabel, RepayAKToAALabel, RepayAAToAKLabel}
  const PayerLabels: set<string> := {"AK", "AA"}

  /** The text a type is stored as; an empty cell has none. */
  function TypeLabel(t: TxType): Option<string> {
    match t
    case SharedExpense => Some(SharedLabel)
    case ForAKOnly => Some(AKOnlyLabel)
    case ForAAOnly => Some(AAOnlyLabel)
    case RepaymentAKToAA => Some(RepayAKToAALabel)
    case RepaymentAAToAK => Some(RepayAAToAKLabel)
    case OtherType(l) => Some(l)
    case NoType => None
  }

  /** The type a stored text denotes: the sheet compares the text with the known labels. */
  function ParseType(s: string): (t: TxType)
    ensures TypeLabel(t) == Some(s)
    ensures t.OtherType? <==> s !in TypeLabels
  {
    if s == SharedLabel then SharedExpense
    else if s == AKOnlyLabel then ForAKOnly
    else if s == AAOnlyLabel then ForAAOnly
    else if s == RepayAKToAALabel then RepaymentAKToAA
    else if s == RepayAAToAKLabel then RepaymentAAToAK
    else OtherType(s)
  }

  /** A type value in its one canonical form: OtherType never carries a known label. */
  predicate CanonicalType(t: TxType) {
    t.OtherType? ==> t.text !in TypeLabels
  }

  /** Every present, canonical type is what its own label parses to. */
  lemma ParseTypeLabel(t: TxType)
    requires CanonicalType(t) && t != NoType
    ensures ParseType(TypeLabel(t).value) == t
  {
    if t.OtherType? {
      assert t.text !in TypeLabels;
    }
  }

  /** The text a payer is stored as; an empty cell has none. */
  function PayerLabel(p: Payer): Option<string> {
    match p
    case AK => Some("AK")
    case AA => Some("AA")
    case OtherPayer(n) => Some(n)
    case NoPayer => None
  }

  /** The payer a stored text denotes. */
  function ParsePayer(s: string): (p: Payer)
    ensures PayerLabel(p) == Some(s)
    ensures p.OtherPayer? <==> s !in PayerLabels
  {
    if s == "AK" then AK else if s == "AA" then AA else OtherPayer(s)
  }

  predicate CanonicalPayer(p: Payer) {
    p.OtherPayer? ==> p.name !in PayerLabels
  }

  /** Every present, canonical payer is what its own label parses to. */
  lemma ParsePayerLabel(p: Payer)
    requires CanonicalPayer(p) && p != NoPayer
    ensures ParsePayer(PayerLabel(p).value) == p
  {
    if p.OtherPayer? {
      assert p.name !in PayerLabels;
    }
  }

  /** The sum of f over the rows, in order. */
  function Sum(rows: seq<Row>, f: Row -> real): real
    decreases |rows|
  {
    if rows == [] then 0.0 else Sum(rows[..|rows| - 1], f) + f(rows[|rows| - 1])
  }

  /** Summing distributes over concatenation. */
  lemma {:induction false} SumAppend(s: seq<Row>, t: seq<Row>, f: Row -> real)
    ensures Sum(s + t, f) == Sum(s, f) + Sum(t, f)
    decreases |t|
  {
    if t == [] {
      assert s + t == s;
    } else {
      var n := |t| - 1;
      assert (s + t)[..|s + t| - 1] == s + t[..n];
      SumAppend(s, t[..n], f);
    }
  }

  /** Taking one row out of a sum leaves the sum of the others. */
  lemma SumRemove(t: seq<Row>, i: nat, f: Row -> real)
    requires i < |t|
    ensures Sum(t, f) == Sum(t[..i] + t[i + 1..], f) + f(t[i])
  {
    var before, x, after := t[..i], t[i], t[i + 1..];
    assert Sum(t, f) == Sum(before, f) + Sum([x] + after, f) by {
      assert t == before + ([x] + after);
      SumAppend(before, [x] + after, f);
    }
    assert Sum([x] + after, f) == f(x) + Sum(after, f) by {
      SumAppend([x], after, f);
      assert [x][..0] == [];
    }
    SumAppend(before, after, f);
  }

  /** Removing the same element from two sequences with equal multisets keeps them equal. */
  lemma MultisetRemove(s: seq<Row>, t: seq<Row>, i: nat)
    requires multiset(s) == multiset(t) && s != [] && i < |t| && t[i] == s[|s| - 1]
    ensures multiset(s[..|s| - 1]) == multiset(t[..i] + t[i + 1..])
  {
    var n, x := |s| - 1, s[|s| - 1];
    assert s == s[..n] + [x];
    assert t == t[..i] + [x] + t[i + 1..];
    assert multiset(s[..n]) == multiset(s) - multiset{x};
    assert multiset(t[..i] + t[i + 1..]) == multiset(t) - multiset{x};
  }

  /** A sum does not depend on the order of the rows. */
  lemma {:induction false} SumPermutation(s: seq<Row>, t: seq<Row>, f: Row -> real)
    requires multiset(s) == multiset(t)
    ensures Sum(s, f) == Sum(t, f)
    decreases |s|
  {
    if s == [] {
      assert |t| == |multiset(t)| == 0;
    } else {
      var n := |s| - 1;
      assert s[n] in multiset(t);
      var i :| 0 <= i < |t| && t[i] == s[n];
      MultisetRemove(s, t, i);
      SumPermutation(s[..n], t[..i] + t[i + 1..], f);
      SumRemove(t, i, f);
    }
  }
}

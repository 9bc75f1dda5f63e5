/** The background colour of a row in the history table, chosen by its type. */
module Styling {
  import opened Ledger

  datatype Shade = SharedShade | RepaymentShade | PlainShade

  /** The CSS rule for each shade. */
  function Css(s: Shade): string {
    match s
    case SharedShade => "background-color: #e6ffe6"
    case RepaymentShade => "background-color: #fff7e6"
    case PlainShade => "background-color: #e6f0ff"
  }

  /** The text of a type as the styling compares it; an empty cell reads as "nan". */
  function TypeText(t: TxType): string {
    match TypeLabel(t)
    case Some(s) => s
    case None => "nan"
  }

  /** Whether pattern occurs in s as a contiguous piece. */
  predicate Contains(s: string, pattern: string)
    decreases |s|
  {
    pattern <= s || (s != [] && Contains(s[1..], pattern))
  }

  /** The shade of a row of type t: green for a shared expense, amber when the type mentions a repayment, blue otherwise. */
  function ShadeOf(t: TxType): Shade {
    if TypeText(t) == SharedLabel then SharedShade
    else if Contains(TypeText(t), "Repayment") then RepaymentShade
    else PlainShade
  }

  /** The style of every cell of a row of type t that has the given number of cells. */
  function ColorRow(t: TxType, width: nat): (styles: seq<string>)
    ensures |styles| == width
    ensures forall k :: 0 <= k < width ==> styles[k] == Css(ShadeOf(t))
  {
    seq(width, _ => Css(ShadeOf(t)))
  }

  /** A text that does not start like "Shared Expense" and has no capital R is shaded plain. */
  lemma PlainText(t: TxType)
    requires |TypeText(t)| > 0 && TypeText(t)[0] != 'S'
    requires forall k :: 0 <= k < |TypeText(t)| ==> TypeText(t)[k] != 'R'
    ensures ShadeOf(t) == PlainShade
  {
    assert SharedLabel[0] == 'S';
    NotContainsRepayment(TypeText(t));
  }

  /** Both kinds of repayment are shaded amber. */
  lemma RepaymentShades()
    ensures ShadeOf(RepaymentAKToAA) == RepaymentShade
    ensures ShadeOf(RepaymentAAToAK) == RepaymentShade
  {
    assert SharedLabel[0] == 'S' && RepayAKToAALabel[0] == 'R' && RepayAAToAKLabel[0] == 'R';
    assert "Repayment" <= RepayAKToAALabel;
    assert "Repayment" <= RepayAAToAKLabel;
  }

  /** Shared expenses are shaded green. */
  lemma SharedShadeIsGreen()
    ensures ShadeOf(SharedExpense) == SharedShade
  {
  }

  /** A cost for AK only is shaded plain blue. */
  lemma AKOnlyShade()
    ensures ShadeOf(ForAKOnly) == PlainShade
  {
    PlainText(ForAKOnly);
  }

  /** A cost for AA only is shaded plain blue. */
  lemma AAOnlyShade()
    ensures ShadeOf(ForAAOnly) == PlainShade
  {
    PlainText(ForAAOnly);
  }

  /** A row with an empty type cell is shaded plain blue. */
  lemma EmptyTypeShade()
    ensures ShadeOf(NoType) == PlainShade
  {
    PlainText(NoType);
  }

  /** A text with no capital R has no "Repayment" in it. */
  lemma {:induction false} NotContainsRepayment(s: string)
    requires forall k :: 0 <= k < |s| ==> s[k] != 'R'
    ensures !Contains(s, "Repayment")
    decreases |s|
  {
    if s != [] {
      assert "Repayment"[0] == 'R';
      NotContainsRepayment(s[1..]);
    }
  }

  /** An unrecognised type is shaded as a repayment exactly when its text mentions one. */
  lemma OtherTypeShade(s: string)
    requires s !in TypeLabels
    ensures ShadeOf(ParseType(s)) == RepaymentShade <==> Contains(s, "Repayment")
    ensures ShadeOf(ParseType(s)) != SharedShade
  {
  }
}

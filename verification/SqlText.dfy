/** Numbered placeholders, as the query builders write them and PostgreSQL reads them. */
module SqlText {
  import opened Common
  import opened Decimal

  function Placeholder(n: nat): string {
    "$" + Print(n)
  }

  /** The parameter number of a `$n` token. */
  function ParamNo(token: string): Option<nat> {
    if |token| >= 2 && token[0] == '$' && AllDigits(token[1..]) then Some(Value(token[1..])) else None
  }

  lemma ParamNoBack(n: nat)
    ensures ParamNo(Placeholder(n)) == Some(n)
    ensures forall i | 0 <= i < |Placeholder(n)| :: IsDigit(Placeholder(n)[i]) || Placeholder(n)[i] == '$'
  {
    ValuePrint(n);
    hide Print, Value;
    assert Placeholder(n)[1..] == Print(n);
  }
}

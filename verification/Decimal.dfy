/**
 Unsigned decimal numerals, as Go's %d and Lua's number-to-string print them
 and as the various scanners of the program read them back.
 */
module Decimal {

  predicate IsDigit(c: char) {
    '0' <= c <= '9'
  }

  predicate AllDigits(s: string) {
    forall i | 0 <= i < |s| :: IsDigit(s[i])
  }

  function Print(n: nat): (s: string)
    ensures s != [] && AllDigits(s)
  {
    var last := [('0' as int + n % 10) as char];
    if n < 10 then last else Print(n / 10) + last
  }

  function Value(s: string): nat
    requires AllDigits(s)
  {
    if s == [] then 0
    else 10 * Value(s[..|s| - 1]) + (s[|s| - 1] as int - '0' as int)
  }

  lemma {:induction false} ValuePrint(n: nat)
    ensures Value(Print(n)) == n
  {
    if n >= 10 {
      ValuePrint(n / 10);
      assert Print(n)[..|Print(n)| - 1] == Print(n / 10);
    }
  }

  lemma PrintInjective(m: nat, n: nat)
    requires Print(m) == Print(n)
    ensures m == n
  {
    ValuePrint(m);
    ValuePrint(n);
  }

  /** Length of the longest prefix made of digits: what `%d+` and %d consume. */
  function DigitRun(s: string): (n: nat)
    ensures n <= |s| && AllDigits(s[..n])
    ensures n < |s| ==> !IsDigit(s[n])
  {
    if s == [] || !IsDigit(s[0]) then 0 else 1 + DigitRun(s[1..])
  }

  /** A printed numeral followed by a non-digit is consumed whole and no further. */
  lemma DigitRunPrint(n: nat, rest: string)
    requires rest == [] || !IsDigit(rest[0])
    ensures DigitRun(Print(n) + rest) == |Print(n)|
  {
    var s := Print(n) + rest;
    var r := DigitRun(s);
    assert forall i | 0 <= i < r :: IsDigit(s[..r][i]) && s[..r][i] == s[i];
    assert forall i | 0 <= i < |Print(n)| :: s[i] == Print(n)[i];
    assert rest != [] ==> s[|Print(n)|] == rest[0];
  }
}

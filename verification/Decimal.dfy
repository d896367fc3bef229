/** Decimal text of integers: `big.Int.String`, `big.Int.SetString(_, 10)`, `%d`,
    and the zero padding the printers around them do. */
module Decimal {
  import opened Prelude

  function Pow10(k: nat): (p: nat)
    ensures p > 0
  {
    if k == 0 then 1 else 10 * Pow10(k - 1)
  }

  lemma Pow10Six()
    ensures Pow10(6) == 1_000_000 && Pow10(0) == 1
  {
  }

  predicate IsDigit(c: char) { '0' <= c <= '9' }

  predicate AllDigits(s: string) { forall i :: 0 <= i < |s| ==> IsDigit(s[i]) }

  function Digit(d: nat): char
    requires d < 10
  {
    '0' + d as char
  }

  function DigitValue(c: char): nat
    requires IsDigit(c)
  {
    (c - '0') as nat
  }

  /** The number an all-digit string denotes; the empty string denotes 0. */
  function Value(s: string): nat
    requires AllDigits(s)
  {
    if s == [] then 0 else 10 * Value(s[..|s| - 1]) + DigitValue(s[|s| - 1])
  }

  function Print(n: nat): (s: string)
    ensures s != [] && AllDigits(s)
  {
    if n < 10 then [Digit(n)] else Print(n / 10) + [Digit(n % 10)]
  }

  lemma {:induction false} ValuePrint(n: nat)
    ensures Value(Print(n)) == n
  {
    if n >= 10 {
      ValuePrint(n / 10);
      assert Print(n)[..|Print(n)| - 1] == Print(n / 10);
    }
  }

  /** `big.Int.String` and `%d`. */
  function PrintInt(z: int): string {
    if z < 0 then "-" + Print(-z) else Print(z)
  }

  /** `big.Int.SetString(s, 10)`: an optional sign, then one or more digits. */
  function ParseInt(s: string): Option<int> {
    if s == [] then None
    else if s[0] == '-' || s[0] == '+' then
      if |s| == 1 || !AllDigits(s[1..]) then None
      else
        var v: int := Value(s[1..]);
        Some(if s[0] == '-' then -v else v)
    else if AllDigits(s) then Some(Value(s)) else None
  }

  /** Parsing undoes printing on every integer. */
  lemma ParsePrint(z: int)
    ensures ParseInt(PrintInt(z)) == Some(z)
  {
    if z < 0 {
      ValuePrint(-z);
      assert ("-" + Print(-z))[1..] == Print(-z);
    } else {
      ValuePrint(z);
      assert IsDigit(Print(z)[0]);
    }
  }

  lemma PrintInjective(a: nat, b: nat)
    requires Print(a) == Print(b)
    ensures a == b
  {
    ValuePrint(a);
    ValuePrint(b);
  }

  /** Reading a concatenation: the left part is shifted by the length of the right. */
  lemma {:induction false} ValueConcat(a: string, b: string)
    requires AllDigits(a) && AllDigits(b)
    ensures AllDigits(a + b)
    ensures Value(a + b) == Value(a) * Pow10(|b|) + Value(b)
  {
    if b == [] {
      assert a + b == a;
    } else {
      var b' := b[..|b| - 1];
      ValueConcat(a, b');
      assert (a + b)[..|a + b| - 1] == a + b';
      ShiftOnce(Value(a), Pow10(|b'|), Value(b'), DigitValue(b[|b| - 1]));
    }
  }

  lemma ShiftOnce(a: nat, p: nat, b: nat, d: nat)
    ensures 10 * (a * p + b) + d == a * (10 * p) + (10 * b + d)
  {
  }

  function Zeros(k: nat): (s: string)
    ensures |s| == k && AllDigits(s)
  {
    if k == 0 then [] else Zeros(k - 1) + "0"
  }

  lemma {:induction false} ValueZeros(k: nat)
    ensures Value(Zeros(k)) == 0
  {
    if k > 0 {
      ValueZeros(k - 1);
      assert Zeros(k)[..k - 1] == Zeros(k - 1);
    }
  }

  /** A number below 10^k prints in at most k digits. */
  lemma {:induction false} PrintLength(n: nat, k: nat)
    requires n < Pow10(k) && k > 0
    ensures |Print(n)| <= k
  {
    if n >= 10 {
      assert n / 10 < Pow10(k - 1);
      PrintLength(n / 10, k - 1);
    }
  }

  /** `%0kd`: at least k digits, zeros in front. */
  function PrintPadded(n: nat, k: nat): string {
    Zeros(Max(0, k - |Print(n)|)) + Print(n)
  }

  lemma ValuePrintPadded(n: nat, k: nat)
    requires n < Pow10(k) && k > 0
    ensures AllDigits(PrintPadded(n, k)) && |PrintPadded(n, k)| == k
    ensures Value(PrintPadded(n, k)) == n
  {
    hide Value, Print, Pow10;
    PrintLength(n, k);
    var z := k - |Print(n)|;
    ValueConcat(Zeros(z), Print(n));
    ValueZeros(z);
    ValuePrint(n);
  }

  /** `strings.TrimRight(s, "0")`. */
  function TrimZeros(s: string): (t: string)
    ensures |t| <= |s| && t == s[..|t|]
  {
    if s != [] && s[|s| - 1] == '0' then TrimZeros(s[..|s| - 1]) else s
  }

  lemma {:induction false} TrimZerosPadBack(s: string)
    ensures TrimZeros(s) + Zeros(|s| - |TrimZeros(s)|) == s
  {
    if s != [] && s[|s| - 1] == '0' {
      var s' := s[..|s| - 1];
      TrimZerosPadBack(s');
      assert TrimZeros(s) == TrimZeros(s');
      assert Zeros(|s| - |TrimZeros(s)|) == Zeros(|s'| - |TrimZeros(s')|) + "0";
      assert TrimZeros(s) + (Zeros(|s'| - |TrimZeros(s')|) + "0") == s' + "0";
    } else {
      assert Zeros(0) == [];
    }
  }
}

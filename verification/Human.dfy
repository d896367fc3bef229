/** Human-readable token amounts: `limits/usdc.go` and the cap store's `baseToHuman`. */
module Human {
  import opened Prelude
  import opened Decimal
  import Text

  const QUANTUMS_PER_USDC: nat := 1_000_000

  datatype AmountError = Empty | Negative | Invalid | TooManyDecimals | Overflow

  /** Integer and fractional text, split at the first dot: `strings.Cut(s, ".")`. */
  function IntPart(s: string): string { s[..Text.IndexOf(s, '.')] }

  function FracPart(s: string): string {
    var i := Text.IndexOf(s, '.');
    if i < |s| then s[i + 1..] else []
  }

  /** The digits handed to `SetString`: both parts, the fraction padded to six bytes. */
  function Glue(intPart: string, frac: string): string
    requires Text.ByteLength(frac) <= 6
  {
    (if intPart == [] then "0" else intPart) + PadRight(frac)
  }

  function PadRight(frac: string): string
    requires Text.ByteLength(frac) <= 6
  {
    frac + Zeros(6 - Text.ByteLength(frac))
  }

  lemma DigitBytes(s: string)
    requires AllDigits(s)
    ensures Text.ByteLength(s) == |s|
  {
    Text.AsciiLength(s);
  }

  function FitUint64(n: Option<int>): Result<nat, AmountError> {
    if n.None? then Err(Invalid)
    else if 0 <= n.value <= MAX_UINT64 then Ok(n.value)
    else Err(Overflow)
  }

  /** What `HumanToQuantums` computes once the text is trimmed. */
  function TrimmedToQuantums(s: string): Result<nat, AmountError> {
    if s == [] then Err(Empty)
    else if s[0] == '-' then Err(Negative)
    else if Text.ByteLength(FracPart(s)) > 6 then Err(TooManyDecimals)
    else FitUint64(ParseInt(Glue(IntPart(s), FracPart(s))))
  }

  function ToQuantums(human: string): Result<nat, AmountError> {
    TrimmedToQuantums(Text.TrimSpace(human))
  }

  method PadFraction(frac: string) returns (padded: string)
    requires Text.ByteLength(frac) <= 6
    ensures padded == PadRight(frac)
  {
    padded := frac;
    ghost var k := 0;
    while Text.ByteLength(padded) < 6
      invariant Text.ByteLength(padded) == Text.ByteLength(frac) + k <= 6
      invariant padded == frac + Zeros(k)
      decreases 6 - Text.ByteLength(padded)
    {
      Text.ByteLengthSnoc(padded, '0');
      padded := padded + "0";
      k := k + 1;
    }
  }

  method HumanToQuantums(human: string) returns (r: Result<nat, AmountError>)
    ensures r == ToQuantums(human)
  {
    var s := Text.TrimSpace(human);
    if s == [] { return Err(Empty); }
    if s[0] == '-' { return Err(Negative); }
    var dot := Text.IndexOf(s, '.');
    var hasFrac := dot < |s|;
    var intPart, fracPart := s[..dot], if hasFrac then s[dot + 1..] else [];
    if intPart == [] && !hasFrac { return Err(Invalid); }
    if hasFrac && Text.ByteLength(fracPart) > 6 { return Err(TooManyDecimals); }
    if intPart == [] { intPart := "0"; }
    fracPart := PadFraction(fracPart);
    r := FitUint64(ParseInt(intPart + fracPart));
  }

  /** The amounts the parser is meant for: an optional plus sign, digits, and optionally
      a dot with at most six digits. Either digit string may be empty. */
  datatype Amount = Amount(plus: bool, whole: string, dot: bool, frac: string) {
    predicate Wf() {
      && AllDigits(whole) && AllDigits(frac) && |frac| <= 6 && (!dot ==> frac == [])
    }
    function Head(): string { Signed(plus, whole) }

    function Text(): string { if dot then Head() + ['.'] + frac else Head() }

    /** A million times the decimal number written. */
    function Micros(): nat
      requires Wf()
    {
      Value(whole) * 1_000_000 + Value(frac) * Pow10(6 - |frac|)
    }
  }

  function Signed(plus: bool, s: string): string { if plus then "+" + s else s }

  lemma DigitsOnly(s: string)
    requires AllDigits(s)
    ensures '.' !in s && '+' !in s && '-' !in s
  {
    assert forall i :: 0 <= i < |s| ==> IsDigit(s[i]);
  }

  /** Where the first dot of a well-formed amount is. */
  lemma AmountParts(a: Amount)
    requires a.Wf()
    ensures IntPart(a.Text()) == a.Head() && FracPart(a.Text()) == a.frac
    ensures a.Text() != [] ==> a.Text()[0] != '-'
  {
    DigitsOnly(a.whole);
    assert '.' !in a.Head() && '-' !in a.Head();
    if a.dot { Text.IndexOfAppend(a.Head(), '.', a.frac); }
  }

  /** A million times the number, read off the digits the parser glues together. */
  lemma GluedDigits(whole: string, frac: string)
    requires AllDigits(whole) && AllDigits(frac) && Text.ByteLength(frac) <= 6
    ensures |frac| <= 6 && AllDigits(PadRight(frac)) && AllDigits(whole + PadRight(frac))
    ensures Value(whole + PadRight(frac)) == Value(whole) * 1_000_000 + Value(frac) * Pow10(6 - |frac|)
  {
    var k := 6 - |frac|;
    DigitBytes(frac);
    ValueConcat(frac, Zeros(k));
    ValueZeros(k);
    ValueConcat(whole, PadRight(frac));
    Pow10Six();
  }

  /** Sign, digits: the two shapes `ParseInt` reads. */
  lemma ParseSigned(plus: bool, d: string)
    requires d != [] && (!plus ==> d[0] != '+' && d[0] != '-')
    ensures ParseInt(Signed(plus, d)) == if AllDigits(d) then Some(Value(d)) else None
  {
    if plus { assert ("+" + d)[1..] == d; }
  }

  /** The digits of `whole`, never empty unless a sign precedes them. */
  function WholeDigits(plus: bool, whole: string): string {
    if whole == [] && !plus then "0" else whole
  }

  lemma GlueSigned(plus: bool, whole: string, frac: string)
    requires Text.ByteLength(frac) <= 6
    ensures Glue(Signed(plus, whole), frac) == Signed(plus, WholeDigits(plus, whole) + PadRight(frac))
  {
    if plus {
      assert ("+" + whole) + PadRight(frac) == "+" + (whole + PadRight(frac));
    }
  }

  /** What the parser makes of any text cut into sign, digits and fraction. */
  lemma ParsePieces(plus: bool, whole: string, frac: string)
    requires Text.ByteLength(frac) <= 6 && (!plus && whole != [] ==> whole[0] != '+' && whole[0] != '-')
    ensures ParseInt(Glue(Signed(plus, whole), frac)) ==
            if AllDigits(whole) && AllDigits(frac)
            then Some(Amount(plus, whole, true, frac).Micros()) else None
  {
    hide Text.ByteLength, Value, Pow10, Glue, PadRight, ParseInt;
    var w := WholeDigits(plus, whole);
    GlueSigned(plus, whole, frac);
    PadNotEmpty(w, frac);
    ParseSigned(plus, w + PadRight(frac));
    WholeSame(plus, whole);
    if AllDigits(whole) && AllDigits(frac) { GluedDigits(w, frac); } else { NotAllDigits(w, frac); }
  }

  lemma WholeSame(plus: bool, whole: string)
    ensures var w := WholeDigits(plus, whole);
            (AllDigits(w) <==> AllDigits(whole)) && (AllDigits(w) ==> Value(w) == Value(whole))
  {
    assert Value("0") == 0 == Value("");
  }

  lemma PadNotEmpty(w: string, frac: string)
    requires Text.ByteLength(frac) <= 6
    ensures PadRight(frac) != [] && (w == [] && frac == [] ==> (w + PadRight(frac))[0] == '0')
  {
    if frac == [] { ZerosFront(5); }
  }

  lemma NotAllDigits(w: string, frac: string)
    requires Text.ByteLength(frac) <= 6 && !(AllDigits(w) && AllDigits(frac))
    ensures !AllDigits(w + PadRight(frac))
  {
    hide Text.ByteLength;
    if AllDigits(w + PadRight(frac)) {
      DigitsOfParts(w, PadRight(frac));
      DigitsOfParts(frac, Zeros(6 - Text.ByteLength(frac)));
    }
  }

  lemma DigitsOfParts(a: string, b: string)
    requires AllDigits(a + b)
    ensures AllDigits(a) && AllDigits(b)
  {
    assert forall i :: 0 <= i < |a| ==> a[i] == (a + b)[i];
    assert forall i :: 0 <= i < |b| ==> b[i] == (a + b)[|a| + i];
  }

  /** Every well-formed amount is read with exactly its value, unless it overflows. */
  lemma AmountAccepted(a: Amount)
    requires a.Wf() && a.Text() != []
    ensures TrimmedToQuantums(a.Text()) == FitUint64(Some(a.Micros()))
  {
    AmountParts(a);
    DigitsOnly(a.whole);
    DigitBytes(a.frac);
    ParsePieces(a.plus, a.whole, a.frac);
  }

  /** The amount a piece of text would have to be: sign, then what is left of the dot. */
  function ReadAmount(s: string): Amount {
    var ip := IntPart(s);
    var plus := ip != [] && ip[0] == '+';
    Amount(plus, if plus then ip[1..] else ip, Text.IndexOf(s, '.') < |s|, FracPart(s))
  }

  lemma ReadAmountText(s: string)
    ensures ReadAmount(s).Text() == s && ReadAmount(s).Head() == IntPart(s)
  {
    var ip := IntPart(s);
    if ip != [] && ip[0] == '+' { assert "+" + ip[1..] == ip; }
  }

  /** Conversely, whatever is accepted is one of those amounts, with its value. */
  lemma AcceptedIsAmount(s: string)
    requires TrimmedToQuantums(s).Ok?
    ensures ReadAmount(s).Wf() && ReadAmount(s).Text() == s
    ensures TrimmedToQuantums(s) == Ok(ReadAmount(s).Micros())
  {
    hide Value, Pow10, Glue, ParseInt;
    var a := ReadAmount(s);
    ReadAmountText(s);
    ParsePieces(a.plus, a.whole, a.frac);
  }

  /** `QuantumsToHuman`: whole part, dot, six digits. */
  function QuantumsToHuman(q: nat): string {
    Print(q / QUANTUMS_PER_USDC) + ['.'] + PrintPadded(q % QUANTUMS_PER_USDC, 6)
  }

  /** `baseToHuman`, with `None` for the nil pointer. */
  function BaseToHuman(base: Option<int>, decimals: int): string {
    if base.None? then "0"
    else if decimals <= 0 then PrintInt(base.value)
    else if base.value < 0 then "-" + MagnitudeToHuman(-base.value, decimals)
    else MagnitudeToHuman(base.value, decimals)
  }

  function MagnitudeToHuman(abs: nat, decimals: nat): string {
    WithFraction(Quo(abs, Pow10(decimals)), Rem(abs, Pow10(decimals)), decimals)
  }

  function WithFraction(whole: nat, frac: nat, decimals: nat): string {
    if frac == 0 then Print(whole)
    else Print(whole) + ['.'] + TrimZeros(PrintPadded(frac, decimals))
  }

  method RenderBase(base: Option<int>, decimals: int) returns (out: string)
    ensures out == BaseToHuman(base, decimals)
  {
    if base.None? { return "0"; }
    if decimals <= 0 { return PrintInt(base.value); }
    var neg := base.value < 0;
    var abs: nat := if neg then -base.value else base.value;
    var whole, frac := Quo(abs, Pow10(decimals)), Rem(abs, Pow10(decimals));
    out := Print(whole);
    if frac > 0 {
      var fracStr := PadFront(Print(frac), decimals);
      out := out + ['.'] + TrimZeros(fracStr);
    }
    assert out == MagnitudeToHuman(abs, decimals);
    if neg { out := "-" + out; }
  }

  method PadFront(digits: string, width: nat) returns (s: string)
    ensures s == Zeros(Max(0, width - |digits|)) + digits
  {
    s := digits;
    while |s| < width
      invariant |digits| <= |s| <= Max(width, |digits|)
      invariant s == Zeros(|s| - |digits|) + digits
    {
      ZerosFront(|s| - |digits|);
      s := "0" + s;
    }
  }

  lemma {:induction false} ZerosFront(k: nat)
    ensures Zeros(k + 1) == "0" + Zeros(k)
  {
    if k > 0 { ZerosFront(k - 1); }
  }

  /** Whole and fractional digits, read back. */
  lemma ReadBack(whole: string, frac: string)
    requires AllDigits(whole) && AllDigits(frac) && |frac| <= 6 && whole != [] && frac != []
    ensures ToQuantums(whole + ['.'] + frac) ==
            FitUint64(Some(Value(whole) * 1_000_000 + Value(frac) * Pow10(6 - |frac|)))
  {
    hide TrimmedToQuantums, Value, Pow10, Text.ByteLength, Text.TrimSpace, Text.IsSpace;
    var s := whole + ['.'] + frac;
    DigitEnds(s, whole[0], frac[|frac| - 1]);
    AmountAccepted(Amount(false, whole, true, frac));
  }

  lemma ReadBackWhole(whole: string)
    requires AllDigits(whole) && whole != []
    ensures ToQuantums(whole) == FitUint64(Some(Value(whole) * 1_000_000))
  {
    hide TrimmedToQuantums;
    DigitEnds(whole, whole[0], whole[|whole| - 1]);
    AmountAccepted(Amount(false, whole, false, ""));
  }

  lemma DigitEnds(s: string, first: char, last: char)
    requires s != [] && s[0] == first && s[|s| - 1] == last && IsDigit(first) && IsDigit(last)
    ensures Text.TrimSpace(s) == s
  {
    Text.TrimSpaceKeeps(s);
  }

  /** The six-digit rendering parses back to the same number of quantums. */
  lemma QuantumsRoundTrip(q: nat)
    requires q <= MAX_UINT64
    ensures ToQuantums(QuantumsToHuman(q)) == Ok(q)
  {
    hide ToQuantums, Value, Print, PrintPadded, Pow10;
    var whole, frac := q / QUANTUMS_PER_USDC, q % QUANTUMS_PER_USDC;
    Pow10Six();
    ValuePrintPadded(frac, 6);
    ValuePrint(whole);
    ReadBack(Print(whole), PrintPadded(frac, 6));
  }

  /** So does the trimmed rendering the cap store puts into its errors. */
  lemma BaseRoundTrip(q: nat)
    requires q <= MAX_UINT64
    ensures ToQuantums(BaseToHuman(Some(q), 6)) == Ok(q)
  {
    hide ToQuantums, WithFraction, Pow10;
    var whole, frac := Quo(q, 1_000_000), Rem(q, 1_000_000);
    Pow10Six();
    WithFractionReads(whole, frac);
  }

  lemma WithFractionReads(whole: nat, frac: nat)
    requires frac < Pow10(6)
    ensures ToQuantums(WithFraction(whole, frac, 6)) == FitUint64(Some(whole * 1_000_000 + frac))
  {
    hide ToQuantums, Value, Print, PrintPadded;
    ValuePrint(whole);
    if frac == 0 {
      ReadBackWhole(Print(whole));
    } else {
      var p := PrintPadded(frac, 6);
      ValuePrintPadded(frac, 6);
      TrimmedFraction(p);
      ReadBack(Print(whole), TrimZeros(p));
    }
  }

  /** Cutting trailing zeros keeps the fraction's value and, when it is not zero, some digit. */
  lemma TrimmedFraction(p: string)
    requires AllDigits(p) && Value(p) > 0
    ensures AllDigits(TrimZeros(p)) && TrimZeros(p) != []
    ensures Value(TrimZeros(p)) * Pow10(|p| - |TrimZeros(p)|) == Value(p)
  {
    var t := TrimZeros(p);
    TrimZerosPadBack(p);
    assert AllDigits(t);
    ValueConcat(t, Zeros(|p| - |t|));
    ValueZeros(|p| - |t|);
  }

  // ---- Any number of decimals ----------------------------------------------------

  /** How many base units a decimal number stands for, at d decimals; `None` for anything else. */
  function Magnitude(s: string, d: nat): Option<int> {
    var w, f := IntPart(s), FracPart(s);
    if w == [] || !AllDigits(w) || !AllDigits(f) || |f| > d then None
    else Some(Value(w) * Pow10(d) + Value(f) * Pow10(d - |f|))
  }

  function Denoted(s: string, d: nat): Option<int> {
    if s != [] && s[0] == '-'
    then var m := Magnitude(s[1..], d); if m.None? then None else Some(-m.value)
    else Magnitude(s, d)
  }

  lemma MagnitudeOf(w: string, f: string, d: nat)
    requires w != [] && AllDigits(w) && AllDigits(f) && |f| <= d
    ensures Magnitude(w + ['.'] + f, d) == Some(Value(w) * Pow10(d) + Value(f) * Pow10(d - |f|))
    ensures Magnitude(w, d) == Some(Value(w) * Pow10(d))
    ensures w[0] != '-'
  {
    hide Value, Pow10;
    DigitsOnly(w);
    Text.IndexOfAppend(w, '.', f);
    var s := w + ['.'] + f;
    assert IntPart(s) == w && FracPart(s) == f;
    assert IntPart(w) == w && FracPart(w) == [];
    assert Value([]) == 0 by { EmptyValue(); }
  }

  lemma EmptyValue()
    ensures Value([]) == 0
  {
  }

  lemma MagnitudeRendered(whole: nat, frac: nat, d: nat)
    requires d > 0 && frac < Pow10(d)
    ensures var s := WithFraction(whole, frac, d);
            s != [] && s[0] != '-' && Magnitude(s, d) == Some(whole * Pow10(d) + frac)
  {
    hide Value, Print, PrintPadded, Magnitude, Pow10, TrimZeros;
    ValuePrint(whole);
    if frac == 0 {
      MagnitudeOf(Print(whole), [], d);
    } else {
      var p := PrintPadded(frac, d);
      ValuePrintPadded(frac, d);
      TrimmedFraction(p);
      MagnitudeOf(Print(whole), TrimZeros(p), d);
    }
  }

  /** `baseToHuman` is exact for every amount, of either sign, and every number of decimals: what it prints denotes
      the amount. */
  lemma RenderedTruly(z: int, decimals: int)
    ensures Denoted(BaseToHuman(Some(z), decimals), Max(0, decimals)) == Some(z)
  {
    hide Print, Magnitude, MagnitudeToHuman, Pow10;
    var abs: nat := if z < 0 then -z else z;
    if decimals <= 0 {
      WholeRendered(abs);
      assert ("-" + Print(abs))[1..] == Print(abs);
    } else {
      FractionRendered(abs, decimals);
      assert ("-" + MagnitudeToHuman(abs, decimals))[1..] == MagnitudeToHuman(abs, decimals);
    }
  }

  lemma WholeRendered(abs: nat)
    ensures var s := Print(abs); s != [] && s[0] != '-' && Magnitude(s, 0) == Some(abs)
  {
    hide Value, Print, Magnitude, Pow10;
    ValuePrint(abs);
    MagnitudeOf(Print(abs), [], 0);
    Pow10Zero();
  }

  lemma FractionRendered(abs: nat, decimals: nat)
    requires decimals > 0
    ensures var s := MagnitudeToHuman(abs, decimals); s != [] && s[0] != '-' && Magnitude(s, decimals) == Some(abs)
  {
    hide Magnitude, WithFraction, Pow10, Quo, Rem;
    QuoRem(abs, Pow10(decimals));
    MagnitudeRendered(Quo(abs, Pow10(decimals)), Rem(abs, Pow10(decimals)), decimals);
  }

  lemma Pow10Zero()
    ensures Pow10(0) == 1
  {
  }

  // ---- The shape of the texts ------------------------------------------------------

  /** Why an amount is refused: empty, negative, more than six decimals, not a number, too large for uint64. */
  lemma RefusedAs(human: string)
    ensures var s, r := Text.TrimSpace(human), ToQuantums(human);
            && (s == "" ==> r == Err(Empty))
            && (s != "" && s[0] == '-' ==> r == Err(Negative))
            && (s != "" && s[0] != '-' && Text.ByteLength(FracPart(s)) > 6 ==> r == Err(TooManyDecimals))
            && (s != "" && s[0] != '-' && Text.ByteLength(FracPart(s)) <= 6 ==>
                  var a := ReadAmount(s);
                  && (!(AllDigits(a.whole) && AllDigits(a.frac)) ==> r == Err(Invalid))
                  && (a.Wf() && a.Micros() > 0xFFFF_FFFF_FFFF_FFFF ==> r == Err(Overflow)))
  {
    hide Value, Pow10, Glue, ParseInt, Text.TrimSpace, Text.ByteLength;
    var s := Text.TrimSpace(human);
    if s != "" && s[0] != '-' && Text.ByteLength(FracPart(s)) <= 6 {
      var a := ReadAmount(s);
      ReadAmountText(s);
      ParsePieces(a.plus, a.whole, a.frac);
    }
  }

  /** Quantums are always shown with exactly six decimals. */
  lemma SixDecimals(q: nat)
    ensures var s := QuantumsToHuman(q);
            |FracPart(s)| == 6 && AllDigits(FracPart(s)) && IntPart(s) == Print(q / 1_000_000)
  {
    hide Print, PrintPadded, Pow10;
    var whole, frac := Print(q / 1_000_000), PrintPadded(q % 1_000_000, 6);
    Pow10Six();
    ValuePrint(q / 1_000_000);
    ValuePrintPadded(q % 1_000_000, 6);
    DigitsOnly(whole);
    Text.IndexOfAppend(whole, '.', frac);
  }

  /** Base amounts are shown as short as they can be: no zero ends the decimals, and without decimals there is no dot.
      A nil amount is shown as zero. */
  lemma ShortestText(z: int, decimals: int)
    ensures Short(BaseToHuman(Some(z), decimals)) && BaseToHuman(None, decimals) == "0"
  {
    hide Print, MagnitudeToHuman, Short;
    var abs: nat := if z < 0 then -z else z;
    if decimals <= 0 {
      NoDot(abs);
      ShortWhole(Print(abs));
      ShortWhole("-" + Print(abs));
    } else {
      ShortMagnitude(abs, decimals, "");
      ShortMagnitude(abs, decimals, "-");
      assert "" + MagnitudeToHuman(abs, decimals) == MagnitudeToHuman(abs, decimals);
    }
  }

  predicate Short(s: string) {
    var f := FracPart(s); '.' in s ==> f != "" && f[|f| - 1] != '0'
  }

  lemma NoDot(n: nat)
    ensures '.' !in Print(n)
  {
    ValuePrint(n);
    DigitsOnly(Print(n));
  }

  lemma ShortWhole(w: string)
    requires '.' !in w
    ensures Short(w)
  {
  }

  lemma ShortFraction(w: string, t: string)
    requires '.' !in w && t != [] && t[|t| - 1] != '0'
    ensures Short(w + ['.'] + t)
  {
    Text.IndexOfAppend(w, '.', t);
  }

  lemma ShortMagnitude(abs: nat, decimals: nat, sign: string)
    requires decimals > 0 && '.' !in sign
    ensures Short(sign + MagnitudeToHuman(abs, decimals))
  {
    hide Print, PrintPadded, Pow10, TrimZeros, Quo, Rem, Short;
    var whole, frac := Quo(abs, Pow10(decimals)), Rem(abs, Pow10(decimals));
    NoDot(whole);
    if frac == 0 {
      ShortWhole(sign + Print(whole));
    } else {
      var p := PrintPadded(frac, decimals);
      ValuePrintPadded(frac, decimals);
      TrimmedFraction(p);
      NoZeroLast(p);
      ShortFraction(sign + Print(whole), TrimZeros(p));
      assert sign + (Print(whole) + ['.'] + TrimZeros(p)) == sign + Print(whole) + ['.'] + TrimZeros(p);
    }
  }

  lemma {:induction false} NoZeroLast(s: string)
    ensures var t := TrimZeros(s); t != [] ==> t[|t| - 1] != '0'
    decreases |s|
  {
    if s != [] && s[|s| - 1] == '0' { NoZeroLast(s[..|s| - 1]); }
  }

  /** Whole numbers are printed without leading zeros. */
  lemma {:induction false} NoLeadingZero(n: nat)
    ensures Print(n) != [] && (Print(n)[0] == '0' <==> n == 0) && (n == 0 ==> Print(n) == "0")
  {
    if n >= 10 { NoLeadingZero(n / 10); }
  }
}

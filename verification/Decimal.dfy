/** Decimal strings for money (src/shared/money/money.ts) and for exchange rates (scaleRate). */
module Decimal {
  import opened Wrappers
  import opened Arithmetic

  datatype Money = Money(minor: int, currency: string)

  datatype DecimalError =
    | InvalidCurrency | InvalidDecimal | TooManyFractionDigits | TooManySignificantDigits
    | InvalidRate | ZeroRate

  /** The text around the sign and the dot. */
  datatype Parts = Parts(negative: bool, whole: string, fraction: string, dotted: bool)

  // ---------- Characters and digit strings ----------

  predicate IsDigit(c: char) {
    '0' <= c <= '9'
  }

  predicate AllDigits(s: string) {
    forall i :: 0 <= i < |s| ==> IsDigit(s[i])
  }

  function Digit(n: int): (c: char)
    requires 0 <= n < 10
    ensures IsDigit(c) && DigitValue(c) == n
  {
    '0' + n as char
  }

  function DigitValue(c: char): int {
    c as int - '0' as int
  }

  function Pow10(k: nat): (p: nat)
    ensures p >= 1
  {
    if k == 0 then 1 else 10 * Pow10(k - 1)
  }

  /** BigInt(s) on a digit string; BigInt('') is 0. */
  function Nat(s: string): int {
    if s == [] then 0 else 10 * Nat(s[..|s| - 1]) + DigitValue(s[|s| - 1])
  }

  /** BigInt.toString on a non-negative value. */
  function NatToString(n: nat): (s: string)
    ensures AllDigits(s) && |s| >= 1
  {
    if n < 10 then [Digit(n)] else NatToString(n / 10) + [Digit(n % 10)]
  }

  function Zeros(k: nat): (s: string)
    ensures |s| == k && AllDigits(s)
  {
    seq(k, _ => '0')
  }

  function PadStart(s: string, k: nat): (r: string)
    ensures |r| == if |s| < k then k else |s|
    ensures AllDigits(s) ==> AllDigits(r)
  {
    if |s| < k then Zeros(k - |s|) + s else s
  }

  function PadEnd(s: string, k: nat): (r: string)
    ensures |r| == if |s| < k then k else |s|
    ensures AllDigits(s) ==> AllDigits(r)
  {
    if |s| < k then s + Zeros(k - |s|) else s
  }

  /** replace(/^0+/, '') */
  function StripZeros(s: string): string {
    if s != [] && s[0] == '0' then StripZeros(s[1..]) else s
  }

  /** indexOf, with the length standing for "absent". */
  function IndexOf(s: string, c: char): (i: nat)
    ensures i <= |s| && c !in s[..i]
    ensures i < |s| ==> s[i] == c
  {
    if s == [] || s[0] == c then 0 else
      var i := 1 + IndexOf(s[1..], c);
      assert s[..i] == [s[0]] + s[1..][..i - 1];
      i
  }

  function Split(value: string): Parts {
    var negative := value != [] && value[0] == '-';
    var unsigned := if negative then value[1..] else value;
    var dot := IndexOf(unsigned, '.');
    if dot == |unsigned| then Parts(negative, unsigned, [], false)
    else Parts(negative, unsigned[..dot], unsigned[dot + 1..], true)
  }

  // ---------- money.ts ----------

  predicate IsCurrency(code: string) {
    |code| == 3 && forall i :: 0 <= i < 3 ==> 'A' <= code[i] <= 'Z'
  }

  function Signed(negative: bool, unsigned: string): string {
    if negative then "-" + unsigned else unsigned
  }

  function Pointed(digits: string, minorUnitDigits: nat): string {
    if minorUnitDigits == 0 then digits
    else
      var padded := PadStart(digits, minorUnitDigits + 1);
      var cut := |padded| - minorUnitDigits;
      padded[..cut] + "." + padded[cut..]
  }

  function ToDecimalString(minor: int, minorUnitDigits: nat): string {
    Signed(minor < 0, Pointed(NatToString(Abs(minor)), minorUnitDigits))
  }

  /** /^-?\d{1,19}(\.\d+)?$/ */
  predicate IsDecimal(p: Parts) {
    && AllDigits(p.whole) && 1 <= |p.whole| <= 19
    && AllDigits(p.fraction) && (p.dotted ==> |p.fraction| >= 1)
  }

  function FromParts(p: Parts, code: string, minorUnitDigits: nat): Result<Money, DecimalError> {
    if !IsDecimal(p) then Failure(InvalidDecimal)
    else if |p.fraction| > minorUnitDigits then Failure(TooManyFractionDigits)
    else if |StripZeros(p.whole)| + |p.fraction| > 19 then Failure(TooManySignificantDigits)
    else
      var minor: int := Nat(p.whole + PadEnd(p.fraction, minorUnitDigits));
      if IsCurrency(code) then Success(Money(if p.negative then -minor else minor, code))
      else Failure(InvalidCurrency)
  }

  function FromDecimalString(value: string, code: string, minorUnitDigits: nat): Result<Money, DecimalError> {
    FromParts(Split(value), code, minorUnitDigits)
  }

  // ---------- scaleRate (convert.ts) ----------

  /** /^\d{1,10}(\.\d{1,10})?$/ */
  predicate IsRate(p: Parts) {
    && !p.negative
    && AllDigits(p.whole) && 1 <= |p.whole| <= 10
    && AllDigits(p.fraction) && |p.fraction| <= 10 && (p.dotted ==> |p.fraction| >= 1)
  }

  function ScaleRate(rate: string): Result<int, DecimalError> {
    var p := Split(rate);
    if !IsRate(p) then Failure(InvalidRate) else
      var scaled := Nat(p.whole + PadEnd(p.fraction, 10));
      if scaled == 0 then Failure(ZeroRate) else Success(scaled)
  }

  // ---------- Reading and writing digits ----------

  lemma Pow10Adds(a: nat, b: nat)
    ensures Pow10(a + b) == Pow10(a) * Pow10(b)
  {
    if a > 0 {
      Pow10Adds(a - 1, b);
      assert 10 * (Pow10(a - 1) * Pow10(b)) == (10 * Pow10(a - 1)) * Pow10(b);
    }
  }

  lemma Shift(n: int, x: int)
    ensures 10 * (n * x) == n * (10 * x)
  {
  }

  lemma NatSnoc(s: string, c: char)
    ensures Nat(s + [c]) == 10 * Nat(s) + DigitValue(c)
  {
  }

  lemma NatConcat(a: string, b: string)
    ensures Nat(a + b) == Nat(a) * Pow10(|b|) + Nat(b)
  {
    if b == [] {
      assert a + b == a;
    } else {
      var c, x := b[..|b| - 1], b[|b| - 1];
      assert b == c + [x] && a + b == (a + c) + [x];
      NatConcat(a, c);
      NatSnoc(a + c, x);
      Shift(Nat(a), Pow10(|c|));
    }
  }

  lemma DigitsAreNonNegative(s: string)
    requires AllDigits(s)
    ensures Nat(s) >= 0
  {
  }

  lemma NatOfZeros(k: nat)
    ensures Nat(Zeros(k)) == 0
  {
    if k > 0 {
      assert Zeros(k)[..k - 1] == Zeros(k - 1);
      NatOfZeros(k - 1);
    }
  }

  /** toString is read back exactly, and its length is the number of digits the value needs. */
  lemma NatToStringReadsBack(n: nat)
    ensures Nat(NatToString(n)) == n
    ensures Pow10(|NatToString(n)| - 1) <= (if n == 0 then 1 else n) < Pow10(|NatToString(n)|)
  {
  }

  lemma PadStartValue(s: string, k: nat)
    ensures Nat(PadStart(s, k)) == Nat(s)
  {
    if |s| < k {
      NatConcat(Zeros(k - |s|), s);
      NatOfZeros(k - |s|);
    }
  }

  lemma PadEndValue(s: string, k: nat)
    ensures |s| <= k ==> Nat(PadEnd(s, k)) == Nat(s) * Pow10(k - |s|)
  {
    if |s| < k {
      NatConcat(s, Zeros(k - |s|));
      NatOfZeros(k - |s|);
    } else {
      assert Pow10(0) == 1;
    }
  }

  lemma IndexOfFirst(s: string, c: char, i: nat)
    requires i <= |s| && c !in s[..i] && (i < |s| ==> s[i] == c)
    ensures IndexOf(s, c) == i
  {
  }

  lemma DigitsAreNotPunctuation(s: string)
    requires AllDigits(s)
    ensures '.' !in s && '-' !in s
  {
  }

  lemma SplitSigned(negative: bool, unsigned: string, whole: string, fraction: string, dotted: bool)
    requires AllDigits(whole) && whole != [] && whole[0] != '-'
    requires unsigned == if dotted then whole + "." + fraction else whole
    requires !dotted ==> fraction == []
    ensures Split(Signed(negative, unsigned)) == Parts(negative, whole, fraction, dotted)
  {
    DigitsAreNotPunctuation(whole);
    assert unsigned[..|whole|] == whole;
    IndexOfFirst(unsigned, '.', |whole|);
    assert negative ==> Signed(negative, unsigned)[1..] == unsigned;
    if dotted { assert unsigned[|whole| + 1..] == fraction; }
  }

  /** The whole and fractional text of a rendered amount, over one run of digits. */
  lemma RenderedParts(minor: int, d: nat) returns (p: Parts)
    ensures p == Split(ToDecimalString(minor, d))
    ensures p.negative == (minor < 0) && p.dotted == (d > 0) && |p.fraction| == d
    ensures AllDigits(p.whole) && AllDigits(p.fraction)
    ensures p.whole + p.fraction == PadStart(NatToString(Abs(minor)), d + 1)
  {
    var whole, fraction := PointedParts(NatToString(Abs(minor)), d);
    p := Parts(minor < 0, whole, fraction, d > 0);
    DigitsAreNotPunctuation(whole);
    SplitSigned(minor < 0, Pointed(NatToString(Abs(minor)), d), whole, fraction, d > 0);
  }

  lemma PointedParts(digits: string, d: nat) returns (whole: string, fraction: string)
    requires AllDigits(digits) && digits != []
    ensures AllDigits(whole) && AllDigits(fraction) && |fraction| == d && whole != []
    ensures whole + fraction == PadStart(digits, d + 1)
    ensures Pointed(digits, d) == if d > 0 then whole + "." + fraction else whole
  {
    var padded := PadStart(digits, d + 1);
    whole, fraction := padded[..|padded| - d], padded[|padded| - d..];
  }

  lemma StripKeepsNonZeroHead(s: string)
    ensures |StripZeros(s)| <= |s|
    ensures s != [] && s[0] != '0' ==> StripZeros(s) == s
  {
  }

  lemma LeadingDigit(n: nat)
    ensures n > 0 ==> NatToString(n)[0] != '0'
    ensures n == 0 ==> NatToString(n) == "0"
  {
  }

  lemma DigitCount(n: nat, k: nat)
    requires k >= 1
    ensures |NatToString(n)| <= k <==> n < Pow10(k)
  {
  }

  /** How many significant digits the parser counts before the dot of a rendered amount. */
  lemma WholeSignificance(digits: string, d: nat, whole: string, fraction: string)
    requires digits != [] && (digits == "0" || digits[0] != '0')
    requires |fraction| == d && whole + fraction == PadStart(digits, d + 1)
    ensures |digits| > d && digits != "0" ==> |StripZeros(whole)| == |whole| == |digits| - d
    ensures |digits| <= d || digits == "0" ==> |whole| == 1 && |StripZeros(whole)| == 0
  {
    var head := (whole + fraction)[0];
    assert |whole| >= 1 && head == whole[0];
    if |digits| > d && digits != "0" {
      assert head == digits[0];
      StripKeepsNonZeroHead(whole);
    } else {
      assert |whole| == 1 && whole == ['0'];
      assert StripZeros(whole) == StripZeros(whole[1..]);
    }
  }

  lemma RenderedSignificance(minor: int, d: nat, p: Parts)
    requires |p.fraction| == d && p.whole + p.fraction == PadStart(NatToString(Abs(minor)), d + 1)
    ensures |p.whole| >= 1
    ensures |StripZeros(p.whole)| + d <= 19 && |p.whole| <= 19 <==> Abs(minor) < Pow10(19) && d <= 19
  {
    LeadingDigit(Abs(minor));
    DigitCount(Abs(minor), 19);
    WholeSignificance(NatToString(Abs(minor)), d, p.whole, p.fraction);
  }

  /**
   * The round trip holds for every amount below 10^19 at up to 19 fractional digits, and for no
   * other: outside that range the parser refuses what the renderer wrote.
   */
  lemma DecimalRoundTrip(minor: int, code: string, d: nat)
    requires IsCurrency(code)
    ensures FromDecimalString(ToDecimalString(minor, d), code, d) == Success(Money(minor, code))
      <==> Abs(minor) < Pow10(19) && d <= 19
  {
    var p := RenderedParts(minor, d);
    PartsRoundTrip(minor, code, d, p);
  }

  lemma PartsRoundTrip(minor: int, code: string, d: nat, p: Parts)
    requires IsCurrency(code)
    requires p.negative == (minor < 0) && p.dotted == (d > 0) && |p.fraction| == d
    requires AllDigits(p.whole) && AllDigits(p.fraction)
    requires p.whole + p.fraction == PadStart(NatToString(Abs(minor)), d + 1)
    ensures FromParts(p, code, d) == Success(Money(minor, code)) <==> Abs(minor) < Pow10(19) && d <= 19
  {
    RenderedSignificance(minor, d, p);
    RenderedValue(minor, d, p);
  }

  lemma RenderedValue(minor: int, d: nat, p: Parts)
    requires |p.fraction| == d && p.whole + p.fraction == PadStart(NatToString(Abs(minor)), d + 1)
    ensures Nat(p.whole + PadEnd(p.fraction, d)) == Abs(minor)
  {
    NatToStringReadsBack(Abs(minor));
    PadStartValue(NatToString(Abs(minor)), d + 1);
    assert PadEnd(p.fraction, d) == p.fraction;
  }

  /** Whatever is accepted is worth exactly its text: whole.fraction = (whole fraction) / 10^|fraction|. */
  lemma AcceptedDecimalIsExact(value: string, code: string, d: nat)
    requires FromDecimalString(value, code, d).Success?
    ensures IsExactly(Split(value), d, FromDecimalString(value, code, d).value.minor)
  {
    AcceptedPartsAreExact(Split(value), code, d);
  }

  ghost predicate IsExactly(p: Parts, d: nat, minor: int) {
    && AllDigits(p.whole) && AllDigits(p.fraction) && |p.fraction| <= d
    && (if p.negative then -minor else minor) * Pow10(|p.fraction|) == Nat(p.whole + p.fraction) * Pow10(d)
  }

  lemma AcceptedPartsAreExact(p: Parts, code: string, d: nat)
    requires FromParts(p, code, d).Success?
    ensures IsExactly(p, d, FromParts(p, code, d).value.minor)
  {
    PaddedTextScales(p, d);
  }

  lemma PaddedTextScales(p: Parts, d: nat)
    requires |p.fraction| <= d
    ensures Nat(p.whole + PadEnd(p.fraction, d)) * Pow10(|p.fraction|) == Nat(p.whole + p.fraction) * Pow10(d)
  {
    var f, k := |p.fraction|, d - |p.fraction|;
    PadEndValue(p.fraction, d);
    NatConcat(p.whole, p.fraction);
    NatConcat(p.whole, PadEnd(p.fraction, d));
    Pow10Adds(f, k);
    CommonFactor(Nat(p.whole), Nat(p.fraction), Pow10(f), Pow10(k));
  }

  lemma CommonFactor(w: int, n: int, a: int, b: int)
    ensures (w * (a * b) + n * b) * a == (w * a + n) * (a * b)
  {
  }

  lemma DigitsAreBounded(s: string)
    requires AllDigits(s)
    ensures Nat(s) < Pow10(|s|)
  {
    if s != [] { DigitsAreBounded(s[..|s| - 1]); }
  }

  lemma Pow10Monotone(a: nat, b: nat)
    requires a <= b
    ensures Pow10(a) <= Pow10(b)
  {
    if a < b { Pow10Monotone(a, b - 1); }
  }

  lemma RateRange()
    ensures Pow10(20) == 100_000_000_000_000_000_000
  {
    assert Pow10(10) == RATE_SCALE;
    Pow10Adds(10, 10);
  }

  /** An accepted rate is positive and below 10^20, and is exactly its text times 10^10. */
  lemma ScaledRateIsExact(rate: string)
    requires ScaleRate(rate).Success?
    ensures var p := Split(rate);
      && 0 < ScaleRate(rate).value < Pow10(20) == 100_000_000_000_000_000_000 && |p.fraction| <= 10
      && ScaleRate(rate).value * Pow10(|p.fraction|) == Nat(p.whole + p.fraction) * RATE_SCALE
  {
    var p := Split(rate);
    PaddedTextScales(p, 10);
    var digits := p.whole + PadEnd(p.fraction, 10);
    DigitsAreNonNegative(digits);
    DigitsAreBounded(digits);
    Pow10Monotone(|digits|, 20);
    RateRange();
    assert Pow10(10) == RATE_SCALE;
  }

  /**
   * fx_rate is NUMERIC(20,10): a count of 10^-10 units, read back as text with ten decimals.
   * Reading it back through scaleRate gives the count again, for every count the column can hold.
   */
  lemma StoredRateReadsBack(n: int)
    requires n >= 0
    ensures ScaleRate(ToDecimalString(n, 10)) == Success(n) <==> 0 < n < Pow10(20)
  {
    var p := RenderedParts(n, 10);
    RenderedValue(n, 10, p);
    DigitCount(n, 20);
  }

  // ---------- What is accepted, on the text itself ----------

  /** An optional minus sign, digits, and optionally a dot with at least one more digit. */
  predicate IsText(value: string, negative: bool, whole: string, fraction: string) {
    && value == (if negative then "-" else "") + whole + (if fraction == "" then "" else "." + fraction)
    && whole != "" && (forall i :: 0 <= i < |whole| ==> '0' <= whole[i] <= '9')
    && (forall i :: 0 <= i < |fraction| ==> '0' <= fraction[i] <= '9')
  }

  lemma TextIsSplit(value: string, negative: bool, whole: string, fraction: string)
    requires IsText(value, negative, whole, fraction)
    ensures Split(value) == Parts(negative, whole, fraction, fraction != "")
    ensures AllDigits(whole) && AllDigits(fraction)
  {
    var unsigned := if fraction == "" then whole else whole + "." + fraction;
    assert value == Signed(negative, unsigned);
    SplitSigned(negative, unsigned, whole, fraction, fraction != "");
  }

  lemma SplitIsText(value: string)
    requires var p := Split(value); AllDigits(p.whole) && p.whole != "" && AllDigits(p.fraction) && (p.dotted ==> p.fraction != "")
    ensures IsText(value, Split(value).negative, Split(value).whole, Split(value).fraction)
  {
    hide IndexOf;
    var p := Split(value);
    var unsigned := if p.negative then value[1..] else value;
    var dot := IndexOf(unsigned, '.');
    assert p.negative ==> value == "-" + unsigned;
    assert p.dotted ==> unsigned == unsigned[..dot] + "." + unsigned[dot + 1..];
    TextJoins(value, p);
  }

  lemma TextJoins(value: string, p: Parts)
    requires AllDigits(p.whole) && p.whole != "" && AllDigits(p.fraction) && (p.dotted <==> p.fraction != "")
    requires value == (if p.negative then "-" else "") + (if p.dotted then p.whole + "." + p.fraction else p.whole)
    ensures IsText(value, p.negative, p.whole, p.fraction)
  {
  }

  /** `z` counts the leading zeros of the text. */
  predicate LeadsWithZeros(s: string, z: nat) {
    z <= |s| && (forall i :: 0 <= i < z ==> s[i] == '0') && (z < |s| ==> s[z] != '0')
  }

  lemma StripZerosMeaning(s: string, z: nat)
    requires LeadsWithZeros(s, z)
    ensures StripZeros(s) == s[z..]
  {
    if z > 0 { StripZerosMeaning(s[1..], z - 1); }
  }

  lemma PaddedText(whole: string, fraction: string, d: nat)
    requires |fraction| <= d
    ensures Nat(whole + PadEnd(fraction, d)) == Nat(whole + fraction) * Pow10(d - |fraction|)
  {
    assert whole + PadEnd(fraction, d) == PadEnd(whole + fraction, |whole| + d);
    PadEndValue(whole + fraction, |whole| + d);
  }

  /**
   * What the parser answers for every decimal text: the first of four errors that holds, and otherwise the
   * number the digits spell, with the sign, scaled up to the minor digits. `z` counts the leading zeros.
   */
  lemma {:induction false} DecimalAnswered(value: string, negative: bool, whole: string, fraction: string, z: nat, code: string, d: nat)
    requires IsText(value, negative, whole, fraction) && LeadsWithZeros(whole, z)
    ensures FromDecimalString(value, code, d) ==
      if |whole| > 19 then Failure(InvalidDecimal)
      else if |fraction| > d then Failure(TooManyFractionDigits)
      else if |whole| - z + |fraction| > 19 then Failure(TooManySignificantDigits)
      else if |code| != 3 || (exists i :: 0 <= i < 3 && !('A' <= code[i] <= 'Z')) then Failure(InvalidCurrency)
      else
        var minor := Nat(whole + fraction) * Pow10(d - |fraction|);
        Success(Money(if negative then -minor else minor, code))
  {
    hide Split, FromParts, Nat, Pow10, IsCurrency;
    TextIsSplit(value, negative, whole, fraction);
    PartsAnswered(Parts(negative, whole, fraction, fraction != ""), z, code, d);
    CurrencyMeaning(code);
  }

  lemma CurrencyMeaning(code: string)
    ensures IsCurrency(code) <==> !(|code| != 3 || exists i :: 0 <= i < 3 && !('A' <= code[i] <= 'Z'))
  {
  }

  lemma PartsAnswered(p: Parts, z: nat, code: string, d: nat)
    requires AllDigits(p.whole) && p.whole != "" && AllDigits(p.fraction) && (p.dotted <==> p.fraction != "")
    requires LeadsWithZeros(p.whole, z)
    ensures FromParts(p, code, d) ==
      if |p.whole| > 19 then Failure(InvalidDecimal)
      else if |p.fraction| > d then Failure(TooManyFractionDigits)
      else if |p.whole| - z + |p.fraction| > 19 then Failure(TooManySignificantDigits)
      else if !IsCurrency(code) then Failure(InvalidCurrency)
      else
        var minor := Nat(p.whole + p.fraction) * Pow10(d - |p.fraction|);
        Success(Money(if p.negative then -minor else minor, code))
  {
    hide StripZeros, Nat, Pow10, PadEnd, IsCurrency;
    StripZerosMeaning(p.whole, z);
    if |p.fraction| <= d { PaddedText(p.whole, p.fraction, d); }
  }

  /** A text is invalid exactly when it is no decimal text with at most 19 digits before the dot. */
  lemma {:induction false} InvalidDecimalIff(value: string, code: string, d: nat)
    ensures FromDecimalString(value, code, d) == Failure(InvalidDecimal) <==>
      forall negative, whole, fraction :: IsText(value, negative, whole, fraction) ==> |whole| > 19
  {
    var p := Split(value);
    forall negative, whole, fraction | IsText(value, negative, whole, fraction)
      ensures p == Parts(negative, whole, fraction, fraction != "") && AllDigits(whole) && AllDigits(fraction)
    {
      TextIsSplit(value, negative, whole, fraction);
    }
    if IsDecimal(p) { SplitIsText(value); }
  }

  /** What scaleRate answers for every unsigned decimal text. */
  lemma {:induction false} RateAnswered(rate: string, whole: string, fraction: string)
    requires IsText(rate, false, whole, fraction)
    ensures ScaleRate(rate) ==
      if |whole| > 10 || |fraction| > 10 then Failure(InvalidRate)
      else
        var scaled := Nat(whole + fraction) * Pow10(10 - |fraction|);
        if scaled == 0 then Failure(ZeroRate) else Success(scaled)
  {
    hide Split, Nat, Pow10, PadEnd;
    TextIsSplit(rate, false, whole, fraction);
    if |fraction| <= 10 { PaddedText(whole, fraction, 10); }
  }

  /** A rate is invalid exactly when it is no unsigned text with at most ten digits on either side of the dot. */
  lemma {:induction false} InvalidRateIff(rate: string)
    ensures ScaleRate(rate) == Failure(InvalidRate) <==>
      forall whole, fraction :: IsText(rate, false, whole, fraction) ==> |whole| > 10 || |fraction| > 10
  {
    var p := Split(rate);
    forall whole, fraction | IsText(rate, false, whole, fraction)
      ensures p == Parts(false, whole, fraction, fraction != "") && AllDigits(whole) && AllDigits(fraction)
    {
      TextIsSplit(rate, false, whole, fraction);
    }
    if IsRate(p) { SplitIsText(rate); }
  }
}

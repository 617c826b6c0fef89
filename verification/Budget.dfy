/**
 Costs arrive as floating-point numbers, are read off their decimal text and kept as whole micro-dollars:
 a limit is rounded down and an observed cost up.
 */
module Budget {
  import opened Options

  const MAX_SAFE_INTEGER: int := 9_007_199_254_740_991

  datatype Parts = Parts(coefficient: nat, exponent: int)

  datatype Rounding = Floor | Ceil

  // ---------------------------------------------------------------- decimal text

  predicate Digit(c: char) {
    '0' <= c <= '9'
  }

  predicate Digits(s: string) {
    |s| > 0 && forall i :: 0 <= i < |s| ==> Digit(s[i])
  }

  function DigitValue(c: char): nat
    requires Digit(c)
  {
    c as int - '0' as int
  }

  /** The number a string of digits stands for. */
  function Number(s: string): nat
    requires forall i :: 0 <= i < |s| ==> Digit(s[i])
  {
    if |s| == 0 then 0 else Number(s[..|s| - 1]) * 10 + DigitValue(s[|s| - 1])
  }

  function Pow10(n: nat): (p: nat)
    ensures p > 0
  {
    if n == 0 then 1 else 10 * Pow10(n - 1)
  }

  function Split(s: string, at: char): (pieces: seq<string>)
    ensures |pieces| > 0
  {
    if |s| == 0 then [""]
    else
      var rest := Split(s[1..], at);
      if s[0] == at then [""] + rest else [[s[0]] + rest[0]] + rest[1..]
  }

  /** The exponent of a number's text: an optional sign and digits. */
  function ReadExponent(s: string): Option<int> {
    if Digits(s) then Some(Number(s))
    else if |s| > 0 && s[0] == '+' && Digits(s[1..]) then Some(Number(s[1..]))
    else if |s| > 0 && s[0] == '-' && Digits(s[1..]) then Some(0 - Number(s[1..]))
    else None
  }

  function StripZeros(s: string): (stripped: string)
    ensures Digits(s) ==> Digits(stripped)
  {
    if |s| > 1 && s[0] == '0' && Digit(s[1]) then StripZeros(s[1..]) else s
  }

  function DecimalParts(text: string): Option<Parts> {
    var scientific := Split(text, 'e');
    var exponent := ReadExponent(if |scientific| > 1 then scientific[1] else "0");
    if exponent.None? || !(-MAX_SAFE_INTEGER <= exponent.value <= MAX_SAFE_INTEGER) then None
    else
      var mantissa := Split(scientific[0], '.');
      var fraction := if |mantissa| > 1 then mantissa[1] else "";
      var digits := StripZeros(mantissa[0] + fraction);
      if !Digits(digits) then None else Some(Parts(Number(digits), exponent.value - |fraction|))
  }

  function Quotient(c: nat, divisor: nat, rounding: Rounding): nat
    requires divisor > 0
  {
    c / divisor + if rounding == Ceil && c % divisor != 0 then 1 else 0
  }

  function Micros(parts: Parts, rounding: Rounding): nat {
    var scale := parts.exponent + 6;
    if scale >= 0 then parts.coefficient * Pow10(scale)
    else Quotient(parts.coefficient, Pow10(-scale), rounding)
  }

  /** `scaledUsdMicros` on the text of the number. */
  function ScaledMicros(text: string, rounding: Rounding): Option<nat> {
    var parts := DecimalParts(text);
    if parts.None? then None
    else
      var micros := Micros(parts.value, rounding);
      if micros > MAX_SAFE_INTEGER then None else Some(micros)
  }

  function LimitMicros(text: string): Option<nat> {
    ScaledMicros(text, Floor)
  }

  function ObservedMicros(text: string): Option<nat> {
    ScaledMicros(text, Ceil)
  }

  // ---------------------------------------------------------------- what the text means

  /** The parts of a number's text: digits, a fraction that may be missing, and an exponent that may be missing. */
  datatype Numeral = Numeral(whole: string, fraction: string, exponent: Option<Exponent>)

  datatype Exponent = Exponent(sign: char, digits: string)

  predicate WellFormed(n: Numeral) {
    && Digits(n.whole) && (n.fraction != "" ==> Digits(n.fraction))
    && (n.exponent.Some? ==>
          (n.exponent.value.sign == '+' || n.exponent.value.sign == '-') && Digits(n.exponent.value.digits)
          && Number(n.exponent.value.digits) <= MAX_SAFE_INTEGER)
  }

  function Mantissa(n: Numeral): string {
    n.whole + if n.fraction == "" then "" else "." + n.fraction
  }

  function Text(n: Numeral): string {
    Mantissa(n) + if n.exponent.None? then "" else "e" + [n.exponent.value.sign] + n.exponent.value.digits
  }

  function Shift(n: Numeral): int
    requires WellFormed(n)
  {
    if n.exponent.None? then 0
    else if n.exponent.value.sign == '-' then 0 - Number(n.exponent.value.digits)
    else Number(n.exponent.value.digits)
  }

  ghost function TenTo(e: int): (p: real)
    ensures p > 0.0
  {
    if e >= 0 then Pow10(e) as real else 1.0 / Pow10(-e) as real
  }

  /** Whole digits, plus a decimal fraction, times a power of ten: in dollars. */
  ghost function Dollars(n: Numeral): real
    requires WellFormed(n)
  {
    (Number(n.whole) as real + Number(n.fraction) as real / Pow10(|n.fraction|) as real) * TenTo(Shift(n))
  }

  ghost function ExactMicros(n: Numeral): real
    requires WellFormed(n)
  {
    Dollars(n) * 1_000_000.0
  }

  // ---------------------------------------------------------------- reading the text

  lemma {:induction false} SplitNone(s: string, at: char)
    requires at !in s
    ensures Split(s, at) == [s]
  {
    if |s| > 0 {
      SplitNone(s[1..], at);
      assert s == [s[0]] + s[1..];
    }
  }

  lemma {:induction false} SplitOnce(a: string, at: char, b: string)
    requires at !in a && at !in b
    ensures Split(a + [at] + b, at) == [a, b]
  {
    var s := a + [at] + b;
    if |a| == 0 {
      assert s[1..] == b;
      SplitNone(b, at);
    } else {
      assert s[1..] == a[1..] + [at] + b;
      SplitOnce(a[1..], at, b);
      assert [a[0]] + a[1..] == a;
    }
  }

  lemma {:induction false} StrippedIsSame(s: string)
    requires Digits(s)
    ensures Number(StripZeros(s)) == Number(s)
  {
    if |s| > 1 && s[0] == '0' && Digit(s[1]) {
      StrippedIsSame(s[1..]);
      LeadingZero(s);
    }
  }

  lemma {:induction false} LeadingZero(s: string)
    requires Digits(s) && s[0] == '0'
    ensures Number(s) == Number(s[1..])
  {
    if |s| > 1 {
      var front := s[..|s| - 1];
      LeadingZero(front);
      assert front[1..] == s[1..][..|s[1..]| - 1];
    } else {
      assert Number(s[..0]) == 0;
    }
  }

  lemma {:induction false} NumberOfJoined(a: string, b: string)
    requires Digits(a) && forall i :: 0 <= i < |b| ==> Digit(b[i])
    ensures forall i :: 0 <= i < |a + b| ==> Digit((a + b)[i])
    ensures Number(a + b) == Number(a) * Pow10(|b|) + Number(b)
  {
    if |b| == 0 {
      assert a + b == a;
    } else {
      var front := b[..|b| - 1];
      NumberOfJoined(a, front);
      assert (a + b)[..|a + b| - 1] == a + front;
      Shifted(Number(a), Pow10(|front|), Number(front));
    }
  }

  lemma Shifted(a: nat, p: nat, f: nat)
    ensures (a * p + f) * 10 == a * (10 * p) + f * 10
  {
  }

  lemma NoMarks(s: string)
    requires forall i :: 0 <= i < |s| ==> Digit(s[i])
    ensures 'e' !in s && '.' !in s && '+' !in s && '-' !in s
  {
  }

  lemma MantissaSplits(n: Numeral)
    requires WellFormed(n)
    ensures 'e' !in Mantissa(n)
    ensures Split(Mantissa(n), '.') == if n.fraction == "" then [n.whole] else [n.whole, n.fraction]
  {
    hide Split;
    NoMarks(n.whole);
    NoMarks(n.fraction);
    if n.fraction == "" {
      assert Mantissa(n) == n.whole;
      SplitNone(n.whole, '.');
    } else {
      SplitOnce(n.whole, '.', n.fraction);
      assert Mantissa(n) == n.whole + ['.'] + n.fraction;
    }
  }

  lemma TextSplits(n: Numeral)
    requires WellFormed(n)
    ensures Split(Text(n), 'e') == if n.exponent.None? then [Mantissa(n)] else [Mantissa(n), ExponentText(n)]
  {
    hide Split;
    MantissaSplits(n);
    if n.exponent.None? {
      SplitNone(Mantissa(n), 'e');
      assert Text(n) == Mantissa(n);
    } else {
      NoMarks(n.exponent.value.digits);
      SplitOnce(Mantissa(n), 'e', ExponentText(n));
      assert Text(n) == Mantissa(n) + ['e'] + ExponentText(n);
    }
  }

  /** Every text of a number is read as its digits and the place of its last one. */
  lemma TextIsRead(n: Numeral)
    requires WellFormed(n)
    ensures DecimalParts(Text(n)).Some?
    ensures DecimalParts(Text(n)).value.exponent == Shift(n) - |n.fraction|
    ensures DecimalParts(Text(n)).value.coefficient == Number(n.whole) * Pow10(|n.fraction|) + Number(n.fraction)
  {
    hide StripZeros, Split, Number, Pow10, ReadExponent, Text, Mantissa, ExponentText;
    MantissaSplits(n);
    TextSplits(n);
    ExponentIsRead(n);
    NoExponentIsZero(n);
    NumberOfJoined(n.whole, n.fraction);
    StrippedIsSame(n.whole + n.fraction);
  }

  lemma NoExponentIsZero(n: Numeral)
    ensures n.exponent.None? ==> ExponentText(n) == "0"
  {
  }

  function ExponentText(n: Numeral): string {
    if n.exponent.None? then "0" else [n.exponent.value.sign] + n.exponent.value.digits
  }

  lemma ExponentIsRead(n: Numeral)
    requires WellFormed(n)
    ensures ReadExponent(ExponentText(n)) == Some(Shift(n))
  {
    if n.exponent.None? {
      assert Number("0"[..0]) == 0;
    } else {
      var s := ExponentText(n);
      assert s[1..] == n.exponent.value.digits && !Digit(s[0]);
    }
  }

  // ---------------------------------------------------------------- powers of ten

  lemma {:induction false} PowerSum(a: nat, b: nat)
    ensures Pow10(a + b) == Pow10(a) * Pow10(b)
  {
    if a > 0 {
      PowerSum(a - 1, b);
      Associates(Pow10(a - 1), Pow10(b));
    }
  }

  lemma Associates(p: nat, q: nat)
    ensures 10 * (p * q) == (10 * p) * q
  {
  }

  lemma ProductAsReal(a: nat, b: nat)
    ensures (a * b) as real == a as real * b as real
  {
  }

  lemma QuotientOfProduct(x: real, p: real, q: real)
    requires p > 0.0 && q > 0.0
    ensures (x * p) * (1.0 / (p * q)) == x * (1.0 / q)
    ensures (1.0 / q) * (1.0 / p) == 1.0 / (q * p)
    ensures (p * q) * (1.0 / p) == q
  {
  }

  /** Adding to the exponent multiplies. */
  lemma TenToSum(e: int, k: nat)
    ensures TenTo(e + k) == TenTo(e) * Pow10(k) as real
  {
    hide Pow10;
    var p := Pow10(k);
    if e >= 0 {
      PowerSum(e, k);
      ProductAsReal(Pow10(e), p);
    } else if e + k >= 0 {
      PowerSum(e + k, -e);
      ProductAsReal(Pow10(e + k), Pow10(-e));
      QuotientOfProduct(1.0, Pow10(-e) as real, Pow10(e + k) as real);
    } else {
      PowerSum(-e - k, k);
      ProductAsReal(Pow10(-e - k), p);
      QuotientOfProduct(1.0, p as real, Pow10(-e - k) as real);
    }
  }

  /** The value of the parts, in micro-dollars. */
  ghost function Value(parts: Parts): real {
    parts.coefficient as real * TenTo(parts.exponent + 6)
  }

  lemma ReadExactly(n: Numeral)
    requires WellFormed(n)
    ensures DecimalParts(Text(n)).Some? && Value(DecimalParts(Text(n)).value) == ExactMicros(n)
  {
    hide Pow10, TenTo, Number, DecimalParts, Text;
    TextIsRead(n);
    var w, f, p := Number(n.whole) as real, Number(n.fraction) as real, Pow10(|n.fraction|);
    var parts := DecimalParts(Text(n)).value;
    var e := parts.exponent;
    ProductAsReal(Number(n.whole), p);
    TenToSum(e, 6);
    TenToSum(e, |n.fraction|);
    Million();
    Distribute(w, f, p as real, TenTo(e));
  }

  lemma Million()
    ensures Pow10(6) == 1_000_000
  {
  }

  lemma Distribute(w: real, f: real, p: real, t: real)
    requires p > 0.0
    ensures (w * p + f) * (t * 1_000_000.0) == ((w + f / p) * (t * p)) * 1_000_000.0
  {
  }

  // ---------------------------------------------------------------- rounding

  lemma DivisionBrackets(c: nat, d: nat)
    requires d > 0
    ensures (c / d) as real <= c as real / d as real < (c / d) as real + 1.0
    ensures c % d == 0 <==> (c / d) as real == c as real / d as real
  {
    var q, r := c / d, c % d;
    assert c == q * d + r;
    ProductAsReal(q, d);
    var x := c as real / d as real;
    assert x * d as real == c as real;
    assert x * d as real == q as real * d as real + r as real;
    LessByProduct(x, q as real, r as real, d as real);
  }

  lemma LessByProduct(x: real, q: real, r: real, d: real)
    requires d > 0.0 && 0.0 <= r < d && x * d == q * d + r
    ensures q <= x < q + 1.0
    ensures r == 0.0 <==> q == x
  {
    var y := x - q;
    assert y * d == r;
    SignOfProduct(y, d);
    assert y < 1.0;
  }

  lemma SignOfProduct(y: real, d: real)
    requires d > 0.0
    ensures y < 0.0 ==> y * d < 0.0
    ensures y > 0.0 ==> y * d > 0.0
    ensures y >= 1.0 ==> y * d >= d
  {
  }

  /** Both roundings are within one micro-dollar of the exact value, on their own side of it. */
  lemma RoundingBrackets(parts: Parts)
    ensures Micros(parts, Floor) as real <= Value(parts) < Micros(parts, Floor) as real + 1.0
    ensures Micros(parts, Ceil) as real - 1.0 < Value(parts) <= Micros(parts, Ceil) as real
    ensures Micros(parts, Floor) == Micros(parts, Ceil) <==> Value(parts) == Micros(parts, Floor) as real
  {
    hide Pow10;
    var scale := parts.exponent + 6;
    if scale >= 0 {
      ProductAsReal(parts.coefficient, Pow10(scale));
    } else {
      var d := Pow10(-scale);
      DivisionBrackets(parts.coefficient, d);
      assert parts.coefficient as real * (1.0 / d as real) == parts.coefficient as real / d as real;
    }
  }

  /**
   Where both are kept, the limit and the observed cost bracket the exact cost, and meet exactly at whole
   micro-dollars.
   */
  lemma CostIsBracketed(n: Numeral)
    requires WellFormed(n)
    ensures LimitMicros(Text(n)).Some? ==>
              LimitMicros(Text(n)).value as real <= ExactMicros(n) < LimitMicros(Text(n)).value as real + 1.0
    ensures ObservedMicros(Text(n)).Some? ==>
              ObservedMicros(Text(n)).value as real - 1.0 < ExactMicros(n) <= ObservedMicros(Text(n)).value as real
    ensures LimitMicros(Text(n)).Some? && ObservedMicros(Text(n)).Some? ==>
              (LimitMicros(Text(n)) == ObservedMicros(Text(n)) <==> ExactMicros(n).Floor as real == ExactMicros(n))
  {
    hide DecimalParts, Micros, Value, Text, ExactMicros;
    ReadExactly(n);
    var parts := DecimalParts(Text(n)).value;
    RoundingBrackets(parts);
    assert ExactMicros(n).Floor == Micros(parts, Floor);
  }

  /** A number is refused exactly where its micro-dollars pass the largest safe integer. */
  lemma RefusedOnlyAboveTheRange(n: Numeral)
    requires WellFormed(n)
    ensures LimitMicros(Text(n)).Some? <==> ExactMicros(n) < MAX_SAFE_INTEGER as real + 1.0
    ensures ObservedMicros(Text(n)).Some? <==> ExactMicros(n) <= MAX_SAFE_INTEGER as real
  {
    hide DecimalParts, Micros, Value, Text, ExactMicros;
    ReadExactly(n);
    RoundingBrackets(DecimalParts(Text(n)).value);
  }

  /** A larger cost never has the smaller micro-dollars, however either is written. */
  lemma RoundingIsMonotone(a: Numeral, b: Numeral)
    requires WellFormed(a) && WellFormed(b) && Dollars(a) <= Dollars(b)
    ensures LimitMicros(Text(b)).Some? ==>
              LimitMicros(Text(a)).Some? && LimitMicros(Text(a)).value <= LimitMicros(Text(b)).value
    ensures ObservedMicros(Text(b)).Some? ==>
              ObservedMicros(Text(a)).Some? && ObservedMicros(Text(a)).value <= ObservedMicros(Text(b)).value
  {
    hide Text, Dollars, ScaledMicros;
    CostIsBracketed(a);
    CostIsBracketed(b);
    RefusedOnlyAboveTheRange(a);
    RefusedOnlyAboveTheRange(b);
  }

  // ---------------------------------------------------------------- sums against a cap

  ghost predicate AllKept(costs: seq<Numeral>) {
    forall i :: 0 <= i < |costs| ==> WellFormed(costs[i]) && ObservedMicros(Text(costs[i])).Some?
  }

  ghost function ObservedSum(costs: seq<Numeral>): int
    requires AllKept(costs)
  {
    if |costs| == 0 then 0
    else ObservedSum(costs[..|costs| - 1]) + ObservedMicros(Text(costs[|costs| - 1])).value
  }

  ghost function ExactSum(costs: seq<Numeral>): real
    requires AllKept(costs)
  {
    if |costs| == 0 then 0.0 else ExactSum(costs[..|costs| - 1]) + Dollars(costs[|costs| - 1])
  }

  lemma {:induction false} SumIsBracketed(costs: seq<Numeral>)
    requires AllKept(costs)
    ensures ExactSum(costs) * 1_000_000.0 <= ObservedSum(costs) as real
    ensures ObservedSum(costs) as real <= ExactSum(costs) * 1_000_000.0 + |costs| as real
    ensures |costs| > 0 ==> ObservedSum(costs) as real < ExactSum(costs) * 1_000_000.0 + |costs| as real
  {
    hide Dollars, Text, ObservedMicros, WellFormed;
    if |costs| > 0 {
      SumIsBracketed(costs[..|costs| - 1]);
      CostIsBracketed(costs[|costs| - 1]);
    }
  }

  /**
   Whatever is charged, in however many pieces: if the recorded micro-dollars fit under the recorded cap then
   the exact costs fit under the exact cap; and they can fail to fit only by less than a micro-dollar a piece
   and one for the cap.
   */
  lemma CapIsKept(costs: seq<Numeral>, cap: Numeral)
    requires AllKept(costs) && WellFormed(cap) && LimitMicros(Text(cap)).Some?
    ensures ObservedSum(costs) <= LimitMicros(Text(cap)).value ==> ExactSum(costs) <= Dollars(cap)
    ensures ExactSum(costs) * 1_000_000.0 + |costs| as real + 1.0 <= ExactMicros(cap) ==>
              ObservedSum(costs) <= LimitMicros(Text(cap)).value
  {
    hide Dollars, Text, LimitMicros, WellFormed;
    SumIsBracketed(costs);
    CostIsBracketed(cap);
  }
}

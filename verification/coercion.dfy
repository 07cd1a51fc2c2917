/** Scalar coercion: valueToInt and the strconv conversions it relies on. */
module Coercion {
  import opened Results
  import opened Json

  predicate IsDigit(c: char) {
    '0' <= c <= '9'
  }

  predicate AllDigits(s: string) {
    forall i | 0 <= i < |s| :: IsDigit(s[i])
  }

  function DigitValue(c: char): nat
    requires IsDigit(c)
  {
    c as int - '0' as int
  }

  /** Value of a decimal digit string, most significant digit first. */
  function DigitsValue(s: string): nat
    requires AllDigits(s)
  {
    if |s| == 0 then 0 else DigitsValue(s[..|s| - 1]) * 10 + DigitValue(s[|s| - 1])
  }

  /** The base-10 syntax strconv.Atoi accepts: an optional sign, then one or
      more decimal digits, nothing else (no spaces, no underscores). */
  predicate IsIntLiteral(s: string) {
    if |s| > 0 && (s[0] == '+' || s[0] == '-') then |s| > 1 && AllDigits(s[1..])
    else |s| > 0 && AllDigits(s)
  }

  /** The integer a literal denotes. */
  function LiteralValue(s: string): int
    requires IsIntLiteral(s)
  {
    if s[0] == '-' then -(DigitsValue(s[1..]) as int)
    else if s[0] == '+' then DigitsValue(s[1..])
    else DigitsValue(s)
  }

  /** The digit loop of strconv: accumulate left to right, stop at a non-digit. */
  function ParseDigits(s: string, acc: nat): (r: Option<nat>)
    ensures r.Some? <==> AllDigits(s)
  {
    if |s| == 0 then Some(acc)
    else if IsDigit(s[0]) then ParseDigits(s[1..], acc * 10 + DigitValue(s[0]))
    else None
  }

  /** Accumulating from the value of a prefix yields the value of the whole. */
  lemma {:induction false} ParseDigitsValue(p: string, s: string)
    requires AllDigits(p) && AllDigits(s)
    ensures ParseDigits(s, DigitsValue(p)) == Some(DigitsValue(p + s))
    decreases |s|
  {
    if |s| == 0 {
      assert p + s == p;
    } else {
      var p' := p + [s[0]];
      assert p'[..|p'| - 1] == p;
      assert AllDigits(p');
      assert DigitsValue(p') == DigitsValue(p) * 10 + DigitValue(s[0]);
      ParseDigitsValue(p', s[1..]);
      assert p' + s[1..] == p + s;
    }
  }

  /** strconv.Atoi in base 10. */
  function Atoi(s: string): (r: Option<int>)
    ensures r.Some? <==> IsIntLiteral(s)
    ensures r.Some? ==> r.value == LiteralValue(s)
  {
    if |s| == 0 then None
    else
      var signed := s[0] == '+' || s[0] == '-';
      var body := if signed then s[1..] else s;
      if |body| == 0 then None
      else
        match ParseDigits(body, 0)
        case None => None
        case Some(n) =>
          ParseDigitsValue([], body);
          assert [] + body == body;
          Some(if s[0] == '-' then -(n as int) else n as int)
  }

  function DigitChar(d: nat): (c: char)
    requires d < 10
    ensures IsDigit(c) && DigitValue(c) == d
  {
    ('0' as int + d) as char
  }

  function NatToDecimal(n: nat): (s: string)
    ensures |s| > 0 && AllDigits(s)
  {
    if n < 10 then [DigitChar(n)] else NatToDecimal(n / 10) + [DigitChar(n % 10)]
  }

  /** strconv.Itoa, which setupSOA uses to print the serial and the ttl. */
  function Itoa(n: int): string {
    if n < 0 then "-" + NatToDecimal(-n) else NatToDecimal(n)
  }

  lemma {:induction false} NatToDecimalValue(n: nat)
    ensures DigitsValue(NatToDecimal(n)) == n
  {
    if n >= 10 {
      var s := NatToDecimal(n);
      assert s[..|s| - 1] == NatToDecimal(n / 10);
      NatToDecimalValue(n / 10);
    }
  }

  /** Atoi reads back every integer Itoa prints. */
  lemma {:induction false} AtoiItoa(n: int)
    ensures Atoi(Itoa(n)) == Some(n)
  {
    if n < 0 {
      NatToDecimalValue(-n);
      assert Itoa(n)[1..] == NatToDecimal(-n);
    } else {
      NatToDecimalValue(n);
    }
  }

  /** Go's int(f) conversion: truncation toward zero. */
  function Trunc(x: real): (t: int)
    ensures 0.0 <= x ==> t as real <= x < t as real + 1.0
    ensures x < 0.0 ==> t as real - 1.0 < x <= t as real
  {
    if x >= 0.0 then x.Floor else -((-x).Floor)
  }

  /** valueToInt: a string through Atoi, a number truncated, anything else
      rejected. */
  function ValueToInt(v: Json): (r: Result<int>)
    ensures v.JString? ==> (r.Success? <==> IsIntLiteral(v.s))
    ensures v.JString? && r.Success? ==> r.value == LiteralValue(v.s)
    ensures v.JNumber? ==> r.Success? && r.value == Trunc(v.n)
    ensures !v.JString? && !v.JNumber? ==> r.Failure?
  {
    match v
    case JString(s) =>
      (match Atoi(s)
       case Some(i) => Success(i)
       case None => Failure(BadValue("not a decimal integer")))
    case JNumber(n) => Success(Trunc(n))
    case _ => Failure(BadValue("not a string or a number"))
  }
}

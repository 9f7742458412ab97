/** Go's strconv.FormatInt(n, 10) and strconv.Atoi on a 64-bit platform, as
    internal/handlers/idler/service-kubernetes.go and internal/handlers/unidler/unidler.go use them
    to carry a replica count through an annotation. */
module Decimal {

  const MAX_INT32 := 0x7fff_ffff
  const MAX_INT64 := 0x7fff_ffff_ffff_ffff
  const MIN_INT64 := -0x8000_0000_0000_0000
  const TWO_TO_64 := 0x1_0000_0000_0000_0000

  type Int64 = n: int | MIN_INT64 <= n <= MAX_INT64

  /** The outcome of Atoi: a number, a syntax error (value 0) or a range error (value clamped). */
  datatype Parsed = Number(n: Int64) | SyntaxError | RangeError(clamped: Int64) {
    /** The int that Atoi returns beside its error. */
    function Value(): Int64 {
      match this
      case Number(n) => n
      case SyntaxError => 0
      case RangeError(c) => c
    }
  }

  function Digit(d: nat): char
    requires d < 10
  {
    ('0' as int + d) as char
  }

  predicate IsDigit(c: char) {
    '0' <= c <= '9'
  }

  predicate AllDigits(s: string) {
    forall i :: 0 <= i < |s| ==> IsDigit(s[i])
  }

  function FormatNat(n: nat): string {
    if n < 10 then [Digit(n)] else FormatNat(n / 10) + [Digit(n % 10)]
  }

  function FormatInt(n: int): string {
    if n < 0 then "-" + FormatNat(-n) else FormatNat(n)
  }

  function DigitsValue(s: string): nat
    requires AllDigits(s)
  {
    if s == "" then 0
    else DigitsValue(s[..|s| - 1]) * 10 + (s[|s| - 1] as int - '0' as int)
  }

  function Atoi(s: string): Parsed {
    var signed := s != "" && (s[0] == '-' || s[0] == '+');
    var body := if signed then s[1..] else s;
    if body == "" || !AllDigits(body) then SyntaxError
    else
      var magnitude: int := DigitsValue(body);
      var v := if s[0] == '-' then -magnitude else magnitude;
      if v > MAX_INT64 then RangeError(MAX_INT64)
      else if v < MIN_INT64 then RangeError(MIN_INT64)
      else Number(v)
  }

  lemma {:induction false} DigitsRoundTrip(n: nat)
    ensures FormatNat(n) != "" && AllDigits(FormatNat(n)) && DigitsValue(FormatNat(n)) == n
  {
    if n >= 10 {
      DigitsRoundTrip(n / 10);
      var s := FormatNat(n);
      assert s[..|s| - 1] == FormatNat(n / 10);
    }
  }

  /** Every int64 survives being printed and parsed again. */
  lemma AtoiFormatInt(n: Int64)
    ensures Atoi(FormatInt(n)) == Number(n)
  {
    if n < 0 {
      var magnitude: int := n;
      DigitsRoundTrip(-magnitude);
      assert FormatInt(n)[1..] == FormatNat(-magnitude);
    } else {
      DigitsRoundTrip(n);
      assert IsDigit(FormatNat(n)[0]);
    }
  }

  /** A larger number is read as the largest int64. */
  lemma AtoiClamps(n: int)
    requires n > MAX_INT64
    ensures Atoi(FormatInt(n)) == RangeError(MAX_INT64)
  {
    DigitsRoundTrip(n);
    assert IsDigit(FormatNat(n)[0]);
  }

  /** Printing appends the decimal digits one by one. */
  lemma FormatStep(n: nat, d: nat)
    requires n > 0 && d < 10
    ensures FormatInt(10 * n + d) == FormatInt(n) + ["0123456789"[d]]
    ensures FormatInt(d) == ["0123456789"[d]]
  {
    assert Digit(d) == "0123456789"[d];
    assert (10 * n + d) / 10 == n && (10 * n + d) % 10 == d;
  }

  /** A sign is optional, only decimal digits may follow it, and at least one must. */
  lemma AtoiSyntax(s: string)
    requires s == "" || (s[0] != '+' && s[0] != '-')
    ensures Atoi(s).SyntaxError? <==> s == "" || exists i :: 0 <= i < |s| && !('0' <= s[i] <= '9')
    ensures Atoi("+" + s) == Atoi(s)
    ensures Atoi("-" + s).SyntaxError? <==> Atoi(s).SyntaxError?
    ensures Atoi(s).Number? ==> Atoi("-" + s) == Number(-Atoi(s).n)
  {
    assert ("+" + s)[1..] == s && ("-" + s)[1..] == s;
    assert AllDigits(s) <==> forall i :: 0 <= i < |s| ==> '0' <= s[i] <= '9';
  }

  /** int64 addition as Go computes it, wrapping around. */
  function Add64(a: Int64, b: Int64): Int64 {
    if a + b > MAX_INT64 then a + b - TWO_TO_64
    else if a + b < MIN_INT64 then a + b + TWO_TO_64
    else a + b
  }
}

/**
 * Go's decimal integer conversions on 64-bit platforms: `strconv.Itoa` renders the
 * identifiers the backend keeps as strings, and `strconv.Atoi` / `strconv.ParseInt(s, 10, 64)`
 * read them back when a request needs a number.
 */
module Strconv {

  const MaxInt64: int := 0x7fff_ffff_ffff_ffff
  const MinInt64: int := -0x8000_0000_0000_0000
  const MaxUint64: int := 0xffff_ffff_ffff_ffff

  /** Go's `int` / `int64`. */
  type Int64 = x: int | MinInt64 <= x <= MaxInt64

  datatype Status = Ok | SyntaxError | RangeError

  /** A value and the error status that come back together; callers that write `n, _ := ...` keep `value`. */
  datatype Parsed = Parsed(value: Int64, status: Status)

  /** What the digit loop of ParseUint has read so far. */
  datatype Scan = Scan(value: nat, status: Status)

  function DigitChar(d: nat): char
    requires d < 10
  {
    "0123456789"[d]
  }

  predicate IsDigit(c: char)
  {
    '0' <= c <= '9'
  }

  /** The digit character of d is a digit whose value is d. */
  lemma DigitCharValue(d: nat)
    requires d < 10
    ensures IsDigit(DigitChar(d)) && DigitChar(d) as int - '0' as int == d
  {
  }

  /** Decimal digits of a natural number, most significant first, without leading zeros. */
  function Digits(n: nat): (s: string)
    ensures s != [] && IsDigit(s[0])
    ensures n < 10 <==> |s| == 1
    decreases n
  {
    if n < 10 then [DigitChar(n)] else Digits(n / 10) + [DigitChar(n % 10)]
  }

  /** strconv.Itoa / strconv.FormatInt(n, 10). */
  function FormatInt(n: int): (s: string)
    ensures s != [] && (s[0] == '-' <==> n < 0)
    ensures n < 0 ==> |s| >= 2 && IsDigit(s[1])
  {
    if n < 0 then "-" + Digits(-n) else Digits(n)
  }

  /**
   * The digit loop of strconv.ParseUint(s, 10, 64), read as a fold over ever longer prefixes:
   * the first offending character from the left decides, a non-digit yielding (0, syntax error)
   * and an overflow of 64 unsigned bits yielding (MaxUint64, range error).
   */
  function ScanDigits(s: string): (r: Scan)
    ensures r.value <= MaxUint64
    ensures r.status == SyntaxError ==> r.value == 0
    ensures r.status == RangeError ==> r.value == MaxUint64
    decreases |s|
  {
    if s == [] then Scan(0, Ok)
    else
      var prev := ScanDigits(s[..|s| - 1]);
      var c := s[|s| - 1];
      if prev.status != Ok then prev
      else if !IsDigit(c) then Scan(0, SyntaxError)
      else if prev.value * 10 + (c as int - '0' as int) > MaxUint64 then Scan(MaxUint64, RangeError)
      else Scan(prev.value * 10 + (c as int - '0' as int), Ok)
  }

  /** strconv.ParseUint(s, 10, 64), leaving the value unbounded for ParseInt to clamp. */
  function ParseUint(s: string): Scan
  {
    if s == [] then Scan(0, SyntaxError) else ScanDigits(s)
  }

  /**
   * strconv.ParseInt(s, 10, 64), which is also strconv.Atoi on 64-bit platforms: an optional
   * sign, then decimal digits; out-of-range input is clamped to the nearest bound.
   */
  function ParseInt(s: string): (p: Parsed)
    ensures p.status == SyntaxError ==> p.value == 0
    ensures p.status == RangeError ==> p.value == MaxInt64 || p.value == MinInt64
    ensures p.status == RangeError ==> s != [] && (p.value == MinInt64 <==> s[0] == '-')
  {
    if s == [] then Parsed(0, SyntaxError)
    else
      var neg := s[0] == '-';
      var digits := if s[0] == '-' || s[0] == '+' then s[1..] else s;
      var un := ParseUint(digits);
      if un.status == SyntaxError then Parsed(0, SyntaxError)
      else if !neg && un.value > MaxInt64 then Parsed(MaxInt64, RangeError)
      else if neg && un.value > -MinInt64 then Parsed(MinInt64, RangeError)
      else Parsed(if neg then -(un.value as int) else un.value as int, un.status)
  }

  lemma {:induction false} DigitsShape(n: nat)
    ensures |Digits(n)| >= 1
    ensures forall i :: 0 <= i < |Digits(n)| ==> IsDigit(Digits(n)[i])
    decreases n
  {
    if n >= 10 {
      DigitsShape(n / 10);
    }
  }

  /** Reading the digits of n back gives n with no error. */
  lemma {:induction false} ScanDigitsOfDigits(n: nat)
    requires n <= MaxUint64
    ensures ScanDigits(Digits(n)) == Scan(n, Ok)
    decreases n
  {
    var s := Digits(n);
    DigitsShape(n);
    if n < 10 {
      assert s[..|s| - 1] == [];
      DigitCharValue(n);
    } else {
      var m, d := n / 10, n % 10;
      assert s[..|s| - 1] == Digits(m);
      assert s[|s| - 1] == DigitChar(d);
      ScanDigitsOfDigits(m);
      DigitCharValue(d);
      assert m * 10 + d == n;
    }
  }

  /** Digits as ParseInt's sign handling sees them: a non-empty run with no sign in front. */
  lemma ParseUintOfDigits(n: nat)
    requires n <= MaxUint64
    ensures Digits(n) != [] && Digits(n)[0] != '-' && Digits(n)[0] != '+'
    ensures ParseUint(Digits(n)) == Scan(n, Ok)
  {
    DigitsShape(n);
    ScanDigitsOfDigits(n);
  }

  /** ParseInt undoes FormatInt on every 64-bit integer: the round trip GetID relies on. */
  lemma ParseFormatInt(n: Int64)
    ensures ParseInt(FormatInt(n)) == Parsed(n, Ok)
  {
    if n < 0 {
      var m: nat := -(n as int);
      var d := Digits(m);
      ParseUintOfDigits(m);
      var s := "-" + d;
      assert s == FormatInt(n);
      assert s[0] == '-' && s[1..] == d;
      assert ParseUint(s[1..]) == Scan(m, Ok);
    } else {
      var m: nat := n;
      ParseUintOfDigits(m);
      assert FormatInt(n) == Digits(m);
    }
  }

  /** FormatInt is injective, so distinct identifiers get distinct strings. */
  lemma FormatIntInjective(m: Int64, n: Int64)
    requires FormatInt(m) == FormatInt(n)
    ensures m == n
  {
    ParseFormatInt(m);
    ParseFormatInt(n);
  }
}

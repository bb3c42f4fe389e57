/** Decimal formatting and parsing as done by Go's `strconv` (base 10 only). */
module GoStrconv {
  import opened GoTypes

  const MaxInt64: int := 0x7fff_ffff_ffff_ffff
  const MinInt64: int := -0x8000_0000_0000_0000

  predicate IsDigit(c: char)
  {
    '0' <= c <= '9'
  }

  predicate AllDigits(s: string)
  {
    forall i :: 0 <= i < |s| ==> IsDigit(s[i])
  }

  function DigitValue(c: char): nat
    requires IsDigit(c)
  {
    c as int - '0' as int
  }

  function DigitChar(d: nat): (c: char)
    requires d < 10
    ensures IsDigit(c) && DigitValue(c) == d
  {
    ('0' as int + d) as char
  }

  /** The number a string of decimal digits denotes. */
  function DigitsValue(s: string): nat
    requires AllDigits(s)
    decreases |s|
  {
    if |s| == 0 then 0 else DigitsValue(s[..|s| - 1]) * 10 + DigitValue(s[|s| - 1])
  }

  /** The decimal rendering of a natural number, without leading zeros. */
  function FormatNat(n: nat): (s: string)
    ensures 1 <= |s| && AllDigits(s) && DigitsValue(s) == n
    ensures |s| > 1 ==> s[0] != '0'
    decreases n
  {
    if n < 10 then [DigitChar(n)]
    else
      var prefix := FormatNat(n / 10);
      var s := prefix + [DigitChar(n % 10)];
      assert s[..|s| - 1] == prefix;
      s
  }

  /** strconv.Itoa / fmt's %d on an integer. */
  function FormatInt(n: int): (s: string)
  {
    if n < 0 then "-" + FormatNat(-n) else FormatNat(n)
  }

  datatype NumError = ErrSyntax | ErrRange

  /** The two results of strconv.Atoi: the value and the error, if any. */
  datatype AtoiResult = AtoiResult(n: int, err: Option<NumError>)

  /**
   * strconv.Atoi on a 64-bit platform: an optional sign followed by at least
   * one decimal digit. A syntax error yields 0; a value outside int64 yields
   * the nearest bound together with ErrRange.
   */
  function Atoi(s: string): (r: AtoiResult)
    ensures r.err == Some(ErrSyntax) ==> r.n == 0
    ensures r.err != Some(ErrSyntax) ==> 1 <= |s| && AllDigits(if s[0] == '+' || s[0] == '-' then s[1..] else s)
    ensures MinInt64 <= r.n <= MaxInt64
  {
    var negative := |s| > 0 && s[0] == '-';
    var body := if |s| > 0 && (s[0] == '+' || s[0] == '-') then s[1..] else s;
    if |body| == 0 || !AllDigits(body) then AtoiResult(0, Some(ErrSyntax))
    else
      var v: int := if negative then 0 - DigitsValue(body) else DigitsValue(body);
      if v > MaxInt64 then AtoiResult(MaxInt64, Some(ErrRange))
      else if v < MinInt64 then AtoiResult(MinInt64, Some(ErrRange))
      else AtoiResult(v, None)
  }

  /** Atoi reads back what Itoa writes, for every int64. */
  lemma AtoiFormatInt(n: int)
    requires MinInt64 <= n <= MaxInt64
    ensures Atoi(FormatInt(n)) == AtoiResult(n, None)
  {
    if n < 0 {
      var s := FormatInt(n);
      assert s[1..] == FormatNat(-n);
    }
  }
}

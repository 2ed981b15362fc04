/** Go's 64-bit `int`, decimal formatting (`fmt`'s `%d`, `strconv.Itoa`) and
    `strconv.Atoi`. */
module Numbers {
  import opened Wrappers

  const MinInt64: int := -0x8000_0000_0000_0000
  const MaxInt64: int := 0x7FFF_FFFF_FFFF_FFFF

  /** Go's `int` on a 64-bit platform. */
  type Int64 = x: int | MinInt64 <= x <= MaxInt64

  /** Two's-complement wrap-around of an exact result into `Int64`, as Go's
      integer arithmetic does on overflow. */
  function Wrap64(x: int): (r: Int64)
    ensures MinInt64 <= x <= MaxInt64 ==> r == x
    ensures (r - x) % 0x1_0000_0000_0000_0000 == 0
  {
    (x - MinInt64) % 0x1_0000_0000_0000_0000 + MinInt64
  }

  predicate IsDigit(c: char) {
    '0' <= c <= '9'
  }

  predicate AllDigits(s: string) {
    forall i :: 0 <= i < |s| ==> IsDigit(s[i])
  }

  function DigitChar(d: nat): (c: char)
    requires d < 10
    ensures IsDigit(c) && c as int - '0' as int == d
  {
    ('0' as int + d) as char
  }

  /** Decimal digits of `n`, most significant first, no leading zero. */
  function NatToString(n: nat): (r: string)
    ensures |r| >= 1 && AllDigits(r)
    ensures |r| > 1 ==> r[0] != '0'
  {
    if n < 10 then [DigitChar(n)] else NatToString(n / 10) + [DigitChar(n % 10)]
  }

  /** `strconv.Itoa` / `fmt.Sprintf("%d", n)`. */
  function IntToString(n: int): (r: string)
    ensures |r| >= 1
    ensures n >= 0 ==> AllDigits(r)
    ensures n < 0 ==> r[0] == '-' && AllDigits(r[1..])
  {
    if n >= 0 then NatToString(n) else "-" + NatToString(-n)
  }

  /** Value of a non-empty run of decimal digits. */
  function DigitsValue(s: string): nat
    requires AllDigits(s)
  {
    if s == [] then 0 else DigitsValue(s[..|s| - 1]) * 10 + (s[|s| - 1] as int - '0' as int)
  }

  /** The text `strconv.Atoi` accepts as a decimal: an optional `+` or `-`
      followed by at least one digit (leading zeros allowed). */
  predicate DecimalShape(s: string) {
    |s| >= 1 && (AllDigits(s) || ((s[0] == '-' || s[0] == '+') && |s| > 1 && AllDigits(s[1..])))
  }

  /** The number a decimal text denotes. */
  function SignedValue(s: string): int
    requires DecimalShape(s)
  {
    if AllDigits(s) then DigitsValue(s)
    else if s[0] == '-' then 0 - (DigitsValue(s[1..]) as int)
    else DigitsValue(s[1..])
  }

  /** `strconv.Atoi` (base 10): an optional sign, then at least one digit, and
      a value that fits in Go's `int`; anything else is an error. */
  function Atoi(s: string): (r: Option<Int64>)
    ensures r.Some? ==> DecimalShape(s)
  {
    if s == [] then None
    else
      var signed := s[0] == '-' || s[0] == '+';
      var digits := if signed then s[1..] else s;
      if digits == [] || !AllDigits(digits) then None
      else
        var v: int := if s[0] == '-' then 0 - (DigitsValue(digits) as int) else DigitsValue(digits);
        if MinInt64 <= v <= MaxInt64 then Some(v) else None
  }

  /** What `Atoi` accepts and what it returns: exactly the decimal texts
      whose value fits in Go's `int`, read as that value. */
  lemma AtoiMeaning(s: string)
    ensures Atoi(s).Some? <==> DecimalShape(s) && MinInt64 <= SignedValue(s) <= MaxInt64
    ensures Atoi(s).Some? ==> Atoi(s).value == SignedValue(s)
  {
  }

  lemma {:induction false} DigitsValueOfNatToString(n: nat)
    ensures DigitsValue(NatToString(n)) == n
  {
    if n >= 10 {
      var s := NatToString(n);
      assert s[..|s| - 1] == NatToString(n / 10);
      DigitsValueOfNatToString(n / 10);
    }
  }

  /** Formatting an `int` and parsing it back with `strconv.Atoi` is the
      identity. */
  lemma AtoiOfIntToString(n: Int64)
    ensures Atoi(IntToString(n)) == Some(n)
  {
    if n >= 0 {
      DigitsValueOfNatToString(n);
    } else {
      var s := IntToString(n);
      var m: nat := -(n as int);
      assert s[1..] == NatToString(m);
      DigitsValueOfNatToString(m);
    }
  }

  /** A leading zero does not change a digit run's value. */
  lemma {:induction false} DigitsValueLeadingZero(s: string)
    requires AllDigits(s)
    ensures AllDigits("0" + s) && DigitsValue("0" + s) == DigitsValue(s)
    decreases |s|
  {
    if s != [] {
      assert ("0" + s)[..|"0" + s| - 1] == "0" + s[..|s| - 1];
      DigitsValueLeadingZero(s[..|s| - 1]);
    }
  }

  /** `strconv.Atoi` accepts zero-padded digits and an explicit `+`, and
      reads them as the plain digits. */
  lemma AtoiPaddedOrPlus(s: string)
    requires s != [] && AllDigits(s)
    ensures Atoi("0" + s) == Atoi(s)
    ensures Atoi("+" + s) == Atoi(s)
  {
    DigitsValueLeadingZero(s);
    assert ("+" + s)[1..] == s;
  }

  lemma {:induction false} NatToStringInjective(a: nat, b: nat)
    requires NatToString(a) == NatToString(b)
    ensures a == b
  {
    DigitsValueOfNatToString(a);
    DigitsValueOfNatToString(b);
  }
}

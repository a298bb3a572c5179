/**
 * The part of Go's strconv package that main.go relies on: Atoi, the base-10
 * parse of a query parameter, and Itoa, the formatting it inverts. Go's `int`
 * is taken to be 64 bits wide.
 */
module Strconv {

  const Int64Min: int := -0x8000_0000_0000_0000
  const Int64Max: int := 0x7fff_ffff_ffff_ffff

  predicate IsDigit(c: char) {
    '0' <= c <= '9'
  }

  predicate AllDigits(s: string) {
    forall i :: 0 <= i < |s| ==> IsDigit(s[i])
  }

  function DigitValue(c: char): (d: nat)
    requires IsDigit(c)
    ensures d < 10
  {
    c as int - '0' as int
  }

  function DigitChar(d: nat): (c: char)
    requires d < 10
    ensures IsDigit(c) && DigitValue(c) == d
  {
    ('0' as int + d) as char
  }

  /** The value of a run of digits, accumulated left to right as n * 10 + d. */
  function DigitsValue(s: string): nat
    requires AllDigits(s)
    decreases |s|
  {
    if s == [] then 0 else DigitsValue(s[..|s| - 1]) * 10 + DigitValue(s[|s| - 1])
  }

  predicate HasSign(s: string) {
    |s| > 0 && (s[0] == '+' || s[0] == '-')
  }

  function Unsigned(s: string): string {
    if HasSign(s) then s[1..] else s
  }

  /** The base-10 syntax Atoi accepts: an optional sign, then at least one digit. */
  predicate WellFormed(s: string) {
    |Unsigned(s)| > 0 && AllDigits(Unsigned(s))
  }

  /** The mathematical value of a well-formed numeral, before any range check. */
  function Value(s: string): int
    requires WellFormed(s)
  {
    var magnitude: int := DigitsValue(Unsigned(s));
    if s[0] == '-' then -magnitude else magnitude
  }

  /** What ParseInt returns for an out-of-range value: the nearest 64-bit bound. */
  function Clamp64(n: int): (r: int)
    ensures Int64Min <= r <= Int64Max
    ensures Int64Min <= n <= Int64Max ==> r == n
    ensures n < Int64Min ==> r == Int64Min
    ensures Int64Max < n ==> r == Int64Max
  {
    if n < Int64Min then Int64Min else if Int64Max < n then Int64Max else n
  }

  const MaxUint64: int := 0xffff_ffff_ffff_ffff

  /** The longest run of digits `s` starts with. */
  function DigitPrefix(s: string): (p: string)
    ensures p <= s && AllDigits(p)
    ensures |p| == |s| || !IsDigit(s[|p|])
  {
    if s == [] || !IsDigit(s[0]) then [] else [s[0]] + DigitPrefix(s[1..])
  }

  /**
   * ParseUint checks each character in turn and reports a range error at the
   * first digit that takes the value past 2^64 - 1, before it reaches any
   * later non-digit. So a text overflows when its leading digits do.
   */
  predicate Overflows(s: string) {
    DigitsValue(DigitPrefix(Unsigned(s))) > MaxUint64
  }

  /** The bound ParseInt returns with a range error: the minimum after a '-', else the maximum. */
  function Saturated(s: string): (n: int)
    ensures n == Int64Min || n == Int64Max
    ensures n == Int64Min <==> |s| > 0 && s[0] == '-'
  {
    if |s| > 0 && s[0] == '-' then Int64Min else Int64Max
  }

  /**
   * The integer result of strconv.Atoi with its error dropped: the 64-bit
   * bound on a range error, 0 on a syntax error (the empty string included).
   */
  function Atoi(s: string): (n: int)
    ensures Int64Min <= n <= Int64Max
    ensures Overflows(s) ==> n == Saturated(s)
    ensures !Overflows(s) && !WellFormed(s) ==> n == 0
    ensures WellFormed(s) ==> n == Clamp64(Value(s))
    ensures s == [] ==> n == 0
  {
    if Overflows(s) then
      if WellFormed(s) then
        DigitPrefixOfDigits(Unsigned(s));
        Saturated(s)
      else
        Saturated(s)
    else if WellFormed(s) then Clamp64(Value(s))
    else 0
  }

  lemma {:induction false} DigitPrefixOfDigits(s: string)
    requires AllDigits(s)
    ensures DigitPrefix(s) == s
    decreases |s|
  {
    if s != [] {
      DigitPrefixOfDigits(s[1..]);
    }
  }

  lemma {:induction false} DigitPrefixOfDigitsThen(s: string, rest: string)
    requires AllDigits(s) && (rest == [] || !IsDigit(rest[0]))
    ensures DigitPrefix(s + rest) == s
    decreases |s|
  {
    if s != [] {
      assert (s + rest)[1..] == s[1..] + rest;
      DigitPrefixOfDigitsThen(s[1..], rest);
    }
  }

  function Pow10(k: nat): (p: nat)
    ensures p >= 1
  {
    if k == 0 then 1 else 10 * Pow10(k - 1)
  }

  /** A run led by 2 to 9 is worth at least twice the power of ten of its highest place. */
  lemma {:induction false} LeadingDigitBound(s: string)
    requires |s| > 0 && AllDigits(s) && s[0] >= '2'
    ensures DigitsValue(s) >= 2 * Pow10(|s| - 1)
    decreases |s|
  {
    if |s| > 1 {
      var p := s[..|s| - 1];
      assert p[0] == s[0];
      LeadingDigitBound(p);
    }
  }

  lemma Pow10Of19()
    ensures Pow10(19) == 10_000_000_000_000_000_000
  {
    assert Pow10(10) == 10_000_000_000;
  }

  /** Twenty or more digits led by 2 to 9 exceed 2^64 - 1. */
  lemma LongRunExceedsUint64(digits: string)
    requires |digits| >= 20 && AllDigits(digits) && digits[0] >= '2'
    ensures DigitsValue(digits) > MaxUint64
  {
    LeadingDigitBound(digits);
    Pow10Monotone(19, |digits| - 1);
    Pow10Of19();
  }

  /** Leading digits that exceed 2^64 - 1 make the text overflow, with or without a '-' before them. */
  lemma OverflowingRun(digits: string, rest: string)
    requires AllDigits(digits) && DigitsValue(digits) > MaxUint64
    requires rest == [] || !IsDigit(rest[0])
    ensures Overflows(digits + rest) && Overflows("-" + digits + rest)
  {
    var t := digits + rest;
    var negative := "-" + t;
    assert |digits| > 0 && t[0] == digits[0];
    assert !HasSign(t) && Unsigned(t) == t;
    assert "-" + digits + rest == negative;
    assert HasSign(negative) && Unsigned(negative) == t;
    DigitPrefixOfDigitsThen(digits, rest);
  }

  /**
   * Twenty or more digits led by 2 to 9, then a non-digit: the range error
   * wins over the syntax error, so Atoi gives a bound and not 0.
   */
  lemma OverflowBeforeJunk(digits: string, rest: string)
    requires |digits| >= 20 && AllDigits(digits) && digits[0] >= '2'
    requires rest == [] || !IsDigit(rest[0])
    ensures Atoi(digits + rest) == Int64Max
    ensures Atoi("-" + digits + rest) == Int64Min
  {
    LongRunExceedsUint64(digits);
    OverflowingRun(digits, rest);
    assert (digits + rest)[0] == digits[0];
  }

  lemma {:induction false} Pow10Monotone(j: nat, k: nat)
    requires j <= k
    ensures Pow10(j) <= Pow10(k)
    decreases k
  {
    if j < k {
      Pow10Monotone(j, k - 1);
    }
  }

  lemma TwentyNinesThenLetter()
    ensures Atoi("99999999999999999999x") == Int64Max
  {
    var nines := seq(20, _ => '9');
    assert AllDigits(nines);
    assert nines + "x" == "99999999999999999999x";
    OverflowBeforeJunk(nines, "x");
  }

  function FormatNat(n: nat): (s: string)
    ensures |s| > 0 && AllDigits(s)
    decreases n
  {
    if n < 10 then [DigitChar(n)] else FormatNat(n / 10) + [DigitChar(n % 10)]
  }

  /** strconv.Itoa: a leading '-' for negative numbers, never a '+'. */
  function Itoa(n: int): (s: string)
    ensures WellFormed(s)
  {
    if n < 0 then "-" + FormatNat(-n) else FormatNat(n)
  }

  lemma {:induction false} DigitsValueOfFormatNat(n: nat)
    ensures DigitsValue(FormatNat(n)) == n
    decreases n
  {
    var s := FormatNat(n);
    if n < 10 {
      assert s[..|s| - 1] == [];
    } else {
      DigitsValueOfFormatNat(n / 10);
      assert s[..|s| - 1] == FormatNat(n / 10);
    }
  }

  /** Parsing what Itoa printed gives the number back, for every 64-bit int. */
  lemma AtoiOfItoa(n: int)
    requires Int64Min <= n <= Int64Max
    ensures Atoi(Itoa(n)) == n
  {
    var s := Itoa(n);
    if n < 0 {
      assert Unsigned(s) == FormatNat(-n);
      DigitsValueOfFormatNat(-n);
    } else {
      assert IsDigit(s[0]);
      assert Unsigned(s) == FormatNat(n);
      DigitsValueOfFormatNat(n);
    }
  }

  /** A digit run without superfluous leading zeros: what FormatNat prints. */
  predicate CanonicalDigits(s: string) {
    |s| > 0 && AllDigits(s) && (|s| == 1 || s[0] != '0')
  }

  lemma {:induction false} LeadingNonzeroDigit(s: string)
    requires |s| > 0 && AllDigits(s) && s[0] != '0'
    ensures DigitsValue(s) > 0
    decreases |s|
  {
    if |s| > 1 {
      var p := s[..|s| - 1];
      assert p[0] == s[0];
      LeadingNonzeroDigit(p);
    }
  }

  lemma {:induction false} FormatNatOfDigitsValue(s: string)
    requires CanonicalDigits(s)
    ensures FormatNat(DigitsValue(s)) == s
    decreases |s|
  {
    var p := s[..|s| - 1];
    var d := DigitValue(s[|s| - 1]);
    assert DigitChar(d) == s[|s| - 1];
    if |s| == 1 {
      assert p == [];
    } else {
      assert p[0] == s[0];
      FormatNatOfDigitsValue(p);
      LeadingNonzeroDigit(p);
      var v := DigitsValue(p);
      var n := v * 10 + d;
      assert n / 10 == v && n % 10 == d;
      assert s == p + [s[|s| - 1]];
    }
  }

  /** A numeral Itoa could have printed: no '+', no leading zeros, no "-0", in range. */
  predicate Canonical(s: string) {
    if |s| > 0 && s[0] == '-' then CanonicalDigits(s[1..]) && s[1] != '0' && DigitsValue(s[1..]) <= -Int64Min
    else CanonicalDigits(s) && DigitsValue(s) <= Int64Max
  }

  /** Printing what Atoi parsed gives the text back, for every canonical numeral. */
  lemma ItoaOfAtoi(s: string)
    requires Canonical(s)
    ensures Itoa(Atoi(s)) == s
  {
    if |s| > 0 && s[0] == '-' {
      NegativeItoaOfAtoi(s);
    } else {
      NonNegativeItoaOfAtoi(s);
    }
  }

  lemma NegativeItoaOfAtoi(s: string)
    requires |s| > 0 && s[0] == '-'
    requires CanonicalDigits(s[1..]) && s[1] != '0' && DigitsValue(s[1..]) <= -Int64Min
    ensures Itoa(Atoi(s)) == s
  {
    var u := s[1..];
    var v: int := DigitsValue(u);
    assert Unsigned(s) == u;
    assert WellFormed(s) && Value(s) == -v;
    assert Atoi(s) == -v;
    LeadingNonzeroDigit(u);
    FormatNatOfDigitsValue(u);
    assert s == "-" + u;
  }

  lemma NonNegativeItoaOfAtoi(s: string)
    requires CanonicalDigits(s) && DigitsValue(s) <= Int64Max
    ensures Itoa(Atoi(s)) == s
  {
    var v := DigitsValue(s);
    assert Unsigned(s) == s;
    assert WellFormed(s) && Value(s) == v;
    assert Atoi(s) == v;
    FormatNatOfDigitsValue(s);
  }
}

/** Decimal rendering and parsing of Go integers: `fmt.Sprintf("%d", i)` (the
    tracker's `itoa`) and `strconv.Atoi`. The two disagree on which strings
    denote a number: `Atoi` accepts a sign and leading zeros, the rendering
    never produces them. */
module Decimal {
  import opened Types

  predicate IsDigit(c: char) {
    '0' <= c <= '9'
  }

  predicate AllDigits(s: string) {
    forall i :: 0 <= i < |s| ==> IsDigit(s[i])
  }

  function DigitChar(d: nat): (c: char)
    requires d < 10
    ensures IsDigit(c)
  {
    ('0' as int + d) as char
  }

  function DigitValue(c: char): (d: nat)
    requires IsDigit(c)
    ensures d < 10
  {
    c as int - '0' as int
  }

  /** The value of a run of decimal digits, most significant first. */
  function DigitsValue(s: string): nat
    requires AllDigits(s)
  {
    if s == [] then 0 else DigitsValue(s[..|s| - 1]) * 10 + DigitValue(s[|s| - 1])
  }

  /** The shortest decimal digits of `n`. */
  function Digits(n: nat): (s: string)
    ensures |s| > 0 && AllDigits(s)
    ensures s[0] == '0' ==> n == 0
  {
    if n < 10 then [DigitChar(n)] else Digits(n / 10) + [DigitChar(n % 10)]
  }

  /** `fmt.Sprintf("%d", i)`: a minus sign for negative values, then the
      shortest digits of the magnitude. The rendering is canonical and
      denotes `i`, whatever the width of `i`. */
  function Itoa(i: int): (r: string)
    ensures IsCanonical(r)
    ensures IsSignedDecimal(r) && SignedValue(r) == i
  {
    if i < 0 then
      var d := Digits(-i);
      DigitsValueOfDigits(-i);
      assert ("-" + d)[1..] == d;
      "-" + d
    else
      DigitsValueOfDigits(i);
      Digits(i)
  }

  /** An optional sign followed by at least one digit: the strings
      `strconv.Atoi` accepts before its range check. */
  predicate IsSignedDecimal(s: string) {
    |s| > 0 &&
    var body := if s[0] == '-' || s[0] == '+' then s[1..] else s;
    |body| > 0 && AllDigits(body)
  }

  /** The mathematical value of a signed decimal string. */
  function SignedValue(s: string): int
    requires IsSignedDecimal(s)
  {
    if s[0] == '-' then -(DigitsValue(s[1..]) as int)
    else if s[0] == '+' then DigitsValue(s[1..])
    else DigitsValue(s)
  }

  function Pow10(k: nat): (p: nat)
    ensures p > 0
  {
    if k == 0 then 1 else 10 * Pow10(k - 1)
  }

  /** The digit loop of `strconv.Atoi`: scans left to right, accumulating
      `acc * 10 + digit`, and fails on the first non-digit. */
  function ScanDigits(s: string, acc: nat): (r: Option<nat>)
    ensures r.Some? <==> AllDigits(s)
    ensures r.Some? ==> r.value >= acc
  {
    if s == [] then Some(acc)
    else if !IsDigit(s[0]) then None
    else ScanDigits(s[1..], acc * 10 + DigitValue(s[0]))
  }

  /** `strconv.Atoi` for a 64-bit `int`: an optional sign, then the digit
      loop, then the range check. Syntax and range errors are both `None`;
      callers here do not tell them apart. */
  function Atoi(s: string): (r: Option<GoInt>)
    ensures r.Some? <==> IsSignedDecimal(s) && MinInt <= SignedValue(s) <= MaxInt
    ensures r.Some? ==> r.value == SignedValue(s)
  {
    if s == [] then None
    else
      var neg := s[0] == '-';
      var body := if s[0] == '-' || s[0] == '+' then s[1..] else s;
      if body == [] then None
      else
        ScanDigitsValue(body, 0);
        match ScanDigits(body, 0)
        case None => None
        case Some(u) =>
          var v := if neg then -(u as int) else u;
          if MinInt <= v <= MaxInt then Some(v) else None
  }

  /** The left-to-right scan agrees with the right-to-left value, and it
      rejects exactly the strings holding a non-digit. */
  lemma ScanDigitsValue(s: string, acc: nat)
    ensures AllDigits(s) ==> ScanDigits(s, acc) == Some(acc * Pow10(|s|) + DigitsValue(s))
    ensures !AllDigits(s) ==> ScanDigits(s, acc) == None
  {
    if AllDigits(s) {
      ScanDigitsOfDigits(s, acc);
    }
  }

  lemma {:induction false} ScanDigitsOfDigits(s: string, acc: nat)
    requires AllDigits(s)
    ensures ScanDigits(s, acc) == Some(acc * Pow10(|s|) + DigitsValue(s))
    decreases |s|
  {
    if s != [] {
      var d := DigitValue(s[0]);
      ScanDigitsOfDigits(s[1..], acc * 10 + d);
      DigitsValueFront(s);
      ShiftAccumulator(acc, d, Pow10(|s| - 1), DigitsValue(s[1..]));
    }
  }

  /** One scan step moves a digit from the accumulator into the value. */
  lemma ShiftAccumulator(acc: nat, d: nat, p: nat, rest: nat)
    ensures (acc * 10 + d) * p + rest == acc * (10 * p) + (d * p + rest)
  {
  }

  /** Peeling the leading digit: it contributes `d * 10^(|s|-1)`. */
  lemma {:induction false} DigitsValueFront(s: string)
    requires |s| > 0 && AllDigits(s)
    ensures DigitsValue(s) == DigitValue(s[0]) * Pow10(|s| - 1) + DigitsValue(s[1..])
    decreases |s|
  {
    if |s| > 1 {
      var init := s[..|s| - 1];
      DigitsValueFront(init);
      assert s[1..][..|s| - 2] == init[1..];
      assert init[0] == s[0];
      var d, last := DigitValue(s[0]), DigitValue(s[|s| - 1]);
      var p, rest := Pow10(|s| - 2), DigitsValue(init[1..]);
      assert DigitsValue(s) == DigitsValue(init) * 10 + last;
      assert DigitsValue(init) == d * p + rest;
      assert DigitsValue(s[1..]) == rest * 10 + last;
      assert Pow10(|s| - 1) == p * 10;
      ShiftDigit(d, p, rest, last);
    }
  }

  lemma ShiftDigit(d: nat, p: nat, rest: nat, last: nat)
    ensures (d * p + rest) * 10 + last == d * (p * 10) + (rest * 10 + last)
  {
  }

  /** The form `Itoa` produces: "0", or an optional minus sign followed by
      digits that do not start with '0'. */
  predicate IsCanonical(s: string) {
    || s == "0"
    || (|s| > 0 && AllDigits(s) && s[0] != '0')
    || (|s| > 1 && s[0] == '-' && AllDigits(s[1..]) && s[1] != '0')
  }

  lemma {:induction false} DigitsValueOfDigits(n: nat)
    ensures DigitsValue(Digits(n)) == n
  {
    if n >= 10 {
      var s := Digits(n);
      assert s[..|s| - 1] == Digits(n / 10);
      DigitsValueOfDigits(n / 10);
    }
  }

  lemma {:induction false} DigitsOfDigitsValue(s: string)
    requires |s| > 0 && AllDigits(s)
    requires s == "0" || s[0] != '0'
    ensures Digits(DigitsValue(s)) == s
    decreases |s|
  {
    if |s| > 1 {
      var init := s[..|s| - 1];
      DigitsOfDigitsValue(init);
      DigitsLowerBound(init);
      var v := DigitsValue(s);
      assert v / 10 == DigitsValue(init);
      assert DigitChar(v % 10) == s[|s| - 1];
    }
  }

  /** A digit string with a non-zero leading digit has a non-zero value. */
  lemma {:induction false} DigitsLowerBound(s: string)
    requires |s| > 0 && AllDigits(s) && s[0] != '0'
    ensures DigitsValue(s) > 0
    decreases |s|
  {
    if |s| > 1 {
      DigitsLowerBound(s[..|s| - 1]);
    }
  }

  /** Rendering then `Atoi` is the identity on Go integers. */
  lemma AtoiItoaRoundTrip(i: GoInt)
    ensures Atoi(Itoa(i)) == Some(i)
  {
  }

  /** Exactly the canonical strings are renderings, each of exactly one
      integer. */
  lemma ItoaIffCanonical(s: string, i: int)
    ensures Itoa(i) == s <==> IsCanonical(s) && IsSignedDecimal(s) && SignedValue(s) == i
  {
    if IsCanonical(s) && IsSignedDecimal(s) && SignedValue(s) == i {
      if s[0] == '-' {
        DigitsOfDigitsValue(s[1..]);
        DigitsLowerBound(s[1..]);
        assert s == "-" + s[1..];
      } else {
        DigitsOfDigitsValue(s);
      }
    }
  }

  /** Rendering is injective. */
  lemma ItoaInjective(i: int, j: int)
    ensures Itoa(i) == Itoa(j) ==> i == j
  {
  }

  /** `Atoi` accepts forms no integer renders to: a leading zero, a plus
      sign, a negative zero. */
  lemma AtoiAcceptsNonCanonical()
    ensures Atoi("07") == Some(7) && !IsCanonical("07")
    ensures Atoi("+7") == Some(7) && !IsCanonical("+7")
    ensures Atoi("-0") == Some(0) && !IsCanonical("-0")
  {
    assert DigitsValue("07") == 7 by {
      assert "07"[..1] == "0";
    }
    assert "+7"[1..] == "7";
    assert "-0"[1..] == "0";
  }
}

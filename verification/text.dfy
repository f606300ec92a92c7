/** ASCII text operations the program relies on: case-insensitive comparison,
    substring search, and the decimal form of port numbers. */
module Text {
  import opened Wrappers

  /** A 16-bit port number. */
  type Port = p: int | 0 <= p < 65536

  function UpperChar(c: char): char {
    if 'a' <= c <= 'z' then (c as int - 32) as char else c
  }

  function Upper(s: string): string {
    seq(|s|, i requires 0 <= i < |s| => UpperChar(s[i]))
  }

  predicate EqIgnoreCase(a: string, b: string) {
    Upper(a) == Upper(b)
  }

  /** The same character, or the two cases of one ASCII letter. */
  predicate SameLetter(c: char, d: char) {
    c == d || ('a' <= c <= 'z' && c as int - 32 == d as int) || ('a' <= d <= 'z' && d as int - 32 == c as int)
  }

  lemma EqIgnoreCaseExact(a: string, b: string)
    ensures EqIgnoreCase(a, b) <==> |a| == |b| && forall i :: 0 <= i < |a| ==> SameLetter(a[i], b[i])
  {
    if EqIgnoreCase(a, b) {
      assert |Upper(a)| == |Upper(b)|;
      forall i | 0 <= i < |a| ensures SameLetter(a[i], b[i]) {
        assert Upper(a)[i] == Upper(b)[i];
      }
    }
  }

  /** `pat` occurs in `s` starting at index `i`. */
  predicate OccursAt(s: string, pat: string, i: int) {
    0 <= i <= |s| - |pat| && s[i..i + |pat|] == pat
  }

  predicate Contains(s: string, pat: string) {
    exists i :: 0 <= i <= |s| && OccursAt(s, pat, i)
  }

  // ---- Decimal numbers ----------------------------------------------------

  predicate IsDigit(c: char) {
    '0' <= c <= '9'
  }

  predicate AllDigits(s: string) {
    forall i :: 0 <= i < |s| ==> IsDigit(s[i])
  }

  function DigitChar(d: nat): char
    requires d < 10
  {
    (d + 48) as char
  }

  function DigitValue(c: char): nat
    requires IsDigit(c)
  {
    c as int - 48
  }

  /** `x.to_string()` for an unsigned integer. */
  function ToDecimal(n: nat): string {
    if n < 10 then [DigitChar(n)] else ToDecimal(n / 10) + [DigitChar(n % 10)]
  }

  function ValueOf(s: string): nat
    requires AllDigits(s)
  {
    if s == [] then 0 else 10 * ValueOf(s[..|s| - 1]) + DigitValue(s[|s| - 1])
  }

  /** `value.parse::<u16>()`: one optional leading plus sign, then at least one
      digit and nothing else, with a value that fits 16 bits. */
  function ParsePort(s: string): Option<Port> {
    var digits := if |s| > 1 && s[0] == '+' then s[1..] else s;
    if digits != [] && AllDigits(digits) && ValueOf(digits) < 65536
    then Some(ValueOf(digits))
    else None
  }

  /** The text a number prints as: digits only, no superfluous leading zero. */
  predicate Canonical(s: string) {
    s != [] && AllDigits(s) && (|s| == 1 || s[0] != '0')
  }

  lemma {:induction false} RenderedIsCanonical(n: nat)
    ensures Canonical(ToDecimal(n))
    ensures ValueOf(ToDecimal(n)) == n
    ensures n > 0 ==> ToDecimal(n)[0] != '0'
  {
    if n >= 10 {
      RenderedIsCanonical(n / 10);
      var front := ToDecimal(n / 10);
      assert ToDecimal(n)[..|ToDecimal(n)| - 1] == front;
    }
  }

  lemma {:induction false} LeadingDigitPositive(s: string)
    requires Canonical(s) && s[0] != '0'
    ensures ValueOf(s) > 0
  {
    if |s| > 1 {
      LeadingDigitPositive(s[..|s| - 1]);
    }
  }

  lemma {:induction false} CanonicalIsRendered(s: string)
    requires Canonical(s)
    ensures ToDecimal(ValueOf(s)) == s
  {
    if |s| > 1 {
      var front := s[..|s| - 1];
      CanonicalIsRendered(front);
      LeadingDigitPositive(front);
      assert s == front + [s[|s| - 1]];
    }
  }

  /** Comparing the printed form of a port with a text agrees with comparing
      the parsed text exactly for canonical texts. */
  lemma PrintedComparisonExact(x: Port, s: string)
    ensures ToDecimal(x) == s <==> ParsePort(s) == Some(x) && Canonical(s)
  {
    RenderedIsCanonical(x);
    if Canonical(s) {
      CanonicalIsRendered(s);
    }
  }

  // ---- What parses --------------------------------------------------------------

  function Zeros(n: nat): string {
    if n == 0 then [] else ['0'] + Zeros(n - 1)
  }

  lemma {:induction false} ValueAfterZero(s: string)
    requires AllDigits(s)
    ensures AllDigits(['0'] + s) && ValueOf(['0'] + s) == ValueOf(s)
  {
    var z := ['0'] + s;
    if s == [] {
      assert z[..0] == [] && ValueOf(z) == 10 * ValueOf(z[..0]) + DigitValue(z[0]);
    } else {
      ValueAfterZero(s[..|s| - 1]);
      assert z[..|z| - 1] == ['0'] + s[..|s| - 1];
    }
  }

  lemma {:induction false} ValueAfterZeros(n: nat, s: string)
    requires AllDigits(s)
    ensures AllDigits(Zeros(n) + s) && ValueOf(Zeros(n) + s) == ValueOf(s)
  {
    if n == 0 {
      assert Zeros(0) + s == s;
    } else {
      var rest := Zeros(n - 1) + s;
      assert Zeros(n) + s == ['0'] + rest;
      ValueAfterZeros(n - 1, s);
      ValueAfterZero(rest);
    }
  }

  /** Digits are a printed number behind some zeros. */
  lemma {:induction false} DigitsSplit(s: string) returns (n: nat)
    requires s != [] && AllDigits(s)
    ensures s == Zeros(n) + ToDecimal(ValueOf(s))
  {
    if Canonical(s) {
      CanonicalIsRendered(s);
      n := 0;
    } else {
      var k := DigitsSplit(s[1..]);
      ValueAfterZero(s[1..]);
      assert s == ['0'] + s[1..];
      n := k + 1;
      assert Zeros(n) + ToDecimal(ValueOf(s)) == ['0'] + (Zeros(k) + ToDecimal(ValueOf(s)));
    }
  }

  /** A text parses to a port exactly when it is that port as it is printed, behind any
      number of zeros and at most one plus sign. */
  lemma ParsePortExact(s: string, p: Port)
    ensures ParsePort(s) == Some(p) <==>
            exists n: nat :: s == Zeros(n) + ToDecimal(p) || s == ['+'] + (Zeros(n) + ToDecimal(p))
  {
    RenderedIsCanonical(p);
    if ParsePort(s) == Some(p) {
      var digits := if |s| > 1 && s[0] == '+' then s[1..] else s;
      var n := DigitsSplit(digits);
      assert s == digits || s == ['+'] + digits;
    }
    forall n: nat | s == Zeros(n) + ToDecimal(p) || s == ['+'] + (Zeros(n) + ToDecimal(p))
      ensures ParsePort(s) == Some(p)
    {
      ValueAfterZeros(n, ToDecimal(p));
      var digits := Zeros(n) + ToDecimal(p);
      assert (['+'] + digits)[1..] == digits;
      assert IsDigit(digits[0]);
    }
  }
}

/** Decimal integers on the command line and in eval lines: how the program prints an
    unsigned number and how it reads one back into a bounded machine integer. */
module Decimal {
  import opened Wrappers

  const U32_MAX: nat := 0xFFFF_FFFF
  const U64_MAX: nat := 0xFFFF_FFFF_FFFF_FFFF
  const I32_MAX: nat := 0x7FFF_FFFF

  predicate IsDigit(c: char) {
    '0' <= c <= '9'
  }

  predicate AllDigits(s: string) {
    forall i :: 0 <= i < |s| ==> IsDigit(s[i])
  }

  function DigitChar(d: nat): (c: char)
    requires d < 10
    ensures IsDigit(c) && DigitValue(c) == d
  {
    ('0' as int + d) as char
  }

  function DigitValue(c: char): nat
    requires IsDigit(c)
  {
    c as int - '0' as int
  }

  /** The number a digit string denotes; leading zeros are allowed. */
  function Value(s: string): nat
    requires AllDigits(s)
  {
    if s == [] then 0 else 10 * Value(s[..|s| - 1]) + DigitValue(s[|s| - 1])
  }

  /** The digits printed for n, without leading zeros. */
  function Render(n: nat): (s: string)
    ensures s != [] && AllDigits(s)
    ensures Value(s) == n
  {
    if n < 10 then
      assert Value([]) == 0;
      [DigitChar(n)]
    else
      var front := Render(n / 10);
      var s := front + [DigitChar(n % 10)];
      assert s[..|s| - 1] == front;
      s
  }

  /** Reading an unsigned integer: an optional '+', at least one digit, nothing else, and a
      value that fits. */
  function ParseUnsigned(s: string, max: nat): (r: Option<nat>)
    ensures r.Some? ==> r.value <= max
  {
    var digits := if |s| > 0 && s[0] == '+' then s[1..] else s;
    if digits == [] || !AllDigits(digits) || Value(digits) > max then None else Some(Value(digits))
  }

  /** Reading a signed 32-bit integer: as above, and '-' negates down to the least value. */
  function ParseI32(s: string): (r: Option<int>)
    ensures r.Some? ==> -(I32_MAX as int) - 1 <= r.value <= I32_MAX
  {
    if |s| > 0 && s[0] == '-' then
      var digits := s[1..];
      if digits == [] || !AllDigits(digits) || Value(digits) > I32_MAX + 1 then None
      else var negated: int := -(Value(digits) as int); Some(negated)
    else
      ParseUnsigned(s, I32_MAX)
  }

  /** A printed number reads back as itself exactly when it fits; otherwise it is rejected. */
  lemma ParseRender(n: nat, max: nat)
    ensures ParseUnsigned(Render(n), max) == if n <= max then Some(n) else None
  {
    assert IsDigit(Render(n)[0]);
  }

  function Zeros(k: nat): string {
    if k == 0 then "" else Zeros(k - 1) + "0"
  }

  /** Leading zeros do not count. */
  lemma {:induction false} ZerosCountNothing(k: nat, s: string)
    requires AllDigits(s)
    ensures AllDigits(Zeros(k)) && AllDigits(Zeros(k) + s) && Value(Zeros(k) + s) == Value(s)
  {
    if s == "" {
      assert Zeros(k) + s == Zeros(k);
      if k > 0 {
        ZerosCountNothing(k - 1, "");
        assert Zeros(k)[..|Zeros(k)| - 1] == Zeros(k - 1) == Zeros(k - 1) + "";
      }
    } else {
      ZerosCountNothing(k, s[..|s| - 1]);
      assert (Zeros(k) + s)[..|Zeros(k) + s| - 1] == Zeros(k) + s[..|s| - 1];
    }
  }

  /** Every digit string is some zeros and the printed form of its value, or zeros alone. */
  lemma {:induction false} DigitsAreRendered(s: string) returns (k: nat)
    requires AllDigits(s) && s != ""
    ensures s == Zeros(k) + Render(Value(s))
  {
    var front, last := s[..|s| - 1], s[|s| - 1];
    RenderSnoc(front, last);
    assert s == front + [last];
    if Value(front) == 0 {
      k := |front|;
      ZeroValue(front);
    } else {
      k := DigitsAreRendered(front);
      hide Value, Render, Zeros;
      assert Zeros(k) + (Render(Value(front)) + [last]) == (Zeros(k) + Render(Value(front))) + [last];
    }
  }

  lemma RenderSnoc(front: string, last: char)
    requires AllDigits(front) && IsDigit(last)
    ensures AllDigits(front + [last])
    ensures Render(Value(front + [last])) == if Value(front) == 0 then [last] else Render(Value(front)) + [last]
  {
    var v, d := Value(front), DigitValue(last);
    assert (front + [last])[..|front|] == front;
    assert Value(front + [last]) == 10 * v + d;
    hide Value;
    assert (10 * v + d) / 10 == v && (10 * v + d) % 10 == d && DigitChar(d) == last;
  }

  lemma {:induction false} ZeroValue(s: string)
    requires AllDigits(s) && Value(s) == 0
    ensures s == Zeros(|s|)
  {
    if s != "" {
      ZeroValue(s[..|s| - 1]);
      assert s == s[..|s| - 1] + [s[|s| - 1]];
    }
  }

  /** An optional '+', any zeros, and the printed form of n. */
  ghost predicate Denotes(s: string, n: nat) {
    exists plus, k :: (plus == "" || plus == "+") && s == plus + Zeros(k) + Render(n)
  }

  /** What is read as n is exactly what denotes n, if n fits. Everything else is rejected. */
  lemma ParseIff(s: string, max: nat, n: nat)
    ensures ParseUnsigned(s, max) == Some(n) <==> n <= max && Denotes(s, n)
  {
    hide Value, Render, Zeros, AllDigits;
    if ParseUnsigned(s, max) == Some(n) {
      if |s| > 0 && s[0] == '+' {
        var k := DigitsAreRendered(s[1..]);
        assert s == "+" + Zeros(k) + Render(n);
      } else {
        var k := DigitsAreRendered(s);
        assert s == "" + Zeros(k) + Render(n);
      }
    }
    if n <= max && Denotes(s, n) {
      var plus, k :| (plus == "" || plus == "+") && s == plus + Zeros(k) + Render(n);
      ZerosCountNothing(k, Render(n));
      var digits := Zeros(k) + Render(n);
      assert s == plus + digits && IsDigit(digits[0]);
      assert s[|plus|..] == digits;
    }
  }

  /** '-', any zeros, and the printed form of n. */
  ghost predicate Negates(s: string, n: nat) {
    exists k :: s == "-" + Zeros(k) + Render(n)
  }

  /** The text denotes a signed 32-bit integer. */
  ghost predicate DenotesI32(s: string, n: int) {
    || (0 <= n <= 0x7FFF_FFFF && Denotes(s, n))
    || (-0x8000_0000 <= n <= 0 && Negates(s, -n))
  }

  lemma ParseI32Iff(s: string, n: int)
    ensures ParseI32(s) == Some(n) <==> DenotesI32(s, n)
  {
    if |s| > 0 && s[0] == '-' {
      NegativeIff(s, n);
      if n >= 0 {
        NotDenoted(s, n);
      }
    } else {
      if n >= 0 {
        ParseIff(s, I32_MAX, n);
      }
    }
    hide ParseI32, Denotes, Negates;
  }

  lemma NotDenoted(s: string, n: nat)
    requires |s| > 0 && s[0] == '-'
    ensures !Denotes(s, n)
  {
    hide Value, Render, Zeros;
    forall plus: string, k: nat | plus == "" || plus == "+" ensures s != plus + Zeros(k) + Render(n) {
      ZerosCountNothing(k, Render(n));
      var digits := Zeros(k) + Render(n);
      assert plus + Zeros(k) + Render(n) == plus + digits;
      assert IsDigit(digits[0]);
      assert (plus + digits)[0] == if plus == "" then digits[0] else '+';
    }
  }

  lemma NegativeIff(s: string, n: int)
    requires |s| > 0 && s[0] == '-'
    ensures ParseI32(s) == Some(n) <==> -0x8000_0000 <= n <= 0 && Negates(s, -n)
  {
    hide Value, Render, Zeros, AllDigits;
    if ParseI32(s) == Some(n) {
      var k := DigitsAreRendered(s[1..]);
      assert s == "-" + Zeros(k) + Render(-n);
    }
    if -0x8000_0000 <= n <= 0 && Negates(s, -n) {
      var k :| s == "-" + Zeros(k) + Render(-n);
      ZerosCountNothing(k, Render(-n));
      assert s == "-" + (Zeros(k) + Render(-n));
      assert s[1..] == Zeros(k) + Render(-n);
    }
  }
}

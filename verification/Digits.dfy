/**
 Decimal texts: reading and writing numbers, zero padding, and the front of a text that is in a class of
 characters.
 */
module Digits {

  predicate IsDigit(c: char) { '0' <= c <= '9' }

  lemma DigitIff(c: char)
    ensures IsDigit(c) <==> c in "0123456789"
  {
  }

  predicate AllDigits(s: string) {
    forall c :: c in s ==> IsDigit(c)
  }

  /** How many characters at the front are in a class. */
  function Span(s: string, cls: char -> bool): (n: nat)
    ensures n <= |s| && (forall i :: 0 <= i < n ==> cls(s[i])) && (n < |s| ==> !cls(s[n]))
  {
    if s == [] || !cls(s[0]) then 0 else 1 + Span(s[1..], cls)
  }

  lemma {:induction false} SpanIs(a: string, b: string, cls: char -> bool)
    requires (forall c :: c in a ==> cls(c)) && (b != [] ==> !cls(b[0]))
    ensures Span(a + b, cls) == |a|
  {
    if a == [] {
      assert a + b == b;
    } else {
      assert (a + b)[1..] == a[1..] + b;
      SpanIs(a[1..], b, cls);
    }
  }

  function Decimal(n: nat): (s: string)
    ensures s != [] && AllDigits(s)
  {
    if n < 10 then ['0' + n as char] else Decimal(n / 10) + ['0' + (n % 10) as char]
  }

  function Value(s: string): nat {
    if s == [] then 0
    else Value(s[..|s| - 1]) * 10 + if IsDigit(s[|s| - 1]) then (s[|s| - 1] - '0') as nat else 0
  }

  /** padStart with zeros. */
  function Pad(s: string, width: nat): string
    decreases width - |s|
  {
    if |s| >= width then s else Pad("0" + s, width)
  }

  lemma {:induction false} ValueOfDecimal(n: nat)
    ensures Value(Decimal(n)) == n
  {
    if n >= 10 {
      ValueOfDecimal(n / 10);
      assert Decimal(n)[..|Decimal(n)| - 1] == Decimal(n / 10);
    }
  }

  lemma {:induction false} LeadingZero(s: string)
    ensures Value("0" + s) == Value(s)
  {
    if s != [] {
      LeadingZero(s[..|s| - 1]);
      assert ("0" + s)[..|s|] == "0" + s[..|s| - 1];
    }
  }

  /** Padding keeps the number, and only shows up to the width. */
  lemma {:induction false} Padded(s: string, width: nat)
    ensures Value(Pad(s, width)) == Value(s) && |Pad(s, width)| == if |s| < width then width else |s|
    decreases width - |s|
  {
    if |s| < width {
      LeadingZero(s);
      Padded("0" + s, width);
    }
  }

  lemma PadTells(m: nat, width: nat, n: nat, otherWidth: nat)
    requires Pad(Decimal(m), width) == Pad(Decimal(n), otherWidth)
    ensures m == n
  {
    Padded(Decimal(m), width);
    Padded(Decimal(n), otherWidth);
    ValueOfDecimal(m);
    ValueOfDecimal(n);
  }

  lemma {:induction false} PadHasDigits(s: string, width: nat)
    requires AllDigits(s)
    ensures AllDigits(Pad(s, width))
    decreases width - |s|
  {
    if |s| < width {
      PadHasDigits("0" + s, width);
    }
  }

  function Power(digits: nat): (p: nat)
    ensures p >= 1
  {
    if digits == 0 then 1 else 10 * Power(digits - 1)
  }

  lemma {:induction false} DecimalLength(n: nat, digits: nat)
    requires 1 <= digits && n < Power(digits)
    ensures |Decimal(n)| <= digits
  {
    if n >= 10 {
      DecimalLength(n / 10, digits - 1);
    }
  }

  lemma YearLength(n: nat)
    requires 1000 <= n < 10000
    ensures |Decimal(n)| == 4
  {
    assert Decimal(n) == Decimal(n / 10) + ['0' + (n % 10) as char];
    assert Decimal(n / 10) == Decimal(n / 100) + ['0' + (n / 10 % 10) as char];
    assert n / 10 / 10 == n / 100 && n / 100 / 10 == n / 1000;
  }

  lemma ShortTells(n: nat)
    requires n < 100
    ensures Value(Pad(Decimal(n), 2)) == n && |Pad(Decimal(n), 2)| == 2
  {
    ShortLength(n);
    Padded(Decimal(n), 2);
    ValueOfDecimal(n);
  }

  lemma ShortLength(n: nat)
    requires n < 100
    ensures |Pad(Decimal(n), 2)| == 2
  {
    Padded(Decimal(n), 2);
    assert n >= 10 ==> Decimal(n) == Decimal(n / 10) + ['0' + (n % 10) as char];
  }

  function Ones(width: nat): (s: string)
    ensures |s| == width && AllDigits(s) && (width > 0 ==> s[0] == '1')
  {
    if width == 0 then "" else "1" + Ones(width - 1)
  }

  lemma OneMoreDigit(v: nat, d: char)
    requires v >= 1 && IsDigit(d)
    ensures Decimal(v * 10 + (d - '0') as nat) == Decimal(v) + [d]
  {
    var n := v * 10 + (d - '0') as nat;
    assert n >= 10 && n / 10 == v && n % 10 == (d - '0') as nat;
  }

  lemma ValueStep(front: string, d: char)
    requires IsDigit(d)
    ensures Value(front + [d]) == Value(front) * 10 + (d - '0') as nat
  {
    assert (front + [d])[..|front|] == front;
  }

  /** Digits without a zero in front are the decimal text of their value. */
  lemma {:induction false} DecimalOfValue(s: string)
    requires s != [] && AllDigits(s) && s[0] != '0'
    ensures Decimal(Value(s)) == s && Value(s) >= 1
  {
    var front, last := s[..|s| - 1], s[|s| - 1];
    assert s == front + [last];
    assert last in s;
    ValueStep(front, last);
    if front == [] {
      assert s[0] == last && Value(front) == 0;
    } else {
      assert front[0] == s[0] && forall c :: c in front ==> c in s;
      DecimalOfValue(front);
      OneMoreDigit(Value(front), last);
    }
  }
}

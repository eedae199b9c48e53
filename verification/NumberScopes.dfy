/**
 When two scopes share a number. A scope is the text a in front of the sequence and the text b behind it;
 its numbers are a, the sequence padded to a width, and b. Whether some sequence of one scope and some
 sequence of another give the same number is decided by comparing the texts.
 */
module NumberScopes {
  import opened Digits

  /** The digits that a positive sequence is shown as: padded to the width, and not beyond it. */
  predicate IsShown(s: string, width: nat) {
    AllDigits(s) && |s| >= width && (|s| > width ==> s[0] != '0') && exists c :: c in s && c != '0'
  }

  // ---- which digits are shown ---------------------------------------------------------------------

  lemma {:induction false} PadFront(s: string, width: nat)
    requires |s| <= width
    ensures Pad(s, width + 1) == "0" + Pad(s, width)
    decreases width - |s|
  {
    if |s| < width {
      PadFront("0" + s, width);
    }
  }

  lemma {:induction false} PadOfValue(s: string)
    requires AllDigits(s) && exists c :: c in s && c != '0'
    ensures Pad(Decimal(Value(s)), |s|) == s && Value(s) >= 1
  {
    if s[0] != '0' {
      DecimalOfValue(s);
    } else {
      var t := s[1..];
      assert s == "0" + t;
      assert forall c :: c in t ==> c in s;
      PadOfValue(t);
      LeadingZero(t);
      Padded(Decimal(Value(t)), |t|);
      PadFront(Decimal(Value(t)), |t|);
    }
  }

  lemma {:induction false} DecimalLeads(n: nat)
    requires n >= 1
    ensures Decimal(n)[0] != '0'
  {
    if n >= 10 {
      DecimalLeads(n / 10);
    }
  }

  lemma {:induction false} PadKeeps(s: string, width: nat, c: char)
    requires c in s
    ensures c in Pad(s, width)
    decreases width - |s|
  {
    if |s| < width {
      PadKeeps("0" + s, width, c);
    }
  }

  /** These are exactly the digits some positive sequence is shown as. */
  lemma ShownIff(s: string, width: nat)
    ensures IsShown(s, width) <==> exists n: nat :: n >= 1 && Pad(Decimal(n), width) == s
  {
    if IsShown(s, width) {
      PadOfValue(s);
      assert Value(s) >= 1 && Pad(Decimal(Value(s)), width) == s by {
        if |s| > width {
          DecimalOfValue(s);
        }
      }
    }
    if n: nat :| n >= 1 && Pad(Decimal(n), width) == s {
      SequenceIsShown(n, width);
    }
  }

  lemma SequenceIsShown(n: nat, width: nat)
    requires n >= 1
    ensures IsShown(Pad(Decimal(n), width), width)
  {
    Padded(Decimal(n), width);
    PadHasDigits(Decimal(n), width);
    DecimalLeads(n);
    PadKeeps(Decimal(n), width, Decimal(n)[0]);
  }

  // ---- one text within the other ------------------------------------------------------------------

  /** Around the digits of the second scope the first one has u and v more. */
  predicate Nests(u: string, v: string, width: nat, inner: nat) {
    AllDigits(u) && AllDigits(v) && (u == "" || u[0] != '0' || |u| + inner + |v| <= width)
  }

  ghost predicate NestShared(u: string, v: string, width: nat, inner: nat) {
    exists y :: IsShown(y, inner) && IsShown(u + y + v, width)
  }

  lemma OnesAreShown(n: nat, width: nat)
    requires n >= width && n >= 1
    ensures IsShown(Ones(n), width)
  {
    assert Ones(n)[0] in Ones(n);
  }

  lemma AroundIsShown(u: string, y: string, v: string, width: nat)
    requires AllDigits(u) && AllDigits(v) && AllDigits(y) && y != "" && y[0] == '1'
    requires |u + y + v| >= width && (|u + y + v| > width ==> u == "" || u[0] != '0')
    ensures IsShown(u + y + v, width)
  {
    var x := u + y + v;
    assert x[|u|] == '1' && x[|u|] in x;
    assert u == "" ==> x[0] == '1';
    forall c | c in x ensures IsDigit(c) {
      assert c in u || c in y || c in v;
    }
  }

  lemma NestsIsShared(u: string, v: string, width: nat, inner: nat)
    requires width >= 1 && inner >= 1 && Nests(u, v, width, inner)
    ensures NestShared(u, v, width, inner)
  {
    var n := if u == "" || u[0] != '0' then width + inner else width - |u| - |v|;
    OnesAreShown(n, inner);
    AroundIsShown(u, Ones(n), v, width);
  }

  lemma SharedNests(u: string, y: string, v: string, width: nat, inner: nat)
    requires IsShown(y, inner) && IsShown(u + y + v, width)
    ensures Nests(u, v, width, inner)
  {
    var x := u + y + v;
    forall c | c in u || c in v ensures IsDigit(c) {
      assert c in x;
    }
    assert u != "" ==> x[0] == u[0];
  }

  // ---- one text crossing the other ------------------------------------------------------------------

  /** The first i characters of u are a sequence, and what is left of v after the rest of u is the other. */
  predicate MeetsAt(u: string, v: string, width: nat, other: nat, i: nat)
    requires i <= |u|
  {
    && |u| - i <= |v| && u[i..] == v[..|u| - i]
    && IsShown(u[..i], width) && IsShown(v[|u| - i..], other)
  }

  /** One scope goes on with u where the sequence of the other begins, and that one with v behind its own. */
  predicate Crosses(u: string, v: string, width: nat, other: nat)
    requires u != "" && v != ""
  {
    || (exists i :: 0 <= i <= |u| && MeetsAt(u, v, width, other, i))
    || (AllDigits(u) && AllDigits(v) && (u[0] != '0' || (|u| < width && other <= width - |u| + |v|)))
  }

  ghost predicate CrossShared(u: string, v: string, width: nat, other: nat) {
    exists x, y :: IsShown(x, width) && IsShown(y, other) && x + v == u + y
  }

  lemma SharedAtIs(u: string, v: string, width: nat, other: nat, x: string, y: string)
    requires IsShown(x, width) && IsShown(y, other) && x + v == u + y && |x| <= |u|
    ensures MeetsAt(u, v, width, other, |x|)
  {
    var s, n := u + y, |u| - |x|;
    assert x == (x + v)[..|x|] == s[..|x|] == u[..|x|];
    assert v == (x + v)[|x|..] == s[|x|..];
    assert s[|x|..] == u[|x|..] + y;
    assert v[..n] == u[|x|..] && v[n..] == y;
  }

  lemma MeetsAtIsShared(u: string, v: string, width: nat, other: nat, i: nat)
    requires i <= |u| && MeetsAt(u, v, width, other, i)
    ensures CrossShared(u, v, width, other)
  {
    var x, y := u[..i], v[|u| - i..];
    assert v == v[..|u| - i] + y && u == x + u[i..];
    assert x + v == x + (u[i..] + y) == u + y;
  }

  /** The sequences overlap in z. */
  lemma OverlapIs(u: string, v: string, width: nat, other: nat, x: string, y: string) returns (z: string)
    requires IsShown(x, width) && IsShown(y, other) && x + v == u + y && |x| > |u|
    ensures x == u + z && y == z + v && z != ""
  {
    z := x[|u|..];
    assert u == (u + y)[..|u|] == (x + v)[..|u|] == x[..|u|];
    assert y == (u + y)[|u|..] == (x + v)[|u|..] == z + v;
  }

  lemma OverlapCrosses(u: string, v: string, width: nat, other: nat, z: string)
    requires u != "" && v != "" && z != "" && IsShown(u + z, width) && IsShown(z + v, other)
    ensures Crosses(u, v, width, other)
  {
    forall c | c in u ensures IsDigit(c) {
      assert c in u + z;
    }
    forall c | c in v ensures IsDigit(c) {
      assert c in z + v;
    }
    assert (u + z)[0] == u[0];
  }

  lemma OverlapIsShared(u: string, v: string, width: nat, other: nat)
    requires u != "" && v != "" && AllDigits(u) && AllDigits(v)
    requires u[0] != '0' || (|u| < width && other <= width - |u| + |v|)
    ensures CrossShared(u, v, width, other)
  {
    var n := if u[0] != '0' then width + other + 1 else width - |u|;
    var z := Ones(n);
    AroundIsShown(u, z, "", width);
    AroundIsShown("", z, v, other);
    assert u + z + "" == u + z && "" + z + v == z + v;
    assert (u + z) + v == u + (z + v);
  }

  lemma CrossesIff(u: string, v: string, width: nat, other: nat)
    requires u != "" && v != ""
    ensures Crosses(u, v, width, other) <==> CrossShared(u, v, width, other)
  {
    if Crosses(u, v, width, other) {
      if i :| 0 <= i <= |u| && MeetsAt(u, v, width, other, i) {
        MeetsAtIsShared(u, v, width, other, i);
      } else {
        OverlapIsShared(u, v, width, other);
      }
    }
    if x, y :| IsShown(x, width) && IsShown(y, other) && x + v == u + y {
      if |x| <= |u| {
        SharedAtIs(u, v, width, other, x, y);
      } else {
        var z := OverlapIs(u, v, width, other, x, y);
        OverlapCrosses(u, v, width, other, z);
      }
    }
  }

  // ---- two scopes -----------------------------------------------------------------------------------

  datatype Scope = Scope(front: string, width: nat, end: string)

  predicate EndsWith(s: string, end: string) {
    |end| <= |s| && s[|s| - |end|..] == end
  }

  /** What is in front of a text that ends with another. */
  function Before(s: string, end: string): string
    requires EndsWith(s, end)
  {
    s[..|s| - |end|]
  }

  /** The second scope's texts reach further in on both sides: its sequence stands within the first one's. */
  predicate MeetsWithin(s: Scope, t: Scope) {
    && s.front <= t.front && EndsWith(t.end, s.end)
    && Nests(t.front[|s.front|..], Before(t.end, s.end), s.width, t.width)
  }

  /** The second scope's front and the first one's end reach further in. */
  predicate MeetsAcross(s: Scope, t: Scope) {
    && s.front <= t.front && |s.front| < |t.front| && EndsWith(s.end, t.end) && |t.end| < |s.end|
    && Crosses(t.front[|s.front|..], Before(s.end, t.end), s.width, t.width)
  }

  predicate Meets(s: Scope, t: Scope) {
    MeetsWithin(s, t) || MeetsWithin(t, s) || MeetsAcross(s, t) || MeetsAcross(t, s)
  }

  function NumberOf(s: Scope, x: string): string {
    s.front + x + s.end
  }

  ghost predicate Shares(s: Scope, t: Scope) {
    exists x, y :: IsShown(x, s.width) && IsShown(y, t.width) && NumberOf(s, x) == NumberOf(t, y)
  }

  lemma WithinIsShared(s: Scope, t: Scope)
    requires s.width >= 1 && t.width >= 1 && MeetsWithin(s, t)
    ensures Shares(s, t)
  {
    var u, v := t.front[|s.front|..], Before(t.end, s.end);
    NestsIsShared(u, v, s.width, t.width);
    var y :| IsShown(y, t.width) && IsShown(u + y + v, s.width);
    assert t.front == s.front + u && t.end == v + s.end;
    assert s.front + (u + y + v) + s.end == (s.front + u) + y + (v + s.end);
    assert NumberOf(s, u + y + v) == NumberOf(t, y);
  }

  lemma AcrossIsShared(s: Scope, t: Scope)
    requires MeetsAcross(s, t)
    ensures Shares(s, t)
  {
    var u, v := t.front[|s.front|..], Before(s.end, t.end);
    CrossesIff(u, v, s.width, t.width);
    var x, y :| IsShown(x, s.width) && IsShown(y, t.width) && x + v == u + y;
    assert t.front == s.front + u && s.end == v + t.end;
    assert s.front + x + (v + t.end) == s.front + (x + v) + t.end;
    assert s.front + (u + y) + t.end == (s.front + u) + y + t.end;
    assert NumberOf(s, x) == NumberOf(t, y);
  }

  /** Two ways to read one text: the longer front begins with the shorter one. */
  lemma FrontsAgree(a: string, r: string, b: string, q: string)
    requires a + r == b + q && |a| <= |b|
    ensures a <= b && r == b[|a|..] + q
  {
    assert a == (a + r)[..|a|] == (b + q)[..|a|] == b[..|a|];
    assert r == (a + r)[|a|..] == (b + q)[|a|..];
  }

  lemma EndsAgree(r: string, a: string, q: string, b: string)
    requires r + a == q + b && |a| <= |b|
    ensures EndsWith(b, a) && r == q + Before(b, a)
  {
    var s, n := r + a, |r + a|;
    assert a == s[n - |a|..] && b == s[n - |b|..];
    assert b[|b| - |a|..] == s[n - |a|..];
    assert r == s[..n - |a|] && (q + b)[..n - |a|] == q + b[..|b| - |a|];
  }

  lemma SharedMeets(s: Scope, t: Scope, x: string, y: string)
    requires IsShown(x, s.width) && IsShown(y, t.width) && NumberOf(s, x) == NumberOf(t, y) && |s.front| <= |t.front|
    ensures Meets(s, t)
  {
    assert NumberOf(s, x) == s.front + (x + s.end) && NumberOf(t, y) == t.front + (y + t.end);
    FrontsAgree(s.front, x + s.end, t.front, y + t.end);
    var u := t.front[|s.front|..];
    assert x + s.end == (u + y) + t.end;
    if |s.end| <= |t.end| {
      EndsAgree(x, s.end, u + y, t.end);
      SharedNests(u, y, Before(t.end, s.end), s.width, t.width);
    } else {
      EndsAgree(u + y, t.end, x, s.end);
      var v := Before(s.end, t.end);
      if u == "" {
        assert u + y == y && "" + x + v == x + v;
        SharedNests("", x, v, t.width, s.width);
        assert t.front == s.front;
      } else {
        CrossesIff(u, v, s.width, t.width);
      }
    }
  }

  /**
   Main result: some sequence of one scope and some sequence of another make the same number exactly when
   the scopes meet: one's texts are the other's and digits, the digits fitting the widths where they lead
   with a zero, or each has a text of its own in the place of the other's sequence.
   */
  lemma SharesIff(s: Scope, t: Scope)
    requires s.width >= 1 && t.width >= 1
    ensures Shares(s, t) <==> Meets(s, t)
  {
    if x, y :| IsShown(x, s.width) && IsShown(y, t.width) && NumberOf(s, x) == NumberOf(t, y) {
      if |s.front| <= |t.front| {
        SharedMeets(s, t, x, y);
      } else {
        SharedMeets(t, s, y, x);
      }
    }
    if MeetsWithin(s, t) {
      WithinIsShared(s, t);
    } else if MeetsWithin(t, s) {
      WithinIsShared(t, s);
      SharesEitherWay(t, s);
    } else if MeetsAcross(s, t) {
      AcrossIsShared(s, t);
    } else if MeetsAcross(t, s) {
      AcrossIsShared(t, s);
      SharesEitherWay(t, s);
    }
  }

  lemma SharesEitherWay(s: Scope, t: Scope)
    requires Shares(s, t)
    ensures Shares(t, s)
  {
    var x, y :| IsShown(x, s.width) && IsShown(y, t.width) && NumberOf(s, x) == NumberOf(t, y);
    assert IsShown(y, t.width) && IsShown(x, s.width) && NumberOf(t, y) == NumberOf(s, x);
  }
}

/** Alphabets, white space of the host language's regular expressions and trim, and dropping a class of characters. */
module Chars {

  predicate IsSpace(c: char) {
    '\t' <= c <= '\r' || c == ' ' || c == '\U{A0}' || c == '\U{1680}' || '\U{2000}' <= c <= '\U{200A}' || c == '\U{2028}'
    || c == '\U{2029}' || c == '\U{202F}' || c == '\U{205F}' || c == '\U{3000}' || c == '\U{FEFF}'
  }

  /** Tab to carriage return, space, no-break space, the spaces and separators of Unicode, and the byte order mark. */
  const SPACES: string := "\U{9}\U{A}\U{B}\U{C}\U{D}\U{20}\U{A0}\U{1680}\U{2000}\U{2001}\U{2002}\U{2003}\U{2004}\U{2005}\U{2006}\U{2007}\U{2008}\U{2009}\U{200A}\U{2028}\U{2029}\U{202F}\U{205F}\U{3000}\U{FEFF}"

  lemma SpaceIff(c: char)
    ensures IsSpace(c) <==> c in SPACES
  {
  }

  const CAPITALS: string := "ABCDEFGHIJKLMNOPQRSTUVWXYZ"
  const SMALL: string := "abcdefghijklmnopqrstuvwxyz"
  const DIGITS: string := "0123456789"

  lemma CapitalsAre(c: char)
    ensures c in CAPITALS <==> 'A' <= c <= 'Z'
  {
  }

  lemma SmallAre(c: char)
    ensures c in SMALL <==> 'a' <= c <= 'z'
  {
  }

  lemma DigitsAre(c: char)
    ensures c in DIGITS <==> '0' <= c <= '9'
  {
  }

  lemma InJoin(c: char, w: string, x: string, y: string, z: string)
    ensures c in w + x + y + z <==> c in w || c in x || c in y || c in z
  {
  }

  function TrimStart(s: string): string {
    if s != [] && IsSpace(s[0]) then TrimStart(s[1..]) else s
  }

  function TrimEnd(s: string): string {
    if s != [] && IsSpace(s[|s| - 1]) then TrimEnd(s[..|s| - 1]) else s
  }

  function Trim(s: string): string {
    TrimEnd(TrimStart(s))
  }

  /** replace with a global character class and an empty string. */
  function Drop(s: string, cls: char -> bool): string {
    if s == [] then [] else if cls(s[0]) then Drop(s[1..], cls) else [s[0]] + Drop(s[1..], cls)
  }

  lemma {:induction false} DropJoin(a: string, b: string, cls: char -> bool)
    ensures Drop(a + b, cls) == Drop(a, cls) + Drop(b, cls)
  {
    if a == [] {
      assert a + b == b;
    } else {
      assert (a + b)[1..] == a[1..] + b;
      DropJoin(a[1..], b, cls);
    }
  }

  /** Trimming first changes nothing where spaces are dropped anyway. */
  lemma {:induction false} DropTrim(s: string, cls: char -> bool)
    requires forall c :: IsSpace(c) ==> cls(c)
    ensures Drop(Trim(s), cls) == Drop(s, cls)
  {
    DropTrimStart(s, cls);
    DropTrimEnd(TrimStart(s), cls);
  }

  lemma {:induction false} DropTrimStart(s: string, cls: char -> bool)
    requires forall c :: IsSpace(c) ==> cls(c)
    ensures Drop(TrimStart(s), cls) == Drop(s, cls)
  {
    if s != [] && IsSpace(s[0]) {
      DropTrimStart(s[1..], cls);
    }
  }

  lemma {:induction false} DropTrimEnd(s: string, cls: char -> bool)
    requires forall c :: IsSpace(c) ==> cls(c)
    ensures Drop(TrimEnd(s), cls) == Drop(s, cls)
  {
    if s != [] && IsSpace(s[|s| - 1]) {
      DropTrimEnd(s[..|s| - 1], cls);
      assert s == s[..|s| - 1] + [s[|s| - 1]];
      DropJoin(s[..|s| - 1], [s[|s| - 1]], cls);
      assert Drop([s[|s| - 1]], cls) == [];
    }
  }

  lemma {:induction false} DropNothing(s: string, cls: char -> bool)
    requires forall c :: c in s ==> !cls(c)
    ensures Drop(s, cls) == s
  {
    if s != [] {
      DropNothing(s[1..], cls);
    }
  }

  predicate AllSpaces(s: string) {
    forall c :: c in s ==> IsSpace(c)
  }

  lemma {:induction false} TrimStartIs(a: string, s: string)
    requires AllSpaces(a) && (s != [] ==> !IsSpace(s[0]))
    ensures TrimStart(a + s) == s
  {
    if a == [] {
      assert a + s == s;
    } else {
      assert (a + s)[1..] == a[1..] + s;
      TrimStartIs(a[1..], s);
    }
  }

  lemma {:induction false} TrimEndIs(s: string, b: string)
    requires AllSpaces(b) && (s != [] ==> !IsSpace(s[|s| - 1]))
    ensures TrimEnd(s + b) == s
  {
    if b == [] {
      assert s + b == s;
    } else {
      var n := |b| - 1;
      assert (s + b)[..|s + b| - 1] == s + b[..n];
      TrimEndIs(s, b[..n]);
    }
  }

  /** Trimming takes away the spaces around a text and nothing of the text. */
  lemma TrimIs(a: string, s: string, b: string)
    requires AllSpaces(a) && AllSpaces(b) && s != [] && !IsSpace(s[0]) && !IsSpace(s[|s| - 1])
    ensures Trim(a + s + b) == s && Trim(a) == ""
  {
    assert a + s + b == a + (s + b) && (s + b)[0] == s[0];
    TrimStartIs(a, s + b);
    TrimEndIs(s, b);
    TrimStartIs(a, "");
    assert a + "" == a;
  }

  lemma DropOne(c: char, cls: char -> bool)
    ensures Drop([c], cls) == if cls(c) then [] else [c]
  {
    assert [c][1..] == [];
  }
}

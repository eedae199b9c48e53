/**
 xmlEscape: six global replacements, one after the other, are one substitution of single characters, and
 reading the predefined entities takes it back.
 */
module Xml {
  import opened Options
  import opened Chars

  /** Control characters that XML forbids. */
  predicate IsIllegal(c: char) {
    c <= '\U{8}' || c == '\U{B}' || c == '\U{C}' || '\U{E}' <= c <= '\U{1F}'
  }

  /** All below the space but tab, line feed and carriage return (production 2 of XML 1.0). */
  lemma IllegalIff(c: char)
    ensures IsIllegal(c) <==> c as int < 32 && c as int !in {9, 10, 13}
  {
  }

  function ReplaceAll(s: string, c: char, w: string): string {
    if s == [] then [] else (if s[0] == c then w else [s[0]]) + ReplaceAll(s[1..], c, w)
  }

  function XmlEscape(s: string): string {
    EscapeMarks(ReplaceAll(Drop(s, IsIllegal), '&', "&amp;"))
  }

  /** The replacements after the ampersand's. */
  function EscapeMarks(s: string): string {
    ReplaceAll(ReplaceAll(ReplaceAll(ReplaceAll(s, '<', "&lt;"), '>', "&gt;"), '\"', "&quot;"), '\'', "&apos;")
  }

  /** What one character is written as. */
  function Written(c: char): string {
    if IsIllegal(c) then ""
    else if c == '&' then "&amp;"
    else if c == '<' then "&lt;"
    else if c == '>' then "&gt;"
    else if c == '\"' then "&quot;"
    else if c == '\'' then "&apos;"
    else [c]
  }

  function Substitute(s: string): string {
    if s == [] then [] else Written(s[0]) + Substitute(s[1..])
  }

  lemma {:induction false} ReplaceJoin(a: string, b: string, c: char, w: string)
    ensures ReplaceAll(a + b, c, w) == ReplaceAll(a, c, w) + ReplaceAll(b, c, w)
  {
    if a == [] {
      assert a + b == b;
    } else {
      assert (a + b)[1..] == a[1..] + b;
      ReplaceJoin(a[1..], b, c, w);
    }
  }

  lemma {:induction false} ReplaceNothing(s: string, c: char, w: string)
    requires c !in s
    ensures ReplaceAll(s, c, w) == s
  {
    if s != [] {
      ReplaceNothing(s[1..], c, w);
    }
  }

  lemma ReplaceOne(c: char, w: string)
    ensures ReplaceAll([c], c, w) == w
  {
    assert [c][1..] == [];
  }

  lemma MarksJoin(a: string, b: string)
    ensures EscapeMarks(a + b) == EscapeMarks(a) + EscapeMarks(b)
  {
    ReplaceJoin(a, b, '<', "&lt;");
    var a1, b1 := ReplaceAll(a, '<', "&lt;"), ReplaceAll(b, '<', "&lt;");
    ReplaceJoin(a1, b1, '>', "&gt;");
    var a2, b2 := ReplaceAll(a1, '>', "&gt;"), ReplaceAll(b1, '>', "&gt;");
    ReplaceJoin(a2, b2, '\"', "&quot;");
    ReplaceJoin(ReplaceAll(a2, '\"', "&quot;"), ReplaceAll(b2, '\"', "&quot;"), '\'', "&apos;");
  }

  /** Text without the four marks is left alone. */
  lemma MarksNothing(s: string)
    requires '<' !in s && '>' !in s && '\"' !in s && '\'' !in s
    ensures EscapeMarks(s) == s
  {
    ReplaceNothing(s, '<', "&lt;");
    ReplaceNothing(s, '>', "&gt;");
    ReplaceNothing(s, '\"', "&quot;");
    ReplaceNothing(s, '\'', "&apos;");
  }

  /** What a later replacement finds in an entity: nothing. */
  lemma MarksOfOne(c: char)
    requires !IsIllegal(c) && c != '&'
    ensures EscapeMarks([c]) == Written(c)
  {
    if c == '<' {
      ReplaceOne(c, "&lt;");
      ReplaceNothing("&lt;", '>', "&gt;");
      ReplaceNothing("&lt;", '\"', "&quot;");
      ReplaceNothing("&lt;", '\'', "&apos;");
    } else if c == '>' {
      ReplaceNothing([c], '<', "&lt;");
      ReplaceOne(c, "&gt;");
      ReplaceNothing("&gt;", '\"', "&quot;");
      ReplaceNothing("&gt;", '\'', "&apos;");
    } else if c == '\"' {
      ReplaceNothing([c], '<', "&lt;");
      ReplaceNothing([c], '>', "&gt;");
      ReplaceOne(c, "&quot;");
      ReplaceNothing("&quot;", '\'', "&apos;");
    } else if c == '\'' {
      ReplaceNothing([c], '<', "&lt;");
      ReplaceNothing([c], '>', "&gt;");
      ReplaceNothing([c], '\"', "&quot;");
      ReplaceOne(c, "&apos;");
    } else {
      MarksNothing([c]);
    }
  }

  lemma EscapeOne(c: char)
    requires !IsIllegal(c)
    ensures EscapeMarks(ReplaceAll([c], '&', "&amp;")) == Written(c)
  {
    if c == '&' {
      ReplaceOne(c, "&amp;");
      MarksNothing("&amp;");
    } else {
      ReplaceNothing([c], '&', "&amp;");
      MarksOfOne(c);
    }
  }

  lemma EscapeStep(s: string)
    requires s != []
    ensures XmlEscape(s) == Written(s[0]) + XmlEscape(s[1..])
  {
    var c, rest := s[0], Drop(s[1..], IsIllegal);
    if !IsIllegal(c) {
      ReplaceJoin([c], rest, '&', "&amp;");
      MarksJoin(ReplaceAll([c], '&', "&amp;"), ReplaceAll(rest, '&', "&amp;"));
      EscapeOne(c);
    }
  }

  /** Main result: the replacements in their order are the one-pass substitution. */
  lemma {:induction false} EscapeIsSubstitution(s: string)
    ensures XmlEscape(s) == Substitute(s)
  {
    if s != [] {
      EscapeStep(s);
      EscapeIsSubstitution(s[1..]);
    }
  }

  // ---- reading ----------------------------------------------------------------------------------

  /** The predefined entity at the front of s (section 4.6 of XML 1.0), and its length. */
  function EntityAt(s: string): (r: Option<(char, nat)>)
    ensures r.Some? ==> 0 < r.value.1 <= |s|
  {
    if "&amp;" <= s then Some(('&', 5))
    else if "&lt;" <= s then Some(('<', 4))
    else if "&gt;" <= s then Some(('>', 4))
    else if "&quot;" <= s then Some(('\"', 6))
    else if "&apos;" <= s then Some(('\'', 6))
    else None
  }

  function Decode(s: string): string {
    if s == [] then []
    else if EntityAt(s).Some? then [EntityAt(s).value.0] + Decode(s[EntityAt(s).value.1..])
    else [s[0]] + Decode(s[1..])
  }

  lemma EntityThen(c: char, rest: string)
    requires !IsIllegal(c)
    ensures EntityAt(Written(c) + rest) == if |Written(c)| > 1 then Some((c, |Written(c)|)) else None
  {
    var w := Written(c);
    if |w| > 1 {
      assert w <= w + rest;
      assert (w + rest)[1] == w[1] && (w + rest)[2] == w[2];
    } else {
      assert (w + rest)[0] == c;
    }
  }

  lemma DecodeWritten(c: char, rest: string)
    requires !IsIllegal(c)
    ensures Decode(Written(c) + rest) == [c] + Decode(rest)
  {
    EntityThen(c, rest);
    assert (Written(c) + rest)[|Written(c)|..] == rest;
  }

  /** Main result: reading back gives the text without the characters that were dropped. */
  lemma {:induction false} DecodeEscape(s: string)
    ensures Decode(XmlEscape(s)) == Drop(s, IsIllegal)
  {
    if s != [] {
      EscapeStep(s);
      DecodeEscape(s[1..]);
      if IsIllegal(s[0]) {
        assert XmlEscape(s) == XmlEscape(s[1..]);
      } else {
        DecodeWritten(s[0], XmlEscape(s[1..]));
      }
    }
  }

  /** Two texts are written the same exactly when they differ in dropped characters only. */
  lemma EscapedSameIff(s: string, t: string)
    ensures XmlEscape(s) == XmlEscape(t) <==> Drop(s, IsIllegal) == Drop(t, IsIllegal)
  {
    DecodeEscape(s);
    DecodeEscape(t);
  }

  predicate Quoting(c: char) {
    c == '<' || c == '>' || c == '\"' || c == '\''
  }

  /** What may stand in an element or attribute: no marks, and an ampersand only in front of an entity. */
  ghost predicate Safe(s: string) {
    forall i :: 0 <= i < |s| ==> !Quoting(s[i]) && !IsIllegal(s[i]) && (s[i] == '&' ==> EntityAt(s[i..]).Some?)
  }

  lemma {:induction false} EscapedIsSafe(s: string)
    ensures Safe(XmlEscape(s))
  {
    if s != [] {
      EscapeStep(s);
      EscapedIsSafe(s[1..]);
      var w, rest := Written(s[0]), XmlEscape(s[1..]);
      if IsIllegal(s[0]) {
        assert w + rest == rest;
      } else {
        EntityThen(s[0], rest);
        WrittenIsPlain(s[0]);
        SafeJoin(w, rest);
      }
    }
  }

  lemma WrittenIsPlain(c: char)
    requires !IsIllegal(c)
    ensures forall i :: 0 <= i < |Written(c)| ==>
      !Quoting(Written(c)[i]) && !IsIllegal(Written(c)[i]) && (i > 0 ==> Written(c)[i] != '&')
    ensures Written(c)[0] == '&' <==> |Written(c)| > 1
  {
  }

  lemma SafeJoin(w: string, rest: string)
    requires w != [] && Safe(rest) && (w[0] == '&' ==> EntityAt(w + rest).Some?)
    requires forall i :: 0 <= i < |w| ==> !Quoting(w[i]) && !IsIllegal(w[i]) && (i > 0 ==> w[i] != '&')
    ensures Safe(w + rest)
  {
    var s := w + rest;
    forall i | 0 <= i < |s|
      ensures !Quoting(s[i]) && !IsIllegal(s[i]) && (s[i] == '&' ==> EntityAt(s[i..]).Some?)
    {
      if i >= |w| {
        assert s[i] == rest[i - |w|] && s[i..] == rest[i - |w|..];
      } else if i > 0 {
        assert s[i] == w[i];
      } else {
        assert s[i..] == s;
      }
    }
  }

  // ---- the order of the replacements ------------------------------------------------------------

  /** The same replacements with the ampersand's moved to the end. */
  function EscapeAmpersandLast(s: string): string {
    ReplaceAll(EscapeMarks(Drop(s, IsIllegal)), '&', "&amp;")
  }

  function Marks(t: string): nat {
    if t == [] then 0 else (if Quoting(t[0]) then 1 else 0) + Marks(t[1..])
  }

  lemma {:induction false} SomeMarksIff(t: string)
    ensures Marks(t) > 0 <==> exists c :: c in t && Quoting(c)
  {
    if t != [] {
      SomeMarksIff(t[1..]);
      assert t == [t[0]] + t[1..];
    }
  }

  /** With the ampersand last a mark is written with four characters more. */
  lemma LongerByFour(c: char)
    requires !IsIllegal(c)
    ensures |ReplaceAll(EscapeMarks([c]), '&', "&amp;")| == |Written(c)| + if Quoting(c) then 4 else 0
    ensures !Quoting(c) ==> ReplaceAll(EscapeMarks([c]), '&', "&amp;") == Written(c)
  {
    if Quoting(c) {
      MarksOfOne(c);
      var w := Written(c);
      assert w == "&" + w[1..];
      ReplaceJoin("&", w[1..], '&', "&amp;");
      ReplaceOne('&', "&amp;");
      ReplaceNothing(w[1..], '&', "&amp;");
    } else {
      MarksNothing([c]);
      if c == '&' {
        ReplaceOne(c, "&amp;");
      } else {
        ReplaceNothing([c], '&', "&amp;");
      }
    }
  }

  lemma {:induction false} LongerLast(s: string)
    ensures |EscapeAmpersandLast(s)| == |XmlEscape(s)| + 4 * Marks(Drop(s, IsIllegal))
    ensures Marks(Drop(s, IsIllegal)) == 0 ==> EscapeAmpersandLast(s) == XmlEscape(s)
  {
    if s != [] {
      LongerLast(s[1..]);
      EscapeStep(s);
      if !IsIllegal(s[0]) {
        var rest := Drop(s[1..], IsIllegal);
        assert Drop(s, IsIllegal) == [s[0]] + rest;
        MarksJoin([s[0]], rest);
        ReplaceJoin(EscapeMarks([s[0]]), EscapeMarks(rest), '&', "&amp;");
        LongerByFour(s[0]);
      }
    }
  }

  /** That order is right exactly for texts without marks: the ampersand has to come first. */
  lemma AmpersandFirstIff(s: string)
    ensures EscapeAmpersandLast(s) == XmlEscape(s) <==> forall c :: c in Drop(s, IsIllegal) ==> !Quoting(c)
  {
    LongerLast(s);
    SomeMarksIff(Drop(s, IsIllegal));
  }
}

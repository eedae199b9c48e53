/**
 canonicalJson: JSON text with the object keys sorted at every level. It is proved to be JSON that
 parses back to the value it was made from, and to be the same for two values exactly when the values
 are the same up to key order, undefined fields and undefined array items.
 */
module CanonicalJson {
  import opened Options

  /** JavaScript strings are sequences of UTF-16 code units, lone surrogates included. */
  type CodeUnit = u: int | 0 <= u < 0x1_0000
  type Text = seq<CodeUnit>

  const QUOTE: CodeUnit := 34
  const COMMA: CodeUnit := 44
  const COLON: CodeUnit := 58
  const OPEN_ARRAY: CodeUnit := 91
  const BACKSLASH: CodeUnit := 92
  const CLOSE_ARRAY: CodeUnit := 93
  const OPEN_OBJECT: CodeUnit := 123
  const CLOSE_OBJECT: CodeUnit := 125
  const LETTER_U: CodeUnit := 117
  const NULL: Text := [110, 117, 108, 108]
  const TRUE: Text := [116, 114, 117, 101]
  const FALSE: Text := [102, 97, 108, 115, 101]

  /** A value as the function receives it; a finite number is given by the text the language prints for it. */
  datatype Json =
    | Undefined
    | Null
    | Bool(b: bool)
    | Num(digits: Text)
    | NotFinite
    | Str(s: Text)
    | Arr(items: seq<Json>)
    | Obj(fields: seq<Field>)

  datatype Field = Field(key: Text, value: Json)

  /** What a value means: no undefined, no infinity, no key order. */
  datatype Value =
    | VNull
    | VBool(b: bool)
    | VNum(digits: Text)
    | VStr(s: Text)
    | VArr(items: seq<Value>)
    | VObj(fields: map<Text, Value>)

  function Meaning(j: Json): Value
    decreases j, 1
  {
    match j
    case Undefined => VNull
    case Null => VNull
    case Bool(b) => VBool(b)
    case Num(digits) => VNum(digits)
    case NotFinite => VNull
    case Str(s) => VStr(s)
    case Arr(items) => VArr(Meanings(items))
    case Obj(fields) => VObj(FieldMeanings(fields))
  }

  function Meanings(items: seq<Json>): (r: seq<Value>)
    ensures |r| == |items|
    decreases items, 0
  {
    if items == [] then [] else [Meaning(items[0])] + Meanings(items[1..])
  }

  function FieldMeanings(fields: seq<Field>): map<Text, Value>
    decreases fields, 0
  {
    if fields == [] then map[]
    else if fields[0].value.Undefined? then FieldMeanings(fields[1..])
    else FieldMeanings(fields[1..])[fields[0].key := Meaning(fields[0].value)]
  }

  /** Number text starts with a digit or a minus sign and has only these characters. */
  predicate IsNumberUnit(u: CodeUnit) {
    48 <= u <= 57 || u == 45 || u == 43 || u == 46 || u == 101
  }

  predicate IsNumber(t: Text) {
    t != [] && (48 <= t[0] <= 57 || t[0] == 45) && forall u :: u in t ==> IsNumberUnit(u)
  }

  predicate DistinctKeys(fields: seq<Field>) {
    forall i, j :: 0 <= i < j < |fields| ==> fields[i].key != fields[j].key
  }

  predicate WellFormed(j: Json)
    decreases j, 1
  {
    match j
    case Num(digits) => IsNumber(digits)
    case Arr(items) => AllWellFormed(items)
    case Obj(fields) => DistinctKeys(fields) && FieldsWellFormed(fields)
    case _ => true
  }

  predicate AllWellFormed(items: seq<Json>)
    decreases items, 0
  {
    items == [] || (WellFormed(items[0]) && AllWellFormed(items[1..]))
  }

  predicate FieldsWellFormed(fields: seq<Field>)
    decreases fields, 0
  {
    fields == [] || (WellFormed(fields[0].value) && FieldsWellFormed(fields[1..]))
  }

  // ---- strings: JSON.stringify, section 7 of RFC 8259 ---------------------------------------------

  predicate IsHigh(u: CodeUnit) { 0xD800 <= u < 0xDC00 }

  predicate IsLow(u: CodeUnit) { 0xDC00 <= u < 0xE000 }

  function HexDigit(n: int): CodeUnit
    requires 0 <= n < 16
  {
    if n < 10 then 48 + n else 87 + n
  }

  function HexValue(u: CodeUnit): int {
    if 48 <= u <= 57 then u - 48 else if 97 <= u <= 102 then u - 87 else 0
  }

  /** The letter of a two-character escape, for the units that have one. */
  function ShortEscape(u: CodeUnit): Option<CodeUnit> {
    if u == QUOTE then Some(QUOTE)
    else if u == BACKSLASH then Some(BACKSLASH)
    else if u == 8 then Some(98)
    else if u == 9 then Some(116)
    else if u == 10 then Some(110)
    else if u == 12 then Some(102)
    else if u == 13 then Some(114)
    else None
  }

  function EscapeUnit(u: CodeUnit): Text {
    if ShortEscape(u).Some? then [BACKSLASH, ShortEscape(u).value]
    else if u < 32 || IsHigh(u) || IsLow(u) then
      [BACKSLASH, LETTER_U, HexDigit(u / 4096), HexDigit(u / 256 % 16), HexDigit(u / 16 % 16), HexDigit(u % 16)]
    else [u]
  }

  /** A surrogate pair is copied; a lone surrogate is escaped. */
  function Escape(s: Text): Text {
    if s == [] then []
    else if |s| >= 2 && IsHigh(s[0]) && IsLow(s[1]) then s[..2] + Escape(s[2..])
    else EscapeUnit(s[0]) + Escape(s[1..])
  }

  function Quote(s: Text): Text {
    [QUOTE] + Escape(s) + [QUOTE]
  }

  function Unshort(u: CodeUnit): CodeUnit {
    if u == 98 then 8 else if u == 116 then 9 else if u == 110 then 10
    else if u == 102 then 12 else if u == 114 then 13 else u
  }

  function FromHex(a: CodeUnit, b: CodeUnit, c: CodeUnit, d: CodeUnit): (u: CodeUnit) {
    HexValue(a) * 4096 + HexValue(b) * 256 + HexValue(c) * 16 + HexValue(d)
  }

  /** Reads string content up to the closing quote: the string and the text after it. */
  function Unescape(t: Text): (r: Option<(Text, Text)>)
    ensures r.Some? ==> |r.value.1| < |t|
  {
    if t == [] then None
    else if t[0] == QUOTE then Some(([], t[1..]))
    else if t[0] == BACKSLASH then
      if |t| >= 6 && t[1] == LETTER_U then Prepend(FromHex(t[2], t[3], t[4], t[5]), Unescape(t[6..]))
      else if |t| >= 2 then Prepend(Unshort(t[1]), Unescape(t[2..]))
      else None
    else Prepend(t[0], Unescape(t[1..]))
  }

  function Prepend(u: CodeUnit, r: Option<(Text, Text)>): Option<(Text, Text)> {
    if r.None? then None else Some(([u] + r.value.0, r.value.1))
  }

  lemma HexRoundTrip(u: CodeUnit)
    ensures FromHex(HexDigit(u / 4096), HexDigit(u / 256 % 16), HexDigit(u / 16 % 16), HexDigit(u % 16)) == u
  {
    var a := u / 16;
    var b := a / 16;
    assert u == a * 16 + u % 16 && a == b * 16 + a % 16 && b == b / 16 * 16 + b % 16;
    assert u / 256 == b && u / 4096 == b / 16;
  }

  lemma UnescapeHex(u: CodeUnit, a: CodeUnit, b: CodeUnit, c: CodeUnit, d: CodeUnit, rest: Text)
    requires FromHex(a, b, c, d) == u
    ensures Unescape([BACKSLASH, LETTER_U, a, b, c, d] + rest) == Prepend(u, Unescape(rest))
  {
    assert ([BACKSLASH, LETTER_U, a, b, c, d] + rest)[6..] == rest;
  }

  lemma UnescapeShort(letter: CodeUnit, rest: Text)
    requires letter != LETTER_U
    ensures Unescape([BACKSLASH, letter] + rest) == Prepend(Unshort(letter), Unescape(rest))
  {
    assert ([BACKSLASH, letter] + rest)[2..] == rest;
  }

  /** One escaped unit is read back and reading goes on after it. */
  lemma UnescapeUnit(u: CodeUnit, rest: Text)
    ensures Unescape(EscapeUnit(u) + rest) == Prepend(u, Unescape(rest))
  {
    if ShortEscape(u).Some? {
      UnescapeShort(ShortEscape(u).value, rest);
    } else if u < 32 || IsHigh(u) || IsLow(u) {
      HexRoundTrip(u);
      UnescapeHex(u, HexDigit(u / 4096), HexDigit(u / 256 % 16), HexDigit(u / 16 % 16), HexDigit(u % 16), rest);
    } else {
      UnescapeRaw(u, rest);
    }
  }

  lemma UnescapeRaw(u: CodeUnit, rest: Text)
    requires u != QUOTE && u != BACKSLASH
    ensures Unescape([u] + rest) == Prepend(u, Unescape(rest))
  {
    assert ([u] + rest)[1..] == rest;
  }

  lemma UnescapePair(high: CodeUnit, low: CodeUnit, rest: Text)
    requires IsHigh(high) && IsLow(low)
    ensures Unescape([high, low] + rest) == Prepend(high, Prepend(low, Unescape(rest)))
  {
    UnescapeRaw(low, rest);
    UnescapeRaw(high, [low] + rest);
    assert [high, low] + rest == [high] + ([low] + rest);
  }

  lemma Reassociate(a: Text, b: Text, c: Text)
    ensures a + b + c == a + (b + c)
  {
  }

  lemma UnescapePairThen(s: Text, end: Text, result: Option<(Text, Text)>)
    requires |s| >= 2 && IsHigh(s[0]) && IsLow(s[1]) && Unescape(Escape(s[2..]) + end) == result
    ensures Unescape(Escape(s) + end) == Prepend(s[0], Prepend(s[1], result))
  {
    UnescapePair(s[0], s[1], Escape(s[2..]) + end);
    Reassociate(s[..2], Escape(s[2..]), end);
    assert s[..2] == [s[0], s[1]];
  }

  lemma UnescapeUnitThen(s: Text, end: Text, result: Option<(Text, Text)>)
    requires s != [] && !(|s| >= 2 && IsHigh(s[0]) && IsLow(s[1])) && Unescape(Escape(s[1..]) + end) == result
    ensures Unescape(Escape(s) + end) == Prepend(s[0], result)
  {
    UnescapeUnit(s[0], Escape(s[1..]) + end);
    Reassociate(EscapeUnit(s[0]), Escape(s[1..]), end);
  }

  /** What quoting writes, reading takes back, and leaves the rest. */
  lemma {:induction false} UnescapeEscape(s: Text, rest: Text)
    ensures Unescape(Escape(s) + ([QUOTE] + rest)) == Some((s, rest))
  {
    var end := [QUOTE] + rest;
    if s == [] {
      assert Escape(s) + end == end;
    } else if |s| >= 2 && IsHigh(s[0]) && IsLow(s[1]) {
      UnescapeEscape(s[2..], rest);
      UnescapePairThen(s, end, Some((s[2..], rest)));
      assert [s[0]] + ([s[1]] + s[2..]) == s;
    } else {
      UnescapeEscape(s[1..], rest);
      UnescapeUnitThen(s, end, Some((s[1..], rest)));
      assert [s[0]] + s[1..] == s;
    }
  }

  // ---- what is written --------------------------------------------------------------------------

  /** ASCII text as code units. */
  function Units(s: string): (t: Text)
    requires forall i :: 0 <= i < |s| ==> s[i] < '\U{80}'
    ensures |t| == |s|
  {
    seq(|s|, i requires 0 <= i < |s| => AsUnit(s[i]))
  }

  function AsUnit(c: char): CodeUnit
    requires c < '\U{80}'
  {
    c as int
  }

  lemma WordsAre()
    ensures NULL == Units("null") && TRUE == Units("true") && FALSE == Units("false")
    ensures [QUOTE, BACKSLASH, COMMA, COLON] == Units("\"\\,:")
    ensures [OPEN_ARRAY, CLOSE_ARRAY, OPEN_OBJECT, CLOSE_OBJECT] == Units("[]{}")
  {
  }

  /** A printed number begins with a digit or a minus sign and has digits, signs, points and exponents. */
  lemma NumberIff(t: Text)
    ensures IsNumber(t) <==> t != [] && t[0] in Units("-0123456789") && forall u :: u in t ==> u in Units("0123456789-+.e")
  {
    forall u: CodeUnit ensures IsNumberUnit(u) <==> u in Units("0123456789-+.e") {
      NumberUnitIff(u);
    }
    if t != [] {
      NumberStartIff(t[0]);
    }
  }

  lemma NumberUnitIff(u: CodeUnit)
    ensures IsNumberUnit(u) <==> u in Units("0123456789-+.e")
  {
    assert Units("0123456789-+.e") == [48, 49, 50, 51, 52, 53, 54, 55, 56, 57, 45, 43, 46, 101];
  }

  lemma NumberStartIff(u: CodeUnit)
    ensures 48 <= u <= 57 || u == 45 <==> u in Units("-0123456789")
  {
    assert Units("-0123456789") == [45, 48, 49, 50, 51, 52, 53, 54, 55, 56, 57];
  }

  /** What the results below ask of a value: numbers as the language prints them, and an object's keys all different. */
  lemma WellFormedIff(j: Json)
    ensures j.Undefined? || j.Null? || j.Bool? || j.NotFinite? || j.Str? ==> WellFormed(j)
    ensures j.Num? ==> (WellFormed(j) <==> IsNumber(j.digits))
    ensures j.Arr? ==> (WellFormed(j) <==> forall i :: 0 <= i < |j.items| ==> WellFormed(j.items[i]))
    ensures j.Obj? ==> (WellFormed(j) <==> DistinctKeys(j.fields) && forall i :: 0 <= i < |j.fields| ==> WellFormed(j.fields[i].value))
  {
    if j.Arr? {
      ItemsWellFormedIff(j.items);
    } else if j.Obj? {
      FieldsWellFormedIff(j.fields);
    }
  }

  lemma {:induction false} ItemsWellFormedIff(items: seq<Json>)
    ensures AllWellFormed(items) <==> forall i :: 0 <= i < |items| ==> WellFormed(items[i])
  {
    if items != [] {
      ItemsWellFormedIff(items[1..]);
      assert forall i :: 0 < i < |items| ==> items[i] == items[1..][i - 1];
    }
  }

  lemma {:induction false} FieldsWellFormedIff(fields: seq<Field>)
    ensures FieldsWellFormed(fields) <==> forall i :: 0 <= i < |fields| ==> WellFormed(fields[i].value)
  {
    if fields != [] {
      FieldsWellFormedIff(fields[1..]);
      assert forall i :: 0 < i < |fields| ==> fields[i] == fields[1..][i - 1];
    }
  }

  lemma HexDigitIs(n: int)
    requires 0 <= n < 16
    ensures HexDigit(n) == Units("0123456789abcdef")[n]
  {
  }

  /** The two-character escapes of JSON.stringify. */
  lemma ShortEscapesAre()
    ensures EscapeUnit(34) == Units("\\\"") && EscapeUnit(92) == Units("\\\\")
    ensures EscapeUnit(8) == Units("\\b") && EscapeUnit(9) == Units("\\t") && EscapeUnit(10) == Units("\\n")
    ensures EscapeUnit(12) == Units("\\f") && EscapeUnit(13) == Units("\\r")
  {
  }

  /** Other control characters and lone surrogates are written in lower-case hexadecimal; all else as it is. */
  lemma OtherUnitsAre(u: CodeUnit)
    requires u !in {34, 92, 8, 9, 10, 12, 13}
    ensures EscapeUnit(u) ==
      if u < 32 || 0xD800 <= u < 0xE000 then
        var hex := Units("0123456789abcdef");
        [92, 117, hex[u / 4096], hex[u / 256 % 16], hex[u / 16 % 16], hex[u % 16]]
      else [u]
  {
    HexDigitIs(u / 4096);
    HexDigitIs(u / 256 % 16);
    HexDigitIs(u / 16 % 16);
    HexDigitIs(u % 16);
  }

  /** A high surrogate followed by a low one is copied as a pair; every other unit is written on its own. */
  lemma EscapeStep(s: Text)
    requires s != []
    ensures Escape(s) ==
      if |s| >= 2 && 0xD800 <= s[0] < 0xDC00 && 0xDC00 <= s[1] < 0xE000 then [s[0], s[1]] + Escape(s[2..])
      else EscapeUnit(s[0]) + Escape(s[1..])
  {
  }

  // ---- the canonical text -----------------------------------------------------------------------

  /** String comparison: by code unit, a proper prefix first. */
  predicate Before(a: Text, b: Text) {
    if b == [] then false
    else if a == [] then true
    else if a[0] != b[0] then a[0] < b[0]
    else Before(a[1..], b[1..])
  }

  /** The first place where they differ decides; without one the shorter comes first. */
  predicate DiffersAt(a: Text, b: Text, i: nat)
    requires i <= |a| && i <= |b|
  {
    a[..i] == b[..i] && i < |b| && (i == |a| || a[i] < b[i])
  }

  lemma {:induction false} BeforeIff(a: Text, b: Text)
    ensures Before(a, b) <==> exists i :: 0 <= i <= |a| && i <= |b| && DiffersAt(a, b, i)
  {
    if a != [] && b != [] && a[0] == b[0] {
      BeforeIff(a[1..], b[1..]);
      forall i | 0 <= i < |a| && i < |b| ensures DiffersAt(a[1..], b[1..], i) <==> DiffersAt(a, b, i + 1) {
        assert a[..i + 1] == [a[0]] + a[1..][..i] && b[..i + 1] == [b[0]] + b[1..][..i];
      }
      if Before(a, b) {
        var i :| 0 <= i <= |a[1..]| && i <= |b[1..]| && DiffersAt(a[1..], b[1..], i);
        assert DiffersAt(a, b, i + 1);
      }
      if i :| 0 <= i <= |a| && i <= |b| && DiffersAt(a, b, i) {
        assert i > 0 && DiffersAt(a[1..], b[1..], i - 1);
      }
    } else {
      assert forall i :: 0 < i <= |a| && i <= |b| ==> a[..i][0] == a[0] && b[..i][0] == b[0];
      assert a[..0] == b[..0];
      assert b != [] && (a == [] || a[0] < b[0]) ==> DiffersAt(a, b, 0);
    }
  }

  /** A printed field. */
  datatype Member = Member(key: Text, text: Text)

  function Insert(m: Member, sorted: seq<Member>): seq<Member> {
    if sorted == [] || !Before(sorted[0].key, m.key) then [m] + sorted
    else [sorted[0]] + Insert(m, sorted[1..])
  }

  function Sort(members: seq<Member>): seq<Member> {
    if members == [] then [] else Insert(members[0], Sort(members[1..]))
  }

  function Join(texts: seq<Text>): Text {
    if texts == [] then []
    else if |texts| == 1 then texts[0]
    else texts[0] + [COMMA] + Join(texts[1..])
  }

  function MemberText(m: Member): Text {
    Quote(m.key) + [COLON] + m.text
  }

  function MemberTexts(members: seq<Member>): seq<Text> {
    seq(|members|, i requires 0 <= i < |members| => MemberText(members[i]))
  }

  function Canonical(j: Json): Text
    decreases j, 1
  {
    match j
    case Undefined => NULL
    case Null => NULL
    case Bool(b) => if b then TRUE else FALSE
    case Num(digits) => digits
    case NotFinite => NULL
    case Str(s) => Quote(s)
    case Arr(items) => [OPEN_ARRAY] + Join(ItemTexts(items)) + [CLOSE_ARRAY]
    case Obj(fields) => [OPEN_OBJECT] + Join(MemberTexts(Sort(Printed(fields)))) + [CLOSE_OBJECT]
  }

  function ItemTexts(items: seq<Json>): (r: seq<Text>)
    ensures |r| == |items|
    decreases items, 0
  {
    if items == [] then [] else [Canonical(items[0])] + ItemTexts(items[1..])
  }

  /** The defined fields, printed. */
  function Printed(fields: seq<Field>): seq<Member>
    decreases fields, 0
  {
    if fields == [] then []
    else if fields[0].value.Undefined? then Printed(fields[1..])
    else [Member(fields[0].key, Canonical(fields[0].value))] + Printed(fields[1..])
  }

  // ---- sorting ----------------------------------------------------------------------------------

  lemma {:induction false} BeforeIsTotal(a: Text, b: Text)
    ensures a == b || Before(a, b) || Before(b, a)
    ensures !(Before(a, b) && Before(b, a)) && !Before(a, a)
  {
    if a != [] && b != [] && a[0] == b[0] {
      BeforeIsTotal(a[1..], b[1..]);
      assert a == [a[0]] + a[1..] && b == [b[0]] + b[1..];
    }
    if a != [] {
      BeforeIsTotal(a[1..], a[1..]);
    }
  }

  lemma {:induction false} BeforeIsTransitive(a: Text, b: Text, c: Text)
    requires Before(a, b) && Before(b, c)
    ensures Before(a, c)
  {
    if a != [] && a[0] == b[0] == c[0] {
      BeforeIsTransitive(a[1..], b[1..], c[1..]);
    }
  }

  ghost predicate Sorted(members: seq<Member>) {
    forall i, j :: 0 <= i < j < |members| ==> Before(members[i].key, members[j].key)
  }

  ghost predicate KeysDiffer(members: seq<Member>) {
    forall i, j :: 0 <= i < j < |members| ==> members[i].key != members[j].key
  }

  lemma {:induction false} InsertSorts(m: Member, sorted: seq<Member>)
    requires Sorted(sorted) && forall x :: x in sorted ==> x.key != m.key
    ensures Sorted(Insert(m, sorted))
    ensures forall x :: x in Insert(m, sorted) <==> x == m || x in sorted
  {
    if sorted != [] {
      BeforeIsTotal(sorted[0].key, m.key);
      if Before(sorted[0].key, m.key) {
        InsertSorts(m, sorted[1..]);
        assert sorted == [sorted[0]] + sorted[1..];
        forall x | x in Insert(m, sorted[1..]) ensures Before(sorted[0].key, x.key) {}
      } else {
        forall x | x in sorted ensures Before(m.key, x.key) {
          if x != sorted[0] {
            BeforeIsTransitive(m.key, sorted[0].key, x.key);
          }
        }
      }
    }
  }

  lemma {:induction false} SortSorts(members: seq<Member>)
    requires KeysDiffer(members)
    ensures Sorted(Sort(members))
    ensures forall x :: x in Sort(members) <==> x in members
  {
    if members != [] {
      SortSorts(members[1..]);
      assert members == [members[0]] + members[1..];
      InsertSorts(members[0], Sort(members[1..]));
    }
  }

  /** A set of members has one sorted order. */
  lemma {:induction false} SortedIsUnique(a: seq<Member>, b: seq<Member>)
    requires Sorted(a) && Sorted(b) && forall x :: x in a <==> x in b
    ensures a == b
  {
    assert (a == [] <==> forall x :: x !in a) && (b == [] <==> forall x :: x !in b) by {
      assert a != [] ==> a[0] in a;
      assert b != [] ==> b[0] in b;
    }
    if a != [] {
      assert a[0] in a && b[0] in b;
      BeforeIsTotal(a[0].key, b[0].key);
      assert a[0] == b[0];
      forall x | x in a[1..] ensures x in b[1..] {
        BeforeIsTotal(a[0].key, a[0].key);
        assert x in a && x != a[0];
      }
      forall x | x in b[1..] ensures x in a[1..] {
        BeforeIsTotal(a[0].key, a[0].key);
        assert x in b && x != b[0];
      }
      SortedIsUnique(a[1..], b[1..]);
    }
  }

  // ---- parsing ----------------------------------------------------------------------------------

  function NumberLength(t: Text): (n: nat)
    ensures n <= |t|
  {
    if t == [] || !IsNumberUnit(t[0]) then 0 else 1 + NumberLength(t[1..])
  }

  /** Reads one JSON value (without white space): the value and the text after it. */
  function ParseValue(t: Text): (r: Option<(Value, Text)>)
    ensures r.Some? ==> |r.value.1| < |t|
    decreases |t|, 0
  {
    if t == [] then None
    else if t[0] == QUOTE then
      var s := Unescape(t[1..]);
      if s.None? then None else Some((VStr(s.value.0), s.value.1))
    else if t[0] == OPEN_ARRAY then
      if |t| >= 2 && t[1] == CLOSE_ARRAY then Some((VArr([]), t[2..]))
      else
        var items := ParseItems(t[1..]);
        if items.None? then None else Some((VArr(items.value.0), items.value.1))
    else if t[0] == OPEN_OBJECT then
      if |t| >= 2 && t[1] == CLOSE_OBJECT then Some((VObj(map[]), t[2..]))
      else
        var fields := ParseMembers(t[1..]);
        if fields.None? then None else Some((VObj(fields.value.0), fields.value.1))
    else if NULL <= t then Some((VNull, t[4..]))
    else if TRUE <= t then Some((VBool(true), t[4..]))
    else if FALSE <= t then Some((VBool(false), t[5..]))
    else
      var n := NumberLength(t);
      if n == 0 then None else Some((VNum(t[..n]), t[n..]))
  }

  /** Items up to and with the closing bracket. */
  function ParseItems(t: Text): (r: Option<(seq<Value>, Text)>)
    ensures r.Some? ==> |r.value.1| < |t|
    decreases |t|, 1
  {
    var first := ParseValue(t);
    if first.None? || first.value.1 == [] then None
    else if first.value.1[0] == CLOSE_ARRAY then Some(([first.value.0], first.value.1[1..]))
    else if first.value.1[0] != COMMA then None
    else
      var more := ParseItems(first.value.1[1..]);
      if more.None? then None else Some(([first.value.0] + more.value.0, more.value.1))
  }

  /** Members up to and with the closing brace; a later field of the same key wins. */
  function ParseMembers(t: Text): (r: Option<(map<Text, Value>, Text)>)
    ensures r.Some? ==> |r.value.1| < |t|
    decreases |t|, 1
  {
    if t == [] || t[0] != QUOTE then None
    else
      var key := Unescape(t[1..]);
      if key.None? || key.value.1 == [] || key.value.1[0] != COLON then None
      else
        var first := ParseValue(key.value.1[1..]);
        if first.None? || first.value.1 == [] then None
        else if first.value.1[0] == CLOSE_OBJECT then Some((map[key.value.0 := first.value.0], first.value.1[1..]))
        else if first.value.1[0] != COMMA then None
        else
          var more := ParseMembers(first.value.1[1..]);
          if more.None? then None else Some((map[key.value.0 := first.value.0] + more.value.0, more.value.1))
  }

  /** What may follow a value: nothing that would lengthen a number. */
  predicate Stops(rest: Text) {
    rest == [] || !IsNumberUnit(rest[0])
  }

  ghost predicate Parses(text: Text, v: Value) {
    forall rest :: Stops(rest) ==> ParseValue(text + rest) == Some((v, rest))
  }

  lemma {:induction false} NumberLengthIs(digits: Text, rest: Text)
    requires (forall u :: u in digits ==> IsNumberUnit(u)) && Stops(rest)
    ensures NumberLength(digits + rest) == |digits|
  {
    if digits == [] {
      assert digits + rest == rest;
    } else {
      assert (digits + rest)[1..] == digits[1..] + rest;
      NumberLengthIs(digits[1..], rest);
    }
  }

  lemma NumberParses(digits: Text)
    requires IsNumber(digits)
    ensures Parses(digits, VNum(digits))
  {
    forall rest | Stops(rest) ensures ParseValue(digits + rest) == Some((VNum(digits), rest)) {
      var t := digits + rest;
      NumberLengthIs(digits, rest);
      assert t[0] == digits[0];
      assert t[..|digits|] == digits && t[|digits|..] == rest;
    }
  }

  lemma StringReads(s: Text, rest: Text)
    ensures ParseValue(Quote(s) + rest) == Some((VStr(s), rest))
  {
    UnescapeEscape(s, rest);
    var tail := Escape(s) + ([QUOTE] + rest);
    Reassociate([QUOTE], Escape(s), [QUOTE]);
    assert Quote(s) + rest == [QUOTE] + tail;
    assert ([QUOTE] + tail)[1..] == tail;
  }

  lemma StringParses(s: Text)
    ensures Parses(Quote(s), VStr(s))
  {
    forall rest | Stops(rest) ensures ParseValue(Quote(s) + rest) == Some((VStr(s), rest)) {
      StringReads(s, rest);
    }
  }

  lemma WordsParse()
    ensures Parses(NULL, VNull) && Parses(TRUE, VBool(true)) && Parses(FALSE, VBool(false))
  {
    forall rest ensures ParseValue(NULL + rest) == Some((VNull, rest)) {
      assert (NULL + rest)[4..] == rest && NULL <= NULL + rest;
    }
    forall rest ensures ParseValue(TRUE + rest) == Some((VBool(true), rest)) {
      assert (TRUE + rest)[4..] == rest && TRUE <= TRUE + rest && (TRUE + rest)[0] == 116;
    }
    forall rest ensures ParseValue(FALSE + rest) == Some((VBool(false), rest)) {
      assert (FALSE + rest)[5..] == rest && FALSE <= FALSE + rest && (FALSE + rest)[0] == 102;
    }
  }

  lemma LastItemParses(text: Text, v: Value, rest: Text)
    requires Parses(text, v)
    ensures ParseItems(text + ([CLOSE_ARRAY] + rest)) == Some(([v], rest))
  {
    var end := [CLOSE_ARRAY] + rest;
    assert ParseValue(text + end) == Some((v, end));
    assert end[1..] == rest;
  }

  lemma FirstItemParses(text: Text, v: Value, more: Text, values: seq<Value>, rest: Text)
    requires Parses(text, v) && ParseItems(more) == Some((values, rest))
    ensures ParseItems(text + ([COMMA] + more)) == Some(([v] + values, rest))
  {
    var after := [COMMA] + more;
    assert ParseValue(text + after) == Some((v, after));
    assert after[1..] == more;
  }

  lemma {:induction false} ItemsParse(texts: seq<Text>, values: seq<Value>, rest: Text)
    requires |texts| == |values| > 0
    requires forall i :: 0 <= i < |texts| ==> Parses(texts[i], values[i])
    ensures ParseItems(Join(texts) + ([CLOSE_ARRAY] + rest)) == Some((values, rest))
  {
    var end := [CLOSE_ARRAY] + rest;
    if |texts| == 1 {
      LastItemParses(texts[0], values[0], rest);
      assert values == [values[0]];
    } else {
      ItemsParse(texts[1..], values[1..], rest);
      FirstItemParses(texts[0], values[0], Join(texts[1..]) + end, values[1..], rest);
      Reassociate(texts[0] + [COMMA], Join(texts[1..]), end);
      Reassociate(texts[0], [COMMA], Join(texts[1..]) + end);
      assert values == [values[0]] + values[1..];
    }
  }

  lemma EmptyArrayParses(rest: Text)
    ensures ParseValue([OPEN_ARRAY, CLOSE_ARRAY] + rest) == Some((VArr([]), rest))
  {
    assert ([OPEN_ARRAY, CLOSE_ARRAY] + rest)[2..] == rest;
  }

  /** Items never begin with the closing bracket, so a non-empty array is not read as an empty one. */
  lemma FullArrayParses(tail: Text, values: seq<Value>, rest: Text)
    requires ParseItems(tail) == Some((values, rest))
    ensures ParseValue([OPEN_ARRAY] + tail) == Some((VArr(values), rest))
  {
    var t := [OPEN_ARRAY] + tail;
    assert t[1..] == tail;
    assert ParseValue(tail).Some?;
    assert tail[0] != CLOSE_ARRAY;
  }

  lemma ArrayParses(texts: seq<Text>, values: seq<Value>)
    requires |texts| == |values|
    requires forall i :: 0 <= i < |texts| ==> Parses(texts[i], values[i])
    ensures Parses([OPEN_ARRAY] + Join(texts) + [CLOSE_ARRAY], VArr(values))
  {
    var text := [OPEN_ARRAY] + Join(texts) + [CLOSE_ARRAY];
    forall rest | Stops(rest) ensures ParseValue(text + rest) == Some((VArr(values), rest)) {
      if texts == [] {
        EmptyArrayParses(rest);
        assert text == [OPEN_ARRAY, CLOSE_ARRAY];
      } else {
        ItemsParse(texts, values, rest);
        var tail := Join(texts) + ([CLOSE_ARRAY] + rest);
        FullArrayParses(tail, values, rest);
        Wrapped(OPEN_ARRAY, Join(texts), CLOSE_ARRAY, rest);
      }
    }
  }

  function KeySet(members: seq<Member>): set<Text> {
    set m | m in members :: m.key
  }

  function Restrict(m: map<Text, Value>, keys: set<Text>): map<Text, Value> {
    map k | k in keys && k in m :: m[k]
  }

  lemma MemberShape(m: Member, after: Text)
    ensures MemberText(m) + after == [QUOTE] + (Escape(m.key) + ([QUOTE] + ([COLON] + (m.text + after))))
  {
    Reassociate([QUOTE], Escape(m.key), [QUOTE]);
    Reassociate(Quote(m.key), [COLON], m.text);
  }

  lemma MemberReads(m: Member, v: Value, after: Text)
    requires Parses(m.text, v) && Stops(after)
    ensures var t := MemberText(m) + after;
      && t[0] == QUOTE && Unescape(t[1..]) == Some((m.key, [COLON] + (m.text + after)))
      && ([COLON] + (m.text + after))[1..] == m.text + after
      && ParseValue(m.text + after) == Some((v, after))
  {
    MemberShape(m, after);
    UnescapeEscape(m.key, [COLON] + (m.text + after));
    var tail := Escape(m.key) + ([QUOTE] + ([COLON] + (m.text + after)));
    assert ([QUOTE] + tail)[1..] == tail;
  }

  lemma LastMemberParses(m: Member, v: Value, rest: Text)
    requires Parses(m.text, v)
    ensures ParseMembers(MemberText(m) + ([CLOSE_OBJECT] + rest)) == Some((map[m.key := v], rest))
  {
    var end := [CLOSE_OBJECT] + rest;
    MemberReads(m, v, end);
    assert end[1..] == rest;
  }

  lemma FirstMemberParses(m: Member, v: Value, more: Text, fields: map<Text, Value>, rest: Text)
    requires Parses(m.text, v) && ParseMembers(more) == Some((fields, rest))
    ensures ParseMembers(MemberText(m) + ([COMMA] + more)) == Some((map[m.key := v] + fields, rest))
  {
    var after := [COMMA] + more;
    MemberReads(m, v, after);
    assert after[1..] == more;
  }

  lemma JoinMembers(members: seq<Member>, end: Text)
    requires |members| > 1
    ensures Join(MemberTexts(members)) + end ==
      MemberText(members[0]) + ([COMMA] + (Join(MemberTexts(members[1..])) + end))
  {
    assert MemberTexts(members)[1..] == MemberTexts(members[1..]);
    Reassociate(MemberText(members[0]) + [COMMA], Join(MemberTexts(members[1..])), end);
    Reassociate(MemberText(members[0]), [COMMA], Join(MemberTexts(members[1..])) + end);
  }

  lemma RestrictMembers(members: seq<Member>, m: map<Text, Value>)
    requires members != [] && members[0].key in m
    ensures Restrict(m, KeySet(members)) ==
      map[members[0].key := m[members[0].key]] + Restrict(m, KeySet(members[1..]))
  {
    assert KeySet(members) == {members[0].key} + KeySet(members[1..]) by {
      assert members == [members[0]] + members[1..];
    }
  }

  lemma {:induction false} MembersParse(members: seq<Member>, m: map<Text, Value>, rest: Text)
    requires members != []
    requires forall x :: x in members ==> x.key in m && Parses(x.text, m[x.key])
    ensures ParseMembers(Join(MemberTexts(members)) + ([CLOSE_OBJECT] + rest)) ==
      Some((Restrict(m, KeySet(members)), rest))
  {
    var x, end := members[0], [CLOSE_OBJECT] + rest;
    RestrictMembers(members, m);
    if |members| == 1 {
      LastMemberParses(x, m[x.key], rest);
      assert Join(MemberTexts(members)) == MemberText(x);
      assert Restrict(m, KeySet(members)) == map[x.key := m[x.key]];
    } else {
      MembersParse(members[1..], m, rest);
      JoinMembers(members, end);
      FirstMemberParses(x, m[x.key], Join(MemberTexts(members[1..])) + end, Restrict(m, KeySet(members[1..])), rest);
    }
  }

  lemma EmptyObjectParses(rest: Text)
    ensures ParseValue([OPEN_OBJECT, CLOSE_OBJECT] + rest) == Some((VObj(map[]), rest))
  {
    assert ([OPEN_OBJECT, CLOSE_OBJECT] + rest)[2..] == rest;
  }

  lemma FullObjectParses(tail: Text, fields: map<Text, Value>, rest: Text)
    requires ParseMembers(tail) == Some((fields, rest))
    ensures ParseValue([OPEN_OBJECT] + tail) == Some((VObj(fields), rest))
  {
    assert ([OPEN_OBJECT] + tail)[1..] == tail;
    assert tail[0] == QUOTE;
  }

  lemma ObjectParses(members: seq<Member>, m: map<Text, Value>)
    requires KeySet(members) == m.Keys
    requires forall x :: x in members ==> x.key in m && Parses(x.text, m[x.key])
    ensures Parses([OPEN_OBJECT] + Join(MemberTexts(members)) + [CLOSE_OBJECT], VObj(m))
  {
    var body := Join(MemberTexts(members));
    forall rest | Stops(rest)
      ensures ParseValue([OPEN_OBJECT] + body + [CLOSE_OBJECT] + rest) == Some((VObj(m), rest))
    {
      if members == [] {
        EmptyObjectParses(rest);
        assert [OPEN_OBJECT] + body + [CLOSE_OBJECT] == [OPEN_OBJECT, CLOSE_OBJECT] && m == map[];
      } else {
        MembersParse(members, m, rest);
        assert Restrict(m, KeySet(members)) == m;
        FullObjectParses(body + ([CLOSE_OBJECT] + rest), m, rest);
        Wrapped(OPEN_OBJECT, body, CLOSE_OBJECT, rest);
      }
    }
  }

  lemma Wrapped(open: CodeUnit, body: Text, close: CodeUnit, rest: Text)
    ensures [open] + body + [close] + rest == [open] + (body + ([close] + rest))
  {
  }

  /** The printed members of an object and the fields it means have the same keys, all different. */
  lemma {:induction false} PrintedKeys(fields: seq<Field>)
    requires DistinctKeys(fields)
    ensures KeysDiffer(Printed(fields)) && KeySet(Printed(fields)) == FieldMeanings(fields).Keys
    ensures forall k :: k in FieldMeanings(fields) ==> exists i :: 0 <= i < |fields| && fields[i].key == k
  {
    if fields != [] {
      var f, rest := fields[0], fields[1..];
      PrintedKeys(rest);
      forall k | k in FieldMeanings(rest) ensures exists i :: 1 <= i < |fields| && fields[i].key == k {
        var i :| 0 <= i < |rest| && rest[i].key == k;
        assert fields[i + 1].key == k;
      }
      if !f.value.Undefined? {
        var m := Member(f.key, Canonical(f.value));
        assert KeySet([m] + Printed(rest)) == {f.key} + KeySet(Printed(rest));
        forall x | x in Printed(rest) ensures x.key != f.key {
          assert x.key in KeySet(Printed(rest));
        }
      }
    }
  }

  // ---- the two theorems -------------------------------------------------------------------------

  /** The canonical text is JSON that parses back to what the value means. */
  lemma {:induction false} CanonicalParses(j: Json)
    requires WellFormed(j)
    ensures Parses(Canonical(j), Meaning(j))
    decreases j, 1
  {
    match j
    case Num(digits) => NumberParses(digits);
    case Str(s) => StringParses(s);
    case Arr(items) =>
      ItemsCanonicalParse(items);
      ArrayParses(ItemTexts(items), Meanings(items));
    case Obj(fields) =>
      FieldsCanonicalParse(fields);
      PrintedKeys(fields);
      SortSorts(Printed(fields));
      assert KeySet(Sort(Printed(fields))) == KeySet(Printed(fields));
      ObjectParses(Sort(Printed(fields)), FieldMeanings(fields));
    case _ => WordsParse();
  }

  lemma {:induction false} ItemsCanonicalParse(items: seq<Json>)
    requires AllWellFormed(items)
    ensures forall i :: 0 <= i < |items| ==> Parses(ItemTexts(items)[i], Meanings(items)[i])
    decreases items, 0
  {
    if items != [] {
      CanonicalParses(items[0]);
      ItemsCanonicalParse(items[1..]);
    }
  }

  lemma {:induction false} FieldsCanonicalParse(fields: seq<Field>)
    requires DistinctKeys(fields) && FieldsWellFormed(fields)
    ensures forall x :: x in Printed(fields) ==>
      x.key in FieldMeanings(fields) && Parses(x.text, FieldMeanings(fields)[x.key])
    decreases fields, 0
  {
    if fields != [] {
      CanonicalParses(fields[0].value);
      FieldsCanonicalParse(fields[1..]);
      PrintedKeys(fields[1..]);
    }
  }

  /** A defined field of an object is printed as its key and the canonical text of its value. */
  lemma {:induction false} PrintedField(fields: seq<Field>, key: Text) returns (i: nat)
    requires DistinctKeys(fields) && key in FieldMeanings(fields)
    ensures i < |fields| && fields[i].key == key && Meaning(fields[i].value) == FieldMeanings(fields)[key]
    ensures forall x :: x in Printed(fields) && x.key == key <==> x == Member(key, Canonical(fields[i].value))
    decreases fields
  {
    PrintedKeys(fields[1..]);
    if !fields[0].value.Undefined? && fields[0].key == key {
      i := 0;
      forall x | x in Printed(fields[1..]) ensures x.key != key {
        assert x.key in KeySet(Printed(fields[1..]));
      }
    } else {
      var k := PrintedField(fields[1..], key);
      i := k + 1;
    }
  }

  lemma {:induction false} SameMeaningSameText(a: Json, b: Json)
    requires WellFormed(a) && WellFormed(b) && Meaning(a) == Meaning(b)
    ensures Canonical(a) == Canonical(b)
    decreases a, 1
  {
    match (a, b)
    case (Arr(xs), Arr(ys)) => SameItemsSameText(xs, ys);
    case (Obj(fs), Obj(gs)) =>
      SameFieldsSameMembers(fs, gs, |fs|);
      PrintedKeys(fs);
      PrintedKeys(gs);
      SortSorts(Printed(fs));
      SortSorts(Printed(gs));
      SortedIsUnique(Sort(Printed(fs)), Sort(Printed(gs)));
    case _ =>
  }

  lemma {:induction false} SameItemsSameText(xs: seq<Json>, ys: seq<Json>)
    requires AllWellFormed(xs) && AllWellFormed(ys) && Meanings(xs) == Meanings(ys)
    ensures ItemTexts(xs) == ItemTexts(ys)
    decreases xs, 0
  {
    if xs != [] {
      assert Meanings(xs)[0] == Meanings(ys)[0] && Meanings(xs)[1..] == Meanings(ys)[1..];
      SameMeaningSameText(xs[0], ys[0]);
      SameItemsSameText(xs[1..], ys[1..]);
    }
  }

  lemma FieldIsWellFormed(fields: seq<Field>, i: nat)
    requires FieldsWellFormed(fields) && i < |fields|
    ensures WellFormed(fields[i].value)
  {
    if i > 0 {
      FieldIsWellFormed(fields[1..], i - 1);
    }
  }

  lemma {:induction false} SameFieldsSameMembers(fs: seq<Field>, gs: seq<Field>, n: nat)
    requires DistinctKeys(fs) && FieldsWellFormed(fs) && DistinctKeys(gs) && FieldsWellFormed(gs)
    requires FieldMeanings(fs) == FieldMeanings(gs) && n == |fs|
    ensures forall x :: x in Printed(fs) <==> x in Printed(gs)
    decreases fs, 0
  {
    PrintedKeys(fs);
    PrintedKeys(gs);
    forall x: Member ensures x in Printed(fs) <==> x in Printed(gs) {
      if x.key in FieldMeanings(fs) {
        var i := PrintedField(fs, x.key);
        var j := PrintedField(gs, x.key);
        FieldIsWellFormed(fs, i);
        FieldIsWellFormed(gs, j);
        SameMeaningSameText(fs[i].value, gs[j].value);
      } else {
        assert x.key !in KeySet(Printed(fs)) && x.key !in KeySet(Printed(gs));
      }
    }
  }

  /** Main result: two values have the same canonical text exactly when they mean the same. */
  lemma CanonicalIffSameMeaning(a: Json, b: Json)
    requires WellFormed(a) && WellFormed(b)
    ensures Canonical(a) == Canonical(b) <==> Meaning(a) == Meaning(b)
  {
    CanonicalParses(a);
    CanonicalParses(b);
    assert ParseValue(Canonical(a) + []) == Some((Meaning(a), []));
    assert ParseValue(Canonical(b) + []) == Some((Meaning(b), []));
    if Meaning(a) == Meaning(b) {
      SameMeaningSameText(a, b);
    }
  }
}

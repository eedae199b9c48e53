/**
 Document number patterns: literal characters and placeholders such as {BRANCH} or {SEQ:6}. A pattern is
 read once, by leftmost matches of the placeholder expression; checking, scopes and numbers all speak of
 that reading.
 */
module Numbering {
  import opened Options
  import opened Digits
  import opened Chars

  /** A match of {NAME} or {NAME:digits}. */
  datatype Token = Token(name: string, width: Option<string>)
  datatype Piece = Lit(c: char) | Tok(t: Token)

  const BRANCH: Piece := Tok(Token("BRANCH", None))

  datatype Problem = BadSequenceWidth | UnknownPlaceholder(whole: string) | NeedsOneSequence | BadLiteral

  /** The branch code is only there for numbers that have a branch. */
  datatype Context = Context(year: nat, month: nat, fiscalYear: nat, branchCode: Option<string>)
  datatype FillError = NeedsBranch

  const FIELDS: set<string> := {"YYYY", "YY", "MM", "FY", "BRANCH"}

  predicate IsUpper(c: char) { 'A' <= c <= 'Z' }

  predicate IsLiteral(c: char) {
    IsUpper(c) || 'a' <= c <= 'z' || IsDigit(c) || c == '-' || c == '/' || c == '_' || c == '.'
  }

  lemma LiteralIff(c: char)
    ensures IsUpper(c) <==> c in CAPITALS
    ensures IsLiteral(c) <==> c in CAPITALS + SMALL + DIGITS + "-/_."
  {
    CapitalsAre(c);
    SmallAre(c);
    DigitsAre(c);
    InJoin(c, CAPITALS, SMALL, DIGITS, "-/_.");
  }

  // ---- reading a pattern ------------------------------------------------------------------------

  /** What follows the name. */
  function WidthText(width: Option<string>): string {
    if width.Some? then ":" + width.value + "}" else "}"
  }

  function Text(t: Token): string {
    "{" + t.name + WidthText(t.width)
  }

  predicate IsToken(t: Token) {
    && t.name != [] && (forall c :: c in t.name ==> IsUpper(c))
    && (t.width.Some? ==> t.width.value != [] && AllDigits(t.width.value))
  }

  /** The end of a placeholder at the front of s: with a width, or with none. */
  function MatchWidth(s: string): (r: Option<Option<string>>)
    ensures r.Some? ==> WidthText(r.value) <= s
    ensures r.Some? && r.value.Some? ==> r.value.value != [] && AllDigits(r.value.value)
  {
    if s == [] then None
    else if s[0] == '}' then Some(None)
    else if s[0] != ':' then None
    else
      var d := Span(s[1..], IsDigit);
      if d == 0 || d + 1 == |s| || s[d + 1] != '}' then None
      else
        assert s[..d + 2] == [s[0]] + s[1..d + 1] + [s[d + 1]];
        Some(Some(s[1..d + 1]))
  }

  /** The placeholder expression, matched at the front of s. */
  function MatchAt(s: string): (r: Option<Token>)
    ensures r.Some? ==> IsToken(r.value) && Text(r.value) <= s
  {
    if s == [] || s[0] != '{' then None
    else
      var n := Span(s[1..], IsUpper);
      var width := MatchWidth(s[n + 1..]);
      if n == 0 || width.None? then None
      else
        assert "{" + s[1..n + 1] == s[..n + 1];
        PrefixThen(s, n + 1, WidthText(width.value));
        Some(Token(s[1..n + 1], width.value))
  }

  lemma PrefixThen(s: string, n: nat, end: string)
    requires n <= |s| && end <= s[n..]
    ensures s[..n] + end <= s
  {
  }

  lemma Prepended(c: char, name: string, tail: string)
    ensures var s := [c] + name + tail;
      s[0] == c && s[1..] == name + tail && s[1..|name| + 1] == name && s[|name| + 1..] == tail
  {
  }

  lemma WidthMatches(width: Option<string>, rest: string)
    requires width.Some? ==> width.value != [] && AllDigits(width.value)
    ensures MatchWidth(WidthText(width) + rest) == Some(width)
  {
    if width.Some? {
      var w, end := width.value, "}" + rest;
      assert WidthText(width) + rest == ":" + w + end;
      Prepended(':', w, end);
      SpanIs(w, end, IsDigit);
      assert (":" + w + end)[|w| + 1] == end[0];
    }
  }

  lemma TextMatches(t: Token, rest: string)
    requires IsToken(t)
    ensures MatchAt(Text(t) + rest) == Some(t)
  {
    var tail := WidthText(t.width) + rest;
    assert Text(t) + rest == "{" + t.name + tail;
    Prepended('{', t.name, tail);
    SpanIs(t.name, tail, IsUpper);
    WidthMatches(t.width, rest);
  }

  /** matchAll: the pattern's placeholders and the characters between them. */
  function Tokens(s: string): seq<Piece> {
    if s == [] then []
    else if MatchAt(s).Some? then [Tok(MatchAt(s).value)] + Tokens(s[|Text(MatchAt(s).value)|..])
    else [Lit(s[0])] + Tokens(s[1..])
  }

  function PieceText(p: Piece): string {
    if p.Lit? then [p.c] else Text(p.t)
  }

  function Print(pieces: seq<Piece>): string {
    if pieces == [] then [] else PieceText(pieces[0]) + Print(pieces[1..])
  }

  function FirstPiece(s: string): (p: Piece)
    requires s != []
    ensures PieceText(p) <= s && PieceText(p) != []
  {
    if MatchAt(s).Some? then Tok(MatchAt(s).value) else Lit(s[0])
  }

  lemma TokensStep(s: string)
    requires s != []
    ensures Tokens(s) == [FirstPiece(s)] + Tokens(s[|PieceText(FirstPiece(s))|..])
  {
  }

  lemma PrintStep(p: Piece, rest: seq<Piece>)
    ensures Print([p] + rest) == PieceText(p) + Print(rest)
  {
    assert ([p] + rest)[1..] == rest;
  }

  lemma {:induction false} PrintTokens(s: string)
    ensures Print(Tokens(s)) == s
  {
    if s != [] {
      var p := FirstPiece(s);
      var rest := s[|PieceText(p)|..];
      TokensStep(s);
      PrintTokens(rest);
      PrintStep(p, Tokens(rest));
      assert s == PieceText(p) + rest;
    }
  }

  ghost predicate RealTokens(pieces: seq<Piece>) {
    forall p :: p in pieces && p.Tok? ==> IsToken(p.t)
  }

  lemma {:induction false} TokensAreReal(s: string)
    ensures RealTokens(Tokens(s))
  {
    if s != [] {
      TokensAreReal(s[if MatchAt(s).Some? then |Text(MatchAt(s).value)| else 1..]);
    }
  }

  /** Pieces a pattern may be made of. */
  predicate Unambiguous(pieces: seq<Piece>) {
    forall p :: p in pieces ==> if p.Lit? then IsLiteral(p.c) else IsToken(p.t)
  }

  /** Pieces whose literals are no braces are what is read from their text: there is no other reading. */
  lemma {:induction false} TokensPrint(pieces: seq<Piece>)
    requires Unambiguous(pieces)
    ensures Tokens(Print(pieces)) == pieces
  {
    if pieces != [] {
      var p, rest := pieces[0], pieces[1..];
      TokensPrint(rest);
      var s := Print(pieces);
      assert s[|PieceText(p)|..] == Print(rest);
      if p.Tok? {
        TextMatches(p.t, Print(rest));
      }
      assert pieces == [p] + rest;
    }
  }

  // ---- checking a pattern -----------------------------------------------------------------------

  function TokenProblem(t: Token): Option<Problem> {
    if t.name == "SEQ" then
      if t.width.None? || Value(t.width.value) < 1 || Value(t.width.value) > 12 then Some(BadSequenceWidth) else None
    else if t.name !in FIELDS || t.width.Some? then Some(UnknownPlaceholder(Text(t)))
    else None
  }

  function Matches(pieces: seq<Piece>): seq<Token> {
    if pieces == [] then []
    else if pieces[0].Tok? then [pieces[0].t] + Matches(pieces[1..])
    else Matches(pieces[1..])
  }

  function Literals(pieces: seq<Piece>): string {
    if pieces == [] then []
    else if pieces[0].Lit? then [pieces[0].c] + Literals(pieces[1..])
    else Literals(pieces[1..])
  }

  function FirstProblem(tokens: seq<Token>): Option<Problem> {
    if tokens == [] then None
    else if TokenProblem(tokens[0]).Some? then TokenProblem(tokens[0])
    else FirstProblem(tokens[1..])
  }

  function Sequences(tokens: seq<Token>): nat {
    if tokens == [] then 0 else (if tokens[0].name == "SEQ" then 1 else 0) + Sequences(tokens[1..])
  }

  predicate AllLiteral(s: string) {
    forall c :: c in s ==> IsLiteral(c)
  }

  /** What is wrong with a pattern: its first bad placeholder, then the count, then the literals. */
  function ProblemOf(pieces: seq<Piece>): Option<Problem> {
    if FirstProblem(Matches(pieces)).Some? then FirstProblem(Matches(pieces))
    else if Sequences(Matches(pieces)) != 1 then Some(NeedsOneSequence)
    else if !AllLiteral(Literals(pieces)) then Some(BadLiteral)
    else None
  }

  /** replace with a string: the first occurrence goes. */
  function RemoveFirst(s: string, w: string): string {
    if w <= s then s[|w|..]
    else if s == [] then s
    else [s[0]] + RemoveFirst(s[1..], w)
  }

  /** A placeholder has an opening brace at its front only. */
  lemma BraceAtFront(t: Token, i: nat)
    requires IsToken(t) && 0 < i < |Text(t)|
    ensures Text(t)[i] != '{'
  {
    if i <= |t.name| {
      assert Text(t)[i] == t.name[i - 1] && t.name[i - 1] in t.name;
    } else {
      AfterName(t, i);
    }
  }

  lemma AfterName(t: Token, i: nat)
    requires IsToken(t) && |t.name| < i < |Text(t)|
    ensures Text(t)[i] == ':' || Text(t)[i] == '}' || IsDigit(Text(t)[i])
  {
    var n := |t.name|;
    var tail := WidthText(t.width);
    assert Text(t)[i] == tail[i - n - 1];
    if t.width.Some? && n + 1 < i < |Text(t)| - 1 {
      assert tail[i - n - 1] == t.width.value[i - n - 2];
    }
  }

  lemma NoOverlap(prefix: string, t: Token, after: string)
    requires IsToken(t) && prefix != [] && Text(t) <= prefix + Text(t) + after
    ensures |Text(t)| <= |prefix|
  {
    var rest := prefix + Text(t) + after;
    assert rest[|prefix|] == '{';
    if |prefix| < |Text(t)| {
      BraceAtFront(t, |prefix|);
      assert false;
    }
  }

  lemma RemovedEarly(prefix: string, w: string, after: string)
    requires |w| <= |prefix| && w <= prefix + w + after
    ensures (prefix + w + after)[|w|..] == prefix[|w|..] + w + after
    ensures multiset(prefix[|w|..] + w) == multiset(prefix)
  {
    assert prefix[..|w|] == (prefix + w + after)[..|w|];
    assert prefix == w + prefix[|w|..];
  }

  lemma RemovedLater(c: char, prefix: string, w: string, after: string)
    requires !(w <= [c] + prefix + w + after)
    ensures RemoveFirst([c] + prefix + w + after, w) == [c] + RemoveFirst(prefix + w + after, w)
  {
    assert ([c] + prefix + w + after)[1..] == prefix + w + after;
  }

  /**
   The occurrence that goes may be an earlier one, made by what was removed before; what is left is the
   same text after the placeholder, and the same characters before it.
   */
  lemma {:induction false} RemoveFirstKeeps(prefix: string, t: Token, after: string) returns (now: string)
    requires IsToken(t)
    ensures RemoveFirst(prefix + Text(t) + after, Text(t)) == now + after && multiset(now) == multiset(prefix)
    decreases |prefix|
  {
    var w := Text(t);
    if prefix == [] {
      now := [];
      assert prefix + w + after == w + after && (w + after)[|w|..] == after;
    } else if w <= prefix + w + after {
      NoOverlap(prefix, t, after);
      RemovedEarly(prefix, w, after);
      now := prefix[|w|..] + w;
    } else {
      var more := RemoveFirstKeeps(prefix[1..], t, after);
      now := [prefix[0]] + more;
      assert prefix == [prefix[0]] + prefix[1..];
      RemovedLater(prefix[0], prefix[1..], w, after);
      assert [prefix[0]] + (more + after) == now + after;
    }
  }

  lemma OneMore(c: char, a: string, b: string)
    ensures [c] + (a + b) == [c] + a + b
  {
  }

  /** Up to and with the first placeholder. */
  lemma {:induction false} FirstToken(pieces: seq<Piece>) returns (lits: string, left: seq<Piece>)
    requires Matches(pieces) != [] && RealTokens(pieces)
    ensures IsToken(Matches(pieces)[0]) && RealTokens(left)
    ensures Print(pieces) == lits + (Text(Matches(pieces)[0]) + Print(left))
    ensures Matches(left) == Matches(pieces)[1..] && Literals(pieces) == lits + Literals(left)
  {
    if pieces[0].Tok? {
      lits, left := [], pieces[1..];
    } else {
      var more;
      more, left := FirstToken(pieces[1..]);
      lits := [pieces[0].c] + more;
      OneMore(pieces[0].c, more, Text(Matches(pieces[1..])[0]) + Print(left));
      OneMore(pieces[0].c, more, Literals(left));
    }
  }

  lemma {:induction false} OnlyLiterals(pieces: seq<Piece>)
    requires Matches(pieces) == []
    ensures Print(pieces) == Literals(pieces)
  {
    if pieces != [] {
      OnlyLiterals(pieces[1..]);
    }
  }

  /** What is left of the pattern: characters of the literals passed, and everything not passed yet. */
  ghost predicate Left(rest: string, prefix: string, left: seq<Piece>, tokens: seq<Token>, literals: string) {
    && rest == prefix + Print(left) && Matches(left) == tokens && RealTokens(left)
    && multiset(prefix + Literals(left)) == multiset(literals)
  }

  lemma RemoveNext(rest: string, prefix: string, left: seq<Piece>, tokens: seq<Token>, literals: string)
    returns (now: string, after: seq<Piece>)
    requires tokens != [] && Left(rest, prefix, left, tokens, literals)
    ensures Left(RemoveFirst(rest, Text(tokens[0])), now, after, tokens[1..], literals)
  {
    var lits, next := FirstToken(left);
    after := next;
    Regroup(prefix, lits, Text(tokens[0]), Print(next));
    now := RemoveFirstKeeps(prefix + lits, tokens[0], Print(next));
    SameMultiset(prefix, lits, Literals(next), now);
  }

  lemma Regroup(a: string, b: string, c: string, d: string)
    ensures a + (b + (c + d)) == a + b + c + d
  {
  }

  lemma SameMultiset(prefix: string, lits: string, next: string, now: string)
    requires multiset(now) == multiset(prefix + lits)
    ensures multiset(now + next) == multiset(prefix + (lits + next))
  {
    assert prefix + (lits + next) == prefix + lits + next;
  }

  lemma SameCharacters(rest: string, literals: string)
    requires multiset(rest) == multiset(literals)
    ensures AllLiteral(rest) <==> AllLiteral(literals)
  {
    forall c ensures c in rest <==> c in literals {
      assert c in multiset(rest) <==> c in multiset(literals);
    }
  }

  method CheckNumberPattern(pattern: string) returns (problem: Option<Problem>)
    ensures problem == ProblemOf(Tokens(pattern))
  {
    ghost var literals := Literals(Tokens(pattern));
    var matches := Matches(Tokens(pattern));
    var seqCount, rest := 0, pattern;
    ghost var prefix, left := "", Tokens(pattern);
    PrintTokens(pattern);
    TokensAreReal(pattern);
    for i := 0 to |matches|
      invariant Left(rest, prefix, left, matches[i..], literals)
      invariant FirstProblem(matches) == FirstProblem(matches[i..])
      invariant Sequences(matches) == seqCount + Sequences(matches[i..])
    {
      var token := matches[i];
      if token.name == "SEQ" {
        seqCount := seqCount + 1;
        if token.width.None? || Value(token.width.value) < 1 || Value(token.width.value) > 12 {
          return Some(BadSequenceWidth);
        }
      } else if token.name !in FIELDS || token.width.Some? {
        return Some(UnknownPlaceholder(Text(token)));
      }
      ghost var now, after := RemoveNext(rest, prefix, left, matches[i..], literals);
      rest := RemoveFirst(rest, Text(token));
      prefix, left := now, after;
    }
    if seqCount != 1 {
      return Some(NeedsOneSequence);
    }
    OnlyLiterals(left);
    SameCharacters(rest, literals);
    if !AllLiteral(rest) {
      return Some(BadLiteral);
    }
    return None;
  }

  /** The first bad placeholder is reported, if there is one. */
  lemma {:induction false} FirstProblemIs(tokens: seq<Token>)
    ensures var problem := FirstProblem(tokens);
      if problem.None? then forall k :: 0 <= k < |tokens| ==> TokenProblem(tokens[k]).None?
      else exists k :: 0 <= k < |tokens| && problem == TokenProblem(tokens[k]) && forall j :: 0 <= j < k ==> TokenProblem(tokens[j]).None?
  {
    if tokens != [] && TokenProblem(tokens[0]).None? {
      FirstProblemIs(tokens[1..]);
      if FirstProblem(tokens[1..]).Some? {
        var k :| 0 <= k < |tokens[1..]| && FirstProblem(tokens) == TokenProblem(tokens[1..][k])
          && forall j :: 0 <= j < k ==> TokenProblem(tokens[1..][j]).None?;
        assert FirstProblem(tokens) == TokenProblem(tokens[k + 1]);
        assert forall j :: 0 < j < k + 1 ==> tokens[j] == tokens[1..][j - 1];
      }
    }
  }

  /** A placeholder is good if it is {SEQ:n} with n from 1 to 12 or one of the five fields; others are named as they stand. */
  lemma TokenProblemIs(t: Token)
    ensures TokenProblem(t) ==
      if t.name == "SEQ" then (if t.width.Some? && 1 <= Value(t.width.value) <= 12 then None else Some(BadSequenceWidth))
      else if t.width.None? && t.name in {"YYYY", "YY", "MM", "FY", "BRANCH"} then None
      else Some(UnknownPlaceholder("{" + t.name + if t.width.Some? then ":" + t.width.value + "}" else "}"))
  {
  }

  predicate OnlySequenceAt(tokens: seq<Token>, k: nat) {
    k < |tokens| && tokens[k].name == "SEQ" && forall j :: 0 <= j < |tokens| && j != k ==> tokens[j].name != "SEQ"
  }

  lemma {:induction false} NoSequences(tokens: seq<Token>)
    ensures Sequences(tokens) == 0 <==> forall j :: 0 <= j < |tokens| ==> tokens[j].name != "SEQ"
  {
    if tokens != [] {
      NoSequences(tokens[1..]);
      assert forall j :: 0 < j < |tokens| ==> tokens[j] == tokens[1..][j - 1];
    }
  }

  lemma {:induction false} OneSequenceIff(tokens: seq<Token>)
    ensures Sequences(tokens) == 1 <==> exists k: nat :: OnlySequenceAt(tokens, k)
  {
    if tokens != [] {
      OneSequenceIff(tokens[1..]);
      NoSequences(tokens[1..]);
      assert forall j :: 0 < j < |tokens| ==> tokens[j] == tokens[1..][j - 1];
      if k: nat :| OnlySequenceAt(tokens[1..], k) && tokens[0].name != "SEQ" {
        assert tokens[k + 1] == tokens[1..][k];
        assert OnlySequenceAt(tokens, k + 1);
      }
      if k: nat :| OnlySequenceAt(tokens, k) {
        assert k > 0 ==> OnlySequenceAt(tokens[1..], k - 1);
      }
      if tokens[0].name == "SEQ" && Sequences(tokens[1..]) == 0 {
        assert OnlySequenceAt(tokens, 0);
      }
    }
  }

  /** In this order: a bad placeholder, not exactly one sequence, a character that is not allowed. */
  lemma ProblemIs(pieces: seq<Piece>)
    ensures var tokens, problem := Matches(pieces), ProblemOf(pieces);
      if exists k :: 0 <= k < |tokens| && TokenProblem(tokens[k]).Some? then problem == FirstProblem(tokens) && problem.Some?
      else if !exists k: nat :: OnlySequenceAt(tokens, k) then problem == Some(NeedsOneSequence)
      else if exists c :: c in Literals(pieces) && c !in CAPITALS + SMALL + DIGITS + "-/_." then problem == Some(BadLiteral)
      else problem == None
  {
    FirstProblemIs(Matches(pieces));
    OneSequenceIff(Matches(pieces));
    forall c ensures IsLiteral(c) <==> c in CAPITALS + SMALL + DIGITS + "-/_." {
      LiteralIff(c);
    }
  }

  // ---- what an accepted pattern is --------------------------------------------------------------

  predicate IsField(p: Piece) {
    if p.Lit? then IsLiteral(p.c) else p.t.width.None? && p.t.name in FIELDS
  }

  predicate AllFields(pieces: seq<Piece>) {
    forall p :: p in pieces ==> IsField(p)
  }

  function Sequence(width: string): Piece {
    Tok(Token("SEQ", Some(width)))
  }

  predicate IsWidth(width: string) {
    width != [] && AllDigits(width) && 1 <= Value(width) <= 12
  }

  /** The pattern is fields and literals, one {SEQ:n} with n from 1 to 12, fields and literals. */
  ghost predicate Shaped(pattern: string, pre: seq<Piece>, width: string, suf: seq<Piece>) {
    Print(pre + [Sequence(width)] + suf) == pattern && AllFields(pre) && AllFields(suf) && IsWidth(width)
  }

  lemma {:induction false} FieldsThen(pre: seq<Piece>, rest: seq<Piece>)
    requires AllFields(pre)
    ensures FirstProblem(Matches(pre + rest)) == FirstProblem(Matches(rest))
    ensures Sequences(Matches(pre + rest)) == Sequences(Matches(rest))
    ensures AllLiteral(Literals(pre + rest)) <==> AllLiteral(Literals(rest))
  {
    if pre == [] {
      assert pre + rest == rest;
    } else {
      assert (pre + rest)[1..] == pre[1..] + rest && pre[0] in pre;
      FieldsThen(pre[1..], rest);
    }
  }

  lemma {:induction false} OnlyFields(pieces: seq<Piece>)
    requires FirstProblem(Matches(pieces)).None? && Sequences(Matches(pieces)) == 0 && AllLiteral(Literals(pieces))
    ensures AllFields(pieces)
  {
    if pieces != [] {
      if pieces[0].Lit? {
        assert Literals(pieces) == [pieces[0].c] + Literals(pieces[1..]);
        assert forall c :: c in Literals(pieces[1..]) ==> c in Literals(pieces);
        assert pieces[0].c in Literals(pieces);
      }
      OnlyFields(pieces[1..]);
    }
  }

  lemma {:induction false} FindSequence(pieces: seq<Piece>) returns (pre: seq<Piece>, width: string, suf: seq<Piece>)
    requires ProblemOf(pieces).None? && RealTokens(pieces)
    ensures pieces == pre + [Sequence(width)] + suf && AllFields(pre) && AllFields(suf) && IsWidth(width)
  {
    if pieces[0].Lit? {
      assert Literals(pieces) == [pieces[0].c] + Literals(pieces[1..]);
      assert forall c :: c in Literals(pieces[1..]) ==> c in Literals(pieces);
      assert pieces[0].c in Literals(pieces);
    }
    if pieces[0].Tok? && pieces[0].t.name == "SEQ" {
      assert pieces[0] in pieces;
      OnlyFields(pieces[1..]);
      pre, width, suf := [], pieces[0].t.width.value, pieces[1..];
    } else {
      pre, width, suf := FindSequence(pieces[1..]);
      pre := [pieces[0]] + pre;
    }
  }

  lemma ShapedTokens(pattern: string, pre: seq<Piece>, width: string, suf: seq<Piece>)
    requires Shaped(pattern, pre, width, suf)
    ensures Tokens(pattern) == pre + [Sequence(width)] + suf
  {
    var pieces := pre + [Sequence(width)] + suf;
    forall p | p in pieces ensures if p.Lit? then IsLiteral(p.c) else IsToken(p.t) {}
    TokensPrint(pieces);
  }

  /** Main result: a pattern is accepted exactly when it has that shape. */
  lemma AcceptedIff(pattern: string)
    ensures ProblemOf(Tokens(pattern)).None? <==> exists pre, width, suf :: Shaped(pattern, pre, width, suf)
  {
    if ProblemOf(Tokens(pattern)).None? {
      TokensAreReal(pattern);
      PrintTokens(pattern);
      var pre, width, suf := FindSequence(Tokens(pattern));
      assert Shaped(pattern, pre, width, suf);
    }
    if pre, width, suf :| Shaped(pattern, pre, width, suf) {
      ShapedTokens(pattern, pre, width, suf);
      NoProblem(pre, width, suf);
    }
  }

  lemma NoProblem(pre: seq<Piece>, width: string, suf: seq<Piece>)
    requires AllFields(pre) && AllFields(suf) && IsWidth(width)
    ensures ProblemOf(pre + [Sequence(width)] + suf).None?
  {
    var rest := [Sequence(width)] + suf;
    assert pre + [Sequence(width)] + suf == pre + rest;
    FieldsThen(pre, rest);
    FieldsThen(suf, []);
    assert suf + [] == suf && rest[1..] == suf;
    assert Matches(rest) == [Token("SEQ", Some(width))] + Matches(suf);
  }

  lemma OneSequence(pre: seq<Piece>, width: string, suf: seq<Piece>, i: nat)
    requires AllFields(pre) && AllFields(suf) && i < |pre| + 1 + |suf|
    ensures var p := (pre + [Sequence(width)] + suf)[i];
      p.Tok? && p.t.name == "SEQ" <==> i == |pre|
  {
    var p := (pre + [Sequence(width)] + suf)[i];
    if i != |pre| {
      assert p in pre || p in suf;
      assert IsField(p);
    }
  }

  /** ... and it has that shape in one way. */
  lemma {:induction false} SplitIsUnique(pattern: string, pre: seq<Piece>, width: string, suf: seq<Piece>,
                                         otherPre: seq<Piece>, otherWidth: string, otherSuf: seq<Piece>)
    requires Shaped(pattern, pre, width, suf) && Shaped(pattern, otherPre, otherWidth, otherSuf)
    ensures pre == otherPre && width == otherWidth && suf == otherSuf
  {
    ShapedTokens(pattern, pre, width, suf);
    ShapedTokens(pattern, otherPre, otherWidth, otherSuf);
    var pieces := Tokens(pattern);
    OneSequence(pre, width, suf, |otherPre|);
    OneSequence(otherPre, otherWidth, otherSuf, |otherPre|);
    assert pre == pieces[..|pre|] && otherPre == pieces[..|otherPre|];
    assert suf == pieces[|pre| + 1..] && otherSuf == pieces[|otherPre| + 1..];
    assert pieces[|pre|] == Sequence(width) && pieces[|otherPre|] == Sequence(otherWidth);
  }

  // ---- searching the pattern text ---------------------------------------------------------------

  predicate Includes(s: string, w: string) {
    w <= s || (s != [] && Includes(s[1..], w))
  }

  /** The first match of the placeholder expression for {SEQ:n}, anywhere. */
  function SequenceWidth(s: string): Option<string> {
    if s == [] then None
    else if MatchAt(s).Some? && MatchAt(s).value.name == "SEQ" && MatchAt(s).value.width.Some? then MatchAt(s).value.width
    else SequenceWidth(s[1..])
  }

  function FirstWidth(pieces: seq<Piece>): Option<string> {
    if pieces == [] then None
    else if pieces[0].Tok? && pieces[0].t.name == "SEQ" && pieces[0].t.width.Some? then pieces[0].t.width
    else FirstWidth(pieces[1..])
  }

  function PatternUsesBranch(pattern: string): bool {
    Includes(pattern, "{BRANCH}")
  }

  /** No placeholder begins where there is no brace. */
  lemma {:induction false} SkipInside(inside: string, rest: string, t: Token)
    requires IsToken(t) && '{' !in inside
    ensures Includes(inside + rest, Text(t)) == Includes(rest, Text(t))
    ensures SequenceWidth(inside + rest) == SequenceWidth(rest)
  {
    if inside == [] {
      assert inside + rest == rest;
    } else {
      var s := inside + rest;
      assert s[0] != '{' && Text(t)[0] == '{';
      assert s[1..] == inside[1..] + rest;
      SkipInside(inside[1..], rest, t);
    }
  }

  lemma TextAtFront(s: string, t: Token)
    requires IsToken(t)
    ensures Text(t) <= s <==> MatchAt(s) == Some(t)
  {
    if Text(t) <= s {
      TextMatches(t, s[|Text(t)|..]);
      assert s == Text(t) + s[|Text(t)|..];
    }
  }

  lemma SkipFirst(s: string, t: Token)
    requires IsToken(t) && MatchAt(s).Some?
    ensures var n := |Text(MatchAt(s).value)|;
      Includes(s[1..], Text(t)) == Includes(s[n..], Text(t)) && SequenceWidth(s[1..]) == SequenceWidth(s[n..])
  {
    var first := MatchAt(s).value;
    var inside, rest := Text(first)[1..], s[|Text(first)|..];
    forall i | 0 <= i < |inside| ensures inside[i] != '{' {
      BraceAtFront(first, i + 1);
    }
    assert s == Text(first) + rest;
    assert s[1..] == inside + rest;
    SkipInside(inside, rest, t);
  }

  /** Searching the text for a placeholder finds exactly the placeholders of its one reading. */
  lemma {:induction false} SearchIsReading(s: string, t: Token)
    requires IsToken(t)
    ensures Includes(s, Text(t)) <==> Tok(t) in Tokens(s)
    ensures SequenceWidth(s) == FirstWidth(Tokens(s))
  {
    if s != [] {
      TokensStep(s);
      TextAtFront(s, t);
      if MatchAt(s).Some? {
        SkipFirst(s, t);
        SearchIsReading(s[|Text(MatchAt(s).value)|..], t);
      } else {
        SearchIsReading(s[1..], t);
      }
    }
  }

  // ---- scopes and numbers -----------------------------------------------------------------------

  predicate HasBranch(ctx: Context) {
    ctx.branchCode.Some? && ctx.branchCode.value != ""
  }

  function PieceValue(p: Piece, ctx: Context, sequence: string): Result<string, FillError> {
    if p.Lit? then Ok([p.c])
    else if p.t.name == "YYYY" then Ok(Decimal(ctx.year))
    else if p.t.name == "YY" then Ok(Pad(Decimal(ctx.year % 100), 2))
    else if p.t.name == "MM" then Ok(Pad(Decimal(ctx.month), 2))
    else if p.t.name == "FY" then Ok(Decimal(ctx.fiscalYear))
    else if p.t.name == "BRANCH" then if HasBranch(ctx) then Ok(ctx.branchCode.value) else Err(NeedsBranch)
    else Ok(sequence)
  }

  function Fill(pieces: seq<Piece>, ctx: Context, sequence: string): Result<string, FillError> {
    if pieces == [] then Ok("") else Append(PieceValue(pieces[0], ctx, sequence), Fill(pieces[1..], ctx, sequence))
  }

  function Append(x: Result<string, FillError>, y: Result<string, FillError>): Result<string, FillError> {
    if x.Err? then x else if y.Err? then y else Ok(x.value + y.value)
  }

  lemma AppendAssociates(x: Result<string, FillError>, y: Result<string, FillError>, z: Result<string, FillError>)
    ensures Append(x, Append(y, z)) == Append(Append(x, y), z)
  {
    if x.Ok? && y.Ok? && z.Ok? {
      assert x.value + (y.value + z.value) == x.value + y.value + z.value;
    }
  }

  function NumberScope(pattern: string, ctx: Context): Result<string, FillError> {
    Fill(Tokens(pattern), ctx, "{SEQ}")
  }

  function FormatNumber(pattern: string, ctx: Context, sequence: nat): Result<string, FillError> {
    var width := if SequenceWidth(pattern).Some? then Value(SequenceWidth(pattern).value) else 1;
    Fill(Tokens(pattern), ctx, Pad(Decimal(sequence), width))
  }

  lemma AppendNothing(x: Result<string, FillError>)
    ensures Append(Ok(""), x) == x == Append(x, Ok(""))
  {
    if x.Ok? {
      assert "" + x.value == x.value == x.value + "";
    }
  }

  lemma {:induction false} FillSplit(a: seq<Piece>, b: seq<Piece>, ctx: Context, sequence: string)
    ensures Fill(a + b, ctx, sequence) == Append(Fill(a, ctx, sequence), Fill(b, ctx, sequence))
  {
    if a == [] {
      assert a + b == b;
      AppendNothing(Fill(b, ctx, sequence));
    } else {
      assert (a + b)[1..] == a[1..] + b;
      FillSplit(a[1..], b, ctx, sequence);
      AppendAssociates(PieceValue(a[0], ctx, sequence), Fill(a[1..], ctx, sequence), Fill(b, ctx, sequence));
    }
  }

  /** Fields do not show the sequence, and only a branch can be missing. */
  lemma {:induction false} FillFields(pieces: seq<Piece>, ctx: Context, sequence: string)
    requires AllFields(pieces)
    ensures Fill(pieces, ctx, sequence) == Fill(pieces, ctx, "")
    ensures Fill(pieces, ctx, "").Err? <==> BRANCH in pieces && !HasBranch(ctx)
  {
    if pieces != [] {
      assert pieces[0] in pieces;
      FillFields(pieces[1..], ctx, sequence);
    }
  }

  /** What an accepted pattern renders to: fixed text around the sequence. */
  lemma Rendered(pattern: string, pre: seq<Piece>, width: string, suf: seq<Piece>, ctx: Context, sequence: string)
    requires Shaped(pattern, pre, width, suf)
    ensures Fill(Tokens(pattern), ctx, sequence) == Append(Append(Fill(pre, ctx, ""), Ok(sequence)), Fill(suf, ctx, ""))
  {
    ShapedTokens(pattern, pre, width, suf);
    FillSplit(pre + [Sequence(width)], suf, ctx, sequence);
    FillSplit(pre, [Sequence(width)], ctx, sequence);
    FillFields(pre, ctx, sequence);
    FillFields(suf, ctx, sequence);
    var middle := [Sequence(width)];
    assert middle[1..] == [] && Fill([], ctx, sequence) == Ok("");
    AppendNothing(Ok(sequence));
  }

  lemma Searched(pattern: string, pre: seq<Piece>, width: string, suf: seq<Piece>)
    requires Shaped(pattern, pre, width, suf)
    ensures SequenceWidth(pattern) == Some(width)
    ensures PatternUsesBranch(pattern) <==> BRANCH in pre || BRANCH in suf
  {
    ShapedTokens(pattern, pre, width, suf);
    WidthAfterFields(pre, width, suf);
    UsesBranchIff(pattern);
  }

  lemma UsesBranchIff(pattern: string)
    ensures PatternUsesBranch(pattern) <==> BRANCH in Tokens(pattern)
    ensures SequenceWidth(pattern) == FirstWidth(Tokens(pattern))
  {
    SearchIsReading(pattern, Token("BRANCH", None));
    assert Text(Token("BRANCH", None)) == "{BRANCH}";
  }

  lemma {:induction false} WidthAfterFields(pre: seq<Piece>, width: string, suf: seq<Piece>)
    requires AllFields(pre)
    ensures FirstWidth(pre + [Sequence(width)] + suf) == Some(width)
  {
    if pre != [] {
      assert pre[0] in pre;
      assert (pre + [Sequence(width)] + suf)[1..] == pre[1..] + [Sequence(width)] + suf;
      WidthAfterFields(pre[1..], width, suf);
    }
  }

  /** Rendering an accepted pattern fails exactly when it uses the branch and there is none. */
  lemma FailsIff(pattern: string, ctx: Context, sequence: nat)
    requires ProblemOf(Tokens(pattern)).None?
    ensures FormatNumber(pattern, ctx, sequence).Err? <==> PatternUsesBranch(pattern) && !HasBranch(ctx)
    ensures NumberScope(pattern, ctx).Err? <==> FormatNumber(pattern, ctx, sequence).Err?
  {
    AcceptedIff(pattern);
    var pre, width, suf :| Shaped(pattern, pre, width, suf);
    Searched(pattern, pre, width, suf);
    Rendered(pattern, pre, width, suf, ctx, "{SEQ}");
    Rendered(pattern, pre, width, suf, ctx, Pad(Decimal(sequence), Value(width)));
    FillFields(pre, ctx, "");
    FillFields(suf, ctx, "");
  }

  predicate NoBraces(s: string) {
    '{' !in s
  }

  /** Branch codes are letters and digits; all that matters here is that they hold no brace. */
  predicate PlainBranch(ctx: Context) {
    ctx.branchCode.Some? ==> NoBraces(ctx.branchCode.value)
  }

  lemma {:induction false} FieldsHaveNoBraces(pieces: seq<Piece>, ctx: Context)
    requires AllFields(pieces) && PlainBranch(ctx) && Fill(pieces, ctx, "").Ok?
    ensures NoBraces(Fill(pieces, ctx, "").value)
  {
    if pieces != [] {
      assert pieces[0] in pieces;
      FieldsHaveNoBraces(pieces[1..], ctx);
      PadHasDigits(Decimal(ctx.year % 100), 2);
      PadHasDigits(Decimal(ctx.month), 2);
    }
  }

  lemma SameScopeParts(a: string, b: string, otherA: string, otherB: string)
    requires NoBraces(a) && NoBraces(otherA) && a + "{SEQ}" + b == otherA + "{SEQ}" + otherB
    ensures a == otherA && b == otherB
  {
    var s, t := a + "{SEQ}" + b, otherA + "{SEQ}" + otherB;
    assert s == a + ("{SEQ}" + b) && t == otherA + ("{SEQ}" + otherB);
    SpanIs(a, "{SEQ}" + b, NotBrace);
    SpanIs(otherA, "{SEQ}" + otherB, NotBrace);
    assert a == s[..|a|] && otherA == t[..|otherA|];
    assert b == s[|a| + 5..] && otherB == t[|otherA| + 5..];
  }

  predicate NotBrace(c: char) { c != '{' }

  /** The year fields read as the calendar year and the year the fiscal year began in. */
  lemma YearsTell(ctx: Context, sequence: string)
    ensures var year := PieceValue(Tok(Token("YYYY", None)), ctx, sequence);
      year.Ok? && Value(year.value) == ctx.year
    ensures var fiscal := PieceValue(Tok(Token("FY", None)), ctx, sequence);
      fiscal.Ok? && Value(fiscal.value) == ctx.fiscalYear
  {
    ValueOfDecimal(ctx.year);
    ValueOfDecimal(ctx.fiscalYear);
  }

  /** Years of four digits show four; a literal shows itself, and a branch field the branch's code. */
  lemma PlainPieces(ctx: Context, sequence: string, c: char)
    ensures 1000 <= ctx.year < 10000 ==> |PieceValue(Tok(Token("YYYY", None)), ctx, sequence).value| == 4
    ensures 1000 <= ctx.fiscalYear < 10000 ==> |PieceValue(Tok(Token("FY", None)), ctx, sequence).value| == 4
    ensures PieceValue(Lit(c), ctx, sequence) == Ok([c])
    ensures PieceValue(BRANCH, ctx, sequence) ==
      if ctx.branchCode == None || ctx.branchCode == Some("") then Err(NeedsBranch) else Ok(ctx.branchCode.value)
  {
    if 1000 <= ctx.year < 10000 {
      YearLength(ctx.year);
    }
    if 1000 <= ctx.fiscalYear < 10000 {
      YearLength(ctx.fiscalYear);
    }
  }

  /** The short year reads as the last two digits of the year, the month as the month; both show two digits. */
  lemma ShortFieldsTell(ctx: Context, sequence: string)
    requires ctx.month < 100
    ensures var year := PieceValue(Tok(Token("YY", None)), ctx, sequence);
      year.Ok? && Value(year.value) == ctx.year % 100 && |year.value| == 2
    ensures var month := PieceValue(Tok(Token("MM", None)), ctx, sequence);
      month.Ok? && Value(month.value) == ctx.month && |month.value| == 2
  {
    ShortTells(ctx.year % 100);
    ShortTells(ctx.month);
  }

  lemma MiddleIsSame(a: string, x: string, y: string, b: string)
    ensures a + x + b == a + y + b <==> x == y
  {
    if a + x + b == a + y + b {
      assert x == (a + x + b)[|a|..|a| + |x|] && y == (a + y + b)[|a|..|a| + |y|];
    }
  }

  /**
   Main result: within one scope, different sequences have different numbers, past the pad width and even
   if the pattern was replaced by one with another width; and one pattern gives equal numbers for equal
   sequences.
   */
  lemma ScopeNumbersDiffer(pattern: string, ctx: Context, m: nat, other: string, otherCtx: Context, n: nat)
    requires ProblemOf(Tokens(pattern)).None? && ProblemOf(Tokens(other)).None? && PlainBranch(ctx) && PlainBranch(otherCtx)
    requires NumberScope(pattern, ctx).Ok? && NumberScope(pattern, ctx) == NumberScope(other, otherCtx)
    ensures FormatNumber(pattern, ctx, m) == FormatNumber(other, otherCtx, n) ==> m == n
    ensures pattern == other && m == n ==> FormatNumber(pattern, ctx, m) == FormatNumber(other, otherCtx, n)
  {
    var a, width, b := Parts(pattern, ctx, m);
    var otherA, otherWidth, otherB := Parts(other, otherCtx, n);
    SameScopeParts(a, b, otherA, otherB);
    MiddleIsSame(a, Pad(Decimal(m), width), Pad(Decimal(n), otherWidth), b);
    if FormatNumber(pattern, ctx, m) == FormatNumber(other, otherCtx, n) {
      PadTells(m, width, n, otherWidth);
    }
  }

  /**
   A number is its scope with the sequence in place of its mark: digits that read as the sequence, at
   least as many as the width says.
   */
  lemma NumberIsScope(pattern: string, ctx: Context, n: nat) returns (a: string, digits: string, b: string)
    requires ProblemOf(Tokens(pattern)).None? && PlainBranch(ctx) && NumberScope(pattern, ctx).Ok?
    ensures NumberScope(pattern, ctx) == Ok(a + "{SEQ}" + b) && FormatNumber(pattern, ctx, n) == Ok(a + digits + b)
    ensures Value(digits) == n && AllDigits(digits)
    ensures SequenceWidth(pattern).Some?
    ensures var width := Value(SequenceWidth(pattern).value);
      |digits| == if |Decimal(n)| < width then width else |Decimal(n)|
  {
    var width;
    a, width, b := Parts(pattern, ctx, n);
    digits := Pad(Decimal(n), width);
    Padded(Decimal(n), width);
    PadHasDigits(Decimal(n), width);
    ValueOfDecimal(n);
  }

  /** The text around the sequence, in the scope and in the number. */
  lemma Parts(pattern: string, ctx: Context, n: nat) returns (a: string, width: nat, b: string)
    requires ProblemOf(Tokens(pattern)).None? && PlainBranch(ctx) && NumberScope(pattern, ctx).Ok?
    ensures NumberScope(pattern, ctx) == Ok(a + "{SEQ}" + b) && NoBraces(a)
    ensures SequenceWidth(pattern).Some? && width == Value(SequenceWidth(pattern).value)
    ensures FormatNumber(pattern, ctx, n) == Ok(a + Pad(Decimal(n), width) + b)
  {
    AcceptedIff(pattern);
    var pre, w, suf :| Shaped(pattern, pre, w, suf);
    Searched(pattern, pre, w, suf);
    width := Value(w);
    Rendered(pattern, pre, w, suf, ctx, "{SEQ}");
    Rendered(pattern, pre, w, suf, ctx, Pad(Decimal(n), width));
    a, b := Fill(pre, ctx, "").value, Fill(suf, ctx, "").value;
    FieldsHaveNoBraces(pre, ctx);
  }

  // ---- what a number tells ----------------------------------------------------------------------

  /** Years of four digits, months of two. */
  predicate UsualDates(ctx: Context) {
    1000 <= ctx.year < 10000 && 1000 <= ctx.fiscalYear < 10000 && 1 <= ctx.month <= 12
  }

  predicate SameBranchLength(ctx: Context, other: Context) {
    HasBranch(ctx) && HasBranch(other) ==> |ctx.branchCode.value| == |other.branchCode.value|
  }

  lemma {:induction false} SameLength(pieces: seq<Piece>, ctx: Context, other: Context)
    requires AllFields(pieces) && UsualDates(ctx) && UsualDates(other)
    requires SameBranchLength(ctx, other) || BRANCH !in pieces
    requires Fill(pieces, ctx, "").Ok? && Fill(pieces, other, "").Ok?
    ensures |Fill(pieces, ctx, "").value| == |Fill(pieces, other, "").value|
  {
    if pieces != [] {
      assert pieces[0] in pieces;
      SameLength(pieces[1..], ctx, other);
      YearLength(ctx.year);
      YearLength(other.year);
      YearLength(ctx.fiscalYear);
      YearLength(other.fiscalYear);
      ShortLength(ctx.year % 100);
      ShortLength(other.year % 100);
      ShortLength(ctx.month);
      ShortLength(other.month);
    }
  }

  /** Main result: with fields of fixed width the number tells the scope and the sequence. */
  lemma NumberTells(pattern: string, ctx: Context, m: nat, other: Context, n: nat)
    requires ProblemOf(Tokens(pattern)).None? && UsualDates(ctx) && UsualDates(other)
    requires SameBranchLength(ctx, other) || !PatternUsesBranch(pattern)
    requires FormatNumber(pattern, ctx, m).Ok? && FormatNumber(pattern, ctx, m) == FormatNumber(pattern, other, n)
    ensures NumberScope(pattern, ctx) == NumberScope(pattern, other) && m == n
  {
    AcceptedIff(pattern);
    var pre, w, suf :| Shaped(pattern, pre, w, suf);
    Searched(pattern, pre, w, suf);
    var x, y := Pad(Decimal(m), Value(w)), Pad(Decimal(n), Value(w));
    Rendered(pattern, pre, w, suf, ctx, x);
    Rendered(pattern, pre, w, suf, other, y);
    Rendered(pattern, pre, w, suf, ctx, "{SEQ}");
    Rendered(pattern, pre, w, suf, other, "{SEQ}");
    SameLength(pre, ctx, other);
    SameLength(suf, ctx, other);
    EqualParts(Fill(pre, ctx, "").value, x, Fill(suf, ctx, "").value,
               Fill(pre, other, "").value, y, Fill(suf, other, "").value);
    PadTells(m, Value(w), n, Value(w));
  }

  lemma EqualParts(a: string, x: string, b: string, otherA: string, y: string, otherB: string)
    requires a + x + b == otherA + y + otherB && |a| == |otherA| && |b| == |otherB|
    ensures a == otherA && x == y && b == otherB
  {
    var s, t := a + x + b, otherA + y + otherB;
    assert a == s[..|a|] && otherA == t[..|a|];
    assert x == s[|a|..|s| - |b|] && y == t[|a|..|t| - |b|];
    assert b == s[|s| - |b|..] && otherB == t[|t| - |b|..];
  }
}

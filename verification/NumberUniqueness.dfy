/**
 What a document number tells. Sequences are padded but not cut off, and branch codes are letters and
 digits of any length, so where codes and the sequence run together two documents can share a number:
 exactly when no literal that is not a digit stands between any branch and the sequence.
 */
module NumberUniqueness {
  import opened Options
  import opened Digits
  import opened Numbering

  predicate IsCode(s: string) {
    s != [] && forall c :: c in s ==> IsUpper(c) || IsDigit(c)
  }

  /** Four-digit years, a month, and a branch code, if there is one, of letters and digits. */
  predicate Usual(ctx: Context) {
    UsualDates(ctx) && (ctx.branchCode.Some? ==> IsCode(ctx.branchCode.value))
  }

  predicate SameNumber(pattern: string, ctx: Context, m: nat, other: Context, n: nat) {
    FormatNumber(pattern, ctx, m).Ok? && FormatNumber(pattern, ctx, m) == FormatNumber(pattern, other, n)
  }

  /** Under this pattern a number determines its scope and its sequence. */
  ghost predicate Tells(pattern: string) {
    forall ctx, other, m: nat, n: nat ::
      Usual(ctx) && Usual(other) && SameNumber(pattern, ctx, m, other, n) ==>
        NumberScope(pattern, ctx) == NumberScope(pattern, other) && m == n
  }

  predicate IsSeparator(p: Piece) {
    p.Lit? && !IsDigit(p.c)
  }

  /** A literal that is not a digit stands between a branch and the sequence. */
  ghost predicate Separated(pre: seq<Piece>, suf: seq<Piece>) {
    || (exists i, k :: 0 <= i < k < |pre| && pre[i] == BRANCH && IsSeparator(pre[k]))
    || (exists k, i :: 0 <= k < i < |suf| && IsSeparator(suf[k]) && suf[i] == BRANCH)
  }

  function Branches(pieces: seq<Piece>): nat {
    if pieces == [] then 0 else (if pieces[0] == BRANCH then 1 else 0) + Branches(pieces[1..])
  }

  /** Date fields and digits: what is shown is digits only. */
  predicate OnlyDigits(pieces: seq<Piece>) {
    forall p :: p in pieces ==> IsField(p) && p != BRANCH && !IsSeparator(p)
  }

  // ---- texts ------------------------------------------------------------------------------------

  lemma {:induction false} DigitsShown(pieces: seq<Piece>, ctx: Context)
    requires OnlyDigits(pieces)
    ensures Fill(pieces, ctx, "").Ok? && AllDigits(Fill(pieces, ctx, "").value)
  {
    if pieces != [] {
      assert pieces[0] in pieces;
      DigitsShown(pieces[1..], ctx);
      PadHasDigits(Decimal(ctx.year % 100), 2);
      PadHasDigits(Decimal(ctx.month), 2);
    }
  }

  lemma BranchFills(pieces: seq<Piece>, ctx: Context)
    requires AllFields(pieces) && HasBranch(ctx)
    ensures Fill(pieces, ctx, "").Ok?
  {
    FillFields(pieces, ctx, "");
  }

  /** Without {BRANCH} the code does not show. */
  lemma {:induction false} CodeNotShown(pieces: seq<Piece>, ctx: Context, code: string)
    requires AllFields(pieces) && BRANCH !in pieces
    ensures Fill(pieces, ctx.(branchCode := Some(code)), "") == Fill(pieces, ctx, "")
  {
    if pieces != [] {
      assert pieces[0] in pieces;
      CodeNotShown(pieces[1..], ctx, code);
    }
  }

  lemma SameEnds(a: string, b: string, otherA: string, otherB: string)
    requires a + b == otherA + otherB && (|a| == |otherA| || |b| == |otherB|)
    ensures a == otherA && b == otherB
  {
    assert a == (a + b)[..|a|] && otherA == (otherA + otherB)[..|a|];
    assert b == (a + b)[|a|..] && otherB == (otherA + otherB)[|a|..];
  }

  // ---- a separator tells ------------------------------------------------------------------------

  /** What a number of an accepted pattern is. */
  lemma NumberText(pattern: string, pre: seq<Piece>, width: string, suf: seq<Piece>, ctx: Context, n: nat)
    requires Shaped(pattern, pre, width, suf)
    requires FormatNumber(pattern, ctx, n).Ok? || (Fill(pre, ctx, "").Ok? && Fill(suf, ctx, "").Ok?)
    ensures Fill(pre, ctx, "").Ok? && Fill(suf, ctx, "").Ok?
    ensures var a, b := Fill(pre, ctx, "").value, Fill(suf, ctx, "").value;
      && NumberScope(pattern, ctx) == Ok(a + "{SEQ}" + b)
      && FormatNumber(pattern, ctx, n) == Ok(a + Pad(Decimal(n), Value(width)) + b)
  {
    Searched(pattern, pre, width, suf);
    Rendered(pattern, pre, width, suf, ctx, "{SEQ}");
    Rendered(pattern, pre, width, suf, ctx, Pad(Decimal(n), Value(width)));
  }

  lemma FillThree(a: seq<Piece>, p: Piece, b: seq<Piece>, ctx: Context)
    requires Fill(a, ctx, "").Ok? && Fill(b, ctx, "").Ok? && PieceValue(p, ctx, "").Ok?
    ensures Fill(a + [p] + b, ctx, "") ==
      Ok(Fill(a, ctx, "").value + PieceValue(p, ctx, "").value + Fill(b, ctx, "").value)
  {
    FillSplit(a + [p], b, ctx, "");
    FillSplit(a, [p], ctx, "");
    assert [p][1..] == [] && Fill([], ctx, "") == Ok("");
    AppendNothing(PieceValue(p, ctx, ""));
  }

  // ---- a separator tells --------------------------------------------------------------------------

  function CodeOf(ctx: Context): string {
    if HasBranch(ctx) then ctx.branchCode.value else ""
  }

  function Marks(pieces: seq<Piece>, c: char): nat {
    if pieces == [] then 0 else (if pieces[0] == Lit(c) then 1 else 0) + Marks(pieces[1..], c)
  }

  /** b times k. */
  function Times(b: nat, k: nat): nat {
    if b == 0 then 0 else k + Times(b - 1, k)
  }

  lemma {:induction false} TimesJoin(a: nat, b: nat, k: nat)
    ensures Times(a + b, k) == Times(a, k) + Times(b, k)
  {
    if a > 0 {
      TimesJoin(a - 1, b, k);
    }
  }

  function Count(s: string, c: char): nat {
    if s == [] then 0 else (if s[0] == c then 1 else 0) + Count(s[1..], c)
  }

  lemma {:induction false} CountJoin(a: string, b: string, c: char)
    ensures Count(a + b, c) == Count(a, c) + Count(b, c)
  {
    if a == [] {
      assert a + b == b;
    } else {
      assert (a + b)[1..] == a[1..] + b;
      CountJoin(a[1..], b, c);
    }
  }

  lemma {:induction false} NoDigitIn(s: string, c: char)
    requires AllDigits(s) && !IsDigit(c)
    ensures Count(s, c) == 0
  {
    if s != [] {
      assert s[0] in s;
      NoDigitIn(s[1..], c);
    }
  }

  /** What one piece shows of a character that is no digit. */
  lemma CountOfPiece(p: Piece, ctx: Context, c: char)
    requires IsField(p) && PieceValue(p, ctx, "").Ok? && !IsDigit(c)
    ensures Count(PieceValue(p, ctx, "").value, c) ==
      if p == BRANCH then Count(CodeOf(ctx), c) else if p == Lit(c) then 1 else 0
  {
    if p.Tok? && p != BRANCH {
      PadHasDigits(Decimal(ctx.year % 100), 2);
      PadHasDigits(Decimal(ctx.month), 2);
      NoDigitIn(PieceValue(p, ctx, "").value, c);
    }
  }

  /** A character that is no digit comes from the literals, and from the code once for each branch. */
  lemma {:induction false} CountShown(pieces: seq<Piece>, ctx: Context, c: char)
    requires AllFields(pieces) && Fill(pieces, ctx, "").Ok? && !IsDigit(c)
    ensures Count(Fill(pieces, ctx, "").value, c) == Marks(pieces, c) + Times(Branches(pieces), Count(CodeOf(ctx), c))
  {
    if pieces != [] {
      assert pieces[0] in pieces;
      CountShown(pieces[1..], ctx, c);
      CountOfPiece(pieces[0], ctx, c);
      CountJoin(PieceValue(pieces[0], ctx, "").value, Fill(pieces[1..], ctx, "").value, c);
    }
  }

  lemma LengthOfPiece(p: Piece, ctx: Context, other: Context)
    requires IsField(p) && UsualDates(ctx) && UsualDates(other)
    requires PieceValue(p, ctx, "").Ok? && PieceValue(p, other, "").Ok?
    ensures p == BRANCH ==>
      |PieceValue(p, ctx, "").value| == |CodeOf(ctx)| && |PieceValue(p, other, "").value| == |CodeOf(other)|
    ensures p != BRANCH ==> |PieceValue(p, ctx, "").value| == |PieceValue(p, other, "").value|
  {
    YearLength(ctx.year);
    YearLength(other.year);
    YearLength(ctx.fiscalYear);
    YearLength(other.fiscalYear);
    ShortLength(ctx.year % 100);
    ShortLength(other.year % 100);
    ShortLength(ctx.month);
    ShortLength(other.month);
  }

  /** Only the code changes the length of what is shown, once for each branch. */
  lemma {:induction false} LengthShown(pieces: seq<Piece>, ctx: Context, other: Context)
    requires AllFields(pieces) && UsualDates(ctx) && UsualDates(other)
    requires Fill(pieces, ctx, "").Ok? && Fill(pieces, other, "").Ok?
    ensures |Fill(pieces, ctx, "").value| + Times(Branches(pieces), |CodeOf(other)|) ==
      |Fill(pieces, other, "").value| + Times(Branches(pieces), |CodeOf(ctx)|)
  {
    if pieces != [] {
      assert pieces[0] in pieces;
      LengthShown(pieces[1..], ctx, other);
      LengthOfPiece(pieces[0], ctx, other);
    }
  }

  lemma {:induction false} LongerFrontCounts(a: string, c: char, b: string, otherA: string, otherB: string)
    requires a + [c] + b == otherA + [c] + otherB && |a| < |otherA|
    ensures Count(otherA, c) > Count(a, c)
  {
    var s := a + [c] + b;
    var t := otherA[|a| + 1..];
    assert otherA == s[..|otherA|] == a + [c] + t;
    CountOne(a, c, t);
  }

  lemma {:induction false} CountOne(a: string, c: char, b: string)
    ensures Count(a + [c] + b, c) == Count(a, c) + 1 + Count(b, c)
  {
    CountJoin(a + [c], b, c);
    CountJoin(a, [c], c);
    assert [c][1..] == [];
  }

  /** The same character with as many of its kind in front stands at the same place. */
  lemma {:induction false} SamePlace(a: string, c: char, b: string, otherA: string, otherB: string)
    requires a + [c] + b == otherA + [c] + otherB
    requires Count(a, c) == Count(otherA, c) || Count(b, c) == Count(otherB, c)
    ensures |a| == |otherA| && |b| == |otherB|
  {
    CountOne(a, c, b);
    CountOne(otherA, c, otherB);
    if |a| < |otherA| {
      LongerFrontCounts(a, c, b, otherA, otherB);
    } else if |otherA| < |a| {
      LongerFrontCounts(otherA, c, otherB, a, b);
    }
  }

  lemma {:induction false} BranchesOfJoin(a: seq<Piece>, b: seq<Piece>)
    ensures Branches(a + b) == Branches(a) + Branches(b)
  {
    if a == [] {
      assert a + b == b;
    } else {
      assert (a + b)[1..] == a[1..] + b;
      BranchesOfJoin(a[1..], b);
    }
  }

  lemma SomeBranch(pieces: seq<Piece>, i: nat)
    requires i < |pieces| && pieces[i] == BRANCH
    ensures Branches(pieces) >= 1
  {
    if i > 0 {
      SomeBranch(pieces[1..], i - 1);
    }
  }

  /** A part of a pattern with a separator. */
  lemma SideText(a: seq<Piece>, l: Piece, b: seq<Piece>, ctx: Context)
    requires IsSeparator(l) && Fill(a + [l] + b, ctx, "").Ok?
    ensures Fill(a, ctx, "").Ok? && Fill(b, ctx, "").Ok?
    ensures Fill(a + [l] + b, ctx, "") == Ok(Fill(a, ctx, "").value + [l.c] + Fill(b, ctx, "").value)
  {
    FillSplit(a + [l], b, ctx, "");
    FillSplit(a, [l], ctx, "");
    FillThree(a, l, b, ctx);
  }

  /** Equal numbers show a character that is no digit equally often, so the codes do too. */
  lemma {:induction false} SameCount(pattern: string, pre: seq<Piece>, width: string, suf: seq<Piece>,
                                     ctx: Context, m: nat, other: Context, n: nat, number: string, c: char)
    requires Shaped(pattern, pre, width, suf) && FormatNumber(pattern, ctx, m) == FormatNumber(pattern, other, n) == Ok(number)
    requires Branches(pre) + Branches(suf) >= 1 && !IsDigit(c)
    ensures Count(CodeOf(ctx), c) == Count(CodeOf(other), c)
  {
    var k := CountInNumber(pattern, pre, width, suf, ctx, m, number, c);
    var l := CountInNumber(pattern, pre, width, suf, other, n, number, c);
    SameFactor(Branches(pre) + Branches(suf), k, l);
  }

  lemma {:induction false} SameFactor(b: nat, k: nat, l: nat)
    requires b >= 1 && Times(b, k) == Times(b, l)
    ensures k == l
  {
    MoreOfMore(b, k, l);
    MoreOfMore(b, l, k);
  }

  lemma {:induction false} MoreOfMore(b: nat, k: nat, l: nat)
    requires b >= 1
    ensures k < l ==> Times(b, k) < Times(b, l)
  {
    if b > 1 {
      MoreOfMore(b - 1, k, l);
    }
  }

  lemma {:induction false} CountInNumber(pattern: string, pre: seq<Piece>, width: string, suf: seq<Piece>, ctx: Context, n: nat, number: string, c: char)
    returns (k: nat)
    requires Shaped(pattern, pre, width, suf) && FormatNumber(pattern, ctx, n) == Ok(number) && !IsDigit(c)
    ensures k == Count(CodeOf(ctx), c)
    ensures Count(number, c) == Marks(pre, c) + Marks(suf, c) + Times(Branches(pre) + Branches(suf), k)
  {
    NumberText(pattern, pre, width, suf, ctx, n);
    PadHasDigits(Decimal(n), Value(width));
    CountAroundDigits(Fill(pre, ctx, "").value, Pad(Decimal(n), Value(width)), Fill(suf, ctx, "").value, c);
    k := CountOfSides(pre, suf, ctx, c);
  }

  lemma {:induction false} CountAroundDigits(a: string, x: string, b: string, c: char)
    requires AllDigits(x) && !IsDigit(c)
    ensures Count(a + x + b, c) == Count(a, c) + Count(b, c)
  {
    NoDigitIn(x, c);
    CountJoin(a + x, b, c);
    CountJoin(a, x, c);
  }

  lemma {:induction false} CountOfSides(pre: seq<Piece>, suf: seq<Piece>, ctx: Context, c: char) returns (k: nat)
    requires AllFields(pre) && AllFields(suf) && Fill(pre, ctx, "").Ok? && Fill(suf, ctx, "").Ok? && !IsDigit(c)
    ensures k == Count(CodeOf(ctx), c)
    ensures Count(Fill(pre, ctx, "").value, c) + Count(Fill(suf, ctx, "").value, c) ==
      Marks(pre, c) + Marks(suf, c) + Times(Branches(pre) + Branches(suf), k)
  {
    CountShown(pre, ctx, c);
    CountShown(suf, ctx, c);
    k := Count(CodeOf(ctx), c);
    TimesJoin(Branches(pre), Branches(suf), k);
  }

  /** Text up to a separator that has a branch in front, or behind a separator that has a branch behind. */
  lemma SameCodeLength(pieces: seq<Piece>, ctx: Context, other: Context)
    requires AllFields(pieces) && UsualDates(ctx) && UsualDates(other) && Branches(pieces) >= 1
    requires Fill(pieces, ctx, "").Ok? && Fill(pieces, other, "").Ok?
    requires |Fill(pieces, ctx, "").value| == |Fill(pieces, other, "").value|
    ensures |CodeOf(ctx)| == |CodeOf(other)|
  {
    LengthShown(pieces, ctx, other);
    SameFactor(Branches(pieces), |CodeOf(ctx)|, |CodeOf(other)|);
  }

  lemma SeparatedInFront(pattern: string, p: seq<Piece>, l: Piece, r: seq<Piece>, width: string, suf: seq<Piece>,
                         ctx: Context, m: nat, other: Context, n: nat)
    requires Shaped(pattern, p + [l] + r, width, suf) && IsSeparator(l) && Branches(p) >= 1
    requires Usual(ctx) && Usual(other) && SameNumber(pattern, ctx, m, other, n)
    ensures |CodeOf(ctx)| == |CodeOf(other)|
  {
    var pre := p + [l] + r;
    assert forall q :: q in p ==> q in pre;
    BranchesOfJoin(p + [l], r);
    BranchesOfJoin(p, [l]);
    SameCount(pattern, pre, width, suf, ctx, m, other, n, FormatNumber(pattern, ctx, m).value, l.c);
    NumberText(pattern, pre, width, suf, ctx, m);
    NumberText(pattern, pre, width, suf, other, n);
    SideText(p, l, r, ctx);
    SideText(p, l, r, other);
    CountShown(p, ctx, l.c);
    CountShown(p, other, l.c);
    var a, otherA := Fill(p, ctx, "").value, Fill(p, other, "").value;
    var x, y := Pad(Decimal(m), Value(width)), Pad(Decimal(n), Value(width));
    var b := Fill(r, ctx, "").value + x + Fill(suf, ctx, "").value;
    var otherB := Fill(r, other, "").value + y + Fill(suf, other, "").value;
    Regrouped(a, l.c, Fill(r, ctx, "").value, x, Fill(suf, ctx, "").value);
    Regrouped(otherA, l.c, Fill(r, other, "").value, y, Fill(suf, other, "").value);
    SamePlace(a, l.c, b, otherA, otherB);
    SameCodeLength(p, ctx, other);
  }

  lemma Regrouped(a: string, c: char, r: string, x: string, e: string)
    ensures a + [c] + r + x + e == a + [c] + (r + x + e)
  {
  }

  lemma RegroupedBack(f: string, x: string, r: string, c: char, b: string)
    ensures f + x + (r + [c] + b) == (f + x + r) + [c] + b
  {
  }

  lemma SeparatedBehind(pattern: string, pre: seq<Piece>, width: string, r: seq<Piece>, l: Piece, p: seq<Piece>,
                        ctx: Context, m: nat, other: Context, n: nat)
    requires Shaped(pattern, pre, width, r + [l] + p) && IsSeparator(l) && Branches(p) >= 1
    requires Usual(ctx) && Usual(other) && SameNumber(pattern, ctx, m, other, n)
    ensures |CodeOf(ctx)| == |CodeOf(other)|
  {
    var suf := r + [l] + p;
    assert forall q :: q in p ==> q in suf;
    BranchesOfJoin(r + [l], p);
    SameCount(pattern, pre, width, suf, ctx, m, other, n, FormatNumber(pattern, ctx, m).value, l.c);
    NumberText(pattern, pre, width, suf, ctx, m);
    NumberText(pattern, pre, width, suf, other, n);
    SideText(r, l, p, ctx);
    SideText(r, l, p, other);
    CountShown(p, ctx, l.c);
    CountShown(p, other, l.c);
    var b, otherB := Fill(p, ctx, "").value, Fill(p, other, "").value;
    var x, y := Pad(Decimal(m), Value(width)), Pad(Decimal(n), Value(width));
    RegroupedBack(Fill(pre, ctx, "").value, x, Fill(r, ctx, "").value, l.c, b);
    RegroupedBack(Fill(pre, other, "").value, y, Fill(r, other, "").value, l.c, otherB);
    SamePlace(Fill(pre, ctx, "").value + x + Fill(r, ctx, "").value, l.c, b,
              Fill(pre, other, "").value + y + Fill(r, other, "").value, otherB);
    SameCodeLength(p, ctx, other);
  }

  /** Main result: a separator between any branch and the sequence is enough, for any number of branches. */
  lemma SeparatedTells(pattern: string, pre: seq<Piece>, width: string, suf: seq<Piece>)
    requires Shaped(pattern, pre, width, suf) && Separated(pre, suf)
    ensures Tells(pattern)
  {
    AcceptedIff(pattern);
    forall ctx, other, m: nat, n: nat | Usual(ctx) && Usual(other) && SameNumber(pattern, ctx, m, other, n)
      ensures NumberScope(pattern, ctx) == NumberScope(pattern, other) && m == n
    {
      SeparatedLengths(pattern, pre, width, suf, ctx, m, other, n);
      NumberTells(pattern, ctx, m, other, n);
    }
  }

  lemma SeparatedLengths(pattern: string, pre: seq<Piece>, width: string, suf: seq<Piece>,
                         ctx: Context, m: nat, other: Context, n: nat)
    requires Shaped(pattern, pre, width, suf) && Separated(pre, suf)
    requires Usual(ctx) && Usual(other) && SameNumber(pattern, ctx, m, other, n)
    ensures |CodeOf(ctx)| == |CodeOf(other)|
  {
    if i, k :| 0 <= i < k < |pre| && pre[i] == BRANCH && IsSeparator(pre[k]) {
      SplitAt(pre, k);
      SomeBranch(pre[..k], i);
      SeparatedInFront(pattern, pre[..k], pre[k], pre[k + 1..], width, suf, ctx, m, other, n);
    } else {
      var k, i :| 0 <= k < i < |suf| && IsSeparator(suf[k]) && suf[i] == BRANCH;
      SplitAt(suf, k);
      SomeBranch(suf[k + 1..], i - k - 1);
      SeparatedBehind(pattern, pre, width, suf[..k], suf[k], suf[k + 1..], ctx, m, other, n);
    }
  }

  lemma SplitAt(pieces: seq<Piece>, k: nat)
    requires k < |pieces|
    ensures pieces == pieces[..k] + [pieces[k]] + pieces[k + 1..]
  {
  }

  // ---- without one, numbers meet ------------------------------------------------------------------

  /** A sequence that is shown as these digits. */
  lemma ShownAs(s: string, width: nat)
    requires s != [] && AllDigits(s) && s[0] != '0' && |s| >= width
    ensures Pad(Decimal(Value(s)), width) == s
  {
    DecimalOfValue(s);
  }

  /** The code of another branch that is given a number of this one: {BRANCH} before the sequence. */
  function CodeBefore(code: string, mid: string): string {
    code + mid + "1"
  }

  function CodeAfter(code: string, mid: string): string {
    "1" + mid + code
  }

  function WithCode(ctx: Context, code: string): Context {
    ctx.(branchCode := Some(code))
  }

  lemma WithCodeUsual(ctx: Context, mid: string)
    requires Usual(ctx) && HasBranch(ctx) && AllDigits(mid)
    ensures Usual(WithCode(ctx, CodeBefore(ctx.branchCode.value, mid)))
    ensures Usual(WithCode(ctx, CodeAfter(ctx.branchCode.value, mid)))
  {
    var code := ctx.branchCode.value;
    forall c | c in CodeBefore(code, mid) || c in CodeAfter(code, mid) ensures IsUpper(c) || IsDigit(c) {
      assert c in code || c in mid || c == '1';
    }
  }

  lemma BranchText(a: seq<Piece>, b: seq<Piece>, ctx: Context)
    requires AllFields(a + [BRANCH] + b) && HasBranch(ctx)
    ensures Fill(a, ctx, "").Ok? && Fill(b, ctx, "").Ok?
    ensures Fill(a + [BRANCH] + b, ctx, "") ==
      Ok(Fill(a, ctx, "").value + ctx.branchCode.value + Fill(b, ctx, "").value)
  {
    assert forall p :: p in a || p in b ==> p in a + [BRANCH] + b;
    BranchFills(a, ctx);
    BranchFills(b, ctx);
    FillThree(a, BRANCH, b, ctx);
  }

  /** The same with another code, if {BRANCH} is nowhere else. */
  lemma OtherBranchText(a: seq<Piece>, b: seq<Piece>, ctx: Context, code: string)
    requires AllFields(a + [BRANCH] + b) && HasBranch(ctx) && IsCode(code) && BRANCH !in a && BRANCH !in b
    ensures Fill(a, ctx, "").Ok? && Fill(b, ctx, "").Ok?
    ensures Fill(a + [BRANCH] + b, WithCode(ctx, code), "") == Ok(Fill(a, ctx, "").value + code + Fill(b, ctx, "").value)
  {
    assert forall p :: p in a || p in b ==> p in a + [BRANCH] + b;
    BranchText(a, b, ctx);
    BranchText(a, b, WithCode(ctx, code));
    CodeNotShown(a, ctx, code);
    CodeNotShown(b, ctx, code);
  }

  lemma TextsBeforeMeet(a: string, code: string, mid: string, x: string, b: string)
    ensures a + code + mid + ("1" + mid + x) + b == a + CodeBefore(code, mid) + mid + x + b
    ensures a + code + mid + "{SEQ}" + b != a + CodeBefore(code, mid) + mid + "{SEQ}" + b
  {
    assert |a + code + mid + "{SEQ}" + b| < |a + CodeBefore(code, mid) + mid + "{SEQ}" + b|;
    var s := a + code + mid + "1" + mid + x + b;
    assert a + code + mid + ("1" + mid + x) + b == s;
    assert a + CodeBefore(code, mid) + mid + x + b == s;
  }

  lemma TextsAfterMeet(a: string, x: string, mid: string, code: string, b: string)
    ensures a + (x + mid + "1") + (mid + code + b) == a + x + (mid + CodeAfter(code, mid) + b)
    ensures a + "{SEQ}" + (mid + code + b) != a + "{SEQ}" + (mid + CodeAfter(code, mid) + b)
  {
    assert |a + "{SEQ}" + (mid + code + b)| < |a + "{SEQ}" + (mid + CodeAfter(code, mid) + b)|;
    var s := a + x + mid + "1" + mid + code + b;
    assert a + (x + mid + "1") + (mid + code + b) == s;
    assert a + x + (mid + CodeAfter(code, mid) + b) == s;
  }

  /**
   Only digits between the one branch and the sequence behind it: every code has one that meets it. In
   {BRANCH}{SEQ:1}, AB with sequence 11 meets AB1 with sequence 1.
   */
  lemma BranchBeforeMeets(pattern: string, a: seq<Piece>, near: seq<Piece>, width: string, suf: seq<Piece>, ctx: Context)
    returns (m: nat, n: nat)
    requires Shaped(pattern, a + [BRANCH] + near, width, suf) && OnlyDigits(near) && BRANCH !in a && BRANCH !in suf
    requires Usual(ctx) && HasBranch(ctx)
    ensures Fill(near, ctx, "").Ok?
    ensures var other := WithCode(ctx, CodeBefore(ctx.branchCode.value, Fill(near, ctx, "").value));
      && Usual(other) && SameNumber(pattern, ctx, m, other, n)
      && NumberScope(pattern, ctx) != NumberScope(pattern, other)
    ensures m >= 1 && n >= 1
    ensures m == Value("1" + Fill(near, ctx, "").value + Ones(Value(width))) && n == Value(Ones(Value(width)))
  {
    var w, code := Value(width), ctx.branchCode.value;
    DigitsShown(near, ctx);
    var mid := Fill(near, ctx, "").value;
    WithCodeUsual(ctx, mid);
    var other := WithCode(ctx, CodeBefore(code, mid));
    var x := "1" + mid + Ones(w);
    m, n := Value(x), Value(Ones(w));
    ShownAs(x, w);
    ShownAs(Ones(w), w);
    DecimalOfValue(x);
    DecimalOfValue(Ones(w));
    BranchText(a, near, ctx);
    BranchFills(suf, ctx);
    OtherBranchText(a, near, ctx, CodeBefore(code, mid));
    CodeNotShown(suf, ctx, CodeBefore(code, mid));
    NumberText(pattern, a + [BRANCH] + near, width, suf, ctx, m);
    NumberText(pattern, a + [BRANCH] + near, width, suf, other, n);
    TextsBeforeMeet(Fill(a, ctx, "").value, code, mid, Ones(w), Fill(suf, ctx, "").value);
  }

  lemma BranchAfterMeets(pattern: string, pre: seq<Piece>, width: string, near: seq<Piece>, b: seq<Piece>, ctx: Context)
    returns (m: nat, n: nat)
    requires Shaped(pattern, pre, width, near + [BRANCH] + b) && OnlyDigits(near) && BRANCH !in pre && BRANCH !in b
    requires Usual(ctx) && HasBranch(ctx)
    ensures Fill(near, ctx, "").Ok?
    ensures var other := WithCode(ctx, CodeAfter(ctx.branchCode.value, Fill(near, ctx, "").value));
      && Usual(other) && SameNumber(pattern, ctx, m, other, n)
      && NumberScope(pattern, ctx) != NumberScope(pattern, other)
    ensures m >= 1 && n >= 1
  {
    var w, code := Value(width), ctx.branchCode.value;
    DigitsShown(near, ctx);
    var mid := Fill(near, ctx, "").value;
    WithCodeUsual(ctx, mid);
    var other := WithCode(ctx, CodeAfter(code, mid));
    var x := Ones(w) + mid + "1";
    m, n := Value(x), Value(Ones(w));
    ShownAs(x, w);
    ShownAs(Ones(w), w);
    DecimalOfValue(x);
    DecimalOfValue(Ones(w));
    BranchText(near, b, ctx);
    BranchFills(pre, ctx);
    OtherBranchText(near, b, ctx, CodeAfter(code, mid));
    CodeNotShown(pre, ctx, CodeAfter(code, mid));
    NumberText(pattern, pre, width, near + [BRANCH] + b, ctx, m);
    NumberText(pattern, pre, width, near + [BRANCH] + b, other, n);
    TextsAfterMeet(Fill(pre, ctx, "").value, Ones(w), mid, code, Fill(b, ctx, "").value);
  }

  /** Branches, date fields and digits: with a code of digits, what is shown is digits only. */
  predicate Running(pieces: seq<Piece>) {
    forall p :: p in pieces ==> IsField(p) && !IsSeparator(p)
  }

  lemma {:induction false} RunningShown(pieces: seq<Piece>, ctx: Context)
    requires Running(pieces) && HasBranch(ctx) && AllDigits(ctx.branchCode.value)
    ensures Fill(pieces, ctx, "").Ok? && AllDigits(Fill(pieces, ctx, "").value)
  {
    if pieces != [] {
      assert pieces[0] in pieces;
      RunningShown(pieces[1..], ctx);
      PadHasDigits(Decimal(ctx.year % 100), 2);
      PadHasDigits(Decimal(ctx.month), 2);
    }
  }

  /** From the first branch on. */
  lemma {:induction false} FromFirstBranch(pre: seq<Piece>) returns (p: seq<Piece>, f: seq<Piece>)
    ensures pre == p + f && BRANCH !in p && (f == [] || f[0] == BRANCH)
    ensures f == [] <==> Branches(pre) == 0
  {
    if pre == [] || pre[0] == BRANCH {
      p, f := [], pre;
    } else {
      p, f := FromFirstBranch(pre[1..]);
      p := [pre[0]] + p;
    }
  }

  /** Up to the last branch. */
  lemma {:induction false} UpToLastBranch(suf: seq<Piece>) returns (g: seq<Piece>, r: seq<Piece>)
    ensures suf == g + r && BRANCH !in r && (g == [] || g[|g| - 1] == BRANCH)
    ensures g == [] <==> Branches(suf) == 0
  {
    if suf == [] {
      g, r := [], [];
    } else {
      g, r := UpToLastBranch(suf[1..]);
      if g != [] || suf[0] == BRANCH {
        g := [suf[0]] + g;
      } else {
        r := [suf[0]] + r;
        assert suf == r;
      }
    }
  }

  lemma RunningParts(p: seq<Piece>, f: seq<Piece>, g: seq<Piece>, r: seq<Piece>)
    requires AllFields(p + f) && AllFields(g + r) && !Separated(p + f, g + r)
    requires (f == [] || f[0] == BRANCH) && (g == [] || g[|g| - 1] == BRANCH)
    ensures Running(f) && Running(g)
  {
    var pre, suf := p + f, g + r;
    forall i | 0 <= i < |f| ensures IsField(f[i]) && !IsSeparator(f[i]) {
      assert pre[|p| + i] == f[i] && pre[|p|] == f[0];
      assert f[i] in pre;
    }
    forall i | 0 <= i < |g| ensures IsField(g[i]) && !IsSeparator(g[i]) {
      assert suf[i] == g[i] && suf[|g| - 1] == g[|g| - 1];
      assert g[i] in suf;
    }
  }

  /** A part that begins with a branch begins with its code; what follows the old part leads with a one. */
  lemma FrontGrows(f: seq<Piece>, ctx: Context, q: string) returns (more: string)
    requires Running(f) && (f == [] || f[0] == BRANCH) && HasBranch(ctx)
    requires AllDigits(ctx.branchCode.value) && AllDigits(q) && Fill(f, ctx, "").Ok? && AllDigits(Fill(f, ctx, "").value)
    ensures var was := Fill(f, ctx, "").value;
      var now := Fill(f, WithCode(ctx, was + "1" + q), "");
      && now == Ok(was + more) && AllDigits(more) && (f == [] ==> more == "") && (f != [] ==> more != "" && more[0] == '1')
  {
    var was := Fill(f, ctx, "").value;
    var code := was + "1" + q;
    var other := WithCode(ctx, code);
    if f == [] {
      more := "";
      assert Fill(f, other, "") == Ok("") && was + more == "";
    } else {
      assert Running(f[1..]);
      JoinDigits(was, "1", q);
      RunningShown(f[1..], other);
      var rest := Fill(f[1..], other, "").value;
      more := "1" + q + rest;
      JoinDigits("1", q, rest);
      assert code + rest == was + more;
      assert HasBranch(other) && Fill(f, other, "") == Append(Ok(code), Ok(rest));
    }
  }

  /** A part that ends with a branch ends with its code. */
  lemma BackGrows(g: seq<Piece>, ctx: Context, q: string) returns (more: string)
    requires Running(g) && (g == [] || g[|g| - 1] == BRANCH) && HasBranch(ctx)
    requires AllDigits(ctx.branchCode.value) && AllDigits(q) && Fill(g, ctx, "").Ok? && AllDigits(Fill(g, ctx, "").value)
    ensures var was := Fill(g, ctx, "").value;
      var now := Fill(g, WithCode(ctx, q + "1" + was), "");
      && now == Ok(more + was) && AllDigits(more) && (g == [] <==> more == "")
  {
    var was := Fill(g, ctx, "").value;
    var code := q + "1" + was;
    var other := WithCode(ctx, code);
    if g == [] {
      more := "";
      assert Fill(g, other, "") == Ok("") && more + was == "";
    } else {
      var front := g[..|g| - 1];
      assert g == front + [BRANCH] && Running(front);
      JoinDigits(q, "1", was);
      RunningShown(front, other);
      FillSplit(front, [BRANCH], other, "");
      assert [BRANCH][1..] == [] && Fill([], other, "") == Ok("");
      AppendNothing(Ok(code));
      more := Fill(front, other, "").value + q + "1";
      JoinDigits(Fill(front, other, "").value, q, "1");
      assert HasBranch(other) && Fill([BRANCH], other, "") == Ok(code);
      assert Fill(front, other, "").value + code == more + was;
    }
  }

  lemma JoinDigits(a: string, b: string, c: string)
    requires AllDigits(a) && AllDigits(b) && AllDigits(c)
    ensures AllDigits(a + b + c)
  {
  }

  lemma DigitsAreUsual(ctx: Context, code: string)
    requires Usual(ctx) && AllDigits(code) && code != ""
    ensures Usual(WithCode(ctx, code)) && HasBranch(WithCode(ctx, code))
  {
  }

  lemma TextsMeet(a: string, p: string, f: string, y: string, g: string, q: string, b: string)
    ensures (a + p) + (f + y + g) + (q + b) == (a + (p + f)) + y + ((g + q) + b)
    ensures f + g != "" ==> (a + p) + "{SEQ}" + (q + b) != (a + (p + f)) + "{SEQ}" + ((g + q) + b)
  {
    var s := a + p + f + y + g + q + b;
    assert (a + p) + (f + y + g) + (q + b) == s == (a + (p + f)) + y + ((g + q) + b);
    assert |(a + (p + f)) + "{SEQ}" + ((g + q) + b)| == |(a + p) + "{SEQ}" + (q + b)| + |f| + |g|;
  }

  lemma PartText(p: seq<Piece>, f: seq<Piece>, ctx: Context)
    requires AllFields(p + f) && HasBranch(ctx)
    ensures Fill(p, ctx, "").Ok? && Fill(f, ctx, "").Ok?
    ensures Fill(p + f, ctx, "") == Ok(Fill(p, ctx, "").value + Fill(f, ctx, "").value)
  {
    assert forall q :: q in p || q in f ==> q in p + f;
    BranchFills(p, ctx);
    BranchFills(f, ctx);
    FillSplit(p, f, ctx, "");
  }

  /** What a pattern shows in front of and behind the sequence, with branches in the running parts only. */
  lemma NumberOfParts(pattern: string, p: seq<Piece>, f: seq<Piece>, width: string, g: seq<Piece>, r: seq<Piece>, ctx: Context, n: nat)
    requires Shaped(pattern, p + f, width, g + r) && HasBranch(ctx)
    ensures Fill(p, ctx, "").Ok? && Fill(f, ctx, "").Ok? && Fill(g, ctx, "").Ok? && Fill(r, ctx, "").Ok?
    ensures var a, b := Fill(p, ctx, "").value + Fill(f, ctx, "").value, Fill(g, ctx, "").value + Fill(r, ctx, "").value;
      && NumberScope(pattern, ctx) == Ok(a + "{SEQ}" + b)
      && FormatNumber(pattern, ctx, n) == Ok(a + Pad(Decimal(n), Value(width)) + b)
  {
    PartText(p, f, ctx);
    PartText(g, r, ctx);
    NumberText(pattern, p + f, width, g + r, ctx, n);
  }

  /**
   Every branch runs together with the sequence: the code that the first branch up to the sequence, a one,
   and the sequence up to the last branch make together, as they are shown with a code of digits, shares a
   number with that code.
   */
  lemma RunningMeets(pattern: string, p: seq<Piece>, f: seq<Piece>, width: string, g: seq<Piece>, r: seq<Piece>, ctx: Context)
    returns (m: nat, n: nat)
    requires Shaped(pattern, p + f, width, g + r) && Running(f) && Running(g) && f + g != []
    requires BRANCH !in p && (f == [] || f[0] == BRANCH) && BRANCH !in r && (g == [] || g[|g| - 1] == BRANCH)
    requires Usual(ctx) && HasBranch(ctx) && AllDigits(ctx.branchCode.value)
    ensures Fill(f, ctx, "").Ok? && Fill(g, ctx, "").Ok?
    ensures var other := WithCode(ctx, Fill(f, ctx, "").value + "1" + Fill(g, ctx, "").value);
      && Usual(other) && SameNumber(pattern, ctx, m, other, n) && m >= 1 && n >= 1
      && NumberScope(pattern, ctx) != NumberScope(pattern, other)
  {
    RunningShown(f, ctx);
    RunningShown(g, ctx);
    var front, back := Fill(f, ctx, "").value, Fill(g, ctx, "").value;
    var code := front + "1" + back;
    JoinDigits(front, "1", back);
    var other := WithCode(ctx, code);
    DigitsAreUsual(ctx, code);
    var f2 := FrontGrows(f, ctx, back);
    var g2 := BackGrows(g, ctx, front);
    var y := Ones(Value(width));
    var x := f2 + y + g2;
    JoinDigits(f2, y, g2);
    assert x[0] == '1';
    m, n := Value(x), Value(y);
    ShownAs(x, Value(width));
    ShownAs(y, Value(width));
    DecimalOfValue(x);
    DecimalOfValue(y);
    NumberOfParts(pattern, p, f, width, g, r, ctx, m);
    NumberOfParts(pattern, p, f, width, g, r, other, n);
    assert AllFields(p) && AllFields(r) by {
      assert forall q :: (q in p ==> q in p + f) && (q in r ==> q in g + r);
    }
    CodeNotShown(p, ctx, code);
    CodeNotShown(r, ctx, code);
    TextsMeet(Fill(p, ctx, "").value, front, f2, y, g2, back, Fill(r, ctx, "").value);
  }

  // ---- exactly when -----------------------------------------------------------------------------

  /** If no separator stands anywhere, two scopes share a number, and both sequences are ones that are issued. */
  lemma Meeting(pattern: string, pre: seq<Piece>, width: string, suf: seq<Piece>)
    returns (ctx: Context, other: Context, m: nat, n: nat)
    requires Shaped(pattern, pre, width, suf) && Branches(pre) + Branches(suf) >= 1 && !Separated(pre, suf)
    ensures Usual(ctx) && Usual(other) && m >= 1 && n >= 1 && SameNumber(pattern, ctx, m, other, n)
    ensures NumberScope(pattern, ctx) != NumberScope(pattern, other)
  {
    ctx := Context(2026, 9, 2026, Some("1"));
    var p, f := FromFirstBranch(pre);
    var g, r := UpToLastBranch(suf);
    RunningParts(p, f, g, r);
    m, n := RunningMeets(pattern, p, f, width, g, r, ctx);
    other := WithCode(ctx, Fill(f, ctx, "").value + "1" + Fill(g, ctx, "").value);
  }

  /**
   Main result: under an accepted pattern with branches, however many and wherever, a number determines its
   scope and sequence, for branch codes of letters and digits of any lengths, exactly when a literal that
   is not a digit stands between some branch and {SEQ:n}.
   */
  lemma NumberTellsIff(pattern: string, pre: seq<Piece>, width: string, suf: seq<Piece>)
    requires Shaped(pattern, pre, width, suf) && Branches(pre) + Branches(suf) >= 1
    ensures Tells(pattern) <==> Separated(pre, suf)
  {
    if Separated(pre, suf) {
      SeparatedTells(pattern, pre, width, suf);
    } else {
      var ctx, other, m, n := Meeting(pattern, pre, width, suf);
    }
  }

  /** Under a pattern without {BRANCH} it always does. */
  lemma NoBranchTells(pattern: string)
    requires ProblemOf(Tokens(pattern)).None? && !PatternUsesBranch(pattern)
    ensures Tells(pattern)
  {
    forall ctx, other, m: nat, n: nat
      | Usual(ctx) && Usual(other) && SameNumber(pattern, ctx, m, other, n)
      ensures NumberScope(pattern, ctx) == NumberScope(pattern, other) && m == n
    {
      NumberTells(pattern, ctx, m, other, n);
    }
  }
}

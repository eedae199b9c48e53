/**
 Branch codes as the database admits them, of 2 to 10 letters and digits. A code can only reach so far: a
 pattern without a separator between branch and sequence still leaves every scope its next number if what
 stands there cannot be shifted against itself by the difference of two code lengths.
 */
module BranchCodes {
  import opened Options
  import opened Digits
  import opened Numbering
  import opened NumberUniqueness
  import opened NumberScopes
  import opened NumberCounters

  predicate ShortCode(ctx: Context) {
    ctx.branchCode.Some? ==> 2 <= |ctx.branchCode.value| <= 10
  }

  /** A series that keeps one pattern, for branches the database admits. */
  function Admitted(pattern: string): Uses {
    (p: string, ctx: Context) => p == pattern && ShortCode(ctx)
  }

  /** A series that does less is blocked no more. */
  lemma FewerUses(uses: Uses, more: Uses)
    requires NeverBlocked(more) && forall pattern, ctx :: uses(pattern, ctx) ==> more(pattern, ctx)
    ensures NeverBlocked(uses)
  {
  }

  lemma SeparatedNeverBlocked(pattern: string, pre: seq<Piece>, width: string, suf: seq<Piece>)
    requires Shaped(pattern, pre, width, suf) && Separated(pre, suf)
    ensures NeverBlocked(Admitted(pattern))
  {
    SeparatedTells(pattern, pre, width, suf);
    NotBlockedIfTold(pattern);
    FewerUses(Admitted(pattern), OnePattern(pattern));
  }

  /**
   However many branches: with no separator, and at most nine characters from the first branch up to the
   sequence and from there up to the last one, a code counting for two, a scope can be blocked.
   */
  lemma CloseBranchesBlock(pattern: string, p: seq<Piece>, f: seq<Piece>, width: string, g: seq<Piece>, r: seq<Piece>, ctx: Context)
    requires Shaped(pattern, p + f, width, g + r) && !Separated(p + f, g + r) && f + g != []
    requires BRANCH !in p && (f == [] || f[0] == BRANCH) && BRANCH !in r && (g == [] || g[|g| - 1] == BRANCH)
    requires Usual(ctx) && ctx.branchCode == Some("11")
    requires Fill(f, ctx, "").Ok? && Fill(g, ctx, "").Ok? && |Fill(f, ctx, "").value| + |Fill(g, ctx, "").value| <= 9
    ensures !NeverBlocked(Admitted(pattern))
  {
    RunningParts(p, f, g, r);
    AcceptedIff(pattern);
    var m, n := RunningMeets(pattern, p, f, width, g, r, ctx);
    var code := Fill(f, ctx, "").value + "1" + Fill(g, ctx, "").value;
    assert |code| >= 2 by {
      AtLeastTheCode(f, ctx);
      AtLeastTheCode(g, ctx);
    }
    MeetingClash(pattern, ctx, m, WithCode(ctx, code), n);
    ClashBlocks(Admitted(pattern), pattern, ctx, pattern, WithCode(ctx, code));
  }

  lemma {:induction false} AtLeastTheCode(pieces: seq<Piece>, ctx: Context)
    requires Fill(pieces, ctx, "").Ok? && ctx.branchCode == Some("11")
    ensures BRANCH in pieces ==> |Fill(pieces, ctx, "").value| >= 2
  {
    if pieces != [] && pieces[0] != BRANCH {
      AtLeastTheCode(pieces[1..], ctx);
    }
  }

  // ---- one branch in front of the sequence --------------------------------------------------------

  /** Digits between branch and sequence, of two contexts, that fit each other shifted by k. */
  predicate SlideBefore(mid: string, other: string, k: nat)
    requires |mid| == |other| && k >= 1
  {
    k > |mid| || (mid[k..] <= other && other[|mid| - k] != '0')
  }

  predicate SlideAfter(mid: string, other: string, k: nat)
    requires |mid| == |other|
  {
    k > |mid| || other[k..] <= mid
  }

  predicate SameDigits(near: seq<Piece>, ctx: Context, other: Context) {
    && Fill(near, ctx, "").Ok? && Fill(near, other, "").Ok?
    && |Fill(near, ctx, "").value| == |Fill(near, other, "").value|
  }

  /** Two dates that show the same away from the sequence, and between fit each other shifted by 1 to 8. */
  ghost predicate SlidesBefore(a: seq<Piece>, near: seq<Piece>, suf: seq<Piece>) {
    exists ctx, other, k ::
      && Slid(a, near, suf, ctx, other, k)
      && SlideBefore(Fill(near, ctx, "").value, Fill(near, other, "").value, k)
  }

  ghost predicate SlidesAfter(pre: seq<Piece>, near: seq<Piece>, b: seq<Piece>) {
    exists ctx, other, k ::
      && Slid(pre, near, b, ctx, other, k)
      && SlideAfter(Fill(near, ctx, "").value, Fill(near, other, "").value, k)
  }

  predicate Slid(a: seq<Piece>, near: seq<Piece>, b: seq<Piece>, ctx: Context, other: Context, k: int) {
    && 1 <= k <= 8 && UsualDates(ctx) && UsualDates(other) && SameDigits(near, ctx, other)
    && Fill(a, ctx, "").Ok? && Fill(a, ctx, "") == Fill(a, other, "")
    && Fill(b, ctx, "").Ok? && Fill(b, ctx, "") == Fill(b, other, "")
  }

  /** A number of a pattern with one branch in front of the sequence. */
  lemma NumberBefore(pattern: string, a: seq<Piece>, near: seq<Piece>, width: string, suf: seq<Piece>, ctx: Context, n: nat)
    requires Shaped(pattern, a + [BRANCH] + near, width, suf) && HasBranch(ctx)
    ensures Fill(a, ctx, "").Ok? && Fill(near, ctx, "").Ok? && Fill(suf, ctx, "").Ok?
    ensures FormatNumber(pattern, ctx, n) == Ok(Fill(a, ctx, "").value + ctx.branchCode.value + Fill(near, ctx, "").value
      + Pad(Decimal(n), Value(width)) + Fill(suf, ctx, "").value)
  {
    BranchText(a, near, ctx);
    BranchFills(suf, ctx);
    NumberText(pattern, a + [BRANCH] + near, width, suf, ctx, n);
  }

  lemma NumberAfter(pattern: string, pre: seq<Piece>, width: string, near: seq<Piece>, b: seq<Piece>, ctx: Context, n: nat)
    requires Shaped(pattern, pre, width, near + [BRANCH] + b) && HasBranch(ctx)
    ensures Fill(pre, ctx, "").Ok? && Fill(near, ctx, "").Ok? && Fill(b, ctx, "").Ok?
    ensures FormatNumber(pattern, ctx, n) == Ok(Fill(pre, ctx, "").value + Pad(Decimal(n), Value(width)) + Fill(near, ctx, "").value
      + ctx.branchCode.value + Fill(b, ctx, "").value)
  {
    BranchText(near, b, ctx);
    BranchFills(pre, ctx);
    NumberText(pattern, pre, width, near + [BRANCH] + b, ctx, n);
    FiveParts(Fill(pre, ctx, "").value, Pad(Decimal(n), Value(width)), Fill(near, ctx, "").value, ctx.branchCode.value, Fill(b, ctx, "").value);
  }

  lemma FiveParts(a: string, x: string, mid: string, c: string, b: string)
    ensures a + x + (mid + c + b) == a + x + mid + c + b
  {
  }

  /** The texts of two numbers whose codes differ in length by k. */
  lemma TextSlidesBefore(a: string, c: string, mid: string, x: string, b: string,
                         a2: string, c2: string, mid2: string, y: string, b2: string, width: nat)
    requires a + c + mid + x + b == a2 + c2 + mid2 + y + b2
    requires |a| == |a2| && |mid| == |mid2| && |b| == |b2| && |c| < |c2| && IsShown(x, width) && IsShown(y, width)
    ensures a == a2 && b == b2 && SlideBefore(mid, mid2, |c2| - |c|)
  {
    assert a + c + mid + x + b == a + (c + mid + x) + b && a2 + c2 + mid2 + y + b2 == a2 + (c2 + mid2 + y) + b2;
    EqualParts(a, c + mid + x, b, a2, c2 + mid2 + y, b2);
    var s, k, g := c + mid + x, |c2| - |c|, |mid|;
    if k <= g {
      MidOf(c, mid, x);
      MidOf(c2, mid2, y);
      assert s[|c2|..|c| + g] == mid[k..] == mid2[..g - k];
      assert s[|c| + g] == x[0] && s[|c2| + (g - k)] == mid2[g - k];
    }
  }

  lemma MidOf(c: string, mid: string, x: string)
    ensures var s := c + mid + x;
      && (forall i :: 0 <= i < |mid| ==> s[|c| + i] == mid[i])
      && (forall i, j :: 0 <= i <= j <= |mid| ==> s[|c| + i..|c| + j] == mid[i..j])
      && (x != "" ==> s[|c| + |mid|] == x[0])
  {
    var s := c + mid + x;
    forall i, j | 0 <= i <= j <= |mid| ensures s[|c| + i..|c| + j] == mid[i..j] {}
  }

  lemma TextSlidesAfter(a: string, x: string, mid: string, c: string, b: string,
                        a2: string, y: string, mid2: string, c2: string, b2: string)
    requires a + x + mid + c + b == a2 + y + mid2 + c2 + b2
    requires |a| == |a2| && |mid| == |mid2| && |b| == |b2| && |c| < |c2|
    ensures a == a2 && b == b2 && SlideAfter(mid, mid2, |c2| - |c|)
  {
    assert a + x + mid + c + b == a + (x + mid + c) + b && a2 + y + mid2 + c2 + b2 == a2 + (y + mid2 + c2) + b2;
    EqualParts(a, x + mid + c, b, a2, y + mid2 + c2, b2);
    var s, k, g := x + mid + c, |c2| - |c|, |mid|;
    if k <= g {
      MidOf(x, mid, c);
      MidOf(y, mid2, c2);
      assert |x| == |y| + k;
      assert s[|x|..|y| + g] == mid2[k..] == mid[..g - k];
    }
  }

  /** Scopes that clash have codes of different lengths, and what both show tells the shift. */
  lemma ClashNeedsBranch(pattern: string, ctx: Context, other: Context)
    requires Clash(pattern, ctx, pattern, other) && PatternUsesBranch(pattern)
    ensures HasBranch(ctx) && HasBranch(other) && |ctx.branchCode.value| != |other.branchCode.value|
  {
    var m, n := ClashShares(pattern, ctx, pattern, other);
    FailsIff(pattern, ctx, m);
    FailsIff(pattern, other, n);
    if |ctx.branchCode.value| == |other.branchCode.value| {
      NumberTells(pattern, ctx, m, other, n);
    }
  }

  lemma SameNearLength(near: seq<Piece>, ctx: Context, other: Context)
    requires OnlyDigits(near) && UsualDates(ctx) && UsualDates(other)
    ensures SameDigits(near, ctx, other)
  {
    DigitsShown(near, ctx);
    DigitsShown(near, other);
    SameLength(near, ctx, other);
  }

  lemma ClashSlidesBefore(pattern: string, a: seq<Piece>, near: seq<Piece>, width: string, suf: seq<Piece>,
                          ctx: Context, m: nat, other: Context, n: nat)
    requires Shaped(pattern, a + [BRANCH] + near, width, suf) && OnlyDigits(near) && BRANCH !in a && BRANCH !in suf
    requires Usual(ctx) && Usual(other) && ShortCode(ctx) && ShortCode(other) && HasBranch(ctx) && HasBranch(other)
    requires |ctx.branchCode.value| < |other.branchCode.value| && m >= 1 && n >= 1 && SameNumber(pattern, ctx, m, other, n)
    ensures SlidesBefore(a, near, suf)
  {
    var w := Value(width);
    NumberBefore(pattern, a, near, width, suf, ctx, m);
    NumberBefore(pattern, a, near, width, suf, other, n);
    SameNearLength(near, ctx, other);
    assert forall q :: q in a ==> q in a + [BRANCH] + near;
    SameLength(a, ctx, other);
    SameLength(suf, ctx, other);
    SequenceIsShown(m, w);
    SequenceIsShown(n, w);
    TextSlidesBefore(Fill(a, ctx, "").value, ctx.branchCode.value, Fill(near, ctx, "").value, Pad(Decimal(m), w), Fill(suf, ctx, "").value,
                     Fill(a, other, "").value, other.branchCode.value, Fill(near, other, "").value, Pad(Decimal(n), w), Fill(suf, other, "").value, w);
    assert Slid(a, near, suf, ctx, other, |other.branchCode.value| - |ctx.branchCode.value|);
  }

  lemma ClashSlidesAfter(pattern: string, pre: seq<Piece>, width: string, near: seq<Piece>, b: seq<Piece>,
                         ctx: Context, m: nat, other: Context, n: nat)
    requires Shaped(pattern, pre, width, near + [BRANCH] + b) && OnlyDigits(near) && BRANCH !in pre && BRANCH !in b
    requires Usual(ctx) && Usual(other) && ShortCode(ctx) && ShortCode(other) && HasBranch(ctx) && HasBranch(other)
    requires |ctx.branchCode.value| < |other.branchCode.value| && m >= 1 && n >= 1 && SameNumber(pattern, ctx, m, other, n)
    ensures SlidesAfter(pre, near, b)
  {
    var w := Value(width);
    NumberAfter(pattern, pre, width, near, b, ctx, m);
    NumberAfter(pattern, pre, width, near, b, other, n);
    SameNearLength(near, ctx, other);
    assert forall q :: q in b ==> q in near + [BRANCH] + b;
    SameLength(pre, ctx, other);
    SameLength(b, ctx, other);
    TextSlidesAfter(Fill(pre, ctx, "").value, Pad(Decimal(m), w), Fill(near, ctx, "").value, ctx.branchCode.value, Fill(b, ctx, "").value,
                    Fill(pre, other, "").value, Pad(Decimal(n), w), Fill(near, other, "").value, other.branchCode.value, Fill(b, other, "").value);
    assert Slid(pre, near, b, ctx, other, |other.branchCode.value| - |ctx.branchCode.value|);
  }

  // ---- and back -----------------------------------------------------------------------------------

  /** What the longer code and the longer sequence have more. */
  function MoreBefore(mid: string, k: nat): string {
    if k <= |mid| then mid[..k] else mid + Ones(k - |mid|)
  }

  function LeadBefore(mid: string, other: string, k: nat): string
    requires |mid| == |other|
  {
    if k <= |mid| then other[|mid| - k..] else Ones(k - |mid|) + other
  }

  lemma SlidTextsBefore(mid: string, other: string, k: nat)
    requires |mid| == |other| && 1 <= k && SlideBefore(mid, other, k) && AllDigits(mid) && AllDigits(other)
    ensures var u, lead := MoreBefore(mid, k), LeadBefore(mid, other, k);
      && |u| == |lead| == k && AllDigits(u) && AllDigits(lead) && lead[0] != '0' && mid + lead == u + other
  {
    if k <= |mid| {
      assert mid == mid[..k] + mid[k..] && other == other[..|mid| - k] + other[|mid| - k..];
      assert mid[k..] == other[..|mid| - k];
      PartsAreDigits(mid, k);
      PartsAreDigits(other, |mid| - k);
    } else {
      assert AllDigits(mid + Ones(k - |mid|)) && AllDigits(Ones(k - |mid|) + other);
    }
  }

  lemma PartsAreDigits(s: string, k: nat)
    requires AllDigits(s) && k <= |s|
    ensures AllDigits(s[..k]) && AllDigits(s[k..])
  {
  }

  function MoreAfter(mid: string, k: nat): string {
    if k <= |mid| then mid[|mid| - k..] else Ones(k - |mid|) + mid
  }

  function TailAfter(mid: string, other: string, k: nat): string
    requires |mid| == |other|
  {
    if k <= |mid| then other[..k] else other + Ones(k - |mid|)
  }

  lemma SlidTextsAfter(mid: string, other: string, k: nat)
    requires |mid| == |other| && 1 <= k && SlideAfter(mid, other, k) && AllDigits(mid) && AllDigits(other)
    ensures var u, tail := MoreAfter(mid, k), TailAfter(mid, other, k);
      && |u| == |tail| == k && AllDigits(u) && AllDigits(tail) && tail + mid == other + u
  {
    if k <= |mid| {
      assert other == other[..k] + other[k..] && mid == mid[..|mid| - k] + mid[|mid| - k..];
      assert other[k..] == mid[..|mid| - k];
      PartsAreDigits(mid, |mid| - k);
      PartsAreDigits(other, k);
    } else {
      assert AllDigits(other + Ones(k - |mid|)) && AllDigits(Ones(k - |mid|) + mid);
    }
  }

  lemma CodeIsShort(ctx: Context, u: string)
    requires UsualDates(ctx) && AllDigits(u) && |u| <= 8
    ensures var c, d := WithCode(ctx, "AB" + u), WithCode(ctx, u + "AB");
      && Usual(c) && HasBranch(c) && ShortCode(c) && Usual(d) && HasBranch(d) && ShortCode(d)
  {
    assert forall ch :: ch in "AB" + u ==> ch in "AB" || ch in u;
    assert forall ch :: ch in u + "AB" ==> ch in "AB" || ch in u;
  }

  lemma SlidNumbersBefore(pattern: string, a: seq<Piece>, near: seq<Piece>, width: string, suf: seq<Piece>,
                          ctx: Context, other: Context, u: string, lead: string, y: string, m: nat, n: nat)
    requires Shaped(pattern, a + [BRANCH] + near, width, suf) && BRANCH !in a && BRANCH !in near && BRANCH !in suf
    requires Fill(a, ctx, "") == Fill(a, other, "") && Fill(suf, ctx, "") == Fill(suf, other, "")
    requires Fill(near, ctx, "").Ok? && Fill(near, other, "").Ok?
    requires Fill(near, ctx, "").value + lead == u + Fill(near, other, "").value
    requires Pad(Decimal(m), Value(width)) == lead + y && Pad(Decimal(n), Value(width)) == y
    ensures SameNumber(pattern, WithCode(ctx, "AB" + ""), m, WithCode(other, "AB" + u), n)
  {
    var c, d := WithCode(ctx, "AB" + ""), WithCode(other, "AB" + u);
    assert AllFields(a) && AllFields(near) by {
      assert forall q :: q in a || q in near ==> q in a + [BRANCH] + near;
    }
    CodesNotShown(a, near, suf, ctx, "AB" + "");
    CodesNotShown(a, near, suf, other, "AB" + u);
    NumberBefore(pattern, a, near, width, suf, c, m);
    NumberBefore(pattern, a, near, width, suf, d, n);
    SameTextBefore(Fill(a, ctx, "").value, Fill(near, ctx, "").value, lead, y, u, Fill(near, other, "").value, Fill(suf, ctx, "").value);
  }

  lemma SlideClashesBefore(pattern: string, a: seq<Piece>, near: seq<Piece>, width: string, suf: seq<Piece>,
                           ctx: Context, other: Context, k: nat)
    requires Shaped(pattern, a + [BRANCH] + near, width, suf) && OnlyDigits(near) && BRANCH !in a && BRANCH !in suf
    requires Slid(a, near, suf, ctx, other, k) && SlideBefore(Fill(near, ctx, "").value, Fill(near, other, "").value, k)
    ensures !NeverBlocked(Admitted(pattern))
  {
    var mid, mid2 := Fill(near, ctx, "").value, Fill(near, other, "").value;
    DigitsShown(near, ctx);
    DigitsShown(near, other);
    SlidTextsBefore(mid, mid2, k);
    var u, lead, y := MoreBefore(mid, k), LeadBefore(mid, mid2, k), Ones(Value(width));
    JoinDigits(lead, y, "");
    assert lead + y + "" == lead + y;
    var m, n := ShownPair(lead + y, y, Value(width));
    SlidNumbersBefore(pattern, a, near, width, suf, ctx, other, u, lead, y, m, n);
    CodeIsShort(ctx, "");
    CodeIsShort(other, u);
    AcceptedIff(pattern);
    DifferentCodesBlock(pattern, WithCode(ctx, "AB" + ""), m, WithCode(other, "AB" + u), n);
  }

  lemma ShownPair(x: string, y: string, width: nat) returns (m: nat, n: nat)
    requires AllDigits(x) && AllDigits(y) && x != "" && y != "" && x[0] != '0' && y[0] != '0' && |x| >= width && |y| >= width
    ensures m >= 1 && n >= 1 && Pad(Decimal(m), width) == x && Pad(Decimal(n), width) == y
  {
    m, n := Value(x), Value(y);
    ShownAs(x, width);
    ShownAs(y, width);
    DecimalOfValue(x);
    DecimalOfValue(y);
  }

  lemma CodesNotShown(a: seq<Piece>, near: seq<Piece>, b: seq<Piece>, ctx: Context, code: string)
    requires AllFields(a) && AllFields(near) && AllFields(b) && BRANCH !in a && BRANCH !in near && BRANCH !in b
    ensures var c := WithCode(ctx, code);
      && Fill(a, c, "") == Fill(a, ctx, "") && Fill(near, c, "") == Fill(near, ctx, "") && Fill(b, c, "") == Fill(b, ctx, "")
  {
    CodeNotShown(a, ctx, code);
    CodeNotShown(near, ctx, code);
    CodeNotShown(b, ctx, code);
  }

  lemma SameTextBefore(a: string, mid: string, lead: string, y: string, u: string, mid2: string, b: string)
    requires mid + lead == u + mid2
    ensures a + ("AB" + "") + mid + (lead + y) + b == a + ("AB" + u) + mid2 + y + b
  {
    assert a + ("AB" + "") + mid + (lead + y) + b == a + "AB" + (mid + lead) + y + b;
    assert a + ("AB" + u) + mid2 + y + b == a + "AB" + (u + mid2) + y + b;
  }

  lemma SameTextAfter(a: string, y: string, tail: string, mid: string, mid2: string, u: string, b: string)
    requires tail + mid == mid2 + u
    ensures a + (y + tail) + mid + ("" + "AB") + b == a + y + mid2 + (u + "AB") + b
  {
    assert a + (y + tail) + mid + ("" + "AB") + b == a + y + (tail + mid) + "AB" + b;
    assert a + y + mid2 + (u + "AB") + b == a + y + (mid2 + u) + "AB" + b;
  }

  /** One number under codes of different lengths is a number of two scopes. */
  lemma DifferentCodesBlock(pattern: string, ctx: Context, m: nat, other: Context, n: nat)
    requires ProblemOf(Tokens(pattern)).None? && Usual(ctx) && Usual(other) && ShortCode(ctx) && ShortCode(other)
    requires m != n && m >= 1 && n >= 1 && SameNumber(pattern, ctx, m, other, n)
    ensures !NeverBlocked(Admitted(pattern))
  {
    FailsIff(pattern, ctx, m);
    FailsIff(pattern, other, n);
    if NumberScope(pattern, ctx) == NumberScope(pattern, other) {
      ScopeNumbersDiffer(pattern, ctx, m, pattern, other, n);
    }
    MeetingClash(pattern, ctx, m, other, n);
    ClashBlocks(Admitted(pattern), pattern, ctx, pattern, other);
  }

  lemma SlidNumbersAfter(pattern: string, pre: seq<Piece>, width: string, near: seq<Piece>, b: seq<Piece>,
                         ctx: Context, other: Context, u: string, tail: string, y: string, m: nat, n: nat)
    requires Shaped(pattern, pre, width, near + [BRANCH] + b) && BRANCH !in pre && BRANCH !in near && BRANCH !in b
    requires Fill(pre, ctx, "") == Fill(pre, other, "") && Fill(b, ctx, "") == Fill(b, other, "")
    requires Fill(near, ctx, "").Ok? && Fill(near, other, "").Ok?
    requires tail + Fill(near, ctx, "").value == Fill(near, other, "").value + u
    requires Pad(Decimal(m), Value(width)) == y + tail && Pad(Decimal(n), Value(width)) == y
    ensures SameNumber(pattern, WithCode(ctx, "" + "AB"), m, WithCode(other, u + "AB"), n)
  {
    var c, d := WithCode(ctx, "" + "AB"), WithCode(other, u + "AB");
    assert AllFields(b) && AllFields(near) by {
      assert forall q :: q in b || q in near ==> q in near + [BRANCH] + b;
    }
    CodesNotShown(pre, near, b, ctx, "" + "AB");
    CodesNotShown(pre, near, b, other, u + "AB");
    NumberAfter(pattern, pre, width, near, b, c, m);
    NumberAfter(pattern, pre, width, near, b, d, n);
    SameTextAfter(Fill(pre, ctx, "").value, y, tail, Fill(near, ctx, "").value, Fill(near, other, "").value, u, Fill(b, ctx, "").value);
  }

  lemma SlideClashesAfter(pattern: string, pre: seq<Piece>, width: string, near: seq<Piece>, b: seq<Piece>,
                          ctx: Context, other: Context, k: nat)
    requires Shaped(pattern, pre, width, near + [BRANCH] + b) && OnlyDigits(near) && BRANCH !in pre && BRANCH !in b
    requires Slid(pre, near, b, ctx, other, k) && SlideAfter(Fill(near, ctx, "").value, Fill(near, other, "").value, k)
    ensures !NeverBlocked(Admitted(pattern))
  {
    var mid, mid2 := Fill(near, ctx, "").value, Fill(near, other, "").value;
    DigitsShown(near, ctx);
    DigitsShown(near, other);
    SlidTextsAfter(mid, mid2, k);
    var u, tail, y := MoreAfter(mid, k), TailAfter(mid, mid2, k), Ones(Value(width));
    JoinDigits(y, tail, "");
    assert y + tail + "" == y + tail;
    var m, n := ShownPair(y + tail, y, Value(width));
    SlidNumbersAfter(pattern, pre, width, near, b, ctx, other, u, tail, y, m, n);
    CodeIsShort(ctx, "");
    CodeIsShort(other, u);
    AcceptedIff(pattern);
    DifferentCodesBlock(pattern, WithCode(ctx, "" + "AB"), m, WithCode(other, u + "AB"), n);
  }

  // ---- exactly when -------------------------------------------------------------------------------

  /**
   Main result: with one branch, only digits between it and the sequence behind it, and codes of 2 to 10
   characters, a scope can be blocked exactly when the digits between can be shifted against themselves by 1 to 8.
   */
  lemma ShortCodesBeforeIff(pattern: string, a: seq<Piece>, near: seq<Piece>, width: string, suf: seq<Piece>)
    requires Shaped(pattern, a + [BRANCH] + near, width, suf) && OnlyDigits(near) && BRANCH !in a && BRANCH !in suf
    ensures NeverBlocked(Admitted(pattern)) <==> !SlidesBefore(a, near, suf)
  {
    if ctx, other, k :| Slid(a, near, suf, ctx, other, k) && SlideBefore(Fill(near, ctx, "").value, Fill(near, other, "").value, k) {
      SlideClashesBefore(pattern, a, near, width, suf, ctx, other, k);
    } else {
      AcceptedIff(pattern);
      Searched(pattern, a + [BRANCH] + near, width, suf);
      assert BRANCH in a + [BRANCH] + near;
      forall ctx, other | ShortCode(ctx) && ShortCode(other) ensures !Clash(pattern, ctx, pattern, other) {
        if Clash(pattern, ctx, pattern, other) {
          ClashNeedsBranch(pattern, ctx, other);
          var m, n := ClashShares(pattern, ctx, pattern, other);
          ScopeIs(pattern, ctx, m);
          if |ctx.branchCode.value| < |other.branchCode.value| {
            ClashSlidesBefore(pattern, a, near, width, suf, ctx, m, other, n);
          } else {
            ClashSlidesBefore(pattern, a, near, width, suf, other, n, ctx, m);
          }
        }
      }
      NeverBlockedIff(Admitted(pattern));
    }
  }

  lemma ShortCodesAfterIff(pattern: string, pre: seq<Piece>, width: string, near: seq<Piece>, b: seq<Piece>)
    requires Shaped(pattern, pre, width, near + [BRANCH] + b) && OnlyDigits(near) && BRANCH !in pre && BRANCH !in b
    ensures NeverBlocked(Admitted(pattern)) <==> !SlidesAfter(pre, near, b)
  {
    if ctx, other, k :| Slid(pre, near, b, ctx, other, k) && SlideAfter(Fill(near, ctx, "").value, Fill(near, other, "").value, k) {
      SlideClashesAfter(pattern, pre, width, near, b, ctx, other, k);
    } else {
      AcceptedIff(pattern);
      Searched(pattern, pre, width, near + [BRANCH] + b);
      assert BRANCH in near + [BRANCH] + b;
      forall ctx, other | ShortCode(ctx) && ShortCode(other) ensures !Clash(pattern, ctx, pattern, other) {
        if Clash(pattern, ctx, pattern, other) {
          ClashNeedsBranch(pattern, ctx, other);
          var m, n := ClashShares(pattern, ctx, pattern, other);
          ScopeIs(pattern, ctx, m);
          if |ctx.branchCode.value| < |other.branchCode.value| {
            ClashSlidesAfter(pattern, pre, width, near, b, ctx, m, other, n);
          } else {
            ClashSlidesAfter(pattern, pre, width, near, b, other, n, ctx, m);
          }
        }
      }
      NeverBlockedIff(Admitted(pattern));
    }
  }

  /** With at most seven digits between, a scope can always be blocked. */
  lemma SevenDigitsBlock(pattern: string, a: seq<Piece>, near: seq<Piece>, width: string, suf: seq<Piece>, ctx: Context)
    requires Shaped(pattern, a + [BRANCH] + near, width, suf) && OnlyDigits(near) && BRANCH !in a && BRANCH !in suf
    requires Usual(ctx) && HasBranch(ctx) && Fill(near, ctx, "").Ok? && |Fill(near, ctx, "").value| <= 7
    ensures !NeverBlocked(Admitted(pattern))
  {
    BranchText(a, near, ctx);
    BranchFills(suf, ctx);
    assert Slid(a, near, suf, ctx, ctx, 8);
    ShortCodesBeforeIff(pattern, a, near, width, suf);
  }

  /** Nine different digits cannot be shifted: {BRANCH}123456789{SEQ:1} blocks no scope, though nothing separates. */
  lemma NineDigitsTell(pattern: string, near: seq<Piece>)
    requires near == Lits("123456789") && Shaped(pattern, [BRANCH] + near, "1", [])
    ensures NeverBlocked(Admitted(pattern)) && !Separated([BRANCH] + near, [])
  {
    var digits := "123456789";
    assert [] + [BRANCH] + near == [BRANCH] + near;
    forall p | p in near ensures IsField(p) && p != BRANCH && !IsSeparator(p) {
      var i :| 0 <= i < |near| && near[i] == p;
      assert IsDigit(digits[i]);
    }
    forall ctx, other, k | Slid([], near, [], ctx, other, k)
      ensures !SlideBefore(Fill(near, ctx, "").value, Fill(near, other, "").value, k)
    {
      LitsShown(digits, ctx);
      LitsShown(digits, other);
      assert digits[k..][0] == digits[k] != digits[0];
    }
    ShortCodesBeforeIff(pattern, [], near, "1", []);
  }
}

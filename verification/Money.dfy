/**
 Money in whole minor units: splitting a total by shares in basis points, checking a payment plan, and
 reading an amount as a person types it.
 */
module Money {
  import opened Options
  import opened Digits
  import opened Chars

  const MAX_MINOR_UNITS: int := 1_000_000_000_000
  /** Plain numbers are exact below 2^53. */
  const EXACT: int := 0x20_0000_0000_0000

  datatype SplitError = NoShares | NotWhole

  function Sum(s: seq<int>): int {
    if s == [] then 0 else Sum(s[..|s| - 1]) + s[|s| - 1]
  }

  /** BigInt division drops the fraction, towards zero. */
  function Quotient(a: int, b: int): int
    requires b > 0
  {
    if a >= 0 then a / b else -(-a / b)
  }

  /** Division drops the fraction: what is left has the sign of a and is smaller than b. */
  lemma QuotientTruncates(a: int, b: int)
    requires b > 0
    ensures var q := Quotient(a, b);
      if a >= 0 then q >= 0 && q * b <= a < q * b + b else q <= 0 && q * b - b < a <= q * b
  {
    if a >= 0 {
      FloorIs(a, b);
    } else {
      FloorIs(-a, b);
      var n := -a / b;
      assert Quotient(a, b) * b == -(n * b);
    }
  }

  lemma FloorIs(n: nat, b: int)
    requires b > 0
    ensures n / b >= 0 && n / b * b <= n < n / b * b + b
  {
    assert n == n / b * b + n % b;
  }

  lemma {:induction false} SumJoins(a: seq<int>, b: seq<int>, x: int)
    ensures Sum(a + b) == Sum(a) + Sum(b) && Sum([x]) == x
  {
    assert [x][..0] == [];
    if b == [] {
      assert a + b == a;
    } else {
      var n := |b| - 1;
      assert (a + b)[..|a + b| - 1] == a + b[..n];
      SumJoins(a, b[..n], x);
    }
  }

  lemma SumNext(s: seq<int>, i: nat)
    requires i < |s|
    ensures Sum(s[..i + 1]) == Sum(s[..i]) + s[i]
  {
    assert s[..i + 1][..i] == s[..i];
  }

  method Total(s: seq<int>) returns (sum: int)
    ensures sum == Sum(s)
  {
    sum := 0;
    for i := 0 to |s|
      invariant sum == Sum(s[..i])
    {
      SumNext(s, i);
      sum := sum + s[i];
    }
    assert s[..|s|] == s;
  }

  /** The parts join to exactly the total; each but the last is the share's quotient. */
  method SplitByBasisPoints(total: int, shares: seq<int>) returns (r: Result<seq<int>, SplitError>)
    ensures shares == [] ==> r == Err(NoShares)
    ensures shares != [] && Sum(shares) != 10_000 ==> r == Err(NotWhole)
    ensures shares != [] && Sum(shares) == 10_000 ==> r.Ok? && IsSplit(total, shares, r.value)
  {
    if |shares| == 0 {
      return Err(NoShares);
    }
    var sum := Total(shares);
    if sum != 10_000 {
      return Err(NotWhole);
    }
    var n := |shares|;
    var parts := new int[n];
    for i := 0 to n
      invariant forall k :: 0 <= k < i ==> parts[k] == Quotient(total * shares[k], 10_000)
    {
      parts[i] := Quotient(total * shares[i], 10_000);
    }
    var sumOfParts := Total(parts[..]);
    ghost var before := parts[..];
    parts[n - 1] := parts[n - 1] + (total - sumOfParts);
    assert parts[..][..n - 1] == before[..n - 1];
    return Ok(parts[..]);
  }

  ghost predicate IsSplit(total: int, shares: seq<int>, parts: seq<int>) {
    && |parts| == |shares| && Sum(parts) == total
    && forall i :: 0 <= i < |shares| - 1 ==> parts[i] == Quotient(total * shares[i], 10_000)
  }

  /** A total and the shares have one split. */
  lemma SplitIsUnique(total: int, shares: seq<int>, parts: seq<int>, other: seq<int>)
    requires shares != [] && IsSplit(total, shares, parts) && IsSplit(total, shares, other)
    ensures parts == other
  {
    assert parts[..|shares| - 1] == other[..|shares| - 1];
  }

  // ---- payment plans ----------------------------------------------------------------------------

  datatype PlanPart = PlanPart(shareBp: int, dueOffsetDays: int)
  datatype Issue = NotAllOfIt | DatesGoBack

  function Shares(plan: seq<PlanPart>): (s: seq<int>)
    ensures |s| == |plan|
  {
    seq(|plan|, i requires 0 <= i < |plan| => plan[i].shareBp)
  }

  /** What the schema asks of each part, and how many there may be. */
  predicate InRange(plan: seq<PlanPart>) {
    1 <= |plan| <= 12 && forall p :: p in plan ==> 1 <= p.shareBp <= 10_000 && 0 <= p.dueOffsetDays <= 730
  }

  ghost predicate InOrder(plan: seq<PlanPart>) {
    forall i, j :: 0 <= i < j < |plan| ==> plan[i].dueOffsetDays <= plan[j].dueOffsetDays
  }

  /** Comparing neighbours until the first step back decides whether all dates are in order. */
  method PlanIsValid(plan: seq<PlanPart>) returns (issues: seq<Issue>)
    ensures issues == (if Sum(Shares(plan)) != 10_000 then [NotAllOfIt] else []) + (if InOrder(plan) then [] else [DatesGoBack])
  {
    issues := [];
    var sum := Total(Shares(plan));
    if sum != 10_000 {
      issues := issues + [NotAllOfIt];
    }
    var i := 1;
    while i < |plan|
      invariant 1 <= i && (|plan| > 0 ==> i <= |plan| && InOrder(plan[..i]))
    {
      if plan[i].dueOffsetDays < plan[i - 1].dueOffsetDays {
        issues := issues + [DatesGoBack];
        return;
      }
      OneMoreInOrder(plan, i);
      i := i + 1;
    }
    assert |plan| > 0 ==> plan[..i] == plan;
  }

  lemma OneMoreInOrder(plan: seq<PlanPart>, i: nat)
    requires 0 < i < |plan| && InOrder(plan[..i]) && plan[i - 1].dueOffsetDays <= plan[i].dueOffsetDays
    ensures InOrder(plan[..i + 1])
  {
    forall j | 0 <= j < i ensures plan[j].dueOffsetDays <= plan[i].dueOffsetDays {
      if j < i - 1 {
        assert plan[..i][j].dueOffsetDays <= plan[..i][i - 1].dueOffsetDays;
      }
    }
  }

  ghost predicate Valid(plan: seq<PlanPart>) {
    InRange(plan) && Sum(Shares(plan)) == 10_000 && InOrder(plan)
  }

  /** The first k floors take no more than their exact share of the total, and less than k too little. */
  lemma {:induction false} FloorsSum(total: nat, shares: seq<int>, floors: seq<int>, k: nat)
    requires |floors| == |shares| && k <= |shares|
    requires forall i :: 0 <= i < |shares| ==> shares[i] >= 0 && floors[i] == total * shares[i] / 10_000
    ensures 10_000 * Sum(floors[..k]) <= total * Sum(shares[..k]) <= 10_000 * Sum(floors[..k]) + 9_999 * k
    ensures 0 <= Sum(floors[..k])
  {
    if k > 0 {
      FloorsSum(total, shares, floors, k - 1);
      SumNext(floors, k - 1);
      SumNext(shares, k - 1);
      FloorBounds(total * shares[k - 1]);
      assert total * Sum(shares[..k]) == total * Sum(shares[..k - 1]) + total * shares[k - 1];
      assert total * shares[k - 1] >= 0;
    }
  }

  lemma FloorBounds(x: int)
    ensures 10_000 * (x / 10_000) <= x <= 10_000 * (x / 10_000) + 9_999
  {
  }

  function Floors(total: int, shares: seq<int>): (f: seq<int>)
    ensures |f| == |shares|
  {
    seq(|shares|, i requires 0 <= i < |shares| => total * shares[i] / 10_000)
  }

  lemma QuotientIsFloor(total: nat, share: nat)
    ensures Quotient(total * share, 10_000) == total * share / 10_000 >= 0
  {
    assert total * share >= 0;
  }

  /**
   Main result: for a valid plan no part is negative, each but the last is the exact floor of its share,
   and the last takes at most n - 1 units more than its floor.
   */
  lemma PlanSplit(total: nat, plan: seq<PlanPart>, parts: seq<int>)
    requires Valid(plan) && IsSplit(total, Shares(plan), parts)
    ensures forall i :: 0 <= i < |plan| ==> parts[i] >= 0
    ensures var n := |plan|;
      && (forall i :: 0 <= i < n - 1 ==> parts[i] == total * plan[i].shareBp / 10_000)
      && total * plan[n - 1].shareBp / 10_000 <= parts[n - 1] <= total * plan[n - 1].shareBp / 10_000 + n - 1
  {
    var n, shares, floors := |plan|, Shares(plan), Floors(total, Shares(plan));
    forall i | 0 <= i < n ensures shares[i] >= 0 && Quotient(total * shares[i], 10_000) == floors[i] >= 0 {
      assert plan[i] in plan;
      QuotientIsFloor(total, shares[i]);
    }
    FloorsSum(total, shares, floors, n);
    assert shares[..n] == shares && floors[..n] == floors;
    assert parts[..n - 1] == floors[..n - 1];
  }

  lemma RunningSums(total: nat, plan: seq<PlanPart>, k: nat)
    requires Valid(plan) && k <= |plan|
    ensures 0 <= Sum(Shares(plan)[..k]) <= 10_000
    ensures 0 <= Sum(Floors(total, Shares(plan))[..k]) <= total
  {
    var shares, floors := Shares(plan), Floors(total, Shares(plan));
    assert forall i :: 0 <= i < |plan| ==> plan[i] in plan && shares[i] == plan[i].shareBp;
    PrefixSum(shares, k);
    FloorsSum(total, shares, floors, k);
    assert shares[..|plan|] == shares;
    AtMostTotal(total, Sum(shares[..k]), Sum(floors[..k]));
  }

  lemma AtMostTotal(total: nat, share: int, part: int)
    requires share <= 10_000 && 10_000 * part <= total * share
    ensures part <= total
  {
    assert total * share <= total * 10_000;
  }

  /**
   For amounts up to the maximum every plain number is exact: running sums of shares and parts, what is
   left over, and the parts. The products are not.
   */
  lemma PlainNumbersAreExact(total: nat, plan: seq<PlanPart>, parts: seq<int>, k: nat)
    requires total <= MAX_MINOR_UNITS && Valid(plan) && IsSplit(total, Shares(plan), parts) && k <= |plan|
    ensures 0 <= Sum(Shares(plan)[..k]) < EXACT
    ensures 0 <= Sum(Floors(total, Shares(plan))[..k]) < EXACT
    ensures 0 <= total - Sum(Floors(total, Shares(plan))) < EXACT
    ensures forall i :: 0 <= i < |plan| ==> 0 <= parts[i] < EXACT
  {
    RunningSums(total, plan, k);
    RunningSums(total, plan, |plan|);
    assert Floors(total, Shares(plan))[..|plan|] == Floors(total, Shares(plan));
    PlanSplit(total, plan, parts);
    forall i | 0 <= i < |plan| ensures parts[i] <= total {
      PrefixSum(parts, i + 1);
      PrefixSum(parts, i);
      SumNext(parts, i);
    }
  }

  lemma {:induction false} PrefixSum(s: seq<int>, k: nat)
    requires k <= |s| && forall i :: 0 <= i < |s| ==> s[i] >= 0
    ensures 0 <= Sum(s[..k]) <= Sum(s)
    decreases |s|
  {
    if k < |s| {
      PrefixSum(s[..|s| - 1], k);
      assert s[..|s| - 1][..k] == s[..k];
    } else if k > 0 {
      PrefixSum(s[..k - 1], k - 1);
      assert s[..k] == s && s[..k - 1][..k - 1] == s[..k - 1];
    } else {
      assert s == [];
    }
  }

  /** Plain multiplication would be exact for every share exactly up to this total, far below the maximum. */
  lemma ProductsNeedBigInt(total: nat)
    ensures (forall bp :: 1 <= bp <= 10_000 ==> total * bp < EXACT) <==> total <= 900_719_925_474
    ensures MAX_MINOR_UNITS * 10_000 > EXACT
  {
    if total <= 900_719_925_474 {
      forall bp | 1 <= bp <= 10_000 ensures total * bp < EXACT {
        assert total * bp <= total * 10_000;
      }
    } else {
      assert total * 10_000 >= EXACT;
    }
  }

  // ---- amounts as typed -------------------------------------------------------------------------

  predicate Ignored(c: char) {
    c == ',' || IsSpace(c)
  }

  lemma IgnoredIff(c: char)
    ensures Ignored(c) <==> c == ',' || c in SPACES
  {
    SpaceIff(c);
  }

  /** padEnd with zeros to two digits. */
  function TwoDigits(s: string): string {
    if |s| >= 2 then s else if |s| == 1 then s + "0" else "00"
  }

  /** The anchored expression: 1 to 12 digits, then nothing or a point and 1 or 2 digits. */
  function MatchAmount(s: string): Option<(string, string)> {
    var n := Span(s, IsDigit);
    var whole, rest := s[..n], s[n..];
    if n < 1 || n > 12 then None
    else if rest == "" then Some((whole, ""))
    else if rest[0] == '.' && 2 <= |rest| <= 3 && Span(rest[1..], IsDigit) == |rest| - 1 then Some((whole, rest[1..]))
    else None
  }

  function AmountOf(s: string): Option<int> {
    var m := MatchAmount(s);
    if m.None? then None else Some(Value(m.value.0) * 100 + Value(TwoDigits(m.value.1)))
  }

  function ParseMoney(input: string): (r: Option<int>)
    ensures r.Some? ==> 0 <= r.value <= MAX_MINOR_UNITS
  {
    var total := AmountOf(Drop(Trim(input), Ignored));
    if total.Some? && total.value <= MAX_MINOR_UNITS then total else None
  }

  /** One digit after the point counts tenths: 5 is 50. */
  lemma TwoDigitsIs(s: string)
    requires |s| <= 2
    ensures Value(TwoDigits(s)) == if |s| == 1 then Value(s) * 10 else Value(s)
  {
    if |s| == 1 {
      assert (s + "0")[..1] == s;
    } else if |s| == 0 {
      assert "00"[..1] == "0" && "0"[..0] == "" && Value("") == 0;
    }
  }

  /** An amount spelled without commas and spaces. */
  function Spelled(whole: string, fraction: string): string {
    whole + if fraction == "" then "" else "." + fraction
  }

  predicate Spells(whole: string, fraction: string, amount: int) {
    && AllDigits(whole) && AllDigits(fraction) && 1 <= |whole| <= 12 && |fraction| <= 2
    && amount == Value(whole) * 100 + if |fraction| == 1 then Value(fraction) * 10 else Value(fraction)
  }

  lemma MatchSpelled(whole: string, fraction: string)
    requires AllDigits(whole) && AllDigits(fraction) && 1 <= |whole| <= 12 && |fraction| <= 2
    ensures MatchAmount(Spelled(whole, fraction)) == Some((whole, fraction))
  {
    var rest := if fraction == "" then "" else "." + fraction;
    SpanIs(whole, rest, IsDigit);
    SpanIs(fraction, "", IsDigit);
    assert fraction + "" == fraction;
    assert (whole + rest)[..|whole|] == whole && (whole + rest)[|whole|..] == rest;
    assert fraction != "" ==> rest[1..] == fraction;
  }

  lemma MatchedIsSpelled(s: string)
    requires MatchAmount(s).Some?
    ensures var m := MatchAmount(s).value;
      && s == Spelled(m.0, m.1) && AllDigits(m.0) && AllDigits(m.1) && 1 <= |m.0| <= 12 && |m.1| <= 2
  {
    var n := Span(s, IsDigit);
    assert s == s[..n] + s[n..];
    if s[n..] != "" {
      assert s[n..] == "." + s[n..][1..];
    }
  }

  lemma IgnoredDropped(input: string)
    ensures Drop(Trim(input), Ignored) == Drop(input, Ignored)
  {
    DropTrim(input, Ignored);
  }

  /** Some spelling of the amount, without commas and spaces. */
  ghost predicate IsAmount(s: string, amount: int) {
    exists whole, fraction :: s == Spelled(whole, fraction) && Spells(whole, fraction, amount)
  }

  lemma AmountIsSpelled(s: string)
    requires AmountOf(s).Some?
    ensures IsAmount(s, AmountOf(s).value)
  {
    MatchedIsSpelled(s);
    var m := MatchAmount(s).value;
    TwoDigitsIs(m.1);
    assert Spells(m.0, m.1, AmountOf(s).value);
  }

  lemma SpelledIsAmount(s: string, amount: int)
    requires IsAmount(s, amount)
    ensures AmountOf(s) == Some(amount)
  {
    var whole, fraction :| s == Spelled(whole, fraction) && Spells(whole, fraction, amount);
    MatchSpelled(whole, fraction);
    TwoDigitsIs(fraction);
  }

  /** Main result: a text is read as an amount exactly when, without commas and spaces, it spells it. */
  lemma ParseMoneyIff(input: string, amount: int)
    ensures ParseMoney(input) == Some(amount) <==> amount <= 1_000_000_000_000 && IsAmount(Drop(input, Ignored), amount)
  {
    IgnoredDropped(input);
    var s := Drop(input, Ignored);
    if AmountOf(s).Some? {
      AmountIsSpelled(s);
    }
    if IsAmount(s, amount) {
      SpelledIsAmount(s, amount);
    }
  }

  /** An amount written in whole units and two decimals is read back, whatever groups its digits. */
  lemma FormattedIsRead(amount: nat, input: string)
    requires amount <= MAX_MINOR_UNITS && Drop(input, Ignored) == Decimal(amount / 100) + "." + Pad(Decimal(amount % 100), 2)
    ensures ParseMoney(input) == Some(amount)
  {
    var whole, fraction := Decimal(amount / 100), Pad(Decimal(amount % 100), 2);
    ValueOfDecimal(amount / 100);
    ValueOfDecimal(amount % 100);
    Padded(Decimal(amount % 100), 2);
    PadHasDigits(Decimal(amount % 100), 2);
    ShortLength(amount % 100);
    DecimalLength(amount / 100, 11);
    assert whole + "." + fraction == Spelled(whole, fraction);
    assert Spells(whole, fraction, amount);
    ParseMoneyIff(input, amount);
  }
}

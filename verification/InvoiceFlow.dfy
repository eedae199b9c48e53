/**
 Money through an invoice: the instalments a plan is split into, a payment applied to what is due first,
 and a discount taken from what is due last. What each instalment gets is given by one formula, and
 everything follows from it.
 */
module InvoiceFlow {
  import opened Options
  import opened Money

  type InstallmentId = string

  /** Dates are numbers of days. */
  datatype Installment = Installment(id: InstallmentId, sequence: int, dueDate: int, amount: int, paidAmount: int)
  datatype Allocation = Allocation(id: InstallmentId, amount: int)
  datatype DiscountError = TooLarge

  function Max(a: int, b: int): int { if a > b then a else b }

  function Min(a: int, b: int): int { if a < b then a else b }

  function Owed(i: Installment): int { i.amount - i.paidAmount }

  /** What a payment or a discount may take from an instalment. */
  function Open(i: Installment): (o: int)
    ensures o >= 0
  {
    Max(0, Owed(i))
  }

  function TotalOpen(list: seq<Installment>): (t: int)
    ensures t >= 0
  {
    if list == [] then 0 else TotalOpen(list[..|list| - 1]) + Open(list[|list| - 1])
  }

  // ---- due order --------------------------------------------------------------------------------

  predicate DueBefore(a: Installment, b: Installment) {
    a.dueDate < b.dueDate || (a.dueDate == b.dueDate && a.sequence < b.sequence)
  }

  predicate NotLater(a: Installment, b: Installment) {
    a.dueDate < b.dueDate || (a.dueDate == b.dueDate && a.sequence <= b.sequence)
  }

  ghost predicate InDueOrder(list: seq<Installment>) {
    forall i, j :: 0 <= i < j < |list| ==> NotLater(list[i], list[j])
  }

  function Insert(x: Installment, list: seq<Installment>): seq<Installment> {
    if list == [] || !DueBefore(list[0], x) then [x] + list else [list[0]] + Insert(x, list[1..])
  }

  /** A stable sort: instalments of the same date and sequence stay as they were. */
  function ByDueDate(list: seq<Installment>): seq<Installment> {
    if list == [] then [] else Insert(list[0], ByDueDate(list[1..]))
  }

  lemma {:induction false} InsertAdds(x: Installment, list: seq<Installment>)
    ensures multiset(Insert(x, list)) == multiset(list) + multiset{x}
    ensures forall y :: y in Insert(x, list) ==> y == x || y in list
  {
    if list != [] {
      assert list == [list[0]] + list[1..];
      if DueBefore(list[0], x) {
        InsertAdds(x, list[1..]);
      }
    }
  }

  lemma {:induction false} InsertKeepsOrder(x: Installment, list: seq<Installment>)
    requires InDueOrder(list)
    ensures InDueOrder(Insert(x, list))
  {
    if list != [] && DueBefore(list[0], x) {
      InsertKeepsOrder(x, list[1..]);
      InsertAdds(x, list[1..]);
      forall y | y in list[1..] ensures NotLater(list[0], y) {}
    } else if list != [] {
      forall j | 0 <= j < |list| ensures NotLater(x, list[j]) {
        assert j > 0 ==> NotLater(list[0], list[j]);
      }
    }
  }

  lemma {:induction false} ByDueDateSorts(list: seq<Installment>)
    ensures InDueOrder(ByDueDate(list)) && multiset(ByDueDate(list)) == multiset(list)
  {
    if list != [] {
      ByDueDateSorts(list[1..]);
      InsertKeepsOrder(list[0], ByDueDate(list[1..]));
      InsertAdds(list[0], ByDueDate(list[1..]));
      assert list == [list[0]] + list[1..];
    }
  }

  /** The instalments of one date and sequence, as they stand. */
  function Alike(list: seq<Installment>, dueDate: int, sequence: int): seq<Installment> {
    if list == [] then []
    else (if list[0].dueDate == dueDate && list[0].sequence == sequence then [list[0]] else []) + Alike(list[1..], dueDate, sequence)
  }

  lemma {:induction false} AlikeStep(x: Installment, list: seq<Installment>, dueDate: int, sequence: int)
    ensures Alike([x] + list, dueDate, sequence) == Alike([x], dueDate, sequence) + Alike(list, dueDate, sequence)
    ensures Alike([x], dueDate, sequence) == if x.dueDate == dueDate && x.sequence == sequence then [x] else []
  {
    assert [x][1..] == [] && ([x] + list)[1..] == list;
  }

  lemma {:induction false} InsertKeepsAlike(x: Installment, list: seq<Installment>, dueDate: int, sequence: int)
    ensures Alike(Insert(x, list), dueDate, sequence) == Alike([x], dueDate, sequence) + Alike(list, dueDate, sequence)
  {
    AlikeStep(x, list, dueDate, sequence);
    if list != [] && DueBefore(list[0], x) {
      InsertKeepsAlike(x, list[1..], dueDate, sequence);
      AlikeStep(list[0], Insert(x, list[1..]), dueDate, sequence);
      AlikeStep(list[0], list[1..], dueDate, sequence);
      assert list == [list[0]] + list[1..];
      OneIsEmpty(Alike([x], dueDate, sequence), Alike([list[0]], dueDate, sequence), Alike(list[1..], dueDate, sequence));
    }
  }

  lemma OneIsEmpty(a: seq<Installment>, b: seq<Installment>, rest: seq<Installment>)
    requires a == [] || b == []
    ensures b + (a + rest) == a + (b + rest)
  {
  }

  /** The sort is stable. */
  lemma {:induction false} ByDueDateIsStable(list: seq<Installment>, dueDate: int, sequence: int)
    ensures Alike(ByDueDate(list), dueDate, sequence) == Alike(list, dueDate, sequence)
  {
    if list != [] {
      ByDueDateIsStable(list[1..], dueDate, sequence);
      InsertKeepsAlike(list[0], ByDueDate(list[1..]), dueDate, sequence);
      AlikeStep(list[0], list[1..], dueDate, sequence);
      assert list == [list[0]] + list[1..];
    }
  }

  // ---- who gets what ----------------------------------------------------------------------------

  /** Of an amount, what the k-th instalment gets: what is left after the ones before it, up to what is open. */
  function Share(list: seq<Installment>, amount: int, k: nat): int
    requires k < |list|
  {
    Part(Open(list[k]), amount - TotalOpen(list[..k]))
  }

  function Part(open: int, left: int): int {
    Max(0, Min(open, left))
  }

  /** What the first k instalments get together. */
  function Given(list: seq<Installment>, amount: int, k: nat): int
    requires k <= |list|
  {
    if k == 0 then 0 else Given(list, amount, k - 1) + Share(list, amount, k - 1)
  }

  /** The shares that are not nothing, in order. */
  function Allocations(list: seq<Installment>, amount: int, k: nat): seq<Allocation>
    requires k <= |list|
  {
    if k == 0 then []
    else
      var share := Share(list, amount, k - 1);
      Allocations(list, amount, k - 1) + if share > 0 then [Allocation(list[k - 1].id, share)] else []
  }

  lemma OpenNext(list: seq<Installment>, k: nat)
    requires k < |list|
    ensures TotalOpen(list[..k + 1]) == TotalOpen(list[..k]) + Open(list[k])
  {
    assert list[..k + 1][..k] == list[..k];
  }

  /** Together they get the amount, up to all that is open. */
  lemma {:induction false} GivenIs(list: seq<Installment>, amount: int, k: nat)
    requires k <= |list|
    ensures Given(list, amount, k) == Max(0, Min(TotalOpen(list[..k]), amount))
  {
    if k > 0 {
      GivenIs(list, amount, k - 1);
      OpenNext(list, k - 1);
    }
  }

  lemma {:induction false} OpenGrows(list: seq<Installment>, j: nat, k: nat)
    requires j <= k <= |list|
    ensures TotalOpen(list[..j]) <= TotalOpen(list[..k])
  {
    if j < k {
      OpenGrows(list, j, k - 1);
      OpenNext(list, k - 1);
    }
  }

  lemma {:induction false} NothingLeft(list: seq<Installment>, amount: int, k: nat, n: nat)
    requires k <= n <= |list| && amount - TotalOpen(list[..k]) <= 0
    ensures Allocations(list, amount, n) == Allocations(list, amount, k) && Given(list, amount, n) == Given(list, amount, k)
  {
    if k < n {
      NothingLeft(list, amount, k, n - 1);
      OpenGrows(list, k, n - 1);
    }
  }

  /** Oldest due first, each up to what it still owes; the rest is handed back. */
  method AllocatePayment(installments: seq<Installment>, amount: int) returns (allocations: seq<Allocation>, remainder: int)
    ensures var list := ByDueDate(installments);
      && allocations == Allocations(list, amount, |list|)
      && remainder == amount - Given(list, amount, |list|)
  {
    var list := ByDueDate(installments);
    allocations := [];
    var left := amount;
    for k := 0 to |list|
      invariant allocations == Allocations(list, amount, k)
      invariant left == amount - Given(list, amount, k)
    {
      GivenIs(list, amount, k);
      OpenNext(list, k);
      if left == 0 {
        NothingLeft(list, amount, k, |list|);
        return allocations, left;
      }
      var take := Min(left, Owed(list[k]));
      if take > 0 {
        allocations := allocations + [Allocation(list[k].id, take)];
        left := left - take;
      }
    }
    return allocations, left;
  }

  function Reversed(list: seq<Installment>): (r: seq<Installment>)
    ensures |r| == |list|
  {
    seq(|list|, i requires 0 <= i < |list| => list[|list| - 1 - i])
  }

  function NewAmounts(list: seq<Installment>, amount: int, k: nat): seq<Allocation>
    requires k <= |list|
  {
    if k == 0 then []
    else
      var share := Share(list, amount, k - 1);
      NewAmounts(list, amount, k - 1) + if share > 0 then [Allocation(list[k - 1].id, list[k - 1].amount - share)] else []
  }

  lemma {:induction false} NothingLeftToCut(list: seq<Installment>, amount: int, k: nat, n: nat)
    requires k <= n <= |list| && amount - TotalOpen(list[..k]) <= 0
    ensures NewAmounts(list, amount, n) == NewAmounts(list, amount, k)
  {
    if k < n {
      NothingLeftToCut(list, amount, k, n - 1);
      OpenGrows(list, k, n - 1);
    }
  }

  /** Latest due first; refused exactly when it is more than what is open. */
  method ApplyDiscount(installments: seq<Installment>, amount: int) returns (r: Result<seq<Allocation>, DiscountError>)
    ensures var list := Reversed(ByDueDate(installments));
      r == if amount > TotalOpen(list) then Err(TooLarge) else Ok(NewAmounts(list, amount, |list|))
  {
    var list := Reversed(ByDueDate(installments));
    var changes, left := [], amount;
    for k := 0 to |list|
      invariant changes == NewAmounts(list, amount, k)
      invariant left == amount - Given(list, amount, k)
    {
      GivenIs(list, amount, k);
      OpenNext(list, k);
      if left == 0 {
        NothingLeftToCut(list, amount, k, |list|);
        OpenGrows(list, k, |list|);
        assert list[..|list|] == list;
        return Ok(changes);
      }
      var cut := Min(left, Owed(list[k]));
      if cut > 0 {
        changes := changes + [Allocation(list[k].id, list[k].amount - cut)];
        left := left - cut;
      }
    }
    GivenIs(list, amount, |list|);
    assert list[..|list|] == list;
    return if left > 0 then Err(TooLarge) else Ok(changes);
  }

  // ---- what follows -----------------------------------------------------------------------------

  /** Main result: money is conserved, and handed back only when nothing is open any more. */
  lemma PaymentIsConserved(installments: seq<Installment>, amount: nat)
    ensures var list := ByDueDate(installments);
      && SumOf(Allocations(list, amount, |list|)) + (amount - Given(list, amount, |list|)) == amount
      && amount - Given(list, amount, |list|) == Max(0, amount - TotalOpen(installments))
  {
    var list := ByDueDate(installments);
    GivenIs(list, amount, |list|);
    AllocationsSum(list, amount, |list|);
    SortedOpen(installments);
    assert list[..|list|] == list;
  }

  function SumOf(a: seq<Allocation>): int {
    if a == [] then 0 else SumOf(a[..|a| - 1]) + a[|a| - 1].amount
  }

  lemma {:induction false} AllocationsSum(list: seq<Installment>, amount: int, k: nat)
    requires k <= |list|
    ensures SumOf(Allocations(list, amount, k)) == Given(list, amount, k)
  {
    if k > 0 {
      AllocationsSum(list, amount, k - 1);
      var before, now := Allocations(list, amount, k - 1), Allocations(list, amount, k);
      if Share(list, amount, k - 1) > 0 {
        assert now[..|now| - 1] == before;
      } else {
        assert now == before;
      }
    }
  }

  lemma {:induction false} OpenJoin(a: seq<Installment>, b: seq<Installment>)
    ensures TotalOpen(a + b) == TotalOpen(a) + TotalOpen(b)
  {
    if b == [] {
      assert a + b == a;
    } else {
      OpenJoin(a, b[..|b| - 1]);
      assert (a + b)[..|a + b| - 1] == a + b[..|b| - 1];
    }
  }

  lemma OpenOne(x: Installment)
    ensures TotalOpen([x]) == Open(x)
  {
    assert [x][..0] == [];
  }

  lemma {:induction false} InsertOpen(x: Installment, list: seq<Installment>)
    ensures TotalOpen(Insert(x, list)) == Open(x) + TotalOpen(list)
  {
    OpenOne(x);
    OpenJoin([x], list);
    if list != [] && DueBefore(list[0], x) {
      InsertOpen(x, list[1..]);
      OpenOne(list[0]);
      OpenJoin([list[0]], Insert(x, list[1..]));
      OpenJoin([list[0]], list[1..]);
      assert list == [list[0]] + list[1..];
    }
  }

  lemma {:induction false} SortedOpen(list: seq<Installment>)
    ensures TotalOpen(ByDueDate(list)) == TotalOpen(list)
  {
    if list != [] {
      SortedOpen(list[1..]);
      InsertOpen(list[0], ByDueDate(list[1..]));
      OpenOne(list[0]);
      OpenJoin([list[0]], list[1..]);
      assert list == [list[0]] + list[1..];
    }
  }

  /** An instalment gets something only when everything due before it is covered. */
  lemma OldestFirst(list: seq<Installment>, amount: int, j: nat, k: nat)
    requires j < k < |list| && Share(list, amount, k) > 0
    ensures Share(list, amount, j) == Open(list[j])
  {
    OpenNext(list, j);
    OpenGrows(list, j + 1, k);
  }

  /** Nobody gets less than nothing or more than is owed. */
  lemma ShareBounds(list: seq<Installment>, amount: int, k: nat)
    requires k < |list|
    ensures 0 <= Share(list, amount, k) <= if list[k].amount > list[k].paidAmount then list[k].amount - list[k].paidAmount else 0
  {
  }

  /** The allocations are the shares of those who get something, each once and in due order. */
  lemma {:induction false} AllocationsAre(list: seq<Installment>, amount: int, n: nat) returns (at: seq<nat>)
    requires n <= |list|
    ensures |at| == |Allocations(list, amount, n)| && forall i, j :: 0 <= i < j < |at| ==> at[i] < at[j]
    ensures forall k: nat :: k in at <==> (k < n && Share(list, amount, k) > 0)
    ensures forall i :: 0 <= i < |at| ==> at[i] < n && Allocations(list, amount, n)[i] == Allocation(list[at[i]].id, Share(list, amount, at[i]))
  {
    at := [];
    if n > 0 {
      at := AllocationsAre(list, amount, n - 1);
      if Share(list, amount, n - 1) > 0 {
        at := at + [n - 1];
      }
    }
  }

  // ---- discounts --------------------------------------------------------------------------------

  lemma {:induction false} ReversedKeeps(list: seq<Installment>)
    ensures multiset(Reversed(list)) == multiset(list) && TotalOpen(Reversed(list)) == TotalOpen(list)
  {
    if list != [] {
      var n := |list| - 1;
      assert Reversed(list) == [list[n]] + Reversed(list[..n]);
      assert list == list[..n] + [list[n]];
      ReversedKeeps(list[..n]);
      OpenOne(list[n]);
      OpenJoin([list[n]], Reversed(list[..n]));
    }
  }

  /** A discount goes through the instalments from the latest due to the earliest. */
  lemma LatestFirst(installments: seq<Installment>)
    ensures var list := Reversed(ByDueDate(installments));
      && multiset(list) == multiset(installments) && TotalOpen(list) == TotalOpen(installments)
      && forall i, j :: 0 <= i < j < |list| ==>
        list[i].dueDate > list[j].dueDate || (list[i].dueDate == list[j].dueDate && list[i].sequence >= list[j].sequence)
  {
    ByDueDateSorts(installments);
    SortedOpen(installments);
    ReversedKeeps(ByDueDate(installments));
    var sorted, list := ByDueDate(installments), Reversed(ByDueDate(installments));
    forall i, j | 0 <= i < j < |list|
      ensures list[i].dueDate > list[j].dueDate || (list[i].dueDate == list[j].dueDate && list[i].sequence >= list[j].sequence)
    {
      assert NotLater(sorted[|sorted| - 1 - j], sorted[|sorted| - 1 - i]);
    }
  }

  /** A discount that is not refused is cut off as a whole, and only after what is due later is cut down to what is paid. */
  lemma DiscountIsConserved(installments: seq<Installment>, amount: nat, j: nat, k: nat)
    requires amount <= TotalOpen(installments) && j < k < |installments|
    ensures var list := Reversed(ByDueDate(installments));
      && |list| == |installments| && Given(list, amount, |list|) == amount
      && (Share(list, amount, k) > 0 ==> Share(list, amount, j) == Open(list[j]))
  {
    var list := Reversed(ByDueDate(installments));
    LatestFirst(installments);
    assert |list| == |multiset(list)| == |multiset(installments)|;
    GivenIs(list, amount, |list|);
    assert list[..|list|] == list;
    if Share(list, amount, k) > 0 {
      OldestFirst(list, amount, j, k);
    }
  }

  /** The changes are the instalments that are cut, each with its amount less its cut. */
  lemma {:induction false} NewAmountsAre(list: seq<Installment>, amount: int, n: nat) returns (at: seq<nat>)
    requires n <= |list|
    ensures |at| == |NewAmounts(list, amount, n)| && forall i, j :: 0 <= i < j < |at| ==> at[i] < at[j]
    ensures forall k: nat :: k in at <==> (k < n && Share(list, amount, k) > 0)
    ensures forall i :: 0 <= i < |at| ==>
      (at[i] < n && NewAmounts(list, amount, n)[i] == Allocation(list[at[i]].id, list[at[i]].amount - Share(list, amount, at[i])))
  {
    at := [];
    if n > 0 {
      at := NewAmountsAre(list, amount, n - 1);
      if Share(list, amount, n - 1) > 0 {
        at := at + [n - 1];
      }
    }
  }

  function Pay(list: seq<Installment>, amount: int): (paid: seq<Installment>)
    ensures |paid| == |list|
  {
    seq(|list|, k requires 0 <= k < |list| => list[k].(paidAmount := list[k].paidAmount + Share(list, amount, k)))
  }

  lemma PartsAdd(open: nat, before: nat, first: nat, second: nat)
    ensures open - Part(open, first - before) >= 0
    ensures Max(0, before - first) + (open - Part(open, first - before)) == Max(0, before + open - first)
    ensures Part(open, first - before) + Part(open - Part(open, first - before), second - Max(0, before - first)) ==
      Part(open, first + second - before)
  {
  }

  lemma {:induction false} OpenAfterPayment(list: seq<Installment>, amount: nat, k: nat)
    requires k <= |list|
    ensures TotalOpen(Pay(list, amount)[..k]) == Max(0, TotalOpen(list[..k]) - amount)
  {
    if k > 0 {
      OpenAfterPayment(list, amount, k - 1);
      OpenNext(list, k - 1);
      OpenNext(Pay(list, amount), k - 1);
      OpenAfterShare(list, amount, k - 1);
      PartsAdd(Open(list[k - 1]), TotalOpen(list[..k - 1]), amount, 0);
    }
  }

  lemma OpenAfterShare(list: seq<Installment>, amount: int, k: nat)
    requires k < |list|
    ensures Open(Pay(list, amount)[k]) == Open(list[k]) - Share(list, amount, k)
  {
  }

  /** Main result: two payments leave every instalment as one payment of both amounts does. */
  lemma TwoPaymentsAreOne(list: seq<Installment>, first: nat, second: nat)
    ensures Pay(Pay(list, first), second) == Pay(list, first + second)
  {
    var paid, both := Pay(Pay(list, first), second), Pay(list, first + second);
    forall k | 0 <= k < |list| ensures paid[k] == both[k] {
      SharesAdd(list, first, second, k);
    }
  }

  lemma SharesAdd(list: seq<Installment>, first: nat, second: nat, k: nat)
    requires k < |list|
    ensures Share(list, first, k) + Share(Pay(list, first), second, k) == Share(list, first + second, k)
  {
    OpenAfterPayment(list, first, k);
    OpenAfterShare(list, first, k);
    PartsAdd(Open(list[k]), TotalOpen(list[..k]), first, second);
  }

  lemma {:induction false} SortedStays(list: seq<Installment>)
    requires InDueOrder(list)
    ensures ByDueDate(list) == list
  {
    if list != [] {
      assert list == [list[0]] + list[1..];
      SortedStays(list[1..]);
      assert |list| > 1 ==> !DueBefore(list[1..][0], list[0]);
    }
  }

  /** A payment does not change the order the next one is applied in. */
  lemma PayKeepsOrder(list: seq<Installment>, amount: int)
    requires InDueOrder(list)
    ensures InDueOrder(Pay(list, amount)) && ByDueDate(Pay(list, amount)) == Pay(list, amount)
  {
    var paid := Pay(list, amount);
    forall i, j | 0 <= i < j < |paid| ensures NotLater(paid[i], paid[j]) {
      assert NotLater(list[i], list[j]);
    }
    SortedStays(paid);
  }

  /** A discount never cuts an instalment below what was paid on it. */
  lemma CutsSpareWhatIsPaid(list: seq<Installment>, amount: int, k: nat)
    requires k < |list| && Share(list, amount, k) > 0
    ensures list[k].paidAmount <= list[k].amount - Share(list, amount, k) < list[k].amount
  {
  }

  // ---- a new invoice ----------------------------------------------------------------------------

  /** The instalments of a plan, from parts that split the total. */
  function Build(plan: seq<PlanPart>, parts: seq<int>, issueDate: int): (list: seq<Installment>)
    requires |parts| == |plan|
    ensures |list| == |plan|
  {
    seq(|plan|, i requires 0 <= i < |plan| => Installment("", i + 1, issueDate + plan[i].dueOffsetDays, parts[i], 0))
  }

  lemma {:induction false} BuiltOpen(plan: seq<PlanPart>, parts: seq<int>, issueDate: int, k: nat)
    requires |parts| == |plan| && k <= |plan| && forall i :: 0 <= i < |parts| ==> parts[i] >= 0
    ensures TotalOpen(Build(plan, parts, issueDate)[..k]) == Sum(parts[..k])
  {
    if k > 0 {
      BuiltOpen(plan, parts, issueDate, k - 1);
      OpenNext(Build(plan, parts, issueDate), k - 1);
      SumNext(parts, k - 1);
    }
  }

  lemma BuiltInOrder(plan: seq<PlanPart>, parts: seq<int>, issueDate: int)
    requires |parts| == |plan| && InOrder(plan)
    ensures InDueOrder(Build(plan, parts, issueDate))
  {
    var list := Build(plan, parts, issueDate);
    forall i, j | 0 <= i < j < |list| ensures NotLater(list[i], list[j]) {
      assert plan[i].dueOffsetDays <= plan[j].dueOffsetDays;
    }
  }

  lemma PayingAllSettles(list: seq<Installment>, k: nat)
    requires k < |list| && Owed(list[k]) >= 0
    ensures Owed(Pay(list, TotalOpen(list))[k]) == 0
  {
    OpenNext(list, k);
    OpenGrows(list, k + 1, |list|);
    assert list[..|list|] == list;
  }

  /**
   Main result: an invoice made from a valid plan is due in the order of the plan, and paying its total
   settles every instalment and hands nothing back.
   */
  lemma PayingTheTotalSettles(plan: seq<PlanPart>, total: nat, parts: seq<int>, issueDate: int)
    requires Valid(plan) && IsSplit(total, Shares(plan), parts)
    ensures var list := Build(plan, parts, issueDate);
      && (forall i :: 0 <= i < |plan| ==>
            && list[i].sequence == i + 1 && list[i].dueDate == issueDate + plan[i].dueOffsetDays
            && list[i].amount == parts[i] && list[i].paidAmount == 0)
      && ByDueDate(list) == list && TotalOpen(list) == total
      && Given(list, total, |list|) == total
      && forall k :: 0 <= k < |list| ==> Owed(Pay(list, total)[k]) == 0
  {
    var list := Build(plan, parts, issueDate);
    PlanSplit(total, plan, parts);
    BuiltInOrder(plan, parts, issueDate);
    SortedStays(list);
    BuiltOpen(plan, parts, issueDate, |plan|);
    assert list[..|list|] == list && parts[..|plan|] == parts;
    GivenIs(list, total, |list|);
    forall k | 0 <= k < |list| ensures Owed(Pay(list, total)[k]) == 0 {
      PayingAllSettles(list, k);
    }
  }
}

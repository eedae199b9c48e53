/**
 Issuing document numbers: each series and scope has a counter row that an issuing transaction keeps
 locked until it ends, and each series stores its numbers under a unique index. Any number of transactions
 issue numbers in any series, each with the pattern the series has at that moment, which may be replaced at
 any time, and transactions commit or roll back. No number is stored twice; what may happen instead is that
 the next number of a scope is taken by another one, and then nothing more is issued in it.
 */
module NumberCounters {
  import opened Options
  import opened Numbering
  import opened Digits
  import opened NumberUniqueness
  import opened NumberScopes
  import Runs

  type TxId = nat
  /** (series, scope): the key of a counter row. */
  type Counter = (string, string)
  type Documents = map<Counter, seq<Document>>

  datatype Document = Document(pattern: string, ctx: Context, sequence: nat, number: string)
  /** A number that was drawn for a document that is not inserted yet. */
  datatype Draft = Draft(counter: Counter, document: Document)
  /** What a transaction has not committed: counter values, the documents numbered with them, and a draft. */
  datatype Tx = Tx(counters: map<Counter, nat>, documents: Documents, drawn: Option<Draft>)
  datatype State = State(counters: map<Counter, nat>, documents: Documents, open: map<TxId, Tx>)

  datatype Step =
    | Begin(tx: TxId)
    | Draw(tx: TxId, series: string, pattern: string, ctx: Context)
    | Insert(tx: TxId)
    | Commit(tx: TxId)
    | Abort(tx: TxId)

  const NEW := Tx(map[], map[], None)

  function Init(): State {
    State(map[], map[], map[])
  }

  function Listed(documents: Documents, k: Counter): seq<Document> {
    if k in documents then documents[k] else []
  }

  /** The i-th document of a counter. */
  predicate IsAt(documents: Documents, k: Counter, i: nat, d: Document) {
    i < |Listed(documents, k)| && Listed(documents, k)[i] == d
  }

  /** Some document of the series has the number. */
  ghost predicate Has(documents: Documents, series: string, number: string) {
    exists k, i: nat, d :: IsAt(documents, k, i, d) && k.0 == series && d.number == number
  }

  function LastValue(counters: map<Counter, nat>, k: Counter): nat {
    if k in counters then counters[k] else 0
  }

  function CounterOf(series: string, pattern: string, ctx: Context): Counter
    requires NumberScope(pattern, ctx).Ok?
  {
    (series, NumberScope(pattern, ctx).value)
  }

  /** Another transaction has inserted or updated the counter row and has not ended. */
  predicate LockedByOther(s: State, tx: TxId, k: Counter) {
    exists other :: other in s.open && other != tx && k in s.open[other].counters
  }

  /**
   Patterns are checked when they are set, dates are those of a calendar with four-digit years, and the
   branch is looked up when the pattern uses it.
   */
  predicate CanNumber(pattern: string, ctx: Context) {
    ProblemOf(Tokens(pattern)).None? && Usual(ctx) && NumberScope(pattern, ctx).Ok?
  }

  /** The series' unique index has the number for this transaction: a committed row's or its own. */
  ghost predicate Taken(s: State, tx: TxId, series: string, number: string)
    requires tx in s.open
  {
    Has(s.documents, series, number) || Has(s.open[tx].documents, series, number)
  }

  /** The index has the number of a row that another transaction has not committed: the insert waits. */
  ghost predicate TakenByOther(s: State, tx: TxId, series: string, number: string) {
    exists other :: other in s.open && other != tx && Has(s.open[other].documents, series, number)
  }

  /**
   A number is drawn to be stored at once. Inserting a taken number is a unique violation, after which the
   transaction can only roll back; a number of another open transaction is waited for.
   */
  ghost predicate Enabled(s: State, a: Step) {
    match a
    case Begin(tx) => tx !in s.open
    case Draw(tx, series, pattern, ctx) =>
      && tx in s.open && s.open[tx].drawn.None? && CanNumber(pattern, ctx)
      && !LockedByOther(s, tx, CounterOf(series, pattern, ctx))
    case Insert(tx) =>
      && tx in s.open && s.open[tx].drawn.Some?
      && var draft := s.open[tx].drawn.value;
         var series, number := draft.counter.0, draft.document.number;
         !Taken(s, tx, series, number) && !TakenByOther(s, tx, series, number)
    case Commit(tx) => tx in s.open && s.open[tx].drawn.None?
    case Abort(tx) => tx in s.open
  }

  /** The upsert: 1 for a new row, otherwise one more than the value the transaction sees. */
  function NextValue(s: State, tx: TxId, k: Counter): nat
    requires tx in s.open
  {
    1 + if k in s.open[tx].counters then s.open[tx].counters[k] else LastValue(s.counters, k)
  }

  function NewDocument(pattern: string, ctx: Context, value: nat): Document
    requires CanNumber(pattern, ctx)
  {
    FailsIff(pattern, ctx, value);
    Document(pattern, ctx, value, FormatNumber(pattern, ctx, value).value)
  }

  function Drawn(s: State, tx: TxId, series: string, pattern: string, ctx: Context): State
    requires tx in s.open && CanNumber(pattern, ctx)
  {
    var k := CounterOf(series, pattern, ctx);
    var value := NextValue(s, tx, k);
    s.(open := s.open[tx := s.open[tx].(
      counters := s.open[tx].counters[k := value], drawn := Some(Draft(k, NewDocument(pattern, ctx, value))))])
  }

  function Inserted(s: State, tx: TxId): State
    requires tx in s.open && s.open[tx].drawn.Some?
  {
    var t, draft := s.open[tx], s.open[tx].drawn.value;
    var list := Listed(t.documents, draft.counter) + [draft.document];
    s.(open := s.open[tx := t.(documents := t.documents[draft.counter := list], drawn := None)])
  }

  function Joined(a: Documents, b: Documents): Documents {
    map k | k in a.Keys + b.Keys :: Listed(a, k) + Listed(b, k)
  }

  function Committed(s: State, tx: TxId): State
    requires tx in s.open
  {
    State(s.counters + s.open[tx].counters, Joined(s.documents, s.open[tx].documents), s.open - {tx})
  }

  ghost function Apply(s: State, a: Step): State
    requires Enabled(s, a)
  {
    match a
    case Begin(tx) => s.(open := s.open[tx := NEW])
    case Draw(tx, series, pattern, ctx) => Drawn(s, tx, series, pattern, ctx)
    case Insert(tx) => Inserted(s, tx)
    case Commit(tx) => Committed(s, tx)
    case Abort(tx) => s.(open := s.open - {tx})
  }

  ghost function Machine(): (State, Step, State) -> bool {
    (s: State, a: Step, t: State) => Enabled(s, a) && t == Apply(s, a)
  }

  // ---- gapless ----------------------------------------------------------------------------------

  /** A document of this counter with this sequence and the number its pattern gives it. */
  ghost predicate Numbered(k: Counter, d: Document, sequence: nat) {
    && d.sequence == sequence && CanNumber(d.pattern, d.ctx)
    && NumberScope(d.pattern, d.ctx) == Ok(k.1) && FormatNumber(d.pattern, d.ctx, sequence) == Ok(d.number)
  }

  /** A list of documents has consecutive sequences, from the one after `start` on. */
  ghost predicate Consecutive(k: Counter, list: seq<Document>, start: nat) {
    forall i :: 0 <= i < |list| ==> Numbered(k, list[i], start + 1 + i)
  }

  ghost predicate SavedInv(s: State) {
    forall k :: LastValue(s.counters, k) == |Listed(s.documents, k)| && Consecutive(k, Listed(s.documents, k), 0)
  }

  predicate DraftOf(t: Tx, k: Counter) {
    t.drawn.Some? && t.drawn.value.counter == k
  }

  ghost predicate OpenAt(s: State, tx: TxId, k: Counter)
    requires tx in s.open
  {
    var t, start := s.open[tx], |Listed(s.documents, k)|;
    var next := start + |Listed(t.documents, k)| + 1;
    && Consecutive(k, Listed(t.documents, k), start)
    && (k in t.counters ==> t.counters[k] == if DraftOf(t, k) then next else next - 1)
    && (k !in t.counters ==> Listed(t.documents, k) == [] && !DraftOf(t, k))
    && (DraftOf(t, k) ==> Numbered(k, t.drawn.value.document, next))
  }

  ghost predicate OpenInv(s: State) {
    && (forall tx, k :: tx in s.open ==> OpenAt(s, tx, k))
    && forall tx, other, k :: tx in s.open && other in s.open && k in s.open[tx].counters && k in s.open[other].counters ==> tx == other
  }

  ghost predicate Inv(s: State) {
    SavedInv(s) && OpenInv(s)
  }

  lemma NextIs(s: State, tx: TxId, k: Counter)
    requires Inv(s) && tx in s.open && s.open[tx].drawn.None?
    ensures NextValue(s, tx, k) == |Listed(s.documents, k)| + |Listed(s.open[tx].documents, k)| + 1
  {
    assert OpenAt(s, tx, k);
    assert LastValue(s.counters, k) == |Listed(s.documents, k)|;
  }

  lemma OneMore(k: Counter, list: seq<Document>, start: nat, d: Document)
    requires Consecutive(k, list, start) && Numbered(k, d, start + 1 + |list|)
    ensures Consecutive(k, list + [d], start)
  {
    forall i | 0 <= i < |list + [d]| ensures Numbered(k, (list + [d])[i], start + 1 + i) {
      assert i < |list| ==> Numbered(k, list[i], start + 1 + i);
    }
  }

  lemma DrawKeepsInv(s: State, tx: TxId, series: string, pattern: string, ctx: Context)
    requires Inv(s) && Enabled(s, Draw(tx, series, pattern, ctx))
    ensures Inv(Drawn(s, tx, series, pattern, ctx))
  {
    var k, t := CounterOf(series, pattern, ctx), Drawn(s, tx, series, pattern, ctx);
    NextIs(s, tx, k);
    FailsIff(pattern, ctx, NextValue(s, tx, k));
    forall other, l | other in t.open ensures OpenAt(t, other, l) {
      assert OpenAt(s, other, l);
    }
  }

  /** The next document of a counter joins the list of the transaction that holds it. */
  lemma InsertKeepsInv(s: State, tx: TxId)
    requires Inv(s) && Enabled(s, Insert(tx))
    ensures Inv(Inserted(s, tx))
  {
    var draft, t := s.open[tx].drawn.value, Inserted(s, tx);
    var k := draft.counter;
    assert OpenAt(s, tx, k);
    OneMore(k, Listed(s.open[tx].documents, k), |Listed(s.documents, k)|, draft.document);
    forall other, l | other in t.open ensures OpenAt(t, other, l) {
      assert OpenAt(s, other, l);
    }
  }

  lemma CommitKeepsSaved(s: State, tx: TxId)
    requires Inv(s) && Enabled(s, Commit(tx))
    ensures SavedInv(Committed(s, tx))
  {
    var t := Committed(s, tx);
    forall k ensures LastValue(t.counters, k) == |Listed(t.documents, k)| && Consecutive(k, Listed(t.documents, k), 0) {
      assert OpenAt(s, tx, k);
      assert Listed(t.documents, k) == Listed(s.documents, k) + Listed(s.open[tx].documents, k);
    }
  }

  lemma CommitKeepsOpen(s: State, tx: TxId)
    requires Inv(s) && Enabled(s, Commit(tx))
    ensures OpenInv(Committed(s, tx))
  {
    var t := Committed(s, tx);
    forall other, k | other in t.open ensures OpenAt(t, other, k) {
      assert OpenAt(s, other, k) && OpenAt(s, tx, k);
    }
  }

  lemma StepKeepsInv(s: State, a: Step)
    requires Inv(s) && Enabled(s, a)
    ensures Inv(Apply(s, a))
  {
    match a {
      case Begin(tx) =>
        var t := Apply(s, a);
        forall other, k | other in t.open ensures OpenAt(t, other, k) {
          assert other != tx ==> OpenAt(s, other, k);
        }
      case Draw(tx, series, pattern, ctx) => DrawKeepsInv(s, tx, series, pattern, ctx);
      case Insert(tx) => InsertKeepsInv(s, tx);
      case Commit(tx) =>
        CommitKeepsSaved(s, tx);
        CommitKeepsOpen(s, tx);
      case Abort(tx) =>
        var t := Apply(s, a);
        forall other, k | other in t.open ensures OpenAt(t, other, k) {
          assert OpenAt(s, other, k);
        }
    }
  }

  lemma ReachableInv(s: State)
    requires Runs.Reaches(Machine(), Init(), s)
    ensures Inv(s)
  {
    forall u: State, a: Step, v: State | Inv(u) && Machine()(u, a, v) ensures Inv(v) {
      StepKeepsInv(u, a);
    }
    Runs.InvariantHolds(Machine(), (u: State) => Inv(u), Init(), s);
  }

  /**
   Main result: in every reachable state the committed documents of a series and scope have the sequences
   1, 2, 3, ... up to the counter's value, each once: no rollback leaves a gap.
   */
  lemma Gapless(s: State, k: Counter)
    requires Runs.Reaches(Machine(), Init(), s)
    ensures var list := Listed(s.documents, k);
      LastValue(s.counters, k) == |list| && forall i :: 0 <= i < |list| ==> list[i].sequence == i + 1
  {
    ReachableInv(s);
    var list := Listed(s.documents, k);
    forall i | 0 <= i < |list| ensures list[i].sequence == i + 1 {
      assert Numbered(k, list[i], 0 + 1 + i);
    }
  }

  lemma DocumentIsNumbered(s: State, k: Counter, i: nat, d: Document)
    requires Inv(s) && IsAt(s.documents, k, i, d)
    ensures Numbered(k, d, i + 1)
  {
    assert Numbered(k, Listed(s.documents, k)[i], 0 + 1 + i);
  }

  // ---- no number twice ----------------------------------------------------------------------------

  /** A document that is stored: committed, or inserted by an open transaction. */
  predicate StoredAt(s: State, owner: Option<TxId>, k: Counter, i: nat, d: Document) {
    match owner
    case None => IsAt(s.documents, k, i, d)
    case Some(tx) => tx in s.open && IsAt(s.open[tx].documents, k, i, d)
  }

  ghost predicate Unique(s: State) {
    forall owner, k, i: nat, d, other, l, j: nat, e :: StoredAt(s, owner, k, i, d) && StoredAt(s, other, l, j, e) ==>
      k.0 == l.0 && d.number == e.number ==> owner == other && k == l && i == j
  }

  lemma InsertKeepsUnique(s: State, tx: TxId)
    requires Unique(s) && Enabled(s, Insert(tx))
    ensures Unique(Inserted(s, tx))
  {
    var t, draft := Inserted(s, tx), s.open[tx].drawn.value;
    var c, n := draft.counter, |Listed(s.open[tx].documents, draft.counter)|;
    forall owner, k, i: nat, d | StoredAt(t, owner, k, i, d)
      ensures StoredAt(s, owner, k, i, d) || (owner == Some(tx) && k == c && i == n && d == draft.document) {}
    forall owner, k, i: nat, d | StoredAt(s, owner, k, i, d) && k.0 == c.0 ensures d.number != draft.document.number {
      if owner.Some? {
        assert Has(s.open[owner.value].documents, k.0, d.number);
      } else {
        assert Has(s.documents, k.0, d.number);
      }
    }
  }

  /** Where a document stored after a commit was before it. */
  lemma StoredBeforeCommit(s: State, tx: TxId, owner: Option<TxId>, k: Counter, i: nat, d: Document)
    returns (was: Option<TxId>, at: nat)
    requires tx in s.open && StoredAt(Committed(s, tx), owner, k, i, d)
    ensures StoredAt(s, was, k, at, d)
    ensures var n := |Listed(s.documents, k)|;
      if owner.None? && i >= n then was == Some(tx) && at == i - n else was == owner && at == i && was != Some(tx)
  {
    var n := |Listed(s.documents, k)|;
    was, at := owner, i;
    if owner.None? {
      assert Listed(Committed(s, tx).documents, k) == Listed(s.documents, k) + Listed(s.open[tx].documents, k);
      if i >= n {
        was, at := Some(tx), i - n;
      }
    }
  }

  lemma CommitKeepsUnique(s: State, tx: TxId)
    requires Unique(s) && tx in s.open
    ensures Unique(Committed(s, tx))
  {
    var t := Committed(s, tx);
    forall owner, k, i: nat, d, other, l, j: nat, e
      | StoredAt(t, owner, k, i, d) && StoredAt(t, other, l, j, e) && k.0 == l.0 && d.number == e.number
      ensures owner == other && k == l && i == j
    {
      var was, a := StoredBeforeCommit(s, tx, owner, k, i, d);
      var before, b := StoredBeforeCommit(s, tx, other, l, j, e);
    }
  }

  /** Nothing is stored that was not stored before. */
  lemma FewerKeepUnique(s: State, t: State)
    requires Unique(s) && forall owner, k, i: nat, d :: StoredAt(t, owner, k, i, d) ==> StoredAt(s, owner, k, i, d)
    ensures Unique(t)
  {
  }

  lemma StepKeepsUnique(s: State, a: Step)
    requires Unique(s) && Enabled(s, a)
    ensures Unique(Apply(s, a))
  {
    match a {
      case Insert(tx) => InsertKeepsUnique(s, tx);
      case Commit(tx) => CommitKeepsUnique(s, tx);
      case _ => FewerKeepUnique(s, Apply(s, a));
    }
  }

  /**
   Main result: no two documents of a series, committed or not, ever have the same number, whatever the
   patterns, branches and dates they are numbered with.
   */
  lemma NeverRepeats(s: State, owner: Option<TxId>, k: Counter, i: nat, d: Document, other: Option<TxId>, l: Counter, j: nat, e: Document)
    requires Runs.Reaches(Machine(), Init(), s) && StoredAt(s, owner, k, i, d) && StoredAt(s, other, l, j, e)
    ensures k.0 == l.0 && d.number == e.number ==> owner == other && k == l && i == j
  {
    forall u: State, a: Step, v: State | Unique(u) && Machine()(u, a, v) ensures Unique(v) {
      StepKeepsUnique(u, a);
    }
    Runs.InvariantHolds(Machine(), (u: State) => Unique(u), Init(), s);
  }

  // ---- scopes without a next number ---------------------------------------------------------------

  /** The number that the scope's next document is to have. */
  function NextNumber(s: State, series: string, pattern: string, ctx: Context): string
    requires CanNumber(pattern, ctx)
  {
    NewDocument(pattern, ctx, LastValue(s.counters, CounterOf(series, pattern, ctx)) + 1).number
  }

  /** A committed document of the series has it already. */
  ghost predicate Blocked(s: State, series: string, pattern: string, ctx: Context)
    requires CanNumber(pattern, ctx)
  {
    Has(s.documents, series, NextNumber(s, series, pattern, ctx))
  }

  lemma NextIsFormatted(s: State, series: string, pattern: string, ctx: Context)
    requires CanNumber(pattern, ctx)
    ensures FormatNumber(pattern, ctx, LastValue(s.counters, CounterOf(series, pattern, ctx)) + 1) == Ok(NextNumber(s, series, pattern, ctx))
  {
    FailsIff(pattern, ctx, LastValue(s.counters, CounterOf(series, pattern, ctx)) + 1);
  }

  /** A transaction whose number is taken can only roll back, and whatever others do, it stays so. */
  lemma TakenRollsBack(s: State, tx: TxId, a: Step)
    requires tx in s.open && s.open[tx].drawn.Some? && Enabled(s, a) && a != Abort(tx)
    requires var draft := s.open[tx].drawn.value; Taken(s, tx, draft.counter.0, draft.document.number)
    ensures a.tx != tx && tx in Apply(s, a).open && Apply(s, a).open[tx] == s.open[tx]
    ensures var draft := s.open[tx].drawn.value; Taken(Apply(s, a), tx, draft.counter.0, draft.document.number)
  {
    var draft := s.open[tx].drawn.value;
    if Has(s.documents, draft.counter.0, draft.document.number) && a.Commit? {
      CommitKeepsNumbers(s, a.tx, draft.counter.0, draft.document.number);
    }
  }

  lemma CommitKeepsNumbers(s: State, tx: TxId, series: string, number: string)
    requires tx in s.open && Has(s.documents, series, number)
    ensures Has(Committed(s, tx).documents, series, number)
  {
    var k, i: nat, d :| IsAt(s.documents, k, i, d) && k.0 == series && d.number == number;
    assert Listed(Committed(s, tx).documents, k) == Listed(s.documents, k) + Listed(s.open[tx].documents, k);
    assert IsAt(Committed(s, tx).documents, k, i, d);
  }

  /** A scope's own documents never have its next number, even if they were numbered by another pattern. */
  lemma OwnNumbersDiffer(s: State, series: string, pattern: string, ctx: Context, i: nat, d: Document)
    requires Runs.Reaches(Machine(), Init(), s) && CanNumber(pattern, ctx)
    requires IsAt(s.documents, CounterOf(series, pattern, ctx), i, d)
    ensures d.number != NextNumber(s, series, pattern, ctx)
  {
    var k := CounterOf(series, pattern, ctx);
    ReachableInv(s);
    DocumentIsNumbered(s, k, i, d);
    NextIsFormatted(s, series, pattern, ctx);
    ScopeNumbersDiffer(d.pattern, d.ctx, i + 1, pattern, ctx, LastValue(s.counters, k) + 1);
  }

  // ---- a blocked scope ----------------------------------------------------------------------------

  /** The machine while everybody numbers in this scope by this pattern. */
  ghost function Keeping(k: Counter, pattern: string): (State, Step, State) -> bool {
    (s: State, a: Step, t: State) => Enabled(s, a) && t == Apply(s, a) && KeepsPattern(k, pattern, a)
  }

  predicate KeepsPattern(k: Counter, pattern: string, a: Step) {
    a.Draw? && (a.series, NumberScope(a.pattern, a.ctx)) == (k.0, Ok(k.1)) ==> a.pattern == pattern
  }

  lemma KeepingNext(k: Counter, pattern: string, s: State, t: State, a: Step, u: State)
    requires Runs.Reaches(Keeping(k, pattern), s, t) && Enabled(t, a) && u == Apply(t, a) && KeepsPattern(k, pattern, a)
    ensures Runs.Reaches(Keeping(k, pattern), s, u)
  {
    Runs.ReachNext(Keeping(k, pattern), s, t, a, u);
  }

  /** Nothing was inserted under the counter, and whoever holds it has drawn the number. */
  predicate Drafting(t: Tx, k: Counter, number: string) {
    && Listed(t.documents, k) == [] && (k in t.counters ==> DraftOf(t, k))
    && (DraftOf(t, k) ==> t.drawn.value.document.number == number)
  }

  /** The scope is at this sequence, and its next number is taken. */
  ghost predicate Stuck(s: State, k: Counter, last: nat, number: string) {
    && |Listed(s.documents, k)| == last && LastValue(s.counters, k) == last && Has(s.documents, k.0, number)
    && forall tx :: tx in s.open ==> Drafting(s.open[tx], k, number)
  }

  lemma StepKeepsStuck(s: State, a: Step, k: Counter, last: nat, pattern: string, ctx: Context, number: string)
    requires CanNumber(pattern, ctx) && NumberScope(pattern, ctx) == Ok(k.1) && FormatNumber(pattern, ctx, last + 1) == Ok(number)
    requires Stuck(s, k, last, number) && Enabled(s, a) && KeepsPattern(k, pattern, a)
    ensures Stuck(Apply(s, a), k, last, number)
  {
    match a {
      case Draw(tx, series, other, otherCtx) => DrawKeepsStuck(s, a, k, last, pattern, ctx, number);
      case Insert(tx) => assert Drafting(s.open[tx], k, number);
      case Commit(tx) =>
        assert Drafting(s.open[tx], k, number);
        CommitKeepsNumbers(s, tx, k.0, number);
      case _ =>
    }
  }

  lemma DrawKeepsStuck(s: State, a: Step, k: Counter, last: nat, pattern: string, ctx: Context, number: string)
    requires CanNumber(pattern, ctx) && NumberScope(pattern, ctx) == Ok(k.1) && FormatNumber(pattern, ctx, last + 1) == Ok(number)
    requires Stuck(s, k, last, number) && a.Draw? && Enabled(s, a)
    requires KeepsPattern(k, pattern, a)
    ensures Stuck(Drawn(s, a.tx, a.series, a.pattern, a.ctx), k, last, number)
  {
    assert Drafting(s.open[a.tx], k, number);
    if CounterOf(a.series, a.pattern, a.ctx) == k {
      ScopeNumbersDiffer(pattern, ctx, last + 1, a.pattern, a.ctx, last + 1);
    }
  }

  ghost predicate Grows(k: Counter, pattern: string, s: State, t: State) {
    Runs.Reaches(Keeping(k, pattern), s, t) && |Listed(t.documents, k)| > |Listed(s.documents, k)|
  }

  /** Nobody holds the counter's row lock. */
  predicate Unlocked(s: State, k: Counter) {
    forall tx :: tx in s.open ==> k !in s.open[tx].counters
  }

  lemma BlockedStays(s: State, series: string, pattern: string, ctx: Context, t: State)
    requires Runs.Reaches(Machine(), Init(), s) && CanNumber(pattern, ctx) && Blocked(s, series, pattern, ctx)
    requires Unlocked(s, CounterOf(series, pattern, ctx))
    requires Runs.Reaches(Keeping(CounterOf(series, pattern, ctx), pattern), s, t)
    ensures Blocked(t, series, pattern, ctx) && !Grows(CounterOf(series, pattern, ctx), pattern, s, t)
  {
    var k := CounterOf(series, pattern, ctx);
    var last, number := LastValue(s.counters, k), NextNumber(s, series, pattern, ctx);
    ReachableInv(s);
    NextIsFormatted(s, series, pattern, ctx);
    forall tx | tx in s.open ensures Drafting(s.open[tx], k, number) {
      assert OpenAt(s, tx, k);
    }
    forall u: State, a: Step, v: State | Stuck(u, k, last, number) && Keeping(k, pattern)(u, a, v) ensures Stuck(v, k, last, number) {
      StepKeepsStuck(u, a, k, last, pattern, ctx, number);
    }
    Runs.InvariantHolds(Keeping(k, pattern), (u: State) => Stuck(u, k, last, number), s, t);
  }

  // ---- issuing one number -------------------------------------------------------------------------

  lemma {:induction false} AbortAll(k: Counter, pattern: string, s: State)
    ensures Runs.Reaches(Keeping(k, pattern), s, s.(open := map[]))
    decreases |s.open|
  {
    Runs.ReachSelf(Keeping(k, pattern), s);
    if s.open != map[] {
      var tx :| tx in s.open;
      var t := s.(open := s.open - {tx});
      KeepingNext(k, pattern, s, s, Abort(tx), t);
      AbortAll(k, pattern, t);
      Runs.ReachFrom(Keeping(k, pattern), s, t, s.(open := map[]));
    }
  }

  /** What one transaction that draws and stores one number adds. */
  lemma IssueAdds(s: State, k: Counter, d: Document, value: nat, l: Counter)
    ensures var t := Tx(map[k := value], map[k := [d]], None);
      Listed(Committed(s.(open := map[0 := t]), 0).documents, l) == Listed(s.documents, l) + if l == k then [d] else []
  {
  }

  /** A transaction alone, and how it goes on. */
  function Alone(s: State, t: Tx): State {
    s.(open := map[0 := t])
  }

  lemma AloneDraws(s: State, series: string, pattern: string, ctx: Context, k: Counter, value: nat)
    requires CanNumber(pattern, ctx) && k == CounterOf(series, pattern, ctx) && value == LastValue(s.counters, k) + 1
    ensures var a, d := Alone(s, NEW), NewDocument(pattern, ctx, value);
      && Enabled(a, Draw(0, series, pattern, ctx))
      && Drawn(a, 0, series, pattern, ctx) == Alone(s, Tx(map[k := value], map[], Some(Draft(k, d))))
  {
  }

  lemma AloneInserts(s: State, k: Counter, value: nat, d: Document)
    requires !Has(s.documents, k.0, d.number)
    ensures var b := Alone(s, Tx(map[k := value], map[], Some(Draft(k, d))));
      Enabled(b, Insert(0)) && Inserted(b, 0) == Alone(s, Tx(map[k := value], map[k := [d]], None))
  {
    assert Listed(map[], k) + [d] == [d];
    var b := Alone(s, Tx(map[k := value], map[], Some(Draft(k, d))));
    assert !Has(b.open[0].documents, k.0, d.number);
  }

  /** One transaction alone: it issues the next number if the scope is not blocked. */
  lemma {:induction false} IssueOne(s: State, series: string, pattern: string, ctx: Context) returns (t: State, d: Document)
    requires s.open == map[] && CanNumber(pattern, ctx) && !Blocked(s, series, pattern, ctx)
    ensures Runs.Reaches(Keeping(CounterOf(series, pattern, ctx), pattern), s, t) && t.open == map[]
    ensures d.pattern == pattern && d.ctx == ctx
    ensures var k := CounterOf(series, pattern, ctx);
      forall l :: Listed(t.documents, l) == Listed(s.documents, l) + if l == k then [d] else []
  {
    var k := CounterOf(series, pattern, ctx);
    var value := LastValue(s.counters, k) + 1;
    d := NewDocument(pattern, ctx, value);
    AloneDraws(s, series, pattern, ctx, k, value);
    AloneInserts(s, k, value, d);
    t := IssueRuns(s, series, pattern, ctx, k, value, d);
    forall l ensures Listed(t.documents, l) == Listed(s.documents, l) + if l == k then [d] else [] {
      IssueAdds(s, k, d, value, l);
    }
  }

  lemma {:induction false} IssueRuns(s: State, series: string, pattern: string, ctx: Context, k: Counter, value: nat, d: Document)
    returns (t: State)
    requires s.open == map[] && CanNumber(pattern, ctx)
    requires var a, b, c := Alone(s, NEW), Alone(s, Tx(map[k := value], map[], Some(Draft(k, d)))), Alone(s, Tx(map[k := value], map[k := [d]], None));
      && Enabled(a, Draw(0, series, pattern, ctx)) && Drawn(a, 0, series, pattern, ctx) == b
      && Enabled(b, Insert(0)) && Inserted(b, 0) == c
    ensures t == Committed(Alone(s, Tx(map[k := value], map[k := [d]], None)), 0)
    ensures Runs.Reaches(Keeping(k, pattern), s, t) && t.open == map[]
  {
    var a, b, c := Alone(s, NEW), Alone(s, Tx(map[k := value], map[], Some(Draft(k, d)))), Alone(s, Tx(map[k := value], map[k := [d]], None));
    t := Committed(c, 0);
    Runs.ReachSelf(Keeping(k, pattern), s);
    KeepingNext(k, pattern, s, s, Begin(0), a);
    KeepingNext(k, pattern, s, a, Draw(0, series, pattern, ctx), b);
    KeepingNext(k, pattern, s, b, Insert(0), c);
    KeepingNext(k, pattern, s, c, Commit(0), t);
  }

  /**
   Main result: as long as a scope keeps its pattern, something more is issued in it, in whatever way
   transactions go on, exactly when its next number is not taken.
   */
  lemma IssuesIff(s: State, series: string, pattern: string, ctx: Context)
    requires Runs.Reaches(Machine(), Init(), s) && CanNumber(pattern, ctx)
    requires Unlocked(s, CounterOf(series, pattern, ctx))
    ensures (exists t :: Grows(CounterOf(series, pattern, ctx), pattern, s, t)) <==> !Blocked(s, series, pattern, ctx)
  {
    var k := CounterOf(series, pattern, ctx);
    if Blocked(s, series, pattern, ctx) {
      forall t | Grows(k, pattern, s, t) ensures false {
        BlockedStays(s, series, pattern, ctx, t);
      }
    } else {
      AbortAll(k, pattern, s);
      var u := s.(open := map[]);
      var t, d := IssueOne(u, series, pattern, ctx);
      Runs.ReachFrom(Keeping(k, pattern), s, u, t);
      assert Grows(k, pattern, s, t);
    }
  }

  /** A run that keeps a pattern is a run. */
  lemma KeepingReaches(k: Counter, pattern: string, s: State, t: State)
    requires Runs.Reaches(Keeping(k, pattern), s, t)
    ensures Runs.Reaches(Machine(), s, t)
  {
    var states, steps :| Runs.IsRun(Keeping(k, pattern), states, steps) && states[0] == s && states[|steps|] == t;
    forall i | 0 <= i < |steps| ensures Runs.StepAt(Machine(), states, steps, i) {
      assert Runs.StepAt(Keeping(k, pattern), states, steps, i);
    }
    assert Runs.IsRun(Machine(), states, steps);
  }

  // ---- a series that is never blocked -------------------------------------------------------------

  /** The patterns and contexts that a series may number with, over all its time. */
  type Uses = (string, Context) -> bool

  /** All documents of the series are numbered by what it uses. */
  ghost predicate NumbersBy(uses: Uses, s: State, series: string) {
    forall k, i: nat, d :: IsAt(s.documents, k, i, d) && k.0 == series ==> uses(d.pattern, d.ctx)
  }

  /** As long as a series numbers by what it uses, every scope of it has a next number. */
  ghost predicate NeverBlocked(uses: Uses) {
    forall s, series, pattern, ctx ::
      && Runs.Reaches(Machine(), Init(), s) && NumbersBy(uses, s, series)
      && uses(pattern, ctx) && CanNumber(pattern, ctx) ==>
        !Blocked(s, series, pattern, ctx)
  }

  // ---- scopes that meet ---------------------------------------------------------------------------

  /** The texts around the sequence's mark, and the pattern's width. */
  function ScopeOf(pattern: string, ctx: Context): Scope
    requires CanNumber(pattern, ctx)
  {
    var text := NumberScope(pattern, ctx).value;
    var n := Span(text, NotBrace);
    Scope(text[..n], if SequenceWidth(pattern).Some? then Value(SequenceWidth(pattern).value) else 1,
          if n + 5 <= |text| then text[n + 5..] else "")
  }

  lemma ScopeIs(pattern: string, ctx: Context, n: nat)
    requires CanNumber(pattern, ctx)
    ensures var s := ScopeOf(pattern, ctx);
      && s.width >= 1 && NumberScope(pattern, ctx) == Ok(s.front + "{SEQ}" + s.end)
      && FormatNumber(pattern, ctx, n) == Ok(NumberOf(s, Pad(Decimal(n), s.width)))
  {
    var a, width, b := Parts(pattern, ctx, n);
    var text := a + "{SEQ}" + b;
    assert text == a + ("{SEQ}" + b);
    SpanIs(a, "{SEQ}" + b, NotBrace);
    assert text[..|a|] == a && text[|a| + 5..] == b;
    AcceptedIff(pattern);
    var pre, w, suf :| Shaped(pattern, pre, w, suf);
    Searched(pattern, pre, w, suf);
  }

  /** Two different scopes that share a number. */
  ghost predicate Clash(pattern: string, ctx: Context, other: string, otherCtx: Context) {
    && CanNumber(pattern, ctx) && CanNumber(other, otherCtx)
    && NumberScope(pattern, ctx) != NumberScope(other, otherCtx)
    && Meets(ScopeOf(pattern, ctx), ScopeOf(other, otherCtx))
  }

  /** Scopes that meet share the numbers of two sequences. */
  lemma ClashShares(pattern: string, ctx: Context, other: string, otherCtx: Context) returns (m: nat, n: nat)
    requires Clash(pattern, ctx, other, otherCtx)
    ensures m >= 1 && n >= 1 && FormatNumber(pattern, ctx, m) == FormatNumber(other, otherCtx, n)
  {
    var s, t := ScopeOf(pattern, ctx), ScopeOf(other, otherCtx);
    ScopeIs(pattern, ctx, 1);
    ScopeIs(other, otherCtx, 1);
    SharesIff(s, t);
    var x, y :| IsShown(x, s.width) && IsShown(y, t.width) && NumberOf(s, x) == NumberOf(t, y);
    ShownIff(x, s.width);
    ShownIff(y, t.width);
    m :| m >= 1 && Pad(Decimal(m), s.width) == x;
    n :| n >= 1 && Pad(Decimal(n), t.width) == y;
    ScopeIs(pattern, ctx, m);
    ScopeIs(other, otherCtx, n);
  }

  lemma SharedClash(pattern: string, ctx: Context, m: nat, other: string, otherCtx: Context, n: nat)
    requires CanNumber(pattern, ctx) && CanNumber(other, otherCtx) && m >= 1 && n >= 1
    requires NumberScope(pattern, ctx) != NumberScope(other, otherCtx)
    requires FormatNumber(pattern, ctx, m) == FormatNumber(other, otherCtx, n)
    ensures Clash(pattern, ctx, other, otherCtx)
  {
    var s, t := ScopeOf(pattern, ctx), ScopeOf(other, otherCtx);
    ScopeIs(pattern, ctx, m);
    ScopeIs(other, otherCtx, n);
    SequenceIsShown(m, s.width);
    SequenceIsShown(n, t.width);
    assert NumberOf(s, Pad(Decimal(m), s.width)) == NumberOf(t, Pad(Decimal(n), t.width));
    SharesIff(s, t);
  }

  // ---- a run that blocks --------------------------------------------------------------------------

  /** Only these two scopes of the series were used, by these patterns. */
  ghost predicate OnlyBy(s: State, series: string, pattern: string, ctx: Context, other: string, otherCtx: Context) {
    forall k, i: nat, d :: IsAt(s.documents, k, i, d) && k.0 == series ==>
      (d.pattern == pattern && d.ctx == ctx) || (d.pattern == other && d.ctx == otherCtx)
  }

  /** A scope grows by one document, or is blocked. */
  lemma GrowOne(s: State, series: string, pattern: string, ctx: Context) returns (t: State, d: Document)
    requires Runs.Reaches(Machine(), Init(), s) && s.open == map[] && CanNumber(pattern, ctx) && !Blocked(s, series, pattern, ctx)
    ensures Runs.Reaches(Machine(), Init(), t) && t.open == map[] && d.pattern == pattern && d.ctx == ctx
    ensures var k := CounterOf(series, pattern, ctx);
      forall l :: Listed(t.documents, l) == Listed(s.documents, l) + if l == k then [d] else []
  {
    t, d := IssueOne(s, series, pattern, ctx);
    KeepingReaches(CounterOf(series, pattern, ctx), pattern, s, t);
    Runs.ReachFrom(Machine(), Init(), s, t);
  }

  /** What was there stays, and this scope has documents by this pattern behind it. */
  ghost predicate Grown(s: State, t: State, k: Counter, pattern: string, ctx: Context) {
    && (forall l :: l != k ==> Listed(t.documents, l) == Listed(s.documents, l))
    && |Listed(s.documents, k)| <= |Listed(t.documents, k)|
    && forall i :: |Listed(s.documents, k)| <= i < |Listed(t.documents, k)| ==>
      Listed(t.documents, k)[i].pattern == pattern && Listed(t.documents, k)[i].ctx == ctx
  }

  /** A scope grows up to a length, unless it is blocked before. */
  lemma {:induction false} Grow(s: State, series: string, pattern: string, ctx: Context, count: nat) returns (t: State)
    requires Runs.Reaches(Machine(), Init(), s) && s.open == map[] && CanNumber(pattern, ctx)
    requires Listed(s.documents, CounterOf(series, pattern, ctx)) == []
    ensures Runs.Reaches(Machine(), Init(), t) && t.open == map[] && Grown(s, t, CounterOf(series, pattern, ctx), pattern, ctx)
    ensures var n := |Listed(t.documents, CounterOf(series, pattern, ctx))|;
      n <= count && (n < count ==> Blocked(t, series, pattern, ctx))
    decreases count
  {
    t := s;
    if count > 0 {
      t := Grow(s, series, pattern, ctx, count - 1);
      if !Blocked(t, series, pattern, ctx) {
        var d;
        t, d := GrowOne(t, series, pattern, ctx);
      }
    }
  }

  /** In a series where only one scope has documents, that scope is not blocked. */
  lemma AloneIsFree(s: State, series: string, pattern: string, ctx: Context)
    requires Runs.Reaches(Machine(), Init(), s) && CanNumber(pattern, ctx)
    requires forall l :: l != CounterOf(series, pattern, ctx) ==> Listed(s.documents, l) == []
    ensures !Blocked(s, series, pattern, ctx)
  {
    if k, i: nat, d :| IsAt(s.documents, k, i, d) && k.0 == series && d.number == NextNumber(s, series, pattern, ctx) {
      OwnNumbersDiffer(s, series, pattern, ctx, i, d);
    }
  }

  /** When the other scope is about to number n, that number is taken. */
  lemma SharedBlocks(s: State, series: string, pattern: string, ctx: Context, m: nat, other: string, otherCtx: Context, n: nat)
    requires Runs.Reaches(Machine(), Init(), s) && CanNumber(pattern, ctx) && CanNumber(other, otherCtx) && m >= 1 && n >= 1
    requires FormatNumber(pattern, ctx, m) == FormatNumber(other, otherCtx, n)
    requires var list := Listed(s.documents, CounterOf(series, pattern, ctx));
      |list| == m && list[m - 1].pattern == pattern && list[m - 1].ctx == ctx
    requires |Listed(s.documents, CounterOf(series, other, otherCtx))| == n - 1
    ensures Blocked(s, series, other, otherCtx)
  {
    var k, l := CounterOf(series, pattern, ctx), CounterOf(series, other, otherCtx);
    ReachableInv(s);
    var d := Listed(s.documents, k)[m - 1];
    assert IsAt(s.documents, k, m - 1, d);
    DocumentIsNumbered(s, k, m - 1, d);
    assert LastValue(s.counters, l) == |Listed(s.documents, l)|;
    NextIsFormatted(s, series, other, otherCtx);
  }

  /** Two scopes grown one after the other are all there is. */
  lemma TwoGrown(r: State, s: State, series: string, pattern: string, ctx: Context, other: string, otherCtx: Context)
    requires CanNumber(pattern, ctx) && CanNumber(other, otherCtx)
    requires CounterOf(series, pattern, ctx) != CounterOf(series, other, otherCtx)
    requires Grown(Init(), r, CounterOf(series, pattern, ctx), pattern, ctx)
    requires Grown(r, s, CounterOf(series, other, otherCtx), other, otherCtx)
    ensures OnlyBy(s, series, pattern, ctx, other, otherCtx)
    ensures var k := CounterOf(series, pattern, ctx);
      Listed(s.documents, k) == Listed(r.documents, k) && forall d :: d in Listed(s.documents, k) ==> d.pattern == pattern && d.ctx == ctx
  {
    var k, l := CounterOf(series, pattern, ctx), CounterOf(series, other, otherCtx);
    forall c, i: nat, d | IsAt(s.documents, c, i, d)
      ensures if c == l then d.pattern == other && d.ctx == otherCtx else c == k && d.pattern == pattern && d.ctx == ctx
    {
      assert c != l && c != k ==> Listed(s.documents, c) == Listed(r.documents, c) == Listed(Init().documents, c) == [];
    }
  }

  /** Two scopes that share a number: one has it, and the other comes to a number that is taken. */
  lemma {:induction false} SharedNumberBlocks(series: string, pattern: string, ctx: Context, m: nat, other: string, otherCtx: Context, n: nat)
    returns (s: State)
    requires CanNumber(pattern, ctx) && CanNumber(other, otherCtx) && m >= 1 && n >= 1
    requires NumberScope(pattern, ctx) != NumberScope(other, otherCtx)
    requires FormatNumber(pattern, ctx, m) == FormatNumber(other, otherCtx, n)
    ensures Runs.Reaches(Machine(), Init(), s) && s.open == map[] && Blocked(s, series, other, otherCtx)
    ensures OnlyBy(s, series, pattern, ctx, other, otherCtx)
    ensures |Listed(s.documents, CounterOf(series, pattern, ctx))| == m && |Listed(s.documents, CounterOf(series, other, otherCtx))| < n
  {
    var r := GrowAlone(series, pattern, ctx, m);
    s := Grow(r, series, other, otherCtx, n - 1);
    TwoGrown(r, s, series, pattern, ctx, other, otherCtx);
    if !Blocked(s, series, other, otherCtx) {
      var list := Listed(s.documents, CounterOf(series, pattern, ctx));
      assert list[m - 1] in list;
      SharedBlocks(s, series, pattern, ctx, m, other, otherCtx, n);
    }
  }

  lemma GrowAlone(series: string, pattern: string, ctx: Context, m: nat) returns (r: State)
    requires CanNumber(pattern, ctx)
    ensures Runs.Reaches(Machine(), Init(), r) && r.open == map[] && Grown(Init(), r, CounterOf(series, pattern, ctx), pattern, ctx)
    ensures |Listed(r.documents, CounterOf(series, pattern, ctx))| == m
  {
    Runs.ReachSelf(Machine(), Init());
    r := Grow(Init(), series, pattern, ctx, m);
    AloneIsFree(r, series, pattern, ctx);
  }

  lemma ClashBlocks(uses: Uses, pattern: string, ctx: Context, other: string, otherCtx: Context)
    requires uses(pattern, ctx) && uses(other, otherCtx) && Clash(pattern, ctx, other, otherCtx)
    ensures !NeverBlocked(uses)
  {
    var m, n := ClashShares(pattern, ctx, other, otherCtx);
    var s := SharedNumberBlocks("s", pattern, ctx, m, other, otherCtx, n);
    assert NumbersBy(uses, s, "s");
  }

  /** The document that blocks a scope is one of another scope, and the two clash. */
  lemma BlockedClashes(s: State, series: string, pattern: string, ctx: Context) returns (k: Counter, i: nat, d: Document)
    requires Runs.Reaches(Machine(), Init(), s) && CanNumber(pattern, ctx) && Blocked(s, series, pattern, ctx)
    ensures IsAt(s.documents, k, i, d) && k.0 == series && k != CounterOf(series, pattern, ctx)
    ensures Clash(d.pattern, d.ctx, pattern, ctx)
  {
    var number := NextNumber(s, series, pattern, ctx);
    k, i, d :| IsAt(s.documents, k, i, d) && k.0 == series && d.number == number;
    if k == CounterOf(series, pattern, ctx) {
      OwnNumbersDiffer(s, series, pattern, ctx, i, d);
    }
    ReachableInv(s);
    DocumentIsNumbered(s, k, i, d);
    NextIsFormatted(s, series, pattern, ctx);
    SharedClash(d.pattern, d.ctx, i + 1, pattern, ctx, LastValue(s.counters, CounterOf(series, pattern, ctx)) + 1);
  }

  /**
   Main result: over all that a series does, its patterns replaced as may be, every scope of it always has a
   next number exactly when no two different scopes that it uses meet.
   */
  lemma NeverBlockedIff(uses: Uses)
    ensures NeverBlocked(uses) <==>
      forall pattern, ctx, other, otherCtx :: uses(pattern, ctx) && uses(other, otherCtx) ==> !Clash(pattern, ctx, other, otherCtx)
  {
    if pattern, ctx, other, otherCtx :| uses(pattern, ctx) && uses(other, otherCtx) && Clash(pattern, ctx, other, otherCtx) {
      ClashBlocks(uses, pattern, ctx, other, otherCtx);
    } else {
      forall s, series, pattern, ctx |
        && Runs.Reaches(Machine(), Init(), s) && NumbersBy(uses, s, series)
        && uses(pattern, ctx) && CanNumber(pattern, ctx)
        ensures !Blocked(s, series, pattern, ctx)
      {
        if Blocked(s, series, pattern, ctx) {
          var k, i, d := BlockedClashes(s, series, pattern, ctx);
        }
      }
    }
  }

  // ---- a series that keeps its pattern --------------------------------------------------------------

  function OnePattern(pattern: string): Uses {
    (p: string, ctx: Context) => p == pattern
  }

  lemma TellsNoClash(pattern: string, ctx: Context, otherCtx: Context)
    requires Tells(pattern)
    ensures !Clash(pattern, ctx, pattern, otherCtx)
  {
    if Clash(pattern, ctx, pattern, otherCtx) {
      var m, n := ClashShares(pattern, ctx, pattern, otherCtx);
      ScopeIs(pattern, ctx, m);
      assert SameNumber(pattern, ctx, m, otherCtx, n);
    }
  }

  /** While a series keeps a pattern that tells scope and sequence, no scope of it is blocked. */
  lemma NotBlockedIfTold(pattern: string)
    requires Tells(pattern)
    ensures NeverBlocked(OnePattern(pattern))
  {
    forall ctx, otherCtx ensures !Clash(pattern, ctx, pattern, otherCtx) {
      TellsNoClash(pattern, ctx, otherCtx);
    }
    NeverBlockedIff(OnePattern(pattern));
  }

  /**
   Main result: in a series that keeps one pattern with branches no scope is ever blocked, whatever the branch
   codes, exactly when a literal that is not a digit stands between some branch and {SEQ:n}.
   */
  lemma OnePatternIff(pattern: string, pre: seq<Piece>, width: string, suf: seq<Piece>)
    requires Shaped(pattern, pre, width, suf) && Branches(pre) + Branches(suf) >= 1
    ensures NeverBlocked(OnePattern(pattern)) <==> Separated(pre, suf)
  {
    AcceptedIff(pattern);
    if Separated(pre, suf) {
      SeparatedTells(pattern, pre, width, suf);
      NotBlockedIfTold(pattern);
    } else {
      var ctx, other, m, n := Meeting(pattern, pre, width, suf);
      MeetingClash(pattern, ctx, m, other, n);
      ClashBlocks(OnePattern(pattern), pattern, ctx, pattern, other);
    }
  }

  lemma MeetingClash(pattern: string, ctx: Context, m: nat, other: Context, n: nat)
    requires ProblemOf(Tokens(pattern)).None? && Usual(ctx) && Usual(other) && m >= 1 && n >= 1
    requires SameNumber(pattern, ctx, m, other, n) && NumberScope(pattern, ctx) != NumberScope(pattern, other)
    ensures Clash(pattern, ctx, pattern, other)
  {
    FailsIff(pattern, ctx, m);
    FailsIff(pattern, other, n);
    SharedClash(pattern, ctx, m, pattern, other, n);
  }

  // ---- a pattern that is replaced -------------------------------------------------------------------

  function Lits(a: string): (pieces: seq<Piece>)
    ensures |pieces| == |a|
  {
    seq(|a|, i requires 0 <= i < |a| => Lit(a[i]))
  }

  lemma {:induction false} LitsPrint(a: string, rest: seq<Piece>)
    ensures Print(Lits(a) + rest) == a + Print(rest)
  {
    if a == [] {
      assert Lits(a) + rest == rest;
    } else {
      assert Lits(a) + rest == [Lit(a[0])] + (Lits(a[1..]) + rest);
      PrintStep(Lit(a[0]), Lits(a[1..]) + rest);
      LitsPrint(a[1..], rest);
      Numbering.OneMore(a[0], a[1..], Print(rest));
      assert a == [a[0]] + a[1..];
    }
  }

  lemma {:induction false} LitsShown(a: string, ctx: Context)
    ensures Fill(Lits(a), ctx, "") == Ok(a)
  {
    if a != [] {
      assert Lits(a) == [Lit(a[0])] + Lits(a[1..]);
      LitsShown(a[1..], ctx);
      assert a == [a[0]] + a[1..];
    }
  }

  /** Literal text and then the sequence. */
  lemma LiteralPattern(a: string, width: string, ctx: Context, n: nat)
    requires AllLiteral(a) && IsWidth(width) && Usual(ctx)
    ensures var pattern := a + Text(Token("SEQ", Some(width)));
      && CanNumber(pattern, ctx) && !PatternUsesBranch(pattern) && NumberScope(pattern, ctx) == Ok(a + "{SEQ}")
      && FormatNumber(pattern, ctx, n) == Ok(a + Pad(Decimal(n), Value(width)))
  {
    var pattern := a + Text(Token("SEQ", Some(width)));
    var rest := [Sequence(width)];
    LitsPrint(a, rest);
    LitsShown(a, ctx);
    assert rest[1..] == [] && Print(rest) == Text(Token("SEQ", Some(width))) + Print([]);
    assert Lits(a) + rest + [] == Lits(a) + rest;
    assert forall p :: p in Lits(a) ==> p.Lit? && p.c in a;
    assert Shaped(pattern, Lits(a), width, []);
    AcceptedIff(pattern);
    Searched(pattern, Lits(a), width, []);
    assert Fill([], ctx, "") == Ok("");
    NumberText(pattern, Lits(a), width, [], ctx, n);
    assert a + "{SEQ}" + "" == a + "{SEQ}";
    assert a + Pad(Decimal(n), Value(width)) + "" == a + Pad(Decimal(n), Value(width));
  }

  /** One document under a pattern, and then none under another one whose first number is the same. */
  lemma FirstNumberBlocks(series: string, pattern: string, other: string, ctx: Context, number: string) returns (s: State)
    requires CanNumber(pattern, ctx) && CanNumber(other, ctx) && NumberScope(pattern, ctx) != NumberScope(other, ctx)
    requires FormatNumber(pattern, ctx, 1) == FormatNumber(other, ctx, 1) == Ok(number)
    ensures Runs.Reaches(Machine(), Init(), s) && s.open == map[]
    ensures |Listed(s.documents, CounterOf(series, pattern, ctx))| == 1 && Listed(s.documents, CounterOf(series, other, ctx)) == []
    ensures NextNumber(s, series, other, ctx) == number && Blocked(s, series, other, ctx)
    ensures forall t :: !Grows(CounterOf(series, other, ctx), other, s, t)
  {
    s := SharedNumberBlocks(series, pattern, ctx, 1, other, ctx, 1);
    ReachableInv(s);
    assert LastValue(s.counters, CounterOf(series, other, ctx)) == 0;
    NextIsFormatted(s, series, other, ctx);
    IssuesIff(s, series, other, ctx);
  }

  /** a{SEQ:3} and a0{SEQ:2} have different scopes and the same first number. */
  lemma TwoPatterns(a: string, was: string, now: string, ctx: Context)
    requires AllLiteral(a) && Usual(ctx) && was == a + "{SEQ:3}" && now == a + "0" + "{SEQ:2}"
    ensures CanNumber(was, ctx) && CanNumber(now, ctx) && NumberScope(was, ctx) != NumberScope(now, ctx)
    ensures !PatternUsesBranch(was) && !PatternUsesBranch(now)
    ensures FormatNumber(was, ctx, 1) == FormatNumber(now, ctx, 1) == Ok(a + "001")
  {
    WidthsAre();
    assert AllLiteral(a + "0");
    LiteralPattern(a, "3", ctx, 1);
    LiteralPattern(a + "0", "2", ctx, 1);
    assert (a + "{SEQ}")[|a|] != (a + "0" + "{SEQ}")[|a|];
    assert a + "0" + "01" == a + "001";
  }

  /**
   A series that numbered once under a{SEQ:3}, and then has its pattern replaced by a0{SEQ:2}: the first
   number of both is a001, so nothing is ever issued under the new pattern. There is no branch, and neither
   pattern alone ever blocks a scope.
   */
  lemma ReplacedPatternBlocks(series: string, a: string, was: string, now: string, ctx: Context) returns (s: State)
    requires AllLiteral(a) && Usual(ctx) && was == a + "{SEQ:3}" && now == a + "0" + "{SEQ:2}"
    ensures CanNumber(was, ctx) && CanNumber(now, ctx) && Runs.Reaches(Machine(), Init(), s) && s.open == map[]
    ensures |Listed(s.documents, CounterOf(series, was, ctx))| == 1 && Listed(s.documents, CounterOf(series, now, ctx)) == []
    ensures NextNumber(s, series, now, ctx) == a + "001" && Blocked(s, series, now, ctx)
    ensures forall t :: !Grows(CounterOf(series, now, ctx), now, s, t)
    ensures NeverBlocked(OnePattern(was)) && NeverBlocked(OnePattern(now))
  {
    TwoPatterns(a, was, now, ctx);
    NoBranchTells(was);
    NoBranchTells(now);
    NotBlockedIfTold(was);
    NotBlockedIfTold(now);
    s := FirstNumberBlocks(series, was, now, ctx, a + "001");
  }

  lemma WidthsAre()
    ensures IsWidth("3") && Value("3") == 3 && IsWidth("2") && Value("2") == 2
    ensures Text(Token("SEQ", Some("3"))) == "{SEQ:3}" && Text(Token("SEQ", Some("2"))) == "{SEQ:2}"
    ensures Pad(Decimal(1), 3) == "001" && Pad(Decimal(1), 2) == "01"
  {
    assert "3"[..0] == "" && "2"[..0] == "" && Value("") == 0;
    assert Decimal(1) == "1";
    assert "0" + "1" == "01" && "0" + "01" == "001";
    assert Pad("01", 2) == "01" && Pad("01", 3) == Pad("001", 3) == "001";
  }
}

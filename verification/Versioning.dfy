/**
 Optimistic locking: updateWithVersion is a conditional UPDATE followed, when no row matched, by a
 separate SELECT. Any number of calls, each in its own transaction, interleave with inserts, deletes,
 commits and aborts.
 */
module Versioning {
  import opened Options
  import Runs

  type Id = nat
  type CallId = nat
  type Fields = map<string, string>

  datatype Row = Row(version: int, fields: Fields)
  datatype Answer = Updated(row: Row) | Conflict(currentVersion: int) | NotFound

  /** WHERE id = ... AND version = ...: the row as the update would leave it, if there is one. */
  function Replacement(rows: map<Id, Row>, id: Id, expected: int, values: Fields): Option<Row> {
    if id in rows && rows[id].version == expected then Some(Row(rows[id].version + 1, rows[id].fields + values))
    else None
  }

  function AnswerOfSelect(rows: map<Id, Row>, id: Id): Answer {
    if id in rows then Conflict(rows[id].version) else NotFound
  }

  /** The table as one caller sees it that has it to itself. */
  class Table {
    var rows: map<Id, Row>

    constructor ()
      ensures rows == map[]
    {
      rows := map[];
    }

    method Update(id: Id, expected: int, values: Fields) returns (updated: seq<Row>)
      modifies this
      ensures var row := Replacement(old(rows), id, expected, values);
        if row.Some? then updated == [row.value] && rows == old(rows)[id := row.value] else updated == [] && rows == old(rows)
    {
      updated := [];
      if id in rows && rows[id].version == expected {
        var row := Row(rows[id].version + 1, rows[id].fields + values);
        rows := rows[id := row];
        updated := [row];
      }
    }

    method UpdateWithVersion(id: Id, expected: int, values: Fields) returns (r: Answer)
      modifies this
      ensures r.Updated? <==> id in old(rows) && old(rows)[id].version == expected
      ensures r.Updated? ==> rows == old(rows)[id := r.row] && r.row == Row(expected + 1, old(rows)[id].fields + values)
      ensures !r.Updated? ==> rows == old(rows) && (r.NotFound? <==> id !in rows)
      ensures r.Conflict? ==> r.currentVersion == rows[id].version && r.currentVersion != expected
    {
      var updated := Update(id, expected, values);
      if |updated| > 0 {
        return Updated(updated[0]);
      }
      return if id in rows then Conflict(rows[id].version) else NotFound;
    }
  }

  // ---- interleaved calls ------------------------------------------------------------------------

  /** A call's transaction holds the lock of the row it updated until it ends. */
  datatype Phase = Called | Holding(row: Row) | Missed | Answered(answer: Answer) | RolledBack
  datatype Call = Call(id: Id, expected: int, values: Fields, phase: Phase)

  /** A committed version of a row and the call that wrote it; the first one was inserted. */
  datatype Version = Version(row: Row, author: Option<CallId>)

  datatype State = State(rows: map<Id, Row>, calls: map<CallId, Call>, history: map<Id, seq<Version>>)

  datatype Step =
    | Insert(id: Id, fields: Fields)
    | Delete(id: Id)
    | Begin(c: CallId, id: Id, expected: int, values: Fields)
    | Update(c: CallId)
    | Select(c: CallId)
    | Commit(c: CallId)
    | Abort(c: CallId)

  function Init(): State {
    State(map[], map[], map[])
  }

  predicate Locked(s: State, id: Id) {
    exists c :: c in s.calls && s.calls[c].id == id && s.calls[c].phase.Holding?
  }

  predicate InPhase(s: State, c: CallId, phase: Phase) {
    c in s.calls && s.calls[c].phase == phase
  }

  /** The row an update would write, if the committed version is the one its call names. */
  function Matched(s: State, c: CallId): Option<Row>
    requires c in s.calls
  {
    Replacement(s.rows, s.calls[c].id, s.calls[c].expected, s.calls[c].values)
  }

  /**
   Ids are never used again. A delete, or an update of the committed version, waits for the transaction
   that holds the row; an update that names another version matches nothing and does not wait.
   */
  predicate Enabled(s: State, a: Step) {
    match a
    case Insert(id, _) => id !in s.history
    case Delete(id) => id in s.rows && !Locked(s, id)
    case Begin(c, _, _, _) => c !in s.calls
    case Update(c) => InPhase(s, c, Called) && (!Locked(s, s.calls[c].id) || Matched(s, c).None?)
    case Select(c) => InPhase(s, c, Missed)
    case Commit(c) => c in s.calls && s.calls[c].phase.Holding?
    case Abort(c) => c in s.calls && (s.calls[c].phase.Holding? || s.calls[c].phase.Called? || s.calls[c].phase.Missed?)
  }

  function SetPhase(s: State, c: CallId, phase: Phase): State
    requires c in s.calls
  {
    s.(calls := s.calls[c := s.calls[c].(phase := phase)])
  }

  function HistoryOf(s: State, id: Id): seq<Version> {
    if id in s.history then s.history[id] else []
  }

  function Save(s: State, id: Id, row: Row, author: Option<CallId>): State {
    s.(rows := s.rows[id := row], history := s.history[id := HistoryOf(s, id) + [Version(row, author)]])
  }

  function AddCall(s: State, c: CallId, id: Id, expected: int, values: Fields): State {
    s.(calls := s.calls[c := Call(id, expected, values, Called)])
  }

  function RunUpdate(s: State, c: CallId): State
    requires c in s.calls
  {
    SetPhase(s, c, if Matched(s, c).Some? then Holding(Matched(s, c).value) else Missed)
  }

  function CommitUpdate(s: State, c: CallId): State
    requires c in s.calls && s.calls[c].phase.Holding?
  {
    var row := s.calls[c].phase.row;
    Save(SetPhase(s, c, Answered(Updated(row))), s.calls[c].id, row, Some(c))
  }

  function Apply(s: State, a: Step): State
    requires Enabled(s, a)
  {
    match a
    case Insert(id, fields) => Save(s, id, Row(1, fields), None)
    case Delete(id) => s.(rows := s.rows - {id})
    case Begin(c, id, expected, values) => AddCall(s, c, id, expected, values)
    case Update(c) => RunUpdate(s, c)
    case Select(c) => SetPhase(s, c, Answered(AnswerOfSelect(s.rows, s.calls[c].id)))
    case Commit(c) => CommitUpdate(s, c)
    case Abort(c) => SetPhase(s, c, RolledBack)
  }

  ghost function Machine(): (State, Step, State) -> bool {
    (s: State, a: Step, t: State) => Enabled(s, a) && t == Apply(s, a)
  }

  // ---- versions ---------------------------------------------------------------------------------

  /** Version k + 1 of a row was written by the one call that named version k and was answered with it. */
  ghost predicate WrittenBy(s: State, id: Id, k: nat)
    requires id in s.history && 0 < k < |s.history[id]|
  {
    var v := s.history[id][k];
    && v.author.Some? && v.author.value in s.calls
    && s.calls[v.author.value] ==
      Call(id, k, s.calls[v.author.value].values, Answered(Updated(v.row)))
    && v.row.fields == s.history[id][k - 1].row.fields + s.calls[v.author.value].values
  }

  ghost predicate HistoryInv(s: State) {
    forall id :: id in s.history ==>
      && s.history[id] != []
      && (forall k :: 0 <= k < |s.history[id]| ==> s.history[id][k].row.version == k + 1)
      && (forall k :: 0 < k < |s.history[id]| ==> WrittenBy(s, id, k))
  }

  ghost predicate RowsInv(s: State) {
    forall id :: id in s.rows ==> id in s.history && s.history[id] != [] && s.rows[id] == s.history[id][|s.history[id]| - 1].row
  }

  ghost predicate HoldsRow(s: State, c: CallId)
    requires c in s.calls
  {
    s.calls[c].phase.Holding? ==> Matched(s, c) == Some(s.calls[c].phase.row)
  }

  predicate Holds(s: State, c: CallId) {
    c in s.calls && s.calls[c].phase.Holding?
  }

  ghost predicate LocksInv(s: State) {
    && (forall c :: c in s.calls ==> HoldsRow(s, c))
    && forall c, d :: Holds(s, c) && Holds(s, d) && s.calls[c].id == s.calls[d].id ==> c == d
  }

  ghost predicate AnsweredInv(s: State) {
    forall c :: c in s.calls && s.calls[c].phase.Answered? && s.calls[c].phase.answer.Updated? ==>
      var call := s.calls[c];
      && call.id in s.history && 0 < call.expected < |s.history[call.id]|
      && s.history[call.id][call.expected] == Version(call.phase.answer.row, Some(c))
  }

  ghost predicate Inv(s: State) {
    HistoryInv(s) && RowsInv(s) && LocksInv(s) && AnsweredInv(s)
  }

  lemma InsertKeepsHistory(s: State, id: Id, fields: Fields)
    requires Inv(s) && id !in s.history
    ensures HistoryInv(Save(s, id, Row(1, fields), None)) && RowsInv(Save(s, id, Row(1, fields), None))
  {
    var t := Save(s, id, Row(1, fields), None);
    forall x, k | x in t.history && 0 < k < |t.history[x]| ensures WrittenBy(t, x, k) {
      assert WrittenBy(s, x, k);
    }
  }

  lemma InsertKeepsLocks(s: State, id: Id, fields: Fields)
    requires Inv(s) && id !in s.history
    ensures LocksInv(Save(s, id, Row(1, fields), None)) && AnsweredInv(Save(s, id, Row(1, fields), None))
  {
    var t := Save(s, id, Row(1, fields), None);
    forall c | c in t.calls ensures HoldsRow(t, c) {
      assert HoldsRow(s, c);
    }
  }

  lemma DeleteKeepsInv(s: State, id: Id)
    requires Inv(s) && !Locked(s, id)
    ensures Inv(s.(rows := s.rows - {id}))
  {
    var t := s.(rows := s.rows - {id});
    forall x, k | x in s.history && 0 < k < |s.history[x]| ensures WrittenBy(t, x, k) {
      assert WrittenBy(s, x, k);
    }
    forall c | c in t.calls ensures HoldsRow(t, c) {
      assert HoldsRow(s, c);
    }
  }

  /** A call whose phase changes, other than to the answer of an update, touches no version. */
  lemma SetPhaseKeepsInv(s: State, c: CallId, phase: Phase)
    requires Inv(s) && c in s.calls
    requires !s.calls[c].phase.Answered? && !(phase.Answered? && phase.answer.Updated?)
    requires phase.Holding? ==>
      && !Locked(s, s.calls[c].id)
      && Matched(s, c) == Some(phase.row)
    ensures Inv(SetPhase(s, c, phase))
  {
    var t := SetPhase(s, c, phase);
    forall x, k | x in s.history && 0 < k < |s.history[x]| ensures WrittenBy(t, x, k) {
      assert WrittenBy(s, x, k);
    }
    forall d | d in t.calls ensures HoldsRow(t, d) {
      assert HoldsRow(s, d);
    }
  }

  lemma BeginKeepsInv(s: State, c: CallId, id: Id, expected: int, values: Fields)
    requires Inv(s) && c !in s.calls
    ensures Inv(AddCall(s, c, id, expected, values))
  {
    var t := AddCall(s, c, id, expected, values);
    forall x, k | x in s.history && 0 < k < |s.history[x]| ensures WrittenBy(t, x, k) {
      assert WrittenBy(s, x, k);
    }
    forall d | d in t.calls ensures HoldsRow(t, d) {
      assert d != c ==> HoldsRow(s, d);
    }
  }

  lemma CommitKeepsHistory(s: State, c: CallId)
    requires Inv(s) && c in s.calls && s.calls[c].phase.Holding?
    ensures HistoryInv(CommitUpdate(s, c)) && RowsInv(CommitUpdate(s, c))
  {
    var t, id := CommitUpdate(s, c), s.calls[c].id;
    assert HoldsRow(s, c);
    var n := |s.history[id]|;
    assert s.history[id][n - 1].row.version == n == s.calls[c].expected;
    forall x, k | x in t.history && 0 < k < |t.history[x]| ensures WrittenBy(t, x, k) {
      if x != id || k < n {
        assert WrittenBy(s, x, k);
      }
    }
  }

  lemma CommitKeepsLocks(s: State, c: CallId)
    requires Inv(s) && c in s.calls && s.calls[c].phase.Holding?
    ensures LocksInv(CommitUpdate(s, c)) && AnsweredInv(CommitUpdate(s, c))
  {
    var t, id := CommitUpdate(s, c), s.calls[c].id;
    assert HoldsRow(s, c);
    var n := |s.history[id]|;
    assert s.history[id][n - 1].row.version == n == s.calls[c].expected;
    forall d | d in t.calls ensures HoldsRow(t, d) {
      assert HoldsRow(s, d);
    }
  }

  lemma StepKeepsInv(s: State, a: Step)
    requires Inv(s) && Enabled(s, a)
    ensures Inv(Apply(s, a))
  {
    match a {
      case Insert(id, fields) =>
        InsertKeepsHistory(s, id, fields);
        InsertKeepsLocks(s, id, fields);
      case Delete(id) => DeleteKeepsInv(s, id);
      case Begin(c, id, expected, values) => BeginKeepsInv(s, c, id, expected, values);
      case Update(c) =>
        SetPhaseKeepsInv(s, c, if Matched(s, c).Some? then Holding(Matched(s, c).value) else Missed);
      case Select(c) => SetPhaseKeepsInv(s, c, Answered(AnswerOfSelect(s.rows, s.calls[c].id)));
      case Commit(c) =>
        CommitKeepsHistory(s, c);
        CommitKeepsLocks(s, c);
      case Abort(c) => SetPhaseKeepsInv(s, c, RolledBack);
    }
  }

  lemma {:induction false} RunKeepsInv(states: seq<State>, steps: seq<Step>, n: nat)
    requires Runs.IsRun(Machine(), states, steps) && Inv(states[0]) && n <= |steps|
    ensures Inv(states[n])
  {
    if n > 0 {
      RunKeepsInv(states, steps, n - 1);
      assert Runs.StepAt(Machine(), states, steps, n - 1);
      StepKeepsInv(states[n - 1], steps[n - 1]);
    }
  }

  lemma ReachableInv(s: State)
    requires Runs.Reaches(Machine(), Init(), s)
    ensures Inv(s)
  {
    var states, steps :| Runs.IsRun(Machine(), states, steps) && states[0] == Init() && states[|steps|] == s;
    RunKeepsInv(states, steps, |steps|);
  }

  // ---- main results -----------------------------------------------------------------------------

  /** The values of the first n versions of a row, put on one after the other. */
  ghost function Merged(s: State, id: Id, n: nat): Fields
    requires HistoryInv(s) && id in s.history && n < |s.history[id]|
  {
    if n == 0 then s.history[id][0].row.fields
    else
      assert WrittenBy(s, id, n);
      Merged(s, id, n - 1) + s.calls[s.history[id][n].author.value].values
  }

  lemma {:induction false} MergedIsVersion(s: State, id: Id, n: nat)
    requires HistoryInv(s) && id in s.history && n < |s.history[id]|
    ensures Merged(s, id, n) == s.history[id][n].row.fields
  {
    if n > 0 {
      assert WrittenBy(s, id, n);
      MergedIsVersion(s, id, n - 1);
    }
  }

  /**
   Main result: in every reachable state a row's version counts the updates that were committed to it,
   and its fields are the inserted ones with the values of exactly those updates put on in order.
   */
  lemma NothingOverwritten(s: State, id: Id)
    requires Runs.Reaches(Machine(), Init(), s) && id in s.rows
    ensures HistoryInv(s) && id in s.history && s.rows[id].version == |s.history[id]| >= 1
    ensures s.rows[id].fields == Merged(s, id, |s.history[id]| - 1)
  {
    ReachableInv(s);
    MergedIsVersion(s, id, |s.history[id]| - 1);
  }

  ghost predicate Succeeded(s: State, c: CallId) {
    c in s.calls && s.calls[c].phase.Answered? && s.calls[c].phase.answer.Updated?
  }

  /** Main result: a success replaces exactly the version it named, and of the calls naming it one succeeds. */
  lemma OneWinner(s: State, c: CallId)
    requires Runs.Reaches(Machine(), Init(), s) && Succeeded(s, c)
    ensures var call := s.calls[c];
      && call.id in s.history && 0 < call.expected < |s.history[call.id]|
      && s.history[call.id][call.expected - 1].row.version == call.expected
      && call.phase.answer.row == Row(call.expected + 1, s.history[call.id][call.expected - 1].row.fields + call.values)
    ensures forall d :: Succeeded(s, d) && s.calls[d].id == s.calls[c].id && s.calls[d].expected == s.calls[c].expected ==> d == c
  {
    ReachableInv(s);
    assert WrittenBy(s, s.calls[c].id, s.calls[c].expected);
  }

  // ---- conflicts --------------------------------------------------------------------------------

  /** A row that was deleted; its id is never used again. */
  predicate Gone(s: State, id: Id) {
    id in s.history && id !in s.rows
  }

  /** The version a call names has been committed, as one that was read has, or its row is gone for good. */
  ghost predicate NamesKnown(s: State, c: CallId) {
    c in s.calls && (Gone(s, s.calls[c].id) || s.calls[c].expected <= |HistoryOf(s, s.calls[c].id)|)
  }

  /** A call that found its version gone knows a larger one from then on, unless the row is deleted. */
  ghost predicate Behind(s: State, c: CallId)
    requires c in s.calls
  {
    var call := s.calls[c];
    match call.phase
    case Missed => call.id in s.rows ==> s.rows[call.id].version > call.expected
    case Answered(Conflict(v)) => v > call.expected
    case _ => true
  }

  lemma StepKeepsBehind(s: State, a: Step, c: CallId)
    requires Inv(s) && Enabled(s, a) && NamesKnown(s, c) && Behind(s, c)
    ensures NamesKnown(Apply(s, a), c) && Behind(Apply(s, a), c)
  {
    match a {
      case Insert(_, _) =>
      case Delete(_) =>
      case Begin(_, _, _, _) =>
      case Update(d) =>
      case Select(d) =>
      case Commit(d) => assert HoldsRow(s, d);
      case Abort(d) =>
    }
  }

  lemma {:induction false} RunKeepsBehind(states: seq<State>, steps: seq<Step>, n: nat, c: CallId)
    requires Runs.IsRun(Machine(), states, steps) && Inv(states[0]) && n <= |steps|
    requires NamesKnown(states[0], c) && Behind(states[0], c)
    ensures NamesKnown(states[n], c) && Behind(states[n], c)
  {
    if n > 0 {
      RunKeepsInv(states, steps, n - 1);
      RunKeepsBehind(states, steps, n - 1, c);
      assert Runs.StepAt(Machine(), states, steps, n - 1);
      StepKeepsBehind(states[n - 1], steps[n - 1], c);
    }
  }

  ghost predicate ReportsOld(s: State, c: CallId) {
    && c in s.calls && s.calls[c].phase.Answered? && s.calls[c].phase.answer.Conflict?
    && s.calls[c].phase.answer.currentVersion <= s.calls[c].expected
  }

  lemma Outrun(s: State, c: CallId) returns (t: State)
    requires Inv(s) && InPhase(s, c, Called) && !NamesKnown(s, c)
    ensures Runs.Reaches(Machine(), s, t) && ReportsOld(t, c)
  {
    var id := s.calls[c].id;
    Runs.ReachSelf(Machine(), s);
    Runs.ReachNext(Machine(), s, s, Update(c), Apply(s, Update(c)));
    t := Apply(s, Update(c));
    if id !in s.rows {
      Runs.ReachNext(Machine(), s, t, Insert(id, map[]), Apply(t, Insert(id, map[])));
      t := Apply(t, Insert(id, map[]));
    }
    Runs.ReachNext(Machine(), s, t, Select(c), Apply(t, Select(c)));
    t := Apply(t, Select(c));
  }

  /**
   Main result: whatever others do to the row before and between the two queries, a call can only report a
   conflict with a larger version than it named exactly when the version it named has been committed, or
   the row is gone and no conflict is reported at all.
   */
  lemma ConflictIsNewerIff(s: State, c: CallId)
    requires Inv(s) && InPhase(s, c, Called)
    ensures NamesKnown(s, c) <==> !exists t :: Runs.Reaches(Machine(), s, t) && ReportsOld(t, c)
  {
    if NamesKnown(s, c) {
      forall t | Runs.Reaches(Machine(), s, t) ensures !ReportsOld(t, c) {
        var states, steps :| Runs.IsRun(Machine(), states, steps) && states[0] == s && states[|steps|] == t;
        RunKeepsBehind(states, steps, |steps|, c);
      }
    } else {
      var t := Outrun(s, c);
    }
  }

  // ---- what a call is answered ----------------------------------------------------------------------

  /** The second query's answer: not found exactly when there is no row, and otherwise its committed version. */
  lemma SelectAnswers(s: State, c: CallId)
    requires Enabled(s, Select(c))
    ensures var t, id := Apply(s, Select(c)), s.calls[c].id;
      && t.calls[c].phase.Answered?
      && (t.calls[c].phase.answer == NotFound <==> id !in s.rows)
      && (id in s.rows ==> t.calls[c].phase.answer == Conflict(s.rows[id].version))
      && t.rows == s.rows && t.history == s.history
  {
  }

  /** The version was committed, as that many-th of its row. */
  ghost predicate WasCommitted(s: State, id: Id, version: int) {
    id in s.history && 1 <= version <= |s.history[id]| && s.history[id][version - 1].row.version == version
  }

  ghost predicate ReportsCommitted(s: State) {
    forall c :: c in s.calls && s.calls[c].phase.Answered? && s.calls[c].phase.answer.Conflict? ==>
      WasCommitted(s, s.calls[c].id, s.calls[c].phase.answer.currentVersion)
  }

  lemma StepKeepsReports(s: State, a: Step)
    requires Inv(s) && ReportsCommitted(s) && Enabled(s, a)
    ensures ReportsCommitted(Apply(s, a))
  {
    var t := Apply(s, a);
    StepKeepsInv(s, a);
    forall c | c in t.calls && t.calls[c].phase.Answered? && t.calls[c].phase.answer.Conflict?
      ensures WasCommitted(t, t.calls[c].id, t.calls[c].phase.answer.currentVersion)
    {
      if c in s.calls && s.calls[c].phase == t.calls[c].phase {
        assert WasCommitted(s, s.calls[c].id, s.calls[c].phase.answer.currentVersion);
      } else {
        assert a == Select(c);
      }
    }
  }

  /** Main result: every version that a conflict reports, in any interleaving, is one that was committed to the row. */
  lemma ConflictsAreCommitted(s: State, c: CallId)
    requires Runs.Reaches(Machine(), Init(), s) && c in s.calls
    requires s.calls[c].phase.Answered? && s.calls[c].phase.answer.Conflict?
    ensures WasCommitted(s, s.calls[c].id, s.calls[c].phase.answer.currentVersion)
  {
    forall u: State, a: Step, v: State | Inv(u) && ReportsCommitted(u) && Machine()(u, a, v) ensures Inv(v) && ReportsCommitted(v) {
      StepKeepsInv(u, a);
      StepKeepsReports(u, a);
    }
    Runs.InvariantHolds(Machine(), (u: State) => Inv(u) && ReportsCommitted(u), Init(), s);
  }

  /** What updateWithVersion promises a caller, given the row as it is. */
  function Promised(rows: map<Id, Row>, id: Id, expected: int, values: Fields): Answer {
    if id !in rows then NotFound
    else if rows[id].version != expected then Conflict(rows[id].version)
    else Updated(Row(expected + 1, rows[id].fields + values))
  }

  /** From every state a call on a row that nobody holds can run to its end, and then it is answered as promised. */
  lemma CallIsAnswered(s: State, c: CallId, id: Id, expected: int, values: Fields) returns (t: State)
    requires c !in s.calls && !Locked(s, id)
    ensures Runs.Reaches(Machine(), s, t) && InPhase(t, c, Answered(Promised(s.rows, id, expected, values)))
    ensures var answer := Promised(s.rows, id, expected, values);
      t.rows == if answer.Updated? then s.rows[id := answer.row] else s.rows
  {
    var m := Machine();
    Runs.ReachSelf(m, s);
    var u := AddCall(s, c, id, expected, values);
    Runs.ReachNext(m, s, s, Begin(c, id, expected, values), u);
    assert !Locked(u, id);
    t := RunUpdate(u, c);
    Runs.ReachNext(m, s, u, Update(c), t);
    var a := if t.calls[c].phase.Holding? then Commit(c) else Select(c);
    var v := Apply(t, a);
    Runs.ReachNext(m, s, t, a, v);
    t := v;
  }
}

/**
 The interceptor's transaction, step by step, with any number of clients in flight, crashes at any
 point and the hourly purge in between. The advisory lock is on hashes, so unrelated keys may share
 one.
 */
module IdempotencyProtocol {
  import Runs
  import opened Idempotency

  datatype Phase =
    | Waiting
    | Locked
    | Running(lookedUpAt: int)
    | Storing(lookedUpAt: int, response: Response, storedAt: int)
    | Done(outcome: Outcome)

  /** `since` is the length of the history when the request arrived. */
  datatype Client = Client(request: Request, since: nat, phase: Phase)

  datatype State = State(clock: int, table: Table, clients: map<ClientId, Client>, log: seq<Op>)

  datatype Step =
    | Arrive(c: ClientId, request: Request)
    | Lock(c: ClientId)
    | LookUp(c: ClientId)
    | Finish(c: ClientId, response: Response)
    | Commit(c: ClientId)
    | Abort(c: ClientId)
    | Tick(ms: nat)
    | Purge

  function Init(clock: int): State {
    State(clock, map[], map[], [])
  }

  predicate Holds(s: State, c: ClientId) {
    c in s.clients && (s.clients[c].phase.Locked? || s.clients[c].phase.Running? || s.clients[c].phase.Storing?)
  }

  ghost predicate LockFree(hash: Key -> int, s: State, key: Key) {
    forall d :: Holds(s, d) ==> hash(s.clients[d].request.key) != hash(key)
  }

  ghost predicate Enabled(hash: Key -> int, s: State, a: Step) {
    match a
    case Arrive(c, _) => c !in s.clients
    case Lock(c) => c in s.clients && s.clients[c].phase.Waiting? && LockFree(hash, s, s.clients[c].request.key)
    case LookUp(c) => c in s.clients && s.clients[c].phase.Locked?
    case Finish(c, _) => c in s.clients && s.clients[c].phase.Running?
    case Commit(c) => c in s.clients && s.clients[c].phase.Storing?
    case Abort(c) => Holds(s, c)
    case Tick(_) => true
    case Purge => true
  }

  function Move(s: State, c: ClientId, phase: Phase): State
    requires c in s.clients
  {
    s.(clients := s.clients[c := s.clients[c].(phase := phase)])
  }

  /** The request ends with an answer, which takes its place in the history. */
  function Answer(s: State, c: ClientId, op: Op): State
    requires c in s.clients
  {
    Move(s, c, Done(op.outcome)).(log := s.log + [op])
  }

  /** A stored answer ends the request at once; otherwise the handler runs. */
  function LookedUp(s: State, c: ClientId): State
    requires c in s.clients
  {
    var request := s.clients[c].request;
    if LiveRow(s.table, request.key, s.clock) then
      Answer(s, c, Op(c, request, s.clock, Throws, Serve(s.table, request, s.clock, Throws)))
    else Move(s, c, Running(s.clock))
  }

  /** The handler's writes, the stored response and the release of the lock commit together. */
  function Committed(s: State, c: ClientId): State
    requires c in s.clients && s.clients[c].phase.Storing?
  {
    var request, phase := s.clients[c].request, s.clients[c].phase;
    Answer(s, c, Op(c, request, phase.lookedUpAt, Works(phase.response, phase.storedAt), Fresh(phase.response)))
      .(table := s.table[request.key := Row(request.finger, phase.response, phase.storedAt + TTL)])
  }

  /** An error or a crash: everything rolls back and the lock is released. */
  function Aborted(s: State, c: ClientId): State
    requires Holds(s, c)
  {
    if s.clients[c].phase.Locked? then Move(s, c, Done(Failed))
    else Answer(s, c, Op(c, s.clients[c].request, s.clients[c].phase.lookedUpAt, Throws, Failed))
  }

  /** purge-idempotency-keys. */
  function PurgeExpired(s: State): State {
    s.(table := map k | k in s.table && !(s.table[k].expiresAt < s.clock) :: s.table[k])
  }

  ghost function Apply(hash: Key -> int, s: State, a: Step): State
    requires Enabled(hash, s, a)
  {
    match a
    case Arrive(c, request) => s.(clients := s.clients[c := Client(request, |s.log|, Waiting)])
    case Lock(c) => Move(s, c, Locked)
    case LookUp(c) => LookedUp(s, c)
    case Finish(c, response) => Move(s, c, Storing(s.clients[c].phase.lookedUpAt, response, s.clock))
    case Commit(c) => Committed(s, c)
    case Abort(c) => Aborted(s, c)
    case Tick(ms) => s.(clock := s.clock + ms)
    case Purge => PurgeExpired(s)
  }

  ghost function Machine(hash: Key -> int): (State, Step, State) -> bool {
    (s, a, t) => Enabled(hash, s, a) && t == Apply(hash, s, a)
  }

  // ---- linearizability --------------------------------------------------------------------------

  /** The table is the reference's, except that expired rows may be missing. */
  ghost predicate Agrees(s: State) {
    && (forall k :: k in s.table ==> k in Replay(s.log) && Replay(s.log)[k] == s.table[k])
    && (forall k :: k in Replay(s.log) && Replay(s.log)[k].expiresAt >= s.clock ==> k in s.table)
  }

  ghost predicate LocksExclusive(hash: Key -> int, s: State) {
    forall c, d :: Holds(s, c) && Holds(s, d) && c != d ==>
      hash(s.clients[c].request.key) != hash(s.clients[d].request.key)
  }

  /** A running client saw its key free, and nothing has happened under that key since. */
  ghost predicate RunsAlone(s: State, c: ClientId)
    requires c in s.clients
  {
    var client := s.clients[c];
    client.phase.Running? || client.phase.Storing? ==>
      && client.phase.lookedUpAt <= s.clock
      && (client.phase.Storing? ==> client.phase.lookedUpAt <= client.phase.storedAt <= s.clock)
      && !LiveRow(Replay(s.log), client.request.key, client.phase.lookedUpAt)
      && forall i :: 0 <= i < |s.log| && s.log[i].request.key == client.request.key ==>
           EndOf(s.log[i]) <= client.phase.lookedUpAt
  }

  ghost predicate LoggedAt(s: State, i: nat)
    requires i < |s.log|
  {
    var op := s.log[i];
    && EndOf(op) <= s.clock && op.client in s.clients
    && s.clients[op.client].phase == Done(op.outcome) && s.clients[op.client].request == op.request
    && s.clients[op.client].since <= i
  }

  /** Every answer but a failure has its one place in the history, after the request arrived. */
  ghost predicate Placed(s: State, c: ClientId)
    requires c in s.clients
  {
    && s.clients[c].since <= |s.log|
    && (s.clients[c].phase.Done? && !s.clients[c].phase.outcome.Failed? ==>
          exists i :: 0 <= i < |s.log| && s.log[i].client == c)
  }

  ghost predicate Inv(hash: Key -> int, s: State) {
    && Serial(s.log) && Agrees(s) && LocksExclusive(hash, s)
    && (forall c :: c in s.clients ==> RunsAlone(s, c) && Placed(s, c))
    && (forall i :: 0 <= i < |s.log| ==> LoggedAt(s, i))
    && (forall i, j :: 0 <= i < j < |s.log| ==> s.log[i].client != s.log[j].client)
  }

  lemma SerialSnoc(log: seq<Op>, op: Op)
    requires Serial(log)
    requires op.outcome == Serve(Replay(log), op.request, op.lookedUpAt, op.attempt) && op.lookedUpAt <= EndOf(op)
    requires forall i :: 0 <= i < |log| && log[i].request.key == op.request.key ==> EndOf(log[i]) <= op.lookedUpAt
    ensures Serial(log + [op])
    ensures Replay(log + [op]) == Stored(Replay(log), op.request, op.lookedUpAt, op.attempt)
  {
    var after := log + [op];
    assert after[..|log|] == log;
    forall i | 0 <= i < |after| ensures AnsweredAt(after, i) {
      if i < |log| {
        assert AnsweredAt(log, i) && after[..i] == log[..i];
      }
    }
    forall i, j | 0 <= i < j < |after| ensures InOrder(after, i, j) {
      if j < |log| {
        assert InOrder(log, i, j);
      }
    }
  }

  /** Answering a request whose lock is held keeps everything but the agreement of the tables. */
  lemma AnswerKeepsInv(hash: Key -> int, s: State, c: ClientId, op: Op)
    requires Inv(hash, s) && Holds(s, c)
    requires op.client == c && op.request == s.clients[c].request && EndOf(op) <= s.clock
    requires Replay(s.log + [op]) == Stored(Replay(s.log), op.request, op.lookedUpAt, op.attempt)
    ensures var t := Answer(s, c, op);
      && LocksExclusive(hash, t)
      && (forall d :: d in t.clients ==> RunsAlone(t, d) && Placed(t, d))
      && (forall i :: 0 <= i < |t.log| ==> LoggedAt(t, i))
      && (forall i, j :: 0 <= i < j < |t.log| ==> t.log[i].client != t.log[j].client)
  {
    AnswerIsLogged(hash, s, c, op);
    AnswerIsPlaced(hash, s, c, op);
    AnswerRunsAlone(hash, s, c, op);
  }

  /** Other clients that run have other keys, whose rows an answer does not change. */
  lemma AnswerRunsAlone(hash: Key -> int, s: State, c: ClientId, op: Op)
    requires Inv(hash, s) && Holds(s, c) && op.request == s.clients[c].request
    requires Replay(s.log + [op]) == Stored(Replay(s.log), op.request, op.lookedUpAt, op.attempt)
    ensures forall d :: d in s.clients ==> RunsAlone(Answer(s, c, op), d)
  {
    forall d | d in s.clients ensures RunsAlone(Answer(s, c, op), d) {
      assert RunsAlone(s, d);
    }
  }

  lemma AnswerIsLogged(hash: Key -> int, s: State, c: ClientId, op: Op)
    requires Inv(hash, s) && Holds(s, c)
    requires op.client == c && op.request == s.clients[c].request && EndOf(op) <= s.clock
    ensures var t := Answer(s, c, op);
      && (forall i :: 0 <= i < |t.log| ==> LoggedAt(t, i))
      && (forall i, j :: 0 <= i < j < |t.log| ==> t.log[i].client != t.log[j].client)
  {
    var t := Answer(s, c, op);
    forall i | 0 <= i < |t.log| ensures LoggedAt(t, i) && (i < |s.log| ==> t.log[i].client != c) {
      if i < |s.log| {
        assert LoggedAt(s, i);
      } else {
        assert Placed(s, c);
      }
    }
  }

  lemma AnswerIsPlaced(hash: Key -> int, s: State, c: ClientId, op: Op)
    requires Inv(hash, s) && Holds(s, c) && op.client == c
    ensures forall d :: d in s.clients ==> Placed(Answer(s, c, op), d)
  {
    var t := Answer(s, c, op);
    forall d | d in t.clients ensures Placed(t, d) {
      assert Placed(s, d);
      if d == c {
        assert t.log[|s.log|].client == c;
      } else if s.clients[d].phase.Done? && !s.clients[d].phase.outcome.Failed? {
        var i :| 0 <= i < |s.log| && s.log[i].client == d;
        assert t.log[i].client == d;
      }
    }
  }

  /** A step that only moves clients between phases that answer nothing. */
  lemma MoveKeepsInv(hash: Key -> int, s: State, c: ClientId, phase: Phase)
    requires Inv(hash, s) && c in s.clients && !s.clients[c].phase.Done?
    requires phase.Done? ==> phase.outcome.Failed?
    requires (phase.Locked? || phase.Running? || phase.Storing?) && !Holds(s, c) ==>
      LockFree(hash, s, s.clients[c].request.key)
    requires RunsAlone(Move(s, c, phase), c)
    ensures Inv(hash, Move(s, c, phase))
  {
    var t := Move(s, c, phase);
    forall d | d in t.clients ensures RunsAlone(t, d) && Placed(t, d) {
      assert RunsAlone(s, d) && Placed(s, d);
    }
    forall i | 0 <= i < |t.log| ensures LoggedAt(t, i) {
      assert LoggedAt(s, i);
    }
  }

  lemma FoundKeepsInv(hash: Key -> int, s: State, c: ClientId)
    requires Inv(hash, s) && c in s.clients && s.clients[c].phase.Locked?
    requires LiveRow(s.table, s.clients[c].request.key, s.clock)
    ensures Inv(hash, LookedUp(s, c))
  {
    var request := s.clients[c].request;
    forall i | 0 <= i < |s.log| ensures EndOf(s.log[i]) <= s.clock {
      assert LoggedAt(s, i);
    }
    assert LiveRow(Replay(s.log), request.key, s.clock);
    var op := Op(c, request, s.clock, Throws, Serve(s.table, request, s.clock, Throws));
    SerialSnoc(s.log, op);
    AnswerKeepsInv(hash, s, c, op);
  }

  lemma NotFoundKeepsInv(hash: Key -> int, s: State, c: ClientId)
    requires Inv(hash, s) && c in s.clients && s.clients[c].phase.Locked?
    requires !LiveRow(s.table, s.clients[c].request.key, s.clock)
    ensures Inv(hash, Move(s, c, Running(s.clock)))
  {
    var request := s.clients[c].request;
    forall i | 0 <= i < |s.log| ensures EndOf(s.log[i]) <= s.clock {
      assert LoggedAt(s, i);
    }
    assert !LiveRow(Replay(s.log), request.key, s.clock);
    MoveKeepsInv(hash, s, c, Running(s.clock));
  }

  lemma CommitKeepsInv(hash: Key -> int, s: State, c: ClientId)
    requires Inv(hash, s) && c in s.clients && s.clients[c].phase.Storing?
    ensures Inv(hash, Committed(s, c))
  {
    var request, phase := s.clients[c].request, s.clients[c].phase;
    assert RunsAlone(s, c);
    var op := Op(c, request, phase.lookedUpAt, Works(phase.response, phase.storedAt), Fresh(phase.response));
    SerialSnoc(s.log, op);
    AnswerKeepsInv(hash, s, c, op);
    CommitFrame(hash, Answer(s, c, op), Committed(s, c));
    assert Agrees(Committed(s, c));
  }

  /** Only the agreement of the tables speaks of the table. */
  lemma CommitFrame(hash: Key -> int, t: State, u: State)
    requires u == t.(table := u.table)
    ensures forall c :: c in t.clients && RunsAlone(t, c) ==> RunsAlone(u, c)
    ensures forall c :: c in t.clients && Placed(t, c) ==> Placed(u, c)
    ensures forall i :: 0 <= i < |t.log| && LoggedAt(t, i) ==> LoggedAt(u, i)
    ensures LocksExclusive(hash, t) ==> LocksExclusive(hash, u)
  {
    forall c | Holds(u, c) ensures Holds(t, c) {}
  }

  lemma AbortKeepsInv(hash: Key -> int, s: State, c: ClientId)
    requires Inv(hash, s) && Holds(s, c)
    ensures Inv(hash, Aborted(s, c))
  {
    assert RunsAlone(s, c);
    if s.clients[c].phase.Locked? {
      MoveKeepsInv(hash, s, c, Done(Failed));
    } else {
      var op := Op(c, s.clients[c].request, s.clients[c].phase.lookedUpAt, Throws, Failed);
      SerialSnoc(s.log, op);
      AnswerKeepsInv(hash, s, c, op);
    }
  }

  lemma ArriveKeepsInv(hash: Key -> int, s: State, c: ClientId, request: Request)
    requires Inv(hash, s) && c !in s.clients
    ensures Inv(hash, s.(clients := s.clients[c := Client(request, |s.log|, Waiting)]))
  {
    var t := s.(clients := s.clients[c := Client(request, |s.log|, Waiting)]);
    forall d | d in t.clients ensures RunsAlone(t, d) && Placed(t, d) {
      assert d != c ==> RunsAlone(s, d) && Placed(s, d);
    }
    forall i | 0 <= i < |t.log| ensures LoggedAt(t, i) {
      assert LoggedAt(s, i);
    }
    forall d | Holds(t, d) ensures d != c && Holds(s, d) {}
  }

  /** Time passes, and expired rows may go. */
  lemma AgeKeepsInv(hash: Key -> int, s: State, t: State)
    requires Inv(hash, s) && t == s.(clock := t.clock, table := t.table) && t.clock >= s.clock
    requires Agrees(t)
    ensures Inv(hash, t)
  {
    forall d | d in t.clients ensures RunsAlone(t, d) && Placed(t, d) {
      assert RunsAlone(s, d) && Placed(s, d);
    }
    forall i | 0 <= i < |t.log| ensures LoggedAt(t, i) {
      assert LoggedAt(s, i);
    }
    forall d | Holds(t, d) ensures Holds(s, d) {}
  }

  lemma StepKeepsInv(hash: Key -> int, s: State, a: Step)
    requires Inv(hash, s) && Enabled(hash, s, a)
    ensures Inv(hash, Apply(hash, s, a))
  {
    match a
    case Arrive(c, request) => ArriveKeepsInv(hash, s, c, request);
    case Lock(c) => MoveKeepsInv(hash, s, c, Locked);
    case LookUp(c) =>
        if LiveRow(s.table, s.clients[c].request.key, s.clock) {
          FoundKeepsInv(hash, s, c);
        } else {
          NotFoundKeepsInv(hash, s, c);
        }
    case Finish(c, response) =>
      assert RunsAlone(s, c);
      MoveKeepsInv(hash, s, c, Storing(s.clients[c].phase.lookedUpAt, response, s.clock));
    case Commit(c) => CommitKeepsInv(hash, s, c);
    case Abort(c) => AbortKeepsInv(hash, s, c);
    case Tick(ms) => AgeKeepsInv(hash, s, s.(clock := s.clock + ms));
    case Purge => AgeKeepsInv(hash, s, PurgeExpired(s));
  }

  /**
   Main result: at every point of every run the answers given so far are those of a serial history
   without any purge, in an order that respects which request ended before which arrived.
   */
  lemma {:induction false} Linearizable(hash: Key -> int, states: seq<State>, steps: seq<Step>, n: nat)
    requires Runs.IsRun(Machine(hash), states, steps) && n <= |steps| && Inv(hash, states[0])
    ensures Inv(hash, states[n])
  {
    if n > 0 {
      Linearizable(hash, states, steps, n - 1);
      assert Runs.StepAt(Machine(hash), states, steps, n - 1);
      StepKeepsInv(hash, states[n - 1], steps[n - 1]);
    }
  }

  lemma InitIsConsistent(hash: Key -> int, clock: int)
    ensures Inv(hash, Init(clock))
  {
  }

  /**
   A stored response exists exactly when work committed: a row is the response of the key's last
   committed request, and such a request has its row until the expiry.
   */
  lemma StoredExactlyWhenCommitted(hash: Key -> int, s: State, key: Key)
    requires Inv(hash, s)
    ensures var i := LastFresh(s.log, key);
      && (key in s.table ==> i >= 0)
      && (i >= 0 ==>
            && s.log[i].request.key == key && s.log[i].attempt.Works? && s.log[i].outcome.Fresh?
            && var row := Row(s.log[i].request.finger, s.log[i].outcome.response, s.log[i].attempt.storedAt + TTL);
               (key in s.table ==> s.table[key] == row) && (row.expiresAt >= s.clock ==> key in s.table))
  {
    StoredIffCommitted(s.log, key);
  }

  // ---- a request on its own -----------------------------------------------------------------------

  /** From arrival to the lookup, with nobody else at the key's lock. */
  lemma ReachLookedUp(hash: Key -> int, s: State, c: ClientId, request: Request) returns (t: State)
    requires c !in s.clients && LockFree(hash, s, request.key)
    ensures t == LookedUp(s.(clients := s.clients[c := Client(request, |s.log|, Locked)]), c)
    ensures Runs.Reaches(Machine(hash), s, t)
  {
    var m := Machine(hash);
    var a := s.(clients := s.clients[c := Client(request, |s.log|, Waiting)]);
    var b := s.(clients := s.clients[c := Client(request, |s.log|, Locked)]);
    Runs.ReachSelf(m, s);
    Runs.ReachNext(m, s, s, Arrive(c, request), a);
    assert LockFree(hash, a, request.key);
    assert Move(a, c, Locked) == b;
    Runs.ReachNext(m, s, a, Lock(c), b);
    t := LookedUp(b, c);
    Runs.ReachNext(m, s, b, LookUp(c), t);
  }

  lemma ReachStored(hash: Key -> int, s: State, t: State, c: ClientId, response: Response, takes: nat) returns (u: State)
    requires Runs.Reaches(Machine(hash), s, t) && c in t.clients && t.clients[c].phase.Running?
    ensures Runs.Reaches(Machine(hash), s, u) && c in u.clients && u.clients[c].phase == Done(Fresh(response))
    ensures u.table == t.table[t.clients[c].request.key :=
      Row(t.clients[c].request.finger, response, t.clock + takes + 24 * 3_600_000)]
  {
    var m := Machine(hash);
    var a := t.(clock := t.clock + takes);
    var b := Move(a, c, Storing(a.clients[c].phase.lookedUpAt, response, a.clock));
    u := Committed(b, c);
    Runs.ReachNext(m, s, t, Tick(takes), a);
    Runs.ReachNext(m, s, a, Finish(c, response), b);
    Runs.ReachNext(m, s, b, Commit(c), u);
  }

  /**
   A request whose lock is free can always be served, and then step by step it gets the reference's answer
   and leaves the reference's table: from every state, whoever else is under way.
   */
  lemma AloneIsServed(hash: Key -> int, s: State, c: ClientId, request: Request, attempt: Attempt, takes: nat) returns (t: State)
    requires c !in s.clients && LockFree(hash, s, request.key) && (attempt.Works? ==> attempt.storedAt == s.clock + takes)
    ensures Runs.Reaches(Machine(hash), s, t) && c in t.clients
    ensures t.clients[c].phase == Done(Serve(s.table, request, s.clock, attempt))
    ensures t.table == Stored(s.table, request, s.clock, attempt)
  {
    t := ReachLookedUp(hash, s, c, request);
    if !LiveRow(s.table, request.key, s.clock) {
      if attempt.Works? {
        t := ReachStored(hash, s, t, c, attempt.response, takes);
      } else {
        var u := Aborted(t, c);
        Runs.ReachNext(Machine(hash), s, t, Abort(c), u);
        t := u;
      }
    }
  }

  /** The hourly purge leaves exactly the rows whose expiry has not passed. */
  lemma PurgeLeaves(hash: Key -> int, s: State, k: Key)
    ensures var t := Apply(hash, s, Purge);
      (k in t.table <==> k in s.table && s.table[k].expiresAt >= s.clock) && (k in t.table ==> t.table[k] == s.table[k])
  {
  }

  // ---- the purge is invisible -------------------------------------------------------------------

  /** The same run without its purges. */
  function Unpurged(steps: seq<Step>): seq<Step> {
    if steps == [] then []
    else
      var init, last := Unpurged(steps[..|steps| - 1]), steps[|steps| - 1];
      if last.Purge? then init else init + [last]
  }

  /** Equal but for expired rows that only the second still has. */
  ghost predicate PurgedFrom(s: State, t: State) {
    && s == t.(table := s.table)
    && (forall k :: k in s.table ==> k in t.table && t.table[k] == s.table[k])
    && (forall k :: k in t.table && t.table[k].expiresAt >= s.clock ==> k in s.table)
  }

  lemma StepUnpurged(hash: Key -> int, s: State, t: State, a: Step)
    requires PurgedFrom(s, t) && Enabled(hash, s, a)
    ensures a.Purge? ==> PurgedFrom(Apply(hash, s, a), t)
    ensures !a.Purge? ==> Enabled(hash, t, a) && PurgedFrom(Apply(hash, s, a), Apply(hash, t, a))
  {
    forall c ensures Holds(s, c) <==> Holds(t, c) {}
  }

  /** Main result: with every purge left out, the same steps are possible and every answer is the same. */
  lemma {:induction false} PurgeIsInvisible(hash: Key -> int, states: seq<State>, steps: seq<Step>, n: nat)
    returns (unpurged: seq<State>)
    requires Runs.IsRun(Machine(hash), states, steps) && n <= |steps|
    ensures Runs.IsRun(Machine(hash), unpurged, Unpurged(steps[..n])) && unpurged[0] == states[0]
    ensures PurgedFrom(states[n], unpurged[|unpurged| - 1])
  {
    if n == 0 {
      assert steps[..0] == [];
      unpurged := [states[0]];
    } else {
      unpurged := PurgeIsInvisible(hash, states, steps, n - 1);
      var a, t := steps[n - 1], unpurged[|unpurged| - 1];
      var before := Unpurged(steps[..n - 1]);
      assert steps[..n][..n - 1] == steps[..n - 1];
      assert Runs.StepAt(Machine(hash), states, steps, n - 1);
      StepUnpurged(hash, states[n - 1], t, a);
      if !a.Purge? {
        var longer := unpurged + [Apply(hash, t, a)];
        forall i | 0 <= i < |before| + 1 ensures Runs.StepAt(Machine(hash), longer, before + [a], i) {
          if i < |before| {
            assert Runs.StepAt(Machine(hash), unpurged, before, i);
          }
        }
        unpurged := longer;
      }
    }
  }
}

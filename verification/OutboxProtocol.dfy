/**
 The transactional outbox, the job queue and the inbox, as one state machine: any number of request
 transactions publish events, any number of relays move them to the queue and any number of
 dispatchers run their handlers. Every step is one atomic action of the database or of the queue, so
 a crash is simply a run in which a process takes no further step but the one that rolls it back.
 */
module OutboxProtocol {
  import opened Options
  import Runs

  /** UUIDv7 event ids, which are ordered by creation time. */
  type EventId = nat
  type WorkerId = nat
  /** The inbox key: a handler name and an event. */
  type Pair = (string, EventId)

  const BATCH_SIZE: nat := 100
  const MAX_ATTEMPTS: nat := 8
  /** How often a stalled job is put back: the queue's default, which the consumer does not change. */
  const MAX_STALLS: nat := 1
  const DAY: int := 24 * 3_600_000
  const OUTBOX_RETENTION: int := 7 * DAY
  const INBOX_RETENTION: int := 30 * DAY

  datatype Handler = Handler(name: string, eventType: string)
  datatype Row = Row(eventType: string, availableAt: int, publishedAt: Option<int>)
  /** A row inserted by a transaction that has not ended yet. */
  datatype Unsaved = Unsaved(tx: WorkerId, row: Row)
  datatype Status = Live | Completed | Failed
  datatype Job = Job(eventType: string, status: Status, failures: nat, stalls: nat)
  /** A relay transaction: the rows it has locked, the jobs it has added, its uncommitted mark. */
  datatype Relay = Relay(claimed: set<EventId>, sent: set<EventId>, marked: Option<int>)
  /** A handler's transaction, and since when it holds the inbox row it has inserted. */
  datatype Transaction = NoTx | Open(began: int) | Holding(began: int, since: int)
  /** A worker dispatching one job. */
  datatype Dispatch = Dispatch(id: EventId, eventType: string, next: nat, tx: Transaction)

  datatype State = State(
    clock: int,
    unsaved: map<EventId, Unsaved>,
    outbox: map<EventId, Row>,
    relays: map<WorkerId, Relay>,
    queue: map<EventId, Job>,
    dispatches: map<WorkerId, Dispatch>,
    inbox: map<Pair, int>,
    // What has happened so far; no step's guard depends on these, except that ids are fresh.
    committed: map<EventId, string>,
    rolledBack: set<EventId>,
    marks: multiset<EventId>,
    effects: multiset<Pair>,
    handledAt: map<Pair, int>,
    attempts: multiset<EventId>,
    exhausted: set<EventId>,
    stalledOut: set<EventId>)

  datatype Step =
    | Publish(tx: WorkerId, id: EventId, eventType: string, availableAt: int)
    | CommitTx(tx: WorkerId)
    | AbortTx(tx: WorkerId)
    | Claim(r: WorkerId, batch: set<EventId>)
    | Enqueue(r: WorkerId, id: EventId)
    | Mark(r: WorkerId)
    | CommitRelay(r: WorkerId)
    | AbortRelay(r: WorkerId)
    | Deliver(d: WorkerId, id: EventId)
    | Begin(d: WorkerId)
    | Insert(d: WorkerId)
    | Skip(d: WorkerId)
    | Handle(d: WorkerId)
    | Throw(d: WorkerId, acked: bool)
    | Crash(d: WorkerId)
    | Finish(d: WorkerId, acked: bool)
    | Stall(id: EventId)
    | Forget(id: EventId)
    | Tick(ms: nat)
    | Purge

  /** The names of the handlers registered for an event type, in registration order. */
  function Consumers(handlers: seq<Handler>, eventType: string): seq<string> {
    if handlers == [] then []
    else if handlers[0].eventType == eventType then [handlers[0].name] + Consumers(handlers[1..], eventType)
    else Consumers(handlers[1..], eventType)
  }

  /** The registered handlers of an event type, and no others ... */
  lemma {:induction false} ConsumersIff(handlers: seq<Handler>, eventType: string, name: string)
    ensures name in Consumers(handlers, eventType) <==> Handler(name, eventType) in handlers
  {
    if handlers != [] {
      ConsumersIff(handlers[1..], eventType, name);
      assert handlers == [handlers[0]] + handlers[1..];
    }
  }

  /** ... each as often as it is registered, in the order of registration. */
  lemma {:induction false} ConsumersInOrder(a: seq<Handler>, b: seq<Handler>, h: Handler, eventType: string)
    ensures Consumers(a + b, eventType) == Consumers(a, eventType) + Consumers(b, eventType)
    ensures Consumers([h], eventType) == if h.eventType == eventType then [h.name] else []
  {
    assert [h][1..] == [];
    if a == [] {
      assert a + b == b;
    } else {
      assert (a + b)[1..] == a[1..] + b;
      ConsumersInOrder(a[1..], b, h, eventType);
    }
  }

  function Init(clock: int): State {
    State(clock, map[], map[], map[], map[], map[], map[],
          map[], {}, multiset{}, multiset{}, map[], multiset{}, {}, {})
  }

  predicate Pending(outbox: map<EventId, Row>, id: EventId) {
    id in outbox && outbox[id].publishedAt.None?
  }

  predicate Locked(s: State, id: EventId) {
    exists r :: r in s.relays && id in s.relays[r].claimed
  }

  /** The rows the relay's query may return: pending, available and not locked by another relay. */
  predicate Claimable(s: State, id: EventId) {
    Pending(s.outbox, id) && s.outbox[id].availableAt <= s.clock && !Locked(s, id)
  }

  /** ORDER BY id LIMIT 100: the smallest claimable ids, all of them if there are fewer than 100. */
  ghost predicate IsBatch(s: State, batch: set<EventId>) {
    && |batch| <= BATCH_SIZE
    && (forall id :: id in batch ==> Claimable(s, id))
    && (forall id :: Claimable(s, id) && id !in batch ==>
          |batch| == BATCH_SIZE && forall b :: b in batch ==> b < id)
  }

  predicate AtHandler(c: seq<Handler>, s: State, d: WorkerId) {
    d in s.dispatches && s.dispatches[d].next < |Consumers(c, s.dispatches[d].eventType)|
  }

  function PairAt(c: seq<Handler>, s: State, d: WorkerId): Pair
    requires AtHandler(c, s, d)
  {
    (Consumers(c, s.dispatches[d].eventType)[s.dispatches[d].next], s.dispatches[d].id)
  }

  predicate Running(c: seq<Handler>, s: State, d: WorkerId) {
    AtHandler(c, s, d) && s.dispatches[d].tx.Holding?
  }

  /** Some open handler transaction holds the uncommitted inbox row of this pair. */
  ghost predicate Held(c: seq<Handler>, s: State, x: Pair) {
    exists d :: Running(c, s, d) && PairAt(c, s, d) == x
  }

  ghost predicate Enabled(c: seq<Handler>, s: State, a: Step) {
    match a
    case Publish(_, id, _, _) => id !in s.unsaved && id !in s.committed && id !in s.rolledBack
    case CommitTx(_) => true
    case AbortTx(_) => true
    case Claim(r, batch) => r !in s.relays && batch != {} && IsBatch(s, batch)
    case Enqueue(r, id) => r in s.relays && s.relays[r].marked.None? && id in s.relays[r].claimed - s.relays[r].sent && id in s.outbox
    case Mark(r) => r in s.relays && s.relays[r].marked.None? && s.relays[r].sent == s.relays[r].claimed
    case CommitRelay(r) => r in s.relays && s.relays[r].marked.Some?
    case AbortRelay(r) => r in s.relays
    case Deliver(d, id) => d !in s.dispatches && id in s.queue && s.queue[id].status.Live?
    case Begin(d) => AtHandler(c, s, d) && s.dispatches[d].tx.NoTx?
    case Insert(d) =>
      AtHandler(c, s, d) && s.dispatches[d].tx.Open? &&
      PairAt(c, s, d) !in s.inbox && !Held(c, s, PairAt(c, s, d))
    case Skip(d) => AtHandler(c, s, d) && s.dispatches[d].tx.Open? && PairAt(c, s, d) in s.inbox
    case Handle(d) => Running(c, s, d)
    case Throw(d, _) => d in s.dispatches
    case Crash(d) => d in s.dispatches
    case Finish(d, _) => d in s.dispatches && !AtHandler(c, s, d)
    case Stall(id) => id in s.queue && s.queue[id].status.Live?
    case Forget(id) => id in s.queue && !s.queue[id].status.Live?
    case Tick(_) => true
    case Purge => true
  }

  function Rows(unsaved: map<EventId, Unsaved>, tx: WorkerId): map<EventId, Row> {
    map id | id in unsaved && unsaved[id].tx == tx :: unsaved[id].row
  }

  function EndTx(s: State, tx: WorkerId): State {
    s.(unsaved := map id | id in s.unsaved && s.unsaved[id].tx != tx :: s.unsaved[id])
  }

  /** addBulk drops a job whose id the queue already knows. */
  function AddJob(queue: map<EventId, Job>, id: EventId, eventType: string): map<EventId, Job> {
    if id in queue then queue else queue[id := Job(eventType, Live, 0, 0)]
  }

  function SetPublished(outbox: map<EventId, Row>, ids: set<EventId>, at: int): map<EventId, Row> {
    map id | id in outbox :: if id in ids then outbox[id].(publishedAt := Some(at)) else outbox[id]
  }

  function Without<K, V>(m: map<K, V>, k: K): map<K, V> {
    m - {k}
  }

  /** A failed attempt: the eighth one is the last. A worker that lost its job lock changes nothing. */
  function FailAttempt(s: State, id: EventId, acked: bool): State {
    if !acked || id !in s.queue || !s.queue[id].status.Live? then s
    else
      var failures := s.queue[id].failures + 1;
      var last := failures == MAX_ATTEMPTS;
      s.(queue := s.queue[id := s.queue[id].(failures := failures, status := if last then Failed else Live)],
         attempts := s.attempts + multiset{id},
         exhausted := if last then s.exhausted + {id} else s.exhausted)
  }

  function CompleteJob(s: State, id: EventId, acked: bool): State {
    if !acked || id !in s.queue || !s.queue[id].status.Live? then s
    else s.(queue := s.queue[id := s.queue[id].(status := Completed)])
  }

  /** The queue finds that a job's worker is gone: it puts the job back, or fails it if that happened before. */
  function StallJob(s: State, id: EventId): State
    requires id in s.queue
  {
    var last := s.queue[id].stalls >= MAX_STALLS;
    s.(queue := s.queue[id := s.queue[id].(stalls := s.queue[id].stalls + 1, status := if last then Failed else Live)],
       stalledOut := if last then s.stalledOut + {id} else s.stalledOut)
  }

  predicate Delivered(s: State, id: EventId) {
    id in s.outbox && s.outbox[id].publishedAt.Some? && s.outbox[id].publishedAt.value < s.clock - OUTBOX_RETENTION
  }

  /** purge-delivered-events: rows published over 7 days ago, inbox rows older than 30 days. */
  function PurgeDelivered(s: State): State {
    s.(outbox := map id | id in s.outbox && !Delivered(s, id) :: s.outbox[id],
       inbox := map x | x in s.inbox && !(s.inbox[x] < s.clock - INBOX_RETENTION) :: s.inbox[x])
  }

  /** The transaction's rows become visible together. */
  function SaveRows(s: State, tx: WorkerId): State {
    var rows := Rows(s.unsaved, tx);
    EndTx(s, tx).(outbox := s.outbox + rows,
                  committed := s.committed + map id | id in rows :: rows[id].eventType)
  }

  function DropRows(s: State, tx: WorkerId): State {
    EndTx(s, tx).(rolledBack := s.rolledBack + Rows(s.unsaved, tx).Keys)
  }

  function SendJob(s: State, r: WorkerId, id: EventId): State
    requires r in s.relays && id in s.outbox
  {
    s.(relays := s.relays[r := s.relays[r].(sent := s.relays[r].sent + {id})],
       queue := AddJob(s.queue, id, s.outbox[id].eventType))
  }

  function SaveMarks(s: State, r: WorkerId): State
    requires r in s.relays && s.relays[r].marked.Some?
  {
    s.(relays := Without(s.relays, r),
       outbox := SetPublished(s.outbox, s.relays[r].claimed, s.relays[r].marked.value),
       marks := s.marks + multiset(s.relays[r].claimed))
  }

  /** The inbox row and the handler's own writes commit together. */
  function SaveHandled(s: State, d: WorkerId, x: Pair): State
    requires d in s.dispatches && s.dispatches[d].tx.Holding?
  {
    var at := s.dispatches[d].tx.began;
    s.(dispatches := s.dispatches[d := s.dispatches[d].(next := s.dispatches[d].next + 1, tx := NoTx)],
       inbox := s.inbox[x := at],
       effects := s.effects + multiset{x},
       handledAt := s.handledAt[x := at])
  }

  function Leave(s: State, d: WorkerId): State {
    s.(dispatches := Without(s.dispatches, d))
  }

  function SetDispatch(s: State, d: WorkerId, dispatch: Dispatch): State {
    s.(dispatches := s.dispatches[d := dispatch])
  }

  function SetRelay(s: State, r: WorkerId, relay: Relay): State {
    s.(relays := s.relays[r := relay])
  }

  function DropRelay(s: State, r: WorkerId): State {
    s.(relays := Without(s.relays, r))
  }

  function AddUnsaved(s: State, id: EventId, unsaved: Unsaved): State {
    s.(unsaved := s.unsaved[id := unsaved])
  }

  ghost function Apply(c: seq<Handler>, s: State, a: Step): State
    requires Enabled(c, s, a)
  {
    match a
    case Publish(tx, id, eventType, availableAt) =>
      AddUnsaved(s, id, Unsaved(tx, Row(eventType, availableAt, None)))
    case CommitTx(tx) => SaveRows(s, tx)
    case AbortTx(tx) => DropRows(s, tx)
    case Claim(r, batch) => SetRelay(s, r, Relay(batch, {}, None))
    case Enqueue(r, id) => SendJob(s, r, id)
    case Mark(r) => SetRelay(s, r, s.relays[r].(marked := Some(s.clock)))
    case CommitRelay(r) => SaveMarks(s, r)
    case AbortRelay(r) => DropRelay(s, r)
    case Deliver(d, id) => SetDispatch(s, d, Dispatch(id, s.queue[id].eventType, 0, NoTx))
    case Begin(d) => SetDispatch(s, d, s.dispatches[d].(tx := Open(s.clock)))
    case Insert(d) => SetDispatch(s, d, s.dispatches[d].(tx := Holding(s.dispatches[d].tx.began, s.clock)))
    case Skip(d) => SetDispatch(s, d, s.dispatches[d].(next := s.dispatches[d].next + 1, tx := NoTx))
    case Handle(d) => SaveHandled(s, d, PairAt(c, s, d))
    case Throw(d, acked) => FailAttempt(Leave(s, d), s.dispatches[d].id, acked)
    case Crash(d) => Leave(s, d)
    case Finish(d, acked) => CompleteJob(Leave(s, d), s.dispatches[d].id, acked)
    case Stall(id) => StallJob(s, id)
    case Forget(id) => s.(queue := Without(s.queue, id))
    case Tick(ms) => s.(clock := s.clock + ms)
    case Purge => PurgeDelivered(s)
  }

  /** The next-state relation of the machine, for the runs of module Runs. */
  ghost function Machine(c: seq<Handler>): (State, Step, State) -> bool {
    (s, a, t) => Enabled(c, s, a) && t == Apply(c, s, a)
  }

  lemma RunStep(c: seq<Handler>, states: seq<State>, steps: seq<Step>, i: nat)
    requires Runs.IsRun(Machine(c), states, steps) && i < |steps|
    ensures Enabled(c, states[i], steps[i]) && states[i + 1] == Apply(c, states[i], steps[i])
  {
    assert Runs.StepAt(Machine(c), states, steps, i);
  }

  ghost predicate Reaches(c: seq<Handler>, s: State, t: State) {
    Runs.Reaches(Machine(c), s, t)
  }

  lemma ReachNext(c: seq<Handler>, s: State, t: State, a: Step)
    requires Reaches(c, s, t) && Enabled(c, t, a)
    ensures Reaches(c, s, Apply(c, t, a))
  {
    Runs.ReachNext(Machine(c), s, t, a, Apply(c, t, a));
  }

  /** The database and the queue that the services share. */
  class Store {
    var s: State

    constructor (clock: int)
      ensures s == Init(clock)
    {
      s := Init(clock);
    }
  }
}

/**
 OutboxRelay: wake-ups coalesced by two flags, and the loop that moves committed events to the queue
 batch by batch. The flags are a small concurrent machine of their own (wake-ups, loop ends and the
 shutdown arrive in any order); the loop is proved to be a run of the outbox protocol.
 */
module OutboxRelay {
  import opened Options
  import Runs
  import opened OutboxProtocol
  import opened RelayClaims

  // ---- the wake-up flags ----------------------------------------------------------------------

  datatype Event = Woken | Started | Ended | Stopped
  datatype Flags = Flags(running: bool, again: bool, stopped: bool, log: seq<Event>)

  function Logged(f: Flags, e: Event): Flags {
    f.(log := f.log + [e])
  }

  function WakeUp(f: Flags): Flags {
    if f.stopped then f
    else if f.running then f.(again := true)
    else Logged(f.(running := true), Started)
  }

  function OnWake(f: Flags): Flags {
    WakeUp(Logged(f, Woken))
  }

  function OnLoopEnd(f: Flags): Flags {
    var g := Logged(f.(running := false), Ended);
    if g.again then WakeUp(g.(again := false)) else g
  }

  function OnShutdown(f: Flags): Flags {
    Logged(f.(stopped := true), Stopped)
  }

  datatype Signal = Wake | LoopEnd | Shutdown

  function Next(f: Flags, signal: Signal): Flags {
    match signal
    case Wake => OnWake(f)
    case LoopEnd => OnLoopEnd(f)
    case Shutdown => OnShutdown(f)
  }

  /** Signals come in any order, but only a running loop can end. */
  ghost function FlagMachine(): (Flags, Signal, Flags) -> bool {
    (f: Flags, signal: Signal, g: Flags) => (signal.LoopEnd? ==> f.running) && g == Next(f, signal)
  }

  function Count(log: seq<Event>, e: Event): nat {
    if log == [] then 0 else Count(log[..|log| - 1], e) + if log[|log| - 1] == e then 1 else 0
  }

  /** Every wake-up is followed by the start of a relay loop. */
  ghost predicate Served(log: seq<Event>) {
    forall i :: 0 <= i < |log| && log[i] == Woken ==> exists j :: i < j < |log| && log[j] == Started
  }

  ghost predicate FlagsInv(f: Flags) {
    && (f.again ==> f.running)
    && Count(f.log, Started) == Count(f.log, Ended) + (if f.running then 1 else 0)
    && (!f.stopped && !f.again ==> Served(f.log))
  }

  lemma CountSnoc(log: seq<Event>, x: Event, e: Event)
    ensures Count(log + [x], e) == Count(log, e) + if x == e then 1 else 0
  {
    assert (log + [x])[..|log|] == log;
  }

  lemma ServedSnoc(log: seq<Event>, e: Event)
    ensures e == Started ==> Served(log + [e])
    ensures e != Woken && Served(log) ==> Served(log + [e])
  {
    var after := log + [e];
    if e == Started {
      forall i | 0 <= i < |after| && after[i] == Woken ensures exists j :: i < j < |after| && after[j] == Started {
        assert after[|log|] == Started;
      }
    } else if e != Woken && Served(log) {
      forall i | 0 <= i < |after| && after[i] == Woken ensures exists j :: i < j < |after| && after[j] == Started {
        var j :| i < j < |log| && log[j] == Started;
        assert after[j] == Started;
      }
    }
  }

  lemma LogSnoc(log: seq<Event>, e: Event)
    ensures Count(log + [e], Started) == Count(log, Started) + if e == Started then 1 else 0
    ensures Count(log + [e], Ended) == Count(log, Ended) + if e == Ended then 1 else 0
    ensures e == Started ==> Served(log + [e])
    ensures e != Woken && Served(log) ==> Served(log + [e])
  {
    CountSnoc(log, e, Started);
    CountSnoc(log, e, Ended);
    ServedSnoc(log, e);
  }

  lemma WakeKeepsFlagsInv(f: Flags)
    requires FlagsInv(f)
    ensures FlagsInv(OnWake(f))
  {
    LogSnoc(f.log, Woken);
    LogSnoc(f.log + [Woken], Started);
  }

  lemma LoopEndKeepsFlagsInv(f: Flags)
    requires FlagsInv(f) && f.running
    ensures FlagsInv(OnLoopEnd(f))
  {
    LogSnoc(f.log, Ended);
    LogSnoc(f.log + [Ended], Woken);
    LogSnoc(f.log + [Ended] + [Woken], Started);
    LogSnoc(f.log + [Ended], Started);
  }

  lemma SignalKeepsFlagsInv(f: Flags, signal: Signal)
    requires FlagsInv(f) && (signal.LoopEnd? ==> f.running)
    ensures FlagsInv(Next(f, signal))
  {
    match signal
    case Wake => WakeKeepsFlagsInv(f);
    case LoopEnd => LoopEndKeepsFlagsInv(f);
    case Shutdown =>
      LogSnoc(f.log, Stopped);
  }

  /**
   No wake-up is lost, in any order of signals: at most one loop is active, a re-run is only asked of
   a running loop, and when the relay is idle and not stopped every wake-up so far was followed by
   the start of a loop.
   */
  lemma {:induction false} NoLostWakeUp(states: seq<Flags>, signals: seq<Signal>, n: nat)
    requires Runs.IsRun(FlagMachine(), states, signals) && n <= |signals| && FlagsInv(states[0])
    ensures FlagsInv(states[n])
    ensures !states[n].running && !states[n].stopped ==> Served(states[n].log)
  {
    if n > 0 {
      NoLostWakeUp(states, signals, n - 1);
      assert Runs.StepAt(FlagMachine(), states, signals, n - 1);
      SignalKeepsFlagsInv(states[n - 1], signals[n - 1]);
    }
  }

  lemma StoppedStartsNothing(f: Flags, signal: Signal)
    requires f.stopped || signal.Shutdown?
    ensures Next(f, signal).stopped && Count(Next(f, signal).log, Started) == Count(f.log, Started)
  {
    var e := match signal case Wake => Woken case LoopEnd => Ended case Shutdown => Stopped;
    CountSnoc(f.log, e, Started);
  }

  /** After a shutdown no loop ever starts again, whatever was asked for before or is asked for then. */
  lemma {:induction false} NoStartAfterShutdown(states: seq<Flags>, signals: seq<Signal>, i: nat, n: nat)
    requires Runs.IsRun(FlagMachine(), states, signals) && i < n <= |signals| && signals[i] == Shutdown
    ensures states[n].stopped && Count(states[n].log, Started) == Count(states[i].log, Started)
    decreases n
  {
    if i + 1 < n {
      NoStartAfterShutdown(states, signals, i, n - 1);
    }
    assert Runs.StepAt(FlagMachine(), states, signals, n - 1);
    StoppedStartsNothing(states[n - 1], signals[n - 1]);
  }

  // ---- the relay loop -------------------------------------------------------------------------

  function PendingIds(outbox: map<EventId, Row>): set<EventId> {
    set id | id in outbox && outbox[id].publishedAt.None?
  }

  /** The smallest id of a non-empty set. */
  method Smallest(ids: set<EventId>) returns (least: EventId)
    requires ids != {}
    ensures least in ids && forall id :: id in ids ==> least <= id
  {
    least :| least in ids;
    var seen := {least};
    while ids - seen != {}
      invariant seen <= ids && least in seen
      invariant forall id :: id in seen ==> least <= id
      decreases ids - seen
    {
      var id :| id in ids - seen;
      if id < least { least := id; }
      seen := seen + {id};
    }
    assert forall id :: id in ids ==> id !in ids - seen;
  }

  /** Rows only go from pending to published, and a published one is in the queue. */
  ghost predicate Progress(s: State, t: State) {
    && t.outbox.Keys == s.outbox.Keys && t.clock >= s.clock
    && (forall id :: id in s.outbox ==> t.outbox[id].availableAt == s.outbox[id].availableAt)
    && (forall id :: Pending(t.outbox, id) ==> Pending(s.outbox, id))
    && (forall id :: Pending(s.outbox, id) && !Pending(t.outbox, id) ==> id in t.queue)
  }

  lemma BatchShrinksPending(before: State, open: State, batch: set<EventId>)
    requires open.outbox == before.outbox && IsBatch(open, batch)
    ensures var p, q := PendingIds(before.outbox), PendingIds(SetPublished(open.outbox, batch, open.clock));
      q <= p && |q| == |p| - |batch|
  {
    var p, q := PendingIds(before.outbox), PendingIds(SetPublished(open.outbox, batch, open.clock));
    assert batch <= p by {
      forall id | id in batch ensures id in p { assert Claimable(open, id); }
    }
    assert q == p - batch;
    assert p == q + batch && |q + batch| == |q| + |batch|;
  }

  lemma ShortBatchLeavesNothing(open: State, after: State, batch: set<EventId>)
    requires IsBatch(open, batch) && |batch| < BATCH_SIZE
    requires after.outbox == SetPublished(open.outbox, batch, open.clock)
    requires after.relays == open.relays && after.clock == open.clock
    ensures forall id :: !Claimable(after, id)
  {
    forall id ensures !Claimable(after, id) {
      assert Claimable(after, id) ==> Claimable(open, id);
    }
  }

  /** A row marked as published keeps its type and time, and other rows stay as they are. */
  lemma MarkedRow(outbox: map<EventId, Row>, batch: set<EventId>, at: int, id: EventId)
    requires id in outbox
    ensures var after := SetPublished(outbox, batch, at);
      && after.Keys == outbox.Keys
      && after[id] == if id in batch then Row(outbox[id].eventType, outbox[id].availableAt, Some(at)) else outbox[id]
  {
  }

  /** Every row sent whose id the queue did not know has a fresh job of its event's type. */
  ghost predicate NewJobs(s: State, sent: set<EventId>, queue: map<EventId, Job>) {
    forall id :: id in sent && id in s.outbox && id !in s.queue ==> id in queue && queue[id] == Job(s.outbox[id].eventType, Live, 0, 0)
  }

  /** Claimed, sent and marked: the lock is released, and only rows, jobs and marks have changed. */
  lemma BatchFrame(s0: State, s1: State, s2: State, s3: State, r: WorkerId, rows: set<EventId>)
    requires r !in s0.relays && s1 == SetRelay(s0, r, OutboxProtocol.Relay(rows, {}, None))
    requires s2 == s1.(relays := s2.relays, queue := s2.queue) && s2.relays == s1.relays[r := OutboxProtocol.Relay(rows, rows, None)]
    requires s3.relays == Without(s2.relays, r)
    requires s3 == s2.(relays := s3.relays, outbox := s3.outbox, marks := s3.marks)
    ensures s3 == s0.(outbox := s3.outbox, queue := s3.queue, marks := s3.marks)
  {
    assert s3.relays == s0.relays;
  }

  lemma BatchProgress(s: State, open: State, after: State, batch: set<EventId>)
    requires Progress(s, open) && after.clock == open.clock
    requires after.outbox == SetPublished(open.outbox, batch, open.clock)
    requires forall id :: id in after.queue <==> id in open.queue || id in batch
    ensures Progress(s, after)
  {
    forall id | Pending(after.outbox, id) ensures Pending(open.outbox, id) {}
  }

  class Relay {
    const store: Store
    var running: bool
    var again: bool
    var stopped: bool
    ghost var log: seq<Event>

    ghost function View(): Flags
      reads this
    {
      Flags(running, again, stopped, log)
    }

    constructor (store: Store)
      ensures View() == Flags(false, false, false, []) && FlagsInv(View()) && this.store == store
    {
      this.store := store;
      running, again, stopped, log := false, false, false, [];
    }

    /** wake() as called by the listener, the poll timer or the end of a loop. */
    method Coalesce()
      modifies this
      ensures View() == WakeUp(old(View()))
    {
      if stopped { return; }
      if running {
        again := true;
        return;
      }
      running := true;
      log := log + [Started];
    }

    method Wake()
      modifies this
      ensures View() == OnWake(old(View()))
    {
      log := log + [Woken];
      Coalesce();
    }

    /** The finally block of a loop, however the loop ended. */
    method LoopEnded()
      modifies this
      ensures View() == OnLoopEnd(old(View()))
    {
      running := false;
      log := log + [Ended];
      if again {
        again := false;
        Coalesce();
      }
    }

    method Shutdown()
      modifies this
      ensures View() == OnShutdown(old(View()))
    {
      stopped := true;
      log := log + [Stopped];
    }

    /** The query: pending, available, unlocked rows by id, at most a batch of them. */
    method SelectBatch() returns (batch: set<EventId>)
      ensures IsBatch(store.s, batch)
    {
      var rest := set id | id in store.s.outbox && Claimable(store.s, id);
      batch := {};
      while |batch| < BATCH_SIZE && rest != {}
        invariant |batch| <= BATCH_SIZE
        invariant forall id :: Claimable(store.s, id) <==> id in batch || id in rest
        invariant forall b, id :: b in batch && id in rest ==> b < id
        invariant batch !! rest
        decreases rest
      {
        var id := Smallest(rest);
        batch, rest := batch + {id}, rest - {id};
      }
    }

    method SendOne(ghost c: seq<Handler>, ghost s0: State, r: WorkerId, id: EventId)
      requires Reaches(c, s0, store.s) && Enabled(c, store.s, Enqueue(r, id))
      modifies store
      ensures Reaches(c, s0, store.s) && store.s == SendJob(old(store.s), r, id)
    {
      ReachNext(c, s0, store.s, Enqueue(r, id));
      store.s := SendJob(store.s, r, id);
    }

    /** addBulk: a job for every claimed row, unless the queue already knows its id. */
    method SendAll(ghost c: seq<Handler>, ghost s0: State, r: WorkerId)
      requires r in store.s.relays && store.s.relays[r].sent == {} && store.s.relays[r].marked.None?
      requires store.s.relays[r].claimed <= store.s.outbox.Keys && Reaches(c, s0, store.s)
      modifies store
      ensures Reaches(c, s0, store.s)
      ensures store.s == old(store.s).(relays := store.s.relays, queue := store.s.queue)
      ensures var rows := old(store.s).relays[r].claimed;
        store.s.relays == old(store.s).relays[r := OutboxProtocol.Relay(rows, rows, None)]
      ensures forall id :: id in store.s.queue <==> id in old(store.s).queue || id in old(store.s).relays[r].claimed
      ensures forall id :: id in old(store.s).queue ==> store.s.queue[id] == old(store.s).queue[id]
      ensures NewJobs(old(store.s), old(store.s).relays[r].claimed, store.s.queue)
    {
      var before := store.s;
      var rows := before.relays[r].claimed;
      var sent: set<EventId> := {};
      while rows - sent != {}
        invariant sent <= rows && Reaches(c, s0, store.s)
        invariant store.s == before.(relays := store.s.relays, queue := store.s.queue)
        invariant store.s.relays == before.relays[r := OutboxProtocol.Relay(rows, sent, None)]
        invariant forall id :: id in store.s.queue <==> id in before.queue || id in sent
        invariant forall id :: id in before.queue ==> store.s.queue[id] == before.queue[id]
        invariant NewJobs(before, sent, store.s.queue)
        decreases rows - sent
      {
        var id :| id in rows - sent;
        SendOne(c, s0, r, id);
        sent := sent + {id};
      }
      assert sent == rows;
    }

    /**
     One batch, alone between two steps of other processes: the claimed rows end published and their
     jobs queued, the locks are released and nothing else changes.
     */
    method RelayBatch(ghost c: seq<Handler>, r: WorkerId) returns (n: nat, ghost batch: set<EventId>)
      requires r !in store.s.relays
      modifies store
      ensures IsBatch(old(store.s), batch) && n == |batch| && Reaches(c, old(store.s), store.s)
      ensures store.s == old(store.s).(outbox := store.s.outbox, queue := store.s.queue, marks := store.s.marks)
      ensures store.s.outbox == SetPublished(old(store.s).outbox, batch, old(store.s).clock)
      ensures forall id :: id in store.s.queue <==> id in old(store.s).queue || id in batch
      ensures forall id :: id in old(store.s).queue ==> store.s.queue[id] == old(store.s).queue[id]
      ensures NewJobs(old(store.s), batch, store.s.queue)
    {
      Runs.ReachSelf(Machine(c), store.s);
      var rows := SelectBatch();
      batch, n := rows, |rows|;
      if rows == {} {
        assert SetPublished(store.s.outbox, {}, store.s.clock) == store.s.outbox;
        return;
      }
      ClaimRows(c, r, rows);
      ghost var s1 := store.s;
      SendAll(c, old(store.s), r);
      ghost var s2 := store.s;
      MarkPublished(c, old(store.s), r);
      BatchFrame(old(store.s), s1, s2, store.s, r, batch);
    }

    /** FOR UPDATE SKIP LOCKED. */
    method ClaimRows(ghost c: seq<Handler>, r: WorkerId, rows: set<EventId>)
      requires r !in store.s.relays && rows != {} && IsBatch(store.s, rows)
      modifies store
      ensures Reaches(c, old(store.s), store.s)
      ensures store.s == SetRelay(old(store.s), r, OutboxProtocol.Relay(rows, {}, None)) && rows <= store.s.outbox.Keys
    {
      assert forall id :: id in rows ==> Claimable(store.s, id);
      Runs.ReachSelf(Machine(c), store.s);
      ReachNext(c, store.s, store.s, Claim(r, rows));
      store.s := SetRelay(store.s, r, OutboxProtocol.Relay(rows, {}, None));
    }

    /** The rows are marked and the relay transaction commits. */
    method MarkPublished(ghost c: seq<Handler>, ghost s0: State, r: WorkerId)
      requires r in store.s.relays && store.s.relays[r].marked.None?
      requires store.s.relays[r].sent == store.s.relays[r].claimed && Reaches(c, s0, store.s)
      modifies store
      ensures Reaches(c, s0, store.s)
      ensures var rows := old(store.s).relays[r].claimed;
        store.s == old(store.s).(relays := Without(old(store.s).relays, r),
                                 outbox := SetPublished(old(store.s).outbox, rows, old(store.s).clock),
                                 marks := old(store.s).marks + multiset(rows))
    {
      ReachNext(c, s0, store.s, Mark(r));
      store.s := SetRelay(store.s, r, store.s.relays[r].(marked := Some(store.s.clock)));
      ReachNext(c, s0, store.s, CommitRelay(r));
      store.s := SaveMarks(store.s, r);
      assert store.s.relays == Without(old(store.s).relays, r);
    }

    /** A batch some time later; see RelayBatch. */
    method RelayLater(ghost c: seq<Handler>, ghost s0: State, r: WorkerId, passed: nat) returns (n: nat)
      requires store.s.relays == map[] && Reaches(c, s0, store.s) && Progress(s0, store.s)
      modifies store
      ensures store.s.relays == map[] && Reaches(c, s0, store.s) && Progress(s0, store.s)
      ensures n < BATCH_SIZE ==> forall id :: !Claimable(store.s, id)
      ensures n <= BATCH_SIZE
      ensures |PendingIds(store.s.outbox)| == |PendingIds(old(store.s).outbox)| - n
    {
      ReachNext(c, s0, store.s, Tick(passed));
      store.s := store.s.(clock := store.s.clock + passed);
      ghost var open := store.s;
      ghost var batch;
      n, batch := RelayBatch(c, r);
      Runs.ReachFrom(Machine(c), s0, open, store.s);
      BatchProgress(s0, open, store.s, batch);
      BatchShrinksPending(old(store.s), open, batch);
      if n < BATCH_SIZE {
        ShortBatchLeavesNothing(open, store.s, batch);
      }
    }

    /**
     The relay loop with no other relay at work: when told to stop it begins no other batch; between batches time passes and the worker may be
     told to stop. It ends, because every full batch leaves fewer unpublished rows, and unless it was
     stopped no available event is left pending: all of them are published and in the queue.
     */
    method RelayAll(ghost c: seq<Handler>, r: WorkerId, passes: nat -> nat, stops: nat -> bool) returns (ghost batches: nat)
      requires store.s.relays == map[]
      modifies store, `stopped
      ensures old(stopped) ==> batches == 0 && store.s == old(store.s)
      ensures forall k: nat :: k + 1 < batches ==> !stops(k)
      ensures Reaches(c, old(store.s), store.s) && store.s.relays == map[]
      ensures Progress(old(store.s), store.s) && (old(stopped) ==> stopped)
      ensures !stopped ==> forall id :: !Claimable(store.s, id)
    {
      ghost var s0 := store.s;
      Runs.ReachSelf(Machine(c), s0);
      var n, i := BATCH_SIZE, 0;
      batches := 0;
      while !stopped && n == BATCH_SIZE
        invariant Reaches(c, s0, store.s) && store.s.relays == map[] && Progress(s0, store.s)
        invariant batches == i && (old(stopped) ==> stopped && i == 0 && store.s == old(store.s))
        invariant forall k: nat :: k + 1 < i || (k + 1 == i && !stopped) ==> !stops(k)
        invariant n != BATCH_SIZE ==> forall id :: !Claimable(store.s, id)
        decreases |PendingIds(store.s.outbox)|, n
      {
        n := RelayLater(c, s0, r, passes(i));
        stopped := stopped || stops(i);
        i, batches := i + 1, batches + 1;
      }
    }
  }

  /** What RelayAll promises about the events that were available when it began. */
  lemma DrainedEventsAreQueued(s: State, t: State, id: EventId)
    requires Progress(s, t) && t.relays == map[]
    requires forall e :: !Claimable(t, e)
    requires Pending(s.outbox, id) && s.outbox[id].availableAt <= s.clock
    ensures id in t.queue && t.outbox[id].publishedAt.Some?
  {
    assert !Claimable(t, id);
  }
}

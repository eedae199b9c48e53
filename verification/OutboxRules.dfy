/**
 The rules of the outbox, the queue and the purge, in the terms and with the numbers of the services:
 when an event may be sent, which rows a relay takes, what ends a job, and what a commit shows.
 */
module OutboxRules {
  import opened Options
  import Runs
  import opened OutboxProtocol
  import opened RelayClaims
  import opened InboxOnce
  import opened Conservation

  // ---- not before its time ------------------------------------------------------------------------

  /** A relay has taken the event, or it is in the queue, dispatched, published or handled. */
  ghost predicate OnItsWay(s: State, id: EventId) {
    || (exists r :: r in s.relays && id in s.relays[r].claimed)
    || id in s.queue
    || (exists d :: d in s.dispatches && s.dispatches[d].id == id)
    || (id in s.outbox && s.outbox[id].publishedAt.Some?)
    || (exists h :: (h, id) in s.effects)
  }

  ghost predicate NothingEarly(s: State) {
    forall id :: id in s.outbox && OnItsWay(s, id) ==> s.outbox[id].availableAt <= s.clock
  }

  /** What is on its way has been committed. */
  lemma OnItsWayIsCommitted(c: seq<Handler>, s: State, id: EventId)
    requires DeliveryInv(c, s) && OnItsWay(s, id)
    ensures id in s.committed
  {
    if r :| r in s.relays && id in s.relays[r].claimed {
      assert Pending(s.outbox, id);
    } else if d :| d in s.dispatches && s.dispatches[d].id == id {
      assert DispatchTracks(c, s, d);
    } else if h :| (h, id) in s.effects {
      assert (h, id).1 == id;
    }
  }

  /** Only a claim sets an event on its way. */
  ghost predicate SetsOut(c: seq<Handler>, s: State, a: Step, id: EventId)
    requires Enabled(c, s, a)
  {
    OnItsWay(Apply(c, s, a), id) && !OnItsWay(s, id)
  }

  lemma {:induction false} StoreStepClaims(c: seq<Handler>, s: State, a: Step, r: WorkerId, id: EventId)
    requires Enabled(c, s, a) && IsStoreStep(a) && r in Apply(c, s, a).relays && id in Apply(c, s, a).relays[r].claimed
    ensures (r in s.relays && id in s.relays[r].claimed) || (a.Claim? && id in a.batch)
  {
  }

  predicate IsPublished(s: State, id: EventId) {
    id in s.outbox && s.outbox[id].publishedAt.Some?
  }

  lemma {:induction false} StoreStepPublishes(c: seq<Handler>, s: State, a: Step, id: EventId)
    requires RelayInv(s) && Enabled(c, s, a) && IsStoreStep(a) && IsPublished(Apply(c, s, a), id)
    ensures IsPublished(s, id) || (a.CommitRelay? && id in s.relays[a.r].claimed)
  {
  }

  lemma {:induction false} StoreStepSetsOut(c: seq<Handler>, s: State, a: Step, id: EventId)
    requires RelayInv(s) && Enabled(c, s, a) && IsStoreStep(a) && SetsOut(c, s, a, id)
    ensures a.Claim? && id in a.batch
  {
    var t := Apply(c, s, a);
    StoreStepLeavesQueue(c, s, a);
    if r :| r in t.relays && id in t.relays[r].claimed {
      StoreStepClaims(c, s, a, r, id);
    } else if IsPublished(t, id) {
      StoreStepPublishes(c, s, a, id);
    }
  }

  lemma {:induction false} WorkerStepSetsOut(c: seq<Handler>, s: State, a: Step, id: EventId)
    requires Enabled(c, s, a) && IsWorkerStep(a)
    ensures !SetsOut(c, s, a, id)
  {
    WorkerStepsLeaveRows(c, s, a);
    if a.Handle? {
      assert Apply(c, s, a).effects == s.effects + multiset{PairAt(c, s, a.d)};
    }
  }

  /** Nothing is claimed, dispatched, published or handled, and nothing queued but what a relay has claimed. */
  ghost predicate NothingNew(s: State, t: State) {
    && (forall r, id :: r in t.relays && id in t.relays[r].claimed ==> r in s.relays && id in s.relays[r].claimed)
    && (forall id :: id in t.queue ==> id in s.queue || exists r :: r in s.relays && id in s.relays[r].claimed)
    && (forall d :: d in t.dispatches ==> d in s.dispatches && t.dispatches[d].id == s.dispatches[d].id)
    && t.outbox == s.outbox && t.effects == s.effects
  }

  lemma NothingNewSetsOut(s: State, t: State, id: EventId)
    requires NothingNew(s, t) && OnItsWay(t, id)
    ensures OnItsWay(s, id)
  {
  }

  lemma {:induction false} JobStepIsNothingNew(c: seq<Handler>, s: State, a: Step)
    requires Enabled(c, s, a) && !IsStoreStep(a) && !IsWorkerStep(a)
    ensures NothingNew(s, Apply(c, s, a))
  {
  }

  lemma {:induction false} JobStepSetsOut(c: seq<Handler>, s: State, a: Step, id: EventId)
    requires Enabled(c, s, a) && !IsStoreStep(a) && !IsWorkerStep(a)
    ensures !SetsOut(c, s, a, id)
  {
    JobStepIsNothingNew(c, s, a);
    if OnItsWay(Apply(c, s, a), id) {
      NothingNewSetsOut(s, Apply(c, s, a), id);
    }
  }

  /** Rows keep the time from which they are available. */
  lemma {:induction false} RowKeepsTime(c: seq<Handler>, s: State, a: Step, id: EventId)
    requires RelayInv(s) && Enabled(c, s, a) && id in s.committed && id in Apply(c, s, a).outbox
    ensures id in s.outbox && Apply(c, s, a).outbox[id].availableAt == s.outbox[id].availableAt && Apply(c, s, a).clock >= s.clock
  {
    if IsQueueStep(a) {
      QueueStepsLeaveRows(c, s, a);
      RowStepsKeepClock(c, s, a);
    }
  }

  lemma {:induction false} RowStepsKeepClock(c: seq<Handler>, s: State, a: Step)
    requires Enabled(c, s, a)
    ensures Apply(c, s, a).clock >= s.clock
  {
  }

  lemma {:induction false} StepKeepsNothingEarly(c: seq<Handler>, s: State, a: Step)
    requires DeliveryInv(c, s) && NothingEarly(s) && Enabled(c, s, a)
    ensures NothingEarly(Apply(c, s, a))
  {
    var t := Apply(c, s, a);
    StepKeepsDeliveryInv(c, s, a);
    forall id | id in t.outbox && OnItsWay(t, id) ensures t.outbox[id].availableAt <= t.clock {
      if OnItsWay(s, id) {
        OnItsWayIsCommitted(c, s, id);
        RowKeepsTime(c, s, a, id);
      } else if IsStoreStep(a) {
        StoreStepSetsOut(c, s, a, id);
        assert Claimable(s, id);
      } else if IsWorkerStep(a) {
        WorkerStepSetsOut(c, s, a, id);
      } else {
        JobStepSetsOut(c, s, a, id);
      }
    }
  }

  /** Main result: no event is claimed, queued, dispatched, published or handled before the time its row names. */
  lemma NotBeforeItsTime(c: seq<Handler>, clock: int, s: State, id: EventId)
    requires Reaches(c, Init(clock), s) && id in s.outbox && OnItsWay(s, id)
    ensures s.outbox[id].availableAt <= s.clock
  {
    InitIsConsistent(c, clock);
    forall u: State, a: Step, v: State | DeliveryInv(c, u) && NothingEarly(u) && Machine(c)(u, a, v)
      ensures DeliveryInv(c, v) && NothingEarly(v)
    {
      StepKeepsDeliveryInv(c, u, a);
      StepKeepsNothingEarly(c, u, a);
    }
    Runs.InvariantHolds(Machine(c), (u: State) => DeliveryInv(c, u) && NothingEarly(u), Init(clock), s);
  }

  // ---- which rows a relay takes -------------------------------------------------------------------

  /** WHERE published_at IS NULL AND available_at <= now(), SKIP LOCKED. */
  ghost predicate Waits(s: State, id: EventId) {
    && id in s.outbox && s.outbox[id].publishedAt == None && s.outbox[id].availableAt <= s.clock
    && forall r :: r in s.relays ==> id !in s.relays[r].claimed
  }

  /** A batch is the 100 oldest rows that wait, or all of them. */
  lemma BatchIsOldest(s: State, batch: set<EventId>)
    requires IsBatch(s, batch)
    ensures forall id :: id in batch ==> Waits(s, id)
    ensures |batch| <= 100
    ensures forall id :: Waits(s, id) && id !in batch ==> |batch| == 100 && forall b :: b in batch ==> b < id
  {
    assert forall id :: Claimable(s, id) <==> Waits(s, id);
  }

  // ---- what ends a job ----------------------------------------------------------------------------

  ghost predicate TriesLeft(s: State) {
    forall id :: id in s.queue && s.queue[id].status.Live? ==> s.queue[id].failures < 8
  }

  lemma {:induction false} StepKeepsTriesLeft(c: seq<Handler>, s: State, a: Step)
    requires TriesLeft(s) && Enabled(c, s, a)
    ensures TriesLeft(Apply(c, s, a))
  {
    if IsStoreStep(a) {
      StoreStepLeavesQueue(c, s, a);
    } else if IsWorkerStep(a) {
      WorkerStepLeavesQueue(c, s, a);
    } else {
      JobStepKeepsTriesLeft(c, s, a);
    }
  }

  lemma {:induction false} WorkerStepLeavesQueue(c: seq<Handler>, s: State, a: Step)
    requires Enabled(c, s, a) && IsWorkerStep(a)
    ensures Apply(c, s, a).queue == s.queue
  {
  }

  lemma {:induction false} JobStepKeepsTriesLeft(c: seq<Handler>, s: State, a: Step)
    requires TriesLeft(s) && Enabled(c, s, a) && !IsStoreStep(a) && !IsWorkerStep(a)
    ensures TriesLeft(Apply(c, s, a))
  {
  }

  lemma ReachedTriesLeft(c: seq<Handler>, clock: int, s: State)
    requires Reaches(c, Init(clock), s)
    ensures TriesLeft(s)
  {
    forall u: State, a: Step, v: State | TriesLeft(u) && Machine(c)(u, a, v) ensures TriesLeft(v) {
      StepKeepsTriesLeft(c, u, a);
    }
    Runs.InvariantHolds(Machine(c), (u: State) => TriesLeft(u), Init(clock), s);
  }

  /** One failed attempt: the job's eighth failure is its last. */
  lemma FailedAttempt(s: State, id: EventId, acked: bool)
    requires TriesLeft(s)
    ensures var t := FailAttempt(s, id, acked);
      && t.dispatches == s.dispatches
      && t.queue ==
        if acked && HasLiveJob(s, id) then
          var job := s.queue[id];
          s.queue[id := Job(job.eventType, if job.failures == 7 then Failed else Live, job.failures + 1, job.stalls)]
        else s.queue
  {
  }

  /** A throw that reaches the queue counts one failure, and the eighth one fails the job; others do not. */
  lemma EighthFailureEnds(c: seq<Handler>, clock: int, s: State, d: WorkerId, acked: bool)
    requires Reaches(c, Init(clock), s) && Enabled(c, s, Throw(d, acked))
    ensures var id, t := s.dispatches[d].id, Apply(c, s, Throw(d, acked));
      && d !in t.dispatches
      && t.queue ==
        if acked && HasLiveJob(s, id) then
          var job := s.queue[id];
          s.queue[id := Job(job.eventType, if job.failures == 7 then Failed else Live, job.failures + 1, job.stalls)]
        else s.queue
  {
    ReachedTriesLeft(c, clock, s);
    var id, t := s.dispatches[d].id, Leave(s, d);
    FailedAttempt(t, id, acked);
    ThrowIs(c, s, d, acked);
    assert HasLiveJob(t, id) <==> HasLiveJob(s, id);
  }

  lemma {:induction false} ThrowIs(c: seq<Handler>, s: State, d: WorkerId, acked: bool)
    requires Enabled(c, s, Throw(d, acked))
    ensures Apply(c, s, Throw(d, acked)) == FailAttempt(Leave(s, d), s.dispatches[d].id, acked)
  {
  }

  /** A dispatch that ends normally completes its job. */
  lemma {:induction false} FinishCompletes(c: seq<Handler>, s: State, d: WorkerId)
    requires Enabled(c, s, Finish(d, true)) && HasLiveJob(s, s.dispatches[d].id)
    ensures var id, t := s.dispatches[d].id, Apply(c, s, Finish(d, true));
      t.queue == s.queue[id := Job(s.queue[id].eventType, Completed, s.queue[id].failures, s.queue[id].stalls)] && d !in t.dispatches
  {
  }

  /** A stalled job is put back once; the second time it fails. */
  lemma {:induction false} SecondStallFails(c: seq<Handler>, s: State, id: EventId)
    requires Enabled(c, s, Stall(id))
    ensures var job, t := s.queue[id], Apply(c, s, Stall(id));
      t.queue == s.queue[id := Job(job.eventType, if job.stalls == 0 then Live else Failed, job.failures, job.stalls + 1)]
  {
  }

  /** A job that is done is never delivered again, and nothing but being forgotten happens to it. */
  lemma {:induction false} DoneStaysDone(c: seq<Handler>, s: State, a: Step, id: EventId)
    requires id in s.queue && s.queue[id].status != Live && Enabled(c, s, a)
    ensures !(a.Deliver? && a.id == id)
    ensures if a == Forget(id) then id !in Apply(c, s, a).queue else id in Apply(c, s, a).queue && Apply(c, s, a).queue[id] == s.queue[id]
  {
    if IsStoreStep(a) {
      StoreStepLeavesQueue(c, s, a);
    } else if IsWorkerStep(a) {
      WorkerStepLeavesQueue(c, s, a);
    } else {
      JobStepLeavesDone(c, s, a, id);
    }
  }

  lemma {:induction false} JobStepLeavesDone(c: seq<Handler>, s: State, a: Step, id: EventId)
    requires id in s.queue && s.queue[id].status != Live && Enabled(c, s, a) && !IsStoreStep(a) && !IsWorkerStep(a)
    ensures if a == Forget(id) then id !in Apply(c, s, a).queue else id in Apply(c, s, a).queue && Apply(c, s, a).queue[id] == s.queue[id]
  {
  }

  // ---- transactions -------------------------------------------------------------------------------

  /** A commit shows exactly the transaction's rows, as they were published. */
  lemma {:induction false} CommitShows(c: seq<Handler>, s: State, tx: WorkerId, id: EventId)
    requires RelayInv(s)
    ensures var t := Apply(c, s, CommitTx(tx));
      if id in s.unsaved && s.unsaved[id].tx == tx then
        && id in t.outbox && t.outbox[id] == s.unsaved[id].row && id !in t.unsaved
        && id in t.committed && t.committed[id] == s.unsaved[id].row.eventType
      else
        && (id in t.outbox <==> id in s.outbox) && (id in s.outbox ==> t.outbox[id] == s.outbox[id])
        && (id in t.unsaved <==> id in s.unsaved) && (id in s.unsaved ==> t.unsaved[id] == s.unsaved[id])
  {
  }

  /** A rollback leaves the visible rows alone and drops exactly the transaction's own. */
  lemma {:induction false} RollbackDrops(c: seq<Handler>, s: State, tx: WorkerId, id: EventId)
    ensures var t := Apply(c, s, AbortTx(tx));
      && t.outbox == s.outbox
      && (id in t.unsaved <==> id in s.unsaved && s.unsaved[id].tx != tx)
      && (id in t.unsaved ==> t.unsaved[id] == s.unsaved[id])
      && (id in t.rolledBack <==> id in s.rolledBack || (id in s.unsaved && s.unsaved[id].tx == tx))
  {
  }

  /** The inbox row has the time at which its transaction began, however long the handler takes. */
  lemma {:induction false} InboxRowHasBeginTime(c: seq<Handler>, s: State, d: WorkerId, waits: nat, takes: nat)
    requires Enabled(c, s, Begin(d))
    requires var t := Apply(c, Apply(c, s, Begin(d)), Tick(waits)); Enabled(c, t, Insert(d))
    ensures var t := Apply(c, Apply(c, s, Begin(d)), Tick(waits));
      var u := Apply(c, Apply(c, t, Insert(d)), Tick(takes));
      && Enabled(c, u, Handle(d))
      && var v, x := Apply(c, u, Handle(d)), PairAt(c, s, d);
         x in v.inbox && v.inbox[x] == s.clock && x in v.handledAt && v.handledAt[x] == s.clock
  {
  }
}

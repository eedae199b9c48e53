/**
 What losing the job queue costs. The outbox keeps a row until it has been published for 7 days; a
 published row is never relayed again, so after a loss the rows that are left have to be set back to
 pending, and that is enough exactly when no purge came between. A job that stalls out is lost in the same
 way, one event at a time.
 */
module QueueLoss {
  import opened Options
  import Runs
  import opened OutboxProtocol
  import opened RelayClaims
  import opened InboxOnce
  import opened Conservation

  /** The record of every committed event is in the outbox until a relay has marked it. */
  ghost predicate RecordInv(s: State) {
    forall id :: id in s.committed ==> id in s.outbox || id in s.marks
  }

  lemma SaveRowsKeepsRecord(s: State, tx: WorkerId)
    requires RelayInv(s) && RecordInv(s)
    ensures RecordInv(SaveRows(s, tx))
  {
    var t := SaveRows(s, tx);
    forall id | id in t.committed ensures id in t.outbox || id in t.marks {
      assert id in s.committed || id in Rows(s.unsaved, tx);
    }
  }

  lemma StepKeepsRecord(c: seq<Handler>, s: State, a: Step)
    requires RelayInv(s) && RecordInv(s) && Enabled(c, s, a)
    ensures RecordInv(Apply(c, s, a))
  {
    if a.CommitTx? {
      SaveRowsKeepsRecord(s, a.tx);
    }
  }

  lemma RunIsConsistent(c: seq<Handler>, clock: int, states: seq<State>, steps: seq<Step>, n: nat)
    requires Runs.IsRun(Machine(c), states, steps) && n <= |steps| && states[0] == Init(clock)
    ensures DeliveryInv(c, states[n])
  {
    InitIsConsistent(c, clock);
    RunIsAccounted(c, states, steps, n);
  }

  lemma {:induction false} RunKeepsRecord(c: seq<Handler>, clock: int, states: seq<State>, steps: seq<Step>, n: nat)
    requires Runs.IsRun(Machine(c), states, steps) && n <= |steps| && states[0] == Init(clock)
    ensures RecordInv(states[n])
  {
    if n > 0 {
      RunKeepsRecord(c, clock, states, steps, n - 1);
      RunIsConsistent(c, clock, states, steps, n - 1);
      RunStep(c, states, steps, n - 1);
      StepKeepsRecord(c, states[n - 1], steps[n - 1]);
    }
  }

  /** A committed event is pending until a relay's mark of it commits. */
  lemma PendingIffUnmarked(s: State, id: EventId)
    requires RelayInv(s) && RecordInv(s) && id in s.committed
    ensures Pending(s.outbox, id) <==> id !in s.marks
  {
    assert id in s.marks <==> s.marks[id] != 0;
  }

  // ---- the loss ---------------------------------------------------------------------------------

  function QueueLost(s: State): State {
    s.(queue := map[])
  }

  /** The queue has failed its job. */
  predicate GivenUp(s: State, id: EventId) {
    id in s.exhausted || id in s.stalledOut
  }

  /** An event only the queue is still working on. */
  ghost predicate Unfinished(c: seq<Handler>, s: State, id: EventId) {
    HasLiveJob(s, id) && !HandledByAll(c, s, id) && !GivenUp(s, id)
  }

  lemma LossLeavesHistory(c: seq<Handler>, s: State, t: State)
    requires t.effects == s.effects && t.committed == s.committed && t.exhausted == s.exhausted && t.stalledOut == s.stalledOut && t.queue == map[]
    ensures forall id :: Settled(c, t, id) <==> HandledByAll(c, s, id) || GivenUp(s, id)
  {
    HandledFrame(c, s, t);
    HandledFrame(c, t, s);
  }

  /** Losing the queue loses nothing that it had not given up exactly when no event with an unfinished job was marked by a relay. */
  lemma QueueLossIsSafeIff(c: seq<Handler>, s: State)
    requires DeliveryInv(c, s) && RecordInv(s)
    ensures Accounted(c, QueueLost(s)) <==> forall id :: Unfinished(c, s, id) ==> id !in s.marks
  {
    var t := QueueLost(s);
    LossLeavesHistory(c, s, t);
    forall id | id in s.committed ensures Pending(s.outbox, id) <==> id !in s.marks {
      PendingIffUnmarked(s, id);
    }
    forall id | HasLiveJob(s, id) ensures id in s.committed {}
    if Accounted(c, t) {
      forall id | Unfinished(c, s, id) ensures id !in s.marks {
        assert Pending(t.outbox, id) || Settled(c, t, id);
      }
    }
    if forall id :: Unfinished(c, s, id) ==> id !in s.marks {
      forall id | id in t.committed ensures Pending(t.outbox, id) || Settled(c, t, id) {
        assert Pending(s.outbox, id) || Settled(c, s, id);
      }
    }
  }

  // ---- a published row is never relayed again ---------------------------------------------------

  /** A committed event that is not pending, has no live job and is not being dispatched. */
  predicate Stranded(s: State, id: EventId) {
    && id in s.committed && !Pending(s.outbox, id) && !HasLiveJob(s, id)
    && forall d :: d in s.dispatches ==> s.dispatches[d].id != id
  }

  lemma SaveRowsKeepsStranded(s: State, tx: WorkerId, id: EventId)
    requires RelayInv(s) && Stranded(s, id)
    ensures Stranded(SaveRows(s, tx), id)
  {
    assert id !in s.unsaved;
  }

  lemma StoreStepKeepsStranded(c: seq<Handler>, s: State, a: Step, id: EventId)
    requires RelayInv(s) && Stranded(s, id) && Enabled(c, s, a) && IsStoreStep(a)
    ensures Stranded(Apply(c, s, a), id)
  {
    StoreStepLeavesQueue(c, s, a);
    if a.CommitTx? {
      SaveRowsKeepsStranded(s, a.tx, id);
    }
  }

  lemma {:induction false} WorkerStepKeepsStranded(c: seq<Handler>, s: State, a: Step, id: EventId)
    requires Stranded(s, id) && Enabled(c, s, a) && IsWorkerStep(a)
    ensures Stranded(Apply(c, s, a), id)
  {
  }

  /** Steps of the queue and of dispatchers start from a job or a dispatch of their event. */
  lemma {:induction false} QueueStepKeepsStranded(c: seq<Handler>, s: State, a: Step, id: EventId)
    requires RelayInv(s) && Stranded(s, id) && Enabled(c, s, a) && !IsStoreStep(a)
    ensures Stranded(Apply(c, s, a), id)
  {
    if IsWorkerStep(a) {
      WorkerStepKeepsStranded(c, s, a, id);
    } else if a.Enqueue? {
      assert a.id != id;
    }
  }

  lemma StepKeepsStranded(c: seq<Handler>, s: State, a: Step, id: EventId)
    requires RelayInv(s) && Stranded(s, id) && Enabled(c, s, a)
    ensures Stranded(Apply(c, s, a), id) && forall h :: Apply(c, s, a).effects[(h, id)] == s.effects[(h, id)]
  {
    StepAddsEffect(c, s, a);
    if IsStoreStep(a) {
      StoreStepKeepsStranded(c, s, a, id);
    } else {
      QueueStepKeepsStranded(c, s, a, id);
    }
  }

  lemma {:induction false} RunKeepsStranded(c: seq<Handler>, states: seq<State>, steps: seq<Step>, n: nat, id: EventId)
    requires Runs.IsRun(Machine(c), states, steps) && n <= |steps| && RelayInv(states[0]) && Stranded(states[0], id)
    ensures Stranded(states[n], id) && forall h :: states[n].effects[(h, id)] == states[0].effects[(h, id)]
  {
    if n > 0 {
      RunKeepsStranded(c, states, steps, n - 1, id);
      RunKeepsRelayInv(c, states, steps, n - 1);
      RunStep(c, states, steps, n - 1);
      StepKeepsStranded(c, states[n - 1], steps[n - 1], id);
    }
  }

  lemma StrandedStays(c: seq<Handler>, s: State, id: EventId, t: State)
    requires RelayInv(s) && Stranded(s, id) && Reaches(c, s, t)
    ensures Stranded(t, id) && forall h :: t.effects[(h, id)] == s.effects[(h, id)]
  {
    var states, steps :| Runs.IsRun(Machine(c), states, steps) && states[0] == s && states[|steps|] == t;
    RunKeepsStranded(c, states, steps, |steps|, id);
  }

  /**
   Main result: after losing the queue, an event that was marked and that no dispatcher is working on is
   never handled by another handler, whatever happens.
   */
  lemma MarkedIsStranded(c: seq<Handler>, s: State, id: EventId, t: State)
    requires DeliveryInv(c, s) && RecordInv(s) && id in s.marks
    requires forall d :: d in s.dispatches ==> s.dispatches[d].id != id
    requires Reaches(c, QueueLost(s), t)
    ensures Stranded(t, id) && forall h :: t.effects[(h, id)] == s.effects[(h, id)]
  {
    PendingIffUnmarked(s, id);
    StrandedStays(c, QueueLost(s), id, t);
  }

  /**
   A job that stalls out is as good as lost: if its event was marked and no dispatcher is working on it, the
   event is never handled by another handler, although it has had no eight attempts.
   */
  lemma StalledOutIsStranded(c: seq<Handler>, s: State, id: EventId, t: State)
    requires DeliveryInv(c, s) && RecordInv(s) && id in s.marks && HasLiveJob(s, id) && StallsOut(s, Stall(id))
    requires forall d :: d in s.dispatches ==> s.dispatches[d].id != id
    requires Reaches(c, StallJob(s, id), t)
    ensures Stranded(t, id) && forall h :: t.effects[(h, id)] == s.effects[(h, id)]
  {
    PendingIffUnmarked(s, id);
    RelayInvFrame(s, StallJob(s, id));
    StrandedStays(c, StallJob(s, id), id, t);
  }

  // ---- the record -------------------------------------------------------------------------------

  /** The repair: no queue, and every row the outbox still has is pending again. */
  function Recovered(s: State): State {
    QueueLost(s).(outbox := map id | id in s.outbox :: s.outbox[id].(publishedAt := None))
  }

  /** A purge of a row published more than 7 days ago. */
  predicate PurgesRow(s: State, a: Step, id: EventId) {
    && a.Purge? && id in s.outbox && s.outbox[id].publishedAt.Some?
    && s.outbox[id].publishedAt.value < s.clock - 7 * DAY
  }

  ghost predicate Purged(states: seq<State>, steps: seq<Step>, n: nat, id: EventId)
    requires n <= |steps| < |states|
  {
    exists i :: 0 <= i < n && PurgesRow(states[i], steps[i], id)
  }

  lemma SaveRowsGone(s: State, tx: WorkerId, id: EventId)
    requires RelayInv(s)
    ensures var t := SaveRows(s, tx);
      id in t.committed && id !in t.outbox <==> id in s.committed && id !in s.outbox
  {
    assert id in Rows(s.unsaved, tx) ==> id in s.unsaved;
  }

  /** Rows go by a purge, and never come back. */
  ghost predicate GoneNext(s: State, a: Step, t: State, id: EventId) {
    id in t.committed && id !in t.outbox <==> (id in s.committed && id !in s.outbox) || PurgesRow(s, a, id)
  }

  lemma SameRowsGone(s: State, a: Step, t: State, id: EventId)
    requires SameRows(s, t) && !a.Purge?
    ensures GoneNext(s, a, t, id)
  {
  }

  lemma {:induction false} RowStepGone(c: seq<Handler>, s: State, a: Step, id: EventId)
    requires RelayInv(s) && Enabled(c, s, a) && !IsQueueStep(a)
    ensures GoneNext(s, a, Apply(c, s, a), id)
  {
    if a.CommitTx? {
      SaveRowsGone(s, a.tx, id);
    }
  }

  lemma StepGone(c: seq<Handler>, s: State, a: Step, id: EventId)
    requires RelayInv(s) && Enabled(c, s, a)
    ensures GoneNext(s, a, Apply(c, s, a), id)
  {
    if IsQueueStep(a) {
      QueueStepsLeaveRows(c, s, a);
      SameRowsGone(s, a, Apply(c, s, a), id);
    } else {
      RowStepGone(c, s, a, id);
    }
  }

  lemma PurgedNext(states: seq<State>, steps: seq<Step>, n: nat, id: EventId)
    requires n < |steps| < |states|
    ensures Purged(states, steps, n + 1, id) <==> Purged(states, steps, n, id) || PurgesRow(states[n], steps[n], id)
  {
  }

  lemma {:induction false} GoneIffPurged(c: seq<Handler>, clock: int, states: seq<State>, steps: seq<Step>, n: nat, id: EventId)
    requires Runs.IsRun(Machine(c), states, steps) && n <= |steps| && states[0] == Init(clock)
    ensures id in states[n].committed && id !in states[n].outbox <==> Purged(states, steps, n, id)
  {
    if n > 0 {
      GoneIffPurged(c, clock, states, steps, n - 1, id);
      RunIsConsistent(c, clock, states, steps, n - 1);
      RunStep(c, states, steps, n - 1);
      StepGone(c, states[n - 1], steps[n - 1], id);
      PurgedNext(states, steps, n - 1, id);
    }
  }

  lemma RecoveredPending(c: seq<Handler>, s: State)
    requires DeliveryInv(c, s)
    ensures Accounted(c, Recovered(s)) <==> forall id :: Unfinished(c, s, id) ==> id in s.outbox
  {
    var t := Recovered(s);
    LossLeavesHistory(c, s, t);
    forall id ensures Pending(t.outbox, id) <==> id in s.outbox {}
    forall id | HasLiveJob(s, id) ensures id in s.committed {}
    if Accounted(c, t) {
      forall id | Unfinished(c, s, id) ensures id in s.outbox {
        assert Pending(t.outbox, id) || Settled(c, t, id);
      }
    }
    if forall id :: Unfinished(c, s, id) ==> id in s.outbox {
      forall id | id in t.committed ensures Pending(t.outbox, id) || Settled(c, t, id) {
        assert Pending(s.outbox, id) || Settled(c, s, id);
      }
    }
  }

  /**
   Main result: at every point of every run, the outbox still has the record of all that must be sent, so
   that setting it back to pending makes up for a lost queue, exactly when no purge of the run removed the
   row of an event with an unfinished job.
   */
  lemma RecoverableIff(c: seq<Handler>, clock: int, states: seq<State>, steps: seq<Step>, n: nat)
    requires Runs.IsRun(Machine(c), states, steps) && n <= |steps| && states[0] == Init(clock)
    ensures Accounted(c, Recovered(states[n])) <==>
      forall id :: Unfinished(c, states[n], id) ==> !Purged(states, steps, n, id)
  {
    RunIsConsistent(c, clock, states, steps, n);
    RecoveredPending(c, states[n]);
    forall id | Unfinished(c, states[n], id)
      ensures id in states[n].outbox <==> !Purged(states, steps, n, id)
    {
      GoneIffPurged(c, clock, states, steps, n, id);
      assert id in states[n].committed;
    }
  }

  // ---- runs that lose ---------------------------------------------------------------------------

  /** The relay of Queued() has committed: the event is published and its job has not run. */
  function Published(): State {
    SaveMarks(SetRelay(Queued(), 0, Relay({0}, {0}, Some(0))), 0)
  }

  lemma ReachPublished(c: seq<Handler>)
    ensures Reaches(c, Init(0), Published())
  {
    ReachQueued(c);
    ReachNext(c, Init(0), Queued(), Mark(0));
    ReachNext(c, Init(0), SetRelay(Queued(), 0, Relay({0}, {0}, Some(0))), CommitRelay(0));
  }

  /** As soon as a relay commits, losing the queue loses the delivery; the record is still there. */
  lemma QueueLossLosesPublished(c: seq<Handler>, h: string)
    requires Consumers(c, "email") == [h]
    ensures Reaches(c, Init(0), Published())
    ensures !Accounted(c, QueueLost(Published())) && Conserved(c, Recovered(Published()))
  {
    ReachPublished(c);
    var s := Published();
    assert s.outbox[0].publishedAt == Some(0) && s.committed == map[0 := "email"];
    assert (h, 0) !in s.effects && h in Consumers(c, s.committed[0]);
    assert Pending(Recovered(s).outbox, 0);
  }

  /** Its worker dies while it dispatches, and the queue finds out. */
  lemma ReachStalled(c: seq<Handler>, s: State)
    requires Reaches(c, Init(0), s) && s.dispatches == map[] && HasLiveJob(s, 0)
    ensures Reaches(c, Init(0), StallJob(s, 0))
  {
    ReachNext(c, Init(0), s, Deliver(0, 0));
    var t := SetDispatch(s, 0, Dispatch(0, s.queue[0].eventType, 0, NoTx));
    ReachNext(c, Init(0), t, Crash(0));
    assert Leave(t, 0) == s;
    ReachNext(c, Init(0), s, Stall(0));
  }

  /** Two dead workers are enough: no handler has run, no attempt was counted, and the event is lost. */
  lemma StallsLosePublished(c: seq<Handler>, h: string)
    requires Consumers(c, "email") == [h]
    ensures var s := StallJob(StallJob(Published(), 0), 0);
      Reaches(c, Init(0), s) && !Conserved(c, s) && (h, 0) !in s.effects && s.attempts[0] == 0
  {
    ReachPublished(c);
    var s := Published();
    assert s.outbox[0].publishedAt == Some(0) && s.committed == map[0 := "email"] && s.queue == map[0 := Job("email", Live, 0, 0)];
    ReachStalled(c, s);
    var t := StallJob(s, 0);
    assert t.queue[0] == Job("email", Live, 0, 1);
    ReachStalled(c, t);
    var u := StallJob(t, 0);
    assert (h, 0) !in u.effects && h in Consumers(c, u.committed[0]);
    assert !Pending(u.outbox, 0) && !Kept(c, u, 0);
  }

  /** The same while the relay has not committed loses nothing yet; the relay's commit then does. */
  lemma RelayMarksStalledOut(c: seq<Handler>, h: string)
    requires Consumers(c, "email") == [h]
    ensures var s := StallJob(StallJob(Queued(), 0), 0);
      Reaches(c, Init(0), s) && Conserved(c, s) && exists t :: Reaches(c, s, t) && t.queue == s.queue && !Conserved(c, t)
  {
    ReachQueued(c);
    ReachStalled(c, Queued());
    var s := StallJob(Queued(), 0);
    ReachStalled(c, s);
    var t := StallJob(s, 0);
    assert t.queue == map[0 := Job("email", Failed, 0, 2)] && t.relays == map[0 := Relay({0}, {0}, None)];
    Runs.ReachSelf(Machine(c), t);
    ReachNext(c, t, t, Mark(0));
    var u := SetRelay(t, 0, Relay({0}, {0}, Some(0)));
    ReachNext(c, t, u, CommitRelay(0));
    var v := SaveMarks(u, 0);
    assert v.outbox[0].publishedAt == Some(0) && h in Consumers(c, v.committed[0]) && (h, 0) !in v.effects;
    assert !Pending(v.outbox, 0) && !Kept(c, v, 0);
  }

  /** No worker for 8 days: the purge has taken the row, and the record goes with the queue. */
  lemma PurgeThenLossLosesTheRecord(c: seq<Handler>, h: string)
    requires Consumers(c, "email") == [h]
    ensures exists s :: Reaches(c, Init(0), s) && Unfinished(c, s, 0) && !Accounted(c, Recovered(s))
  {
    ReachPublished(c);
    var s := Published();
    ReachNext(c, Init(0), s, Tick(8 * DAY));
    var t := s.(clock := s.clock + 8 * DAY);
    ReachNext(c, Init(0), t, Purge);
    var u := PurgeDelivered(t);
    assert s.outbox[0].publishedAt == Some(0) && u.committed == map[0 := "email"];
    assert 0 !in u.outbox && HasLiveJob(u, 0);
    assert (h, 0) !in u.effects && h in Consumers(c, u.committed[0]);
    assert !Pending(Recovered(u).outbox, 0) && !HandledByAll(c, Recovered(u), 0);
  }
}

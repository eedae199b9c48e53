/**
 What becomes of events over every run: a committed event is still pending, or has a live job, or has been
 handled by all its handlers, or has used up its eight attempts, or its job stalled more often than the
 queue allows; and only such a stall loses anything. An event whose transaction rolled back never gets
 that far.
 */
module Conservation {
  import Runs
  import opened OutboxProtocol
  import opened RelayClaims
  import opened InboxOnce

  ghost predicate HandledByAll(c: seq<Handler>, s: State, id: EventId) {
    id in s.committed && forall h :: h in Consumers(c, s.committed[id]) ==> (h, id) in s.effects
  }

  predicate HasLiveJob(s: State, id: EventId) {
    id in s.queue && s.queue[id].status.Live?
  }

  ghost predicate Kept(c: seq<Handler>, s: State, id: EventId) {
    HasLiveJob(s, id) || HandledByAll(c, s, id) || id in s.exhausted
  }

  ghost predicate Settled(c: seq<Handler>, s: State, id: EventId) {
    Kept(c, s, id) || id in s.stalledOut
  }

  ghost predicate QueueTracks(c: seq<Handler>, s: State) {
    forall id :: id in s.queue ==>
      var job := s.queue[id];
      && id in s.committed && job.eventType == s.committed[id]
      && (job.status.Completed? ==> HandledByAll(c, s, id))
      && (job.status.Failed? ==> id in s.exhausted || id in s.stalledOut)
      && job.failures <= s.attempts[id]
  }

  ghost predicate DispatchTracks(c: seq<Handler>, s: State, d: WorkerId)
    requires d in s.dispatches
  {
    var w := s.dispatches[d];
    && w.id in s.committed && w.eventType == s.committed[w.id]
    && w.next <= |Consumers(c, w.eventType)|
    && forall i :: 0 <= i < w.next ==> (Consumers(c, w.eventType)[i], w.id) in s.effects
  }

  ghost predicate RelayTracks(c: seq<Handler>, s: State) {
    forall r :: r in s.relays ==>
      && s.relays[r].sent <= s.relays[r].claimed
      && (s.relays[r].marked.Some? ==> s.relays[r].sent == s.relays[r].claimed)
      && forall id :: id in s.relays[r].sent ==> Settled(c, s, id)
  }

  ghost predicate Tracks(c: seq<Handler>, s: State) {
    && QueueTracks(c, s)
    && (forall d :: d in s.dispatches ==> DispatchTracks(c, s, d))
    && RelayTracks(c, s)
    && (forall id :: id in s.exhausted ==> s.attempts[id] >= MAX_ATTEMPTS)
    && (forall x :: x in s.effects ==> x.1 in s.committed)
  }

  ghost predicate Accounted(c: seq<Handler>, s: State) {
    forall id :: id in s.committed ==> Pending(s.outbox, id) || Settled(c, s, id)
  }

  /** No event is lost: each is still on its way, done, or has had its eight attempts. */
  ghost predicate Conserved(c: seq<Handler>, s: State) {
    forall id :: id in s.committed ==> Pending(s.outbox, id) || Kept(c, s, id)
  }

  ghost predicate DeliveryInv(c: seq<Handler>, s: State) {
    RelayInv(s) && InboxInv(c, s) && Tracks(c, s) && Accounted(c, s)
  }

  /** What the history of a state says only grows. */
  ghost predicate Grows(s: State, t: State) {
    && (forall id :: id in s.committed ==> id in t.committed && t.committed[id] == s.committed[id])
    && (forall x :: x in s.effects ==> x in t.effects)
    && s.exhausted <= t.exhausted && s.stalledOut <= t.stalledOut
    && (forall id :: s.attempts[id] <= t.attempts[id])
  }

  /** A queue that only gains live jobs and only forgets finished ones keeps every event. */
  lemma KeptStays(c: seq<Handler>, s: State, t: State, id: EventId)
    requires Grows(s, t) && Kept(c, s, id)
    requires HasLiveJob(s, id) ==> HasLiveJob(t, id)
    ensures Kept(c, t, id)
  {
  }

  /** With effects and committed events unchanged, handled events stay handled. */
  lemma HandledFrame(c: seq<Handler>, s: State, t: State)
    requires t.effects == s.effects && t.committed == s.committed
    ensures forall id :: HandledByAll(c, s, id) ==> HandledByAll(c, t, id)
  {
  }

  lemma TracksFrame(c: seq<Handler>, s: State, t: State)
    requires Tracks(c, s) && Grows(s, t) && t.queue == s.queue && t.exhausted == s.exhausted
    requires forall x :: x in t.effects ==> x.1 in t.committed
    requires forall d :: d in t.dispatches ==> DispatchTracks(c, t, d)
    requires forall r :: r in t.relays ==>
      && t.relays[r].sent <= t.relays[r].claimed
      && (t.relays[r].marked.Some? ==> t.relays[r].sent == t.relays[r].claimed)
      && ((r in s.relays && t.relays[r].sent == s.relays[r].sent) || t.relays[r].sent == {})
    ensures Tracks(c, t)
    ensures forall id :: Kept(c, s, id) ==> Kept(c, t, id)
  {
    forall id | Kept(c, s, id) ensures Kept(c, t, id) {
      KeptStays(c, s, t, id);
    }
  }

  lemma DispatchTracksFrame(c: seq<Handler>, s: State, t: State, d: WorkerId)
    requires Grows(s, t) && d in s.dispatches && d in t.dispatches && t.dispatches[d] == s.dispatches[d]
    requires DispatchTracks(c, s, d)
    ensures DispatchTracks(c, t, d)
  {
  }

  predicate IsStoreStep(a: Step) {
    a.Publish? || a.CommitTx? || a.AbortTx? || a.Claim? || a.Mark? || a.CommitRelay? || a.AbortRelay? || a.Tick? || a.Purge?
  }

  lemma StoreStepLeavesQueue(c: seq<Handler>, s: State, a: Step)
    requires Enabled(c, s, a) && IsStoreStep(a)
    ensures var t := Apply(c, s, a);
      && t.queue == s.queue && t.dispatches == s.dispatches && t.exhausted == s.exhausted && t.stalledOut == s.stalledOut
      && t.effects == s.effects && t.attempts == s.attempts
  {
  }

  lemma StoreStepGrows(c: seq<Handler>, s: State, a: Step)
    requires RelayInv(s) && Enabled(c, s, a) && IsStoreStep(a)
    ensures Grows(s, Apply(c, s, a))
  {
    StoreStepLeavesQueue(c, s, a);
  }

  lemma StoreStepRelays(c: seq<Handler>, s: State, a: Step)
    requires Tracks(c, s) && Enabled(c, s, a) && IsStoreStep(a)
    ensures var t := Apply(c, s, a);
      forall r :: r in t.relays ==>
        && t.relays[r].sent <= t.relays[r].claimed
        && (t.relays[r].marked.Some? ==> t.relays[r].sent == t.relays[r].claimed)
        && ((r in s.relays && t.relays[r].sent == s.relays[r].sent) || t.relays[r].sent == {})
  {
  }

  lemma StoreStepKeepsTracks(c: seq<Handler>, s: State, a: Step)
    requires RelayInv(s) && Tracks(c, s) && Enabled(c, s, a) && IsStoreStep(a)
    ensures Tracks(c, Apply(c, s, a))
    ensures forall id :: Kept(c, s, id) ==> Kept(c, Apply(c, s, a), id)
  {
    var t := Apply(c, s, a);
    StoreStepLeavesQueue(c, s, a);
    StoreStepGrows(c, s, a);
    StoreStepRelays(c, s, a);
    forall d | d in t.dispatches ensures DispatchTracks(c, t, d) {
      DispatchTracksFrame(c, s, t, d);
    }
    TracksFrame(c, s, t);
  }

  ghost predicate OneWorkerChanges(s: State, t: State, d: WorkerId) {
    && t.queue == s.queue && t.relays == s.relays && t.exhausted == s.exhausted && Grows(s, t)
    && (forall x :: x in t.effects ==> x.1 in t.committed)
    && (forall e :: e in t.dispatches && e != d ==> e in s.dispatches && t.dispatches[e] == s.dispatches[e])
  }

  lemma DispatchesChange(c: seq<Handler>, s: State, t: State, d: WorkerId)
    requires Tracks(c, s) && t == s.(dispatches := t.dispatches)
    requires forall e :: e in t.dispatches && e != d ==> e in s.dispatches && t.dispatches[e] == s.dispatches[e]
    ensures OneWorkerChanges(s, t, d)
  {
  }

  lemma {:induction false} WorkerStepChangesOneWorker(c: seq<Handler>, s: State, a: Step)
    requires Enabled(c, s, a) && IsWorkerStep(a) && !a.Handle? && Tracks(c, s)
    ensures OneWorkerChanges(s, Apply(c, s, a), a.d)
  {
    WorkerStepMoves(c, s, a);
    DispatchesChange(c, s, Apply(c, s, a), a.d);
  }

  lemma {:induction false} WorkerStepMoves(c: seq<Handler>, s: State, a: Step)
    requires Enabled(c, s, a) && IsWorkerStep(a) && !a.Handle?
    ensures var t := Apply(c, s, a);
      && t == s.(dispatches := t.dispatches)
      && forall e :: e in t.dispatches && e != a.d ==> e in s.dispatches && t.dispatches[e] == s.dispatches[e]
  {
  }

  lemma HandleChangesOneWorker(c: seq<Handler>, s: State, d: WorkerId)
    requires Enabled(c, s, Handle(d)) && Tracks(c, s)
    ensures OneWorkerChanges(s, SaveHandled(s, d, PairAt(c, s, d)), d)
  {
    assert DispatchTracks(c, s, d);
  }

  lemma HandleKeepsDispatch(c: seq<Handler>, s: State, d: WorkerId)
    requires Tracks(c, s) && Enabled(c, s, Handle(d))
    ensures DispatchTracks(c, SaveHandled(s, d, PairAt(c, s, d)), d)
  {
    assert DispatchTracks(c, s, d);
  }

  /** The same job, not further than before. */
  lemma SameDispatchTracks(c: seq<Handler>, s: State, t: State, d: WorkerId)
    requires d in s.dispatches && d in t.dispatches && DispatchTracks(c, s, d)
    requires t.effects == s.effects && t.committed == s.committed
    requires var w, v := s.dispatches[d], t.dispatches[d]; v.id == w.id && v.eventType == w.eventType && v.next <= w.next
    ensures DispatchTracks(c, t, d)
  {
  }

  lemma SkipKeepsDispatch(c: seq<Handler>, s: State, d: WorkerId)
    requires InboxInv(c, s) && Tracks(c, s) && Enabled(c, s, Skip(d))
    ensures DispatchTracks(c, SetDispatch(s, d, s.dispatches[d].(next := s.dispatches[d].next + 1, tx := NoTx)), d)
  {
    assert DispatchTracks(c, s, d);
  }

  lemma {:induction false} WorkerStepKeepsDispatch(c: seq<Handler>, s: State, a: Step)
    requires InboxInv(c, s) && Tracks(c, s) && Enabled(c, s, a) && IsWorkerStep(a)
    requires a.d in Apply(c, s, a).dispatches
    ensures DispatchTracks(c, Apply(c, s, a), a.d)
  {
    if a.Handle? {
      HandleKeepsDispatch(c, s, a.d);
    } else if a.Skip? {
      SkipKeepsDispatch(c, s, a.d);
    } else if a.Begin? || a.Insert? {
      assert DispatchTracks(c, s, a.d);
      SameDispatchTracks(c, s, Apply(c, s, a), a.d);
    }
  }

  lemma WorkerStepKeepsTracks(c: seq<Handler>, s: State, a: Step)
    requires InboxInv(c, s) && Tracks(c, s) && Enabled(c, s, a) && IsWorkerStep(a)
    ensures Tracks(c, Apply(c, s, a))
    ensures forall id :: Kept(c, s, id) ==> Kept(c, Apply(c, s, a), id)
  {
    var t := Apply(c, s, a);
    if a.Handle? {
      HandleChangesOneWorker(c, s, a.d);
    } else {
      WorkerStepChangesOneWorker(c, s, a);
    }
    forall d | d in t.dispatches ensures DispatchTracks(c, t, d) {
      if d == a.d {
        WorkerStepKeepsDispatch(c, s, a);
      } else {
        DispatchTracksFrame(c, s, t, d);
      }
    }
    TracksFrame(c, s, t);
  }

  lemma EnqueueKeepsSettled(c: seq<Handler>, s: State, r: WorkerId, id: EventId)
    requires RelayInv(s) && Tracks(c, s) && Enabled(c, s, Enqueue(r, id))
    ensures QueueTracks(c, SendJob(s, r, id)) && Settled(c, SendJob(s, r, id), id)
    ensures forall e :: Kept(c, s, e) ==> Kept(c, SendJob(s, r, id), e)
  {
    var t := SendJob(s, r, id);
    HandledFrame(c, s, t);
    forall e | Kept(c, s, e) ensures Kept(c, t, e) {
      KeptStays(c, s, t, e);
    }
  }

  lemma EnqueueKeepsTracks(c: seq<Handler>, s: State, r: WorkerId, id: EventId)
    requires RelayInv(s) && Tracks(c, s) && Enabled(c, s, Enqueue(r, id))
    ensures Tracks(c, SendJob(s, r, id))
    ensures forall e :: Kept(c, s, e) ==> Kept(c, SendJob(s, r, id), e)
  {
    var t := SendJob(s, r, id);
    EnqueueKeepsSettled(c, s, r, id);
    forall d | d in t.dispatches ensures DispatchTracks(c, t, d) {
      DispatchTracksFrame(c, s, t, d);
    }
  }

  /** A job leaves the live state only when all its handlers are done or its attempts are used up. */
  ghost predicate JobEnds(c: seq<Handler>, s: State, t: State, id: EventId) {
    && t == s.(queue := t.queue, dispatches := t.dispatches, attempts := t.attempts, exhausted := t.exhausted)
    && Grows(s, t)
    && (forall e :: e != id && HasLiveJob(s, e) ==> HasLiveJob(t, e))
    && (HasLiveJob(s, id) ==> HasLiveJob(t, id) || HandledByAll(c, t, id) || id in t.exhausted)
    && (forall d :: d in t.dispatches ==> d in s.dispatches && t.dispatches[d] == s.dispatches[d])
    && QueueTracks(c, t)
    && (forall e :: e in t.exhausted ==> t.attempts[e] >= MAX_ATTEMPTS)
  }

  lemma JobEndsKeepsTracks(c: seq<Handler>, s: State, t: State, id: EventId)
    requires Tracks(c, s) && JobEnds(c, s, t, id)
    ensures Tracks(c, t)
    ensures forall e :: Kept(c, s, e) ==> Kept(c, t, e)
  {
    forall e | Kept(c, s, e) ensures Kept(c, t, e) {
      if HandledByAll(c, s, e) { assert HandledByAll(c, t, e); }
    }
    forall d | d in t.dispatches ensures DispatchTracks(c, t, d) {
      DispatchTracksFrame(c, s, t, d);
    }
  }

  lemma FailAttemptEndsJob(c: seq<Handler>, s: State, id: EventId)
    requires Tracks(c, s) && HasLiveJob(s, id)
    ensures JobEnds(c, s, FailAttempt(s, id, true), id)
  {
    var t := FailAttempt(s, id, true);
    assert forall e :: t.attempts[e] == s.attempts[e] + if e == id then 1 else 0;
    HandledFrame(c, s, t);
  }

  lemma CompleteEndsJob(c: seq<Handler>, s: State, id: EventId)
    requires Tracks(c, s) && HasLiveJob(s, id) && HandledByAll(c, s, id)
    ensures JobEnds(c, s, CompleteJob(s, id, true), id)
  {
    HandledFrame(c, s, CompleteJob(s, id, true));
  }

  lemma ForgetEndsJob(c: seq<Handler>, s: State, id: EventId)
    requires Tracks(c, s) && id in s.queue && !s.queue[id].status.Live?
    ensures JobEnds(c, s, s.(queue := Without(s.queue, id)), id)
  {
    var t := s.(queue := Without(s.queue, id));
    HandledFrame(c, s, t);
  }

  lemma LeaveKeepsTracks(c: seq<Handler>, s: State, d: WorkerId)
    requires Tracks(c, s)
    ensures Tracks(c, Leave(s, d))
    ensures forall id :: Kept(c, s, id) ==> Kept(c, Leave(s, d), id)
  {
    var t := Leave(s, d);
    forall e | e in t.dispatches ensures DispatchTracks(c, t, e) {
      DispatchTracksFrame(c, s, t, e);
    }
    TracksFrame(c, s, t);
  }

  lemma ThrowKeepsTracks(c: seq<Handler>, s: State, d: WorkerId, acked: bool)
    requires Tracks(c, s) && d in s.dispatches
    ensures var t := FailAttempt(Leave(s, d), s.dispatches[d].id, acked);
      Tracks(c, t) && forall id :: Kept(c, s, id) ==> Kept(c, t, id)
  {
    var id := s.dispatches[d].id;
    LeaveKeepsTracks(c, s, d);
    if acked && HasLiveJob(s, id) {
      FailAttemptEndsJob(c, Leave(s, d), id);
      JobEndsKeepsTracks(c, Leave(s, d), FailAttempt(Leave(s, d), id, acked), id);
    }
  }

  /** A dispatch that ends normally has seen every handler of its event through. */
  lemma FinishKeepsTracks(c: seq<Handler>, s: State, d: WorkerId, acked: bool)
    requires Tracks(c, s) && d in s.dispatches && !AtHandler(c, s, d)
    ensures HandledByAll(c, s, s.dispatches[d].id)
    ensures var t := CompleteJob(Leave(s, d), s.dispatches[d].id, acked);
      Tracks(c, t) && forall id :: Kept(c, s, id) ==> Kept(c, t, id)
  {
    var id := s.dispatches[d].id;
    assert DispatchTracks(c, s, d);
    LeaveKeepsTracks(c, s, d);
    if acked && HasLiveJob(s, id) {
      HandledFrame(c, s, Leave(s, d));
      CompleteEndsJob(c, Leave(s, d), id);
      JobEndsKeepsTracks(c, Leave(s, d), CompleteJob(Leave(s, d), id, acked), id);
    }
  }

  // ---- stalled jobs -------------------------------------------------------------------------------

  predicate StallsOut(s: State, a: Step) {
    a.Stall? && a.id in s.queue && s.queue[a.id].stalls >= MAX_STALLS
  }

  lemma StallEndsJob(c: seq<Handler>, s: State, id: EventId)
    requires Tracks(c, s) && HasLiveJob(s, id) && !StallsOut(s, Stall(id))
    ensures JobEnds(c, s, StallJob(s, id), id)
  {
    HandledFrame(c, s, StallJob(s, id));
  }

  lemma StallOutKeepsTracks(c: seq<Handler>, s: State, id: EventId)
    requires Tracks(c, s) && HasLiveJob(s, id) && StallsOut(s, Stall(id))
    ensures var t := StallJob(s, id);
      && Tracks(c, t) && id in t.stalledOut && !HasLiveJob(t, id) && (HandledByAll(c, t, id) <==> HandledByAll(c, s, id))
      && forall e :: e != id && Kept(c, s, e) ==> Kept(c, t, e)
  {
    var t := StallJob(s, id);
    HandledFrame(c, s, t);
    HandledFrame(c, t, s);
    forall e | e != id && Kept(c, s, e) ensures Kept(c, t, e) {
      KeptStays(c, s, t, e);
    }
    forall d | d in t.dispatches ensures DispatchTracks(c, t, d) {
      DispatchTracksFrame(c, s, t, d);
    }
  }

  // ---- every step ---------------------------------------------------------------------------------

  lemma StallKeepsTracks(c: seq<Handler>, s: State, id: EventId)
    requires Tracks(c, s) && HasLiveJob(s, id)
    ensures var t := StallJob(s, id);
      && Tracks(c, t) && s.stalledOut <= t.stalledOut && (StallsOut(s, Stall(id)) ==> id in t.stalledOut)
      && forall e :: Kept(c, s, e) ==> Kept(c, t, e) || (StallsOut(s, Stall(id)) && e == id)
  {
    if StallsOut(s, Stall(id)) {
      StallOutKeepsTracks(c, s, id);
    } else {
      StallEndsJob(c, s, id);
      JobEndsKeepsTracks(c, s, StallJob(s, id), id);
    }
  }

  /** The records are kept; a job that stalls out may be the end of its own event, and of no other. */
  ghost predicate KeepsTracks(c: seq<Handler>, s: State, a: Step, t: State) {
    && Tracks(c, t) && s.stalledOut <= t.stalledOut && (StallsOut(s, a) ==> a.id in t.stalledOut)
    && forall id :: Kept(c, s, id) ==> Kept(c, t, id) || (StallsOut(s, a) && id == a.id)
  }

  lemma {:induction false} JobStepKeepsTracks(c: seq<Handler>, s: State, a: Step)
    requires RelayInv(s) && Tracks(c, s) && Enabled(c, s, a) && !IsStoreStep(a) && !IsWorkerStep(a)
    ensures KeepsTracks(c, s, a, Apply(c, s, a))
  {
    match a
    case Enqueue(r, id) => EnqueueKeepsTracks(c, s, r, id);
    case Throw(d, acked) => ThrowKeepsTracks(c, s, d, acked);
    case Finish(d, acked) => FinishKeepsTracks(c, s, d, acked);
    case Stall(id) => StallKeepsTracks(c, s, id);
    case Forget(id) =>
      ForgetEndsJob(c, s, id);
      JobEndsKeepsTracks(c, s, Apply(c, s, a), id);
  }

  lemma {:induction false} StepKeepsTracks(c: seq<Handler>, s: State, a: Step)
    requires RelayInv(s) && InboxInv(c, s) && Tracks(c, s) && Enabled(c, s, a)
    ensures KeepsTracks(c, s, a, Apply(c, s, a))
  {
    if IsStoreStep(a) {
      StoreStepKeepsTracks(c, s, a);
      StoreStepLeavesQueue(c, s, a);
    } else if IsWorkerStep(a) {
      WorkerStepKeepsTracks(c, s, a);
    } else {
      JobStepKeepsTracks(c, s, a);
    }
  }

  lemma {:induction false} StepKeepsPending(c: seq<Handler>, s: State, a: Step, id: EventId)
    requires RelayInv(s) && Enabled(c, s, a) && Pending(s.outbox, id)
    ensures Pending(Apply(c, s, a).outbox, id) || (a.CommitRelay? && id in s.relays[a.r].claimed)
  {
    if a.CommitTx? {
      assert Rows(s.unsaved, a.tx).Keys !! s.outbox.Keys;
    } else if IsQueueStep(a) {
      QueueStepsLeaveRows(c, s, a);
    }
  }

  lemma StepKeepsAccounted(c: seq<Handler>, s: State, a: Step)
    requires DeliveryInv(c, s) && Enabled(c, s, a)
    ensures Accounted(c, Apply(c, s, a))
  {
    var t := Apply(c, s, a);
    StepKeepsTracks(c, s, a);
    forall id | id in t.committed ensures Pending(t.outbox, id) || Settled(c, t, id) {
      if Pending(s.outbox, id) {
        StepKeepsPending(c, s, a, id);
      } else if id in s.committed {
        assert Settled(c, s, id);
      }
    }
  }

  lemma StepKeepsDeliveryInv(c: seq<Handler>, s: State, a: Step)
    requires DeliveryInv(c, s) && Enabled(c, s, a)
    ensures DeliveryInv(c, Apply(c, s, a))
  {
    StepKeepsRelayInv(c, s, a);
    StepKeepsInboxInv(c, s, a);
    StepKeepsAccounted(c, s, a);
    StepKeepsTracks(c, s, a);
  }

  /** At every point of every run from a consistent state: see Accounted and Tracks. */
  lemma {:induction false} RunIsAccounted(c: seq<Handler>, states: seq<State>, steps: seq<Step>, n: nat)
    requires Runs.IsRun(Machine(c), states, steps) && n <= |steps| && DeliveryInv(c, states[0])
    ensures DeliveryInv(c, states[n])
  {
    if n > 0 {
      RunIsAccounted(c, states, steps, n - 1);
      assert Runs.StepAt(Machine(c), states, steps, n - 1);
      StepKeepsDeliveryInv(c, states[n - 1], steps[n - 1]);
    }
  }

  // ---- nothing lost -------------------------------------------------------------------------------

  /**
   No job stalls out while its event is neither pending again, nor handled, nor out of attempts; and no relay
   marks an event that it sent when the queue still knew a job of it that had stalled out, or whose job has
   stalled out since.
   */
  ghost predicate Harmless(c: seq<Handler>, s: State, a: Step) {
    && (StallsOut(s, a) ==> Pending(s.outbox, a.id) || HandledByAll(c, s, a.id) || a.id in s.exhausted)
    && (a.CommitRelay? && a.r in s.relays ==> forall id :: id in s.relays[a.r].claimed ==> Kept(c, s, id))
  }

  lemma PendingStaysOrKept(c: seq<Handler>, s: State, a: Step, id: EventId)
    requires DeliveryInv(c, s) && Enabled(c, s, a) && Harmless(c, s, a) && Pending(s.outbox, id)
    ensures Pending(Apply(c, s, a).outbox, id) || Kept(c, Apply(c, s, a), id)
  {
    StepKeepsPending(c, s, a, id);
    if a.CommitRelay? {
      StepKeepsTracks(c, s, a);
    }
  }

  lemma StepKeepsConserved(c: seq<Handler>, s: State, a: Step)
    requires DeliveryInv(c, s) && Enabled(c, s, a) && Conserved(c, s) && Harmless(c, s, a)
    ensures Conserved(c, Apply(c, s, a))
  {
    var t := Apply(c, s, a);
    StepKeepsTracks(c, s, a);
    forall id | id in t.committed ensures Pending(t.outbox, id) || Kept(c, t, id) {
      if StallsOut(s, a) && id == a.id {
        StallOutKeepsTracks(c, s, id);
      } else if Pending(s.outbox, id) {
        PendingStaysOrKept(c, s, a, id);
      } else if id in s.committed {
        assert Kept(c, s, id);
      }
    }
  }

  /** A harmful one is the end of an event. */
  lemma HarmfulLoses(c: seq<Handler>, s: State, a: Step)
    requires DeliveryInv(c, s) && Enabled(c, s, a) && !Harmless(c, s, a)
    ensures !Conserved(c, Apply(c, s, a))
  {
    var t := Apply(c, s, a);
    if a.CommitRelay? {
      var id :| id in s.relays[a.r].claimed && !Kept(c, s, id);
      HandledFrame(c, t, s);
      assert Pending(s.outbox, id);
      assert id in t.committed && !Pending(t.outbox, id) && !Kept(c, t, id);
    } else {
      StallOutKeepsTracks(c, s, a.id);
      assert a.id in t.committed && !Pending(t.outbox, a.id) && !Kept(c, t, a.id);
    }
  }

  lemma {:induction false} ConservedNext(c: seq<Handler>, s: State, a: Step, t: State)
    requires DeliveryInv(c, s) && Machine(c)(s, a, t) && Conserved(c, s)
    ensures Conserved(c, t) <==> Harmless(c, s, a)
  {
    if Harmless(c, s, a) {
      StepKeepsConserved(c, s, a);
    } else {
      HarmfulLoses(c, s, a);
    }
  }

  lemma {:induction false} ConservedAt(c: seq<Handler>, states: seq<State>, steps: seq<Step>, n: nat)
    requires Runs.IsRun(Machine(c), states, steps) && n < |steps| && DeliveryInv(c, states[0])
    ensures Conserved(c, states[n]) ==> (Conserved(c, states[n + 1]) <==> Harmless(c, states[n], steps[n]))
  {
    RunIsAccounted(c, states, steps, n);
    assert Runs.StepAt(Machine(c), states, steps, n);
    if Conserved(c, states[n]) {
      ConservedNext(c, states[n], steps[n], states[n + 1]);
    }
  }

  lemma {:induction false} ConservedAlong(c: seq<Handler>, states: seq<State>, steps: seq<Step>, n: nat)
    requires Runs.IsRun(Machine(c), states, steps) && n <= |steps| && DeliveryInv(c, states[0]) && Conserved(c, states[0])
    ensures (forall i :: 0 <= i <= n ==> Conserved(c, states[i])) <==> forall i :: 0 <= i < n ==> Harmless(c, states[i], steps[i])
  {
    if n > 0 {
      ConservedAlong(c, states, steps, n - 1);
      ConservedAt(c, states, steps, n - 1);
    }
  }

  /**
   Main result: all along every run no event is lost, that is, each stays pending, queued, handled by all its
   handlers or out of attempts, exactly when no job stalls out that its event still needs, before or after
   the relay that sent it commits.
   */
  lemma {:induction false} NothingLost(c: seq<Handler>, states: seq<State>, steps: seq<Step>, n: nat)
    requires Runs.IsRun(Machine(c), states, steps) && n <= |steps| && DeliveryInv(c, states[0]) && Conserved(c, states[0])
    ensures DeliveryInv(c, states[n])
    ensures (forall i :: 0 <= i <= n ==> Conserved(c, states[i])) <==> forall i :: 0 <= i < n ==> Harmless(c, states[i], steps[i])
  {
    RunIsAccounted(c, states, steps, n);
    ConservedAlong(c, states, steps, n);
  }

  lemma InitIsConsistent(c: seq<Handler>, clock: int)
    ensures DeliveryInv(c, Init(clock)) && Conserved(c, Init(clock)) && HandledOnce(c, Init(clock))
  {
  }

  lemma ReachedIsConsistent(c: seq<Handler>, clock: int, s: State)
    requires Reaches(c, Init(clock), s)
    ensures DeliveryInv(c, s)
  {
    var states, steps :| Runs.IsRun(Machine(c), states, steps) && states[0] == Init(clock) && states[|steps|] == s;
    InitIsConsistent(c, clock);
    RunIsAccounted(c, states, steps, |steps|);
  }

  /** An event whose transaction rolled back was never stored, queued, delivered or handled. */
  lemma RolledBackNeverQueued(c: seq<Handler>, clock: int, s: State, id: EventId)
    requires Reaches(c, Init(clock), s) && id in s.rolledBack
    ensures id !in s.outbox && id !in s.queue && (forall h :: (h, id) !in s.effects)
    ensures forall d :: d in s.dispatches ==> s.dispatches[d].id != id
    ensures forall r :: r in s.relays ==> id !in s.relays[r].claimed
  {
    ReachedIsConsistent(c, clock, s);
    forall d | d in s.dispatches ensures s.dispatches[d].id != id {
      assert DispatchTracks(c, s, d);
    }
    forall r | r in s.relays ensures id !in s.relays[r].claimed {
      assert id in s.relays[r].claimed ==> Pending(s.outbox, id);
    }
  }

  /**
   A relay that dies after sending a job and before committing leaves its event pending, free to be
   claimed again, and also queued (or already past the queue): both, never neither.
   */
  lemma CrashLeavesPendingAndQueued(c: seq<Handler>, s: State, r: WorkerId, id: EventId)
    requires DeliveryInv(c, s) && r in s.relays && id in s.relays[r].sent
    ensures var t := Apply(c, s, AbortRelay(r));
      Pending(t.outbox, id) && !Locked(t, id) && Settled(c, t, id)
  {
    assert Pending(s.outbox, id);
    StepKeepsTracks(c, s, AbortRelay(r));
    var t := Apply(c, s, AbortRelay(r));
    forall r' | r' in t.relays ensures id !in t.relays[r'].claimed {
      assert s.relays[r'].claimed !! s.relays[r].claimed;
    }
  }
}

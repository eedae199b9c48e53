/**
 Relays under FOR UPDATE SKIP LOCKED: whatever the interleaving, the row sets claimed by concurrent
 relay transactions are disjoint, a claimed row stays unpublished until its relay commits, and an
 event is marked published by at most one committed relay transaction.
 */
module RelayClaims {
  import opened Options
  import Runs
  import opened OutboxProtocol

  ghost predicate ClaimsDisjoint(s: State) {
    forall r, r' :: r in s.relays && r' in s.relays && r != r' ==>
      s.relays[r].claimed !! s.relays[r'].claimed
  }

  ghost predicate ClaimsPending(s: State) {
    forall r, id :: r in s.relays && id in s.relays[r].claimed ==> Pending(s.outbox, id)
  }

  ghost predicate MarkedOnce(s: State) {
    && (forall id :: s.marks[id] <= 1)
    && (forall id :: id in s.outbox ==> (s.marks[id] == 0 <==> s.outbox[id].publishedAt.None?))
    && (forall id :: id in s.marks ==> id in s.committed)
  }

  ghost predicate IdsTracked(s: State) {
    && (forall id :: id in s.outbox ==> id in s.committed && s.outbox[id].eventType == s.committed[id])
    && (forall id :: id in s.unsaved ==> id !in s.committed && id !in s.rolledBack && s.unsaved[id].row.publishedAt.None?)
    && (forall id :: id in s.rolledBack ==> id !in s.committed)
  }

  ghost predicate RelayInv(s: State) {
    ClaimsDisjoint(s) && ClaimsPending(s) && MarkedOnce(s) && IdsTracked(s)
  }

  /** Steps that leave the rows alone and lock nothing new. */
  lemma RelayInvFrame(s: State, t: State)
    requires RelayInv(s)
    requires t.unsaved == s.unsaved && t.outbox == s.outbox && t.marks == s.marks
    requires t.committed == s.committed && t.rolledBack == s.rolledBack
    requires forall r :: r in t.relays ==> r in s.relays && t.relays[r].claimed == s.relays[r].claimed
    ensures RelayInv(t)
  {
  }

  lemma ClaimKeepsRelayInv(s: State, r: WorkerId, batch: set<EventId>)
    requires RelayInv(s) && r !in s.relays && IsBatch(s, batch)
    ensures RelayInv(SetRelay(s, r, Relay(batch, {}, None)))
  {
    forall r' | r' in s.relays ensures batch !! s.relays[r'].claimed {
      forall id | id in batch ensures id !in s.relays[r'].claimed {
        assert Claimable(s, id);
      }
    }
  }

  lemma SaveMarksKeepsRelayInv(s: State, r: WorkerId)
    requires RelayInv(s) && r in s.relays && s.relays[r].marked.Some?
    ensures RelayInv(SaveMarks(s, r))
  {
    var t := SaveMarks(s, r);
    var done := s.relays[r].claimed;
    forall id ensures t.marks[id] == s.marks[id] + (if id in done then 1 else 0)
      ensures t.marks[id] <= 1 && (id in t.marks ==> id in t.committed)
    {
      assert multiset(done)[id] == if id in done then 1 else 0;
      assert id in done ==> Pending(s.outbox, id);
    }
    forall r', id | r' in t.relays && id in t.relays[r'].claimed ensures Pending(t.outbox, id) {
      assert r' in s.relays && t.relays[r'] == s.relays[r'] && s.relays[r'].claimed !! done;
      assert Pending(s.outbox, id);
    }
  }

  lemma RowStepsKeepRelayInv(s: State, t: State)
    requires RelayInv(s) && t.relays == s.relays
    requires MarkedOnce(t) && IdsTracked(t)
    requires forall id :: Pending(s.outbox, id) ==> Pending(t.outbox, id)
    ensures RelayInv(t)
  {
  }

  lemma SaveRowsKeepsRelayInv(s: State, tx: WorkerId)
    requires RelayInv(s)
    ensures RelayInv(SaveRows(s, tx))
  {
    assert Rows(s.unsaved, tx).Keys !! s.outbox.Keys;
    assert MarkedOnce(SaveRows(s, tx));
    assert IdsTracked(SaveRows(s, tx));
    RowStepsKeepRelayInv(s, SaveRows(s, tx));
  }

  lemma DropRowsKeepsRelayInv(s: State, tx: WorkerId)
    requires RelayInv(s)
    ensures RelayInv(DropRows(s, tx))
  {
    RowStepsKeepRelayInv(s, DropRows(s, tx));
  }

  lemma PurgeKeepsRelayInv(s: State)
    requires RelayInv(s)
    ensures RelayInv(PurgeDelivered(s))
  {
    RowStepsKeepRelayInv(s, PurgeDelivered(s));
  }

  lemma AddUnsavedKeepsRelayInv(s: State, id: EventId, unsaved: Unsaved)
    requires RelayInv(s) && id !in s.committed && id !in s.rolledBack && unsaved.row.publishedAt.None?
    ensures RelayInv(AddUnsaved(s, id, unsaved))
  {
  }

  /** Deliver, Begin, Insert, Skip, Handle and Crash change one dispatcher and never the queue. */
  predicate IsWorkerStep(a: Step) {
    a.Deliver? || a.Begin? || a.Insert? || a.Skip? || a.Handle? || a.Crash?
  }

  predicate IsQueueStep(a: Step) {
    IsWorkerStep(a) || a.Throw? || a.Finish? || a.Stall? || a.Forget? || a.Tick?
  }

  ghost predicate SameRows(s: State, t: State) {
    && t.unsaved == s.unsaved && t.outbox == s.outbox && t.marks == s.marks
    && t.committed == s.committed && t.rolledBack == s.rolledBack && t.relays == s.relays
  }

  lemma {:induction false} WorkerStepsLeaveRows(c: seq<Handler>, s: State, a: Step)
    requires Enabled(c, s, a) && IsWorkerStep(a)
    ensures SameRows(s, Apply(c, s, a))
  {
  }

  lemma {:induction false} QueueStepsLeaveRows(c: seq<Handler>, s: State, a: Step)
    requires Enabled(c, s, a) && IsQueueStep(a)
    ensures SameRows(s, Apply(c, s, a))
  {
    if IsWorkerStep(a) {
      WorkerStepsLeaveRows(c, s, a);
    }
  }

  predicate IsRelayStep(a: Step) {
    a.Claim? || a.Enqueue? || a.Mark? || a.CommitRelay? || a.AbortRelay?
  }

  lemma RelayStepKeepsRelayInv(c: seq<Handler>, s: State, a: Step)
    requires RelayInv(s) && Enabled(c, s, a) && IsRelayStep(a)
    ensures RelayInv(Apply(c, s, a))
  {
    if a.Claim? {
      ClaimKeepsRelayInv(s, a.r, a.batch);
    } else if a.CommitRelay? {
      SaveMarksKeepsRelayInv(s, a.r);
    } else {
      RelayInvFrame(s, Apply(c, s, a));
    }
  }

  /** Claims stay disjoint and pending, and marks stay unique, whatever step is taken. */
  lemma StepKeepsRelayInv(c: seq<Handler>, s: State, a: Step)
    requires RelayInv(s) && Enabled(c, s, a)
    ensures RelayInv(Apply(c, s, a))
  {
    if IsQueueStep(a) {
      QueueStepsLeaveRows(c, s, a);
      RelayInvFrame(s, Apply(c, s, a));
    } else if IsRelayStep(a) {
      RelayStepKeepsRelayInv(c, s, a);
    } else {
      match a
      case Publish(tx, id, eventType, availableAt) =>
        AddUnsavedKeepsRelayInv(s, id, Unsaved(tx, Row(eventType, availableAt, None)));
      case CommitTx(tx) => SaveRowsKeepsRelayInv(s, tx);
      case AbortTx(tx) => DropRowsKeepsRelayInv(s, tx);
      case Purge => PurgeKeepsRelayInv(s);
    }
  }

  /** Main result: at every point of every run the three relay guarantees hold. */
  lemma {:induction false} RunKeepsRelayInv(c: seq<Handler>, states: seq<State>, steps: seq<Step>, n: nat)
    requires Runs.IsRun(Machine(c), states, steps) && n <= |steps| && RelayInv(states[0])
    ensures RelayInv(states[n])
  {
    if n > 0 {
      RunKeepsRelayInv(c, states, steps, n - 1);
      assert Runs.StepAt(Machine(c), states, steps, n - 1);
      StepKeepsRelayInv(c, states[n - 1], steps[n - 1]);
    }
  }
}

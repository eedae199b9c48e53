/**
 The inbox: a handler's database effects commit together with its inbox row, so over a whole run
 each (handler, event) pair takes effect at most once, however deliveries overlap, fail or crash,
 as long as no handler claims it again more than 30 days after it was handled.
 */
module InboxOnce {
  import opened Options
  import Runs
  import opened OutboxProtocol

  ghost predicate HoldersExclusive(c: seq<Handler>, s: State) {
    forall d, d' :: Running(c, s, d) && Running(c, s, d') && d != d' ==> PairAt(c, s, d) != PairAt(c, s, d')
  }

  /** An open handler transaction holds a row that no committed transaction has inserted. */
  ghost predicate HoldersUnclaimed(c: seq<Handler>, s: State) {
    && (forall d :: Running(c, s, d) ==> PairAt(c, s, d) !in s.inbox)
    && (forall d :: d in s.dispatches && !s.dispatches[d].tx.NoTx? ==> s.dispatches[d].tx.began <= s.clock)
  }

  /** Only the purge forgets a handled pair, and only one handled more than 30 days ago. */
  ghost predicate InboxRecords(s: State) {
    && (forall x :: x in s.inbox ==> x in s.handledAt && s.handledAt[x] == s.inbox[x])
    && (forall x :: x in s.handledAt ==> s.handledAt[x] <= s.clock)
    && (forall x :: x in s.handledAt && x !in s.inbox ==> s.handledAt[x] < s.clock - INBOX_RETENTION)
    && (forall x :: x in s.effects <==> x in s.handledAt)
  }

  ghost predicate InboxInv(c: seq<Handler>, s: State) {
    HoldersExclusive(c, s) && HoldersUnclaimed(c, s) && InboxRecords(s)
  }

  /** The pair and the open transaction of a dispatcher depend on its own record only. */
  lemma InboxInvFrame(c: seq<Handler>, s: State, t: State)
    requires InboxInv(c, s) && t.clock >= s.clock
    requires t.inbox == s.inbox && t.handledAt == s.handledAt && t.effects == s.effects
    requires forall d :: Running(c, t, d) ==> Running(c, s, d) && t.dispatches[d] == s.dispatches[d]
    requires forall d :: d in t.dispatches && !t.dispatches[d].tx.NoTx? ==> t.dispatches[d].tx.began <= t.clock
    ensures InboxInv(c, t)
  {
    forall d | Running(c, t, d) ensures PairAt(c, t, d) == PairAt(c, s, d) {}
  }

  lemma InsertKeepsInboxInv(c: seq<Handler>, s: State, d: WorkerId)
    requires InboxInv(c, s) && Enabled(c, s, Insert(d))
    ensures InboxInv(c, Apply(c, s, Insert(d)))
  {
    var t := Apply(c, s, Insert(d));
    forall e | Running(c, t, e) ensures PairAt(c, t, e) == PairAt(c, s, e) && (e != d ==> Running(c, s, e)) {}
  }

  lemma HandleKeepsInboxInv(c: seq<Handler>, s: State, d: WorkerId)
    requires InboxInv(c, s) && Enabled(c, s, Handle(d))
    ensures InboxInv(c, Apply(c, s, Handle(d)))
  {
    var t := Apply(c, s, Handle(d));
    forall e | Running(c, t, e) ensures e != d && Running(c, s, e) && PairAt(c, t, e) == PairAt(c, s, e) {}
  }

  lemma PurgeKeepsInboxInv(c: seq<Handler>, s: State)
    requires InboxInv(c, s)
    ensures InboxInv(c, PurgeDelivered(s))
  {
    var t := PurgeDelivered(s);
    forall d | Running(c, t, d) ensures Running(c, s, d) && PairAt(c, t, d) == PairAt(c, s, d) {}
  }

  predicate IsRowStep(a: Step) {
    a.Publish? || a.CommitTx? || a.AbortTx? || a.Claim? || a.Enqueue? || a.Mark? || a.CommitRelay? || a.AbortRelay? || a.Stall? || a.Forget? || a.Tick?
  }

  lemma RowStepsLeaveDispatches(c: seq<Handler>, s: State, a: Step)
    requires Enabled(c, s, a) && IsRowStep(a)
    ensures var t := Apply(c, s, a);
      && t.dispatches == s.dispatches && t.inbox == s.inbox && t.handledAt == s.handledAt
      && t.effects == s.effects && t.clock >= s.clock
  {
  }

  lemma SetDispatchKeepsInboxInv(c: seq<Handler>, s: State, d: WorkerId, w: Dispatch)
    requires InboxInv(c, s) && !w.tx.Holding? && (w.tx.Open? ==> w.tx.began <= s.clock)
    ensures InboxInv(c, SetDispatch(s, d, w))
  {
    InboxInvFrame(c, s, SetDispatch(s, d, w));
  }

  /** A dispatcher stops, and its job may change. */
  lemma LeaveKeepsInboxInv(c: seq<Handler>, s: State, d: WorkerId, t: State)
    requires InboxInv(c, s)
    requires t == Leave(s, d).(queue := t.queue, attempts := t.attempts, exhausted := t.exhausted)
    ensures InboxInv(c, t)
  {
    InboxInvFrame(c, s, t);
  }

  lemma StepKeepsInboxInv(c: seq<Handler>, s: State, a: Step)
    requires InboxInv(c, s) && Enabled(c, s, a)
    ensures InboxInv(c, Apply(c, s, a))
  {
    if IsRowStep(a) {
      RowStepsLeaveDispatches(c, s, a);
      InboxInvFrame(c, s, Apply(c, s, a));
    } else if a.Insert? {
      InsertKeepsInboxInv(c, s, a.d);
    } else if a.Handle? {
      HandleKeepsInboxInv(c, s, a.d);
    } else if a.Purge? {
      PurgeKeepsInboxInv(c, s);
    } else if a.Deliver? || a.Begin? || a.Skip? {
      SetDispatchKeepsInboxInv(c, s, a.d, Apply(c, s, a).dispatches[a.d]);
    } else {
      LeaveKeepsInboxInv(c, s, a.d, Apply(c, s, a));
    }
  }

  // ---- at most once ---------------------------------------------------------------------------

  /** No handler's inbox row is inserted more than 30 days after its pair was handled. */
  ghost predicate Timely(c: seq<Handler>, s: State, a: Step) {
    a.Insert? && AtHandler(c, s, a.d) ==>
      var x := PairAt(c, s, a.d);
      x in s.handledAt ==> s.clock <= s.handledAt[x] + INBOX_RETENTION
  }

  ghost predicate TimelyRun(c: seq<Handler>, states: seq<State>, steps: seq<Step>) {
    Runs.IsRun(Machine(c), states, steps) && forall i :: 0 <= i < |steps| ==> Timely(c, states[i], steps[i])
  }

  ghost predicate HandledOnce(c: seq<Handler>, s: State) {
    && (forall x :: s.effects[x] <= 1)
    && (forall d :: Running(c, s, d) ==> PairAt(c, s, d) !in s.handledAt)
  }

  lemma HandledOnceFrame(c: seq<Handler>, s: State, t: State)
    requires HandledOnce(c, s) && t.handledAt == s.handledAt && t.effects == s.effects
    requires forall d :: Running(c, t, d) ==> Running(c, s, d) && t.dispatches[d] == s.dispatches[d]
    ensures HandledOnce(c, t)
  {
    forall d | Running(c, t, d) ensures PairAt(c, t, d) == PairAt(c, s, d) {}
  }

  lemma InsertKeepsHandledOnce(c: seq<Handler>, s: State, d: WorkerId)
    requires InboxInv(c, s) && HandledOnce(c, s) && Enabled(c, s, Insert(d)) && Timely(c, s, Insert(d))
    ensures HandledOnce(c, Apply(c, s, Insert(d)))
  {
    var t := Apply(c, s, Insert(d));
    forall e | Running(c, t, e) ensures PairAt(c, t, e) == PairAt(c, s, e) && (e != d ==> Running(c, s, e)) {}
  }

  lemma HandleKeepsHandledOnce(c: seq<Handler>, s: State, d: WorkerId)
    requires InboxInv(c, s) && HandledOnce(c, s) && Enabled(c, s, Handle(d))
    ensures HandledOnce(c, Apply(c, s, Handle(d)))
  {
    var t := Apply(c, s, Handle(d));
    forall e | Running(c, t, e) ensures e != d && Running(c, s, e) && PairAt(c, t, e) == PairAt(c, s, e) {}
  }

  lemma StepKeepsHandledOnce(c: seq<Handler>, s: State, a: Step)
    requires InboxInv(c, s) && HandledOnce(c, s) && Enabled(c, s, a) && Timely(c, s, a)
    ensures HandledOnce(c, Apply(c, s, a))
  {
    if IsRowStep(a) {
      RowStepsLeaveDispatches(c, s, a);
      HandledOnceFrame(c, s, Apply(c, s, a));
    } else if a.Insert? {
      InsertKeepsHandledOnce(c, s, a.d);
    } else if a.Handle? {
      HandleKeepsHandledOnce(c, s, a.d);
    } else {
      HandledOnceFrame(c, s, Apply(c, s, a));
    }
  }

  /** A condition on the dispatchers alone: at no point of a timely run has a (handler, event) pair taken effect twice. */
  lemma {:induction false} AtMostOnce(c: seq<Handler>, states: seq<State>, steps: seq<Step>, n: nat)
    requires TimelyRun(c, states, steps) && n <= |steps|
    requires InboxInv(c, states[0]) && HandledOnce(c, states[0])
    ensures InboxInv(c, states[n]) && HandledOnce(c, states[n])
  {
    if n > 0 {
      AtMostOnce(c, states, steps, n - 1);
      assert Runs.StepAt(Machine(c), states, steps, n - 1);
      StepKeepsInboxInv(c, states[n - 1], steps[n - 1]);
      StepKeepsHandledOnce(c, states[n - 1], steps[n - 1]);
    }
  }

  // ---- exactly when ---------------------------------------------------------------------------

  /** A handler that commits on a pair already handled inserted its row no later than 30 days after that. */
  ghost predicate HandledInTime(c: seq<Handler>, s: State, a: Step) {
    a.Handle? && Running(c, s, a.d) ==>
      var x := PairAt(c, s, a.d);
      x in s.handledAt ==> s.dispatches[a.d].tx.since <= s.handledAt[x] + 30 * DAY
  }

  /** A row held for a pair already handled was inserted more than 30 days after that. */
  ghost predicate HoldersLate(c: seq<Handler>, s: State) {
    forall d :: Running(c, s, d) && PairAt(c, s, d) in s.handledAt ==>
      s.dispatches[d].tx.since > s.handledAt[PairAt(c, s, d)] + INBOX_RETENTION
  }

  lemma HoldersLateFrame(c: seq<Handler>, s: State, t: State)
    requires HoldersLate(c, s) && t.handledAt == s.handledAt
    requires forall d :: Running(c, t, d) ==> Running(c, s, d) && t.dispatches[d] == s.dispatches[d]
    ensures HoldersLate(c, t)
  {
    forall d | Running(c, t, d) ensures PairAt(c, t, d) == PairAt(c, s, d) {}
  }

  lemma InsertKeepsHoldersLate(c: seq<Handler>, s: State, d: WorkerId)
    requires InboxInv(c, s) && HoldersLate(c, s) && Enabled(c, s, Insert(d))
    ensures HoldersLate(c, Apply(c, s, Insert(d)))
  {
    var t := Apply(c, s, Insert(d));
    forall e | Running(c, t, e) ensures PairAt(c, t, e) == PairAt(c, s, e) && (e != d ==> Running(c, s, e)) {}
  }

  lemma HandleKeepsHoldersLate(c: seq<Handler>, s: State, d: WorkerId)
    requires InboxInv(c, s) && HoldersLate(c, s) && Enabled(c, s, Handle(d))
    ensures HoldersLate(c, Apply(c, s, Handle(d)))
  {
    var t := Apply(c, s, Handle(d));
    forall e | Running(c, t, e) ensures e != d && Running(c, s, e) && PairAt(c, t, e) == PairAt(c, s, e) {}
  }

  lemma StepKeepsHoldersLate(c: seq<Handler>, s: State, a: Step)
    requires InboxInv(c, s) && HoldersLate(c, s) && Enabled(c, s, a)
    ensures HoldersLate(c, Apply(c, s, a))
  {
    if IsRowStep(a) {
      RowStepsLeaveDispatches(c, s, a);
      HoldersLateFrame(c, s, Apply(c, s, a));
    } else if a.Insert? {
      InsertKeepsHoldersLate(c, s, a.d);
    } else if a.Handle? {
      HandleKeepsHoldersLate(c, s, a.d);
    } else {
      HoldersLateFrame(c, s, Apply(c, s, a));
    }
  }

  /** Only a handler that commits adds an effect: one, of its own pair. */
  lemma StepAddsEffect(c: seq<Handler>, s: State, a: Step)
    requires Enabled(c, s, a)
    ensures Apply(c, s, a).effects == s.effects + if a.Handle? then multiset{PairAt(c, s, a.d)} else multiset{}
  {
    if IsRowStep(a) {
      RowStepsLeaveDispatches(c, s, a);
    }
  }

  ghost predicate NoEffectTwice(s: State) {
    forall x :: s.effects[x] <= 1
  }

  /** One step: effects stay single exactly when it commits no late handler. */
  lemma StepKeepsSingleIff(c: seq<Handler>, s: State, a: Step)
    requires InboxInv(c, s) && HoldersLate(c, s) && Enabled(c, s, a)
    ensures NoEffectTwice(Apply(c, s, a)) <==> NoEffectTwice(s) && HandledInTime(c, s, a)
  {
    StepAddsEffect(c, s, a);
    var t := Apply(c, s, a);
    forall x ensures s.effects[x] <= t.effects[x] {}
    if a.Handle? {
      var x := PairAt(c, s, a.d);
      assert x in s.effects <==> x in s.handledAt;
      assert t.effects[x] == s.effects[x] + 1;
    }
  }

  lemma {:induction false} RunKeepsHoldersLate(c: seq<Handler>, states: seq<State>, steps: seq<Step>, n: nat)
    requires Runs.IsRun(Machine(c), states, steps) && n <= |steps|
    requires InboxInv(c, states[0]) && HoldersLate(c, states[0])
    ensures InboxInv(c, states[n]) && HoldersLate(c, states[n])
  {
    if n > 0 {
      RunKeepsHoldersLate(c, states, steps, n - 1);
      RunStep(c, states, steps, n - 1);
      StepKeepsInboxInv(c, states[n - 1], steps[n - 1]);
      StepKeepsHoldersLate(c, states[n - 1], steps[n - 1]);
    }
  }

  ghost predicate AllInTime(c: seq<Handler>, states: seq<State>, steps: seq<Step>, n: nat)
    requires n <= |steps| < |states|
  {
    forall i :: 0 <= i < n ==> HandledInTime(c, states[i], steps[i])
  }

  lemma AllInTimeNext(c: seq<Handler>, states: seq<State>, steps: seq<Step>, n: nat)
    requires n < |steps| < |states|
    ensures AllInTime(c, states, steps, n + 1) <==> AllInTime(c, states, steps, n) && HandledInTime(c, states[n], steps[n])
  {
  }

  /**
   Main result: in every run a pair takes effect twice exactly when a handler commits on a pair already
   handled whose inbox row it inserted more than 30 days after that; when its transaction began is no matter.
   */
  lemma {:induction false} AtMostOnceIff(c: seq<Handler>, states: seq<State>, steps: seq<Step>, n: nat)
    requires Runs.IsRun(Machine(c), states, steps) && n <= |steps|
    requires InboxInv(c, states[0]) && HandledOnce(c, states[0])
    ensures NoEffectTwice(states[n]) <==> AllInTime(c, states, steps, n)
  {
    if n > 0 {
      AtMostOnceIff(c, states, steps, n - 1);
      RunKeepsHoldersLate(c, states, steps, n - 1);
      RunStep(c, states, steps, n - 1);
      StepKeepsSingleIff(c, states[n - 1], steps[n - 1]);
      AllInTimeNext(c, states, steps, n - 1);
    }
  }

  /**
   How that happens: after a purge a dispatcher about to run a handler that took effect can run it again
   exactly when it did so more than 30 days ago.
   */
  lemma HandledAgainIffForgotten(c: seq<Handler>, s: State, d: WorkerId)
    requires InboxInv(c, s)
    requires AtHandler(c, s, d) && s.dispatches[d].tx.Open?
    requires PairAt(c, s, d) in s.handledAt && !Held(c, s, PairAt(c, s, d))
    ensures var x, p := PairAt(c, s, d), PurgeDelivered(s);
      && (Enabled(c, p, Insert(d)) <==> s.handledAt[x] + 30 * DAY < s.clock)
      && (Enabled(c, p, Insert(d)) ==>
            var t := Apply(c, p, Insert(d));
            Enabled(c, t, Handle(d)) && Apply(c, t, Handle(d)).effects[x] >= 2)
    ensures PairAt(c, s, d) !in s.inbox ==> s.handledAt[PairAt(c, s, d)] + 30 * DAY < s.clock
  {
    var x, p := PairAt(c, s, d), PurgeDelivered(s);
    assert x in s.effects;
    forall e ensures Running(c, p, e) == Running(c, s, e) && (Running(c, s, e) ==> PairAt(c, p, e) == PairAt(c, s, e)) {}
    assert !Held(c, p, x) && PairAt(c, p, d) == x;
    if x !in p.inbox {
      assert PairAt(c, Apply(c, p, Insert(d)), d) == x;
    }
  }

  /** The state after a live job is delivered to its one handler, which has no inbox row. */
  function Redelivered(s: State, id: EventId, eventType: string, h: string): State {
    s.(dispatches := map[0 := Dispatch(id, eventType, 1, NoTx)],
       inbox := s.inbox[(h, id) := s.clock],
       handledAt := s.handledAt[(h, id) := s.clock],
       effects := s.effects + multiset{(h, id)})
  }

  lemma ReachDelivered(c: seq<Handler>, s: State, t: State, id: EventId)
    requires Reaches(c, s, t) && 0 !in t.dispatches
    requires id in t.queue && t.queue[id].status.Live?
    ensures Reaches(c, s, SetDispatch(t, 0, Dispatch(id, t.queue[id].eventType, 0, NoTx)))
  {
    ReachNext(c, s, t, Deliver(0, id));
  }

  lemma NobodyHolds(c: seq<Handler>, u: State)
    requires u.dispatches.Keys == {0} && AtHandler(c, u, 0) && u.dispatches[0].tx.Open? && PairAt(c, u, 0) !in u.inbox
    ensures Enabled(c, u, Insert(0))
  {
    assert !Held(c, u, PairAt(c, u, 0));
  }

  lemma {:induction false} ReachBegun(c: seq<Handler>, s: State, t: State)
    requires Reaches(c, s, t) && t.dispatches.Keys == {0} && AtHandler(c, t, 0)
    requires t.dispatches[0].tx.NoTx? && PairAt(c, t, 0) !in t.inbox
    ensures Reaches(c, s, SetDispatch(t, 0, t.dispatches[0].(tx := Holding(t.clock, t.clock))))
  {
    ReachNext(c, s, t, Begin(0));
    var u := SetDispatch(t, 0, t.dispatches[0].(tx := Open(t.clock)));
    NobodyHolds(c, u);
    ReachNext(c, s, u, Insert(0));
    assert SetDispatch(u, 0, u.dispatches[0].(tx := Holding(t.clock, t.clock)))
        == SetDispatch(t, 0, t.dispatches[0].(tx := Holding(t.clock, t.clock)));
  }

  lemma ReachHandled(c: seq<Handler>, s: State, t: State)
    requires Reaches(c, s, t) && Running(c, t, 0)
    ensures Reaches(c, s, SaveHandled(t, 0, PairAt(c, t, 0)))
  {
    ReachNext(c, s, t, Handle(0));
  }

  lemma DeliveredThenHandled(t: State, id: EventId, h: string)
    requires id in t.queue && t.dispatches == map[]
    ensures var t1 := SetDispatch(t, 0, Dispatch(id, t.queue[id].eventType, 0, Holding(t.clock, t.clock)));
      SaveHandled(t1, 0, (h, id)) == Redelivered(t, id, t.queue[id].eventType, h)
  {
  }

  lemma ReachOpened(c: seq<Handler>, s: State, t: State, id: EventId, h: string)
    requires Reaches(c, s, t) && t.dispatches == map[]
    requires id in t.queue && t.queue[id].status.Live?
    requires Consumers(c, t.queue[id].eventType) == [h] && (h, id) !in t.inbox
    ensures Reaches(c, s, SetDispatch(t, 0, Dispatch(id, t.queue[id].eventType, 0, Holding(t.clock, t.clock))))
  {
    ReachDelivered(c, s, t, id);
    var t1 := SetDispatch(t, 0, Dispatch(id, t.queue[id].eventType, 0, NoTx));
    ReachBegun(c, s, t1);
    assert t1.dispatches[0 := t1.dispatches[0].(tx := Holding(t.clock, t.clock))]
        == t.dispatches[0 := Dispatch(id, t.queue[id].eventType, 0, Holding(t.clock, t.clock))];
  }

  lemma Redeliver(c: seq<Handler>, s: State, t: State, id: EventId, h: string)
    requires Reaches(c, s, t) && t.dispatches == map[]
    requires id in t.queue && t.queue[id].status.Live?
    requires Consumers(c, t.queue[id].eventType) == [h] && (h, id) !in t.inbox
    ensures Reaches(c, s, Redelivered(t, id, t.queue[id].eventType, h))
  {
    ReachOpened(c, s, t, id, h);
    ReachHandled(c, s, SetDispatch(t, 0, Dispatch(id, t.queue[id].eventType, 0, Holding(t.clock, t.clock))));
    DeliveredThenHandled(t, id, h);
  }

  /** One committed event, pending and queued by a relay that has not committed yet. */
  function Queued(): State {
    Init(0).(outbox := map[0 := Row("email", 0, None)],
             committed := map[0 := "email"],
             relays := map[0 := Relay({0}, {0}, None)],
             queue := map[0 := Job("email", Live, 0, 0)])
  }

  function Pended(): State {
    Init(0).(outbox := map[0 := Row("email", 0, None)], committed := map[0 := "email"])
  }

  lemma ReachPended(c: seq<Handler>)
    ensures Reaches(c, Init(0), Pended())
  {
    var s := Init(0);
    Runs.ReachSelf(Machine(c), s);
    ReachNext(c, s, s, Publish(0, 0, "email", 0));
    var t := AddUnsaved(s, 0, Unsaved(0, Row("email", 0, None)));
    ReachNext(c, s, t, CommitTx(0));
    assert Rows(t.unsaved, 0) == map[0 := Row("email", 0, None)];
    assert SaveRows(t, 0) == Pended();
  }

  lemma ReachQueued(c: seq<Handler>)
    ensures Reaches(c, Init(0), Queued())
  {
    ReachPended(c);
    assert Claimable(Pended(), 0);
    ReachNext(c, Init(0), Pended(), Claim(0, {0}));
    var t := SetRelay(Pended(), 0, Relay({0}, {}, None));
    ReachNext(c, Init(0), t, Enqueue(0, 0));
    assert SendJob(t, 0, 0) == Queued();
  }

  /** The worker dies before it acknowledges the job, and the purge runs 31 days later. */
  lemma ReachPurged(c: seq<Handler>, s: State, t: State)
    requires Reaches(c, s, t) && 0 in t.dispatches
    ensures Reaches(c, s, PurgeDelivered(Leave(t, 0).(clock := t.clock + 31 * DAY)))
  {
    ReachNext(c, s, t, Crash(0));
    ReachNext(c, s, Leave(t, 0), Tick(31 * DAY));
    ReachNext(c, s, Leave(t, 0).(clock := t.clock + 31 * DAY), Purge);
  }

  /** Such a run exists: one event, one handler, a crash before the acknowledgement, then 31 days. */
  lemma LateRedeliveryHandlesTwice()
    ensures exists c, s, x :: Reaches(c, Init(0), s) && s.effects[x] == 2
  {
    var c, x := [Handler("mailer", "email")], ("mailer", 0);
    assert Consumers(c, "email") == ["mailer"] by { assert c[1..] == []; }
    ReachQueued(c);
    Redeliver(c, Init(0), Queued(), 0, "mailer");
    var t1 := Redelivered(Queued(), 0, "email", "mailer");
    ReachPurged(c, Init(0), t1);
    var t2 := PurgeDelivered(Leave(t1, 0).(clock := t1.clock + 31 * DAY));
    Redeliver(c, Init(0), t2, 0, "mailer");
    assert Redelivered(t2, 0, "email", "mailer").effects[x] == 2;
  }
}

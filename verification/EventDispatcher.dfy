/**
 EventDispatcher.dispatch and the services around the store: publishing an event in the caller's
 transaction and the purge of delivered events. Each method is a run of the outbox protocol.
 */
module EventDispatcher {
  import opened Options
  import Runs
  import opened OutboxProtocol

  /** What one dispatch does: the handlers that take effect, in order, and whether one threw. */
  datatype Outcome = Outcome(ran: seq<string>, threw: bool)

  function Dispatching(names: seq<string>, id: EventId, done: set<Pair>, failing: set<string>): Outcome {
    if names == [] then Outcome([], false)
    else if (names[0], id) in done then Dispatching(names[1..], id, done, failing)
    else if names[0] in failing then Outcome([], true)
    else
      var rest := Dispatching(names[1..], id, done + {(names[0], id)}, failing);
      rest.(ran := [names[0]] + rest.ran)
  }

  function Pairs(names: seq<string>, id: EventId): set<Pair> {
    set h | h in names :: (h, id)
  }

  /** A dispatch runs distinct, unhandled, sound handlers; without a throw it leaves none unhandled. */
  lemma {:induction false} DispatchRuns(names: seq<string>, id: EventId, done: set<Pair>, failing: set<string>)
    ensures var o := Dispatching(names, id, done, failing);
      && (forall h :: h in o.ran ==> h in names && (h, id) !in done && h !in failing)
      && (forall i, j :: 0 <= i < j < |o.ran| ==> o.ran[i] != o.ran[j])
      && (!o.threw ==> Pairs(names, id) <= done + Pairs(o.ran, id))
      && (o.threw ==> exists h :: h in names && h in failing && (h, id) !in done)
  {
    if names != [] {
      if (names[0], id) in done {
        DispatchRuns(names[1..], id, done, failing);
      } else if names[0] !in failing {
        var more := done + {(names[0], id)};
        DispatchRuns(names[1..], id, more, failing);
        var rest := Dispatching(names[1..], id, more, failing);
        assert more + Pairs(rest.ran, id) == done + Pairs([names[0]] + rest.ran, id);
      }
    }
  }

  /**
   Handlers run in the order they are registered, up to the first unhandled one that throws: `k` is its
   place, or the end.
   */
  lemma {:induction false} DispatchStops(names: seq<string>, id: EventId, done: set<Pair>, failing: set<string>) returns (k: nat)
    ensures var o := Dispatching(names, id, done, failing);
      && k <= |names| && (o.threw <==> k < |names|)
      && (o.threw ==> names[k] in failing && (names[k], id) !in done && names[k] !in o.ran)
      && Pairs(o.ran, id) == Pairs(names[..k], id) - done
      && (forall j :: 0 <= j < k && names[j] in failing ==> (names[j], id) in done)
      && InSequence(o.ran, names[..k])
  {
    if names == [] {
      k := 0;
    } else {
      var more := if (names[0], id) in done then done else done + {(names[0], id)};
      if (names[0], id) !in done && names[0] in failing {
        k := 0;
      } else {
        var n := DispatchStops(names[1..], id, more, failing);
        k := n + 1;
        assert names[..k] == [names[0]] + names[1..][..n];
        PairsOfMore(names[0], names[1..][..n], id);
        PairsOfMore(names[0], Dispatching(names[1..], id, more, failing).ran, id);
        DispatchRuns(names[1..], id, more, failing);
      }
    }
  }

  lemma PairsOfMore(name: string, names: seq<string>, id: EventId)
    ensures Pairs([name] + names, id) == {(name, id)} + Pairs(names, id)
  {
  }

  /** a is b with some elements left out. */
  predicate InSequence(a: seq<string>, b: seq<string>) {
    a == [] || (b != [] && if a[0] == b[0] then InSequence(a[1..], b[1..]) else InSequence(a, b[1..]))
  }

  /**
   A redelivered event is skipped by the handlers that already succeeded and retried by the rest:
   a failed attempt followed by a clean one runs exactly the handlers one clean attempt would have
   run, in the same order, each of them once.
   */
  lemma {:induction false} RetryCompletes(names: seq<string>, id: EventId, done: set<Pair>, failing: set<string>)
    ensures var first := Dispatching(names, id, done, failing);
      var second := Dispatching(names, id, done + Pairs(first.ran, id), {});
      && first.ran + second.ran == Dispatching(names, id, done, {}).ran
      && !second.threw && (!first.threw ==> second.ran == [])
  {
    var first := Dispatching(names, id, done, failing);
    if names == [] {
    } else if (names[0], id) in done {
      RetryCompletes(names[1..], id, done, failing);
    } else if names[0] in failing {
      assert done + Pairs([], id) == done;
      DispatchRuns(names, id, done, {});
    } else {
      var more := done + {(names[0], id)};
      RetryCompletes(names[1..], id, more, failing);
      var rest := Dispatching(names[1..], id, more, failing);
      assert first.ran == [names[0]] + rest.ran;
      assert done + Pairs(first.ran, id) == more + Pairs(rest.ran, id);
      assert first.ran + Dispatching(names, id, done + Pairs(first.ran, id), {}).ran
          == [names[0]] + (rest.ran + Dispatching(names[1..], id, more + Pairs(rest.ran, id), {}).ran);
    }
  }

  /** The handlers run by attempts that fail in different ways, one after the other. */
  function AllAttempts(names: seq<string>, id: EventId, done: set<Pair>, failures: seq<set<string>>): seq<string>
    decreases failures
  {
    if failures == [] then []
    else
      var first := Dispatching(names, id, done, failures[0]);
      first.ran + AllAttempts(names, id, done + Pairs(first.ran, id), failures[1..])
  }

  /**
   Main result: however many attempts fail and whichever handlers they fail at, with a clean one at the
   end they run exactly the handlers of one clean attempt, in order, each of them once.
   */
  lemma {:induction false} RetriesComplete(names: seq<string>, id: EventId, done: set<Pair>, failures: seq<set<string>>)
    ensures AllAttempts(names, id, done, failures + [{}]) == Dispatching(names, id, done, {}).ran
    decreases failures
  {
    if failures == [] {
      var clean: seq<set<string>> := [{}];
      assert failures + clean == clean && clean[1..] == [];
      assert AllAttempts(names, id, done, clean) == Dispatching(names, id, done, {}).ran + [];
    } else {
      var first := Dispatching(names, id, done, failures[0]);
      assert (failures + [{}])[1..] == failures[1..] + [{}];
      RetriesComplete(names, id, done + Pairs(first.ran, id), failures[1..]);
      RetryCompletes(names, id, done, failures[0]);
    }
  }

  function Tagged(names: seq<string>, id: EventId): seq<Pair> {
    seq(|names|, i requires 0 <= i < |names| => (names[i], id))
  }

  datatype Ran = Handled | Skipped | Threw

  /** The open handler transaction of a dispatcher. */
  function Opened(s: State, d: WorkerId): State
    requires d in s.dispatches
  {
    SetDispatch(s, d, s.dispatches[d].(tx := Holding(s.clock, s.clock)))
  }

  /** No other dispatcher has a handler transaction open for this event. */
  predicate NoOtherOpen(s: State, d: WorkerId, id: EventId) {
    forall e :: e in s.dispatches && e != d && s.dispatches[e].tx.Holding? ==> s.dispatches[e].id != id
  }

  /** Outbox rows stay as they are, and new inbox rows have the time at which they are inserted. */
  ghost predicate KeepsTimes(s: State, t: State) {
    && t.outbox == s.outbox && t.clock == s.clock && s.inbox.Keys <= t.inbox.Keys
    && forall y :: y in t.inbox ==> t.inbox[y] == if y in s.inbox then s.inbox[y] else s.clock
  }

  lemma KeepsTimesOn(s: State, t: State, u: State)
    requires KeepsTimes(s, t) && KeepsTimes(t, u)
    ensures KeepsTimes(s, u)
  {
  }

  /** What an attempt costs depends on the queue alone. */
  lemma SameQueueFails(s: State, t: State, id: EventId)
    requires t.queue == s.queue
    ensures FailAttempt(t, id, true).queue == FailAttempt(s, id, true).queue
  {
  }

  lemma RollbackKeeps(s: State, id: EventId)
    ensures var t := FailAttempt(s, id, true);
      t.inbox == s.inbox && t.effects == s.effects && t.dispatches == s.dispatches && t.outbox == s.outbox && t.clock == s.clock
  {
  }

  ghost predicate Attempted(s: State, t: State, d: WorkerId, x: Pair, ran: Ran, failing: set<string>)
    requires d in s.dispatches
  {
    && (ran.Threw? <==> x !in s.inbox && x.0 in failing)
    && (ran.Skipped? <==> x in s.inbox)
    && t.inbox.Keys == s.inbox.Keys + (if ran.Handled? then {x} else {})
    && t.effects == s.effects + (if ran.Handled? then multiset{x} else multiset{})
    && KeepsTimes(s, t)
    && t.queue == (if ran.Threw? then FailAttempt(s, x.1, true).queue else s.queue)
    && (if ran.Threw? then t.dispatches == Without(s.dispatches, d)
        else t.dispatches == s.dispatches[d := s.dispatches[d].(next := s.dispatches[d].next + 1)])
  }

  lemma CommitAttempts(s: State, d: WorkerId, x: Pair, failing: set<string>)
    requires d in s.dispatches && s.dispatches[d].tx.NoTx? && x !in s.inbox && x.0 !in failing
    ensures Attempted(s, SaveHandled(Opened(s, d), d, x), d, x, Handled, failing)
  {
  }

  lemma RollbackAttempts(s: State, d: WorkerId, x: Pair, failing: set<string>)
    requires d in s.dispatches && x !in s.inbox && x.0 in failing && x.1 == s.dispatches[d].id
    ensures Attempted(s, FailAttempt(Leave(Opened(s, d), d), s.dispatches[d].id, true), d, x, Threw, failing)
  {
    var t := Leave(Opened(s, d), d);
    SameQueueFails(s, t, x.1);
    RollbackKeeps(t, x.1);
    LeftAlone(s.dispatches, d, Opened(s, d).dispatches[d]);
  }

  lemma PassAttempts(s: State, d: WorkerId, x: Pair, failing: set<string>)
    requires d in s.dispatches && x in s.inbox
    ensures Attempted(s, SetDispatch(s, d, s.dispatches[d].(next := s.dispatches[d].next + 1)), d, x, Skipped, failing)
  {
  }

  /** The result of a dispatch and the store it leaves, as Dispatching foretells them. */
  ghost predicate DispatchResult(names: seq<string>, s: State, t: State, d: WorkerId, id: EventId, failing: set<string>,
                                 r: Result<(nat, nat), string>) {
    var o := Dispatching(names, id, s.inbox.Keys, failing);
    && t.inbox.Keys == s.inbox.Keys + Pairs(o.ran, id)
    && t.effects == s.effects + multiset(Tagged(o.ran, id))
    && (r.Ok? ==> !o.threw && r.value.0 == |o.ran| && r.value.1 == |names| - |o.ran|)
    && (r.Err? ==> o.threw && r.error in failing && r.error in names && (r.error, id) !in t.inbox)
    && KeepsTimes(s, t)
    && t.queue == (if r.Err? then FailAttempt(s, id, true).queue else s.queue)
    && (d in t.dispatches <==> r.Ok?) && Without(t.dispatches, d) == Without(s.dispatches, d)
  }

  /** The loop of dispatch after i handlers: `ran` of them took effect, the rest is still to come. */
  ghost predicate Partway(names: seq<string>, s: State, t: State, d: WorkerId, w: Dispatch, i: nat,
                          ran: seq<string>, failing: set<string>)
    requires i <= |names|
  {
    && t.dispatches == s.dispatches[d := w.(next := i)]
    && t.inbox.Keys == s.inbox.Keys + Pairs(ran, w.id)
    && t.effects == s.effects + multiset(Tagged(ran, w.id))
    && KeepsTimes(s, t) && t.queue == s.queue
    && (var rest := Dispatching(names[i..], w.id, t.inbox.Keys, failing);
        Dispatching(names, w.id, s.inbox.Keys, failing) == Outcome(ran + rest.ran, rest.threw))
  }

  lemma PartwayStart(names: seq<string>, s: State, d: WorkerId, w: Dispatch, failing: set<string>)
    requires d in s.dispatches && w == s.dispatches[d] && w.next == 0
    ensures Partway(names, s, s, d, w, 0, [], failing)
  {
    var o := Dispatching(names, w.id, s.inbox.Keys, failing);
    assert names[0..] == names && [] + o.ran == o.ran;
    assert s.inbox.Keys + Pairs([], w.id) == s.inbox.Keys;
  }

  lemma PartwayEnd(names: seq<string>, s: State, t: State, d: WorkerId, w: Dispatch, ran: seq<string>, failing: set<string>)
    requires Partway(names, s, t, d, w, |names|, ran, failing) && |ran| <= |names|
    ensures DispatchResult(names, s, t, d, w.id, failing, Ok((|ran|, |names| - |ran|)))
  {
    assert ran + [] == ran;
  }

  lemma PartwayThrows(names: seq<string>, s: State, t: State, u: State, d: WorkerId, w: Dispatch, i: nat,
                      ran: seq<string>, failing: set<string>)
    requires i < |names| && Partway(names, s, t, d, w, i, ran, failing)
    requires Attempted(t, u, d, (names[i], w.id), Threw, failing)
    ensures DispatchResult(names, s, u, d, w.id, failing, Err(names[i]))
  {
    assert names[i..][0] == names[i] && ran + [] == ran;
    assert u.inbox.Keys == t.inbox.Keys;
    LeftAlone(s.dispatches, d, w.(next := i));
    SameQueueFails(s, t, w.id);
    KeepsTimesOn(s, t, u);
  }

  lemma LeftAlone(dispatches: map<WorkerId, Dispatch>, d: WorkerId, w: Dispatch)
    ensures Without(dispatches[d := w], d) == Without(dispatches, d)
    ensures Without(Without(dispatches, d), d) == Without(dispatches, d)
  {
  }

  lemma PartwayHandled(names: seq<string>, s: State, t: State, u: State, d: WorkerId, w: Dispatch, i: nat,
                       ran: seq<string>, failing: set<string>)
    requires i < |names| && Partway(names, s, t, d, w, i, ran, failing)
    requires Attempted(t, u, d, (names[i], w.id), Handled, failing)
    ensures Partway(names, s, u, d, w, i + 1, ran + [names[i]], failing)
  {
    var id := w.id;
    assert names[i..][0] == names[i] && names[i..][1..] == names[i + 1..];
    assert Tagged(ran + [names[i]], id) == Tagged(ran, id) + [(names[i], id)];
    assert Pairs(ran + [names[i]], id) == Pairs(ran, id) + {(names[i], id)};
    assert t.inbox.Keys + {(names[i], id)} == u.inbox.Keys;
    KeepsTimesOn(s, t, u);
    var rest := Dispatching(names[i + 1..], id, u.inbox.Keys, failing);
    assert ran + ([names[i]] + rest.ran) == ran + [names[i]] + rest.ran;
  }

  lemma PartwaySkipped(names: seq<string>, s: State, t: State, u: State, d: WorkerId, w: Dispatch, i: nat,
                       ran: seq<string>, failing: set<string>)
    requires i < |names| && Partway(names, s, t, d, w, i, ran, failing)
    requires Attempted(t, u, d, (names[i], w.id), Skipped, failing)
    ensures Partway(names, s, u, d, w, i + 1, ran, failing)
  {
    assert names[i..][0] == names[i] && names[i..][1..] == names[i + 1..];
    assert u.inbox.Keys == t.inbox.Keys;
  }

  lemma PartwayNext(names: seq<string>, s: State, t: State, u: State, d: WorkerId, w: Dispatch, i: nat,
                    ran: seq<string>, failing: set<string>, attempt: Ran)
    requires i < |names| && Partway(names, s, t, d, w, i, ran, failing)
    requires Attempted(t, u, d, (names[i], w.id), attempt, failing) && !attempt.Threw?
    ensures Partway(names, s, u, d, w, i + 1, if attempt.Handled? then ran + [names[i]] else ran, failing)
  {
    if attempt.Handled? {
      PartwayHandled(names, s, t, u, d, w, i, ran, failing);
    } else {
      PartwaySkipped(names, s, t, u, d, w, i, ran, failing);
    }
  }

  lemma ReachBegin(c: seq<Handler>, s0: State, s: State, d: WorkerId)
    requires Reaches(c, s0, s) && AtHandler(c, s, d) && NoOtherOpen(s, d, s.dispatches[d].id)
    requires s.dispatches[d].tx.NoTx? && PairAt(c, s, d) !in s.inbox
    ensures Reaches(c, s0, Opened(s, d))
  {
    ReachNext(c, s0, s, Begin(d));
    var t := SetDispatch(s, d, s.dispatches[d].(tx := Open(s.clock)));
    ReachNext(c, s0, t, Insert(d));
    assert SetDispatch(t, d, t.dispatches[d].(tx := Holding(s.clock, s.clock))) == Opened(s, d);
  }

  lemma ReachSkip(c: seq<Handler>, s0: State, s: State, d: WorkerId)
    requires Reaches(c, s0, s) && AtHandler(c, s, d) && s.dispatches[d].tx.NoTx? && PairAt(c, s, d) in s.inbox
    ensures Reaches(c, s0, SetDispatch(s, d, s.dispatches[d].(next := s.dispatches[d].next + 1)))
  {
    ReachNext(c, s0, s, Begin(d));
    var t := SetDispatch(s, d, s.dispatches[d].(tx := Open(s.clock)));
    ReachNext(c, s0, t, Skip(d));
    assert SetDispatch(t, d, t.dispatches[d].(next := t.dispatches[d].next + 1, tx := NoTx))
        == SetDispatch(s, d, s.dispatches[d].(next := s.dispatches[d].next + 1));
  }

  lemma ReachHandle(c: seq<Handler>, s0: State, s: State, d: WorkerId)
    requires Reaches(c, s0, s) && Running(c, s, d)
    ensures Reaches(c, s0, SaveHandled(s, d, PairAt(c, s, d)))
  {
    ReachNext(c, s0, s, Handle(d));
  }

  class Dispatcher {
    const store: Store

    constructor (store: Store)
      ensures this.store == store
    {
      this.store := store;
    }

    /** The inbox row and the handler's effects commit together. */
    method Commit(c: seq<Handler>, ghost s0: State, d: WorkerId, x: Pair, ghost failing: set<string>)
      requires Reaches(c, s0, store.s) && AtHandler(c, store.s, d) && NoOtherOpen(store.s, d, x.1)
      requires store.s.dispatches[d].tx.NoTx? && PairAt(c, store.s, d) == x && x !in store.s.inbox && x.0 !in failing
      modifies store
      ensures Reaches(c, s0, store.s) && Attempted(old(store.s), store.s, d, x, Handled, failing)
    {
      ReachBegin(c, s0, store.s, d);
      ReachHandle(c, s0, Opened(store.s, d), d);
      CommitAttempts(store.s, d, x, failing);
      store.s := SaveHandled(Opened(store.s, d), d, x);
    }

    /** The handler threw: its transaction and the dispatch end, and the job has failed once more. */
    method Rollback(c: seq<Handler>, ghost s0: State, d: WorkerId, x: Pair, ghost failing: set<string>)
      requires Reaches(c, s0, store.s) && AtHandler(c, store.s, d) && NoOtherOpen(store.s, d, x.1)
      requires store.s.dispatches[d].tx.NoTx? && PairAt(c, store.s, d) == x && x !in store.s.inbox && x.0 in failing
      modifies store
      ensures Reaches(c, s0, store.s) && Attempted(old(store.s), store.s, d, x, Threw, failing)
    {
      ReachBegin(c, s0, store.s, d);
      ReachNext(c, s0, Opened(store.s, d), Throw(d, true));
      RollbackAttempts(store.s, d, x, failing);
      store.s := FailAttempt(Leave(Opened(store.s, d), d), store.s.dispatches[d].id, true);
    }

    method Pass(c: seq<Handler>, ghost s0: State, d: WorkerId, x: Pair, ghost failing: set<string>)
      requires Reaches(c, s0, store.s) && AtHandler(c, store.s, d)
      requires store.s.dispatches[d].tx.NoTx? && PairAt(c, store.s, d) == x && x in store.s.inbox
      modifies store
      ensures Reaches(c, s0, store.s) && Attempted(old(store.s), store.s, d, x, Skipped, failing)
    {
      ReachSkip(c, s0, store.s, d);
      PassAttempts(store.s, d, x, failing);
      store.s := SetDispatch(store.s, d, store.s.dispatches[d].(next := store.s.dispatches[d].next + 1));
    }

    /** One pass of the loop: claim the inbox row, run the handler, commit both or neither. */
    method RunHandler(c: seq<Handler>, ghost s0: State, d: WorkerId, w: Dispatch, names: seq<string>, i: nat,
                      ghost ran: seq<string>, failing: set<string>) returns (attempt: Ran)
      requires names == Consumers(c, w.eventType) && i < |names| && w.tx.NoTx? && NoOtherOpen(s0, d, w.id)
      requires Reaches(c, s0, store.s) && Partway(names, s0, store.s, d, w, i, ran, failing)
      modifies store
      ensures Reaches(c, s0, store.s)
      ensures attempt.Threw? ==> names[i] in failing && DispatchResult(names, s0, store.s, d, w.id, failing, Err(names[i]))
      ensures attempt.Skipped? ==> Partway(names, s0, store.s, d, w, i + 1, ran, failing)
      ensures attempt.Handled? ==> Partway(names, s0, store.s, d, w, i + 1, ran + [names[i]], failing)
    {
      ghost var t := store.s;
      var x := (names[i], w.id);
      assert PairAt(c, store.s, d) == x;
      if x in store.s.inbox {
        Pass(c, s0, d, x, failing);
        attempt := Skipped;
      } else if names[i] in failing {
        Rollback(c, s0, d, x, failing);
        PartwayThrows(names, s0, t, store.s, d, w, i, ran, failing);
        return Threw;
      } else {
        Commit(c, s0, d, x, failing);
        attempt := Handled;
      }
      PartwayNext(names, s0, t, store.s, d, w, i, ran, failing, attempt);
    }

    /**
     A dispatch from start to end, while no other dispatcher has a handler of the event open, `failing`
     naming the handlers that would throw. It is a run of the protocol that does exactly what Dispatching
     says and counts it; a throw loses nothing that an earlier handler of the same dispatch committed, and
     the other dispatchers are left alone.
     */
    method Dispatch(c: seq<Handler>, d: WorkerId, failing: set<string>) returns (r: Result<(nat, nat), string>)
      requires d in store.s.dispatches && NoOtherOpen(store.s, d, store.s.dispatches[d].id)
      requires store.s.dispatches[d].next == 0 && store.s.dispatches[d].tx.NoTx?
      modifies store
      ensures Reaches(c, old(store.s), store.s)
      ensures var w := old(store.s).dispatches[d];
        DispatchResult(Consumers(c, w.eventType), old(store.s), store.s, d, w.id, failing, r)
    {
      ghost var s0 := store.s;
      Runs.ReachSelf(Machine(c), s0);
      var w := store.s.dispatches[d];
      var names := Consumers(c, w.eventType);
      var i, handled, skipped := 0, 0, 0;
      ghost var ran: seq<string> := [];
      PartwayStart(names, s0, d, w, failing);
      while i < |names|
        invariant 0 <= i <= |names| && handled == |ran| && skipped == i - |ran|
        invariant Reaches(c, s0, store.s) && Partway(names, s0, store.s, d, w, i, ran, failing)
      {
        var attempt := RunHandler(c, s0, d, w, names, i, ran, failing);
        if attempt.Threw? {
          return Err(names[i]);
        } else if attempt.Handled? {
          handled := handled + 1;
          ran := ran + [names[i]];
        } else {
          skipped := skipped + 1;
        }
        i := i + 1;
      }
      PartwayEnd(names, s0, store.s, d, w, ran, failing);
      return Ok((handled, skipped));
    }
  }

  /** outbox.publish: a row in the caller's transaction, due at once unless a time is given. */
  class OutboxService {
    const store: Store

    constructor (store: Store)
      ensures this.store == store
    {
      this.store := store;
    }

    method Publish(ghost c: seq<Handler>, tx: WorkerId, id: EventId, eventType: string, availableAt: Option<int>)
      requires Enabled(c, store.s, OutboxProtocol.Publish(tx, id, eventType, 0))
      modifies store
      ensures Reaches(c, old(store.s), store.s) && store.s.outbox == old(store.s).outbox
      ensures store.s.unsaved == old(store.s).unsaved[id := Unsaved(tx, Row(eventType,
        if availableAt.Some? then availableAt.value else old(store.s).clock, None))]
    {
      var at := if availableAt.Some? then availableAt.value else store.s.clock;
      Runs.ReachSelf(Machine(c), store.s);
      ReachNext(c, store.s, store.s, OutboxProtocol.Publish(tx, id, eventType, at));
      store.s := AddUnsaved(store.s, id, Unsaved(tx, Row(eventType, at, None)));
    }
  }

  predicate PublishedBefore(row: Row, time: int) {
    row.publishedAt.Some? && row.publishedAt.value < time
  }

  /** purge-delivered-events. */
  class DeliveredEventsJob {
    const store: Store

    constructor (store: Store)
      ensures this.store == store
    {
      this.store := store;
    }

    /** Removes rows published more than 7 days ago and never a pending one; reports how many. */
    method Run(ghost c: seq<Handler>) returns (removed: nat)
      modifies store
      ensures Reaches(c, old(store.s), store.s)
      ensures removed == |old(store.s).outbox| - |store.s.outbox|
      ensures forall id :: id in store.s.outbox <==>
        (id in old(store.s).outbox && !PublishedBefore(old(store.s).outbox[id], old(store.s).clock - 7 * 24 * 3_600_000))
      ensures forall id :: id in store.s.outbox ==> store.s.outbox[id] == old(store.s).outbox[id]
      ensures forall id :: Pending(old(store.s).outbox, id) ==> Pending(store.s.outbox, id)
      ensures forall x :: x in store.s.inbox <==>
        x in old(store.s).inbox && old(store.s).inbox[x] >= old(store.s).clock - 30 * 24 * 3_600_000
      ensures forall x :: x in store.s.inbox ==> store.s.inbox[x] == old(store.s).inbox[x]
    {
      var gone := set id | id in store.s.outbox && Delivered(store.s, id);
      removed := |gone|;
      ghost var kept := store.s.outbox.Keys - gone;
      assert |kept| == |store.s.outbox.Keys| - |gone|;
      Runs.ReachSelf(Machine(c), store.s);
      ReachNext(c, store.s, store.s, Purge);
      store.s := PurgeDelivered(store.s);
      assert store.s.outbox.Keys == kept && |store.s.outbox| == |store.s.outbox.Keys|;
    }
  }
}

/**
 TtlCache: concurrent misses share one load, and while loads fail the last good value is served for a
 bounded time. Gets, load completions and clean-ups interleave freely; a get that misses is two
 actions, because its loader runs before the load is registered, and a loader that throws while it is
 being started abandons the load.
 */
module TtlCache {
  import opened Options
  import Runs

  type Key = string
  type Value = string
  type LoadId = nat

  const RENEWAL: int := 5_000

  datatype Entry = Entry(value: Value, fetchedAt: int, expiresAt: int)
  datatype Outcome = Value(value: Value) | Error
  datatype Phase = Starting | Pending | Settled(outcome: Outcome) | Finished(outcome: Outcome)
  /** A load with what its callbacks hold on to: its key and ttl, and the entry seen when it began. */
  datatype Load = Load(key: Key, ttl: int, captured: Option<Entry>, phase: Phase)
  datatype Fetch = Fetch(value: Value, at: int)

  datatype State = State(
    clock: int,
    entries: map<Key, Entry>,
    inflight: map<Key, LoadId>,
    loads: map<LoadId, Load>,
    // The latest success and the largest ttl per key; the longest a failure callback has taken.
    latest: map<Key, Fetch>,
    maxTtl: map<Key, int>,
    slack: nat)

  datatype Step =
    | Begin(key: Key, ttl: int, l: LoadId)
    | Register(l: LoadId)
    | Abandon(l: LoadId)
    | Resolve(l: LoadId, value: Value)
    | Reject(l: LoadId, took: nat)
    | CleanUp(l: LoadId)
    | Tick(ms: nat)

  function Init(clock: int): State {
    State(clock, map[], map[], map[], map[], map[], 0)
  }

  function Lookup<V>(m: map<Key, V>, key: Key): Option<V> {
    if key in m then Some(m[key]) else None
  }

  predicate IsFresh(s: State, key: Key) {
    key in s.entries && s.entries[key].expiresAt > s.clock
  }

  /** What get does first: a fresh entry is served, a running load is shared, otherwise one begins. */
  datatype Get = Served(value: Value) | Shared(l: LoadId) | Missed

  function OnGet(s: State, key: Key): Get {
    if IsFresh(s, key) then Served(s.entries[key].value)
    else if key in s.inflight then Shared(s.inflight[key])
    else Missed
  }

  /** The failure callback falls back on the entry it captured, if that is young enough. */
  predicate FallsBack(staleFor: int, s: State, load: Load) {
    load.captured.Some? && s.clock - load.captured.value.fetchedAt < staleFor
  }

  predicate Enabled(s: State, a: Step) {
    match a
    case Begin(key, _, l) => OnGet(s, key).Missed? && l !in s.loads
    case Register(l) => l in s.loads && s.loads[l].phase.Starting?
    case Abandon(l) => l in s.loads && s.loads[l].phase.Starting?
    case Resolve(l, _) => l in s.loads && s.loads[l].phase.Pending?
    case Reject(l, _) => l in s.loads && s.loads[l].phase.Pending?
    case CleanUp(l) => l in s.loads && s.loads[l].phase.Settled?
    case Tick(_) => true
  }

  function SetPhase(s: State, l: LoadId, phase: Phase): State
    requires l in s.loads
  {
    s.(loads := s.loads[l := s.loads[l].(phase := phase)])
  }

  function Max(a: int, b: int): int {
    if a < b then b else a
  }

  function Begun(s: State, key: Key, ttl: int, l: LoadId): State {
    s.(loads := s.loads[l := Load(key, ttl, Lookup(s.entries, key), Starting)],
       maxTtl := s.maxTtl[key := if key in s.maxTtl then Max(s.maxTtl[key], ttl) else ttl])
  }

  function Resolved(s: State, l: LoadId, value: Value): State
    requires l in s.loads
  {
    var load := s.loads[l];
    SetPhase(s, l, Settled(Value(value)))
      .(entries := s.entries[load.key := Entry(value, s.clock, s.clock + load.ttl)],
        latest := s.latest[load.key := Fetch(value, s.clock)])
  }

  /** The clock is read once to decide and once more, `took` later, to renew. */
  function Rejected(staleFor: int, s: State, l: LoadId, took: nat): State
    requires l in s.loads
  {
    var load := s.loads[l];
    if FallsBack(staleFor, s, load) then
      SetPhase(s, l, Settled(Value(load.captured.value.value)))
        .(entries := s.entries[load.key := load.captured.value.(expiresAt := s.clock + took + RENEWAL)],
          clock := s.clock + took,
          slack := if s.slack < took then took else s.slack)
    else SetPhase(s, l, Settled(Error))
  }

  /** finally: whatever record the key has goes. */
  function CleanedUp(s: State, l: LoadId): State
    requires l in s.loads && s.loads[l].phase.Settled?
  {
    SetPhase(s, l, Finished(s.loads[l].phase.outcome)).(inflight := s.inflight - {s.loads[l].key})
  }

  function Apply(staleFor: int, s: State, a: Step): State
    requires Enabled(s, a)
  {
    match a
    case Begin(key, ttl, l) => Begun(s, key, ttl, l)
    case Register(l) => SetPhase(s, l, Pending).(inflight := s.inflight[s.loads[l].key := l])
    case Abandon(l) => SetPhase(s, l, Finished(Error))
    case Resolve(l, value) => Resolved(s, l, value)
    case Reject(l, took) => Rejected(staleFor, s, l, took)
    case CleanUp(l) => CleanedUp(s, l)
    case Tick(ms) => s.(clock := s.clock + ms)
  }

  // ---- single flight ----------------------------------------------------------------------------

  predicate Unfinished(s: State, l: LoadId) {
    l in s.loads && !s.loads[l].phase.Finished?
  }

  /** A loader does not ask the cache, while it is being started, for the very key it loads. */
  predicate NotReentrant(s: State, a: Step) {
    a.Begin? ==> forall l :: l in s.loads && s.loads[l].phase.Starting? ==> s.loads[l].key != a.key
  }

  ghost predicate OneLoadPerKey(s: State) {
    forall l, m :: Unfinished(s, l) && Unfinished(s, m) && l != m ==> s.loads[l].key != s.loads[m].key
  }

  ghost predicate InflightExact(s: State) {
    && (forall key :: key in s.inflight ==>
          Unfinished(s, s.inflight[key]) && s.loads[s.inflight[key]].key == key && !s.loads[s.inflight[key]].phase.Starting?)
    && (forall l :: Unfinished(s, l) && !s.loads[l].phase.Starting? ==>
          s.loads[l].key in s.inflight && s.inflight[s.loads[l].key] == l)
  }

  /** Until a load settles, the entry captured at its start is still the stored one. */
  ghost predicate CapturedIsStored(s: State) {
    forall l :: Unfinished(s, l) && !s.loads[l].phase.Settled? ==>
      s.loads[l].captured == Lookup(s.entries, s.loads[l].key)
  }

  ghost predicate EntriesAreLatest(s: State) {
    && s.entries.Keys == s.latest.Keys
    && (forall key :: key in s.entries ==>
          s.entries[key].value == s.latest[key].value && s.entries[key].fetchedAt == s.latest[key].at)
    && (forall l :: l in s.loads && s.loads[l].phase.Settled? && s.loads[l].phase.outcome.Value? ==>
          s.loads[l].key in s.latest && s.loads[l].phase.outcome.value == s.latest[s.loads[l].key].value)
  }

  ghost predicate AgesBounded(staleFor: int, s: State) {
    && (forall l :: l in s.loads ==> s.loads[l].key in s.maxTtl && s.loads[l].ttl <= s.maxTtl[s.loads[l].key])
    && (forall key :: key in s.entries ==>
          var e := s.entries[key];
          && e.fetchedAt <= s.clock && key in s.maxTtl
          && (e.expiresAt - e.fetchedAt <= s.maxTtl[key] || e.expiresAt - e.fetchedAt < staleFor + RENEWAL + s.slack))
  }

  ghost predicate FlightInv(s: State) {
    OneLoadPerKey(s) && InflightExact(s) && CapturedIsStored(s)
  }

  ghost predicate ValueInv(staleFor: int, s: State) {
    EntriesAreLatest(s) && AgesBounded(staleFor, s)
  }

  lemma BeginKeepsFlight(s: State, key: Key, ttl: int, l: LoadId)
    requires FlightInv(s) && Enabled(s, Begin(key, ttl, l)) && NotReentrant(s, Begin(key, ttl, l))
    ensures FlightInv(Begun(s, key, ttl, l))
  {
    forall m | Unfinished(s, m) ensures s.loads[m].key != key {}
  }

  /** One step: a new load keeps single flight exactly when no loader of its key is just being started. */
  lemma BeginKeepsFlightIff(s: State, key: Key, ttl: int, l: LoadId)
    requires FlightInv(s) && Enabled(s, Begin(key, ttl, l))
    ensures FlightInv(Begun(s, key, ttl, l)) <==> NotReentrant(s, Begin(key, ttl, l))
  {
    if NotReentrant(s, Begin(key, ttl, l)) {
      BeginKeepsFlight(s, key, ttl, l);
    } else {
      BegunTwice(s, key, ttl, l);
    }
  }

  lemma BegunTwice(s: State, key: Key, ttl: int, l: LoadId)
    requires l !in s.loads && !NotReentrant(s, Begin(key, ttl, l))
    ensures !OneLoadPerKey(Begun(s, key, ttl, l))
  {
    var m :| m in s.loads && s.loads[m].phase.Starting? && s.loads[m].key == key;
    var t := Begun(s, key, ttl, l);
    assert Unfinished(t, l) && Unfinished(t, m) && t.loads[l].key == t.loads[m].key;
  }

  /** A load that settles changes the entry of its own key only, and no other load has that key. */
  lemma SettleKeepsFlight(s: State, t: State, l: LoadId)
    requires FlightInv(s) && l in s.loads && s.loads[l].phase.Pending?
    requires t.inflight == s.inflight && t.loads.Keys == s.loads.Keys
    requires forall m :: m in s.loads && m != l ==> t.loads[m] == s.loads[m]
    requires t.loads[l] == s.loads[l].(phase := t.loads[l].phase) && t.loads[l].phase.Settled?
    requires forall key :: key != s.loads[l].key ==> Lookup(t.entries, key) == Lookup(s.entries, key)
    ensures FlightInv(t)
  {
    forall m | Unfinished(t, m) ensures Unfinished(s, m) && (m != l ==> s.loads[m].key != s.loads[l].key) {}
  }

  lemma MoveKeepsFlight(staleFor: int, s: State, a: Step)
    requires FlightInv(s) && Enabled(s, a) && (a.Register? || a.Abandon? || a.CleanUp?)
    ensures FlightInv(Apply(staleFor, s, a))
  {
    var t := Apply(staleFor, s, a);
    forall m | Unfinished(t, m) ensures Unfinished(s, m) && t.loads[m].key == s.loads[m].key {}
  }

  lemma TickKeepsFlight(s: State, ms: nat)
    requires FlightInv(s)
    ensures FlightInv(s.(clock := s.clock + ms))
  {
    var t := s.(clock := s.clock + ms);
    forall l ensures Unfinished(t, l) == Unfinished(s, l) {}
  }

  lemma StepKeepsFlight(staleFor: int, s: State, a: Step)
    requires FlightInv(s) && Enabled(s, a) && NotReentrant(s, a)
    ensures FlightInv(Apply(staleFor, s, a))
  {
    match a
    case Begin(key, ttl, l) => BeginKeepsFlight(s, key, ttl, l);
    case Resolve(l, value) => SettleKeepsFlight(s, Resolved(s, l, value), l);
    case Reject(l, took) => SettleKeepsFlight(s, Rejected(staleFor, s, l, took), l);
    case Register(l) => MoveKeepsFlight(staleFor, s, a);
    case Abandon(l) => MoveKeepsFlight(staleFor, s, a);
    case CleanUp(l) => MoveKeepsFlight(staleFor, s, a);
    case Tick(ms) => TickKeepsFlight(s, ms);
  }

  lemma ResolveKeepsValues(staleFor: int, s: State, l: LoadId, value: Value)
    requires FlightInv(s) && ValueInv(staleFor, s) && Enabled(s, Resolve(l, value))
    ensures ValueInv(staleFor, Resolved(s, l, value))
  {
    forall m | m != l && m in s.loads && s.loads[m].phase.Settled? ensures s.loads[m].key != s.loads[l].key {
      assert Unfinished(s, m) && Unfinished(s, l);
    }
  }

  lemma RejectKeepsValues(staleFor: int, s: State, l: LoadId, took: nat)
    requires FlightInv(s) && ValueInv(staleFor, s) && Enabled(s, Reject(l, took))
    ensures ValueInv(staleFor, Rejected(staleFor, s, l, took))
  {
    assert Unfinished(s, l);
    assert s.loads[l].captured == Lookup(s.entries, s.loads[l].key);
  }

  lemma StepKeepsValues(staleFor: int, s: State, a: Step)
    requires FlightInv(s) && ValueInv(staleFor, s) && Enabled(s, a)
    ensures ValueInv(staleFor, Apply(staleFor, s, a))
  {
    match a
    case Begin(_, _, _) =>
    case Resolve(l, value) => ResolveKeepsValues(staleFor, s, l, value);
    case Reject(l, took) => RejectKeepsValues(staleFor, s, l, took);
    case Register(_) =>
    case Abandon(_) =>
    case CleanUp(_) =>
    case Tick(_) =>
  }

  // ---- whole runs -------------------------------------------------------------------------------

  ghost function Machine(staleFor: int): (State, Step, State) -> bool {
    (s, a, t) => Enabled(s, a) && t == Apply(staleFor, s, a)
  }

  lemma ReachNext(staleFor: int, s0: State, s: State, a: Step)
    requires Runs.Reaches(Machine(staleFor), s0, s) && Enabled(s, a)
    ensures Runs.Reaches(Machine(staleFor), s0, Apply(staleFor, s, a))
  {
    Runs.ReachNext(Machine(staleFor), s0, s, a, Apply(staleFor, s, a));
  }

  /**
   Main result: while no loader asks for the key it is being started for, single flight and bounded ages
   hold at every point of every run from an empty cache.
   */
  lemma {:induction false} RunKeepsInv(staleFor: int, clock: int, states: seq<State>, steps: seq<Step>, n: nat)
    requires Runs.IsRun(Machine(staleFor), states, steps) && n <= |steps| && states[0] == Init(clock)
    requires forall i :: 0 <= i < n ==> NotReentrant(states[i], steps[i])
    ensures FlightInv(states[n]) && ValueInv(staleFor, states[n])
  {
    if n > 0 {
      RunKeepsInv(staleFor, clock, states, steps, n - 1);
      assert Runs.StepAt(Machine(staleFor), states, steps, n - 1);
      StepKeepsFlight(staleFor, states[n - 1], steps[n - 1]);
      StepKeepsValues(staleFor, states[n - 1], steps[n - 1]);
    }
  }

  /**
   Main result: at most one load per key is in flight all along a run exactly when no loader asks, while
   it is being started, for its own key.
   */
  lemma SingleFlightIff(staleFor: int, clock: int, states: seq<State>, steps: seq<Step>, n: nat)
    requires Runs.IsRun(Machine(staleFor), states, steps) && n <= |steps| && states[0] == Init(clock)
    ensures (forall i :: 0 <= i <= n ==> OneLoadPerKey(states[i])) <==>
      forall i :: 0 <= i < n ==> NotReentrant(states[i], steps[i])
  {
    if forall i :: 0 <= i < n ==> NotReentrant(states[i], steps[i]) {
      forall i | 0 <= i <= n ensures OneLoadPerKey(states[i]) {
        RunKeepsInv(staleFor, clock, states, steps, i);
      }
    }
    if i :| 0 <= i < n && !NotReentrant(states[i], steps[i]) {
      assert Runs.StepAt(Machine(staleFor), states, steps, i);
      BegunTwice(states[i], steps[i].key, steps[i].ttl, steps[i].l);
      assert !OneLoadPerKey(states[i + 1]);
    }
  }

  /**
   A value served from the map is the latest one loaded, and its age is bounded however often it was
   renewed: by the largest ttl or staleFor + 5000 ms, unless a failure callback took over a millisecond
   between its two readings of the clock.
   */
  lemma ServedIsLatestAndBounded(staleFor: int, s: State, key: Key)
    requires ValueInv(staleFor, s) && OnGet(s, key).Served?
    ensures key in s.latest && OnGet(s, key).value == s.latest[key].value
    ensures s.clock - s.latest[key].at < Max(s.maxTtl[key], staleFor + RENEWAL + s.slack - 1)
    ensures s.slack <= 1 ==> s.clock - s.latest[key].at < Max(s.maxTtl[key], staleFor + RENEWAL)
  {
    assert s.entries[key].fetchedAt == s.latest[key].at;
  }

  /** A shared load delivers, when its clean-up runs, the latest value of its key or an error. */
  lemma DeliveredIsLatest(staleFor: int, s: State, l: LoadId)
    requires FlightInv(s) && ValueInv(staleFor, s) && Enabled(s, CleanUp(l))
    ensures var key, t := s.loads[l].key, CleanedUp(s, l);
      && s.inflight[key] == l && key !in t.inflight
      && (forall k :: k != key ==> Lookup(t.inflight, k) == Lookup(s.inflight, k))
      && (t.loads[l].phase.outcome.Value? ==> key in t.latest && t.loads[l].phase.outcome.value == t.latest[key].value)
  {
    assert Unfinished(s, l);
  }

  /** A failed load surfaces its error exactly when the cache holds nothing younger than staleFor. */
  lemma ErrorIffNothingYoung(staleFor: int, s: State, l: LoadId, took: nat)
    requires FlightInv(s) && ValueInv(staleFor, s) && Enabled(s, Reject(l, took))
    ensures var key := s.loads[l].key;
      Rejected(staleFor, s, l, took).loads[l].phase == Settled(Error) <==>
        !(key in s.latest && s.clock - s.latest[key].at < staleFor)
  {
    var key := s.loads[l].key;
    assert Unfinished(s, l) && s.loads[l].captured == Lookup(s.entries, key);
  }

  // ---- the staleness bound ----------------------------------------------------------------------

  function Later(s: State, wait: nat): State {
    s.(clock := s.clock + wait)
  }

  /** What get serves from the map is younger than the largest ttl of its key or staleFor + 5000 ms. */
  predicate ServedInBound(staleFor: int, s: State, key: Key) {
    OnGet(s, key).Served? ==>
      key in s.maxTtl && s.clock - s.entries[key].fetchedAt < Max(s.maxTtl[key], staleFor + RENEWAL)
  }

  /** ... now and however long one waits. */
  ghost predicate KeepsBound(staleFor: int, s: State) {
    forall key, wait: nat :: ServedInBound(staleFor, Later(s, wait), key)
  }

  /** A failure renews an entry that is at most staleFor old at the second reading, or would not outlive a ttl. */
  predicate RenewedInTime(staleFor: int, s: State, a: Step) {
    a.Reject? && a.l in s.loads && FallsBack(staleFor, s, s.loads[a.l]) ==>
      var load := s.loads[a.l];
      var age := s.clock + a.took - load.captured.value.fetchedAt;
      age <= staleFor || (load.key in s.maxTtl && age + RENEWAL <= s.maxTtl[load.key])
  }

  /** Every load's ttl is counted, whatever loads are in flight. */
  ghost predicate TtlsKnown(s: State) {
    && s.entries.Keys <= s.maxTtl.Keys
    && forall l :: l in s.loads ==> s.loads[l].key in s.maxTtl && s.loads[l].ttl <= s.maxTtl[s.loads[l].key]
  }

  /** One failure: what is served of the renewed entry keeps to the bound exactly when it is renewed in time. */
  lemma RenewalKeepsBoundIff(staleFor: int, s: State, l: LoadId, took: nat)
    requires TtlsKnown(s) && Enabled(s, Reject(l, took)) && FallsBack(staleFor, s, s.loads[l])
    ensures var t, key := Rejected(staleFor, s, l, took), s.loads[l].key;
      (forall wait: nat :: ServedInBound(staleFor, Later(t, wait), key)) <==> RenewedInTime(staleFor, s, Reject(l, took))
  {
    var t, key := Rejected(staleFor, s, l, took), s.loads[l].key;
    if !RenewedInTime(staleFor, s, Reject(l, took)) {
      var u := Later(t, RENEWAL - 1);
      assert OnGet(u, key).Served? && u.clock - u.entries[key].fetchedAt >= Max(u.maxTtl[key], staleFor + RENEWAL);
      assert !ServedInBound(staleFor, u, key);
    }
  }

  ghost predicate LifetimesBounded(staleFor: int, s: State) {
    forall key :: key in s.entries && key in s.maxTtl ==>
      s.entries[key].expiresAt - s.entries[key].fetchedAt <= Max(s.maxTtl[key], staleFor + RENEWAL)
  }

  lemma LifetimesKeepBound(staleFor: int, s: State)
    requires TtlsKnown(s) && LifetimesBounded(staleFor, s)
    ensures KeepsBound(staleFor, s)
  {
  }

  lemma StepKeepsTtls(staleFor: int, s: State, a: Step)
    requires TtlsKnown(s) && Enabled(s, a)
    ensures TtlsKnown(Apply(staleFor, s, a))
  {
    match a
    case Begin(_, _, _) =>
    case Register(_) =>
    case Abandon(_) =>
    case Resolve(_, _) =>
    case Reject(_, _) =>
    case CleanUp(_) =>
    case Tick(_) =>
  }

  lemma StepKeepsLifetimes(staleFor: int, s: State, a: Step)
    requires TtlsKnown(s) && LifetimesBounded(staleFor, s) && Enabled(s, a) && RenewedInTime(staleFor, s, a)
    ensures LifetimesBounded(staleFor, Apply(staleFor, s, a))
  {
    match a
    case Begin(_, _, _) =>
    case Register(_) =>
    case Abandon(_) =>
    case Resolve(_, _) =>
    case Reject(l, took) =>
    case CleanUp(_) =>
    case Tick(_) =>
  }

  lemma {:induction false} RunKeepsTtls(staleFor: int, clock: int, states: seq<State>, steps: seq<Step>, n: nat)
    requires Runs.IsRun(Machine(staleFor), states, steps) && n <= |steps| && states[0] == Init(clock)
    ensures TtlsKnown(states[n])
  {
    if n > 0 {
      RunKeepsTtls(staleFor, clock, states, steps, n - 1);
      assert Runs.StepAt(Machine(staleFor), states, steps, n - 1);
      StepKeepsTtls(staleFor, states[n - 1], steps[n - 1]);
    }
  }

  lemma {:induction false} InTimeKeepsLifetimes(staleFor: int, clock: int, states: seq<State>, steps: seq<Step>, n: nat)
    requires Runs.IsRun(Machine(staleFor), states, steps) && n <= |steps| && states[0] == Init(clock)
    requires forall i :: 0 <= i < n ==> RenewedInTime(staleFor, states[i], steps[i])
    ensures LifetimesBounded(staleFor, states[n])
  {
    if n > 0 {
      InTimeKeepsLifetimes(staleFor, clock, states, steps, n - 1);
      RunKeepsTtls(staleFor, clock, states, steps, n - 1);
      assert Runs.StepAt(Machine(staleFor), states, steps, n - 1);
      StepKeepsLifetimes(staleFor, states[n - 1], steps[n - 1]);
    }
  }

  /**
   Main result: all along every run, re-entrant loaders included, the plain bound is kept, however long
   one waits, exactly when every failure renews in time.
   */
  lemma StalenessBoundIff(staleFor: int, clock: int, states: seq<State>, steps: seq<Step>, n: nat)
    requires Runs.IsRun(Machine(staleFor), states, steps) && n <= |steps| && states[0] == Init(clock)
    ensures (forall i :: 0 <= i <= n ==> KeepsBound(staleFor, states[i])) <==>
      forall i :: 0 <= i < n ==> RenewedInTime(staleFor, states[i], steps[i])
  {
    if forall i :: 0 <= i < n ==> RenewedInTime(staleFor, states[i], steps[i]) {
      forall i | 0 <= i <= n ensures KeepsBound(staleFor, states[i]) {
        InTimeKeepsLifetimes(staleFor, clock, states, steps, i);
        RunKeepsTtls(staleFor, clock, states, steps, i);
        LifetimesKeepBound(staleFor, states[i]);
      }
    }
    if i :| 0 <= i < n && !RenewedInTime(staleFor, states[i], steps[i]) {
      RunKeepsTtls(staleFor, clock, states, steps, i);
      assert Runs.StepAt(Machine(staleFor), states, steps, i);
      RenewalKeepsBoundIff(staleFor, states[i], steps[i].l, steps[i].took);
      assert !KeepsBound(staleFor, states[i + 1]);
    }
  }

  /** A value loaded at 0 has expired; a load begun just before staleFor fails. */
  function Failing(staleFor: int, key: Key, ttl: int): State {
    Init(0).(clock := staleFor - 1,
             entries := map[key := Entry("v", 0, ttl)],
             inflight := map[key := 1],
             loads := map[0 := Load(key, ttl, None, Finished(Value("v"))),
                          1 := Load(key, ttl, Some(Entry("v", 0, ttl)), Pending)],
             latest := map[key := Fetch("v", 0)],
             maxTtl := map[key := ttl])
  }

  function Loaded(key: Key, ttl: int): State {
    Init(0).(entries := map[key := Entry("v", 0, ttl)],
             loads := map[0 := Load(key, ttl, None, Finished(Value("v")))],
             latest := map[key := Fetch("v", 0)],
             maxTtl := map[key := ttl])
  }

  lemma ReachLoaded(staleFor: int, key: Key, ttl: int)
    ensures Runs.Reaches(Machine(staleFor), Init(0), Loaded(key, ttl))
  {
    var s0 := Init(0);
    Runs.ReachSelf(Machine(staleFor), s0);
    ReachNext(staleFor, s0, s0, Begin(key, ttl, 0));
    var s1 := Begun(s0, key, ttl, 0);
    ReachNext(staleFor, s0, s1, Register(0));
    var s2 := Apply(staleFor, s1, Register(0));
    ReachNext(staleFor, s0, s2, Resolve(0, "v"));
    var s3 := Resolved(s2, 0, "v");
    ReachNext(staleFor, s0, s3, CleanUp(0));
    assert CleanedUp(s3, 0) == Loaded(key, ttl);
  }

  lemma ReachFailing(staleFor: int, key: Key, ttl: int)
    requires 0 <= ttl < staleFor
    ensures Runs.Reaches(Machine(staleFor), Init(0), Failing(staleFor, key, ttl))
  {
    ReachLoaded(staleFor, key, ttl);
    var s0 := Init(0);
    ReachNext(staleFor, s0, Loaded(key, ttl), Tick(staleFor - 1));
    var s1 := Later(Loaded(key, ttl), staleFor - 1);
    ReachNext(staleFor, s0, s1, Begin(key, ttl, 1));
    var s2 := Begun(s1, key, ttl, 1);
    ReachNext(staleFor, s0, s2, Register(1));
    assert Apply(staleFor, s2, Register(1)) == Failing(staleFor, key, ttl);
  }

  /** Two milliseconds between the readings are enough: a value as old as the bound is served. */
  lemma LateRenewalServesTooOld(staleFor: int, key: Key, ttl: int)
    requires 0 <= ttl < staleFor
    ensures exists s ::
      && Runs.Reaches(Machine(staleFor), Init(0), s) && s.slack == 2
      && OnGet(s, key).Served? && key in s.latest && key in s.maxTtl
      && s.clock - s.latest[key].at >= Max(s.maxTtl[key], staleFor + RENEWAL)
  {
    ReachFailing(staleFor, key, ttl);
    var s := Failing(staleFor, key, ttl);
    ReachNext(staleFor, Init(0), s, Reject(1, 2));
    var t := Rejected(staleFor, s, 1, 2);
    ReachNext(staleFor, Init(0), t, Tick(RENEWAL - 1));
    var u := Later(t, RENEWAL - 1);
    assert u.entries[key] == Entry("v", 0, staleFor + 1 + RENEWAL) && u.clock == staleFor + RENEWAL;
  }

  // ---- for how long a value is served -------------------------------------------------------------

  /** A load is for the key and the ttl it was asked for, and falls back on the entry it found, all its life. */
  lemma LoadKeeps(staleFor: int, s: State, a: Step, l: LoadId)
    requires Enabled(s, a) && (l in s.loads || (a.Begin? && a.l == l))
    ensures var t := Apply(staleFor, s, a);
      && l in t.loads
      && if l in s.loads then
           t.loads[l].key == s.loads[l].key && t.loads[l].ttl == s.loads[l].ttl && t.loads[l].captured == s.loads[l].captured
         else
           && t.loads[l].key == a.key && t.loads[l].ttl == a.ttl
           && t.loads[l].captured == if a.key in s.entries then Some(s.entries[a.key]) else None
  {
  }

  /** A loaded value is what a get is served, from then on for exactly its ttl. */
  lemma LoadedIsServed(staleFor: int, s: State, l: LoadId, value: Value, wait: nat)
    requires Enabled(s, Resolve(l, value))
    ensures var t, key := Apply(staleFor, s, Resolve(l, value)), s.loads[l].key;
      && (OnGet(Later(t, wait), key) == Served(value) <==> wait < s.loads[l].ttl)
      && t.loads[l].phase == Settled(Value(value))
      && forall k :: k != key ==> OnGet(t, k) == OnGet(s, k)
  {
  }

  /**
   A failed load whose captured entry was fetched less than staleFor ago delivers that entry's value and
   has it served for exactly 5000 ms more; otherwise it delivers an error, and no entry changes.
   */
  lemma FailedIsServed(staleFor: int, s: State, l: LoadId, took: nat, wait: nat)
    requires Enabled(s, Reject(l, took))
    ensures var t, load := Apply(staleFor, s, Reject(l, took)), s.loads[l];
      if load.captured.Some? && load.captured.value.fetchedAt > s.clock - staleFor then
        var stale := load.captured.value.value;
        && t.loads[l].phase == Settled(Value(stale)) && t.clock == s.clock + took
        && (OnGet(Later(t, wait), load.key) == Served(stale) <==> wait < 5_000)
        && forall k :: k != load.key && k in s.entries ==> k in t.entries && t.entries[k] == s.entries[k]
      else t.loads[l].phase == Settled(Error) && t.entries == s.entries
  {
    var t, load := Apply(staleFor, s, Reject(l, took)), s.loads[l];
    if FallsBack(staleFor, s, load) {
      assert t.entries[load.key] == load.captured.value.(expiresAt := s.clock + took + 5_000);
    }
  }

  /** Without a fresh entry a get shares the load that is recorded for its key, or begins one. */
  lemma OnMiss(s: State, key: Key)
    requires key in s.entries ==> s.entries[key].expiresAt <= s.clock
    ensures OnGet(s, key) == if key in s.inflight then Shared(s.inflight[key]) else Missed
    ensures forall ttl, l :: l !in s.loads ==> (Enabled(s, Begin(key, ttl, l)) <==> key !in s.inflight)
  {
  }

  // ---- re-entrant loaders -----------------------------------------------------------------------

  /** Two loads of one key, the second begun by the first one's loader; both are registered. */
  function Nested(key: Key): State {
    Init(0).(loads := map[0 := Load(key, 1, None, Pending), 1 := Load(key, 1, None, Pending)],
             inflight := map[key := 0],
             maxTtl := map[key := 1])
  }

  lemma ReachNested(staleFor: int, key: Key)
    ensures Runs.Reaches(Machine(staleFor), Init(0), Nested(key))
  {
    var s0 := Init(0);
    Runs.ReachSelf(Machine(staleFor), s0);
    ReachNext(staleFor, s0, s0, Begin(key, 1, 0));
    var s1 := Begun(s0, key, 1, 0);
    ReachNext(staleFor, s0, s1, Begin(key, 1, 1));
    var s2 := Begun(s1, key, 1, 1);
    ReachNext(staleFor, s0, s2, Register(1));
    var s3 := Apply(staleFor, s2, Register(1));
    ReachNext(staleFor, s0, s3, Register(0));
    assert Apply(staleFor, s3, Register(0)) == Nested(key);
  }

  /** A loader that asks for its own key while being started: two loads run, and one erases the other's record. */
  lemma ReentryBreaksSingleFlight(staleFor: int, key: Key)
    ensures exists s ::
      && Runs.Reaches(Machine(staleFor), Init(0), s)
      && Unfinished(s, 0) && s.loads[0] == Load(key, 1, None, Pending) && key !in s.inflight
  {
    ReachNested(staleFor, key);
    var s := Nested(key);
    var t := Resolved(s, 1, "v");
    ReachNext(staleFor, Init(0), s, Resolve(1, "v"));
    ReachNext(staleFor, Init(0), t, CleanUp(1));
    assert CleanedUp(t, 1).loads[0] == Load(key, 1, None, Pending);
  }

  // ---- the class --------------------------------------------------------------------------------

  class Cache {
    const staleFor: int
    var entries: map<Key, Entry>
    var inflight: map<Key, LoadId>
    /** The callbacks of the loads: what each of them captured. */
    var loads: map<LoadId, Load>
    ghost var latest: map<Key, Fetch>
    ghost var maxTtl: map<Key, int>
    ghost var slack: nat

    ghost function View(clock: int): State
      reads this
    {
      State(clock, entries, inflight, loads, latest, maxTtl, slack)
    }

    constructor (staleFor: int)
      ensures View(0) == Init(0) && this.staleFor == staleFor
    {
      this.staleFor := staleFor;
      entries, inflight, loads, latest, maxTtl, slack := map[], map[], map[], map[], map[], 0;
    }

    /** get, up to the call of the loader: `l` names the load if one is needed. */
    method Ask(key: Key, ttl: int, now: int, l: LoadId) returns (got: Get)
      requires l !in loads
      modifies this
      ensures got == OnGet(old(View(now)), key)
      ensures View(now) == if got.Missed? then Begun(old(View(now)), key, ttl, l) else old(View(now))
    {
      var entry := Lookup(entries, key);
      if entry.Some? && entry.value.expiresAt > now {
        return Served(entry.value.value);
      }
      if key in inflight {
        return Shared(inflight[key]);
      }
      loads := loads[l := Load(key, ttl, entry, Starting)];
      maxTtl := maxTtl[key := if key in maxTtl then Max(maxTtl[key], ttl) else ttl];
      return Missed;
    }

    /** get, after the call of the loader. */
    method Started(l: LoadId, now: int)
      requires Enabled(View(now), Register(l))
      modifies this
      ensures View(now) == Apply(staleFor, old(View(now)), Register(l))
    {
      inflight := inflight[loads[l].key := l];
      loads := loads[l := loads[l].(phase := Pending)];
    }

    /** The loader threw before it returned: get throws too, and nothing was recorded. */
    method StartFailed(l: LoadId, now: int)
      requires Enabled(View(now), Abandon(l))
      modifies this
      ensures View(now) == Apply(staleFor, old(View(now)), Abandon(l))
      ensures entries == old(entries) && inflight == old(inflight)
    {
      loads := loads[l := loads[l].(phase := Finished(Error))];
    }

    method OnValue(l: LoadId, value: Value, now: int)
      requires Enabled(View(now), Resolve(l, value))
      modifies this
      ensures View(now) == Apply(staleFor, old(View(now)), Resolve(l, value))
    {
      var load := loads[l];
      entries := entries[load.key := Entry(value, now, now + load.ttl)];
      latest := latest[load.key := Fetch(value, now)];
      loads := loads[l := load.(phase := Settled(Value(value)))];
    }

    method OnError(l: LoadId, now: int, took: nat)
      requires Enabled(View(now), Reject(l, took))
      modifies this
      ensures var t := Apply(staleFor, old(View(now)), Reject(l, took)); View(t.clock) == t
    {
      var load := loads[l];
      if load.captured.Some? && now - load.captured.value.fetchedAt < staleFor {
        entries := entries[load.key := load.captured.value.(expiresAt := now + took + RENEWAL)];
        loads := loads[l := load.(phase := Settled(Value(load.captured.value.value)))];
        slack := if slack < took then took else slack;
      } else {
        loads := loads[l := load.(phase := Settled(Error))];
      }
    }

    method OnFinally(l: LoadId, now: int)
      requires Enabled(View(now), CleanUp(l))
      modifies this
      ensures View(now) == Apply(staleFor, old(View(now)), CleanUp(l))
    {
      inflight := inflight - {loads[l].key};
      loads := loads[l := loads[l].(phase := Finished(loads[l].phase.outcome))];
    }
  }
}

/** Which thread polls which key, and what that settles: the poll group threads of
    modbus_adapter/poll_manager.py poll their own signals, a repoll command polls all of them
    (command_service.py:427-437), and one tick flushes (device.py:75-78). */
module Schedules {
  import opened Values
  import opened Deadband
  import opened Publisher
  import opened Runtime
  import opened Conservation
  import opened Ordering
  import opened ConsumerView

  /** plan(i, k): thread i may poll key k. */
  type Plan = (nat, Key) -> bool

  /** The action starts no read outside the plan. */
  predicate Planned(plan: Plan, a: Action) { a.Start? ==> plan(a.i, a.key) }

  /** And no publication fails. */
  predicate Allowed(plan: Plan, a: Action) { Planned(plan, a) && (a.Send? ==> !a.fault) }

  ghost predicate RunTo(c: Config, start: State, plan: Plan, states: seq<State>, acts: seq<Action>, s: State) {
    Run(c, states, acts) && states[0] == start && states[|acts|] == s && forall a :: a in acts ==> Allowed(plan, a)
  }

  ghost predicate Reachable(c: Config, start: State, plan: Plan, s: State) {
    exists states, acts :: RunTo(c, start, plan, states, acts, s)
  }

  lemma StartReachable(c: Config, start: State, plan: Plan)
    requires Init(start)
    ensures Reachable(c, start, plan, start)
  {
    var none: seq<Action> := [];
    assert RunTo(c, start, plan, [start], none, start);
  }

  lemma Longer(c: Config, start: State, plan: Plan, states: seq<State>, acts: seq<Action>, s: State, a: Action)
    requires RunTo(c, start, plan, states, acts, s) && Enabled(s, a) && Allowed(plan, a)
    ensures RunTo(c, start, plan, states + [Step(c, s, a)], acts + [a], Step(c, s, a))
  {
    var more, trace := states + [Step(c, s, a)], acts + [a];
    forall n | 0 <= n < |trace| ensures Enabled(more[n], trace[n]) && more[n + 1] == Step(c, more[n], trace[n]) {
      if n < |acts| { assert more[n] == states[n] && more[n + 1] == states[n + 1] && trace[n] == acts[n]; }
    }
  }

  lemma Advance(c: Config, start: State, plan: Plan, s: State, a: Action)
    requires Reachable(c, start, plan, s) && Enabled(s, a) && Allowed(plan, a)
    ensures Reachable(c, start, plan, Step(c, s, a))
  {
    var states, acts :| RunTo(c, start, plan, states, acts, s);
    Longer(c, start, plan, states, acts, s, a);
  }

  // ---- roles, and who touches what ----

  /** Thread i may poll the key. */
  predicate Assigned(start: State, plan: Plan, i: nat, k: Key)
    requires i < |start.threads|
  {
    Polls(start.threads[i].role) && plan(i, k)
  }

  predicate SameRoles(start: State, s: State) {
    |s.threads| == |start.threads| && forall i :: 0 <= i < |s.threads| ==> s.threads[i].role == start.threads[i].role
  }

  /** No samples have been taken out for publication. */
  predicate Unflushed(stage: Stage) { stage.Idle? || stage.Reading? || stage.Deciding? || stage.Offering? }

  /** The thread is between the read of a key and the end of its offer. */
  predicate Polling(stage: Stage, k: Key) {
    match stage
    case Reading(j) => j == k
    case Deciding(j, _) => j == k
    case Offering(j, _) => j == k
    case _ => false
  }

  /** A thread deals with the key: it polls it, or publishes what it has itself offered. */
  predicate Touches(c: Config, stage: Stage, k: Key) { Polling(stage, k) || (!c.batched && Carries(stage, k)) }

  /** Only flushing threads flush: with batching, polling threads only buffer. */
  predicate DividedThread(c: Config, t: Thread) {
    && (Polls(t.role) ==> t.stage.Idle? || !c.batched || Unflushed(t.stage))
    && (!Polls(t.role) ==> t.stage.Idle? || !Unflushed(t.stage))
  }

  predicate Divided(c: Config, s: State) { forall i :: 0 <= i < |s.threads| ==> DividedThread(c, s.threads[i]) }

  predicate InPlan(c: Config, start: State, plan: Plan, s: State, k: Key)
    requires SameRoles(start, s)
  {
    forall i :: 0 <= i < |s.threads| && Touches(c, s.threads[i].stage, k) ==> Assigned(start, plan, i, k)
  }

  predicate Orderly(c: Config, start: State, plan: Plan, s: State, k: Key) {
    SameRoles(start, s) && Divided(c, s) && InPlan(c, start, plan, s, k) && (!c.batched ==> s.pending == [])
  }

  lemma NextDivided(c: Config, s: State, a: Action)
    requires Enabled(s, a) && !a.SetPause? && DividedThread(c, s.threads[a.i])
    ensures DividedThread(c, NextThread(c, s, s.threads[a.i], a))
    ensures NextThread(c, s, s.threads[a.i], a).role == s.threads[a.i].role
  {
  }

  /** A thread comes to deal with a key by starting to read it. */
  lemma NextTouches(c: Config, s: State, a: Action, k: Key)
    requires Enabled(s, a) && !a.SetPause? && (!c.batched ==> s.pending == [])
    requires Touches(c, NextThread(c, s, s.threads[a.i], a).stage, k)
    ensures Touches(c, s.threads[a.i].stage, k) || (a.Start? && a.key == k && Polls(s.threads[a.i].role))
  {
    var t := s.threads[a.i];
    if !c.batched {
      if a.Send? {
        SendCarries(t.stage, a.fault, k);
      } else if Quiet(a) {
        QuietFlight(c, s, a);
      } else if a.Offer? {
        SingleFlight(t.stage.key, t.stage.x, k, true);
      }
    }
  }

  lemma SendCarries(stage: Stage, fault: bool, k: Key)
    requires stage.SendValued? || stage.SendValueless?
    requires Carries(AfterSend(stage, fault), k)
    ensures Carries(stage, k)
  {
    var q, r := InFlight(stage), InFlight(AfterSend(stage, fault));
    var i :| 0 <= i < |r| && r[i].key == k;
    if r == stage.queue { assert q[i + 1].key == k; } else { assert q[i].key == k; }
  }

  lemma StepOrderly(c: Config, start: State, plan: Plan, s: State, a: Action, k: Key)
    requires Enabled(s, a) && Planned(plan, a) && Orderly(c, start, plan, s, k)
    ensures Orderly(c, start, plan, Step(c, s, a), k)
  {
    if !a.SetPause? {
      StepThreads(c, s, a);
      NextDivided(c, s, a);
      BufferStays(c, s, a);
      if Touches(c, NextThread(c, s, s.threads[a.i], a).stage, k) { NextTouches(c, s, a, k); }
    }
  }

  lemma BufferStays(c: Config, s: State, a: Action)
    requires Enabled(s, a) && (!c.batched ==> s.pending == [])
    ensures !c.batched ==> Step(c, s, a).pending == []
  {
  }

  lemma {:induction false} OrderlyAt(c: Config, plan: Plan, states: seq<State>, acts: seq<Action>, k: Key, n: nat)
    requires Run(c, states, acts) && (forall a :: a in acts ==> Planned(plan, a)) && n <= |acts|
    ensures Orderly(c, states[0], plan, states[n], k)
  {
    if n == 0 {
      IdleOrderly(c, plan, states[0], k);
    } else {
      OrderlyAt(c, plan, states, acts, k, n - 1);
      assert acts[n - 1] in acts;
      StepOrderly(c, states[0], plan, states[n - 1], acts[n - 1], k);
    }
  }

  lemma IdleOrderly(c: Config, plan: Plan, s: State, k: Key)
    requires Init(s)
    ensures Orderly(c, s, plan, s, k)
  {
    forall i | 0 <= i < |s.threads| ensures s.threads[i].stage == Idle { assert s.threads[i] in s.threads; }
  }

  // ---- letting a flush run ----

  /** Steps to the end of a flush. */
  function Distance(stage: Stage): nat {
    match stage
    case Flushing(q) => 5 * |q| + 1
    case SendValued(_, q) => 5 * |q| + 5
    case SendValueless(_, q, _) => 5 * |q| + 4
    case Failing(q, _) => 5 * |q| + 3
    case Closing(q, _) => 5 * |q| + 2
    case _ => 0
  }

  /** The next step of a flush in which nothing fails. */
  function Onward(stage: Stage, f: nat): Action {
    match stage
    case Flushing(q) => if q == [] then Done(f) else Begin(f)
    case Failing(_, _) => RecordFailure(f)
    case Closing(_, _) => Close(f)
    case _ => Send(f, false)
  }

  lemma OnwardEnabled(c: Config, s: State, f: nat)
    requires f < |s.threads| && !Unflushed(s.threads[f].stage)
    ensures Enabled(s, Onward(s.threads[f].stage, f))
  {
  }

  lemma OnwardCloser(c: Config, s: State, f: nat)
    requires f < |s.threads| && !Unflushed(s.threads[f].stage)
    ensures var r := NextThread(c, s, s.threads[f], Onward(s.threads[f].stage, f)).stage;
      Distance(r) < Distance(s.threads[f].stage) && (r.Idle? || !Unflushed(r))
  {
  }

  // ---- what one flushing thread, or one thread per key, settles ----

  /** At most one thread is not a polling one. */
  predicate OneFlusher(start: State) {
    forall i, j :: 0 <= i < j < |start.threads| ==> Polls(start.threads[i].role) || Polls(start.threads[j].role)
  }

  /** At most one thread polls the key. */
  predicate OnePoller(start: State, plan: Plan, k: Key) {
    forall i, j :: 0 <= i < j < |start.threads| ==> !(Assigned(start, plan, i, k) && Assigned(start, plan, j, k))
  }

  lemma OrderlyApart(c: Config, start: State, plan: Plan, s: State, k: Key)
    requires Orderly(c, start, plan, s, k) && if c.batched then OneFlusher(start) else OnePoller(start, plan, k)
    ensures FlushesApart(s, k)
  {
    forall i, j | 0 <= i < |s.threads| && 0 <= j < |s.threads| && i != j
      ensures !(Carries(s.threads[i].stage, k) && Carries(s.threads[j].stage, k))
    {
      CarrierKind(c, start, plan, s, i, k);
      CarrierKind(c, start, plan, s, j, k);
    }
  }

  lemma CarrierKind(c: Config, start: State, plan: Plan, s: State, i: nat, k: Key)
    requires Orderly(c, start, plan, s, k) && i < |s.threads|
    ensures c.batched && Carries(s.threads[i].stage, k) ==> !Polls(start.threads[i].role)
    ensures !c.batched && Carries(s.threads[i].stage, k) ==> Assigned(start, plan, i, k)
    ensures Window(s.threads[i].stage, k) ==> Assigned(start, plan, i, k)
  {
    assert DividedThread(c, s.threads[i]);
    assert Window(s.threads[i].stage, k) ==> Touches(c, s.threads[i].stage, k);
  }

  /** Batched with one flushing thread, or direct with one thread polling the key: the key is never published by
      two threads at once. */
  lemma PlanKeepsApart(c: Config, plan: Plan, states: seq<State>, acts: seq<Action>, k: Key)
    requires Run(c, states, acts) && forall a :: a in acts ==> Planned(plan, a)
    requires if c.batched then OneFlusher(states[0]) else OnePoller(states[0], plan, k)
    ensures AlwaysApart(states, k)
  {
    forall s | s in states ensures FlushesApart(s, k) {
      var n :| 0 <= n < |states| && states[n] == s;
      OrderlyAt(c, plan, states, acts, k, n);
      OrderlyApart(c, states[0], plan, s, k);
    }
  }

  /** Delivery in offer order, from who flushes and who polls. */
  lemma PlanKeepsOrder(c: Config, plan: Plan, states: seq<State>, acts: seq<Action>, k: Key, valued: bool)
    requires Run(c, states, acts) && forall a :: a in acts ==> Allowed(plan, a)
    requires if c.batched then OneFlusher(states[0]) else OnePoller(states[0], plan, k)
    ensures Ordered(states[|acts|], k, valued)
  {
    PlanKeepsApart(c, plan, states, acts, k);
    RunsOrder(c, states, acts, k, valued);
  }

  /** With failures: what was delivered is what was offered with some samples left out, in the same order. */
  lemma PlanKeepsSubsequence(c: Config, plan: Plan, states: seq<State>, acts: seq<Action>, k: Key, valued: bool)
    requires Run(c, states, acts) && forall a :: a in acts ==> Planned(plan, a)
    requires if c.batched then OneFlusher(states[0]) else OnePoller(states[0], plan, k)
    ensures Subsequence(Delivered(states[|acts|].log, k, valued), Offered(states[|acts|].offered, k, valued))
  {
    PlanKeepsApart(c, plan, states, acts, k);
    FailuresKeepOrder(c, states, acts, k, valued);
  }

  lemma OnePollerConcerts(c: Config, plan: Plan, states: seq<State>, acts: seq<Action>, k: Key)
    requires Run(c, states, acts) && (forall a :: a in acts ==> Planned(plan, a)) && OnePoller(states[0], plan, k)
    ensures AlwaysConcerted(c, states, k)
  {
    forall n | 0 <= n < |acts| ensures FinishesApart(states[n], acts[n], k) {
      OrderlyAt(c, plan, states, acts, k, n);
      OrderlyFinish(c, states[0], plan, states[n], acts[n], k);
    }
    FinishingApartConcerts(c, states, acts, k);
  }

  lemma OrderlyFinish(c: Config, start: State, plan: Plan, s: State, a: Action, k: Key)
    requires Enabled(s, a) && Orderly(c, start, plan, s, k) && OnePoller(start, plan, k)
    ensures FinishesApart(s, a, k)
  {
    if a.Finish? && s.threads[a.i].stage.key == k {
      assert Touches(c, s.threads[a.i].stage, k);
      forall j | 0 <= j < |s.threads| && j != a.i ensures !Window(s.threads[j].stage, k) {
        CarrierKind(c, start, plan, s, j, k);
      }
    }
  }

  /** The consumer view with nothing assumed of the runs but the plan: if one thread polls the key, and with
      batching one thread flushes, then whenever the key is flushed the consumer was last given the cached
      value, and the latest decoded value is settled by it. */
  lemma OnePollerKeepsView(c: Config, start: State, plan: Plan, s: State, k: Key)
    requires FirstPublishes(c) && OnePoller(start, plan, k) && (c.batched ==> OneFlusher(start))
    requires Reachable(c, start, plan, s) && Flushed(s, k)
    ensures View(c, s, k)
  {
    var states, acts :| RunTo(c, start, plan, states, acts, s);
    PlanKeepsApart(c, plan, states, acts, k);
    OnePollerConcerts(c, plan, states, acts, k);
    ConsumerSeesCache(c, states, acts, k);
  }

  /** For the adapter's own filter: under onChange the latest decoded value of a signal does not exceed its
      deadband from the last value the consumer was given. */
  lemma ConsumerWithinDeadband(p: Platform, batched: bool, modes: Key -> PublishMode, bands: Key -> DeadbandSpec,
                               start: State, plan: Plan, s: State, k: Key)
    requires modes(k) == OnChange && OnePoller(start, plan, k) && (batched ==> OneFlusher(start))
    requires Reachable(AdapterConfig(p, batched, modes, bands), start, plan, s) && Flushed(s, k)
    ensures var given, latest := LastValue(Delivered(s.log, k, true)), Lookup(s.latest, k);
      latest == given || (latest.Some? && given.Some? && !Exceeds(p, bands(k), given, latest.value))
  {
    AdapterPublishesFirst(p, batched, modes, bands);
    OnePollerKeepsView(AdapterConfig(p, batched, modes, bands), start, plan, s, k);
  }
}

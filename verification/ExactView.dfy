/** Where else the consumer view fails, and that it fails nowhere else: stop flushes without waiting for the tick
    (modbus_adapter/device.py:88-92), so its flush can overtake one that is under way. */
module ExactView {
  import opened Values
  import opened Deadband
  import opened Publisher
  import opened Runtime
  import opened Ordering
  import opened ConsumerView
  import opened Schedules
  import opened Overlap
  import Refinement

  // ---- two threads that flush ----

  /** The filter lets some value follow a different one. */
  ghost predicate Republishes(c: Config, k: Key) { exists v, u :: v != u && c.gate(k, Some(v), u) }

  /** Every filter of the adapter does: a step from 0 as large as the band is published. */
  lemma AdapterRepublishes(p: Platform, batched: bool, modes: Key -> PublishMode, bands: Key -> DeadbandSpec, k: Key)
    ensures Republishes(AdapterConfig(p, batched, modes, bands), k)
  {
    var band := bands(k).value;
    var v, u := RealV(0.0), RealV(if band > 1.0 then band else 1.0);
    assert Publishes(p, modes(k), bands(k), Some(v), u);
    assert v != u && AdapterConfig(p, batched, modes, bands).gate(k, Some(v), u);
  }

  /** An admitted poller reads, commits and offers one value. */
  lemma PollOnce(c: Config, start: State, plan: Plan, s: State, i: nat, k: Key, v: Value) returns (r: State)
    requires Reachable(c, start, plan, s) && c.batched && i < |start.threads| == |s.threads| && Assigned(start, plan, i, k)
    requires s.threads[i] == Thread(start.threads[i].role, true, false, Idle) && s.pending == []
    requires c.gate(k, Lookup(s.last, k), v)
    ensures Reachable(c, start, plan, r) && r.threads == s.threads && r.pending == [Entry(k, [Sample(Some(v))])]
    ensures r.paused == s.paused && r.log == s.log
    ensures Lookup(r.last, k) == Some(v) && LastValue(Offered(r.offered, k, true)) == Some(v)
  {
    Advance(c, start, plan, s, Start(i, k));
    var m := Step(c, s, Start(i, k));
    Advance(c, start, plan, m, Finish(i, Some(v)));
    var n := Step(c, m, Finish(i, Some(v)));
    Refinement.ReadStarts(c, s, i, k, Some(v));
    Advance(c, start, plan, n, Commit(i));
    var d := Step(c, n, Commit(i));
    Refinement.CommitOffers(c, n, i, k, v);
    r := OfferFirst(c, start, plan, d, i, k, v);
    BackAgain(s.threads, i, m.threads[i], n.threads[i], d.threads[i], r.threads[i]);
  }

  lemma OfferFirst(c: Config, start: State, plan: Plan, s: State, i: nat, k: Key, v: Value) returns (r: State)
    requires Reachable(c, start, plan, s) && c.batched && i < |s.threads| && s.pending == []
    requires s.threads[i].stage == Offering(k, Sample(Some(v)))
    ensures Reachable(c, start, plan, r) && r.threads == s.threads[i := s.threads[i].(stage := Idle)] && r.last == s.last
    ensures r.pending == [Entry(k, [Sample(Some(v))])] && r.paused == s.paused && r.log == s.log
    ensures LastValue(Offered(r.offered, k, true)) == Some(v)
  {
    Advance(c, start, plan, s, Offer(i));
    r := Step(c, s, Offer(i));
    OfferedAppend(s.offered, k, Sample(Some(v)), k, true);
    assert [] + [Entry(k, [Sample(Some(v))])] == [Entry(k, [Sample(Some(v))])];
  }

  lemma BackAgain<T>(s: seq<T>, i: nat, a: T, b: T, d: T, e: T)
    requires i < |s| && e == s[i]
    ensures s[i := a][i := b][i := d][i := e] == s
  {
  }

  /** A thread that flushes takes the buffer out. */
  lemma TakeOut(c: Config, start: State, plan: Plan, s: State, f: nat) returns (r: State)
    requires Reachable(c, start, plan, s) && f < |start.threads| == |s.threads| && !Polls(start.threads[f].role) && !s.paused
    requires s.threads[f] == Thread(start.threads[f].role, false, false, Idle)
    ensures Reachable(c, start, plan, r) && Beside(s, r, f) && r.threads[f].stage == Flushing(s.pending)
    ensures r.pending == [] && r.log == s.log && !r.paused
  {
    r := s;
    if s.threads[f].role == Tick {
      Advance(c, start, plan, s, Check(f));
      r := Step(c, s, Check(f));
    }
    Advance(c, start, plan, r, Swap(f));
    var m := r;
    r := Step(c, m, Swap(f));
    assert s.threads[f := m.threads[f]][f := r.threads[f]] == s.threads[f := r.threads[f]];
  }

  /** It publishes the one value it has taken out. */
  lemma PublishOut(c: Config, start: State, plan: Plan, s: State, f: nat, k: Key, x: Sample) returns (r: State)
    requires Reachable(c, start, plan, s) && f < |s.threads| && s.threads[f].stage == Flushing([Entry(k, [x])]) && x.value.Some?
    ensures Reachable(c, start, plan, r) && Apart(s, r, f) && r.threads[f].stage.Idle?
    ensures r.last == s.last && r.offered == s.offered && r.pending == s.pending
    ensures LastValue(Delivered(r.log, k, true)) == x.value
  {
    Advance(c, start, plan, s, Begin(f));
    var m := Step(c, s, Begin(f));
    Refinement.BeginMoves(c, s, f, [Entry(k, [x])]);
    SendOne(c, m, f, k, x);
    OneValued(k, x, m.log);
    Advance(c, start, plan, m, Send(f, false));
    r := SendEnds(c, start, plan, Step(c, m, Send(f, false)), f, k);
    ThreeUpdates(s.threads, f, m.threads[f], Step(c, m, Send(f, false)).threads[f], r.threads[f]);
  }

  /** Nothing but three threads has moved since the start. */
  predicate OnlyThree(start: State, s: State, i: nat, f: nat, g: nat) {
    && |s.threads| == |start.threads|
    && forall m :: 0 <= m < |s.threads| && m != i && m != f && m != g ==> s.threads[m] == start.threads[m]
  }

  /** At the start thread i polls the key, and f and g flush. */
  predicate PollAndTwoFlushes(start: State, plan: Plan, i: nat, f: nat, g: nat, k: Key) {
    && Init(start) && i < |start.threads| && Assigned(start, plan, i, k) && f < |start.threads| && g < |start.threads| && f != g
    && !Polls(start.threads[f].role) && !Polls(start.threads[g].role)
  }

  /** One flush has taken out v, a later one u, and neither has been published. */
  lemma BothTakeOut(c: Config, start: State, plan: Plan, i: nat, f: nat, g: nat, k: Key, v: Value, u: Value) returns (s: State)
    requires FirstPublishes(c) && c.batched && c.gate(k, Some(v), u) && PollAndTwoFlushes(start, plan, i, f, g, k)
    ensures Reachable(c, start, plan, s) && OnlyThree(start, s, i, f, g) && s.threads[i].stage.Idle? && s.pending == []
    ensures s.threads[f].stage == Flushing([Entry(k, [Sample(Some(v))])])
    ensures s.threads[g].stage == Flushing([Entry(k, [Sample(Some(u))])])
    ensures Lookup(s.last, k) == Some(u) && LastValue(Offered(s.offered, k, true)) == Some(u)
  {
    StartReachable(c, start, plan);
    IdleAtStart(start, i);
    IdleAtStart(start, f);
    IdleAtStart(start, g);
    Advance(c, start, plan, start, Check(i));
    s := Step(c, start, Check(i));
    s := PollOnce(c, start, plan, s, i, k, v);
    s := TakeOut(c, start, plan, s, f);
    s := PollOnce(c, start, plan, s, i, k, u);
    s := TakeOut(c, start, plan, s, g);
  }

  /** The consumer was last given v, after which u was committed and offered. */
  predicate Parted(s: State, k: Key, v: Value, u: Value) {
    && LastValue(Delivered(s.log, k, true)) == Some(v)
    && Lookup(s.last, k) == Some(u) && LastValue(Offered(s.offered, k, true)) == Some(u)
  }

  /** Two flushing threads can publish in the other order than they take out: with a single poller, without any
      failure, the consumer is left with the older value. */
  lemma FlushesCross(c: Config, start: State, plan: Plan, i: nat, f: nat, g: nat, k: Key, v: Value, u: Value) returns (r: State)
    requires FirstPublishes(c) && c.batched && c.gate(k, Some(v), u) && PollAndTwoFlushes(start, plan, i, f, g, k)
    ensures Reachable(c, start, plan, r) && Flushed(r, k)
    ensures Parted(r, k, v, u)
  {
    var s := BothTakeOut(c, start, plan, i, f, g, k, v, u);
    var m := PublishOut(c, start, plan, s, g, k, Sample(Some(u)));
    r := PublishOut(c, start, plan, m, f, k, Sample(Some(v)));
    ThreeIdle(start, r, i, f, g, k);
  }

  lemma ThreeIdle(start: State, s: State, i: nat, f: nat, g: nat, k: Key)
    requires Init(start) && OnlyThree(start, s, i, f, g) && i < |s.threads| && f < |s.threads| && g < |s.threads|
    requires s.threads[i].stage.Idle? && s.threads[f].stage.Idle? && s.threads[g].stage.Idle? && s.pending == []
    ensures Flushed(s, k)
  {
    forall t | t in s.threads ensures t.stage.Idle? {
      var m :| 0 <= m < |s.threads| && s.threads[m] == t;
      if m != i && m != f && m != g { IdleAtStart(start, m); }
    }
  }

  /** A poll group, the tick and stop. */
  const STOPPING: seq<Thread> :=
    [Thread(PollGroup, false, false, Idle), Thread(Tick, false, false, Idle), Thread(Stopper, false, false, Idle)]

  /** Stop overtakes the tick: one thread polls, nothing fails, everything has been published, and the consumer is
      left with the older value v while the cache holds u; nor was the key delivered in offer order. */
  lemma StopOvertakesTick(c: Config, k: Key, v: Value, u: Value) returns (states: seq<State>, acts: seq<Action>)
    requires FirstPublishes(c) && c.batched && v != u && c.gate(k, Some(v), u)
    ensures Run(c, states, acts) && NeverFails(acts) && states[0].threads == STOPPING && Flushed(states[|acts|], k)
    ensures LastValue(Delivered(states[|acts|].log, k, true)) == Some(v) && Lookup(states[|acts|].last, k) == Some(u)
    ensures !Ordered(states[|acts|], k, true)
  {
    var start := State(false, map[], map[], [], [], STOPPING, [], [], 0, 0);
    var plan: Plan := (i, k) => true;
    var r := FlushesCross(c, start, plan, 0, 1, 2, k, v, u);
    Unordered(r, k);
    states, acts :| RunTo(c, start, plan, states, acts, r);
  }

  lemma Unordered(s: State, k: Key)
    requires Flushed(s, k) && LastValue(Delivered(s.log, k, true)) != LastValue(Offered(s.offered, k, true))
    ensures !Ordered(s, k, true)
  {
    FlightsNone(s.threads, k, true);
    NoKeyBuffersNothing(s.pending, k, true);
    NothingLast(Delivered(s.log, k, true), [], []);
  }

  // ---- exactly when ----

  /** Some thread flushes, and some thread polls the key. */
  predicate InUse(start: State, plan: Plan, k: Key) {
    && (exists f :: 0 <= f < |start.threads| && !Polls(start.threads[f].role))
    && (exists i :: 0 <= i < |start.threads| && Assigned(start, plan, i, k))
  }

  lemma TwoFlushers(start: State) returns (f: nat, g: nat)
    requires !OneFlusher(start)
    ensures f < g < |start.threads| && !Polls(start.threads[f].role) && !Polls(start.threads[g].role)
  {
    f, g :| 0 <= f < g < |start.threads| && !(Polls(start.threads[f].role) || Polls(start.threads[g].role));
  }

  /** Two flushing threads lose the view and the order of a key that is in use. */
  lemma TwoFlushersLose(c: Config, start: State, plan: Plan, k: Key) returns (r: State)
    requires FirstPublishes(c) && Init(start) && c.batched && InUse(start, plan, k) && Republishes(c, k) && !OneFlusher(start)
    ensures Reachable(c, start, plan, r) && Flushed(r, k) && !View(c, r, k) && !Ordered(r, k, true)
  {
    var v, u :| v != u && c.gate(k, Some(v), u);
    var i :| 0 <= i < |start.threads| && Assigned(start, plan, i, k);
    var f, g := TwoFlushers(start);
    r := FlushesCross(c, start, plan, i, f, g, k, v, u);
    Unordered(r, k);
  }

  /** Exactly when a batched device delivers a key in use in offer order: when one thread flushes. */
  lemma OrderExactlyOneFlusher(c: Config, start: State, plan: Plan, k: Key)
    requires FirstPublishes(c) && Init(start) && c.batched && InUse(start, plan, k) && Republishes(c, k)
    ensures (forall s :: Reachable(c, start, plan, s) ==> Ordered(s, k, true)) <==> OneFlusher(start)
  {
    if OneFlusher(start) {
      forall s | Reachable(c, start, plan, s) ensures Ordered(s, k, true) {
        var states, acts :| RunTo(c, start, plan, states, acts, s);
        PlanKeepsOrder(c, plan, states, acts, k, true);
      }
    } else {
      var r := TwoFlushersLose(c, start, plan, k);
    }
  }

  lemma PrefixReachable(c: Config, start: State, plan: Plan, states: seq<State>, acts: seq<Action>, s: State, n: nat)
    requires RunTo(c, start, plan, states, acts, s) && n <= |acts|
    ensures Reachable(c, start, plan, states[n])
  {
    Conservation.RunPrefix(c, states, acts, n);
    assert RunTo(c, start, plan, states[..n + 1], acts[..n], states[n]);
  }

  lemma ConcertedView(c: Config, start: State, plan: Plan, s: State, k: Key)
    requires FirstPublishes(c) && c.batched && OneFlusher(start) && Reachable(c, start, plan, s) && Flushed(s, k)
    requires forall r :: Reachable(c, start, plan, r) ==> Concerted(c, r, k)
    ensures View(c, s, k)
  {
    var states, acts :| RunTo(c, start, plan, states, acts, s);
    forall m | m in states ensures Concerted(c, m, k) {
      var n :| 0 <= n < |states| && states[n] == m;
      PrefixReachable(c, start, plan, states, acts, s, n);
    }
    PlanKeepsApart(c, plan, states, acts, k);
    ConsumerSeesCache(c, states, acts, k);
  }

  lemma ViewConcerts(c: Config, start: State, plan: Plan, s: State, f: nat, k: Key)
    requires Reachable(c, start, plan, s) && c.batched && Flusher(start, f)
    requires forall r :: Reachable(c, start, plan, r) && Flushed(r, k) ==> View(c, r, k)
    ensures Concerted(c, s, k)
  {
    forall t, u | t in s.threads && u in s.threads && Window(t.stage, k) && Window(u.stage, k)
      ensures WindowValue(t.stage) == WindowValue(u.stage)
    {
      var i :| 0 <= i < |s.threads| && s.threads[i] == t;
      var j :| 0 <= j < |s.threads| && s.threads[j] == u;
      if WindowValue(t.stage) != WindowValue(u.stage) { var r := OverlapBreaksView(c, start, plan, s, i, j, f, k); }
    }
    forall t | t in s.threads && Passing(t.stage, k) ensures SettledBy(c, k, Some(t.stage.v), Lookup(s.latest, k)) {
      var i :| 0 <= i < |s.threads| && s.threads[i] == t;
      if !SettledBy(c, k, Some(t.stage.v), Lookup(s.latest, k)) { var r := UnsettledBreaksView(c, start, plan, s, i, f, k); }
    }
  }

  /** Exactly when the view of a key in use holds on a batched device, over the states of the threads: every flushed
      state shows the consumer the cached value and the latest value settled by it, if and only if one thread
      flushes, and in every reachable state the threads publishing the key agree and settle the latest value. */
  lemma ViewExactlyConcerted(c: Config, start: State, plan: Plan, k: Key)
    requires FirstPublishes(c) && Init(start) && c.batched && InUse(start, plan, k) && Republishes(c, k)
    ensures (forall s :: Reachable(c, start, plan, s) && Flushed(s, k) ==> View(c, s, k))
      <==> OneFlusher(start) && forall s :: Reachable(c, start, plan, s) ==> Concerted(c, s, k)
  {
    if !OneFlusher(start) {
      var r := TwoFlushersLose(c, start, plan, k);
    } else {
      var f :| 0 <= f < |start.threads| && !Polls(start.threads[f].role);
      if forall s :: Reachable(c, start, plan, s) && Flushed(s, k) ==> View(c, s, k) {
        forall s | Reachable(c, start, plan, s) ensures Concerted(c, s, k) { ViewConcerts(c, start, plan, s, f, k); }
      }
      if forall s :: Reachable(c, start, plan, s) ==> Concerted(c, s, k) {
        forall s | Reachable(c, start, plan, s) && Flushed(s, k) ensures View(c, s, k) {
          ConcertedView(c, start, plan, s, k);
        }
      }
    }
  }

  /** Two threads that poll the key lose the view. */
  lemma TwoPollersLose(c: Config, start: State, plan: Plan, k: Key) returns (r: State)
    requires FirstPublishes(c) && Init(start) && !OnePoller(start, plan, k)
    requires c.batched ==> OneFlusher(start) && exists f :: 0 <= f < |start.threads| && !Polls(start.threads[f].role)
    ensures Reachable(c, start, plan, r) && Flushed(r, k) && !View(c, r, k)
  {
    var i, j :| 0 <= i < j < |start.threads| && Assigned(start, plan, i, k) && Assigned(start, plan, j, k);
    var s := BothDecide(c, start, plan, i, j, k, IntV(0), IntV(1));
    if c.batched {
      var f :| 0 <= f < |start.threads| && !Polls(start.threads[f].role);
      r := OverlapBreaksView(c, start, plan, s, i, j, f, k);
    } else {
      r := SendsCross(c, start, plan, s, i, j, k);
    }
  }

  /** Exactly when the view holds, over the threads and their plan alone: every flushed state shows the consumer the
      cached value and the latest value settled by it, if and only if at most one thread polls the key and, with
      batching, at most one flushes. A repoll polls every key beside the groups, and stop flushes beside the tick. */
  lemma ViewExactly(c: Config, start: State, plan: Plan, k: Key)
    requires FirstPublishes(c) && Init(start) && (c.batched ==> InUse(start, plan, k) && Republishes(c, k))
    ensures (forall s :: Reachable(c, start, plan, s) && Flushed(s, k) ==> View(c, s, k))
      <==> OnePoller(start, plan, k) && (c.batched ==> OneFlusher(start))
  {
    if c.batched && !OneFlusher(start) {
      var r := TwoFlushersLose(c, start, plan, k);
    } else if !OnePoller(start, plan, k) {
      var r := TwoPollersLose(c, start, plan, k);
    } else {
      forall s | Reachable(c, start, plan, s) && Flushed(s, k) ensures View(c, s, k) {
        OnePollerKeepsView(c, start, plan, s, k);
      }
    }
  }

  /** The same for the adapter's own filters, with nothing assumed of them. */
  lemma AdapterViewExactly(p: Platform, batched: bool, modes: Key -> PublishMode, bands: Key -> DeadbandSpec,
                           start: State, plan: Plan, k: Key)
    requires Init(start) && (batched ==> InUse(start, plan, k))
    ensures var c := AdapterConfig(p, batched, modes, bands);
      (forall s :: Reachable(c, start, plan, s) && Flushed(s, k) ==> View(c, s, k))
      <==> OnePoller(start, plan, k) && (batched ==> OneFlusher(start))
  {
    AdapterPublishesFirst(p, batched, modes, bands);
    AdapterRepublishes(p, batched, modes, bands, k);
    ViewExactly(AdapterConfig(p, batched, modes, bands), start, plan, k);
  }
}

/** Where the consumer view fails: a repoll can overlap the timer (modbus_adapter/command_service.py:427-437
    calls poll_once from the command thread). */
module Overlap {
  import opened Values
  import opened Publisher
  import opened Runtime
  import opened Ordering
  import opened ConsumerView
  import opened Schedules

  // ---- letting the flushing thread run ----

  /** From s to r only thread f has moved, and nothing was read, cached or offered. */
  predicate Beside(s: State, r: State, f: nat) {
    && f < |s.threads| == |r.threads| && r.threads == s.threads[f := r.threads[f]]
    && r.threads[f].role == s.threads[f].role
    && r.last == s.last && r.latest == s.latest && r.offered == s.offered
  }

  lemma BesideTwice(s: State, m: State, r: State, f: nat)
    requires Beside(s, m, f) && Beside(m, r, f)
    ensures Beside(s, r, f)
  {
    assert s.threads[f := m.threads[f]][f := r.threads[f]] == s.threads[f := r.threads[f]];
  }

  lemma OnwardBeside(c: Config, s: State, f: nat)
    requires f < |s.threads| && !Unflushed(s.threads[f].stage)
    ensures var a := Onward(s.threads[f].stage, f);
      Enabled(s, a) && Beside(s, Step(c, s, a), f) && Step(c, s, a).pending == s.pending
  {
  }

  lemma RunsToIdle(c: Config, start: State, plan: Plan, s: State, f: nat) returns (r: State)
    requires Reachable(c, start, plan, s) && f < |s.threads|
    requires s.threads[f].stage.Idle? || !Unflushed(s.threads[f].stage)
    ensures Reachable(c, start, plan, r) && Beside(s, r, f) && r.pending == s.pending && r.threads[f].stage.Idle?
    decreases Distance(s.threads[f].stage)
  {
    if s.threads[f].stage.Idle? {
      r := s;
    } else {
      var a := Onward(s.threads[f].stage, f);
      OnwardBeside(c, s, f);
      OnwardCloser(c, s, f);
      StepThreads(c, s, a);
      Advance(c, start, plan, s, a);
      r := RunsToIdle(c, start, plan, Step(c, s, a), f);
      BesideTwice(s, Step(c, s, a), r, f);
    }
  }

  lemma BesideStep(c: Config, start: State, plan: Plan, s: State, a: Action, f: nat)
    requires Reachable(c, start, plan, s) && f < |s.threads| && Enabled(s, a)
    requires a == SetPause(false) || a == End(f) || a == Check(f) || a == Swap(f)
    ensures Reachable(c, start, plan, Step(c, s, a)) && Beside(s, Step(c, s, a), f)
    ensures a == Swap(f) ==> Step(c, s, a).pending == [] && Step(c, s, a).threads[f].stage.Flushing?
    ensures a != Swap(f) ==> Step(c, s, a).threads[f].stage == s.threads[f].stage
    ensures a == SetPause(false) ==> !Step(c, s, a).paused && Step(c, s, a).threads == s.threads
    ensures a == End(f) ==> !Step(c, s, a).threads[f].admitted
    ensures a == Check(f) && !s.paused ==> Step(c, s, a).threads[f].admitted && !Step(c, s, a).threads[f].swapped
    ensures a.End? ==> Step(c, s, a).paused == s.paused
  {
    Advance(c, start, plan, s, a);
  }

  /** The tick can be brought to its flush: the latch released, the old cycle ended, the check passed. */
  lemma ReadyToSwap(c: Config, start: State, plan: Plan, s: State, f: nat) returns (r: State)
    requires Reachable(c, start, plan, s) && f < |s.threads| && s.threads[f].stage.Idle? && s.threads[f].role == Tick
    ensures Reachable(c, start, plan, r) && Beside(s, r, f) && Enabled(r, Swap(f))
  {
    BesideStep(c, start, plan, s, SetPause(false), f);
    r := Step(c, s, SetPause(false));
    if r.threads[f].admitted {
      var m := Step(c, r, End(f));
      BesideStep(c, start, plan, r, End(f), f);
      BesideTwice(s, r, m, f);
      r := m;
    }
    var m := Step(c, r, Check(f));
    BesideStep(c, start, plan, r, Check(f), f);
    BesideTwice(s, r, m, f);
    r := m;
  }

  lemma SwapOut(c: Config, start: State, plan: Plan, s: State, f: nat) returns (r: State)
    requires Reachable(c, start, plan, s) && f < |s.threads| && Enabled(s, Swap(f))
    ensures Reachable(c, start, plan, r) && Beside(s, r, f) && r.pending == [] && r.threads[f].stage.Idle?
  {
    BesideStep(c, start, plan, s, Swap(f), f);
    r := RunsToIdle(c, start, plan, Step(c, s, Swap(f)), f);
    BesideTwice(s, Step(c, s, Swap(f)), r, f);
  }

  /** From every reachable state the flushing thread can empty the buffer. */
  lemma FlushOut(c: Config, start: State, plan: Plan, s: State, f: nat) returns (r: State)
    requires Reachable(c, start, plan, s) && f < |start.threads| && !Polls(start.threads[f].role)
    ensures Reachable(c, start, plan, r) && Beside(s, r, f) && r.pending == [] && r.threads[f].stage.Idle?
  {
    ReachableOrderly(c, start, plan, s, (0, ""));
    assert DividedThread(c, s.threads[f]);
    var m := RunsToIdle(c, start, plan, s, f);
    if m.threads[f].role == Tick {
      var n := ReadyToSwap(c, start, plan, m, f);
      BesideTwice(s, m, n, f);
      r := SwapOut(c, start, plan, n, f);
      BesideTwice(s, n, r, f);
    } else {
      r := SwapOut(c, start, plan, m, f);
      BesideTwice(s, m, r, f);
    }
  }

  lemma ReachableOrderly(c: Config, start: State, plan: Plan, s: State, k: Key)
    requires Reachable(c, start, plan, s)
    ensures Orderly(c, start, plan, s, k)
  {
    var states, acts :| RunTo(c, start, plan, states, acts, s);
    OrderlyAt(c, plan, states, acts, k, |acts|);
  }

  // ---- closing windows ----

  /** From s to r only thread i has moved, and no value was decoded. */
  predicate Apart(s: State, r: State, i: nat) {
    && i < |s.threads| == |r.threads| && r.threads == s.threads[i := r.threads[i]] && r.latest == s.latest
  }

  lemma CommitStep(c: Config, start: State, plan: Plan, s: State, i: nat, k: Key) returns (r: State)
    requires Reachable(c, start, plan, s) && i < |s.threads| && Window(s.threads[i].stage, k)
    ensures Reachable(c, start, plan, r) && Apart(s, r, i) && r.offered == s.offered && r.log == s.log && r.pending == s.pending
    ensures r.threads[i].stage == Offering(k, Sample(WindowValue(s.threads[i].stage)))
    ensures Lookup(r.last, k) == if Passing(s.threads[i].stage, k) then WindowValue(s.threads[i].stage) else Lookup(s.last, k)
  {
    if s.threads[i].stage.Deciding? {
      Advance(c, start, plan, s, Commit(i));
      r := Step(c, s, Commit(i));
    } else {
      r := s;
    }
  }

  lemma OfferStep(c: Config, start: State, plan: Plan, s: State, i: nat, k: Key) returns (r: State)
    requires Reachable(c, start, plan, s) && c.batched && i < |s.threads| && Holding(s.threads[i].stage, k)
    ensures Reachable(c, start, plan, r) && Apart(s, r, i) && r.threads[i].stage.Idle? && r.last == s.last
    ensures LastValue(Offered(r.offered, k, true)) == WindowValue(s.threads[i].stage)
  {
    Advance(c, start, plan, s, Offer(i));
    r := Step(c, s, Offer(i));
    OfferedAppend(s.offered, k, s.threads[i].stage.x, k, true);
  }

  /** All windows of the key but those of the kept threads can be closed without decoding anything. */
  lemma CloseWindows(c: Config, start: State, plan: Plan, s: State, k: Key, keep: set<nat>, n: nat) returns (r: State)
    requires Reachable(c, start, plan, s) && c.batched && n <= |s.threads|
    ensures Reachable(c, start, plan, r) && |r.threads| == |s.threads| && r.latest == s.latest
    ensures forall m :: 0 <= m < |s.threads| && (m in keep || n <= m) ==> r.threads[m] == s.threads[m]
    ensures forall m :: 0 <= m < n && m !in keep ==> !Window(r.threads[m].stage, k)
  {
    if n == 0 {
      r := s;
    } else {
      r := CloseWindows(c, start, plan, s, k, keep, n - 1);
      if n - 1 !in keep && Window(r.threads[n - 1].stage, k) {
        var m := CommitStep(c, start, plan, r, n - 1, k);
        r := OfferStep(c, start, plan, m, n - 1, k);
      }
    }
  }

  /** Two threads about to publish different values can offer in the other order than they commit. */
  lemma OffersCross(c: Config, start: State, plan: Plan, s: State, i: nat, j: nat, k: Key) returns (r: State)
    requires Reachable(c, start, plan, s) && c.batched && i < |s.threads| && j < |s.threads| && i != j
    requires Window(s.threads[i].stage, k) && Window(s.threads[j].stage, k)
    requires WindowValue(s.threads[i].stage) != WindowValue(s.threads[j].stage)
    ensures Reachable(c, start, plan, r) && |r.threads| == |s.threads| && r.threads[i].stage.Idle? && r.threads[j].stage.Idle?
    ensures forall m :: 0 <= m < |s.threads| && m != i && m != j ==> r.threads[m] == s.threads[m]
    ensures Lookup(r.last, k) != LastValue(Offered(r.offered, k, true))
    ensures Passing(s.threads[i].stage, k) && Passing(s.threads[j].stage, k) ==>
      Lookup(r.last, k) == WindowValue(s.threads[j].stage)
      && LastValue(Offered(r.offered, k, true)) == WindowValue(s.threads[i].stage)
  {
    var m := CommitStep(c, start, plan, s, i, k);
    m := CommitStep(c, start, plan, m, j, k);
    if Lookup(m.last, k) == WindowValue(s.threads[j].stage) {
      r := OfferStep(c, start, plan, m, j, k);
      r := OfferStep(c, start, plan, r, i, k);
    } else {
      r := OfferStep(c, start, plan, m, i, k);
      r := OfferStep(c, start, plan, r, j, k);
    }
  }

  // ---- the consumer sees it ----

  predicate Flusher(start: State, f: nat) { f < |start.threads| && !Polls(start.threads[f].role) && OneFlusher(start) }

  /** Once no window of the key is open the flushing thread can bring about a flushed state, in which the
      consumer has been given the last value offered. */
  lemma Deliver(c: Config, start: State, plan: Plan, s: State, f: nat, k: Key) returns (r: State)
    requires Reachable(c, start, plan, s) && c.batched && Flusher(start, f)
    requires forall m :: 0 <= m < |s.threads| ==> !Window(s.threads[m].stage, k)
    ensures Reachable(c, start, plan, r) && Flushed(r, k) && r.last == s.last && r.latest == s.latest
    ensures LastValue(Delivered(r.log, k, true)) == LastValue(Offered(s.offered, k, true))
  {
    r := FlushOut(c, start, plan, s, f);
    ReachableOrderly(c, start, plan, r, k);
    forall t | t in r.threads ensures !Window(t.stage, k) && !Carries(t.stage, k) {
      var m :| 0 <= m < |r.threads| && r.threads[m] == t;
      CarrierKind(c, start, plan, r, m, k);
      assert m != f ==> Polls(start.threads[m].role);
    }
    var states, acts :| RunTo(c, start, plan, states, acts, r);
    PlanKeepsApart(c, plan, states, acts, k);
    FlushedDelivers(c, states, acts, k);
  }

  /** From every reachable state in which two threads are about to publish different values of the key, the run can
      go on to a flushed state in which the consumer was not last given the cached value. */
  lemma OverlapBreaksView(c: Config, start: State, plan: Plan, s: State, i: nat, j: nat, f: nat, k: Key) returns (r: State)
    requires Reachable(c, start, plan, s) && c.batched && Flusher(start, f)
    requires i < |s.threads| && j < |s.threads| && Window(s.threads[i].stage, k) && Window(s.threads[j].stage, k)
    requires WindowValue(s.threads[i].stage) != WindowValue(s.threads[j].stage)
    ensures Reachable(c, start, plan, r) && Flushed(r, k)
    ensures LastValue(Delivered(r.log, k, true)) != Lookup(r.last, k)
  {
    var m := CloseWindows(c, start, plan, s, k, {i, j}, |s.threads|);
    m := OffersCross(c, start, plan, m, i, j, k);
    r := Deliver(c, start, plan, m, f, k);
  }

  /** From every reachable state in which the latest decoded value is not settled by a value about to be
      committed, the run can go on to a flushed state in which it exceeds the filter from what the consumer was
      last given. */
  lemma UnsettledBreaksView(c: Config, start: State, plan: Plan, s: State, i: nat, f: nat, k: Key) returns (r: State)
    requires Reachable(c, start, plan, s) && c.batched && Flusher(start, f)
    requires i < |s.threads| && Passing(s.threads[i].stage, k)
    requires !SettledBy(c, k, Some(s.threads[i].stage.v), Lookup(s.latest, k))
    ensures Reachable(c, start, plan, r) && Flushed(r, k) && !Settled(c, r, k)
  {
    var m := CloseWindows(c, start, plan, s, k, {i}, |s.threads|);
    m := CommitStep(c, start, plan, m, i, k);
    m := OfferStep(c, start, plan, m, i, k);
    r := Deliver(c, start, plan, m, f, k);
  }

  // ---- two threads that poll the key ----

  /** An idle thread passes the check and starts to read. */
  lemma ReadStep(c: Config, start: State, plan: Plan, s: State, i: nat, k: Key) returns (r: State)
    requires Reachable(c, start, plan, s) && i < |start.threads| == |s.threads| && Assigned(start, plan, i, k) && !s.paused
    requires s.threads[i] == Thread(start.threads[i].role, false, false, Idle)
    ensures Reachable(c, start, plan, r) && |r.threads| == |s.threads| && r == s.(threads := s.threads[i := r.threads[i]])
    ensures r.threads[i].stage == Reading(k)
  {
    Advance(c, start, plan, s, Check(i));
    var m := Step(c, s, Check(i));
    Advance(c, start, plan, m, Start(i, k));
    r := Step(c, m, Start(i, k));
    assert r.threads == s.threads[i := r.threads[i]];
  }

  lemma FirstValue(c: Config, start: State, plan: Plan, s: State, i: nat, k: Key, v: Value) returns (r: State)
    requires Reachable(c, start, plan, s) && FirstPublishes(c) && k !in s.last
    requires i < |s.threads| && s.threads[i].stage == Reading(k)
    ensures Reachable(c, start, plan, r) && |r.threads| == |s.threads|
    ensures r == s.(threads := s.threads[i := r.threads[i]], latest := s.latest[k := v])
    ensures r.threads[i].stage == Deciding(k, v)
  {
    Advance(c, start, plan, s, Finish(i, Some(v)));
    r := Step(c, s, Finish(i, Some(v)));
  }

  /** Nothing but two threads has moved since the start. */
  predicate OnlyTwo(start: State, s: State, i: nat, j: nat) {
    && |s.threads| == |start.threads|
    && forall m :: 0 <= m < |s.threads| && m != i && m != j ==> s.threads[m] == start.threads[m]
  }

  lemma IdleAtStart(start: State, i: nat)
    requires Init(start) && i < |start.threads|
    ensures start.threads[i] == Thread(start.threads[i].role, false, false, Idle)
  {
    assert start.threads[i] in start.threads;
  }

  /** Two threads that poll the same key can both be waiting for the device, and then decide on different
      values. */
  lemma BothDecide(c: Config, start: State, plan: Plan, i: nat, j: nat, k: Key, v: Value, u: Value) returns (s: State)
    requires Init(start) && FirstPublishes(c) && i < |start.threads| && j < |start.threads| && i != j
    requires Assigned(start, plan, i, k) && Assigned(start, plan, j, k)
    ensures Reachable(c, start, plan, s) && OnlyTwo(start, s, i, j)
    ensures s.threads[i].stage == Deciding(k, v) && s.threads[j].stage == Deciding(k, u)
    ensures s.log == [] && s.pending == []
  {
    StartReachable(c, start, plan);
    IdleAtStart(start, i);
    IdleAtStart(start, j);
    s := ReadStep(c, start, plan, start, i, k);
    s := ReadStep(c, start, plan, s, j, k);
    s := FirstValue(c, start, plan, s, i, k, v);
    s := FirstValue(c, start, plan, s, j, k, u);
  }

  /** Without batching a thread sends what it offers. */
  lemma SendStep(c: Config, start: State, plan: Plan, s: State, i: nat, k: Key) returns (r: State)
    requires Reachable(c, start, plan, s) && !c.batched && i < |s.threads| && Holding(s.threads[i].stage, k)
    ensures Reachable(c, start, plan, r) && Apart(s, r, i) && r.threads[i].stage.Idle? && r.last == s.last && r.pending == s.pending
    ensures LastValue(Delivered(r.log, k, true)) == WindowValue(s.threads[i].stage)
  {
    var x := s.threads[i].stage.x;
    Advance(c, start, plan, s, Offer(i));
    var m := Step(c, s, Offer(i));
    DirectOfferFrame(c, s, Offer(i));
    OneValued(k, x, s.log);
    SendOne(c, m, i, k, x);
    Advance(c, start, plan, m, Send(i, false));
    r := SendEnds(c, start, plan, Step(c, m, Send(i, false)), i, k);
    ThreeUpdates(s.threads, i, m.threads[i], Step(c, m, Send(i, false)).threads[i], r.threads[i]);
  }

  lemma SendOne(c: Config, s: State, i: nat, k: Key, x: Sample)
    requires i < |s.threads| && s.threads[i].stage == SendValued(Entry(k, [x]), []) && x.value.Some?
    ensures var r := Step(c, s, Send(i, false));
      && r.threads == s.threads[i := s.threads[i].(stage := SendValueless(Entry(k, []), [], 1))]
      && r.log == s.log + [Message(k, [x])] && r.last == s.last && r.latest == s.latest && r.pending == s.pending
      && r.offered == s.offered
  {
    OneValued(k, x, s.log);
  }

  lemma ThreeUpdates<T>(s: seq<T>, i: nat, x: T, y: T, z: T)
    requires i < |s|
    ensures s[i := x][i := y][i := z] == s[i := z]
  {
  }

  lemma SendEnds(c: Config, start: State, plan: Plan, s: State, i: nat, k: Key) returns (r: State)
    requires Reachable(c, start, plan, s) && i < |s.threads| && s.threads[i].stage == SendValueless(Entry(k, []), [], 1)
    ensures Reachable(c, start, plan, r) && Apart(s, r, i) && r.threads[i].stage.Idle?
    ensures r.last == s.last && r.pending == s.pending && r.log == s.log && r.offered == s.offered
  {
    Advance(c, start, plan, s, Send(i, false));
    NothingSent(c, s, Send(i, false), i);
    var m := Step(c, s, Send(i, false));
    assert m.threads[i].stage == Closing([], 1);
    Advance(c, start, plan, m, Close(i));
    NothingSent(c, m, Close(i), i);
    var n := Step(c, m, Close(i));
    Advance(c, start, plan, n, Done(i));
    NothingSent(c, n, Done(i), i);
    r := Step(c, n, Done(i));
    ThreeUpdates(s.threads, i, m.threads[i], n.threads[i], r.threads[i]);
  }

  /** Steps that end a publication without sending anything. */
  lemma NothingSent(c: Config, s: State, a: Action, i: nat)
    requires Enabled(s, a) && i < |s.threads|
    requires a == Close(i) || a == Done(i)
      || (a == Send(i, false) && s.threads[i].stage.SendValueless? && s.threads[i].stage.entry.samples == [])
    ensures var r := Step(c, s, a);
      Apart(s, r, i) && r.last == s.last && r.pending == s.pending && r.log == s.log && r.offered == s.offered
    ensures a == Send(i, false) ==> Step(c, s, a).threads[i].stage == Closing(s.threads[i].stage.queue, s.threads[i].stage.samples)
    ensures a == Close(i) ==> Step(c, s, a).threads[i].stage == Flushing(s.threads[i].stage.queue)
    ensures a == Done(i) ==> Step(c, s, a).threads[i].stage == Idle
  {
  }

  lemma OneValued(k: Key, x: Sample, log: seq<Message>)
    requires x.value.Some?
    ensures OfKind([x], true) == [x] && OfKind([x], false) == []
    ensures LastValue(Delivered(log + [Message(k, [x])], k, true)) == x.value
  {
    OfKindAppend([], x, true);
    OfKindAppend([], x, false);
    assert [] + [x] == [x];
    DeliveredAppend(log, Message(k, [x]), k, true);
  }

  /** The same without batching: each thread sends its own value, in the other order than they commit. */
  lemma SendsCross(c: Config, start: State, plan: Plan, s: State, i: nat, j: nat, k: Key) returns (r: State)
    requires Reachable(c, start, plan, s) && !c.batched && Init(start)
    requires i < |start.threads| && j < |start.threads| && i != j && OnlyTwo(start, s, i, j) && s.pending == []
    requires Passing(s.threads[i].stage, k) && Passing(s.threads[j].stage, k)
    ensures Reachable(c, start, plan, r) && Flushed(r, k)
    ensures Lookup(r.last, k) == WindowValue(s.threads[j].stage)
    ensures LastValue(Delivered(r.log, k, true)) == WindowValue(s.threads[i].stage)
  {
    r := CommitStep(c, start, plan, s, i, k);
    r := CommitStep(c, start, plan, r, j, k);
    r := SendStep(c, start, plan, r, j, k);
    r := SendStep(c, start, plan, r, i, k);
    IdleFlushed(start, r, i, j, k);
  }

  lemma IdleFlushed(start: State, s: State, i: nat, j: nat, k: Key)
    requires Init(start) && OnlyTwo(start, s, i, j) && i < |s.threads| && j < |s.threads| && s.pending == []
    requires s.threads[i].stage.Idle? && s.threads[j].stage.Idle?
    ensures Flushed(s, k)
  {
    forall t | t in s.threads ensures t.stage.Idle? {
      var m :| 0 <= m < |s.threads| && s.threads[m] == t;
      if m != i && m != j { IdleAtStart(start, m); }
    }
  }

  /** Two threads that decide on different values bring the consumer and the cache apart: with a flushing thread, or
      each sending its own. */
  lemma DecisionsCross(c: Config, start: State, plan: Plan, s: State, i: nat, j: nat, f: nat, k: Key) returns (r: State)
    requires Reachable(c, start, plan, s) && Init(start) && (c.batched ==> Flusher(start, f) && f != i && f != j)
    requires i < |start.threads| && j < |start.threads| && i != j && OnlyTwo(start, s, i, j) && s.pending == []
    requires Passing(s.threads[i].stage, k) && Passing(s.threads[j].stage, k)
    requires WindowValue(s.threads[i].stage) != WindowValue(s.threads[j].stage)
    ensures Reachable(c, start, plan, r) && Flushed(r, k)
    ensures Lookup(r.last, k) == WindowValue(s.threads[j].stage)
    ensures LastValue(Delivered(r.log, k, true)) == WindowValue(s.threads[i].stage)
  {
    if c.batched {
      var m := OffersCross(c, start, plan, s, i, j, k);
      forall n | 0 <= n < |m.threads| && n != i && n != j ensures !Window(m.threads[n].stage, k) { IdleAtStart(start, n); }
      r := Deliver(c, start, plan, m, f, k);
    } else {
      r := SendsCross(c, start, plan, s, i, j, k);
    }
  }

  /** A timer, a repoll and a tick. */
  const TIMER_AND_REPOLL: seq<Thread> :=
    [Thread(PollGroup, false, false, Idle), Thread(Repoll, false, false, Idle), Thread(Tick, false, false, Idle)]

  /** A timer and a repoll that read the same key at the same time: nothing fails, everything has been published, and
      the consumer is left with the older value v while the cache holds u. */
  lemma RepollOverlapsTimer(c: Config, k: Key, v: Value, u: Value) returns (states: seq<State>, acts: seq<Action>)
    requires FirstPublishes(c) && v != u
    ensures Run(c, states, acts) && NeverFails(acts) && Flushed(states[|acts|], k)
    ensures states[0].threads == TIMER_AND_REPOLL
    ensures LastValue(Delivered(states[|acts|].log, k, true)) == Some(v) && Lookup(states[|acts|].last, k) == Some(u)
  {
    var start := State(false, map[], map[], [], [], TIMER_AND_REPOLL, [], [], 0, 0);
    var plan: Plan := (i, k) => true;
    var s := BothDecide(c, start, plan, 0, 1, k, v, u);
    var r := DecisionsCross(c, start, plan, s, 0, 1, 2, k);
    states, acts :| RunTo(c, start, plan, states, acts, r);
  }
}

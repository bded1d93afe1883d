/** What the last delivered value of a signal says about the cache and about the device. */
module ConsumerView {
  import opened Values
  import opened Deadband
  import opened Publisher
  import opened Runtime
  import opened Conservation
  import opened Ordering

  /** A committed value on its way to the publisher. */
  predicate Holding(stage: Stage, k: Key) { stage.Offering? && stage.key == k && stage.x.value.Some? }

  /** A decoded value that passed the filter and is not yet committed. */
  predicate Passing(stage: Stage, k: Key) { stage.Deciding? && stage.key == k }

  /** From the decision to publish a value of a key to its offer. */
  predicate Window(stage: Stage, k: Key) { Holding(stage, k) || Passing(stage, k) }

  function WindowValue(stage: Stage): Option<Value> {
    if stage.Offering? then stage.x.value else if stage.Deciding? then Some(stage.v) else None
  }

  function LastValue(samples: seq<Sample>): Option<Value> {
    if samples == [] then None else samples[|samples| - 1].value
  }

  /** The decoded value is the published one or does not exceed the filter from it. */
  predicate SettledBy(c: Config, k: Key, last: Option<Value>, latest: Option<Value>) {
    latest == last || (latest.Some? && last.Some? && !c.gate(k, last, latest.value))
  }

  predicate Settled(c: Config, s: State, k: Key) { SettledBy(c, k, Lookup(s.last, k), Lookup(s.latest, k)) }

  // ---- what has to hold between threads ----

  /** Threads that are publishing a value of the key at the same time publish the same one. */
  ghost predicate WindowsAgree(s: State, k: Key) {
    forall t, u :: t in s.threads && u in s.threads && Window(t.stage, k) && Window(u.stage, k) ==>
      WindowValue(t.stage) == WindowValue(u.stage)
  }

  /** The latest decoded value is settled by every value that is about to be committed. */
  ghost predicate WindowsSettle(c: Config, s: State, k: Key) {
    forall t :: t in s.threads && Passing(t.stage, k) ==> SettledBy(c, k, Some(t.stage.v), Lookup(s.latest, k))
  }

  ghost predicate Concerted(c: Config, s: State, k: Key) { WindowsAgree(s, k) && WindowsSettle(c, s, k) }

  ghost predicate AlwaysConcerted(c: Config, states: seq<State>, k: Key) {
    forall s :: s in states ==> Concerted(c, s, k)
  }

  // ---- the adapter's filter ----

  /** The first value of a key is always published. */
  ghost predicate FirstPublishes(c: Config) { forall k, v :: c.gate(k, None, v) }

  /** The adapter's filter: each key has its publish mode and deadband. */
  function AdapterConfig(p: Platform, batched: bool, modes: Key -> PublishMode, bands: Key -> DeadbandSpec): Config {
    Config(batched, (k: Key, last: Option<Value>, v: Value) => Publishes(p, modes(k), bands(k), last, v))
  }

  lemma AdapterPublishesFirst(p: Platform, batched: bool, modes: Key -> PublishMode, bands: Key -> DeadbandSpec)
    ensures FirstPublishes(AdapterConfig(p, batched, modes, bands))
  {
    forall k, v ensures AdapterConfig(p, batched, modes, bands).gate(k, None, v) {
      assert Publishes(p, modes(k), bands(k), None, v);
    }
  }

  // ---- the cache ----

  /** The cache entry is the value being offered, or else the last value offered. */
  ghost predicate CacheOk(s: State, k: Key) {
    && (forall t :: t in s.threads && Holding(t.stage, k) ==> Lookup(s.last, k) == t.stage.x.value)
    && ((forall t :: t in s.threads ==> !Holding(t.stage, k)) ==>
          Lookup(s.last, k) == LastValue(Offered(s.offered, k, true)))
  }

  lemma StepThreads(c: Config, s: State, a: Action)
    requires Enabled(s, a) && !a.SetPause?
    ensures Step(c, s, a).threads == s.threads[a.i := NextThread(c, s, s.threads[a.i], a)]
  {
  }

  /** Steps other than commit and offer leave the cache, the offers and the held values alone. */
  lemma CacheFrame(c: Config, s: State, a: Action, k: Key)
    requires Enabled(s, a) && !a.SetPause? && !a.Commit? && !a.Offer?
    ensures Step(c, s, a).last == s.last && Step(c, s, a).offered == s.offered
    ensures Holding(NextThread(c, s, s.threads[a.i], a).stage, k) <==> Holding(s.threads[a.i].stage, k)
    ensures Holding(s.threads[a.i].stage, k) ==> NextThread(c, s, s.threads[a.i], a).stage == s.threads[a.i].stage
  {
  }

  lemma CacheKept(c: Config, s: State, a: Action, k: Key)
    requires Enabled(s, a) && !a.SetPause? && !a.Commit? && !a.Offer? && CacheOk(s, k)
    ensures CacheOk(Step(c, s, a), k)
  {
    var r := Step(c, s, a);
    StepThreads(c, s, a);
    CacheFrame(c, s, a, k);
    forall t | t in r.threads && Holding(t.stage, k) ensures Lookup(r.last, k) == t.stage.x.value {
      var j :| 0 <= j < |r.threads| && r.threads[j] == t;
      assert s.threads[j] in s.threads;
    }
    if forall t :: t in r.threads ==> !Holding(t.stage, k) {
      forall t | t in s.threads ensures !Holding(t.stage, k) {
        var j :| 0 <= j < |s.threads| && s.threads[j] == t;
        assert r.threads[j] in r.threads;
      }
    }
  }

  lemma CommitKeepsCache(c: Config, s: State, a: Action, k: Key)
    requires Enabled(s, a) && a.Commit? && WindowsAgree(s, k) && CacheOk(s, k)
    ensures CacheOk(Step(c, s, a), k)
  {
    var r, j, v := Step(c, s, a), s.threads[a.i].stage.key, s.threads[a.i].stage.v;
    StepThreads(c, s, a);
    assert s.threads[a.i] in s.threads;
    assert r.threads[a.i].stage == Offering(j, Sample(Some(v)));
    forall t | t in r.threads && Holding(t.stage, k) ensures Lookup(r.last, k) == t.stage.x.value {
      var n :| 0 <= n < |r.threads| && r.threads[n] == t;
      assert s.threads[n] in s.threads;
    }
    if forall t :: t in r.threads ==> !Holding(t.stage, k) {
      assert r.threads[a.i] in r.threads;
      forall t | t in s.threads ensures !Holding(t.stage, k) {
        var n :| 0 <= n < |s.threads| && s.threads[n] == t;
        assert r.threads[n] in r.threads;
      }
    }
  }

  lemma OfferKeepsCache(c: Config, s: State, a: Action, k: Key)
    requires Enabled(s, a) && a.Offer? && CacheOk(s, k)
    ensures CacheOk(Step(c, s, a), k)
  {
    var r, j, x := Step(c, s, a), s.threads[a.i].stage.key, s.threads[a.i].stage.x;
    StepThreads(c, s, a);
    OfferedAppend(s.offered, j, x, k, true);
    assert s.threads[a.i] in s.threads;
    forall t | t in r.threads && Holding(t.stage, k) ensures Lookup(r.last, k) == t.stage.x.value {
      var n :| 0 <= n < |r.threads| && r.threads[n] == t;
      assert s.threads[n] in s.threads;
    }
    if forall t :: t in r.threads ==> !Holding(t.stage, k) {
      if !Holding(s.threads[a.i].stage, k) {
        forall t | t in s.threads ensures !Holding(t.stage, k) {
          var n :| 0 <= n < |s.threads| && s.threads[n] == t;
          assert r.threads[n] in r.threads;
        }
      }
    }
  }

  // ---- the latest decoded value ----

  /** Unless a value is about to be committed, the latest decoded value is settled. */
  ghost predicate LatestOk(c: Config, s: State, k: Key) {
    (forall t :: t in s.threads ==> !Passing(t.stage, k)) ==> Settled(c, s, k)
  }

  /** Steps other than finish and commit leave the decoded values and the filter's decisions alone. */
  lemma LatestFrame(c: Config, s: State, a: Action, k: Key)
    requires Enabled(s, a) && !a.SetPause? && !a.Commit? && !a.Finish?
    ensures Step(c, s, a).last == s.last && Step(c, s, a).latest == s.latest
    ensures Passing(NextThread(c, s, s.threads[a.i], a).stage, k) <==> Passing(s.threads[a.i].stage, k)
    ensures Passing(s.threads[a.i].stage, k) ==> NextThread(c, s, s.threads[a.i], a).stage == s.threads[a.i].stage
  {
  }

  /** A finish on another key, or a bad one. */
  lemma FinishFrame(c: Config, s: State, a: Action, k: Key)
    requires Enabled(s, a) && a.Finish? && (s.threads[a.i].stage.key != k || a.result.None?)
    ensures Step(c, s, a).last == s.last && Lookup(Step(c, s, a).latest, k) == Lookup(s.latest, k)
    ensures !Passing(NextThread(c, s, s.threads[a.i], a).stage, k) && !Passing(s.threads[a.i].stage, k)
  {
  }

  /** A commit of another key. */
  lemma CommitFrame(c: Config, s: State, a: Action, k: Key)
    requires Enabled(s, a) && a.Commit? && s.threads[a.i].stage.key != k
    ensures Lookup(Step(c, s, a).last, k) == Lookup(s.last, k) && Step(c, s, a).latest == s.latest
    ensures !Passing(NextThread(c, s, s.threads[a.i], a).stage, k) && !Passing(s.threads[a.i].stage, k)
  {
  }

  lemma LatestKept(c: Config, s: State, a: Action, k: Key)
    requires Enabled(s, a) && !a.SetPause? && LatestOk(c, s, k)
    requires Lookup(Step(c, s, a).last, k) == Lookup(s.last, k) && Lookup(Step(c, s, a).latest, k) == Lookup(s.latest, k)
    requires Passing(NextThread(c, s, s.threads[a.i], a).stage, k) <==> Passing(s.threads[a.i].stage, k)
    ensures LatestOk(c, Step(c, s, a), k)
  {
    var r := Step(c, s, a);
    StepThreads(c, s, a);
    if forall t :: t in r.threads ==> !Passing(t.stage, k) {
      forall t | t in s.threads ensures !Passing(t.stage, k) {
        var j :| 0 <= j < |s.threads| && s.threads[j] == t;
        assert r.threads[j] in r.threads;
      }
    }
  }

  /** A good reading is published or does not exceed the filter. */
  lemma FinishSettles(c: Config, s: State, a: Action, k: Key)
    requires FirstPublishes(c) && Enabled(s, a) && a.Finish? && s.threads[a.i].stage.key == k && a.result.Some?
    ensures Passing(NextThread(c, s, s.threads[a.i], a).stage, k) || Settled(c, Step(c, s, a), k)
  {
  }

  lemma CommitSettles(c: Config, s: State, a: Action, k: Key)
    requires Enabled(s, a) && a.Commit? && s.threads[a.i].stage.key == k && WindowsSettle(c, s, k)
    ensures Settled(c, Step(c, s, a), k)
  {
    assert s.threads[a.i] in s.threads;
  }

  lemma StepKeepsLatest(c: Config, s: State, a: Action, k: Key)
    requires FirstPublishes(c) && Enabled(s, a) && WindowsSettle(c, s, k) && LatestOk(c, s, k)
    ensures LatestOk(c, Step(c, s, a), k)
  {
    if !a.SetPause? {
      StepThreads(c, s, a);
      assert Step(c, s, a).threads[a.i] in Step(c, s, a).threads;
      if a.Finish? && s.threads[a.i].stage.key == k && a.result.Some? {
        FinishSettles(c, s, a, k);
      } else if a.Commit? && s.threads[a.i].stage.key == k {
        CommitSettles(c, s, a, k);
      } else {
        if a.Finish? { FinishFrame(c, s, a, k); } else if a.Commit? { CommitFrame(c, s, a, k); } else { LatestFrame(c, s, a, k); }
        LatestKept(c, s, a, k);
      }
    }
  }

  lemma StepKeepsCache(c: Config, s: State, a: Action, k: Key)
    requires Enabled(s, a) && WindowsAgree(s, k) && CacheOk(s, k)
    ensures CacheOk(Step(c, s, a), k)
  {
    if a.Commit? {
      CommitKeepsCache(c, s, a, k);
    } else if a.Offer? {
      OfferKeepsCache(c, s, a, k);
    } else if !a.SetPause? {
      CacheKept(c, s, a, k);
    }
  }

  lemma {:induction false} RunsKeepView(c: Config, states: seq<State>, acts: seq<Action>, k: Key)
    requires FirstPublishes(c) && Run(c, states, acts) && AlwaysConcerted(c, states, k)
    ensures CacheOk(states[|acts|], k) && LatestOk(c, states[|acts|], k)
  {
    if acts != [] {
      var n := |acts| - 1;
      RunPrefix(c, states, acts, n);
      RunsKeepView(c, states[..n + 1], acts[..n], k);
      assert states[n] in states;
      StepKeepsCache(c, states[n], acts[n], k);
      StepKeepsLatest(c, states[n], acts[n], k);
    }
  }

  // ---- the consumer ----

  /** Nothing of the key is on its way: every value decided on has been offered, taken out and published. */
  ghost predicate Flushed(s: State, k: Key) {
    (forall t :: t in s.threads ==> !Window(t.stage, k) && !Carries(t.stage, k)) && !HasKey(s.pending, k)
  }

  /** The consumer was last given the cached value, and the latest decoded value is settled by it. */
  predicate View(c: Config, s: State, k: Key) {
    LastValue(Delivered(s.log, k, true)) == Lookup(s.last, k) && Settled(c, s, k)
  }

  /** Without failures and with one thread at a time publishing the key, all that was offered of a flushed key
      has been delivered. */
  lemma FlushedDelivers(c: Config, states: seq<State>, acts: seq<Action>, k: Key)
    requires Run(c, states, acts) && NeverFails(acts) && AlwaysApart(states, k) && Flushed(states[|acts|], k)
    ensures Delivered(states[|acts|].log, k, true) == Offered(states[|acts|].offered, k, true)
  {
    var s := states[|acts|];
    RunsOrder(c, states, acts, k, true);
    FlightsNone(s.threads, k, true);
    NoKeyBuffersNothing(s.pending, k, true);
    NothingLast(Delivered(s.log, k, true), [], []);
  }

  /** Over every history of good and failed reads without failed publications: once everything offered of the
      key has been published, the last value delivered is the cached one, and the latest decoded value is
      that value or does not exceed the key's filter from it. */
  lemma ConsumerSeesCache(c: Config, states: seq<State>, acts: seq<Action>, k: Key)
    requires FirstPublishes(c) && Run(c, states, acts)
    requires NeverFails(acts) && AlwaysApart(states, k) && AlwaysConcerted(c, states, k)
    requires Flushed(states[|acts|], k)
    ensures View(c, states[|acts|], k)
  {
    RunsKeepView(c, states, acts, k);
    FlushedDelivers(c, states, acts, k);
  }

  // ---- reads of a key that finish outside each other's windows ----

  /** A good read of the key finishes only while no other thread is publishing a value of it. Waiting for the
      device at the same time is harmless. */
  ghost predicate FinishesApart(s: State, a: Action, k: Key)
    requires Enabled(s, a)
  {
    a.Finish? && a.result.Some? && s.threads[a.i].stage.key == k ==>
      forall j :: 0 <= j < |s.threads| && j != a.i ==> !Window(s.threads[j].stage, k)
  }

  /** One thread at a time is publishing a value of the key, and what it has not yet committed is the latest
      decoded value. */
  ghost predicate Lone(s: State, k: Key) {
    && (forall i, j :: 0 <= i < j < |s.threads| ==> !(Window(s.threads[i].stage, k) && Window(s.threads[j].stage, k)))
    && forall t :: t in s.threads && Passing(t.stage, k) ==> Lookup(s.latest, k) == Some(t.stage.v)
  }

  lemma LoneIsConcerted(c: Config, s: State, k: Key)
    requires Lone(s, k)
    ensures Concerted(c, s, k)
  {
    forall t, u | t in s.threads && u in s.threads && Window(t.stage, k) && Window(u.stage, k)
      ensures WindowValue(t.stage) == WindowValue(u.stage)
    {
      var i :| 0 <= i < |s.threads| && s.threads[i] == t;
      var j :| 0 <= j < |s.threads| && s.threads[j] == u;
      assert i == j;
    }
  }

  /** Only a good finish opens a window or changes the latest decoded value of the key. */
  lemma WindowFrame(c: Config, s: State, a: Action, k: Key)
    requires Enabled(s, a) && !a.SetPause? && !(a.Finish? && a.result.Some? && s.threads[a.i].stage.key == k)
    ensures Window(NextThread(c, s, s.threads[a.i], a).stage, k) ==> Window(s.threads[a.i].stage, k)
    ensures Passing(NextThread(c, s, s.threads[a.i], a).stage, k) ==>
      NextThread(c, s, s.threads[a.i], a).stage == s.threads[a.i].stage
    ensures Lookup(Step(c, s, a).latest, k) == Lookup(s.latest, k)
  {
  }

  lemma FinishOpens(c: Config, s: State, a: Action, k: Key)
    requires Enabled(s, a) && a.Finish? && a.result.Some? && s.threads[a.i].stage.key == k
    ensures Lookup(Step(c, s, a).latest, k) == a.result
    ensures Passing(NextThread(c, s, s.threads[a.i], a).stage, k) ==> NextThread(c, s, s.threads[a.i], a).stage.v == a.result.value
  {
  }

  lemma StepKeepsLone(c: Config, s: State, a: Action, k: Key)
    requires Enabled(s, a) && Lone(s, k) && FinishesApart(s, a, k)
    ensures Lone(Step(c, s, a), k)
  {
    if !a.SetPause? {
      var r := Step(c, s, a);
      StepThreads(c, s, a);
      if a.Finish? && a.result.Some? && s.threads[a.i].stage.key == k {
        FinishOpens(c, s, a, k);
      } else {
        WindowFrame(c, s, a, k);
      }
      forall t | t in r.threads && Passing(t.stage, k) ensures Lookup(r.latest, k) == Some(t.stage.v) {
        var n :| 0 <= n < |r.threads| && r.threads[n] == t;
        assert s.threads[n] in s.threads;
      }
    }
  }

  ghost predicate AlwaysFinishApart(states: seq<State>, acts: seq<Action>, k: Key)
    requires |states| == |acts| + 1 && forall n :: 0 <= n < |acts| ==> Enabled(states[n], acts[n])
  {
    forall n :: 0 <= n < |acts| ==> FinishesApart(states[n], acts[n], k)
  }

  lemma {:induction false} LoneAt(c: Config, states: seq<State>, acts: seq<Action>, k: Key, n: nat)
    requires Run(c, states, acts) && AlwaysFinishApart(states, acts, k) && n <= |acts|
    ensures Lone(states[n], k)
  {
    if n > 0 {
      LoneAt(c, states, acts, k, n - 1);
      StepKeepsLone(c, states[n - 1], acts[n - 1], k);
    } else {
      forall i | 0 <= i < |states[0].threads| ensures !Window(states[0].threads[i].stage, k) {
        assert states[0].threads[i] in states[0].threads;
      }
    }
  }

  /** If good reads of the key finish outside each other's windows, its threads are in concert. */
  lemma FinishingApartConcerts(c: Config, states: seq<State>, acts: seq<Action>, k: Key)
    requires Run(c, states, acts) && AlwaysFinishApart(states, acts, k)
    ensures AlwaysConcerted(c, states, k)
  {
    forall s | s in states ensures Concerted(c, s, k) {
      var n :| 0 <= n < |states| && states[n] == s;
      LoneAt(c, states, acts, k, n);
      LoneIsConcerted(c, s, k);
    }
  }
}

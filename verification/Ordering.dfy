/** Delivery order: with failures and without. */
module Ordering {
  import opened Values
  import opened Publisher
  import opened Runtime
  import opened Conservation

  /** The samples of a key and kind in flight in a thread. */
  function Flight(stage: Stage, k: Key, valued: bool): seq<Sample> { Buffered(InFlight(stage), k, valued) }

  function Flights(threads: seq<Thread>, k: Key, valued: bool): seq<Sample> {
    if threads == [] then []
    else Flights(threads[..|threads| - 1], k, valued) + Flight(threads[|threads| - 1].stage, k, valued)
  }

  predicate Carries(stage: Stage, k: Key) { HasKey(InFlight(stage), k) }

  /** No two threads are publishing samples of the key. */
  ghost predicate FlushesApart(s: State, k: Key) {
    forall i, j :: 0 <= i < |s.threads| && 0 <= j < |s.threads| && i != j ==>
      !(Carries(s.threads[i].stage, k) && Carries(s.threads[j].stage, k))
  }

  /** Delivered, in flight and buffered, in this order, is what was offered. */
  ghost predicate Ordered(s: State, k: Key, valued: bool) {
    Delivered(s.log, k, valued) + Flights(s.threads, k, valued) + Buffered(s.pending, k, valued)
      == Offered(s.offered, k, valued)
  }

  lemma {:induction false} FlightsNone(threads: seq<Thread>, k: Key, valued: bool)
    requires forall t :: t in threads ==> !Carries(t.stage, k)
    ensures Flights(threads, k, valued) == []
  {
    if threads != [] {
      assert threads[|threads| - 1] in threads;
      NoKeyBuffersNothing(InFlight(threads[|threads| - 1].stage), k, valued);
      FlightsNone(threads[..|threads| - 1], k, valued);
    }
  }

  lemma {:induction false} FlightsSolo(threads: seq<Thread>, i: nat, k: Key, valued: bool)
    requires i < |threads| && forall j :: 0 <= j < |threads| && j != i ==> !Carries(threads[j].stage, k)
    ensures Flights(threads, k, valued) == Flight(threads[i].stage, k, valued)
  {
    var n := |threads| - 1;
    var init := threads[..n];
    if i == n {
      forall t | t in init ensures !Carries(t.stage, k) { var j :| 0 <= j < |init| && init[j] == t; assert threads[j] == t; }
      FlightsNone(init, k, valued);
    } else {
      assert !Carries(threads[n].stage, k);
      NoKeyBuffersNothing(InFlight(threads[n].stage), k, valued);
      forall j | 0 <= j < |init| && j != i ensures !Carries(init[j].stage, k) { assert init[j] == threads[j]; }
      FlightsSolo(init, i, k, valued);
    }
  }

  lemma {:induction false} FlightsSame(threads: seq<Thread>, i: nat, t: Thread, k: Key, valued: bool)
    requires i < |threads| && Flight(t.stage, k, valued) == Flight(threads[i].stage, k, valued)
    ensures Flights(threads[i := t], k, valued) == Flights(threads, k, valued)
  {
    var n := |threads| - 1;
    UpdateInit(threads, i, t);
    if i < n {
      FlightsSame(threads[..n], i, t, k, valued);
      assert threads[i := t][n] == threads[n];
    } else {
      assert threads[i := t][n] == t;
    }
  }

  /** A thread that carries the key before or after its step is the only one that does. */
  lemma FlightsMove(c: Config, s: State, a: Action, k: Key, valued: bool)
    requires Enabled(s, a) && !a.SetPause? && FlushesApart(s, k) && FlushesApart(Step(c, s, a), k)
    requires Step(c, s, a).threads == s.threads[a.i := NextThread(c, s, s.threads[a.i], a)]
    requires Carries(s.threads[a.i].stage, k) || Carries(NextThread(c, s, s.threads[a.i], a).stage, k)
    ensures Flights(s.threads, k, valued) == Flight(s.threads[a.i].stage, k, valued)
    ensures Flights(Step(c, s, a).threads, k, valued) == Flight(NextThread(c, s, s.threads[a.i], a).stage, k, valued)
  {
    var r := Step(c, s, a).threads;
    forall j | 0 <= j < |s.threads| && j != a.i ensures !Carries(s.threads[j].stage, k) {
      assert r[j] == s.threads[j];
      assert !(Carries(s.threads[a.i].stage, k) && Carries(s.threads[j].stage, k));
      assert !(Carries(r[a.i].stage, k) && Carries(r[j].stage, k));
    }
    FlightsSolo(s.threads, a.i, k, valued);
    FlightsSolo(r, a.i, k, valued);
  }

  lemma QuietOrders(c: Config, s: State, a: Action, k: Key, valued: bool)
    requires Enabled(s, a) && Quiet(a) && Ordered(s, k, valued)
    ensures Ordered(Step(c, s, a), k, valued)
  {
    QuietFrame(c, s, a);
    QuietFlight(c, s, a);
    FlightsSame(s.threads, a.i, NextThread(c, s, s.threads[a.i], a), k, valued);
  }

  lemma BatchedOfferOrders(c: Config, s: State, a: Action, k: Key, valued: bool)
    requires Enabled(s, a) && a.Offer? && c.batched && Ordered(s, k, valued) && BufferOk(c, s)
    ensures Ordered(Step(c, s, a), k, valued)
  {
    var j, x := s.threads[a.i].stage.key, s.threads[a.i].stage.x;
    FlightsSame(s.threads, a.i, NextThread(c, s, s.threads[a.i], a), k, valued);
    AddSampleBuffers(s.pending, j, x, k, valued);
    OfferedAppend(s.offered, j, x, k, valued);
    Associate(Delivered(s.log, k, valued) + Flights(s.threads, k, valued), Buffered(s.pending, k, valued), [x]);
  }

  lemma SingleFlight(j: Key, x: Sample, k: Key, valued: bool)
    ensures j == k && x.value.Some? == valued ==> Flight(SendValued(Entry(j, [x]), []), k, valued) == [x]
    ensures !(j == k && x.value.Some? == valued) ==> Flight(SendValued(Entry(j, [x]), []), k, valued) == []
    ensures Carries(SendValued(Entry(j, [x]), []), k) <==> j == k
  {
    var e := Entry(j, [x]);
    assert [e] + [] == [] + [e];
    BufferedAppend([], e, k, valued);
    OfKindAppend([], x, valued);
    assert [] + [x] == [x];
    assert ([e] + [])[0].key == j;
  }

  lemma DirectOfferFrame(c: Config, s: State, a: Action)
    requires Enabled(s, a) && a.Offer? && !c.batched
    ensures var t := s.threads[a.i];
      Step(c, s, a).threads == s.threads[a.i := t.(stage := SendValued(Entry(t.stage.key, [t.stage.x]), []))]
    ensures NextThread(c, s, s.threads[a.i], a).stage
      == SendValued(Entry(s.threads[a.i].stage.key, [s.threads[a.i].stage.x]), [])
    ensures Step(c, s, a).offered == s.offered + [(s.threads[a.i].stage.key, s.threads[a.i].stage.x)]
    ensures Step(c, s, a).pending == s.pending && Step(c, s, a).log == s.log
    ensures InFlight(s.threads[a.i].stage) == []
  {
  }

  lemma DirectOfferOrders(c: Config, s: State, a: Action, k: Key, valued: bool)
    requires Enabled(s, a) && a.Offer? && !c.batched && Ordered(s, k, valued) && s.pending == []
    requires FlushesApart(s, k) && FlushesApart(Step(c, s, a), k)
    ensures Ordered(Step(c, s, a), k, valued)
  {
    var j, x := s.threads[a.i].stage.key, s.threads[a.i].stage.x;
    DirectOfferFrame(c, s, a);
    SingleFlight(j, x, k, valued);
    OfferedAppend(s.offered, j, x, k, valued);
    assert Flight(s.threads[a.i].stage, k, valued) == [];
    NothingLast(Delivered(s.log, k, valued), Flights(s.threads, k, valued), [x]);
    if j == k {
      FlightsMove(c, s, a, k, valued);
    } else {
      FlightsSame(s.threads, a.i, NextThread(c, s, s.threads[a.i], a), k, valued);
    }
  }

  lemma NothingLast(xs: seq<Sample>, ys: seq<Sample>, zs: seq<Sample>)
    ensures xs + ys + [] == xs + ys && xs + [] == xs && xs + zs + [] == xs + zs
  {
  }

  lemma SwapFrame(c: Config, s: State, a: Action)
    requires Enabled(s, a) && a.Swap?
    ensures Step(c, s, a).threads == s.threads[a.i := NextThread(c, s, s.threads[a.i], a)]
    ensures InFlight(NextThread(c, s, s.threads[a.i], a).stage) == s.pending
    ensures InFlight(s.threads[a.i].stage) == []
    ensures Step(c, s, a).offered == s.offered && Step(c, s, a).pending == [] && Step(c, s, a).log == s.log
  {
  }

  lemma SwapOrders(c: Config, s: State, a: Action, k: Key, valued: bool)
    requires Enabled(s, a) && a.Swap? && Ordered(s, k, valued)
    requires FlushesApart(s, k) && FlushesApart(Step(c, s, a), k)
    ensures Ordered(Step(c, s, a), k, valued)
  {
    SwapFrame(c, s, a);
    NothingLast(Delivered(s.log, k, valued), Flights(s.threads, k, valued), Buffered(s.pending, k, valued));
    assert Flight(s.threads[a.i].stage, k, valued) == [];
    if HasKey(s.pending, k) {
      FlightsMove(c, s, a, k, valued);
    } else {
      NoKeyBuffersNothing(s.pending, k, valued);
      FlightsSame(s.threads, a.i, NextThread(c, s, s.threads[a.i], a), k, valued);
    }
  }

  /** A clean send moves its parcel from the front of the flight to the end of the log. */
  lemma SendMoves(stage: Stage, k: Key, valued: bool)
    requires stage.SendValued? || (stage.SendValueless? && OfKind(stage.entry.samples, true) == [])
    ensures Parcel(stage).key == stage.entry.key
    ensures stage.entry.key == k ==>
      Flight(stage, k, valued) == OfKind(Parcel(stage).samples, valued) + Flight(AfterSend(stage, false), k, valued)
    ensures stage.entry.key != k ==> Flight(stage, k, valued) == Flight(AfterSend(stage, false), k, valued)
  {
    HeadFlight(stage.entry, stage.queue, k, valued);
    if stage.SendValued? { ValuedMoves(stage.entry, stage.queue, k, valued); }
  }

  lemma ValuedMoves(e: Entry, q: seq<Entry>, k: Key, valued: bool)
    ensures e.key == k ==>
      OfKind(e.samples, valued) + Buffered(q, k, valued)
        == OfKind(OfKind(e.samples, true), valued) + Flight(AfterSend(SendValued(e, q), false), k, valued)
    ensures e.key != k ==> Flight(AfterSend(SendValued(e, q), false), k, valued) == Buffered(q, k, valued)
  {
    var rest := Entry(e.key, OfKind(e.samples, false));
    HeadFlight(rest, q, k, valued);
    assert InFlight(AfterSend(SendValued(e, q), false)) == [rest] + q;
    OfKindTwice(e.samples, true);
    OfKindTwice(e.samples, false);
    LeftUnit(Buffered(q, k, valued));
    LeftUnit(OfKind(e.samples, false) + Buffered(q, k, valued));
    if valued {
      assert OfKind(OfKind(e.samples, true), valued) == OfKind(e.samples, valued);
      assert OfKind(rest.samples, valued) == [];
    } else {
      assert OfKind(OfKind(e.samples, true), valued) == [];
      assert OfKind(rest.samples, valued) == OfKind(e.samples, valued);
    }
  }

  lemma LeftUnit(xs: seq<Sample>)
    ensures [] + xs == xs
  {
  }

  lemma HeadFlight(e: Entry, q: seq<Entry>, k: Key, valued: bool)
    ensures e.key == k ==> Buffered([e] + q, k, valued) == OfKind(e.samples, valued) + Buffered(q, k, valued)
    ensures e.key != k ==> Buffered([e] + q, k, valued) == Buffered(q, k, valued)
  {
    BufferedConcat([e], q, k, valued);
    BufferedAppend([], e, k, valued);
    assert [] + [e] == [e];
  }

  /** Samples still to be sent in the second call are valueless. */
  ghost predicate StagesOk(s: State) {
    forall t :: t in s.threads ==> t.stage.SendValueless? ==> OfKind(t.stage.entry.samples, true) == []
  }

  lemma StepKeepsStages(c: Config, s: State, a: Action)
    requires Enabled(s, a) && StagesOk(s)
    ensures StagesOk(Step(c, s, a))
  {
    if a.Send? {
      var stage := s.threads[a.i].stage;
      SendFrame(c, s, a);
      assert s.threads[a.i] in s.threads;
      OfKindTwice(stage.entry.samples, false);
    } else if Quiet(a) {
      QuietFrame(c, s, a);
    }
  }

  lemma SendOrders(c: Config, s: State, a: Action, k: Key, valued: bool)
    requires Enabled(s, a) && a.Send? && !a.fault && Ordered(s, k, valued) && StagesOk(s)
    requires FlushesApart(s, k) && FlushesApart(Step(c, s, a), k)
    ensures Ordered(Step(c, s, a), k, valued)
  {
    var t := s.threads[a.i];
    assert t in s.threads;
    SendFrame(c, s, a);
    SendMoves(t.stage, k, valued);
    SendDelivers(c, s, a, k, valued);
    if t.stage.entry.key == k {
      assert Carries(t.stage, k) by { assert InFlight(t.stage)[0].key == k; }
      FlightsMove(c, s, a, k, valued);
      Associate(Delivered(s.log, k, valued), OfKind(Parcel(t.stage).samples, valued), Flight(AfterSend(t.stage, false), k, valued));
    } else {
      FlightsSame(s.threads, a.i, t.(stage := AfterSend(t.stage, false)), k, valued);
    }
  }

  lemma SendDelivers(c: Config, s: State, a: Action, k: Key, valued: bool)
    requires Enabled(s, a) && a.Send? && !a.fault
    ensures Parcel(s.threads[a.i].stage).key == k ==>
      Delivered(Step(c, s, a).log, k, valued)
        == Delivered(s.log, k, valued) + OfKind(Parcel(s.threads[a.i].stage).samples, valued)
    ensures Parcel(s.threads[a.i].stage).key != k ==> Delivered(Step(c, s, a).log, k, valued) == Delivered(s.log, k, valued)
  {
    SendFrame(c, s, a);
    DeliveredAppend(s.log, Parcel(s.threads[a.i].stage), k, valued);
  }

  lemma StepOrders(c: Config, s: State, a: Action, k: Key, valued: bool)
    requires Enabled(s, a) && Ordered(s, k, valued) && StagesOk(s) && BufferOk(c, s)
    requires FlushesApart(s, k) && FlushesApart(Step(c, s, a), k) && (a.Send? ==> !a.fault)
    ensures Ordered(Step(c, s, a), k, valued)
  {
    if a.Offer? {
      if c.batched { BatchedOfferOrders(c, s, a, k, valued); } else { DirectOfferOrders(c, s, a, k, valued); }
    } else if a.Swap? {
      SwapOrders(c, s, a, k, valued);
    } else if a.Send? {
      SendOrders(c, s, a, k, valued);
    } else if Quiet(a) {
      QuietOrders(c, s, a, k, valued);
    }
  }

  ghost predicate NeverFails(acts: seq<Action>) { forall a :: a in acts ==> a.Send? ==> !a.fault }

  ghost predicate AlwaysApart(states: seq<State>, k: Key) { forall s :: s in states ==> FlushesApart(s, k) }

  /** Over every run without publish failures in which the key is never published by two threads at once,
      its valued and its valueless samples are each delivered in offer order. */
  lemma {:induction false} RunsOrder(c: Config, states: seq<State>, acts: seq<Action>, k: Key, valued: bool)
    requires Run(c, states, acts) && NeverFails(acts) && AlwaysApart(states, k)
    ensures Ordered(states[|acts|], k, valued) && StagesOk(states[|acts|]) && BufferOk(c, states[|acts|])
  {
    if acts == [] {
      forall t | t in states[0].threads ensures !Carries(t.stage, k) { }
      FlightsNone(states[0].threads, k, valued);
    } else {
      var n := |acts| - 1;
      RunPrefix(c, states, acts, n);
      assert states[n] in states && states[n + 1] in states && acts[n] in acts;
      RunsOrder(c, states[..n + 1], acts[..n], k, valued);
      StepKeepsBuffer(c, states[n], acts[n]);
      StepKeepsStages(c, states[n], acts[n]);
      StepOrders(c, states[n], acts[n], k, valued);
    }
  }

  // ---- when publications fail ----

  /** xs is ys with some elements left out. */
  predicate Subsequence(xs: seq<Sample>, ys: seq<Sample>) {
    if ys == [] then xs == []
    else
      var n := |ys| - 1;
      Subsequence(xs, ys[..n]) || (xs != [] && xs[|xs| - 1] == ys[n] && Subsequence(xs[..|xs| - 1], ys[..n]))
  }

  lemma SubsequenceAppend(xs: seq<Sample>, ys: seq<Sample>, x: Sample)
    requires Subsequence(xs, ys)
    ensures Subsequence(xs + [x], ys + [x])
  {
    assert (xs + [x])[..|xs|] == xs && (ys + [x])[..|ys|] == ys;
  }

  /** Leaving out a stretch keeps a subsequence one. */
  lemma {:induction false} SubsequenceWithout(a: seq<Sample>, m: seq<Sample>, b: seq<Sample>, ys: seq<Sample>)
    requires Subsequence(a + m + b, ys)
    ensures Subsequence(a + b, ys)
    decreases |ys|
  {
    var xs := a + m + b;
    if m == [] {
      assert a + b == xs;
    } else if ys != [] {
      var init := ys[..|ys| - 1];
      if Subsequence(xs, init) {
        SubsequenceWithout(a, m, b, init);
      } else if b != [] {
        assert xs[..|xs| - 1] == a + m + b[..|b| - 1] && (a + b)[..|a + b| - 1] == a + b[..|b| - 1];
        SubsequenceWithout(a, m, b[..|b| - 1], init);
      } else {
        assert xs[..|xs| - 1] == a + m[..|m| - 1] + [] && a + b == a + [];
        SubsequenceWithout(a, m[..|m| - 1], [], init);
      }
    }
  }

  /** Delivered, in flight and buffered. */
  function Surviving(s: State, k: Key, valued: bool): seq<Sample> {
    Delivered(s.log, k, valued) + Flights(s.threads, k, valued) + Buffered(s.pending, k, valued)
  }

  ghost predicate StillOrdered(s: State, k: Key, valued: bool) {
    Subsequence(Surviving(s, k, valued), Offered(s.offered, k, valued))
  }

  /** Offers of one key that amount to the given samples. */
  function Offers(k: Key, samples: seq<Sample>): (offers: seq<(Key, Sample)>)
    ensures |offers| == |samples|
  {
    if samples == [] then [] else Offers(k, samples[..|samples| - 1]) + [(k, samples[|samples| - 1])]
  }

  lemma {:induction false} OffersAmount(k: Key, samples: seq<Sample>, valued: bool)
    requires forall x :: x in samples ==> x.value.Some? == valued
    ensures Offered(Offers(k, samples), k, valued) == samples
  {
    if samples != [] {
      var n := |samples| - 1;
      assert samples[n] in samples;
      OffersAmount(k, samples[..n], valued);
      OfferedAppend(Offers(k, samples[..n]), k, samples[n], k, valued);
      Rejoin(samples, Offered(Offers(k, samples), k, valued));
    }
  }

  lemma {:induction false} KindOnly(samples: seq<Sample>, valued: bool)
    ensures forall x :: x in OfKind(samples, valued) ==> x.value.Some? == valued
  {
    if samples != [] { KindOnly(samples[..|samples| - 1], valued); }
  }

  lemma {:induction false} BufferedKind(entries: seq<Entry>, k: Key, valued: bool)
    ensures forall x :: x in Buffered(entries, k, valued) ==> x.value.Some? == valued
  {
    if entries != [] {
      BufferedKind(entries[..|entries| - 1], k, valued);
      KindOnly(entries[|entries| - 1].samples, valued);
    }
  }

  lemma {:induction false} DeliveredKind(log: seq<Message>, k: Key, valued: bool)
    ensures forall x :: x in Delivered(log, k, valued) ==> x.value.Some? == valued
  {
    if log != [] {
      DeliveredKind(log[..|log| - 1], k, valued);
      KindOnly(log[|log| - 1].samples, valued);
    }
  }

  lemma {:induction false} FlightsKind(threads: seq<Thread>, k: Key, valued: bool)
    ensures forall x :: x in Flights(threads, k, valued) ==> x.value.Some? == valued
  {
    if threads != [] {
      FlightsKind(threads[..|threads| - 1], k, valued);
      BufferedKind(InFlight(threads[|threads| - 1].stage), k, valued);
    }
  }

  lemma SurvivingKind(s: State, k: Key, valued: bool)
    ensures forall x :: x in Surviving(s, k, valued) ==> x.value.Some? == valued
  {
    DeliveredKind(s.log, k, valued);
    FlightsKind(s.threads, k, valued);
    BufferedKind(s.pending, k, valued);
  }

  lemma OfferRecord(c: Config, s: State, a: Action, offers: seq<(Key, Sample)>)
    requires Enabled(s, a)
    ensures Enabled(s.(offered := offers), a)
    ensures var r, m := Step(c, s, a), Step(c, s.(offered := offers), a);
      && m.log == r.log && m.threads == r.threads && m.pending == r.pending
      && (a.Offer? ==> m.offered == offers + [(s.threads[a.i].stage.key, s.threads[a.i].stage.x)])
      && (!a.Offer? ==> m.offered == offers)
    ensures a.Offer? ==> Step(c, s, a).offered == s.offered + [(s.threads[a.i].stage.key, s.threads[a.i].stage.x)]
    ensures !a.Offer? ==> Step(c, s, a).offered == s.offered
  {
  }

  /** A step that does not fail keeps what survives, and adds an offer of the key and kind at its end. */
  lemma StepSurvives(c: Config, s: State, a: Action, k: Key, valued: bool)
    requires Enabled(s, a) && StagesOk(s) && BufferOk(c, s) && (a.Send? ==> !a.fault)
    requires FlushesApart(s, k) && FlushesApart(Step(c, s, a), k)
    ensures var r := Step(c, s, a);
      if a.Offer? && s.threads[a.i].stage.key == k && s.threads[a.i].stage.x.value.Some? == valued
      then Surviving(r, k, valued) == Surviving(s, k, valued) + [s.threads[a.i].stage.x]
      else Surviving(r, k, valued) == Surviving(s, k, valued)
  {
    var offers := Offers(k, Surviving(s, k, valued));
    SurvivingKind(s, k, valued);
    OffersAmount(k, Surviving(s, k, valued), valued);
    OfferRecord(c, s, a, offers);
    StepOrders(c, s.(offered := offers), a, k, valued);
    if a.Offer? { OfferedAppend(offers, s.threads[a.i].stage.key, s.threads[a.i].stage.x, k, valued); }
  }

  /** A call without samples cannot fail. */
  lemma EmptySendNeverFails(c: Config, s: State, a: Action)
    requires Enabled(s, a) && a.Send? && Parcel(s.threads[a.i].stage).samples == []
    ensures Step(c, s, a) == Step(c, s, Send(a.i, false))
  {
  }

  /** A call that raises loses a stretch from the front of its thread's flight. */
  lemma FaultLoses(stage: Stage, k: Key, valued: bool)
    requires (stage.SendValued? || stage.SendValueless?) && Parcel(stage).samples != []
    ensures stage.entry.key == k ==>
      Flight(stage, k, valued) == OfKind(stage.entry.samples, valued) + Flight(AfterSend(stage, true), k, valued)
    ensures stage.entry.key != k ==> Flight(stage, k, valued) == Flight(AfterSend(stage, true), k, valued)
  {
    HeadFlight(stage.entry, stage.queue, k, valued);
    assert InFlight(AfterSend(stage, true)) == stage.queue;
  }

  lemma FaultSurvives(c: Config, s: State, a: Action, k: Key, valued: bool)
    requires Enabled(s, a) && a.Send? && a.fault && Parcel(s.threads[a.i].stage).samples != []
    requires FlushesApart(s, k) && FlushesApart(Step(c, s, a), k) && StillOrdered(s, k, valued)
    ensures StillOrdered(Step(c, s, a), k, valued)
  {
    var t := s.threads[a.i];
    SendFrame(c, s, a);
    FaultLoses(t.stage, k, valued);
    if t.stage.entry.key == k {
      assert Carries(t.stage, k) by { assert InFlight(t.stage)[0].key == k; }
      FlightsMove(c, s, a, k, valued);
      LeavesOut(Delivered(s.log, k, valued), OfKind(t.stage.entry.samples, valued),
        Flight(AfterSend(t.stage, true), k, valued), Buffered(s.pending, k, valued), Offered(s.offered, k, valued));
    } else {
      FlightsSame(s.threads, a.i, t.(stage := AfterSend(t.stage, true)), k, valued);
    }
  }

  lemma LeavesOut(d: seq<Sample>, m: seq<Sample>, f: seq<Sample>, b: seq<Sample>, ys: seq<Sample>)
    requires Subsequence(d + (m + f) + b, ys)
    ensures Subsequence(d + f + b, ys)
  {
    assert d + (m + f) + b == d + m + (f + b) && d + f + b == d + (f + b);
    SubsequenceWithout(d, m, f + b, ys);
  }

  lemma StepStillOrdered(c: Config, s: State, a: Action, k: Key, valued: bool)
    requires Enabled(s, a) && StagesOk(s) && BufferOk(c, s) && StillOrdered(s, k, valued)
    requires FlushesApart(s, k) && FlushesApart(Step(c, s, a), k)
    ensures StillOrdered(Step(c, s, a), k, valued)
  {
    OfferRecord(c, s, a, s.offered);
    if a.Send? && a.fault {
      if Parcel(s.threads[a.i].stage).samples == [] {
        EmptySendNeverFails(c, s, a);
        StepSurvives(c, s, Send(a.i, false), k, valued);
      } else {
        FaultSurvives(c, s, a, k, valued);
      }
    } else {
      StepSurvives(c, s, a, k, valued);
      if a.Offer? {
        OfferedAppend(s.offered, s.threads[a.i].stage.key, s.threads[a.i].stage.x, k, valued);
        SubsequenceAppend(Surviving(s, k, valued), Offered(s.offered, k, valued), s.threads[a.i].stage.x);
      }
    }
  }

  /** Over every run in which the key is never published by two threads at once, whatever publications fail: what was
      delivered of a key and kind is what was offered of it with some samples left out, in the same order. */
  lemma FailuresKeepOrder(c: Config, states: seq<State>, acts: seq<Action>, k: Key, valued: bool)
    requires Run(c, states, acts) && AlwaysApart(states, k)
    ensures Subsequence(Delivered(states[|acts|].log, k, valued), Offered(states[|acts|].offered, k, valued))
  {
    var s := states[|acts|];
    RunsStillOrdered(c, states, acts, k, valued);
    var d, f, b := Delivered(s.log, k, valued), Flights(s.threads, k, valued), Buffered(s.pending, k, valued);
    assert d + f + b == d + (f + b) + [] && d + [] == d;
    SubsequenceWithout(d, f + b, [], Offered(s.offered, k, valued));
  }

  lemma {:induction false} RunsStillOrdered(c: Config, states: seq<State>, acts: seq<Action>, k: Key, valued: bool)
    requires Run(c, states, acts) && AlwaysApart(states, k)
    ensures StillOrdered(states[|acts|], k, valued) && StagesOk(states[|acts|]) && BufferOk(c, states[|acts|])
  {
    if acts == [] {
      forall t | t in states[0].threads ensures !Carries(t.stage, k) { }
      FlightsNone(states[0].threads, k, valued);
    } else {
      var n := |acts| - 1;
      RunPrefix(c, states, acts, n);
      assert states[n] in states && states[n + 1] in states && acts[n] in acts;
      RunsStillOrdered(c, states[..n + 1], acts[..n], k, valued);
      StepKeepsBuffer(c, states[n], acts[n]);
      StepKeepsStages(c, states[n], acts[n]);
      StepStillOrdered(c, states[n], acts[n], k, valued);
    }
  }
}

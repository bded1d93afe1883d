/** The step system and the objects say the same: a thread that runs without interruption does exactly what
    SignalUpdatePublisher does with an offer and with a flush, and what PollManager does in a whole cycle. */
module Refinement {
  import opened Values
  import opened Publisher
  import opened Runtime
  import opened Deadband
  import Signals
  import Planner
  import Poller

  predicate At(s: State, i: nat, stage: Stage) { i < |s.threads| && s.threads[i].stage == stage }

  /** From s to r thread i came to a stage and log, failure and sample counts grew; nothing else a flush
      touches changed. */
  predicate Moved(s: State, r: State, i: nat, stage: Stage, sent: seq<Message>, failures: nat, samples: nat) {
    && i < |s.threads| && r.threads == s.threads[i := s.threads[i].(stage := stage)]
    && r.log == s.log + sent && r.pending == s.pending
    && r.failures == s.failures + failures && r.samplesPublished == s.samplesPublished + samples
  }

  lemma MovedTwice(s: State, m: State, r: State, i: nat, a: Stage, b: Stage, x: seq<Message>, y: seq<Message>,
                   f: nat, g: nat, n: nat, k: nat)
    requires Moved(s, m, i, a, x, f, n) && Moved(m, r, i, b, y, g, k)
    ensures Moved(s, r, i, b, x + y, f + g, n + k)
  {
    Associate(s.log, x, y);
    assert r.threads == s.threads[i := s.threads[i].(stage := b)];
  }

  function AfterFirst(e: Entry, q: seq<Entry>, fault: bool): Stage {
    var v := OfKind(e.samples, true);
    if v != [] && fault then Failing(q, 0) else SendValueless(Entry(e.key, OfKind(e.samples, false)), q, |v|)
  }

  lemma FirstSend(c: Config, s: State, i: nat, e: Entry, q: seq<Entry>, fault: bool)
    requires At(s, i, SendValued(e, q))
    ensures Moved(s, Step(c, s, Send(i, fault)), i, AfterFirst(e, q, fault),
      if fault then [] else Packet(e.key, OfKind(e.samples, true)), 0, 0)
  {
  }

  lemma SecondSend(c: Config, s: State, i: nat, e: Entry, q: seq<Entry>, n: nat, fault: bool)
    requires At(s, i, SendValueless(e, q, n))
    ensures Moved(s, Step(c, s, Send(i, fault)), i,
      if e.samples != [] && fault then Failing(q, n) else Closing(q, n + |e.samples|),
      if fault then [] else Packet(e.key, e.samples), 0, 0)
  {
  }

  /** The facade calls of one entry. */
  function Sends(c: Config, s: State, i: nat, f: Fault): State
    requires i < |s.threads| && s.threads[i].stage.SendValued?
  {
    var r := Step(c, s, Send(i, f.valued));
    if r.threads[i].stage.SendValueless? then Step(c, r, Send(i, f.valueless)) else r
  }

  /** Where they end. */
  function Ended(e: Entry, f: Fault, q: seq<Entry>): Stage {
    if Lost(e, f) != [] then Failing(q, SampleCount(Sent(e, f))) else Closing(q, SampleCount(Sent(e, f)))
  }

  lemma CountSent(k: Key, xs: seq<Sample>, ys: seq<Sample>)
    ensures SampleCount(Packet(k, xs)) == |xs| && SampleCount(Packet(k, xs) + Packet(k, ys)) == |xs| + |ys|
    ensures SampleCount([]) == 0
  {
    LogAppend([], Message(k, xs));
    LogAppend(Packet(k, xs), Message(k, ys));
    assert [] + [Message(k, xs)] == [Message(k, xs)];
    assert Packet(k, xs) + [] == Packet(k, xs);
  }

  lemma SentPackets(e: Entry, f: Fault)
    ensures var v, w := OfKind(e.samples, true), OfKind(e.samples, false);
      && (v != [] && f.valued ==> Sent(e, f) == [] && Lost(e, f) != [])
      && (!(v != [] && f.valued) && w != [] && f.valueless ==> Sent(e, f) == Packet(e.key, v) && Lost(e, f) != [])
      && (!(v != [] && f.valued) && !(w != [] && f.valueless) ==>
        Sent(e, f) == Packet(e.key, v) + Packet(e.key, w) && Lost(e, f) == [])
  {
  }

  lemma SendsSend(c: Config, s: State, i: nat, e: Entry, q: seq<Entry>, f: Fault)
    requires At(s, i, SendValued(e, q))
    ensures Moved(s, Sends(c, s, i, f), i, Ended(e, f, q), Sent(e, f), 0, 0)
  {
    var v, w := OfKind(e.samples, true), OfKind(e.samples, false);
    var r := Step(c, s, Send(i, f.valued));
    FirstSend(c, s, i, e, q, f.valued);
    SentPackets(e, f);
    CountSent(e.key, v, w);
    if !(v != [] && f.valued) {
      var x, y := if f.valued then [] else Packet(e.key, v), if f.valueless then [] else Packet(e.key, w);
      SecondSend(c, r, i, Entry(e.key, w), q, |v|, f.valueless);
      MovedTwice(s, r, Sends(c, s, i, f), i, AfterFirst(e, q, f.valued), Ended(e, f, q), x, y, 0, 0, 0, 0);
      assert x == Packet(e.key, v);
      assert x + y == Sent(e, f);
    }
  }

  /** The bookkeeping after them. */
  function Closed(c: Config, s: State, i: nat): State
    requires i < |s.threads| && (s.threads[i].stage.Failing? || s.threads[i].stage.Closing?)
  {
    var r := if s.threads[i].stage.Failing? then Step(c, s, RecordFailure(i)) else s;
    Step(c, r, Close(i))
  }

  lemma ClosedCounts(c: Config, s: State, i: nat, q: seq<Entry>, n: nat)
    requires At(s, i, Failing(q, n)) || At(s, i, Closing(q, n))
    ensures Moved(s, Closed(c, s, i), i, Flushing(q), [], if s.threads[i].stage.Failing? then 1 else 0, n)
  {
  }

  /** The whole publication of the first entry of a queue. */
  function PublishFirst(c: Config, s: State, i: nat, f: Fault): State
    requires i < |s.threads| && s.threads[i].stage.Flushing? && s.threads[i].stage.queue != []
  {
    var q := s.threads[i].stage.queue;
    var r := Step(c, s, Begin(i));
    SendsSend(c, r, i, q[0], q[1..], f);
    Closed(c, Sends(c, r, i, f), i)
  }

  lemma PublishFirstPublishes(c: Config, s: State, i: nat, q: seq<Entry>, f: Fault)
    requires At(s, i, Flushing(q)) && q != []
    ensures Moved(s, PublishFirst(c, s, i, f), i, Flushing(q[1..]), Sent(q[0], f),
      if Lost(q[0], f) != [] then 1 else 0, SampleCount(Sent(q[0], f)))
  {
    var r := Step(c, s, Begin(i));
    BeginMoves(c, s, i, q);
    SendsSend(c, r, i, q[0], q[1..], f);
    var m := Sends(c, r, i, f);
    var n := SampleCount(Sent(q[0], f));
    ClosedCounts(c, m, i, q[1..], n);
    MovedTwice(s, r, m, i, SendValued(q[0], q[1..]), Ended(q[0], f, q[1..]), [], Sent(q[0], f), 0, 0, 0, 0);
    MovedTwice(s, m, Closed(c, m, i), i, Ended(q[0], f, q[1..]), Flushing(q[1..]),
      [] + Sent(q[0], f), [], 0, if Lost(q[0], f) != [] then 1 else 0, 0, n);
    NoneAdded(Sent(q[0], f));
  }

  lemma NoneAdded(xs: seq<Message>)
    ensures [] + xs + [] == xs && xs + [] == xs
  {
  }

  lemma BeginMoves(c: Config, s: State, i: nat, q: seq<Entry>)
    requires At(s, i, Flushing(q)) && q != []
    ensures Moved(s, Step(c, s, Begin(i)), i, SendValued(q[0], q[1..]), [], 0, 0)
  {
  }

  /** The flush of a whole queue, one entry after the other. */
  function Drain(c: Config, s: State, i: nat, faults: seq<Fault>): State
    requires i < |s.threads| && s.threads[i].stage.Flushing? && |s.threads[i].stage.queue| == |faults|
    decreases |faults|
  {
    if faults == [] then s
    else
      PublishFirstPublishes(c, s, i, s.threads[i].stage.queue, faults[0]);
      Drain(c, PublishFirst(c, s, i, faults[0]), i, faults[1..])
  }

  lemma {:induction false} SentAllPrepend(e: Entry, f: Fault, entries: seq<Entry>, faults: seq<Fault>)
    requires |entries| == |faults|
    ensures SentAll([e] + entries, [f] + faults) == Sent(e, f) + SentAll(entries, faults)
    ensures FailureCount([e] + entries, [f] + faults) == (if Lost(e, f) != [] then 1 else 0) + FailureCount(entries, faults)
  {
    if entries == [] {
      SentAllAppend([], [], e, f);
      assert [e] + entries == [] + [e] && [f] + faults == [] + [f];
      NoneAdded(Sent(e, f));
    } else {
      var n := |entries| - 1;
      SentAllPrepend(e, f, entries[..n], faults[..n]);
      SentAllAppend([e] + entries[..n], [f] + faults[..n], entries[n], faults[n]);
      Snoc(entries, n);
      Snoc(faults, n);
      Associate([e], entries[..n], [entries[n]]);
      Associate([f], faults[..n], [faults[n]]);
      Associate(Sent(e, f), SentAll(entries[..n], faults[..n]), Sent(entries[n], faults[n]));
    }
  }

  lemma {:induction false} SentCount(xs: seq<Message>, ys: seq<Message>)
    ensures SampleCount(xs + ys) == SampleCount(xs) + SampleCount(ys)
    decreases |ys|
  {
    if ys == [] {
      assert xs + ys == xs;
    } else {
      var n := |ys| - 1;
      SentCount(xs, ys[..n]);
      LogAppend(xs + ys[..n], ys[n]);
      Snoc(ys, n);
      Associate(xs, ys[..n], [ys[n]]);
    }
  }

  lemma {:induction false} DrainSendsAll(c: Config, s: State, i: nat, q: seq<Entry>, faults: seq<Fault>)
    requires At(s, i, Flushing(q)) && |q| == |faults|
    ensures Moved(s, Drain(c, s, i, faults), i, Flushing([]),
      SentAll(q, faults), FailureCount(q, faults), SampleCount(SentAll(q, faults)))
    decreases |q|
  {
    if q == [] {
      assert s.threads == s.threads[i := s.threads[i].(stage := Flushing([]))];
      assert s.log == s.log + SentAll(q, faults);
    } else {
      var e, f := q[0], faults[0];
      var m := PublishFirst(c, s, i, f);
      PublishFirstPublishes(c, s, i, q, f);
      DrainSendsAll(c, m, i, q[1..], faults[1..]);
      MovedTwice(s, m, Drain(c, s, i, faults), i, Flushing(q[1..]), Flushing([]),
        Sent(e, f), SentAll(q[1..], faults[1..]),
        if Lost(e, f) != [] then 1 else 0, FailureCount(q[1..], faults[1..]),
        SampleCount(Sent(e, f)), SampleCount(SentAll(q[1..], faults[1..])));
      assert q == [e] + q[1..] && faults == [f] + faults[1..];
      SentAllPrepend(e, f, q[1..], faults[1..]);
      SentCount(Sent(e, f), SentAll(q[1..], faults[1..]));
    }
  }

  /** From the swap of the buffer to the end of the flush: what is sent, what is recorded as failed or
      published, and what is left in the buffer is exactly what SignalUpdatePublisher.Flush guarantees. */
  lemma FlushRefines(c: Config, s: State, i: nat, faults: seq<Fault>)
    requires i < |s.threads| && Enabled(s, Swap(i)) && |faults| == |s.pending|
    ensures Step(c, s, Swap(i)).threads[i].stage == Flushing(s.pending)
    ensures var r := Drain(c, Step(c, s, Swap(i)), i, faults);
      && r.pending == [] && r.log == s.log + SentAll(s.pending, faults)
      && r.failures == s.failures + FailureCount(s.pending, faults)
      && r.samplesPublished == s.samplesPublished + SampleCount(SentAll(s.pending, faults))
  {
    DrainSendsAll(c, Step(c, s, Swap(i)), i, s.pending, faults);
  }

  // ---- one offer ----

  /** A thread offers what it holds; without batching it also publishes it. */
  function OfferOut(c: Config, s: State, i: nat, f: Fault): State
    requires i < |s.threads| && s.threads[i].stage.Offering?
  {
    var r := Step(c, s, Offer(i));
    if c.batched then r
    else
      var e := Entry(s.threads[i].stage.key, [s.threads[i].stage.x]);
      SendsSend(c, r, i, e, [], f);
      var m := Sends(c, r, i, f);
      ClosedCounts(c, m, i, [], SampleCount(Sent(e, f)));
      Step(c, Closed(c, m, i), Done(i))
  }

  lemma OfferMoves(c: Config, s: State, i: nat, k: Key, x: Sample)
    requires At(s, i, Offering(k, x))
    ensures var r := Step(c, s, Offer(i));
      && r.last == s.last && r.offered == s.offered + [(k, x)]
      && (c.batched ==> Moved(s, r.(pending := s.pending), i, Idle, [], 0, 0) && r.pending == AddSample(s.pending, k, x))
      && (!c.batched ==> Moved(s, r, i, SendValued(Entry(k, [x]), []), [], 0, 0))
  {
    assert s.log + [] == s.log;
  }

  lemma SendKeeps(c: Config, s: State, i: nat, fault: bool)
    requires i < |s.threads| && (s.threads[i].stage.SendValued? || s.threads[i].stage.SendValueless?)
    ensures Step(c, s, Send(i, fault)).last == s.last && Step(c, s, Send(i, fault)).offered == s.offered
  {
  }

  lemma SendsKeep(c: Config, s: State, i: nat, f: Fault)
    requires i < |s.threads| && s.threads[i].stage.SendValued?
    ensures Sends(c, s, i, f).last == s.last && Sends(c, s, i, f).offered == s.offered
  {
    var r := Step(c, s, Send(i, f.valued));
    SendKeeps(c, s, i, f.valued);
    if r.threads[i].stage.SendValueless? { SendKeeps(c, r, i, f.valueless); }
  }

  lemma ClosedKeeps(c: Config, s: State, i: nat)
    requires i < |s.threads| && (s.threads[i].stage.Failing? || s.threads[i].stage.Closing?)
    ensures Closed(c, s, i).last == s.last && Closed(c, s, i).offered == s.offered
  {
  }

  lemma DoneMoves(c: Config, s: State, i: nat)
    requires At(s, i, Flushing([]))
    ensures Moved(s, Step(c, s, Done(i)), i, Idle, [], 0, 0)
    ensures Step(c, s, Done(i)).last == s.last && Step(c, s, Done(i)).offered == s.offered
  {
    assert s.log + [] == s.log;
  }

  /** What the publisher guarantees of an offer (SignalUpdatePublisher.Offer), of the step system. */
  predicate OfferedBy(c: Config, s: State, r: State, i: nat, k: Key, x: Sample, f: Fault) {
    && i < |s.threads| && r.threads == s.threads[i := s.threads[i].(stage := Idle)]
    && r.offered == s.offered + [(k, x)]
    && (c.batched ==>
      && r.pending == AddSample(s.pending, k, x) && r.log == s.log && r.failures == s.failures
      && r.samplesPublished == s.samplesPublished)
    && (!c.batched ==>
      && r.pending == s.pending && r.log == s.log + Sent(Entry(k, [x]), f)
      && r.failures == s.failures + (if Lost(Entry(k, [x]), f) != [] then 1 else 0)
      && r.samplesPublished == s.samplesPublished + SampleCount(Sent(Entry(k, [x]), f)))
  }

  lemma OfferRefines(c: Config, s: State, i: nat, k: Key, x: Sample, f: Fault)
    requires At(s, i, Offering(k, x))
    ensures OfferedBy(c, s, OfferOut(c, s, i, f), i, k, x, f) && OfferOut(c, s, i, f).last == s.last
  {
    OfferMoves(c, s, i, k, x);
    if c.batched {
      NoneAdded(s.log);
    } else {
      DirectOfferRefines(c, s, i, k, x, f);
    }
  }

  lemma DirectOfferRefines(c: Config, s: State, i: nat, k: Key, x: Sample, f: Fault)
    requires At(s, i, Offering(k, x)) && !c.batched
    ensures OfferedBy(c, s, OfferOut(c, s, i, f), i, k, x, f) && OfferOut(c, s, i, f).last == s.last
  {
    var e := Entry(k, [x]);
    var n, lost := SampleCount(Sent(e, f)), if Lost(e, f) != [] then 1 else 0;
    OfferMoves(c, s, i, k, x);
    var r := Step(c, s, Offer(i));
    SendsSend(c, r, i, e, [], f);
    SendsKeep(c, r, i, f);
    var m := Sends(c, r, i, f);
    ClosedCounts(c, m, i, [], n);
    ClosedKeeps(c, m, i);
    DoneMoves(c, Closed(c, m, i), i);
    MovedTwice(s, r, m, i, SendValued(e, []), Ended(e, f, []), [], Sent(e, f), 0, 0, 0, 0);
    MovedTwice(s, m, Closed(c, m, i), i, Ended(e, f, []), Flushing([]), [] + Sent(e, f), [], 0, lost, 0, n);
    MovedTwice(s, Closed(c, m, i), OfferOut(c, s, i, f), i, Flushing([]), Idle, [] + Sent(e, f) + [], [], lost, 0, n, 0);
    NoneAdded(Sent(e, f));
  }

  // ---- one signal of a poll cycle ----

  /** A thread reads one key and, if there is something to publish, commits and offers it. */
  function ReadOnce(c: Config, s: State, i: nat, k: Key, v: Option<Value>, f: Fault): State
    requires Enabled(s, Start(i, k))
  {
    var r := Step(c, Step(c, s, Start(i, k)), Finish(i, v));
    if r.threads[i].stage.Deciding? then OfferOut(c, Step(c, r, Commit(i)), i, f)
    else if r.threads[i].stage.Offering? then OfferOut(c, r, i, f)
    else r
  }

  lemma ReadStarts(c: Config, s: State, i: nat, k: Key, v: Option<Value>)
    requires Enabled(s, Start(i, k))
    ensures var r, t := Step(c, Step(c, s, Start(i, k)), Finish(i, v)), s.threads[i];
      && r.last == s.last && r.offered == s.offered
      && r.threads == s.threads[i := t.(stage :=
           if v.None? then Offering(k, Sample(None))
           else if c.gate(k, Lookup(s.last, k), v.value) then Deciding(k, v.value) else Idle)]
  {
  }

  lemma CommitOffers(c: Config, s: State, i: nat, k: Key, v: Value)
    requires At(s, i, Deciding(k, v))
    ensures var r := Step(c, s, Commit(i));
      && r.last == s.last[k := v] && r.offered == s.offered
      && r.threads == s.threads[i := s.threads[i].(stage := Offering(k, Sample(Some(v))))]
  {
  }

  lemma BackToIdle(s: seq<Thread>, i: nat, a: Stage)
    requires i < |s| && s[i].stage == Idle
    ensures s[i := s[i].(stage := Idle)] == s && s[i := s[i].(stage := a)][i := s[i]] == s
  {
  }

  /** What the read of one key changes in the cache and the offers. */
  predicate ReadBy(c: Config, s: State, r: State, k: Key, v: Option<Value>) {
    && r.threads == s.threads
    && (v.None? ==> r.last == s.last && r.offered == s.offered + [(k, Sample(None))])
    && (v.Some? && c.gate(k, Lookup(s.last, k), v.value) ==>
      r.last == s.last[k := v.value] && r.offered == s.offered + [(k, Sample(v))])
    && (v.Some? && !c.gate(k, Lookup(s.last, k), v.value) ==> r.last == s.last && r.offered == s.offered)
  }

  lemma ReadOnceEffect(c: Config, s: State, i: nat, k: Key, v: Option<Value>, f: Fault)
    requires Enabled(s, Start(i, k))
    ensures ReadBy(c, s, ReadOnce(c, s, i, k, v, f), k, v)
  {
    var m := Step(c, Step(c, s, Start(i, k)), Finish(i, v));
    ReadStarts(c, s, i, k, v);
    BackToIdle(s.threads, i, m.threads[i].stage);
    if v.None? {
      OfferRefines(c, m, i, k, Sample(None), f);
    } else if c.gate(k, Lookup(s.last, k), v.value) {
      CommitOffers(c, m, i, k, v.value);
      OfferRefines(c, Step(c, m, Commit(i)), i, k, Sample(Some(v.value)), f);
      BackToIdle(s.threads, i, Offering(k, Sample(Some(v.value))));
    }
  }

  /** The step system decides as the poller does for this signal. */
  ghost predicate GateOf(c: Config, h: Poller.Host, g: Poller.Group, x: Signals.SignalSpec) {
    forall last, v :: c.gate(Poller.KeyOf(g, x), last, v) == Publishes(h.platform, g.mode, x.deadband, last, v)
  }

  function ValueOf(r: Result<Value>): Option<Value> { if r.Ok? then Some(r.value) else None }

  /** The poller's offers as the step system records them. */
  function Emitted(offers: seq<Poller.Offer>): seq<(Key, Sample)> {
    if offers == [] then []
    else
      var o := offers[|offers| - 1];
      Emitted(offers[..|offers| - 1]) + [(Poller.KeyOf(o.group, o.signal), o.sample)]
  }

  lemma EmittedAppend(offers: seq<Poller.Offer>, o: Poller.Offer)
    ensures Emitted(offers + [o]) == Emitted(offers) + [(Poller.KeyOf(o.group, o.signal), o.sample)]
  {
    assert (offers + [o])[..|offers|] == offers;
  }

  /** The same cache, and after what was offered before the same offers in the same order. */
  predicate Mirrors(s: State, cycle: Poller.Cycle, past: seq<(Key, Sample)>) {
    s.last == cycle.last && s.offered == past + Emitted(cycle.offers)
  }

  /** For good and bad readings alike, with and without batching, one read does what the poller's loop body does. */
  lemma ReadRefinesSettle(c: Config, s: State, i: nat, h: Poller.Host, g: Poller.Group, cycle: Poller.Cycle,
                          x: Signals.SignalSpec, reading: Result<Value>, f: Fault, past: seq<(Key, Sample)>)
    requires Enabled(s, Start(i, Poller.KeyOf(g, x))) && GateOf(c, h, g, x) && Mirrors(s, cycle, past)
    ensures var r := ReadOnce(c, s, i, Poller.KeyOf(g, x), ValueOf(reading), f);
      r.threads == s.threads && Mirrors(r, Poller.Settle(h, g, cycle, x.table, x, reading), past)
  {
    var k := Poller.KeyOf(g, x);
    ReadOnceEffect(c, s, i, k, ValueOf(reading), f);
    EmittedAppend(cycle.offers, Poller.Offer(g, x, Sample(ValueOf(reading))));
    Associate(past, Emitted(cycle.offers), [(k, Sample(ValueOf(reading)))]);
  }

  // ---- a whole cycle ----

  type Reading = (Signals.SignalSpec, Result<Value>)

  /** One thread takes one reading after the other. */
  function ReadAll(c: Config, s: State, i: nat, g: Poller.Group, readings: seq<Reading>, faults: seq<Fault>): (r: State)
    requires Enabled(s, Start(i, (0, ""))) && |faults| == |readings|
    ensures r.threads == s.threads
  {
    if readings == [] then s
    else
      var n := |readings| - 1;
      var m := ReadAll(c, s, i, g, readings[..n], faults[..n]);
      var (x, v) := readings[n];
      ReadOnceEffect(c, m, i, Poller.KeyOf(g, x), ValueOf(v), faults[n]);
      ReadOnce(c, m, i, Poller.KeyOf(g, x), ValueOf(v), faults[n])
  }

  /** The poller's loop body for one reading after the other. */
  function SettleAll(h: Poller.Host, g: Poller.Group, cycle: Poller.Cycle, readings: seq<Reading>): Poller.Cycle {
    if readings == [] then cycle
    else
      var (x, v) := readings[|readings| - 1];
      Poller.Settle(h, g, SettleAll(h, g, cycle, readings[..|readings| - 1]), x.table, x, v)
  }

  /** What a block gives its signals: decodings of their slices, or errors. */
  function BlockReadings(h: Poller.Host, b: Planner.Block, o: Poller.Outcome, signals: seq<Signals.SignalSpec>): seq<Reading> {
    if signals == [] then []
    else
      var x := signals[|signals| - 1];
      BlockReadings(h, b, o, signals[..|signals| - 1])
        + [(x, if o.Failed? then Err(ShortRead) else h.decode(Poller.SliceFor(b, x, o.data), x))]
  }

  function Readings(h: Poller.Host, blocks: seq<Planner.Block>, outcomes: seq<Poller.Outcome>): seq<Reading>
    requires |outcomes| == |blocks|
  {
    if blocks == [] then []
    else
      var n := |blocks| - 1;
      Readings(h, blocks[..n], outcomes[..n]) + BlockReadings(h, blocks[n], outcomes[n], blocks[n].signals)
  }

  lemma {:induction false} ReadingsOfSignals(h: Poller.Host, b: Planner.Block, o: Poller.Outcome, signals: seq<Signals.SignalSpec>)
    ensures forall r :: r in BlockReadings(h, b, o, signals) ==> r.0 in signals
  {
    if signals != [] { ReadingsOfSignals(h, b, o, signals[..|signals| - 1]); }
  }

  lemma {:induction false} ReadingsOfBlocks(h: Poller.Host, blocks: seq<Planner.Block>, outcomes: seq<Poller.Outcome>)
    requires |outcomes| == |blocks|
    ensures forall r :: r in Readings(h, blocks, outcomes) ==> exists b :: b in blocks && r.0 in b.signals
  {
    if blocks != [] {
      var n := |blocks| - 1;
      ReadingsOfBlocks(h, blocks[..n], outcomes[..n]);
      ReadingsOfSignals(h, blocks[n], outcomes[n], blocks[n].signals);
      assert blocks[n] in blocks;
    }
  }

  lemma SettleAllAppend(h: Poller.Host, g: Poller.Group, cycle: Poller.Cycle, readings: seq<Reading>, x: Signals.SignalSpec, v: Result<Value>)
    ensures SettleAll(h, g, cycle, readings + [(x, v)]) == Poller.Settle(h, g, SettleAll(h, g, cycle, readings), x.table, x, v)
  {
    assert (readings + [(x, v)])[..|readings|] == readings;
  }

  lemma {:induction false} SettleAllConcat(h: Poller.Host, g: Poller.Group, cycle: Poller.Cycle, xs: seq<Reading>, ys: seq<Reading>)
    ensures SettleAll(h, g, cycle, xs + ys) == SettleAll(h, g, SettleAll(h, g, cycle, xs), ys)
    decreases |ys|
  {
    if ys == [] {
      assert xs + ys == xs;
    } else {
      var n := |ys| - 1;
      SettleAllConcat(h, g, cycle, xs, ys[..n]);
      SettleAllAppend(h, g, cycle, xs + ys[..n], ys[n].0, ys[n].1);
      Poller.ConcatLast(xs, ys);
    }
  }

  /** A bad sample is what the loop body makes of an error. */
  lemma BadSettles(h: Poller.Host, g: Poller.Group, c: Poller.Cycle, d: Poller.Cycle, x: Signals.SignalSpec)
    requires Poller.SameEffects(c, d)
    ensures Poller.SameEffects(Poller.OfferBad(g, c, x), Poller.Settle(h, g, d, x.table, x, Err(ShortRead)))
  {
  }

  lemma {:induction false} FailedBlockSettles(h: Poller.Host, g: Poller.Group, c: Poller.Cycle, d: Poller.Cycle,
                                              b: Planner.Block, signals: seq<Signals.SignalSpec>)
    requires Poller.SameEffects(c, d)
    ensures Poller.SameEffects(Poller.OfferAllBad(g, c, signals), SettleAll(h, g, d, BlockReadings(h, b, Poller.Failed, signals)))
  {
    if signals != [] {
      var init, x := signals[..|signals| - 1], signals[|signals| - 1];
      FailedBlockSettles(h, g, c, d, b, init);
      SettleAllAppend(h, g, d, BlockReadings(h, b, Poller.Failed, init), x, Err(ShortRead));
      BadSettles(h, g, Poller.OfferAllBad(g, c, init), SettleAll(h, g, d, BlockReadings(h, b, Poller.Failed, init)), x);
    }
  }

  lemma {:induction false} AnsweredBlockSettles(h: Poller.Host, g: Poller.Group, c: Poller.Cycle, d: Poller.Cycle,
                                                b: Planner.Block, data: seq<int>, signals: seq<Signals.SignalSpec>)
    requires Poller.SameEffects(c, d)
    ensures Poller.SameEffects(Poller.PollSignals(h, g, c, b, data, signals),
                               SettleAll(h, g, d, BlockReadings(h, b, Poller.Answer(data), signals)))
  {
    if signals != [] {
      var init, x := signals[..|signals| - 1], signals[|signals| - 1];
      AnsweredBlockSettles(h, g, c, d, b, data, init);
      var e, v := SettleAll(h, g, d, BlockReadings(h, b, Poller.Answer(data), init)), h.decode(Poller.SliceFor(b, x, data), x);
      SettleAllAppend(h, g, d, BlockReadings(h, b, Poller.Answer(data), init), x, v);
      Poller.SettleSame(h, g, Poller.PollSignals(h, g, c, b, data, init), e, b.table, x.table, x, v);
    }
  }

  /** A cycle is its readings, one after the other. */
  lemma {:induction false} CycleSettles(h: Poller.Host, g: Poller.Group, c: Poller.Cycle,
                                        blocks: seq<Planner.Block>, outcomes: seq<Poller.Outcome>)
    requires |outcomes| == |blocks|
    ensures Poller.SameEffects(Poller.PollBlocks(h, g, c, blocks, outcomes), SettleAll(h, g, c, Readings(h, blocks, outcomes)))
  {
    if blocks != [] {
      var n := |blocks| - 1;
      var b, o := blocks[n], outcomes[n];
      CycleSettles(h, g, c, blocks[..n], outcomes[..n]);
      var before := Poller.PollBlocks(h, g, c, blocks[..n], outcomes[..n]);
      var d := SettleAll(h, g, c, Readings(h, blocks[..n], outcomes[..n]));
      if o.Failed? {
        FailedBlockSettles(h, g, Poller.StartBlock(before, b, o), d, b, b.signals);
      } else {
        AnsweredBlockSettles(h, g, Poller.StartBlock(before, b, o), d, b, o.data, b.signals);
      }
      SettleAllConcat(h, g, c, Readings(h, blocks[..n], outcomes[..n]), BlockReadings(h, b, o, b.signals));
    }
  }

  lemma {:induction false} ReadAllMirrors(c: Config, s: State, i: nat, h: Poller.Host, g: Poller.Group, cycle: Poller.Cycle,
                                          readings: seq<Reading>, faults: seq<Fault>, past: seq<(Key, Sample)>)
    requires Enabled(s, Start(i, (0, ""))) && |faults| == |readings| && Mirrors(s, cycle, past)
    requires forall r :: r in readings ==> GateOf(c, h, g, r.0)
    ensures Mirrors(ReadAll(c, s, i, g, readings, faults), SettleAll(h, g, cycle, readings), past)
  {
    if readings != [] {
      var n := |readings| - 1;
      assert readings[n] in readings;
      ReadAllMirrors(c, s, i, h, g, cycle, readings[..n], faults[..n], past);
      var m := ReadAll(c, s, i, g, readings[..n], faults[..n]);
      ReadRefinesSettle(c, m, i, h, g, SettleAll(h, g, cycle, readings[..n]), readings[n].0, readings[n].1, faults[n], past);
    }
  }

  /** A thread of the step system that takes the readings of a cycle does to the cache and to the offers what
      PollManager.PollGroup does, whatever blocks fail and, without batching, whatever publications raise. */
  lemma CycleRefines(c: Config, s: State, i: nat, h: Poller.Host, g: Poller.Group, cycle: Poller.Cycle,
                     blocks: seq<Planner.Block>, outcomes: seq<Poller.Outcome>, faults: seq<Fault>, past: seq<(Key, Sample)>)
    requires Enabled(s, Start(i, (0, ""))) && Mirrors(s, cycle, past)
    requires |outcomes| == |blocks| && |faults| == |Readings(h, blocks, outcomes)|
    requires forall b, x :: b in blocks && x in b.signals ==> GateOf(c, h, g, x)
    ensures Mirrors(ReadAll(c, s, i, g, Readings(h, blocks, outcomes), faults),
                    Poller.PollBlocks(h, g, cycle, blocks, outcomes), past)
  {
    ReadingsOfBlocks(h, blocks, outcomes);
    ReadAllMirrors(c, s, i, h, g, cycle, Readings(h, blocks, outcomes), faults, past);
    CycleSettles(h, g, cycle, blocks, outcomes);
  }
}

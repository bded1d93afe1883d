/** No sample is lost or invented, in any interleaving and with any failures. */
module Conservation {
  import opened Values
  import opened Publisher
  import opened Runtime

  // ---- sums over the threads ----

  function Total(threads: seq<Thread>, f: Stage -> nat): nat {
    if threads == [] then 0 else Total(threads[..|threads| - 1], f) + f(threads[|threads| - 1].stage)
  }

  lemma UpdateInit<T>(s: seq<T>, i: nat, x: T)
    requires i < |s|
    ensures i < |s| - 1 ==> s[i := x][..|s| - 1] == s[..|s| - 1][i := x]
    ensures i == |s| - 1 ==> s[i := x][..|s| - 1] == s[..|s| - 1]
  {
  }

  lemma {:induction false} TotalUpdate(threads: seq<Thread>, i: nat, t: Thread, f: Stage -> nat)
    requires i < |threads|
    ensures Total(threads[i := t], f) + f(threads[i].stage) == Total(threads, f) + f(t.stage)
  {
    UpdateInit(threads, i, t);
    if i < |threads| - 1 { TotalUpdate(threads[..|threads| - 1], i, t, f); }
  }

  function EntryWeight(entries: seq<Entry>, w: Weight): nat {
    if entries == [] then 0
    else EntryWeight(entries[..|entries| - 1], w) + Weigh(entries[|entries| - 1].key, entries[|entries| - 1].samples, w)
  }

  function OfferWeight(offered: seq<(Key, Sample)>, w: Weight): nat {
    if offered == [] then 0
    else OfferWeight(offered[..|offered| - 1], w) + w(offered[|offered| - 1].0, offered[|offered| - 1].1)
  }

  /** The weight a thread has in flight. */
  function Carrying(w: Weight): Stage -> nat { (stage: Stage) => EntryWeight(InFlight(stage), w) }

  lemma EntryAppend(entries: seq<Entry>, e: Entry, w: Weight)
    ensures EntryWeight(entries + [e], w) == EntryWeight(entries, w) + Weigh(e.key, e.samples, w)
  {
    assert (entries + [e])[..|entries|] == entries;
  }

  lemma OfferAppend(offered: seq<(Key, Sample)>, k: Key, x: Sample, w: Weight)
    ensures OfferWeight(offered + [(k, x)], w) == OfferWeight(offered, w) + w(k, x)
  {
    assert (offered + [(k, x)])[..|offered|] == offered;
  }

  lemma {:induction false} EntryPrepend(e: Entry, entries: seq<Entry>, w: Weight)
    ensures EntryWeight([e] + entries, w) == Weigh(e.key, e.samples, w) + EntryWeight(entries, w)
  {
    if entries == [] {
      EntryAppend([], e, w);
      assert [e] + entries == [] + [e];
    } else {
      var n := |entries| - 1;
      EntryPrepend(e, entries[..n], w);
      EntryAppend([e] + entries[..n], entries[n], w);
      Associate([e], entries[..n], [entries[n]]);
      Snoc(entries, n);
    }
  }

  lemma {:induction false} AppendToWeight(pending: seq<Entry>, k: Key, x: Sample, w: Weight)
    requires DistinctKeys(pending)
    ensures HasKey(pending, k) ==> EntryWeight(AppendTo(pending, k, x), w) == EntryWeight(pending, w) + w(k, x)
    ensures !HasKey(pending, k) ==> EntryWeight(AppendTo(pending, k, x), w) == EntryWeight(pending, w)
  {
    if pending != [] {
      var init, e := pending[..|pending| - 1], pending[|pending| - 1];
      AppendToWeight(init, k, x, w);
      SplitKey(init, e, k);
      Snoc(pending, |pending| - 1);
      if e.key == k {
        assert !HasKey(init, k);
        EntryAppend(AppendTo(init, k, x), e.(samples := e.samples + [x]), w);
        WeighAppend(k, e.samples, x, w);
      } else {
        EntryAppend(AppendTo(init, k, x), e, w);
      }
    }
  }

  lemma AddSampleWeight(pending: seq<Entry>, k: Key, x: Sample, w: Weight)
    requires DistinctKeys(pending)
    ensures EntryWeight(AddSample(pending, k, x), w) == EntryWeight(pending, w) + w(k, x)
  {
    AppendToWeight(pending, k, x, w);
    EntryAppend(pending, Entry(k, [x]), w);
    SingleWeight(k, x, w);
  }

  lemma SingleWeight(k: Key, x: Sample, w: Weight)
    ensures Weigh(k, [x], w) == w(k, x) && EntryWeight([Entry(k, [x])], w) == w(k, x)
  {
    WeighAppend(k, [], x, w);
    assert [] + [x] == [x];
    EntryAppend([], Entry(k, [x]), w);
    assert [] + [Entry(k, [x])] == [Entry(k, [x])];
  }

  // ---- what one step does to the samples in flight ----

  /** Actions that neither bring samples into flight nor publish them. */
  predicate Quiet(a: Action) { !a.SetPause? && !a.Offer? && !a.Swap? && !a.Send? }

  lemma QuietFrame(c: Config, s: State, a: Action)
    requires Enabled(s, a) && Quiet(a)
    ensures Step(c, s, a).threads == s.threads[a.i := NextThread(c, s, s.threads[a.i], a)]
    ensures Step(c, s, a).offered == s.offered && Step(c, s, a).pending == s.pending
    ensures Step(c, s, a).log == s.log && Step(c, s, a).dropped == s.dropped
    ensures Step(c, s, a).samplesPublished == s.samplesPublished + (if a.Close? then s.threads[a.i].stage.samples else 0)
    ensures Step(c, s, a).failures == s.failures + (if a.RecordFailure? then 1 else 0)
  {
  }

  lemma QuietFlight(c: Config, s: State, a: Action)
    requires Enabled(s, a) && Quiet(a)
    ensures InFlight(NextThread(c, s, s.threads[a.i], a).stage) == InFlight(s.threads[a.i].stage)
  {
    var t := s.threads[a.i];
    if a.Begin? { assert [t.stage.queue[0]] + t.stage.queue[1..] == t.stage.queue; }
  }

  /** A send takes exactly its parcel out of flight, or on a fault everything the entry still held. */
  lemma SendFlight(stage: Stage, fault: bool, w: Weight)
    requires stage.SendValued? || stage.SendValueless?
    ensures EntryWeight(InFlight(stage), w)
      == EntryWeight(InFlight(AfterSend(stage, fault)), w) + Weigh(Leaving(stage, fault).key, Leaving(stage, fault).samples, w)
  {
    EntryPrepend(stage.entry, stage.queue, w);
    if stage.SendValued? {
      SendValuedFlight(stage.entry, stage.queue, fault, w);
    } else {
      SendValuelessFlight(stage.entry, stage.queue, stage.samples, fault, w);
    }
  }

  lemma SendValuelessFlight(e: Entry, q: seq<Entry>, n: nat, fault: bool, w: Weight)
    ensures InFlight(AfterSend(SendValueless(e, q, n), fault)) == q
    ensures Leaving(SendValueless(e, q, n), fault) == Message(e.key, e.samples)
  {
  }

  function Leaving(stage: Stage, fault: bool): Message {
    if fault && Parcel(stage).samples != [] then Casualties(stage) else Parcel(stage)
  }

  lemma SendValuedFlight(e: Entry, q: seq<Entry>, fault: bool, w: Weight)
    ensures Weigh(e.key, e.samples, w) + EntryWeight(q, w)
      == EntryWeight(InFlight(AfterSend(SendValued(e, q), fault)), w)
       + Weigh(e.key, Leaving(SendValued(e, q), fault).samples, w)
  {
    if !(fault && OfKind(e.samples, true) != []) {
      EntryPrepend(Entry(e.key, OfKind(e.samples, false)), q, w);
      WeighKinds(e.key, e.samples, w);
    }
  }

  /** A send that goes through adds its samples to the unrecorded ones; one that fails adds a failure. */
  lemma SendCounts(stage: Stage, fault: bool)
    requires stage.SendValued? || stage.SendValueless?
    ensures fault && Parcel(stage).samples != [] ==> Unrecorded(AfterSend(stage, fault)) == Unrecorded(stage)
    ensures fault && Parcel(stage).samples != [] ==> FailurePending(AfterSend(stage, fault)) == 1
    ensures !(fault && Parcel(stage).samples != []) ==>
      Unrecorded(AfterSend(stage, fault)) == Unrecorded(stage) + |Parcel(stage).samples|
    ensures !(fault && Parcel(stage).samples != []) ==> FailurePending(AfterSend(stage, fault)) == 0
  {
  }

  lemma CasualtiesExist(stage: Stage)
    requires Parcel(stage).samples != []
    ensures Casualties(stage).samples != []
  {
  }

  // ---- the invariant ----

  /** Each offered sample is exactly one of buffered, in flight, delivered and dropped. */
  ghost predicate Conserved(s: State, w: Weight) {
    OfferWeight(s.offered, w)
      == EntryWeight(s.pending, w) + Total(s.threads, Carrying(w)) + MessageWeight(s.log, w) + MessageWeight(s.dropped, w)
  }

  /** What the counters say: the published samples, except those whose publication is still to be
      recorded; one failure per drop, except those still to be recorded; and no drop without samples. */
  ghost predicate Recorded(s: State) {
    && s.samplesPublished + Total(s.threads, Unrecorded) == SampleCount(s.log)
    && s.failures + Total(s.threads, FailurePending) == |s.dropped|
    && forall m :: m in s.dropped ==> m.samples != []
  }

  ghost predicate BufferOk(c: Config, s: State) {
    && DistinctKeys(s.pending)
    && (forall e :: e in s.pending ==> e.samples != [])
    && (!c.batched ==> s.pending == [])
  }

  lemma StepKeepsBuffer(c: Config, s: State, a: Action)
    requires Enabled(s, a) && BufferOk(c, s)
    ensures BufferOk(c, Step(c, s, a))
  {
    if a.Offer? && c.batched {
      AddSampleKeys(s.pending, s.threads[a.i].stage.key, s.threads[a.i].stage.x);
    }
  }

  lemma OfferConserves(c: Config, s: State, a: Action, w: Weight)
    requires Enabled(s, a) && a.Offer? && Conserved(s, w) && BufferOk(c, s)
    ensures Conserved(Step(c, s, a), w)
  {
    if c.batched { BatchedOfferConserves(c, s, a, w); } else { DirectOfferConserves(c, s, a, w); }
  }

  lemma BatchedOfferConserves(c: Config, s: State, a: Action, w: Weight)
    requires Enabled(s, a) && a.Offer? && c.batched && Conserved(s, w) && DistinctKeys(s.pending)
    ensures Conserved(Step(c, s, a), w)
  {
    var t := s.threads[a.i];
    OfferFrame(c, s, a);
    TotalUpdate(s.threads, a.i, t.(stage := Idle), Carrying(w));
    OfferAppend(s.offered, t.stage.key, t.stage.x, w);
    AddSampleWeight(s.pending, t.stage.key, t.stage.x, w);
  }

  lemma DirectOfferConserves(c: Config, s: State, a: Action, w: Weight)
    requires Enabled(s, a) && a.Offer? && !c.batched && Conserved(s, w)
    ensures Conserved(Step(c, s, a), w)
  {
    var t := s.threads[a.i];
    var e := Entry(t.stage.key, [t.stage.x]);
    OfferFrame(c, s, a);
    TotalUpdate(s.threads, a.i, t.(stage := SendValued(e, [])), Carrying(w));
    OfferAppend(s.offered, t.stage.key, t.stage.x, w);
    SingleWeight(t.stage.key, t.stage.x, w);
    assert InFlight(SendValued(e, [])) == [e];
  }

  lemma OfferFrame(c: Config, s: State, a: Action)
    requires Enabled(s, a) && a.Offer?
    ensures InFlight(s.threads[a.i].stage) == []
    ensures Step(c, s, a).offered == s.offered + [(s.threads[a.i].stage.key, s.threads[a.i].stage.x)]
    ensures Step(c, s, a).log == s.log && Step(c, s, a).dropped == s.dropped
    ensures c.batched ==> Step(c, s, a).pending == AddSample(s.pending, s.threads[a.i].stage.key, s.threads[a.i].stage.x)
    ensures !c.batched ==> Step(c, s, a).pending == s.pending
    ensures c.batched ==> Step(c, s, a).threads == s.threads[a.i := s.threads[a.i].(stage := Idle)]
    ensures !c.batched ==>
      Step(c, s, a).threads
        == s.threads[a.i := s.threads[a.i].(stage := SendValued(Entry(s.threads[a.i].stage.key, [s.threads[a.i].stage.x]), []))]
  {
  }

  lemma SendFrame(c: Config, s: State, a: Action)
    requires Enabled(s, a) && a.Send?
    ensures Step(c, s, a).threads == s.threads[a.i := s.threads[a.i].(stage := AfterSend(s.threads[a.i].stage, a.fault))]
    ensures Step(c, s, a).offered == s.offered && Step(c, s, a).pending == s.pending
    ensures Parcel(s.threads[a.i].stage).samples == [] ==> Step(c, s, a).log == s.log && Step(c, s, a).dropped == s.dropped
    ensures Parcel(s.threads[a.i].stage).samples != [] && a.fault ==>
      Step(c, s, a).log == s.log && Step(c, s, a).dropped == s.dropped + [Leaving(s.threads[a.i].stage, a.fault)]
    ensures Parcel(s.threads[a.i].stage).samples != [] && !a.fault ==>
      Step(c, s, a).dropped == s.dropped && Step(c, s, a).log == s.log + [Leaving(s.threads[a.i].stage, a.fault)]
  {
  }

  lemma SendConserves(c: Config, s: State, a: Action, w: Weight)
    requires Enabled(s, a) && a.Send? && Conserved(s, w)
    ensures Conserved(Step(c, s, a), w)
  {
    var t := s.threads[a.i];
    var m := Leaving(t.stage, a.fault);
    SendFrame(c, s, a);
    SendFlight(t.stage, a.fault, w);
    TotalUpdate(s.threads, a.i, t.(stage := AfterSend(t.stage, a.fault)), Carrying(w));
    SentOrDropped(s.log, s.dropped, m, w);
  }

  lemma SentOrDropped(log: seq<Message>, dropped: seq<Message>, m: Message, w: Weight)
    ensures MessageWeight(log + [m], w) == MessageWeight(log, w) + Weigh(m.key, m.samples, w)
    ensures MessageWeight(dropped + [m], w) == MessageWeight(dropped, w) + Weigh(m.key, m.samples, w)
    ensures m.samples == [] ==> Weigh(m.key, m.samples, w) == 0
  {
    MessageAppend(log, m, w);
    MessageAppend(dropped, m, w);
  }

  lemma QuietConserves(c: Config, s: State, a: Action, w: Weight)
    requires Enabled(s, a) && Quiet(a) && Conserved(s, w)
    ensures Conserved(Step(c, s, a), w)
  {
    QuietFrame(c, s, a);
    QuietFlight(c, s, a);
    TotalUpdate(s.threads, a.i, NextThread(c, s, s.threads[a.i], a), Carrying(w));
  }

  lemma SwapConserves(c: Config, s: State, a: Action, w: Weight)
    requires Enabled(s, a) && a.Swap? && Conserved(s, w)
    ensures Conserved(Step(c, s, a), w)
  {
    TotalUpdate(s.threads, a.i, NextThread(c, s, s.threads[a.i], a), Carrying(w));
  }

  lemma StepConserves(c: Config, s: State, a: Action, w: Weight)
    requires Enabled(s, a) && Conserved(s, w) && BufferOk(c, s)
    ensures Conserved(Step(c, s, a), w)
  {
    if a.Offer? {
      OfferConserves(c, s, a, w);
    } else if a.Send? {
      SendConserves(c, s, a, w);
    } else if a.Swap? {
      SwapConserves(c, s, a, w);
    } else if Quiet(a) {
      QuietConserves(c, s, a, w);
    }
  }

  lemma StepRecords(c: Config, s: State, a: Action)
    requires Enabled(s, a) && Recorded(s)
    ensures Recorded(Step(c, s, a))
  {
    if a.Send? {
      SendRecords(c, s, a);
    } else if Quiet(a) {
      QuietRecords(c, s, a);
    } else if !a.SetPause? {
      TotalUpdate(s.threads, a.i, NextThread(c, s, s.threads[a.i], a), Unrecorded);
      TotalUpdate(s.threads, a.i, NextThread(c, s, s.threads[a.i], a), FailurePending);
    }
  }

  lemma QuietRecords(c: Config, s: State, a: Action)
    requires Enabled(s, a) && Quiet(a) && Recorded(s)
    ensures Recorded(Step(c, s, a))
  {
    var t := NextThread(c, s, s.threads[a.i], a);
    QuietFrame(c, s, a);
    QuietCounts(c, s, a);
    TotalUpdate(s.threads, a.i, t, Unrecorded);
    TotalUpdate(s.threads, a.i, t, FailurePending);
  }

  lemma QuietCounts(c: Config, s: State, a: Action)
    requires Enabled(s, a) && Quiet(a)
    ensures Unrecorded(NextThread(c, s, s.threads[a.i], a).stage) + (if a.Close? then s.threads[a.i].stage.samples else 0)
      == Unrecorded(s.threads[a.i].stage)
    ensures FailurePending(NextThread(c, s, s.threads[a.i], a).stage) + (if a.RecordFailure? then 1 else 0)
      == FailurePending(s.threads[a.i].stage)
  {
  }

  lemma SendRecords(c: Config, s: State, a: Action)
    requires Enabled(s, a) && a.Send? && Recorded(s)
    ensures Recorded(Step(c, s, a))
  {
    var stage := s.threads[a.i].stage;
    var t := NextThread(c, s, s.threads[a.i], a);
    TotalUpdate(s.threads, a.i, t, Unrecorded);
    TotalUpdate(s.threads, a.i, t, FailurePending);
    SendCounts(stage, a.fault);
    LogAppend(s.log, Parcel(stage));
    if Parcel(stage).samples != [] { CasualtiesExist(stage); }
  }

  lemma {:induction false} StartsEmpty(threads: seq<Thread>, f: Stage -> nat)
    requires f(Idle) == 0 && forall t :: t in threads ==> t.stage == Idle
    ensures Total(threads, f) == 0
  {
    if threads != [] {
      StartsEmpty(threads[..|threads| - 1], f);
      assert threads[|threads| - 1] in threads;
    }
  }

  lemma RunPrefix(c: Config, states: seq<State>, acts: seq<Action>, n: nat)
    requires Run(c, states, acts) && n <= |acts|
    ensures Run(c, states[..n + 1], acts[..n])
  {
  }

  /** Over every run, whatever the interleaving and whichever publications fail: each offered sample is
      exactly one of held, in flight, delivered or dropped, by every weighting; the counters total what
      was delivered and dropped, up to the publications still being recorded. */
  lemma {:induction false} RunsConserve(c: Config, states: seq<State>, acts: seq<Action>, w: Weight)
    requires Run(c, states, acts)
    ensures Conserved(states[|acts|], w) && Recorded(states[|acts|]) && BufferOk(c, states[|acts|])
  {
    if acts == [] {
      StartsEmpty(states[0].threads, Carrying(w));
      StartsEmpty(states[0].threads, Unrecorded);
      StartsEmpty(states[0].threads, FailurePending);
    } else {
      var n := |acts| - 1;
      RunPrefix(c, states, acts, n);
      RunsConserve(c, states[..n + 1], acts[..n], w);
      StepKeepsBuffer(c, states[n], acts[n]);
      StepConserves(c, states[n], acts[n], w);
      StepRecords(c, states[n], acts[n]);
    }
  }

  /** The weighting that counts the copies of one sample. */
  function Copies(k: Key, x: Sample): Weight { (j: Key, y: Sample) => if j == k && y == x then 1 else 0 }

  /** A sample offered once is in exactly one place. */
  lemma ExactlyOnePlace(c: Config, states: seq<State>, acts: seq<Action>, k: Key, x: Sample)
    requires Run(c, states, acts) && OfferWeight(states[|acts|].offered, Copies(k, x)) == 1
    ensures var s, w := states[|acts|], Copies(k, x);
      EntryWeight(s.pending, w) + Total(s.threads, Carrying(w)) + MessageWeight(s.log, w) + MessageWeight(s.dropped, w) == 1
  {
    RunsConserve(c, states, acts, Copies(k, x));
  }

  const EACH: Weight := (k: Key, x: Sample) => 1

  /** Once every thread has returned, the buffer is empty and no failure was counted, the log holds
      exactly the offered samples, and the counter says how many there were. */
  lemma QuietRunDeliversAll(c: Config, states: seq<State>, acts: seq<Action>, w: Weight)
    requires Run(c, states, acts)
    requires states[|acts|].pending == [] && states[|acts|].failures == 0
    requires forall t :: t in states[|acts|].threads ==> t.stage == Idle
    ensures MessageWeight(states[|acts|].log, w) == OfferWeight(states[|acts|].offered, w)
    ensures states[|acts|].samplesPublished == |states[|acts|].offered|
  {
    var s := states[|acts|];
    RunsConserve(c, states, acts, w);
    RunsConserve(c, states, acts, EACH);
    StartsEmpty(s.threads, Carrying(w));
    StartsEmpty(s.threads, Carrying(EACH));
    StartsEmpty(s.threads, Unrecorded);
    StartsEmpty(s.threads, FailurePending);
    CountMessages(s.log);
    CountOffers(s.offered);
  }

  lemma {:induction false} CountMessages(log: seq<Message>)
    ensures MessageWeight(log, EACH) == SampleCount(log)
  {
    if log != [] {
      CountMessages(log[..|log| - 1]);
      CountSamples(log[|log| - 1].key, log[|log| - 1].samples);
    }
  }

  lemma {:induction false} CountSamples(k: Key, samples: seq<Sample>)
    ensures Weigh(k, samples, EACH) == |samples|
  {
    if samples != [] { CountSamples(k, samples[..|samples| - 1]); }
  }

  lemma {:induction false} CountOffers(offered: seq<(Key, Sample)>)
    ensures OfferWeight(offered, EACH) == |offered|
  {
    if offered != [] { CountOffers(offered[..|offered| - 1]); }
  }
}

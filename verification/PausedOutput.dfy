/** Exactly what a paused instance can still emit and publish. The code says it publishes nothing
    (modbus_adapter/command_service.py:429), but the latch is looked at only at the start of a cycle. */
module PausedOutput {
  import opened Values
  import opened Publisher
  import opened Runtime
  import opened Conservation
  import opened Schedules
  import opened PauseSafety

  // ---- exactly what can still be emitted under the latch ----

  /** Steps from any state on. */
  ghost predicate Trace(c: Config, states: seq<State>, acts: seq<Action>) {
    && |states| == |acts| + 1
    && forall n :: 0 <= n < |acts| ==> Enabled(states[n], acts[n]) && states[n + 1] == Step(c, states[n], acts[n])
  }

  ghost predicate TraceTo(c: Config, states: seq<State>, acts: seq<Action>, s: State, r: State) {
    Trace(c, states, acts) && states[0] == s && states[|acts|] == r && Latched(states, 0, |acts|)
  }

  /** The run can go from s to r with the latch set all the way. */
  ghost predicate LeadsLatched(c: Config, s: State, r: State) { exists states, acts :: TraceTo(c, states, acts, s, r) }

  lemma LeadsToItself(c: Config, s: State)
    requires s.paused
    ensures LeadsLatched(c, s, s)
  {
    var none: seq<Action> := [];
    assert TraceTo(c, [s], none, s, s);
  }

  lemma LeadsOn(c: Config, s: State, r: State, a: Action)
    requires LeadsLatched(c, s, r) && Enabled(r, a) && a != SetPause(false)
    ensures LeadsLatched(c, s, Step(c, r, a))
  {
    var states, acts :| TraceTo(c, states, acts, s, r);
    var more, trace := states + [Step(c, r, a)], acts + [a];
    StepFrame(c, r, a);
    forall n | 0 <= n < |trace| ensures Enabled(more[n], trace[n]) && more[n + 1] == Step(c, more[n], trace[n]) {
      if n < |acts| { assert more[n] == states[n] && more[n + 1] == states[n + 1] && trace[n] == acts[n]; }
    }
    assert TraceTo(c, more, trace, s, Step(c, r, a));
  }

  /** Without touching the latch the run can come to an emission. */
  ghost predicate CanEmit(c: Config, s: State) { exists r, a :: LeadsLatched(c, s, r) && Enabled(r, a) && Emits(a) }

  /** The samples taken out and still to be published. */
  function Queue(stage: Stage): seq<Entry> {
    match stage
    case Flushing(q) => q
    case Failing(q, _) => q
    case Closing(q, _) => q
    case _ => []
  }

  /** The thread still has something to emit: it is reading, offering or publishing, has samples left to publish,
      is a poller inside an admitted cycle, the tick before its flush, or stops the device. */
  predicate HasWork(t: Thread) {
    || t.stage.Reading? || t.stage.Deciding? || t.stage.Offering? || t.stage.SendValued? || t.stage.SendValueless?
    || Queue(t.stage) != []
    || t.role == Stopper || (Polls(t.role) && t.admitted) || (t.role == Tick && t.admitted && !t.swapped)
  }

  predicate NoWork(s: State) { forall i :: 0 <= i < |s.threads| ==> !HasWork(s.threads[i]) }

  lemma NoWorkStep(c: Config, s: State, a: Action)
    requires Enabled(s, a) && s.paused && NoWork(s)
    ensures NoWork(Step(c, s, a)) && !Emits(a)
  {
    StepFrame(c, s, a);
    if !a.SetPause? { IdleStaysIdle(c, s, a); }
  }

  lemma IdleStaysIdle(c: Config, s: State, a: Action)
    requires Enabled(s, a) && !a.SetPause? && s.paused && !HasWork(s.threads[a.i])
    ensures !HasWork(NextThread(c, s, s.threads[a.i], a)) && !Emits(a)
  {
  }

  lemma {:induction false} NoWorkAt(c: Config, states: seq<State>, acts: seq<Action>, n: nat)
    requires Trace(c, states, acts) && n <= |acts| && Latched(states, 0, |acts|) && NoWork(states[0])
    ensures NoWork(states[n])
  {
    if n > 0 {
      NoWorkAt(c, states, acts, n - 1);
      NoWorkStep(c, states[n - 1], acts[n - 1]);
    }
  }

  lemma NoWorkSilent(c: Config, s: State)
    requires s.paused && NoWork(s)
    ensures !CanEmit(c, s)
  {
    forall r, a | LeadsLatched(c, s, r) && Enabled(r, a) ensures !Emits(a) {
      var states, acts :| TraceTo(c, states, acts, s, r);
      NoWorkAt(c, states, acts, |acts|);
      NoWorkStep(c, r, a);
    }
  }

  /** The next step of a thread with work toward its emission. */
  function Toward(t: Thread, i: nat): Action {
    match t.stage
    case Idle => if Polls(t.role) then Start(i, (0, "")) else Swap(i)
    case Reading(_) => Finish(i, None)
    case Deciding(_, _) => Commit(i)
    case Offering(_, _) => Offer(i)
    case Flushing(q) => if q == [] then Done(i) else Begin(i)
    case Failing(_, _) => RecordFailure(i)
    case Closing(_, _) => Close(i)
    case _ => Send(i, false)
  }

  function StepsLeft(stage: Stage): nat {
    match stage
    case Deciding(_, _) => 1
    case Reading(_) => 2
    case Idle => 3
    case Flushing(_) => 4
    case Closing(_, _) => 5
    case Failing(_, _) => 6
    case _ => 0
  }

  lemma WorkGoesOn(c: Config, s: State, i: nat)
    requires i < |s.threads| && HasWork(s.threads[i])
    ensures var a := Toward(s.threads[i], i);
      && Enabled(s, a) && a != SetPause(false)
      && (!Emits(a) ==>
        var t := NextThread(c, s, s.threads[i], a);
        HasWork(t) && StepsLeft(t.stage) < StepsLeft(s.threads[i].stage))
  {
  }

  lemma WorkEmits(c: Config, s: State, r: State, i: nat)
    requires LeadsLatched(c, s, r) && i < |r.threads| && HasWork(r.threads[i])
    ensures CanEmit(c, s)
    decreases StepsLeft(r.threads[i].stage)
  {
    var a := Toward(r.threads[i], i);
    WorkGoesOn(c, r, i);
    if !Emits(a) {
      LeadsOn(c, s, r, a);
      StepFrame(c, r, a);
      WorkEmits(c, s, Step(c, r, a), i);
    }
  }

  /** Exactly when a paused instance can still emit: some thread has work left. */
  lemma PausedEmitsExactly(c: Config, s: State)
    requires s.paused
    ensures CanEmit(c, s) <==> exists i :: 0 <= i < |s.threads| && HasWork(s.threads[i])
  {
    LeadsToItself(c, s);
    if i :| 0 <= i < |s.threads| && HasWork(s.threads[i]) {
      WorkEmits(c, s, s, i);
    } else {
      NoWorkSilent(c, s);
    }
  }

  // ---- exactly what can still be published under the latch ----

  /** Without touching the latch the run can come to a state in which more has been published. */
  ghost predicate CanPublish(c: Config, s: State) { exists r :: LeadsLatched(c, s, r) && r.log != s.log }

  /** Some entry holds samples. */
  predicate Loaded(entries: seq<Entry>) { exists i :: 0 <= i < |entries| && entries[i].samples != [] }

  /** The thread can still empty the buffer. */
  predicate CanSwap(t: Thread) { t.role == Stopper || (t.role == Tick && t.admitted && !t.swapped) }

  /** The thread can still offer. */
  predicate CanOffer(t: Thread) {
    t.stage.Reading? || t.stage.Deciding? || t.stage.Offering? || (Polls(t.role) && t.admitted)
  }

  predicate SomeLoaded(s: State) { exists i :: 0 <= i < |s.threads| && Loaded(InFlight(s.threads[i].stage)) }

  predicate SomeSwaps(s: State) { exists i :: 0 <= i < |s.threads| && CanSwap(s.threads[i]) }

  predicate SomeOffers(s: State) { exists i :: 0 <= i < |s.threads| && CanOffer(s.threads[i]) }

  /** Samples are in flight; or samples are buffered, or can still be, and a thread can still take them out; or
      samples can still be offered and go out directly. */
  predicate PublishesYet(c: Config, s: State) {
    || SomeLoaded(s)
    || (Loaded(s.pending) && SomeSwaps(s))
    || (SomeOffers(s) && (!c.batched || SomeSwaps(s)))
  }

  // the condition is necessary

  lemma NothingLoaded(e: Entry, q: seq<Entry>)
    requires !Loaded([e] + q)
    ensures e.samples == [] && !Loaded(q) && !Loaded([Entry(e.key, [])] + q)
  {
    assert ([e] + q)[0] == e;
    forall i | 0 <= i < |q| ensures q[i].samples == [] { assert ([e] + q)[i + 1] == q[i]; }
  }

  /** A thread without samples publishes nothing and comes by samples only through an offer or a swap. */
  lemma UnloadedStep(c: Config, s: State, a: Action)
    requires Enabled(s, a) && !a.SetPause? && !Loaded(InFlight(s.threads[a.i].stage))
    ensures Step(c, s, a).log == s.log
    ensures !a.Offer? && !a.Swap? ==> !Loaded(InFlight(NextThread(c, s, s.threads[a.i], a).stage))
  {
    if a.Send? {
      UnloadedSend(c, s, a);
    } else if Quiet(a) {
      QuietFrame(c, s, a);
      QuietFlight(c, s, a);
    }
  }

  lemma UnloadedSend(c: Config, s: State, a: Action)
    requires Enabled(s, a) && a.Send? && !Loaded(InFlight(s.threads[a.i].stage))
    ensures Step(c, s, a).log == s.log
    ensures !Loaded(InFlight(NextThread(c, s, s.threads[a.i], a).stage))
  {
    NothingLoaded(s.threads[a.i].stage.entry, s.threads[a.i].stage.queue);
  }

  /** Under the latch no thread comes to offer or to swap that could not before. */
  lemma AbilitiesFade(c: Config, s: State, a: Action)
    requires Enabled(s, a) && !a.SetPause? && s.paused
    ensures var t := NextThread(c, s, s.threads[a.i], a);
      && (CanSwap(t) ==> CanSwap(s.threads[a.i])) && (CanOffer(t) ==> CanOffer(s.threads[a.i]))
    ensures a.Offer? ==> CanOffer(s.threads[a.i])
    ensures a.Swap? ==> CanSwap(s.threads[a.i])
  {
  }

  lemma AbilitiesStep(c: Config, s: State, a: Action)
    requires Enabled(s, a) && s.paused
    ensures SomeSwaps(Step(c, s, a)) ==> SomeSwaps(s)
    ensures SomeOffers(Step(c, s, a)) ==> SomeOffers(s)
  {
    StepFrame(c, s, a);
    if !a.SetPause? {
      AbilitiesFade(c, s, a);
      var r := Step(c, s, a);
      if SomeSwaps(r) {
        var j :| 0 <= j < |r.threads| && CanSwap(r.threads[j]);
        assert CanSwap(s.threads[j]);
      }
      if SomeOffers(r) {
        var j :| 0 <= j < |r.threads| && CanOffer(r.threads[j]);
        assert CanOffer(s.threads[j]);
      }
    }
  }

  /** Where nothing can be published, a step publishes nothing and leaves it so. */
  lemma SilentStep(c: Config, s: State, a: Action)
    requires Enabled(s, a) && s.paused && !PublishesYet(c, s)
    ensures Step(c, s, a).log == s.log && !PublishesYet(c, Step(c, s, a))
  {
    StepFrame(c, s, a);
    AbilitiesStep(c, s, a);
    if !a.SetPause? {
      assert !Loaded(InFlight(s.threads[a.i].stage));
      UnloadedStep(c, s, a);
      AbilitiesFade(c, s, a);
      BufferStep(c, s, a);
      SilentFlight(c, s, a);
    }
  }

  lemma BufferStep(c: Config, s: State, a: Action)
    requires Enabled(s, a) && !a.SetPause?
    ensures Step(c, s, a).pending == s.pending || Step(c, s, a).pending == [] || (a.Offer? && c.batched)
    ensures a.Swap? ==> InFlight(NextThread(c, s, s.threads[a.i], a).stage) == s.pending
    ensures a.Offer? && c.batched ==> InFlight(NextThread(c, s, s.threads[a.i], a).stage) == []
  {
  }

  lemma SilentFlight(c: Config, s: State, a: Action)
    requires Enabled(s, a) && !a.SetPause? && s.paused && !PublishesYet(c, s)
    ensures !SomeLoaded(Step(c, s, a))
  {
    StepFrame(c, s, a);
    AbilitiesFade(c, s, a);
    BufferStep(c, s, a);
    UnloadedStep(c, s, a);
    var t := NextThread(c, s, s.threads[a.i], a);
    if a.Offer? { assert SomeOffers(s); }
    if a.Swap? { assert SomeSwaps(s); }
    assert !Loaded(InFlight(t.stage));
  }

  lemma {:induction false} SilentAt(c: Config, states: seq<State>, acts: seq<Action>, n: nat)
    requires Trace(c, states, acts) && n <= |acts| && Latched(states, 0, |acts|) && !PublishesYet(c, states[0])
    ensures !PublishesYet(c, states[n]) && states[n].log == states[0].log
  {
    if n > 0 {
      SilentAt(c, states, acts, n - 1);
      SilentStep(c, states[n - 1], acts[n - 1]);
    }
  }

  lemma SilenceStays(c: Config, s: State)
    requires s.paused && !PublishesYet(c, s)
    ensures !CanPublish(c, s)
  {
    forall r | LeadsLatched(c, s, r) ensures r.log == s.log {
      var states, acts :| TraceTo(c, states, acts, s, r);
      SilentAt(c, states, acts, |acts|);
    }
  }

  // the condition is sufficient

  lemma SplitKinds(samples: seq<Sample>)
    ensures samples != [] ==> OfKind(samples, true) != [] || OfKind(samples, false) != []
  {
  }

  /** The next step of a thread with samples in flight publishes, or brings it closer to publishing. */
  predicate Nearer(c: Config, s: State, i: nat)
    requires i < |s.threads|
  {
    var a := Onward(s.threads[i].stage, i);
    && Enabled(s, a)
    && (Step(c, s, a).log == s.log ==>
      var t := NextThread(c, s, s.threads[i], a);
      Loaded(InFlight(t.stage)) && Distance(t.stage) < Distance(s.threads[i].stage))
  }

  lemma ValuedNearer(c: Config, s: State, i: nat, e: Entry, q: seq<Entry>)
    requires i < |s.threads| && s.threads[i].stage == SendValued(e, q) && Loaded([e] + q)
    ensures Nearer(c, s, i)
  {
    var rest := Entry(e.key, OfKind(e.samples, false));
    SplitKinds(e.samples);
    LoadedSplit(e, q, rest);
    LogGrows(s.log, Message(e.key, OfKind(e.samples, true)));
    if OfKind(e.samples, true) == [] {
      assert AfterSend(s.threads[i].stage, false) == SendValueless(rest, q, 0);
    }
  }

  lemma ValuelessNearer(c: Config, s: State, i: nat, e: Entry, q: seq<Entry>, n: nat)
    requires i < |s.threads| && s.threads[i].stage == SendValueless(e, q, n) && Loaded([e] + q)
    ensures Nearer(c, s, i)
  {
    LoadedSplit(e, q, e);
    LogGrows(s.log, Message(e.key, e.samples));
  }

  lemma LogGrows(log: seq<Message>, m: Message)
    ensures log + [m] != log
  {
    assert |log + [m]| == |log| + 1;
  }

  lemma QueueNearer(c: Config, s: State, i: nat)
    requires i < |s.threads| && Loaded(InFlight(s.threads[i].stage))
    requires !s.threads[i].stage.SendValued? && !s.threads[i].stage.SendValueless?
    ensures Nearer(c, s, i)
  {
    var stage := s.threads[i].stage;
    if stage.Flushing? { assert [stage.queue[0]] + stage.queue[1..] == stage.queue; }
  }

  /** A thread with samples in flight has not far to go to a message. */
  lemma LoadedGoesOn(c: Config, s: State, i: nat)
    requires i < |s.threads| && Loaded(InFlight(s.threads[i].stage))
    ensures Nearer(c, s, i)
  {
    match s.threads[i].stage
    case SendValued(e, q) => ValuedNearer(c, s, i, e, q);
    case SendValueless(e, q, n) => ValuelessNearer(c, s, i, e, q, n);
    case _ => QueueNearer(c, s, i);
  }

  lemma LoadedSplit(e: Entry, q: seq<Entry>, rest: Entry)
    requires Loaded([e] + q)
    ensures e.samples != [] || Loaded(q)
    ensures Loaded(q) || rest.samples != [] ==> Loaded([rest] + q)
  {
    var i :| 0 <= i < |[e] + q| && ([e] + q)[i].samples != [];
    if i > 0 { assert q[i - 1].samples != []; }
    if Loaded(q) {
      var j :| 0 <= j < |q| && q[j].samples != [];
      assert ([rest] + q)[j + 1].samples != [];
    } else if rest.samples != [] {
      assert ([rest] + q)[0].samples != [];
    }
  }

  lemma LoadedPublishes(c: Config, s: State, r: State, i: nat)
    requires LeadsLatched(c, s, r) && i < |r.threads| && Loaded(InFlight(r.threads[i].stage))
    ensures CanPublish(c, s)
    decreases Distance(r.threads[i].stage)
  {
    if r.log == s.log {
      var a := Onward(r.threads[i].stage, i);
      LoadedGoesOn(c, r, i);
      LeadsOn(c, s, r, a);
      StepFrame(c, r, a);
      if Step(c, r, a).log == r.log { LoadedPublishes(c, s, Step(c, r, a), i); }
    }
  }

  /** From m to r thread i moved without checking, swapping or ending; what was buffered still is. */
  predicate Aside(m: State, r: State, i: nat) {
    && i < |m.threads| == |r.threads| && r.threads == m.threads[i := m.threads[i].(stage := r.threads[i].stage)]
    && (Loaded(m.pending) ==> Loaded(r.pending))
  }

  lemma AsideTwice(m: State, n: State, r: State, i: nat)
    requires Aside(m, n, i) && Aside(n, r, i)
    ensures Aside(m, r, i)
  {
    assert m.threads[i := n.threads[i]][i := r.threads[i]] == m.threads[i := r.threads[i]];
  }

  /** A thread brings its publication to an end. */
  lemma EndsPublication(c: Config, s: State, m: State, i: nat) returns (r: State)
    requires LeadsLatched(c, s, m) && i < |m.threads| && (m.threads[i].stage.Idle? || !Unflushed(m.threads[i].stage))
    ensures LeadsLatched(c, s, r) && Aside(m, r, i) && r.threads[i].stage.Idle?
    decreases Distance(m.threads[i].stage)
  {
    if m.threads[i].stage.Idle? {
      r := m;
      assert m.threads[i := m.threads[i].(stage := m.threads[i].stage)] == m.threads;
    } else {
      var a := Onward(m.threads[i].stage, i);
      OnwardEnabled(c, m, i);
      OnwardCloser(c, m, i);
      OnwardAside(c, m, i);
      StepFrame(c, m, a);
      LeadsOn(c, s, m, a);
      r := EndsPublication(c, s, Step(c, m, a), i);
      AsideTwice(m, Step(c, m, a), r, i);
    }
  }

  lemma OnwardAside(c: Config, s: State, i: nat)
    requires i < |s.threads| && !Unflushed(s.threads[i].stage) && Enabled(s, Onward(s.threads[i].stage, i))
    ensures Aside(s, Step(c, s, Onward(s.threads[i].stage, i)), i)
  {
  }

  lemma AddSampleLoads(pending: seq<Entry>, k: Key, x: Sample)
    ensures Loaded(AddSample(pending, k, x))
  {
    if HasKey(pending, k) {
      AppendLoads(pending, k, x);
    } else {
      assert AddSample(pending, k, x)[|pending|].samples != [];
    }
  }

  lemma {:induction false} AppendLoads(pending: seq<Entry>, k: Key, x: Sample)
    requires HasKey(pending, k)
    ensures |AppendTo(pending, k, x)| == |pending| && Loaded(AppendTo(pending, k, x))
  {
    AppendKeepsLength(pending, k, x);
    var n := |pending| - 1;
    if pending[n].key == k {
      assert AppendTo(pending, k, x)[n].samples != [];
    } else {
      var i :| 0 <= i < |pending| && pending[i].key == k;
      assert pending[..n][i].key == k;
      AppendLoads(pending[..n], k, x);
      var j :| 0 <= j < n && AppendTo(pending[..n], k, x)[j].samples != [];
      assert AppendTo(pending, k, x)[j] == AppendTo(pending[..n], k, x)[j];
    }
  }

  lemma {:induction false} AppendKeepsLength(pending: seq<Entry>, k: Key, x: Sample)
    ensures |AppendTo(pending, k, x)| == |pending|
  {
    if pending != [] { AppendKeepsLength(pending[..|pending| - 1], k, x); }
  }

  /** A thread that is polling comes to its offer; then its sample is buffered, or in flight in the thread. */
  lemma ComesToOffer(c: Config, s: State, m: State, i: nat) returns (r: State)
    requires LeadsLatched(c, s, m) && i < |m.threads|
    requires m.threads[i].stage.Reading? || m.threads[i].stage.Deciding? || m.threads[i].stage.Offering?
    ensures LeadsLatched(c, s, r) && Aside(m, r, i)
    ensures c.batched ==> Loaded(r.pending) && r.threads[i].stage.Idle?
    ensures !c.batched ==> Loaded(InFlight(r.threads[i].stage))
    decreases StepsLeft(m.threads[i].stage)
  {
    var stage := m.threads[i].stage;
    if stage.Offering? {
      LeadsOn(c, s, m, Offer(i));
      r := Step(c, m, Offer(i));
      AddSampleLoads(m.pending, stage.key, stage.x);
      assert !c.batched ==> InFlight(r.threads[i].stage)[0].samples != [];
    } else {
      var a := if stage.Deciding? then Commit(i) else Finish(i, None);
      LeadsOn(c, s, m, a);
      var n := Step(c, m, a);
      assert Aside(m, n, i);
      r := ComesToOffer(c, s, n, i);
      AsideTwice(m, n, r, i);
    }
  }

  /** A thread that can offer does. */
  lemma OffersYet(c: Config, s: State, i: nat) returns (r: State)
    requires s.paused && i < |s.threads| && CanOffer(s.threads[i])
    ensures LeadsLatched(c, s, r) && Aside(s, r, i)
    ensures c.batched ==> Loaded(r.pending)
    ensures !c.batched ==> Loaded(InFlight(r.threads[i].stage))
  {
    LeadsToItself(c, s);
    if s.threads[i].stage.Reading? || s.threads[i].stage.Deciding? || s.threads[i].stage.Offering? {
      r := ComesToOffer(c, s, s, i);
    } else {
      var m := EndsPublication(c, s, s, i);
      LeadsOn(c, s, m, Start(i, (0, "")));
      var n := Step(c, m, Start(i, (0, "")));
      assert Aside(m, n, i);
      r := ComesToOffer(c, s, n, i);
      AsideTwice(m, n, r, i);
      AsideTwice(s, m, r, i);
    }
  }

  lemma SwapLoads(c: Config, s: State, m: State, i: nat)
    requires LeadsLatched(c, s, m) && i < |m.threads| && CanSwap(m.threads[i]) && Loaded(m.pending) && m.threads[i].stage.Idle?
    ensures CanPublish(c, s)
  {
    LeadsOn(c, s, m, Swap(i));
    LoadedPublishes(c, s, Step(c, m, Swap(i)), i);
  }

  /** With samples in the buffer a thread that can swap brings about a message. */
  lemma SwapPublishes(c: Config, s: State, m: State, i: nat)
    requires LeadsLatched(c, s, m) && i < |m.threads| && CanSwap(m.threads[i]) && Loaded(m.pending)
    ensures CanPublish(c, s)
  {
    if m.threads[i].stage.Reading? || m.threads[i].stage.Deciding? || m.threads[i].stage.Offering? {
      var r := ComesToOffer(c, s, m, i);
      if c.batched { SwapLoads(c, s, r, i); } else { LoadedPublishes(c, s, r, i); }
    } else {
      var r := EndsPublication(c, s, m, i);
      SwapLoads(c, s, r, i);
    }
  }

  /** Exactly when a paused instance can still publish a message. */
  lemma PausedPublishesExactly(c: Config, s: State)
    requires s.paused
    ensures CanPublish(c, s) <==> PublishesYet(c, s)
  {
    LeadsToItself(c, s);
    if SomeLoaded(s) {
      var i :| 0 <= i < |s.threads| && Loaded(InFlight(s.threads[i].stage));
      LoadedPublishes(c, s, s, i);
    } else if Loaded(s.pending) && SomeSwaps(s) {
      var i :| 0 <= i < |s.threads| && CanSwap(s.threads[i]);
      SwapPublishes(c, s, s, i);
    } else if SomeOffers(s) && (!c.batched || SomeSwaps(s)) {
      OfferPublishes(c, s);
    } else {
      SilenceStays(c, s);
    }
  }

  lemma OfferPublishes(c: Config, s: State)
    requires s.paused && SomeOffers(s) && (!c.batched || SomeSwaps(s))
    ensures CanPublish(c, s)
  {
    var i :| 0 <= i < |s.threads| && CanOffer(s.threads[i]);
    var r := OffersYet(c, s, i);
    if c.batched {
      var j :| 0 <= j < |s.threads| && CanSwap(s.threads[j]);
      assert CanSwap(r.threads[j]);
      SwapPublishes(c, s, r, j);
    } else {
      LoadedPublishes(c, s, r, i);
    }
  }

  // ---- a paused instance that publishes ----

  /** A poll group is waiting for the device and the tick has passed its check when the pause command comes. */
  lemma PausedWhileReading(c: Config, k: Key) returns (start: State, s: State)
    ensures Init(start) && Reachable(c, start, (i, j) => true, s) && s.paused && s.log == [] && s.pending == [] && s.offered == []
    ensures s.threads == [Thread(PollGroup, true, false, Reading(k)), Thread(Tick, true, false, Idle)]
  {
    var plan: Plan := (i, j) => true;
    start := State(false, map[], map[], [], [], [Thread(PollGroup, false, false, Idle), Thread(Tick, false, false, Idle)], [], [], 0, 0);
    StartReachable(c, start, plan);
    Advance(c, start, plan, start, Check(0));
    var m := Step(c, start, Check(0));
    Advance(c, start, plan, m, Check(1));
    var n := Step(c, m, Check(1));
    Advance(c, start, plan, n, Start(0, k));
    var q := Step(c, n, Start(0, k));
    Advance(c, start, plan, q, SetPause(true));
    s := Step(c, q, SetPause(true));
  }

  lemma OfferUnderLatch(c: Config, s: State, k: Key) returns (r: State)
    requires s.paused && s.threads == [Thread(PollGroup, true, false, Reading(k)), Thread(Tick, true, false, Idle)]
    requires s.log == [] && s.pending == [] && s.offered == []
    ensures LeadsLatched(c, s, r) && r.log == [] && r.offered == [(k, Sample(None))] && |r.threads| == 2
    ensures c.batched ==> r.pending == [Entry(k, [Sample(None)])] && r.threads[1] == Thread(Tick, true, false, Idle)
    ensures !c.batched ==> r.threads[0].stage == SendValued(Entry(k, [Sample(None)]), [])
  {
    LeadsToItself(c, s);
    LeadsOn(c, s, s, Finish(0, None));
    var m := Step(c, s, Finish(0, None));
    LeadsOn(c, s, m, Offer(0));
    r := Step(c, m, Offer(0));
  }

  lemma OneValueless()
    ensures OfKind([Sample(None)], true) == [] && OfKind([Sample(None)], false) == [Sample(None)]
  {
    OfKindAppend([], Sample(None), true);
    OfKindAppend([], Sample(None), false);
    assert [] + [Sample(None)] == [Sample(None)];
  }

  lemma SendsNothingFirst(c: Config, s: State, i: nat, k: Key)
    requires i < |s.threads| && s.threads[i].stage == SendValued(Entry(k, [Sample(None)]), [])
    ensures var r := Step(c, s, Send(i, false));
      i < |r.threads| && r.threads[i].stage == SendValueless(Entry(k, [Sample(None)]), [], 0) && r.log == s.log
  {
    OneValueless();
  }

  lemma SendsBadSample(c: Config, s: State, i: nat, k: Key)
    requires i < |s.threads| && s.threads[i].stage == SendValueless(Entry(k, [Sample(None)]), [], 0)
    ensures Step(c, s, Send(i, false)).log == s.log + [Message(k, [Sample(None)])]
  {
  }

  lemma SendUnderLatch(c: Config, s: State, m: State, i: nat, k: Key) returns (r: State)
    requires LeadsLatched(c, s, m) && i < |m.threads| && m.threads[i].stage == SendValued(Entry(k, [Sample(None)]), []) && m.log == []
    ensures LeadsLatched(c, s, r) && r.log == [Message(k, [Sample(None)])]
  {
    SendsNothingFirst(c, m, i, k);
    LeadsOn(c, s, m, Send(i, false));
    var n := Step(c, m, Send(i, false));
    SendsBadSample(c, n, i, k);
    LeadsOn(c, s, n, Send(i, false));
    r := Step(c, n, Send(i, false));
  }

  /** With and without batching: the latch is set, nothing has been published, and with the latch set all the way a
      message goes out. */
  lemma PausedInstancePublishes(c: Config, k: Key) returns (start: State, s: State, r: State)
    ensures Init(start) && Reachable(c, start, (i, j) => true, s) && s.paused && s.log == []
    ensures LeadsLatched(c, s, r) && r.log == [Message(k, [Sample(None)])]
  {
    start, s := PausedWhileReading(c, k);
    var m := OfferUnderLatch(c, s, k);
    if c.batched {
      LeadsOn(c, s, m, Swap(1));
      var n := Step(c, m, Swap(1));
      LeadsOn(c, s, n, Begin(1));
      r := SendUnderLatch(c, s, Step(c, n, Begin(1)), 1, k);
    } else {
      r := SendUnderLatch(c, s, m, 0, k);
    }
  }
}

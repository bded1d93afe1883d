/** The threads of one device instance as a step system: poll groups, repoll commands, the tick and
    stop share the cache, the buffer, the facade and the pause latch. A lock region, one dictionary
    access and one facade call are a step each; everything else interleaves freely. Sources:
    modbus_adapter/poll_manager.py, publisher.py, device.py, pause.py and command_service.py. */
module Runtime {
  import opened Values
  import opened Publisher

  datatype Role = PollGroup | Repoll | Tick | Stopper

  /** Where a thread is. Entry lists are samples taken out of the buffer and not yet published;
      `samples` counts those already published but not yet recorded. */
  datatype Stage =
    | Idle
    | Reading(key: Key)
    | Deciding(key: Key, v: Value)
    | Offering(key: Key, x: Sample)
    | Flushing(queue: seq<Entry>)
    | SendValued(entry: Entry, queue: seq<Entry>)
    | SendValueless(entry: Entry, queue: seq<Entry>, samples: nat)
    | Failing(queue: seq<Entry>, samples: nat)
    | Closing(queue: seq<Entry>, samples: nat)

  /** `admitted`: in a cycle whose pause check has passed; `swapped`: the cycle has already flushed. */
  datatype Thread = Thread(role: Role, admitted: bool, swapped: bool, stage: Stage)

  /** `gate` is the publish decision of each key: its publish mode and deadband. */
  datatype Config = Config(batched: bool, gate: (Key, Option<Value>, Value) -> bool)

  /** `latest`, `offered` and `dropped` only record what has happened. */
  datatype State = State(
    paused: bool, last: map<Key, Value>, latest: map<Key, Value>,
    offered: seq<(Key, Sample)>, pending: seq<Entry>, threads: seq<Thread>,
    log: seq<Message>, dropped: seq<Message>, failures: nat, samplesPublished: nat)

  datatype Action =
    | SetPause(on: bool)
    | Check(i: nat)
    | Start(i: nat, key: Key)
    | Finish(i: nat, result: Option<Value>)
    | Commit(i: nat)
    | Offer(i: nat)
    | Swap(i: nat)
    | Begin(i: nat)
    | Done(i: nat)
    | Send(i: nat, fault: bool)
    | RecordFailure(i: nat)
    | Close(i: nat)
    | End(i: nat)

  predicate Polls(r: Role) { r == PollGroup || r == Repoll }

  /** The thread an action belongs to may take it now. */
  predicate Enabled(s: State, a: Action) {
    if a.SetPause? then true
    else if a.i >= |s.threads| then false
    else
      var t := s.threads[a.i];
      match a
      case SetPause(_) => true
      case Check(_) => t.stage.Idle? && !t.admitted && t.role != Stopper
      case Start(_, _) => t.stage.Idle? && t.admitted && Polls(t.role)
      case Finish(_, _) => t.stage.Reading?
      case Commit(_) => t.stage.Deciding?
      case Offer(_) => t.stage.Offering?
      case Swap(_) => t.stage.Idle? && ((t.role == Tick && t.admitted && !t.swapped) || t.role == Stopper)
      case Begin(_) => t.stage.Flushing? && t.stage.queue != []
      case Done(_) => t.stage.Flushing? && t.stage.queue == []
      case Send(_, _) => t.stage.SendValued? || t.stage.SendValueless?
      case RecordFailure(_) => t.stage.Failing?
      case Close(_) => t.stage.Closing?
      case End(_) => t.stage.Idle? && t.admitted
  }

  /** The two facade calls of one publication: valued samples, then valueless ones; a call without
      samples is skipped, and a call that raises skips the rest. */
  function AfterSend(stage: Stage, fault: bool): Stage {
    match stage
    case SendValued(e, q) =>
      if OfKind(e.samples, true) != [] && fault then Failing(q, 0)
      else SendValueless(Entry(e.key, OfKind(e.samples, false)), q, |OfKind(e.samples, true)|)
    case SendValueless(e, q, n) =>
      if e.samples != [] && fault then Failing(q, n) else Closing(q, n + |e.samples|)
    case _ => stage
  }

  /** What the thread's own part of the state becomes. */
  function NextThread(c: Config, s: State, t: Thread, a: Action): Thread {
    match a
    case SetPause(_) => t
    case Check(_) => if s.paused then t else t.(admitted := true, swapped := false)
    case Start(_, k) => t.(stage := Reading(k))
    case Finish(_, r) =>
      if !t.stage.Reading? then t
      else if r.None? then t.(stage := Offering(t.stage.key, Sample(None)))
      else if c.gate(t.stage.key, Lookup(s.last, t.stage.key), r.value) then t.(stage := Deciding(t.stage.key, r.value))
      else t.(stage := Idle)
    case Commit(_) => if t.stage.Deciding? then t.(stage := Offering(t.stage.key, Sample(Some(t.stage.v)))) else t
    case Offer(_) =>
      if !t.stage.Offering? then t
      else if c.batched then t.(stage := Idle)
      else t.(stage := SendValued(Entry(t.stage.key, [t.stage.x]), []))
    case Swap(_) => t.(swapped := true, stage := Flushing(s.pending))
    case Begin(_) =>
      if t.stage.Flushing? && t.stage.queue != [] then t.(stage := SendValued(t.stage.queue[0], t.stage.queue[1..])) else t
    case Done(_) => t.(stage := Idle)
    case Send(_, fault) => t.(stage := AfterSend(t.stage, fault))
    case RecordFailure(_) => if t.stage.Failing? then t.(stage := Closing(t.stage.queue, t.stage.samples)) else t
    case Close(_) => if t.stage.Closing? then t.(stage := Flushing(t.stage.queue)) else t
    case End(_) => t.(admitted := false)
  }

  /** The samples the next facade call of a thread carries. */
  function Parcel(stage: Stage): Message {
    match stage
    case SendValued(e, _) => Message(e.key, OfKind(e.samples, true))
    case SendValueless(e, _, _) => Message(e.key, e.samples)
    case _ => Message((0, ""), [])
  }

  /** What a raising facade call loses: the samples of the call and those that would have followed. */
  function Casualties(stage: Stage): Message {
    if stage.SendValued? then Message(stage.entry.key, stage.entry.samples) else Parcel(stage)
  }

  function Step(c: Config, s: State, a: Action): State
    requires Enabled(s, a)
  {
    if a.SetPause? then s.(paused := a.on)
    else
      var t := s.threads[a.i];
      var r := s.(threads := s.threads[a.i := NextThread(c, s, t, a)]);
      match a
      case Finish(_, v) => if v.Some? then r.(latest := s.latest[t.stage.key := v.value]) else r
      case Commit(_) => r.(last := s.last[t.stage.key := t.stage.v])
      case Offer(_) =>
        r.(offered := s.offered + [(t.stage.key, t.stage.x)],
           pending := if c.batched then AddSample(s.pending, t.stage.key, t.stage.x) else s.pending)
      case Swap(_) => r.(pending := [])
      case Send(_, fault) =>
        if Parcel(t.stage).samples == [] then r
        else if fault then r.(dropped := s.dropped + [Casualties(t.stage)])
        else r.(log := s.log + [Parcel(t.stage)])
      case RecordFailure(_) => r.(failures := s.failures + 1)
      case Close(_) => r.(samplesPublished := s.samplesPublished + t.stage.samples)
      case _ => r
  }

  predicate Init(s: State) {
    && !s.paused && s.last == map[] && s.latest == map[] && s.offered == [] && s.pending == []
    && s.log == [] && s.dropped == [] && s.failures == 0 && s.samplesPublished == 0
    && forall t :: t in s.threads ==> t == Thread(t.role, false, false, Idle)
  }

  /** A run: each state is followed by the state of the next action. */
  ghost predicate Run(c: Config, states: seq<State>, acts: seq<Action>) {
    && |states| == |acts| + 1 && Init(states[0])
    && forall n :: 0 <= n < |acts| ==> Enabled(states[n], acts[n]) && states[n + 1] == Step(c, states[n], acts[n])
  }

  /** The samples a thread has taken out and not yet published or dropped. */
  function InFlight(stage: Stage): seq<Entry> {
    match stage
    case Flushing(q) => q
    case SendValued(e, q) => [e] + q
    case SendValueless(e, q, _) => [e] + q
    case Failing(q, _) => q
    case Closing(q, _) => q
    case _ => []
  }

  function Unrecorded(stage: Stage): nat {
    match stage
    case SendValueless(_, _, n) => n
    case Failing(_, n) => n
    case Closing(_, n) => n
    case _ => 0
  }

  function FailurePending(stage: Stage): nat { if stage.Failing? then 1 else 0 }
}

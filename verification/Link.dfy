/** Liveness of the southbound link and the alarm edges the tick derives from it:
    modbus_adapter/connection.py and ModbusDevice._tick_loop in modbus_adapter/device.py. */
module Link {
  import opened Values

  /** What a read request comes to: a transport or IO error, raised or returned; no response; a response
      that is an exception; data; or any other Python exception, such as the one of a missing client. */
  datatype Outcome = TransportError | NoResponse | ExceptionResponse | Data(units: seq<int>) | Crash

  /** What is recorded, in order: a connection drop, the begin of a reconnect, the close of stop, and the
      alarms of the tick. */
  datatype Mark = Drop | ReconnectBegun | Stopped | Raise | Clear

  /** `seen` is the connectivity the tick saw last; `drops`, `attempts` (of reconnects) and `reconnects` are
      counters the adapter records; `begun` reconnects have closed the link and are not yet counted. */
  datatype State = State(
    client: bool, connected: bool, seen: bool, drops: nat, begun: nat, attempts: nat, reconnects: nat, marks: seq<Mark>)

  datatype Action =
    | ReadDone(outcome: Outcome)
    | BeginReconnect
    | CountAttempt
    | EndReconnect(ok: bool)
    | Stop
    | Sample

  /** After start-up: connect() has returned and the alarm has been cleared. */
  const STARTED := State(true, true, true, 0, 0, 0, 0, [])

  function Step(s: State, a: Action): State {
    match a
    case ReadDone(o) =>
      if o.TransportError? || o.NoResponse? then
        if s.connected then s.(connected := false, drops := s.drops + 1, marks := s.marks + [Drop]) else s
      else if o.Crash? then s
      else s.(connected := true)
    case BeginReconnect =>
      s.(client := false, connected := s.connected && !s.client, begun := s.begun + 1, marks := s.marks + [ReconnectBegun])
    case CountAttempt => if s.begun == 0 then s else s.(begun := s.begun - 1, attempts := s.attempts + 1)
    case EndReconnect(ok) => if ok then s.(client := true, connected := true) else s
    case Stop => s.(connected := s.connected && !s.client, marks := s.marks + [Stopped])
    case Sample =>
      if s.connected == s.seen then s
      else s.(seen := s.connected, reconnects := s.reconnects + (if s.connected then 1 else 0),
              marks := s.marks + [if s.connected then Clear else Raise])
  }

  /** Any interleaving of reads, reconnects, stops and ticks. */
  function Run(actions: seq<Action>): State {
    if actions == [] then STARTED else Step(Run(actions[..|actions| - 1]), actions[|actions| - 1])
  }

  /** The connection and the tick's view of it. `marks` is the record of what happened. */
  class DeviceLink {
    var client: bool
    var connected: bool
    var seen: bool
    var drops: nat
    var connectAttempts: nat
    var connectFailures: nat
    var reconnectAttempts: nat
    var reconnectFailures: nat
    var reconnects: nat
    ghost var begun: nat
    ghost var marks: seq<Mark>

    ghost function Now(): State
      reads this
    {
      State(client, connected, seen, drops, begun, reconnectAttempts, reconnects, marks)
    }

    /** connect(): retries until an attempt succeeds. `answers` are the outcomes of the attempts. */
    constructor (answers: seq<bool>, first: nat)
      requires first < |answers| && answers[first] && forall i :: 0 <= i < first ==> !answers[i]
      ensures Now() == STARTED
      ensures connectAttempts == first + 1 && connectFailures == first
    {
      drops, connectAttempts, connectFailures, reconnectAttempts, reconnectFailures, reconnects := 0, 0, 0, 0, 0, 0;
      client, connected, begun, marks := false, false, 0, [];
      new;
      while !client
        invariant marks == [] && begun == 0 && drops == 0 && reconnectAttempts == 0 && reconnects == 0
        invariant client == connected
        invariant if client then connectAttempts == first + 1 && connectFailures == first
          else connectAttempts == connectFailures <= first
        decreases if client then 0 else first + 1 - connectFailures
      {
        connectAttempts := connectAttempts + 1;
        if answers[connectAttempts - 1] {
          client, connected := true, true;
        } else {
          client, connected := false, false;
          connectFailures := connectFailures + 1;
        }
      }
      seen := true;
    }

    method SetConnected(on: bool)
      modifies this`connected, this`drops, this`marks
      ensures connected == on
      ensures drops == old(drops) + (if old(connected) && !on then 1 else 0)
      ensures marks == (if old(connected) && !on then old(marks) + [Drop] else old(marks))
    {
      if connected && !on {
        drops := drops + 1;
        marks := marks + [Drop];
      }
      connected := on;
    }

    /** Every response proves the slave reachable, even an exception; only data is returned, and no more
        units than were asked for. */
    method Read(count: nat, o: Outcome) returns (data: Option<seq<int>>)
      modifies this`connected, this`drops, this`marks
      ensures Now() == Step(old(Now()), ReadDone(o))
      ensures data == (if o.Data? then Some(First(o.units, count)) else None)
    {
      if o.Crash? {
        return None;
      }
      if o.TransportError? || o.NoResponse? {
        SetConnected(false);
        return None;
      }
      SetConnected(true);
      if o.ExceptionResponse? {
        return None;
      }
      return Some(First(o.units, count));
    }

    /** A close takes the link down without recording a drop. */
    method Close()
      modifies this`connected
      ensures connected == (old(connected) && !client)
    {
      if client {
        connected := false;
      }
    }

    /** reconnect() closes first and counts the attempt afterwards; a tick can fall in between. */
    method StartReconnect()
      modifies this`client, this`connected, this`begun, this`marks
      ensures Now() == Step(old(Now()), BeginReconnect)
    {
      Close();
      client := false;
      begun := begun + 1;
      marks := marks + [ReconnectBegun];
    }

    method RecordAttempt()
      requires begun > 0
      modifies this`begun, this`reconnectAttempts
      ensures Now() == Step(old(Now()), CountAttempt)
    {
      begun := begun - 1;
      reconnectAttempts := reconnectAttempts + 1;
    }

    method FinishReconnect(ok: bool)
      modifies this`client, this`connected, this`drops, this`reconnectFailures, this`marks
      ensures Now() == Step(old(Now()), EndReconnect(ok))
      ensures reconnectFailures == old(reconnectFailures) + (if ok then 0 else 1)
    {
      if ok {
        client := true;
        SetConnected(true);
      } else {
        reconnectFailures := reconnectFailures + 1;
      }
    }

    method Shutdown()
      modifies this`connected, this`marks
      ensures Now() == Step(old(Now()), Stop)
    {
      Close();
      marks := marks + [Stopped];
    }

    method Tick()
      modifies this`seen, this`reconnects, this`marks
      ensures Now() == Step(old(Now()), Sample)
    {
      var up := connected;
      if up != seen {
        if up && !seen {
          reconnects := reconnects + 1;
        }
        seen := up;
        marks := marks + [if up then Clear else Raise];
      }
    }
  }

  /** units[:count]. */
  function First(units: seq<int>, count: nat): (data: seq<int>)
    ensures |data| <= count && data <= units && (|units| >= count ==> |data| == count)
  {
    if |units| <= count then units else units[..count]
  }

  function Count(marks: seq<Mark>, m: Mark): nat {
    if marks == [] then 0 else Count(marks[..|marks| - 1], m) + if marks[|marks| - 1] == m then 1 else 0
  }

  lemma CountAppend(marks: seq<Mark>, x: Mark)
    ensures forall m :: Count(marks + [x], m) == Count(marks, m) + if m == x then 1 else 0
  {
    assert (marks + [x])[..|marks|] == marks;
  }

  /** What a step puts on record. */
  function MarkOf(s: State, a: Action): Option<Mark> {
    match a
    case ReadDone(o) => if (o.TransportError? || o.NoResponse?) && s.connected then Some(Drop) else None
    case BeginReconnect => Some(ReconnectBegun)
    case Stop => Some(Stopped)
    case Sample => if s.connected == s.seen then None else if s.connected then Some(Clear) else Some(Raise)
    case _ => None
  }

  function Marked(marks: seq<Mark>, x: Option<Mark>): seq<Mark> { if x.None? then marks else marks + [x.value] }

  lemma StepMarks(s: State, a: Action)
    ensures Step(s, a).marks == Marked(s.marks, MarkOf(s, a))
  {
  }

  lemma CountStep(s: State, a: Action, m: Mark)
    ensures Count(Step(s, a).marks, m) == Count(s.marks, m) + if MarkOf(s, a) == Some(m) then 1 else 0
  {
    StepMarks(s, a);
    if MarkOf(s, a).Some? { CountAppend(s.marks, MarkOf(s, a).value); }
  }

  predicate CountersOk(s: State) {
    s.drops == Count(s.marks, Drop) && s.attempts + s.begun == Count(s.marks, ReconnectBegun)
  }

  lemma CountersMove(s: State, a: Action)
    ensures Step(s, a).drops == s.drops + if MarkOf(s, a) == Some(Drop) then 1 else 0
    ensures Step(s, a).attempts + Step(s, a).begun == s.attempts + s.begun + if MarkOf(s, a) == Some(ReconnectBegun) then 1 else 0
    ensures Step(s, a).reconnects == s.reconnects + if MarkOf(s, a) == Some(Clear) then 1 else 0
  {
  }

  lemma StepCounts(s: State, a: Action)
    requires CountersOk(s)
    ensures CountersOk(Step(s, a))
  {
    CountersMove(s, a);
    CountStep(s, a, Drop);
    CountStep(s, a, ReconnectBegun);
  }

  /** The counters are the numbers of the marks they stand for, up to reconnects about to be counted. */
  lemma {:induction false} CountersCount(actions: seq<Action>)
    ensures CountersOk(Run(actions))
  {
    if actions != [] {
      CountersCount(actions[..|actions| - 1]);
      StepCounts(Run(actions[..|actions| - 1]), actions[|actions| - 1]);
    }
  }

  // ---- the alarm edges ----

  predicate Edge(m: Mark) { m == Raise || m == Clear }

  predicate Cause(m: Mark) { m == Drop || m == ReconnectBegun || m == Stopped }

  function Edges(marks: seq<Mark>): seq<Mark> {
    if marks == [] then []
    else
      var last := marks[|marks| - 1];
      if Edge(last) then Edges(marks[..|marks| - 1]) + [last] else Edges(marks[..|marks| - 1])
  }

  lemma EdgesAppend(marks: seq<Mark>, x: Mark)
    ensures Edges(marks + [x]) == if Edge(x) then Edges(marks) + [x] else Edges(marks)
  {
    assert (marks + [x])[..|marks|] == marks;
  }

  /** Raise, clear, raise, and so on. */
  predicate Alternates(edges: seq<Mark>) {
    forall i :: 0 <= i < |edges| ==> edges[i] == if i % 2 == 0 then Raise else Clear
  }

  predicate EdgesOk(s: State) {
    && Alternates(Edges(s.marks)) && (s.seen <==> |Edges(s.marks)| % 2 == 0)
    && s.reconnects == |Edges(s.marks)| / 2 && s.reconnects == Count(s.marks, Clear)
  }

  lemma EdgesStep(s: State, a: Action)
    ensures Edges(Step(s, a).marks) ==
      if MarkOf(s, a).Some? && Edge(MarkOf(s, a).value) then Edges(s.marks) + [MarkOf(s, a).value] else Edges(s.marks)
  {
    StepMarks(s, a);
    if MarkOf(s, a).Some? { EdgesAppend(s.marks, MarkOf(s, a).value); }
  }

  /** An edge is marked exactly when the tick sees a change. */
  lemma EdgeMeans(s: State, a: Action)
    ensures Step(s, a).seen == s.seen <==> !(MarkOf(s, a).Some? && Edge(MarkOf(s, a).value))
    ensures Step(s, a).seen != s.seen ==> MarkOf(s, a) == Some(if s.seen then Raise else Clear)
  {
  }

  lemma StepEdges(s: State, a: Action)
    requires EdgesOk(s)
    ensures EdgesOk(Step(s, a))
  {
    EdgesStep(s, a);
    EdgeMeans(s, a);
    CountersMove(s, a);
    CountStep(s, a, Clear);
    Halves(|Edges(s.marks)|);
    AlternatesOn(Edges(s.marks), if s.seen then Raise else Clear);
  }

  lemma AlternatesOn(edges: seq<Mark>, x: Mark)
    requires Alternates(edges) && x == if |edges| % 2 == 0 then Raise else Clear
    ensures Alternates(edges + [x])
  {
  }

  lemma Halves(n: nat)
    ensures n % 2 == 0 ==> (n + 1) % 2 == 1 && (n + 1) / 2 == n / 2
    ensures n % 2 == 1 ==> (n + 1) % 2 == 0 && (n + 1) / 2 == n / 2 + 1
  {
  }

  /** Over every run the alarms after start-up strictly alternate, beginning with a raise, and the reconnect
      counter equals the number of clears. */
  lemma {:induction false} AlarmsAlternate(actions: seq<Action>)
    ensures Alternates(Edges(Run(actions).marks))
    ensures Run(actions).reconnects == Count(Run(actions).marks, Clear)
    ensures EdgesOk(Run(actions))
  {
    if actions != [] {
      AlarmsAlternate(actions[..|actions| - 1]);
      StepEdges(Run(actions[..|actions| - 1]), actions[|actions| - 1]);
    }
  }

  /** There is a cause at c, and no alarm between it and n. */
  predicate Explains(marks: seq<Mark>, c: nat, n: nat) {
    c < n <= |marks| && Cause(marks[c]) && forall j :: c < j < n ==> !Edge(marks[j])
  }

  /** Each raise has a cause since the alarm before it; so no two raises share one. */
  ghost predicate Backed(marks: seq<Mark>) {
    forall n :: 0 <= n < |marks| && marks[n] == Raise ==> exists c :: Explains(marks, c, n)
  }

  /** A loss the tick has not seen yet is on record. */
  ghost predicate Pending(s: State) {
    s.seen && !s.connected ==> exists c :: Explains(s.marks, c, |s.marks|)
  }

  lemma ExplainsAppend(marks: seq<Mark>, x: Mark, c: nat, n: nat)
    requires n <= |marks|
    ensures Explains(marks, c, n) <==> Explains(marks + [x], c, n)
    ensures c < |marks| && !Edge(x) ==> (Explains(marks, c, |marks|) ==> Explains(marks + [x], c, |marks| + 1))
    ensures Cause(x) ==> Explains(marks + [x], |marks|, |marks| + 1)
  {
    assert forall j :: 0 <= j < n ==> (marks + [x])[j] == marks[j];
    if Explains(marks + [x], c, n) {
      forall j | c < j < n ensures !Edge(marks[j]) { assert !Edge((marks + [x])[j]); }
    }
    if c < |marks| && !Edge(x) && Explains(marks, c, |marks|) {
      forall j | c < j < |marks| + 1 ensures !Edge((marks + [x])[j]) { }
    }
  }

  lemma BackedAppend(marks: seq<Mark>, x: Mark)
    requires Backed(marks) && (x == Raise ==> exists c :: Explains(marks, c, |marks|))
    ensures Backed(marks + [x])
  {
    var more := marks + [x];
    forall n | 0 <= n < |more| && more[n] == Raise ensures exists c :: Explains(more, c, n) {
      var c :| Explains(marks, c, n);
      ExplainsAppend(marks, x, c, n);
    }
  }

  lemma StepBacked(s: State, a: Action)
    requires Backed(s.marks) && Pending(s)
    ensures Backed(Step(s, a).marks) && Pending(Step(s, a))
  {
    var r := Step(s, a);
    if r.marks != s.marks {
      var x := r.marks[|s.marks|];
      assert r.marks == s.marks + [x];
      BackedAppend(s.marks, x);
      ExplainsAppend(s.marks, x, 0, 0);
      if s.seen && !s.connected {
        var c :| Explains(s.marks, c, |s.marks|);
        ExplainsAppend(s.marks, x, c, |s.marks|);
      }
    }
  }

  /** Over every run each raise has a cause of its own: a recorded drop, a begun reconnect or the stop of the
      device, after the alarm before it. */
  lemma {:induction false} RaisesAreBacked(actions: seq<Action>)
    ensures Backed(Run(actions).marks) && Pending(Run(actions))
  {
    if actions != [] {
      RaisesAreBacked(actions[..|actions| - 1]);
      StepBacked(Run(actions[..|actions| - 1]), actions[|actions| - 1]);
    }
  }

  /** Two different raises are explained by two different causes. */
  lemma CausesAreOwn(marks: seq<Mark>, c: nat, m: nat, d: nat, n: nat)
    requires m < n < |marks| && marks[m] == Raise && marks[n] == Raise
    requires Explains(marks, c, m) && Explains(marks, d, n)
    ensures c < m < d
  {
    assert Edge(marks[m]);
  }

  lemma {:induction false} NoStops(actions: seq<Action>)
    requires forall a :: a in actions ==> !a.Stop?
    ensures Count(Run(actions).marks, Stopped) == 0
  {
    if actions != [] {
      var init, a := actions[..|actions| - 1], actions[|actions| - 1];
      NoStops(init);
      assert a in actions;
      CountStep(Run(init), a, Stopped);
    }
  }

  /** Causes less raises. */
  function Balance(marks: seq<Mark>): int {
    if marks == [] then 0
    else
      var x := marks[|marks| - 1];
      Balance(marks[..|marks| - 1]) + if Cause(x) then 1 else if x == Raise then -1 else 0
  }

  lemma BalanceAppend(marks: seq<Mark>, x: Mark)
    ensures Balance(marks + [x]) == Balance(marks) + if Cause(x) then 1 else if x == Raise then -1 else 0
  {
    assert (marks + [x])[..|marks|] == marks;
  }

  lemma {:induction false} BalanceCounts(marks: seq<Mark>)
    ensures Balance(marks) == Count(marks, Drop) + Count(marks, ReconnectBegun) + Count(marks, Stopped) - Count(marks, Raise)
  {
    if marks != [] { BalanceCounts(marks[..|marks| - 1]); }
  }

  /** In numbers: without a stop there are never more raises than recorded drops and reconnect attempts, those
      included that have closed the link and are just about to be counted. */
  lemma RaisesBounded(actions: seq<Action>)
    requires forall a :: a in actions ==> !a.Stop?
    ensures var s := Run(actions); Count(s.marks, Raise) <= s.drops + s.attempts + s.begun
  {
    NoStops(actions);
    CountsBounded(actions);
    CountersCount(actions);
    BalanceCounts(Run(actions).marks);
  }

  /** Why those have to be included: a tick between the close and the count. */
  lemma TickBeforeCount()
    ensures var s := Run([BeginReconnect, Sample]); Count(s.marks, Raise) == 1 && s.drops + s.attempts == 0
  {
    var s := Step(STARTED, BeginReconnect);
    RunAppend([], BeginReconnect);
    RunAppend([BeginReconnect], Sample);
    assert [] + [BeginReconnect] == [BeginReconnect] && [BeginReconnect] + [Sample] == [BeginReconnect, Sample];
    CountStep(STARTED, BeginReconnect, Raise);
    CountStep(s, Sample, Raise);
  }

  lemma RunAppend(actions: seq<Action>, a: Action)
    ensures Run(actions + [a]) == Step(Run(actions), a)
  {
    assert (actions + [a])[..|actions|] == actions;
  }

  predicate Bounded(s: State) { Balance(s.marks) >= if s.seen && !s.connected then 1 else 0 }

  lemma {:induction false} CountsBounded(actions: seq<Action>)
    ensures Bounded(Run(actions))
  {
    if actions != [] {
      CountsBounded(actions[..|actions| - 1]);
      StepBounded(Run(actions[..|actions| - 1]), actions[|actions| - 1]);
    }
  }

  function Weight(x: Option<Mark>): int {
    if x.None? then 0 else if Cause(x.value) then 1 else if x.value == Raise then -1 else 0
  }

  lemma BalanceStep(s: State, a: Action)
    ensures Balance(Step(s, a).marks) == Balance(s.marks) + Weight(MarkOf(s, a))
  {
    StepMarks(s, a);
    if MarkOf(s, a).Some? { BalanceAppend(s.marks, MarkOf(s, a).value); }
  }

  lemma WeightCovers(s: State, a: Action)
    ensures var r := Step(s, a);
      (if r.seen && !r.connected then 1 else 0) <= (if s.seen && !s.connected then 1 else 0) + Weight(MarkOf(s, a))
  {
  }

  lemma StepBounded(s: State, a: Action)
    requires Bounded(s)
    ensures Bounded(Step(s, a))
  {
    BalanceStep(s, a);
    WeightCovers(s, a);
  }

  // ---- what decides whether the link is up ----

  /** A response, be it data or an exception, and a reconnect that succeeds. */
  predicate BringsUp(a: Action) {
    (a.ReadDone? && (a.outcome.Data? || a.outcome.ExceptionResponse?)) || a == EndReconnect(true)
  }

  /** A transport error and a missing response. */
  predicate TakesDown(a: Action) { a == ReadDone(TransportError) || a == ReadDone(NoResponse) }

  /** The close of a reconnect and of stop, which takes the link down if there is a client. */
  predicate Closes(a: Action) { a == BeginReconnect || a == Stop }

  lemma ActionDecides(s: State, a: Action)
    ensures BringsUp(a) ==> Step(s, a).connected
    ensures TakesDown(a) ==> !Step(s, a).connected && Step(s, a).drops == s.drops + if s.connected then 1 else 0
    ensures Closes(a) ==> Step(s, a).drops == s.drops && (Step(s, a).connected <==> s.connected && !s.client)
    ensures !BringsUp(a) && !TakesDown(a) && !Closes(a) ==> Step(s, a).connected == s.connected
    ensures a == CountAttempt && s.begun > 0 ==> Step(s, a).attempts == s.attempts + 1 && Step(s, a).begun == s.begun - 1
    ensures a == BeginReconnect ==> Step(s, a).begun == s.begun + 1 && Step(s, a).marks == s.marks + [ReconnectBegun]
    ensures a == Stop ==> Step(s, a).marks == s.marks + [Stopped]
    ensures Step(s, a).seen == if a == Sample then s.connected else s.seen
    ensures Step(s, a).client == if a == BeginReconnect then false else a == EndReconnect(true) || s.client
  {
  }

  ghost predicate Since(actions: seq<Action>, i: nat, p: Action -> bool) {
    forall j :: i < j < |actions| ==> p(actions[j])
  }

  /** The last word counts: after a response or a successful reconnect, and no error or close since, the link is up;
      after an error, or the close of a client, and no response or successful reconnect since, it is down. */
  lemma {:induction false} LastWord(actions: seq<Action>, i: nat)
    requires i < |actions|
    ensures BringsUp(actions[i]) && Since(actions, i, a => !TakesDown(a) && !Closes(a)) ==> Run(actions).connected
    ensures TakesDown(actions[i]) && Since(actions, i, a => !BringsUp(a)) ==> !Run(actions).connected
    ensures Closes(actions[i]) && Run(actions[..i]).client && Since(actions, i, a => !BringsUp(a)) ==> !Run(actions).connected
  {
    var n := |actions| - 1;
    ActionDecides(Run(actions[..n]), actions[n]);
    if i < n {
      LastWord(actions[..n], i);
      assert actions[..n][..i] == actions[..i];
    }
  }
}

/** Interval counters that are drained when they are reported: modbus_adapter/metrics.py. Values are exact
    reals; a lock region is one event. */
module Metrics {
  import opened Values

  datatype Counter = Counter(total: real, interval: real)

  const ZERO := Counter(0.0, 0.0)

  function Add(x: Counter, v: real): Counter { Counter(x.total + v, x.interval + v) }

  /** What happens to a set of counters in one lock region: some amounts are added, or the intervals of
      some keys are handed out and reset. */
  datatype Event<!K> = Record(items: seq<(K, real)>) | Drain(picks: K -> bool)

  /** The amount a record adds to a key; a key may occur more than once. */
  function Amount<K(==)>(items: seq<(K, real)>, k: K): real {
    if items == [] then 0.0
    else
      var last := items[|items| - 1];
      Amount(items[..|items| - 1], k) + if last.0 == k then last.1 else 0.0
  }

  /** What an event makes of the counter of a key, and what it hands out of it. */
  ghost function Step<K>(x: Counter, e: Event<K>, k: K): Counter {
    match e
    case Record(items) => Add(x, Amount(items, k))
    case Drain(picks) => if picks(k) then x.(interval := 0.0) else x
  }

  ghost function Yield<K>(x: Counter, e: Event<K>, k: K): real {
    if e.Drain? && e.picks(k) then x.interval else 0.0
  }

  // ---- whole histories ----

  ghost function After<K>(events: seq<Event<K>>, k: K): Counter {
    if events == [] then ZERO else Step(After(events[..|events| - 1], k), events[|events| - 1], k)
  }

  ghost function Drained<K>(events: seq<Event<K>>, k: K): real {
    if events == [] then 0.0
    else
      var init := events[..|events| - 1];
      Drained(init, k) + Yield(After(init, k), events[|events| - 1], k)
  }

  ghost function Recorded<K>(events: seq<Event<K>>, k: K): real {
    if events == [] then 0.0
    else
      var e := events[|events| - 1];
      Recorded(events[..|events| - 1], k) + if e.Record? then Amount(e.items, k) else 0.0
  }

  /** However records and drains interleave, nothing recorded is lost or handed out twice: what was handed out
      and what is still held add up to what was recorded, which is also the total. A counter family reports what
      it hands out of its known keys; intervals of other keys are reset without a report. */
  lemma {:induction false} DrainsConserve<K>(events: seq<Event<K>>, k: K)
    ensures Drained(events, k) + After(events, k).interval == Recorded(events, k)
    ensures After(events, k).total == Recorded(events, k)
  {
    if events != [] { DrainsConserve(events[..|events| - 1], k); }
  }

  /** Between two drains of a key, the second hands out exactly what was recorded since the first. */
  lemma DrainReportsInterval<K>(past: seq<Event<K>>, e: Event<K>, since: seq<Event<K>>, k: K)
    requires e.Drain? && e.picks(k)
    requires forall i :: 0 <= i < |since| ==> since[i].Drain? ==> !since[i].picks(k)
    ensures After(past + [e] + since, k).interval == Recorded(since, k)
    decreases |since|
  {
    var events := past + [e] + since;
    if since == [] {
      assert events[..|events| - 1] == past && events[|events| - 1] == e;
    } else {
      var init := since[..|since| - 1];
      assert events[..|events| - 1] == past + [e] + init;
      assert events[|events| - 1] == since[|since| - 1];
      DrainReportsInterval(past, e, init, k);
    }
  }

  lemma HistoryAppend<K>(events: seq<Event<K>>, e: Event<K>, k: K)
    ensures After(events + [e], k) == Step(After(events, k), e, k)
  {
    assert (events + [e])[..|events|] == events;
  }

  // ---- the operational families ----

  /** A row of dimensions and a measure. */
  datatype Key = Key(row: string, measure: string)

  function All<K>(): K -> bool { _ => true }

  /** One family of ModbusOperationalMetrics. Its emission has a fixed set of measures, while a record may
      name any key. `history` is what has happened to it. */
  class CounterFamily {
    const known: set<Key>
    var counters: map<Key, Counter>
    ghost var history: seq<Event<Key>>

    ghost predicate Valid()
      reads this
    {
      forall k :: Of(k) == After(history, k)
    }

    constructor (known: set<Key>)
      ensures Valid() && this.known == known && history == []
    {
      this.known, counters, history := known, map[], [];
    }

    /** counters[k], a defaultdict. */
    function Of(k: Key): Counter
      reads this`counters
    {
      if k in counters then counters[k] else ZERO
    }

    method Record(items: seq<(Key, real)>)
      requires Valid()
      modifies this`counters, this`history
      ensures Valid() && history == old(history) + [Event.Record(items)]
      ensures forall k :: Of(k).total == old(Of(k)).total + Amount(items, k)
      ensures forall k :: Of(k).interval == old(Of(k)).interval + Amount(items, k)
    {
      ghost var was := counters;
      for i := 0 to |items|
        invariant history == old(history)
        invariant forall k :: Of(k) == Add(if k in was then was[k] else ZERO, Amount(items[..i], k))
      {
        Snoc(items, i);
        var (k, v) := items[i];
        counters := counters[k := Add(Of(k), v)];
      }
      assert items[..|items|] == items;
      forall k ensures Of(k) == After(history + [Event.Record(items)], k) { HistoryAppend(history, Event.Record(items), k); }
      history := history + [Event.Record(items)];
    }

    /** Every counter is reset; only the known keys are reported, 0 for those never recorded. The keys the
        adapter records are all known: its record calls name measures of the emitted lists only. */
    method Emit() returns (values: map<Key, real>)
      requires Valid()
      modifies this`counters, this`history
      ensures Valid() && history == old(history) + [Drain(All())]
      ensures values.Keys == known
      ensures forall k :: k in known ==> values[k] == Yield(After(old(history), k), Drain(All()), k)
      ensures forall k :: Of(k) == old(Of(k)).(interval := 0.0)
      ensures forall k :: k in known ==> values[k] == old(Of(k)).interval
    {
      values := map k | k in known :: Of(k).interval;
      ghost var was := counters;
      var todo := counters.Keys;
      while todo != {}
        invariant history == old(history) && todo <= counters.Keys == was.Keys
        invariant forall k :: k in counters ==> counters[k] == (if k in todo then was[k] else was[k].(interval := 0.0))
        decreases |todo|
      {
        var k :| k in todo;
        counters := counters[k := counters[k].(interval := 0.0)];
        todo := todo - {k};
      }
      forall k ensures Of(k) == After(history + [Drain(All())], k) { HistoryAppend(history, Drain(All()), k); }
      history := history + [Drain(All())];
    }
  }

  // ---- the client counters ----

  datatype Client = Reads | Writes | ReadErrors | WriteErrors | Reconnects

  function Only(c: Client): Client -> bool { d => d == c }

  function Activity(): Client -> bool { c => c == Reads || c == Writes }

  /** The counters behind sb/status and the health metric. Error and reconnect counters keep no total. */
  class ClientMetrics {
    var readInterval: nat
    var readTotal: nat
    var writeInterval: nat
    var writeTotal: nat
    var readErrors: nat
    var writeErrors: nat
    var reconnects: nat
    ghost var history: seq<Event<Client>>

    ghost predicate Valid()
      reads this
    {
      && (forall c :: After(history, c).interval == Interval(c) as real)
      && After(history, Reads).total == readTotal as real && After(history, Writes).total == writeTotal as real
    }

    function Interval(c: Client): nat
      reads this
    {
      match c
      case Reads => readInterval
      case Writes => writeInterval
      case ReadErrors => readErrors
      case WriteErrors => writeErrors
      case Reconnects => reconnects
    }

    constructor ()
      ensures Valid() && history == []
    {
      readInterval, readTotal, writeInterval, writeTotal := 0, 0, 0, 0;
      readErrors, writeErrors, reconnects, history := 0, 0, 0, [];
    }

    ghost method Log(e: Event<Client>)
      modifies this`history
      ensures history == old(history) + [e]
      ensures forall c :: After(history, c) == Step(After(old(history), c), e, c)
    {
      forall c ensures After(history + [e], c) == Step(After(history, c), e, c) { HistoryAppend(history, e, c); }
      history := history + [e];
    }

    method IncrementRead(n: nat)
      requires Valid()
      modifies this
      ensures Valid() && history == old(history) + [One(Reads, n)]
      ensures readInterval == old(readInterval) + n && readTotal == old(readTotal) + n
    {
      readInterval, readTotal := readInterval + n, readTotal + n;
      Log(One(Reads, n));
      OneAmount(Reads, n);
    }

    method IncrementWrite(n: nat)
      requires Valid()
      modifies this
      ensures Valid() && history == old(history) + [One(Writes, n)]
      ensures writeInterval == old(writeInterval) + n && writeTotal == old(writeTotal) + n
    {
      writeInterval, writeTotal := writeInterval + n, writeTotal + n;
      Log(One(Writes, n));
      OneAmount(Writes, n);
    }

    method IncrementReadError(n: nat)
      requires Valid()
      modifies this
      ensures Valid() && history == old(history) + [One(ReadErrors, n)]
      ensures readErrors == old(readErrors) + n
    {
      readErrors := readErrors + n;
      Log(One(ReadErrors, n));
      OneAmount(ReadErrors, n);
    }

    method IncrementWriteError(n: nat)
      requires Valid()
      modifies this
      ensures Valid() && history == old(history) + [One(WriteErrors, n)]
      ensures writeErrors == old(writeErrors) + n
    {
      writeErrors := writeErrors + n;
      Log(One(WriteErrors, n));
      OneAmount(WriteErrors, n);
    }

    method IncrementReconnect(n: nat)
      requires Valid()
      modifies this
      ensures Valid() && history == old(history) + [One(Reconnects, n)]
      ensures reconnects == old(reconnects) + n
    {
      reconnects := reconnects + n;
      Log(One(Reconnects, n));
      OneAmount(Reconnects, n);
    }

    method TakeReadErrors() returns (v: nat)
      requires Valid()
      modifies this
      ensures Valid() && history == old(history) + [Drain(Only(ReadErrors))]
      ensures v as real == Yield(After(old(history), ReadErrors), Drain(Only(ReadErrors)), ReadErrors)
      ensures v == old(readErrors) && readErrors == 0
    {
      v, readErrors := readErrors, 0;
      Log(Drain(Only(ReadErrors)));
    }

    method TakeWriteErrors() returns (v: nat)
      requires Valid()
      modifies this
      ensures Valid() && history == old(history) + [Drain(Only(WriteErrors))]
      ensures v as real == Yield(After(old(history), WriteErrors), Drain(Only(WriteErrors)), WriteErrors)
      ensures v == old(writeErrors) && writeErrors == 0
    {
      v, writeErrors := writeErrors, 0;
      Log(Drain(Only(WriteErrors)));
    }

    method TakeReconnects() returns (v: nat)
      requires Valid()
      modifies this
      ensures Valid() && history == old(history) + [Drain(Only(Reconnects))]
      ensures v as real == Yield(After(old(history), Reconnects), Drain(Only(Reconnects)), Reconnects)
      ensures v == old(reconnects) && reconnects == 0
    {
      v, reconnects := reconnects, 0;
      Log(Drain(Only(Reconnects)));
    }

    /** The read and write counters of sb/status: their intervals are handed out, their totals stay. */
    method ToDict() returns (read: Counter, write: Counter)
      requires Valid()
      modifies this
      ensures Valid() && history == old(history) + [Drain(Activity())]
      ensures read == After(old(history), Reads) && write == After(old(history), Writes)
      ensures readInterval == writeInterval == 0 && readTotal == old(readTotal) && writeTotal == old(writeTotal)
      ensures read.interval == old(readInterval) as real && write.interval == old(writeInterval) as real
    {
      read := Counter(readTotal as real, readInterval as real);
      write := Counter(writeTotal as real, writeInterval as real);
      readInterval, writeInterval := 0, 0;
      Log(Drain(Activity()));
    }
  }

  function One(c: Client, n: nat): Event<Client> { Record([(c, n as real)]) }

  lemma OneAmount(c: Client, n: nat)
    ensures forall d :: Amount(One(c, n).items, d) == if d == c then n as real else 0.0
  {
    assert [(c, n as real)][..0] == [];
  }

  // ---- connected time ----

  /** One emission of the connection metric. */
  datatype Tick = Tick(now: real, connected: bool)

  /** `_last_connected_emit` after a history of emissions. */
  function LastConnected(ticks: seq<Tick>): Option<real> {
    if ticks == [] || !ticks[|ticks| - 1].connected then None else Some(ticks[|ticks| - 1].now)
  }

  /** connectedDurationMs of the emission that follows a history. */
  function Duration(last: Option<real>, t: Tick): real {
    if !t.connected || last.None? then 0.0 else (t.now - last.value) * 1000.0
  }

  class ConnectionMetrics {
    var lastConnectedEmit: Option<real>
    ghost var ticks: seq<Tick>

    ghost predicate Valid()
      reads this
    {
      lastConnectedEmit == LastConnected(ticks)
    }

    constructor ()
      ensures Valid() && ticks == []
    {
      lastConnectedEmit, ticks := None, [];
    }

    method EmitConnection(now: real, connected: bool) returns (connectionState: nat, connectedDurationMs: real)
      requires Valid()
      modifies this
      ensures Valid() && ticks == old(ticks) + [Tick(now, connected)]
      ensures connectionState == (if connected then 1 else 0)
      ensures connectedDurationMs == Duration(LastConnected(old(ticks)), Tick(now, connected))
    {
      connectionState := if connected then 1 else 0;
      if connected {
        connectedDurationMs := if lastConnectedEmit.None? then 0.0 else (now - lastConnectedEmit.value) * 1000.0;
        lastConnectedEmit := Some(now);
      } else {
        connectedDurationMs := 0.0;
        lastConnectedEmit := None;
      }
      ticks := ticks + [Tick(now, connected)];
    }
  }

  /** The durations emitted from emission `from` up to and not including emission `to`. */
  function Durations(ticks: seq<Tick>, from: nat, to: nat): real
    requires from <= to <= |ticks|
  {
    if from == to then 0.0 else Durations(ticks, from, to - 1) + Duration(LastConnected(ticks[..to - 1]), ticks[to - 1])
  }

  /** Over an unbroken connected stretch the durations add up to its length, last emission minus first, and
      the emission that opens the stretch adds nothing. */
  lemma {:induction false} ConnectedTime(ticks: seq<Tick>, first: nat, last: nat)
    requires first <= last < |ticks| && forall n :: first <= n <= last ==> ticks[n].connected
    ensures Durations(ticks, first + 1, last + 1) == (ticks[last].now - ticks[first].now) * 1000.0
    ensures first == 0 || !ticks[first - 1].connected ==>
      Durations(ticks, first, last + 1) == (ticks[last].now - ticks[first].now) * 1000.0
  {
    if first < last {
      ConnectedTime(ticks, first, last - 1);
      assert LastConnected(ticks[..last]) == Some(ticks[last - 1].now);
    }
  }

  /** While the link is down no connected time accrues. */
  lemma {:induction false} DisconnectedTime(ticks: seq<Tick>, from: nat, to: nat)
    requires from <= to <= |ticks| && forall n :: from <= n < to ==> !ticks[n].connected
    ensures Durations(ticks, from, to) == 0.0
  {
    if from < to { DisconnectedTime(ticks, from, to - 1); }
  }

  /** A record of several amounts adds those of its parts. */
  lemma {:induction false} AmountConcat<K>(xs: seq<(K, real)>, ys: seq<(K, real)>, k: K)
    ensures Amount(xs + ys, k) == Amount(xs, k) + Amount(ys, k)
  {
    if ys == [] {
      assert xs + ys == xs;
    } else {
      assert (xs + ys)[..|xs + ys| - 1] == xs + ys[..|ys| - 1];
      AmountConcat(xs, ys[..|ys| - 1], k);
    }
  }

  /** What a record adds to a key: nothing to one it does not name, and to one it names once just the amount
      named with it. */
  lemma {:induction false} RecordAdds<K>(items: seq<(K, real)>, i: nat, k: K)
    ensures (forall j :: 0 <= j < |items| ==> items[j].0 != k) ==> Amount(items, k) == 0.0
    ensures i < |items| && items[i].0 == k && (forall j :: 0 <= j < |items| && j != i ==> items[j].0 != k) ==>
      Amount(items, k) == items[i].1
  {
    if items != [] { RecordAdds(items[..|items| - 1], i, k); }
  }
}

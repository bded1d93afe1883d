/** On-demand reads and writes: CommandService in modbus_adapter/command_service.py, over the bits and
    registers of the device. */
module Commands {
  import opened Values
  import opened Numerals
  import opened Signals
  import opened Bytes
  import opened Codec
  import opened Device
  import Planner
  import Poller

  /** The configuration of an instance: the signals by name, the default unit and `writes.allow`. */
  datatype Setup = Setup(
    platform: Platform, known: map<string, (SignalSpec, int)>, defaultUnit: int, allow: set<string>)

  /** An entry of a batch: a signal reference and, for writes, a value. Absent keys are None. */
  datatype Ref = Ref(raw: RawSignal, unitId: Option<int>, value: Option<Value>)

  function Resolve(c: Setup, w: Ref): Result<(SignalSpec, int)> {
    var o := w.raw;
    if o.name.Some? && o.name.value != "" && o.name.value in c.known then Ok(c.known[o.name.value])
    else if o.table.Some? && o.address.Some? then
      var name := if o.name.Some? then o.name.value else o.table.value + ":" + Numeral(o.address.value);
      var s := FromDict(o.(name := Some(name)));
      if s.Err? then Err(s.error) else Ok((s.value, if w.unitId.Some? then w.unitId.value else c.defaultUnit))
    else Err(Unresolvable)
  }

  // ---- what a single entry asks for ----

  datatype Reason = NotResolved | NotAllowed | NoValue | ReadOnly | BitWrite | NotEncodable(cause: Failure) | DeviceRefused

  datatype Verdict =
    | Rejected(name: Option<string>, why: Reason)
    | Attempt(signal: SignalSpec, unit: int, v: Value)

  /** The checks every entry passes before any device access. */
  function Judge(c: Setup, w: Ref): Verdict {
    var r := Resolve(c, w);
    if r.Err? then Rejected(w.raw.name, NotResolved)
    else
      var (s, unit) := r.value;
      if SignalId(s, unit) !in c.allow then Rejected(Some(s.name), NotAllowed)
      else if w.value.None? then Rejected(Some(s.name), NoValue)
      else if !Writable(s.table) then Rejected(Some(s.name), ReadOnly)
      else if s.typ == Bool && s.bit.Some? then Rejected(Some(s.name), BitWrite)
      else Attempt(s, unit, w.value.value)
  }

  predicate Refused(c: Setup, w: Ref) { Judge(c, w).Rejected? && Judge(c, w).why == NotAllowed }

  /** What the write sends, if it gets as far as the device. */
  function Request(c: Setup, w: Ref): Result<Wire> {
    var j := Judge(c, w);
    if j.Rejected? then Err(Unresolvable) else Encode(c.platform, j.v, j.signal)
  }

  /** The entry reaches the device and the device accepts it. */
  predicate Succeeds(c: Setup, w: Ref, accept: bool) { Request(c, w).Ok? && accept }

  datatype Report = Report(name: Option<string>, value: Option<Value>, ok: bool, error: Option<Reason>)

  datatype Audit = Audit(ok: bool, name: string, value: Value, error: Option<Reason>)

  function Problem(c: Setup, w: Ref, accept: bool): Option<Reason> {
    var j, q := Judge(c, w), Request(c, w);
    if j.Rejected? then Some(j.why)
    else if q.Err? then Some(NotEncodable(q.error))
    else if !accept then Some(DeviceRefused) else None
  }

  function ReportOf(c: Setup, w: Ref, accept: bool): Report {
    var j := Judge(c, w);
    if j.Rejected? then Report(j.name, None, false, Some(j.why))
    else Report(Some(j.signal.name), Some(j.v), Succeeds(c, w, accept), Problem(c, w, accept))
  }

  // ---- the device ----

  function Cells(w: Wire): seq<int> { if w.CoilWire? then [if w.on then 1 else 0] else w.regs }

  /** The value of a signal on the device now; a request for no units at all is an error. */
  function ReadOne(p: Platform, m: Memory, s: SignalSpec, unit: int): Result<Value> {
    if UnitLength(s) < 1 then Err(OutOfRange)
    else Decode(p, ReadImage(UnitImage(m, unit), s.table, s.address, UnitLength(s)), s)
  }

  // ---- a batch ----

  /** Units written at an address of the device. */
  datatype Span = Span(unit: int, table: Table, address: int, cells: seq<int>)

  function Deposit(m: Memory, d: Option<Span>): Memory {
    if d.None? then m else Stored(m, d.value.unit, d.value.table, d.value.address, d.value.cells)
  }

  /** The device after writing spans in order. */
  function Deposits(m: Memory, ds: seq<Option<Span>>): Memory {
    if ds == [] then m else Deposit(Deposits(m, ds[..|ds| - 1]), ds[|ds| - 1])
  }

  /** Where an entry lands on the device: nowhere unless it succeeds. */
  function Landing(c: Setup, w: Ref, accept: bool): Option<Span> {
    if !Succeeds(c, w, accept) then None
    else Some(Span(Judge(c, w).unit, Judge(c, w).signal.table, Judge(c, w).signal.address, Cells(Request(c, w).value)))
  }

  function Landings(c: Setup, writes: seq<Ref>, accepts: seq<bool>): (ds: seq<Option<Span>>)
    requires |accepts| == |writes|
    ensures |ds| == |writes| && forall i :: 0 <= i < |ds| ==> ds[i] == Landing(c, writes[i], accepts[i])
  {
    seq(|writes|, i requires 0 <= i < |writes| => Landing(c, writes[i], accepts[i]))
  }

  /** The device after a batch: the ordered fold of its successful entries. */
  function Applied(c: Setup, m: Memory, writes: seq<Ref>, accepts: seq<bool>): Memory
    requires |accepts| == |writes|
  {
    Deposits(m, Landings(c, writes, accepts))
  }

  datatype Counts = Counts(refused: nat, attempted: nat, succeeded: nat, deviceErrors: nat)

  function CountEntry(k: Counts, c: Setup, w: Ref, accept: bool): Counts {
    Counts(k.refused + (if Refused(c, w) then 1 else 0),
           k.attempted + (if Judge(c, w).Attempt? then 1 else 0),
           k.succeeded + (if Succeeds(c, w, accept) then 1 else 0),
           k.deviceErrors + (if Request(c, w).Ok? && !accept then 1 else 0))
  }

  function CountAll(c: Setup, writes: seq<Ref>, accepts: seq<bool>): Counts
    requires |accepts| == |writes|
  {
    if writes == [] then Counts(0, 0, 0, 0)
    else
      var n := |writes| - 1;
      CountEntry(CountAll(c, writes[..n], accepts[..n]), c, writes[n], accepts[n])
  }

  function AuditOf(c: Setup, w: Ref, accept: bool): seq<Audit> {
    var j := Judge(c, w);
    if j.Rejected? then [] else [Audit(Succeeds(c, w, accept), j.signal.name, j.v, Problem(c, w, accept))]
  }

  /** Every attempted write is audited, in order. */
  function Audits(c: Setup, writes: seq<Ref>, accepts: seq<bool>): seq<Audit>
    requires |accepts| == |writes|
  {
    if writes == [] then []
    else
      var n := |writes| - 1;
      Audits(c, writes[..n], accepts[..n]) + AuditOf(c, writes[n], accepts[n])
  }

  function Reports(c: Setup, writes: seq<Ref>, accepts: seq<bool>): seq<Report>
    requires |accepts| == |writes|
  {
    if writes == [] then []
    else
      var n := |writes| - 1;
      Reports(c, writes[..n], accepts[..n]) + [ReportOf(c, writes[n], accepts[n])]
  }

  datatype Reply = Written(written: nat, results: seq<Report>) | WriteNotAllowed | WriteFailed

  /** The reply, from the counts: the refusal code is looked at first. */
  function Conclude(k: Counts, entries: nat, results: seq<Report>): Reply {
    if entries > 0 && k.refused == entries then WriteNotAllowed
    else if k.attempted > 0 && k.succeeded == 0 then WriteFailed
    else Written(k.succeeded, results)
  }

  class CommandService {
    const setup: Setup
    var memory: Memory
    var audits: seq<Audit>
    var writeCount: nat
    var writeErrors: nat
    var readCount: nat
    var readErrors: nat

    constructor (setup: Setup, memory: Memory)
      ensures this.setup == setup && this.memory == memory && audits == []
      ensures writeCount == 0 && writeErrors == 0 && readCount == 0 && readErrors == 0
    {
      this.setup, this.memory, audits := setup, memory, [];
      writeCount, writeErrors, readCount, readErrors := 0, 0, 0, 0;
    }

    /** One write. A refused request leaves the device as it was. Only failures of the device path count
        as write errors; one that cannot be encoded does not. */
    method WriteOne(s: SignalSpec, unit: int, v: Value, accept: bool) returns (ok: bool, error: Option<Reason>)
      modifies this`memory, this`writeCount, this`writeErrors
      ensures var q := Encode(setup.platform, v, s);
        && (ok <==> q.Ok? && accept)
        && error == (if q.Err? then Some(NotEncodable(q.error)) else if accept then None else Some(DeviceRefused))
        && memory == (if ok then Stored(old(memory), unit, s.table, s.address, Cells(q.value)) else old(memory))
        && writeCount == old(writeCount) + (if ok then 1 else 0)
        && writeErrors == old(writeErrors) + (if q.Ok? && !accept then 1 else 0)
    {
      var enc := Encode(setup.platform, v, s);
      if enc.Err? {
        return false, Some(NotEncodable(enc.error));
      }
      if !accept {
        writeErrors := writeErrors + 1;
        return false, Some(DeviceRefused);
      }
      memory := Stored(memory, unit, s.table, s.address, Cells(enc.value));
      writeCount := writeCount + 1;
      return true, None;
    }

    /** One entry of a batch. */
    method WriteEntry(w: Ref, accept: bool) returns (report: Report, refused: bool, attempted: bool)
      modifies this`memory, this`audits, this`writeCount, this`writeErrors
      ensures report == ReportOf(setup, w, accept) && (report.ok <==> Succeeds(setup, w, accept))
      ensures refused <==> Refused(setup, w)
      ensures attempted <==> Judge(setup, w).Attempt?
      ensures memory == Deposit(old(memory), Landing(setup, w, accept))
      ensures audits == old(audits) + AuditOf(setup, w, accept)
      ensures writeCount == old(writeCount) + (if Succeeds(setup, w, accept) then 1 else 0)
      ensures writeErrors == old(writeErrors) + (if Request(setup, w).Ok? && !accept then 1 else 0)
    {
      refused, attempted := false, false;
      var found := Resolve(setup, w);
      if found.Err? {
        report := Report(w.raw.name, None, false, Some(NotResolved));
        return;
      }
      var (s, unit) := found.value;
      if SignalId(s, unit) !in setup.allow {
        refused, report := true, Report(Some(s.name), None, false, Some(NotAllowed));
      } else if w.value.None? {
        report := Report(Some(s.name), None, false, Some(NoValue));
      } else if !Writable(s.table) {
        report := Report(Some(s.name), None, false, Some(ReadOnly));
      } else if s.typ == Bool && s.bit.Some? {
        report := Report(Some(s.name), None, false, Some(BitWrite));
      } else {
        attempted := true;
        var ok, error := WriteOne(s, unit, w.value.value, accept);
        report := Report(Some(s.name), w.value, ok, error);
        audits := audits + [Audit(ok, s.name, w.value.value, error)];
      }
    }

    /** The loop over a batch: what it leaves behind and the counts the reply is decided on. */
    method WriteEntries(entries: seq<Ref>, accepts: seq<bool>)
        returns (results: seq<Report>, refused: nat, attempted: nat, succeeded: nat)
      requires |accepts| == |entries|
      modifies this`memory, this`audits, this`writeCount, this`writeErrors
      ensures memory == Applied(setup, old(memory), entries, accepts)
      ensures audits == old(audits) + Audits(setup, entries, accepts)
      ensures results == Reports(setup, entries, accepts)
      ensures Tallied(CountAll(setup, entries, accepts), refused, attempted, succeeded)
      ensures writeCount == old(writeCount) + succeeded
      ensures writeErrors == old(writeErrors) + CountAll(setup, entries, accepts).deviceErrors
    {
      results, refused, attempted, succeeded := [], 0, 0, 0;
      for i := 0 to |entries|
        invariant memory == Applied(setup, old(memory), entries[..i], accepts[..i])
        invariant audits == old(audits) + Audits(setup, entries[..i], accepts[..i])
        invariant results == Reports(setup, entries[..i], accepts[..i])
        invariant Tallied(CountAll(setup, entries[..i], accepts[..i]), refused, attempted, succeeded)
        invariant writeCount == old(writeCount) + succeeded
        invariant writeErrors == old(writeErrors) + CountAll(setup, entries[..i], accepts[..i]).deviceErrors
      {
        BatchStep(setup, old(memory), entries, accepts, i);
        Associate(old(audits), Audits(setup, entries[..i], accepts[..i]), AuditOf(setup, entries[i], accepts[i]));
        var report, no, tried := WriteEntry(entries[i], accepts[i]);
        TallyStep(setup, entries[i], accepts[i], CountAll(setup, entries[..i], accepts[..i]),
          refused, attempted, succeeded, no, tried, report.ok);
        refused := refused + if no then 1 else 0;
        attempted := attempted + if tried then 1 else 0;
        succeeded := succeeded + if report.ok then 1 else 0;
        results := results + [report];
      }
      WholeBatch(entries, accepts);
    }

    /** sb/write. `accepts[i]` is what the device answers if entry i gets that far. */
    method Write(entries: seq<Ref>, accepts: seq<bool>) returns (r: Reply)
      requires |accepts| == |entries|
      modifies this`memory, this`audits, this`writeCount, this`writeErrors
      ensures memory == Applied(setup, old(memory), entries, accepts)
      ensures audits == old(audits) + Audits(setup, entries, accepts)
      ensures writeCount == old(writeCount) + CountAll(setup, entries, accepts).succeeded
      ensures writeErrors == old(writeErrors) + CountAll(setup, entries, accepts).deviceErrors
      ensures r == Conclude(CountAll(setup, entries, accepts), |entries|, Reports(setup, entries, accepts))
      ensures r.WriteNotAllowed? <==> AllRefused(setup, entries)
      ensures r.WriteFailed? <==> AllFailed(setup, entries, accepts)
      ensures !r.Written? ==> memory == old(memory)
    {
      var results, refused, attempted, succeeded := WriteEntries(entries, accepts);
      ConclusionMeans(setup, old(memory), entries, accepts);
      if entries != [] && refused == |entries| {
        return WriteNotAllowed;
      }
      if attempted > 0 && succeeded == 0 {
        return WriteFailed;
      }
      return Written(succeeded, results);
    }

    /** sb/read. `answers[i]` is whether the device answers if entry i is read; unresolvable entries are
        skipped without a trace. */
    method Read(entries: seq<Ref>, answers: seq<bool>) returns (values: seq<Option<Value>>)
      requires |answers| == |entries|
      modifies this`readCount, this`readErrors
      ensures values == Readings(setup, memory, entries, answers)
      ensures readCount == old(readCount) + |values|
      ensures readErrors == old(readErrors) + Missing(values)
    {
      values := [];
      for i := 0 to |entries|
        invariant values == Readings(setup, memory, entries[..i], answers[..i])
        invariant readCount == old(readCount) + |values|
        invariant readErrors == old(readErrors) + Missing(values)
      {
        ReadStep(setup, memory, entries, answers, i);
        var found := Resolve(setup, entries[i]);
        if found.Err? {
          continue;
        }
        var (s, unit) := found.value;
        var value := ReadOne(setup.platform, memory, s, unit);
        var reading := if answers[i] && value.Ok? then Some(value.value) else None;
        if reading.None? {
          readErrors := readErrors + 1;
        }
        readCount := readCount + 1;
        MissingAppend(values, reading);
        values := values + [reading];
      }
      assert entries[..|entries|] == entries && answers[..|entries|] == answers;
    }
  }

  /** What sb/read answers for one reference: nothing, or a reading that may be missing. */
  function Reading(c: Setup, m: Memory, w: Ref, answer: bool): seq<Option<Value>> {
    if Resolve(c, w).Err? then []
    else
      var v := ReadRef(c, m, w);
      [if answer && v.Ok? then Some(v.value) else None]
  }

  function Readings(c: Setup, m: Memory, entries: seq<Ref>, answers: seq<bool>): seq<Option<Value>>
    requires |answers| == |entries|
  {
    if entries == [] then []
    else
      var n := |entries| - 1;
      Readings(c, m, entries[..n], answers[..n]) + Reading(c, m, entries[n], answers[n])
  }

  lemma ReadStep(c: Setup, m: Memory, entries: seq<Ref>, answers: seq<bool>, i: nat)
    requires |answers| == |entries| && i < |entries|
    ensures Readings(c, m, entries[..i + 1], answers[..i + 1])
      == Readings(c, m, entries[..i], answers[..i]) + Reading(c, m, entries[i], answers[i])
  {
    Snoc(entries, i);
    Snoc(answers, i);
  }

  lemma MissingAppend(values: seq<Option<Value>>, v: Option<Value>)
    ensures Missing(values + [v]) == Missing(values) + if v.None? then 1 else 0
  {
    Snoc(values + [v], |values|);
    assert (values + [v])[..|values|] == values;
  }

  function Missing(values: seq<Option<Value>>): nat {
    if values == [] then 0
    else Missing(values[..|values| - 1]) + if values[|values| - 1].None? then 1 else 0
  }

  /** What sb/read of the same reference sees. */
  function ReadRef(c: Setup, m: Memory, w: Ref): Result<Value> {
    var r := Resolve(c, w);
    if r.Err? then Err(r.error) else ReadOne(c.platform, m, r.value.0, r.value.1)
  }

  // ---- what the counts say ----

  /** The condition of WRITE_NOT_ALLOWED. */
  ghost predicate AllRefused(c: Setup, writes: seq<Ref>) { writes != [] && Every(writes, w => Refused(c, w)) }

  ghost predicate NoneLands(ds: seq<Option<Span>>) { Every(ds, (d: Option<Span>) => d.None?) }

  /** The condition of WRITE_FAILED. */
  ghost predicate AllFailed(c: Setup, writes: seq<Ref>, accepts: seq<bool>)
    requires |accepts| == |writes|
  {
    !Every(writes, w => Judge(c, w).Rejected?) && NoneLands(Landings(c, writes, accepts))
  }

  predicate Tallied(k: Counts, refused: nat, attempted: nat, succeeded: nat) {
    k.refused == refused && k.attempted == attempted && k.succeeded == succeeded
  }

  lemma TallyStep(c: Setup, w: Ref, accept: bool, k: Counts, refused: nat, attempted: nat, succeeded: nat,
                  no: bool, tried: bool, ok: bool)
    requires Tallied(k, refused, attempted, succeeded)
    requires (no <==> Refused(c, w)) && (tried <==> Judge(c, w).Attempt?) && (ok <==> Succeeds(c, w, accept))
    ensures Tallied(CountEntry(k, c, w, accept),
      refused + (if no then 1 else 0), attempted + (if tried then 1 else 0), succeeded + (if ok then 1 else 0))
  {
  }

  lemma WholeBatch(writes: seq<Ref>, accepts: seq<bool>)
    requires |accepts| == |writes|
    ensures writes[..|writes|] == writes && accepts[..|writes|] == accepts
  {
  }

  lemma BatchStep(c: Setup, m: Memory, writes: seq<Ref>, accepts: seq<bool>, i: nat)
    requires |accepts| == |writes| && i < |writes|
    ensures Applied(c, m, writes[..i + 1], accepts[..i + 1])
      == Deposit(Applied(c, m, writes[..i], accepts[..i]), Landing(c, writes[i], accepts[i]))
    ensures Audits(c, writes[..i + 1], accepts[..i + 1])
      == Audits(c, writes[..i], accepts[..i]) + AuditOf(c, writes[i], accepts[i])
    ensures Reports(c, writes[..i + 1], accepts[..i + 1])
      == Reports(c, writes[..i], accepts[..i]) + [ReportOf(c, writes[i], accepts[i])]
    ensures CountAll(c, writes[..i + 1], accepts[..i + 1])
      == CountEntry(CountAll(c, writes[..i], accepts[..i]), c, writes[i], accepts[i])
  {
    Snoc(writes, i);
    Snoc(accepts, i);
    LandingsInit(c, writes[..i + 1], accepts[..i + 1]);
  }

  lemma LandingsInit(c: Setup, writes: seq<Ref>, accepts: seq<bool>)
    requires |accepts| == |writes| && writes != []
    ensures var n := |writes| - 1; Landings(c, writes, accepts)[..n] == Landings(c, writes[..n], accepts[..n])
  {
  }

  /** Every entry refused, exactly when as many were refused as there are entries. */
  lemma {:induction false} RefusedMeans(c: Setup, writes: seq<Ref>, accepts: seq<bool>)
    requires |accepts| == |writes|
    ensures CountAll(c, writes, accepts).refused <= |writes|
    ensures CountAll(c, writes, accepts).refused == |writes| <==> Every(writes, w => Refused(c, w))
  {
    if writes != [] {
      RefusedMeans(c, writes[..|writes| - 1], accepts[..|writes| - 1]);
      EverySplits(writes, w => Refused(c, w));
    }
  }

  lemma {:induction false} AttemptedMeans(c: Setup, writes: seq<Ref>, accepts: seq<bool>)
    requires |accepts| == |writes|
    ensures CountAll(c, writes, accepts).attempted == 0 <==> Every(writes, w => Judge(c, w).Rejected?)
  {
    if writes != [] {
      AttemptedMeans(c, writes[..|writes| - 1], accepts[..|writes| - 1]);
      EverySplits(writes, w => Judge(c, w).Rejected?);
    }
  }

  lemma {:induction false} SucceededMeans(c: Setup, writes: seq<Ref>, accepts: seq<bool>)
    requires |accepts| == |writes|
    ensures CountAll(c, writes, accepts).succeeded == 0 <==> NoneLands(Landings(c, writes, accepts))
  {
    if writes != [] {
      SucceededMeans(c, writes[..|writes| - 1], accepts[..|writes| - 1]);
      LandingsInit(c, writes, accepts);
      EverySplits(Landings(c, writes, accepts), (d: Option<Span>) => d.None?);
    }
  }

  lemma {:induction false} NoneLandsUnchanged(m: Memory, ds: seq<Option<Span>>)
    requires NoneLands(ds)
    ensures Deposits(m, ds) == m
  {
    if ds != [] {
      EverySplits(ds, (d: Option<Span>) => d.None?);
      NoneLandsUnchanged(m, ds[..|ds| - 1]);
    }
  }

  /** A batch refused as a whole reaches neither the device nor the audit. */
  lemma RefusedBatchDoesNothing(c: Setup, m: Memory, writes: seq<Ref>, accepts: seq<bool>)
    requires |accepts| == |writes| && AllRefused(c, writes)
    ensures NoneLands(Landings(c, writes, accepts)) && !AllFailed(c, writes, accepts)
    ensures Applied(c, m, writes, accepts) == m && Audits(c, writes, accepts) == []
  {
    RefusedRejected(c, writes, accepts);
    NoneLandsUnchanged(m, Landings(c, writes, accepts));
    RejectedUnaudited(c, writes, accepts);
  }

  lemma RefusedRejected(c: Setup, writes: seq<Ref>, accepts: seq<bool>)
    requires |accepts| == |writes| && AllRefused(c, writes)
    ensures Every(writes, w => Judge(c, w).Rejected?) && NoneLands(Landings(c, writes, accepts))
  {
    forall i | 0 <= i < |writes| ensures Landing(c, writes[i], accepts[i]).None? && Judge(c, writes[i]).Rejected? {
      assert Refused(c, writes[i]);
    }
  }

  lemma {:induction false} RejectedUnaudited(c: Setup, writes: seq<Ref>, accepts: seq<bool>)
    requires |accepts| == |writes| && Every(writes, w => Judge(c, w).Rejected?)
    ensures Audits(c, writes, accepts) == []
  {
    if writes != [] {
      EverySplits(writes, w => Judge(c, w).Rejected?);
      RejectedUnaudited(c, writes[..|writes| - 1], accepts[..|writes| - 1]);
    }
  }

  /** The coded errors, read off the entries one by one: WRITE_NOT_ALLOWED exactly for a batch whose every
      entry is refused by the allow-list, WRITE_FAILED exactly when something was attempted and nothing
      succeeded, and either only with the device as it was. */
  lemma ConclusionMeans(c: Setup, m: Memory, writes: seq<Ref>, accepts: seq<bool>)
    requires |accepts| == |writes|
    ensures var r := Conclude(CountAll(c, writes, accepts), |writes|, Reports(c, writes, accepts));
      && (r.WriteNotAllowed? <==> AllRefused(c, writes))
      && (r.WriteFailed? <==> AllFailed(c, writes, accepts))
      && (!r.Written? ==> Applied(c, m, writes, accepts) == m)
  {
    RefusedMeans(c, writes, accepts);
    AttemptedMeans(c, writes, accepts);
    SucceededMeans(c, writes, accepts);
    if AllRefused(c, writes) { RefusedBatchDoesNothing(c, m, writes, accepts); }
    if AllFailed(c, writes, accepts) { NoneLandsUnchanged(m, Landings(c, writes, accepts)); }
  }

  /** Attempts that do not count as written or as device errors are exactly those that could not be
      encoded. docs/reference/messaging-interface.md line 95 says of WRITE_FAILED that the device rejected every
      attempted write; of a failed batch that is so exactly when every attempted entry encodes. */
  lemma {:induction false} AttemptsReachDevice(c: Setup, writes: seq<Ref>, accepts: seq<bool>)
    requires |accepts| == |writes|
    ensures var k := CountAll(c, writes, accepts);
      && k.succeeded + k.deviceErrors <= k.attempted
      && (k.succeeded + k.deviceErrors == k.attempted <==> Every(writes, w => Judge(c, w).Attempt? ==> Request(c, w).Ok?))
  {
    if writes != [] {
      AttemptsReachDevice(c, writes[..|writes| - 1], accepts[..|writes| - 1]);
      EverySplits(writes, w => Judge(c, w).Attempt? ==> Request(c, w).Ok?);
    }
  }

  /** A batch of one value that does not fit its signal is answered WRITE_FAILED although the device was never
      asked. */
  lemma UnencodableFails(c: Setup, w: Ref, accept: bool)
    requires Judge(c, w).Attempt? && IntType(Judge(c, w).signal.typ) && Judge(c, w).signal.table == Holding
    requires Unscaled(Judge(c, w).signal) && Judge(c, w).v.IntV? && !InRange(Judge(c, w).signal.typ, Judge(c, w).v.n)
    ensures AllFailed(c, [w], [accept]) && CountAll(c, [w], [accept]).deviceErrors == 0
  {
    IntegerRoundTrip(c.platform, Judge(c, w).v.n, Judge(c, w).signal);
    assert Landings(c, [w], [accept])[0].None?;
    assert [w][..0] == [] && [accept][..0] == [];
  }

  /** The entry names a signal on the allow-list. */
  predicate OnAllowList(c: Setup, w: Ref) {
    Resolve(c, w).Ok? && SignalId(Resolve(c, w).value.0, Resolve(c, w).value.1) in c.allow
  }

  function CountAllowed(c: Setup, writes: seq<Ref>): nat {
    if writes == [] then 0
    else CountAllowed(c, writes[..|writes| - 1]) + if OnAllowList(c, writes[|writes| - 1]) then 1 else 0
  }

  /** The comment in the code says that every allowed write reached the device. An allowed entry without a value, of
      a read-only table or of a single bit is not even attempted. So the allowed entries all reached the device if
      and only if each of them is attempted and encodes. */
  lemma {:induction false} AllowedReachDevice(c: Setup, writes: seq<Ref>, accepts: seq<bool>)
    requires |accepts| == |writes|
    ensures var k := CountAll(c, writes, accepts);
      && k.succeeded + k.deviceErrors <= CountAllowed(c, writes)
      && (k.succeeded + k.deviceErrors == CountAllowed(c, writes)
          <==> Every(writes, w => OnAllowList(c, w) ==> Judge(c, w).Attempt? && Request(c, w).Ok?))
  {
    if writes != [] {
      var n := |writes| - 1;
      AllowedReachDevice(c, writes[..n], accepts[..n]);
      EverySplits(writes, w => OnAllowList(c, w) ==> Judge(c, w).Attempt? && Request(c, w).Ok?);
      ReachesIfAllowed(c, writes[n]);
    }
  }

  lemma ReachesIfAllowed(c: Setup, w: Ref)
    ensures Request(c, w).Ok? ==> Judge(c, w).Attempt?
    ensures Judge(c, w).Attempt? ==> OnAllowList(c, w)
  {
  }

  lemma CountPair(c: Setup, w: Ref, x: Ref, a: bool, b: bool)
    ensures CountAll(c, [w, x], [a, b]) == CountEntry(CountEntry(Counts(0, 0, 0, 0), c, w, a), c, x, b)
    ensures CountAllowed(c, [w, x]) == (if OnAllowList(c, w) then 1 else 0) + (if OnAllowList(c, x) then 1 else 0)
  {
    assert [w, x][..1] == [w] && [a, b][..1] == [a] && [w][..0] == [] && [a][..0] == [];
    assert CountAll(c, [w], [a]) == CountEntry(Counts(0, 0, 0, 0), c, w, a);
    assert CountAllowed(c, [w]) == if OnAllowList(c, w) then 1 else 0;
  }

  /** A batch that is answered WRITE_FAILED although nothing was refused and every attempt encodes, and in which an
      allowed entry never reached the device: it has no value. */
  lemma ValuelessNeverReaches(c: Setup, w: Ref, x: Ref, accept: bool)
    requires OnAllowList(c, w) && w.value.None? && Request(c, x).Ok?
    ensures var k := CountAll(c, [w, x], [accept, false]);
      && Conclude(k, 2, Reports(c, [w, x], [accept, false])).WriteFailed?
      && k.refused == 0 && k.deviceErrors == k.attempted == 1 && CountAllowed(c, [w, x]) == 2
  {
    ReachesIfAllowed(c, x);
    CountPair(c, w, x, accept, false);
  }

  // ---- what a batch leaves on the device ----

  predicate Covers(d: Option<Span>, unit: int, t: Table, a: int) {
    d.Some? && d.value.unit == unit && d.value.table == t && d.value.address <= a < d.value.address + |d.value.cells|
  }

  /** A cell holds what the last span covering it wrote. */
  lemma {:induction false} LastWriterWins(m: Memory, ds: seq<Option<Span>>, i: nat, unit: int, t: Table, a: int)
    requires i < |ds| && Covers(ds[i], unit, t, a)
    requires forall j :: i < j < |ds| ==> !Covers(ds[j], unit, t, a)
    ensures Deposits(m, ds)(unit, t, a) == ds[i].value.cells[a - ds[i].value.address]
  {
    if i < |ds| - 1 { LastWriterWins(m, ds[..|ds| - 1], i, unit, t, a); }
  }

  lemma {:induction false} UncoveredUnchanged(m: Memory, ds: seq<Option<Span>>, unit: int, t: Table, a: int)
    requires forall j :: 0 <= j < |ds| ==> !Covers(ds[j], unit, t, a)
    ensures Deposits(m, ds)(unit, t, a) == m(unit, t, a)
  {
    if ds != [] { UncoveredUnchanged(m, ds[..|ds| - 1], unit, t, a); }
  }

  /** Where a successful entry lands: at the signal its reference resolves to, which is writable, on the
      allow-list, and not a single bit of a register. */
  lemma LandingMeans(c: Setup, w: Ref, accept: bool)
    ensures Landing(c, w, accept).Some? <==> Succeeds(c, w, accept)
    ensures Landing(c, w, accept).Some? ==>
      var d, r := Landing(c, w, accept).value, Resolve(c, w);
      && accept && r.Ok? && r.value.0 == Judge(c, w).signal && r.value.1 == d.unit && w.value == Some(Judge(c, w).v)
      && d.table == r.value.0.table && d.address == r.value.0.address && Writable(d.table)
      && SignalId(r.value.0, d.unit) in c.allow
      && Encode(c.platform, w.value.value, r.value.0).Ok?
      && d.cells == Cells(Encode(c.platform, w.value.value, r.value.0).value)
  {
  }

  /** Whatever a batch changes lies in the span of an entry that the device accepted and that resolves to
      a writable signal on the allow-list. */
  lemma OnlyAllowedCellsChange(c: Setup, m: Memory, writes: seq<Ref>, accepts: seq<bool>, unit: int, t: Table, a: int)
      returns (i: nat)
    requires |accepts| == |writes| && Applied(c, m, writes, accepts)(unit, t, a) != m(unit, t, a)
    ensures i < |writes| && accepts[i] && Covers(Landing(c, writes[i], accepts[i]), unit, t, a)
    ensures Writable(t) && Resolve(c, writes[i]).Ok? && SignalId(Resolve(c, writes[i]).value.0, unit) in c.allow
  {
    var ds := Landings(c, writes, accepts);
    if forall j :: 0 <= j < |ds| ==> !Covers(ds[j], unit, t, a) {
      UncoveredUnchanged(m, ds, unit, t, a);
    }
    i :| 0 <= i < |ds| && Covers(ds[i], unit, t, a);
    LandingMeans(c, writes[i], accepts[i]);
  }

  // ---- reading back ----

  /** Two spans share a cell. */
  predicate Overlap(d: Option<Span>, e: Option<Span>) {
    && d.Some? && e.Some? && d.value.unit == e.value.unit && d.value.table == e.value.table
    && d.value.address < e.value.address + |e.value.cells| && e.value.address < d.value.address + |d.value.cells|
  }

  /** Entry i succeeds and no later successful entry overlaps it. */
  ghost predicate Survives(ds: seq<Option<Span>>, i: nat) {
    i < |ds| && ds[i].Some? && forall j :: i < j < |ds| ==> !Overlap(ds[i], ds[j])
  }

  lemma WrittenCellStays(m: Memory, ds: seq<Option<Span>>, i: nat, k: nat)
    requires Survives(ds, i) && k < |ds[i].value.cells|
    ensures var d := ds[i].value; Deposits(m, ds)(d.unit, d.table, d.address + k) == d.cells[k]
  {
    var d := ds[i].value;
    forall j | i < j < |ds| ensures !Covers(ds[j], d.unit, d.table, d.address + k) {
      assert !Overlap(ds[i], ds[j]);
    }
    LastWriterWins(m, ds, i, d.unit, d.table, d.address + k);
  }

  /** The units an entry wrote are still on the device after the whole batch. */
  lemma WrittenUnitsStay(m: Memory, ds: seq<Option<Span>>, i: nat)
    requires Survives(ds, i)
    ensures var d := ds[i].value; ReadImage(UnitImage(Deposits(m, ds), d.unit), d.table, d.address, |d.cells|) == d.cells
  {
    var d := ds[i].value;
    var data := ReadImage(UnitImage(Deposits(m, ds), d.unit), d.table, d.address, |d.cells|);
    forall k | 0 <= k < |d.cells| ensures data[k] == d.cells[k] { WrittenCellStays(m, ds, i, k); }
    SameElements(data, d.cells);
  }

  lemma SameElements<T>(xs: seq<T>, ys: seq<T>)
    requires |xs| == |ys| && forall i :: 0 <= i < |xs| ==> xs[i] == ys[i]
    ensures xs == ys
  {
  }

  /** A batch, then sb/read of one of its references: the read decodes exactly what the entry encoded. */
  lemma ReadsWhatWasSent(c: Setup, m: Memory, writes: seq<Ref>, accepts: seq<bool>, i: nat)
    requires |accepts| == |writes| && Survives(Landings(c, writes, accepts), i)
    requires UnitLength(Judge(c, writes[i]).signal) == |Landing(c, writes[i], accepts[i]).value.cells| > 0
    ensures Encode(c.platform, Judge(c, writes[i]).v, Judge(c, writes[i]).signal).Ok?
    ensures ReadRef(c, Applied(c, m, writes, accepts), writes[i])
      == Decode(c.platform, Cells(Encode(c.platform, Judge(c, writes[i]).v, Judge(c, writes[i]).signal).value), Judge(c, writes[i]).signal)
  {
    LandingMeans(c, writes[i], accepts[i]);
    WrittenUnitsStay(m, Landings(c, writes, accepts), i);
  }

  /** Integers: the raw value that was sent, scaled; without scaling, the written value itself. */
  lemma IntegerReadsBack(c: Setup, m: Memory, writes: seq<Ref>, accepts: seq<bool>, i: nat)
    requires |accepts| == |writes| && Survives(Landings(c, writes, accepts), i)
    requires Judge(c, writes[i]).signal.table == Holding && IntType(Judge(c, writes[i]).signal.typ)
    ensures RawInt(Judge(c, writes[i]).v, Judge(c, writes[i]).signal).Ok?
    ensures var j, back := Judge(c, writes[i]), ReadRef(c, Applied(c, m, writes, accepts), writes[i]);
      && back == Ok(ApplyScale(IntV(RawInt(j.v, j.signal).value), j.signal))
      && (Unscaled(j.signal) && j.v.IntV? ==> back == Ok(j.v))
  {
    var j := Judge(c, writes[i]);
    LandingMeans(c, writes[i], accepts[i]);
    IntegerReadback(c.platform, j.v, j.signal);
    ReadsWhatWasSent(c, m, writes, accepts, i);
  }

  /** Coils: the truth of the written value. */
  lemma CoilReadsBack(c: Setup, m: Memory, writes: seq<Ref>, accepts: seq<bool>, i: nat)
    requires |accepts| == |writes| && Survives(Landings(c, writes, accepts), i)
    requires Judge(c, writes[i]).signal.table == Coil
    ensures var j, back := Judge(c, writes[i]), ReadRef(c, Applied(c, m, writes, accepts), writes[i]);
      back == Ok(BoolV(Truthy(j.v))) && (j.v.BoolV? ==> back == Ok(j.v))
  {
    LandingMeans(c, writes[i], accepts[i]);
    ReadsWhatWasSent(c, m, writes, accepts, i);
  }

  /** Text that fits and does not end in NUL. */
  lemma TextReadsBack(c: Setup, m: Memory, writes: seq<Ref>, accepts: seq<bool>, i: nat)
    requires |accepts| == |writes| && Survives(Landings(c, writes, accepts), i)
    requires var j := Judge(c, writes[i]);
      && j.signal.table == Holding && j.signal.typ == String && j.signal.count.Some? && j.signal.count.value > 0
      && j.v.TextV? && ValidUtf8(j.v.utf8) && |j.v.utf8| <= 2 * j.signal.count.value
      && (j.v.utf8 != [] ==> j.v.utf8[|j.v.utf8| - 1] != 0)
    ensures ReadRef(c, Applied(c, m, writes, accepts), writes[i]) == Ok(Judge(c, writes[i]).v)
  {
    var j := Judge(c, writes[i]);
    LandingMeans(c, writes[i], accepts[i]);
    TextRoundTrip(c.platform, j.v.utf8, j.signal);
    ReadsWhatWasSent(c, m, writes, accepts, i);
  }

  /** The poller's slice of a coalesced block decodes to exactly what sb/read of that signal alone answers. */
  lemma PollSeesWhatReadSees(p: Platform, m: Memory, unit: int, signals: seq<SignalSpec>, maxGap: int, b: Planner.Block, s: SignalSpec)
    requires b in Planner.Coalesced(signals, maxGap) && s in b.signals && UnitLength(s) >= 1
    ensures b.Length() >= 0
    ensures var data := ReadImage(UnitImage(m, unit), b.table, b.start, b.Length());
      Poller.AdapterHost(p).decode(Poller.SliceFor(b, s, data), s) == ReadOne(p, m, s, unit)
  {
    Poller.SliceIsSingleRead(signals, maxGap, b, s, UnitImage(m, unit));
  }

  // ---- references and answers in their own terms ----

  ghost predicate KnownName(c: Setup, w: Ref) {
    w.raw.name.Some? && w.raw.name.value != "" && w.raw.name.value in c.known
  }

  /** What a reference means. A configured name means its signal and the unit of its group, whatever else is given.
      Otherwise table and address are the signal's own, with the other keys of the entry; the unit is the one given, or
      the default unit; a name not given is made of table and address. */
  ghost predicate Means(c: Setup, w: Ref, s: SignalSpec, unit: int) {
    if KnownName(c, w) then c.known[w.raw.name.value] == (s, unit)
    else
      && w.raw.table == Some(TableName(s.table)) && w.raw.address == Some(s.address)
      && s.name == (if w.raw.name.Some? then w.raw.name.value else TableName(s.table) + ":" + Numeral(s.address))
      && FromDict(w.raw.(name := Some(s.name))) == Ok(s)
      && unit == match w.unitId { case Some(u) => u case None => c.defaultUnit }
  }

  /** A reference resolves to exactly what it means, and to nothing if it means nothing. */
  lemma ResolvesExactly(c: Setup, w: Ref, s: SignalSpec, unit: int)
    ensures Resolve(c, w) == Ok((s, unit)) <==> Means(c, w, s, unit)
  {
    if !KnownName(c, w) && w.raw.table.Some? && w.raw.address.Some? {
      var name := if w.raw.name.Some? then w.raw.name.value else w.raw.table.value + ":" + Numeral(w.raw.address.value);
      var o := w.raw.(name := Some(name));
      if FromDict(o).Ok? { KeysGiveFields(o); }
    }
  }

  ghost predicate Meaningless(c: Setup, w: Ref) { forall s, unit :: !Means(c, w, s, unit) }

  lemma MeaninglessFails(c: Setup, w: Ref)
    ensures Resolve(c, w).Err? <==> Meaningless(c, w)
  {
    if Resolve(c, w).Err? {
      forall s, unit ensures !Means(c, w, s, unit) { ResolvesExactly(c, w, s, unit); }
    } else {
      ResolvesExactly(c, w, Resolve(c, w).value.0, Resolve(c, w).value.1);
    }
  }

  /** A given unit is used; the default unit stands in only for one not given. */
  lemma UnitOfReference(c: Setup, w: Ref, s: SignalSpec, unit: int)
    requires Means(c, w, s, unit) && !KnownName(c, w)
    ensures w.unitId.Some? ==> unit == w.unitId.value
    ensures w.unitId.None? ==> unit == c.defaultUnit
  {
  }

  /** What keeps a meaningful entry from the device, in the order of the checks. */
  ghost function Obstacle(c: Setup, w: Ref, s: SignalSpec, unit: int): Option<Reason> {
    if SignalId(s, unit) !in c.allow then Some(NotAllowed)
    else if w.value == None then Some(NoValue)
    else if s.table == Discrete || s.table == Input then Some(ReadOnly)
    else if s.typ == Bool && s.bit != None then Some(BitWrite)
    else if Encode(c.platform, w.value.value, s).Err? then Some(NotEncodable(Encode(c.platform, w.value.value, s).error))
    else None
  }

  /** What the device receives for it: one bit, or the registers. */
  ghost function Sent(c: Setup, v: Value, s: SignalSpec): seq<int>
    requires Encode(c.platform, v, s).Ok?
  {
    match Encode(c.platform, v, s).value
    case CoilWire(on) => [if on then 1 else 0]
    case RegisterWire(regs) => regs
  }

  lemma JudgesAs(c: Setup, w: Ref, s: SignalSpec, unit: int)
    requires Means(c, w, s, unit)
    ensures var j, why := Judge(c, w), Obstacle(c, w, s, unit);
      if why == None || why.value.NotEncodable? then w.value.Some? && j == Attempt(s, unit, w.value.value)
      else j == Rejected(Some(s.name), why.value)
  {
    ResolvesExactly(c, w, s, unit);
  }

  /** An entry writes the unit, table and address it means, exactly when nothing stands in its way and the device
      accepts it. */
  lemma LandsAt(c: Setup, w: Ref, accept: bool, s: SignalSpec, unit: int)
    requires Means(c, w, s, unit)
    ensures Landing(c, w, accept) ==
      if accept && Obstacle(c, w, s, unit) == None
      then Some(Span(unit, s.table, s.address, Sent(c, w.value.value, s)))
      else None
  {
    JudgesAs(c, w, s, unit);
  }

  /** And the reply says so. */
  lemma ReportsOf(c: Setup, w: Ref, accept: bool, s: SignalSpec, unit: int)
    requires Means(c, w, s, unit)
    ensures var r, why := ReportOf(c, w, accept), Obstacle(c, w, s, unit);
      && r.name == Some(s.name) && (r.ok <==> accept && why == None)
      && r.error == (if why.Some? then why else if accept then None else Some(DeviceRefused))
      && r.value == if why == None || why.value.NotEncodable? then w.value else None
  {
    JudgesAs(c, w, s, unit);
  }

  /** An entry that means nothing is reported under the name it gave and does nothing. */
  lemma MeaninglessReported(c: Setup, w: Ref, accept: bool, m: Memory)
    requires Meaningless(c, w)
    ensures ReportOf(c, w, accept) == Report(w.raw.name, None, false, Some(NotResolved))
    ensures Landing(c, w, accept) == None && AuditOf(c, w, accept) == [] && Reading(c, m, w, accept) == []
  {
    MeaninglessFails(c, w);
  }

  /** sb/read decodes the units at the unit, table and address the reference means. */
  lemma ReadsAt(c: Setup, m: Memory, w: Ref, answer: bool, s: SignalSpec, unit: int, data: seq<int>)
    requires Means(c, w, s, unit) && |data| == UnitLength(s)
    requires forall i :: 0 <= i < |data| ==> data[i] == m(unit, s.table, s.address + i)
    ensures var v := Decode(c.platform, data, s);
      Reading(c, m, w, answer) == [if answer && data != [] && v.Ok? then Some(v.value) else None]
    ensures data != [] ==> ReadRef(c, m, w) == Decode(c.platform, data, s)
  {
    ResolvesExactly(c, w, s, unit);
    ReadOneAt(c.platform, m, s, unit, data);
  }

  lemma ReadOneAt(p: Platform, m: Memory, s: SignalSpec, unit: int, data: seq<int>)
    requires |data| == UnitLength(s) && forall i :: 0 <= i < |data| ==> data[i] == m(unit, s.table, s.address + i)
    ensures data == [] ==> ReadOne(p, m, s, unit).Err?
    ensures data != [] ==> ReadOne(p, m, s, unit) == Decode(p, data, s)
  {
    SameElements(ReadImage(UnitImage(m, unit), s.table, s.address, |data|), data);
  }

  /** One report for each entry, in order. */
  lemma {:induction false} ReportsInOrder(c: Setup, writes: seq<Ref>, accepts: seq<bool>, i: nat)
    requires |accepts| == |writes| && i < |writes|
    ensures i < |Reports(c, writes, accepts)| && Reports(c, writes, accepts)[i] == ReportOf(c, writes[i], accepts[i])
  {
    var n := |writes| - 1;
    ReportsLast(c, writes, accepts);
    ReportCount(c, writes[..n], accepts[..n]);
    if i < n {
      ReportsInOrder(c, writes[..n], accepts[..n], i);
    } else {
      AtPlace(Reports(c, writes, accepts), Reports(c, writes[..n], accepts[..n]), ReportOf(c, writes[n], accepts[n]));
    }
  }

  lemma ReportsLast(c: Setup, writes: seq<Ref>, accepts: seq<bool>)
    requires |accepts| == |writes| && writes != []
    ensures var n := |writes| - 1;
      Reports(c, writes, accepts) == Reports(c, writes[..n], accepts[..n]) + [ReportOf(c, writes[n], accepts[n])]
  {
  }

  lemma {:induction false} ReportCount(c: Setup, writes: seq<Ref>, accepts: seq<bool>)
    requires |accepts| == |writes|
    ensures |Reports(c, writes, accepts)| == |writes|
  {
    if writes != [] { ReportCount(c, writes[..|writes| - 1], accepts[..|writes| - 1]); }
  }

  /** The entry was tried: everything but the encoding and the device stood in its favour. */
  ghost predicate Tried(c: Setup, w: Ref, s: SignalSpec, unit: int) {
    && Means(c, w, s, unit)
    && (Obstacle(c, w, s, unit) == None || Obstacle(c, w, s, unit).value.NotEncodable?)
  }

  ghost predicate Tries(c: Setup, w: Ref) { exists s, unit :: Tried(c, w, s, unit) }

  lemma TriesExactly(c: Setup, w: Ref)
    ensures Judge(c, w).Attempt? <==> Tries(c, w)
  {
    if Resolve(c, w).Ok? {
      var (s, unit) := Resolve(c, w).value;
      ResolvesExactly(c, w, s, unit);
      JudgesAs(c, w, s, unit);
      assert Judge(c, w).Attempt? <==> Tried(c, w, s, unit);
    }
    forall s, unit | Tried(c, w, s, unit) ensures Judge(c, w).Attempt? { JudgesAs(c, w, s, unit); }
  }

  /** The audit record tells what the reply tells. */
  ghost predicate AuditIs(a: Audit, r: Report) {
    r.ok == a.ok && r.name == Some(a.name) && r.value == Some(a.value) && r.error == a.error
  }

  lemma AuditsOneEntry(c: Setup, w: Ref, accept: bool)
    ensures Tries(c, w) ==> |AuditOf(c, w, accept)| == 1 && AuditIs(AuditOf(c, w, accept)[0], ReportOf(c, w, accept))
    ensures !Tries(c, w) ==> AuditOf(c, w, accept) == []
  {
    TriesExactly(c, w);
  }

  lemma AuditsLast(c: Setup, writes: seq<Ref>, accepts: seq<bool>)
    requires |accepts| == |writes| && writes != []
    ensures var n := |writes| - 1;
      Audits(c, writes, accepts) == Audits(c, writes[..n], accepts[..n]) + AuditOf(c, writes[n], accepts[n])
  {
  }

  /** As many audit records as entries tried. */
  lemma {:induction false} AuditCount(c: Setup, writes: seq<Ref>, accepts: seq<bool>)
    requires |accepts| == |writes|
    ensures |Audits(c, writes, accepts)| == CountAll(c, writes, accepts).attempted
  {
    if writes != [] { AuditCount(c, writes[..|writes| - 1], accepts[..|writes| - 1]); }
  }

  lemma {:induction false} AuditsPrefix(c: Setup, writes: seq<Ref>, accepts: seq<bool>, i: nat)
    requires |accepts| == |writes| && i <= |writes|
    ensures Audits(c, writes[..i], accepts[..i]) <= Audits(c, writes, accepts)
  {
    var n := |writes| - 1;
    if i <= n {
      AuditsPrefix(c, writes[..n], accepts[..n], i);
      assert writes[..n][..i] == writes[..i] && accepts[..n][..i] == accepts[..i];
      AuditsLast(c, writes, accepts);
    } else {
      assert writes[..i] == writes && accepts[..i] == accepts;
    }
  }

  lemma AuditedNext(c: Setup, writes: seq<Ref>, accepts: seq<bool>, i: nat)
    requires |accepts| == |writes| && i < |writes|
    ensures Audits(c, writes[..i], accepts[..i]) + AuditOf(c, writes[i], accepts[i]) <= Audits(c, writes, accepts)
  {
    AuditsPrefix(c, writes, accepts, i + 1);
    Snoc(writes, i);
    Snoc(accepts, i);
    AuditsLast(c, writes[..i + 1], accepts[..i + 1]);
  }

  lemma AtPlace<T>(all: seq<T>, front: seq<T>, x: T)
    requires front + [x] <= all
    ensures |front| < |all| && all[|front|] == x
  {
    assert (front + [x])[|front|] == x;
  }

  /** Every entry tried is audited, failed or not, behind the entries tried before it. */
  lemma EveryAttemptAudited(c: Setup, writes: seq<Ref>, accepts: seq<bool>, i: nat)
    requires |accepts| == |writes| && i < |writes| && Tries(c, writes[i])
    ensures var place := CountAll(c, writes[..i], accepts[..i]).attempted;
      place < |Audits(c, writes, accepts)| && AuditIs(Audits(c, writes, accepts)[place], ReportOf(c, writes[i], accepts[i]))
  {
    AuditedNext(c, writes, accepts, i);
    AuditCount(c, writes[..i], accepts[..i]);
    AuditsOneEntry(c, writes[i], accepts[i]);
    var record := AuditOf(c, writes[i], accepts[i]);
    assert record == [record[0]];
    AtPlace(Audits(c, writes, accepts), Audits(c, writes[..i], accepts[..i]), record[0]);
  }

  // ---- the counts of a batch ----

  ghost function Marked(n: nat, mark: nat -> bool): (marks: set<nat>) { set i: nat | i < n && mark(i) }

  lemma MarkedNext(n: nat, mark: nat -> bool)
    ensures |Marked(n + 1, mark)| == |Marked(n, mark)| + if mark(n) then 1 else 0
  {
    assert Marked(n + 1, mark) == if mark(n) then Marked(n, mark) + {n} else Marked(n, mark);
  }

  /** `written` is the number of entries that reached the device and were accepted; the write errors are those that
      reached it and were not; the audit records are those tried. */
  lemma {:induction false} WrittenCounts(
      c: Setup, writes: seq<Ref>, accepts: seq<bool>, landed: nat -> bool, bounced: nat -> bool, tried: nat -> bool)
    requires |accepts| == |writes|
    requires forall i :: 0 <= i < |writes| ==> landed(i) == Landing(c, writes[i], accepts[i]).Some?
    requires forall i :: 0 <= i < |writes| ==> bounced(i) == (!accepts[i] && Landing(c, writes[i], true).Some?)
    requires forall i :: 0 <= i < |writes| ==> tried(i) == Tries(c, writes[i])
    ensures CountAll(c, writes, accepts).succeeded == |Marked(|writes|, landed)|
    ensures CountAll(c, writes, accepts).deviceErrors == |Marked(|writes|, bounced)|
    ensures CountAll(c, writes, accepts).attempted == |Marked(|writes|, tried)|
  {
    if writes == [] {
      assert Marked(0, landed) == {} && Marked(0, bounced) == {} && Marked(0, tried) == {};
    } else {
      var n := |writes| - 1;
      WrittenCounts(c, writes[..n], accepts[..n], landed, bounced, tried);
      MarkedNext(n, landed);
      MarkedNext(n, bounced);
      MarkedNext(n, tried);
      TriesExactly(c, writes[n]);
    }
  }

  /** The read errors of an sb/read are its readings without a value. */
  lemma {:induction false} MissingCounts(values: seq<Option<Value>>, missing: nat -> bool)
    requires forall i :: 0 <= i < |values| ==> missing(i) == values[i].None?
    ensures Missing(values) == |Marked(|values|, missing)|
  {
    if values == [] {
      assert Marked(0, missing) == {};
    } else {
      MissingCounts(values[..|values| - 1], missing);
      MarkedNext(|values| - 1, missing);
    }
  }

  /** The readings come in the order of the references. */
  lemma {:induction false} ReadingsInOrder(
      c: Setup, m: Memory, entries: seq<Ref>, answers: seq<bool>, more: seq<Ref>, others: seq<bool>)
    requires |answers| == |entries| && |others| == |more|
    ensures Readings(c, m, entries + more, answers + others) == Readings(c, m, entries, answers) + Readings(c, m, more, others)
  {
    if more == [] {
      assert entries + more == entries && answers + others == answers;
    } else {
      var n := |more| - 1;
      ReadingsInOrder(c, m, entries, answers, more[..n], others[..n]);
      ReadingsAppend(c, m, entries + more[..n], answers + others[..n], more[n], others[n]);
      Poller.ConcatLast(entries, more);
      Poller.ConcatLast(answers, others);
      Associate(Readings(c, m, entries, answers), Readings(c, m, more[..n], others[..n]), Reading(c, m, more[n], others[n]));
    }
  }

  lemma ReadingsAppend(c: Setup, m: Memory, entries: seq<Ref>, answers: seq<bool>, w: Ref, answer: bool)
    requires |answers| == |entries|
    ensures Readings(c, m, entries + [w], answers + [answer]) == Readings(c, m, entries, answers) + Reading(c, m, w, answer)
  {
    assert (entries + [w])[..|entries|] == entries && (answers + [answer])[..|answers|] == answers;
  }
}

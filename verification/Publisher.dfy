/** Buffering and publishing of samples: modbus_adapter/publisher.py. */
module Publisher {
  import opened Values

  /** Signals are buffered by (unit, name). */
  type Key = (nat, string)

  /** A sample of a failed read carries no value. */
  datatype Sample = Sample(value: Option<Value>)

  /** The buffered samples of one signal. */
  datatype Entry = Entry(key: Key, samples: seq<Sample>)

  /** A message handed to the data facade. */
  datatype Message = Message(key: Key, samples: seq<Sample>)

  /** Which of the two facade calls of one publication raise. */
  datatype Fault = Fault(valued: bool, valueless: bool)

  /** An entry of a cache keyed by unit and signal name. */
  function Lookup(m: map<Key, Value>, k: Key): Option<Value> { if k in m then Some(m[k]) else None }

  function OfKind(samples: seq<Sample>, valued: bool): seq<Sample> {
    if samples == [] then []
    else
      var x := samples[|samples| - 1];
      if x.value.Some? == valued then OfKind(samples[..|samples| - 1], valued) + [x]
      else OfKind(samples[..|samples| - 1], valued)
  }

  predicate HasKey(pending: seq<Entry>, k: Key) { exists i :: 0 <= i < |pending| && pending[i].key == k }

  function AppendTo(pending: seq<Entry>, k: Key, x: Sample): seq<Entry> {
    if pending == [] then []
    else
      var e := pending[|pending| - 1];
      AppendTo(pending[..|pending| - 1], k, x) + [if e.key == k then e.(samples := e.samples + [x]) else e]
  }

  /** The buffer after one offer: a dictionary in insertion order. */
  function AddSample(pending: seq<Entry>, k: Key, x: Sample): seq<Entry> {
    if HasKey(pending, k) then AppendTo(pending, k, x) else pending + [Entry(k, [x])]
  }

  predicate DistinctKeys(pending: seq<Entry>) {
    forall i, j :: 0 <= i < j < |pending| ==> pending[i].key != pending[j].key
  }

  // ---- one publication ----

  /** The messages that go out: the valued samples first, then the valueless ones, until a call raises. */
  function Sent(e: Entry, f: Fault): seq<Message> {
    var v, w := OfKind(e.samples, true), OfKind(e.samples, false);
    if v != [] && f.valued then []
    else if w == [] || f.valueless then if v == [] then [] else [Message(e.key, v)]
    else if v == [] then [Message(e.key, w)]
    else [Message(e.key, v), Message(e.key, w)]
  }

  /** The samples lost to a call that raised. */
  function Lost(e: Entry, f: Fault): seq<Sample> {
    var v, w := OfKind(e.samples, true), OfKind(e.samples, false);
    if v != [] && f.valued then v + w else if w != [] && f.valueless then w else []
  }

  /** One message, or none if there is nothing to say. */
  function Packet(k: Key, samples: seq<Sample>): seq<Message> {
    if samples == [] then [] else [Message(k, samples)]
  }

  function SampleCount(log: seq<Message>): nat {
    if log == [] then 0 else SampleCount(log[..|log| - 1]) + |log[|log| - 1].samples|
  }

  function SentAll(entries: seq<Entry>, faults: seq<Fault>): seq<Message>
    requires |faults| == |entries|
  {
    if entries == [] then []
    else
      var n := |entries| - 1;
      SentAll(entries[..n], faults[..n]) + Sent(entries[n], faults[n])
  }

  function FailureCount(entries: seq<Entry>, faults: seq<Fault>): nat
    requires |faults| == |entries|
  {
    if entries == [] then 0
    else
      var n := |entries| - 1;
      FailureCount(entries[..n], faults[..n]) + if Lost(entries[n], faults[n]) != [] then 1 else 0
  }

  /** The publisher, with the data facade as a log and the operational counters it records. */
  class SignalUpdatePublisher {
    const batched: bool
    var pending: seq<Entry>
    var log: seq<Message>
    var failures: nat
    var messagesPublished: nat
    var samplesPublished: nat
    var batchFlushes: nat

    constructor (batched: bool)
      ensures this.batched == batched && pending == [] && log == []
      ensures failures == 0 && messagesPublished == 0 && samplesPublished == 0 && batchFlushes == 0
      ensures Valid()
    {
      this.batched := batched;
      pending, log := [], [];
      failures, messagesPublished, samplesPublished, batchFlushes := 0, 0, 0, 0;
    }

    /** The counters total exactly what the facade accepted; keys are buffered once, and never empty. */
    ghost predicate Valid()
      reads this
    {
      && samplesPublished == SampleCount(log) && messagesPublished == |log|
      && DistinctKeys(pending)
      && (forall e :: e in pending ==> e.samples != [])
      && (!batched ==> pending == [])
    }

    method Publish(e: Entry, f: Fault)
      requires Valid()
      modifies this`log, this`failures, this`messagesPublished, this`samplesPublished
      ensures Valid()
      ensures log == old(log) + Sent(e, f)
      ensures failures == old(failures) + if Lost(e, f) != [] then 1 else 0
    {
      var valued, valueless := OfKind(e.samples, true), OfKind(e.samples, false);
      var messages, samples, raised := 0, 0, false;
      ghost var before := log;
      if valued != [] {
        if f.valued {
          raised := true;
        } else {
          LogAppend(log, Message(e.key, valued));
          log := log + [Message(e.key, valued)];
          messages, samples := messages + 1, samples + |valued|;
        }
      }
      if !raised && valueless != [] {
        if f.valueless {
          raised := true;
        } else {
          LogAppend(log, Message(e.key, valueless));
          log := log + [Message(e.key, valueless)];
          messages, samples := messages + 1, samples + |valueless|;
        }
      }
      if raised {
        failures := failures + 1;
      }
      if messages > 0 {
        messagesPublished := messagesPublished + messages;
        samplesPublished := samplesPublished + samples;
      }
      assert log == before + Sent(e, f);
    }

    method Offer(k: Key, x: Sample, f: Fault)
      requires Valid()
      modifies this
      ensures Valid() && batchFlushes == old(batchFlushes)
      ensures batched ==> pending == AddSample(old(pending), k, x) && log == old(log) && failures == old(failures)
      ensures !batched ==> pending == old(pending) && log == old(log) + Sent(Entry(k, [x]), f)
      ensures !batched ==> failures == old(failures) + (if Lost(Entry(k, [x]), f) != [] then 1 else 0)
    {
      if batched {
        AddSampleKeys(pending, k, x);
        if HasKey(pending, k) {
          pending := AppendTo(pending, k, x);
        } else {
          pending := pending + [Entry(k, [x])];
        }
      } else {
        Publish(Entry(k, [x]), f);
      }
    }

    method Flush(faults: seq<Fault>)
      requires Valid() && |faults| == |pending|
      modifies this
      ensures Valid() && pending == []
      ensures log == old(log) + SentAll(old(pending), faults)
      ensures failures == old(failures) + FailureCount(old(pending), faults)
      ensures batchFlushes == old(batchFlushes) + |old(pending)|
    {
      var swapped := pending;
      assert forall e :: e in swapped ==> e.samples != [];
      pending := [];
      for i := 0 to |swapped|
        invariant Valid() && pending == []
        invariant log == old(log) + SentAll(swapped[..i], faults[..i])
        invariant failures == old(failures) + FailureCount(swapped[..i], faults[..i])
        invariant batchFlushes == old(batchFlushes) + i
      {
        SentAllStep(swapped, faults, i);
        Associate(old(log), SentAll(swapped[..i], faults[..i]), Sent(swapped[i], faults[i]));
        assert swapped[i] in swapped;
        if swapped[i].samples != [] {
          batchFlushes := batchFlushes + 1;
          Publish(swapped[i], faults[i]);
        }
      }
      assert swapped[..|swapped|] == swapped && faults[..|faults|] == faults;
    }
  }

  lemma SentAllAppend(entries: seq<Entry>, faults: seq<Fault>, e: Entry, f: Fault)
    requires |faults| == |entries|
    ensures SentAll(entries + [e], faults + [f]) == SentAll(entries, faults) + Sent(e, f)
    ensures FailureCount(entries + [e], faults + [f]) == FailureCount(entries, faults) + (if Lost(e, f) != [] then 1 else 0)
  {
    assert (entries + [e])[..|entries|] == entries && (faults + [f])[..|faults|] == faults;
  }

  lemma SentAllStep(entries: seq<Entry>, faults: seq<Fault>, i: nat)
    requires |faults| == |entries| && i < |entries|
    ensures SentAll(entries[..i + 1], faults[..i + 1]) == SentAll(entries[..i], faults[..i]) + Sent(entries[i], faults[i])
    ensures FailureCount(entries[..i + 1], faults[..i + 1])
      == FailureCount(entries[..i], faults[..i]) + (if Lost(entries[i], faults[i]) != [] then 1 else 0)
  {
    assert entries[..i + 1][..i] == entries[..i] && faults[..i + 1][..i] == faults[..i];
  }

  lemma LogAppend(log: seq<Message>, m: Message)
    ensures SampleCount(log + [m]) == SampleCount(log) + |m.samples|
  {
    assert (log + [m])[..|log|] == log;
  }

  lemma {:induction false} AppendToKeys(pending: seq<Entry>, k: Key, x: Sample)
    ensures |AppendTo(pending, k, x)| == |pending|
    ensures forall i :: 0 <= i < |pending| ==> AppendTo(pending, k, x)[i].key == pending[i].key
    ensures forall i :: 0 <= i < |pending| ==>
      AppendTo(pending, k, x)[i].samples == pending[i].samples + (if pending[i].key == k then [x] else [])
  {
    if pending != [] { AppendToKeys(pending[..|pending| - 1], k, x); }
  }

  lemma AddSampleKeys(pending: seq<Entry>, k: Key, x: Sample)
    requires DistinctKeys(pending) && forall e :: e in pending ==> e.samples != []
    ensures DistinctKeys(AddSample(pending, k, x)) && forall e :: e in AddSample(pending, k, x) ==> e.samples != []
  {
    AppendToKeys(pending, k, x);
  }

  // ---- samples of one key ----

  /** The samples of a key and kind in a list of entries, in order. */
  function Buffered(entries: seq<Entry>, k: Key, valued: bool): seq<Sample> {
    if entries == [] then []
    else
      var e := entries[|entries| - 1];
      if e.key == k then Buffered(entries[..|entries| - 1], k, valued) + OfKind(e.samples, valued)
      else Buffered(entries[..|entries| - 1], k, valued)
  }

  /** The samples of a key and kind in a message log, in order. */
  function Delivered(log: seq<Message>, k: Key, valued: bool): seq<Sample> {
    if log == [] then []
    else
      var m := log[|log| - 1];
      if m.key == k then Delivered(log[..|log| - 1], k, valued) + OfKind(m.samples, valued)
      else Delivered(log[..|log| - 1], k, valued)
  }

  /** The samples of a key and kind in a list of offers, in order. */
  function Offered(offers: seq<(Key, Sample)>, k: Key, valued: bool): seq<Sample> {
    if offers == [] then []
    else
      var o := offers[|offers| - 1];
      if o.0 == k && o.1.value.Some? == valued then Offered(offers[..|offers| - 1], k, valued) + [o.1]
      else Offered(offers[..|offers| - 1], k, valued)
  }

  lemma OfKindAppend(xs: seq<Sample>, x: Sample, valued: bool)
    ensures x.value.Some? == valued ==> OfKind(xs + [x], valued) == OfKind(xs, valued) + [x]
    ensures x.value.Some? != valued ==> OfKind(xs + [x], valued) == OfKind(xs, valued)
  {
    assert (xs + [x])[..|xs|] == xs;
  }

  lemma {:induction false} OfKindTwice(xs: seq<Sample>, valued: bool)
    ensures OfKind(OfKind(xs, valued), valued) == OfKind(xs, valued)
    ensures OfKind(OfKind(xs, valued), !valued) == []
  {
    if xs != [] {
      var init, x := xs[..|xs| - 1], xs[|xs| - 1];
      OfKindTwice(init, valued);
      OfKindAppend(OfKind(init, valued), x, valued);
      OfKindAppend(OfKind(init, valued), x, !valued);
    }
  }

  lemma BufferedAppend(entries: seq<Entry>, e: Entry, k: Key, valued: bool)
    ensures e.key == k ==> Buffered(entries + [e], k, valued) == Buffered(entries, k, valued) + OfKind(e.samples, valued)
    ensures e.key != k ==> Buffered(entries + [e], k, valued) == Buffered(entries, k, valued)
  {
    assert (entries + [e])[..|entries|] == entries;
  }

  lemma {:induction false} BufferedConcat(xs: seq<Entry>, ys: seq<Entry>, k: Key, valued: bool)
    ensures Buffered(xs + ys, k, valued) == Buffered(xs, k, valued) + Buffered(ys, k, valued)
  {
    if ys == [] {
      assert xs + ys == xs;
    } else {
      assert (xs + ys)[..|xs + ys| - 1] == xs + ys[..|ys| - 1];
      BufferedConcat(xs, ys[..|ys| - 1], k, valued);
    }
  }

  lemma DeliveredAppend(log: seq<Message>, m: Message, k: Key, valued: bool)
    ensures m.key == k ==> Delivered(log + [m], k, valued) == Delivered(log, k, valued) + OfKind(m.samples, valued)
    ensures m.key != k ==> Delivered(log + [m], k, valued) == Delivered(log, k, valued)
  {
    assert (log + [m])[..|log|] == log;
  }

  lemma OfferedAppend(offers: seq<(Key, Sample)>, k: Key, x: Sample, j: Key, valued: bool)
    ensures k == j && x.value.Some? == valued ==> Offered(offers + [(k, x)], j, valued) == Offered(offers, j, valued) + [x]
    ensures !(k == j && x.value.Some? == valued) ==> Offered(offers + [(k, x)], j, valued) == Offered(offers, j, valued)
  {
    assert (offers + [(k, x)])[..|offers|] == offers;
  }

  lemma {:induction false} NoKeyBuffersNothing(entries: seq<Entry>, k: Key, valued: bool)
    requires !HasKey(entries, k)
    ensures Buffered(entries, k, valued) == []
  {
    if entries != [] {
      var init := entries[..|entries| - 1];
      assert entries[|entries| - 1].key != k;
      forall i | 0 <= i < |init| ensures init[i].key != k { assert entries[i].key != k; }
      NoKeyBuffersNothing(init, k, valued);
    }
  }

  lemma {:induction false} AppendToBuffers(pending: seq<Entry>, k: Key, x: Sample, j: Key, valued: bool)
    requires DistinctKeys(pending)
    ensures HasKey(pending, k) && k == j && x.value.Some? == valued ==>
      Buffered(AppendTo(pending, k, x), j, valued) == Buffered(pending, j, valued) + [x]
    ensures !(HasKey(pending, k) && k == j && x.value.Some? == valued) ==>
      Buffered(AppendTo(pending, k, x), j, valued) == Buffered(pending, j, valued)
  {
    if pending != [] {
      var init, e := pending[..|pending| - 1], pending[|pending| - 1];
      AppendToBuffers(init, k, x, j, valued);
      SplitKey(init, e, k);
      Snoc(pending, |pending| - 1);
      if e.key == k {
        KeyOnlyLast(pending, k);
        GrownLast(AppendTo(init, k, x), init, e, x, j, valued);
      } else {
        BufferedAppend(AppendTo(init, k, x), e, j, valued);
      }
    }
  }

  lemma KeyOnlyLast(pending: seq<Entry>, k: Key)
    requires DistinctKeys(pending) && pending != [] && pending[|pending| - 1].key == k
    ensures !HasKey(pending[..|pending| - 1], k)
  {
  }

  lemma GrownLast(grown: seq<Entry>, init: seq<Entry>, e: Entry, x: Sample, j: Key, valued: bool)
    requires Buffered(grown, j, valued) == Buffered(init, j, valued)
    ensures e.key == j && x.value.Some? == valued ==>
      Buffered(grown + [e.(samples := e.samples + [x])], j, valued) == Buffered(init + [e], j, valued) + [x]
    ensures !(e.key == j && x.value.Some? == valued) ==>
      Buffered(grown + [e.(samples := e.samples + [x])], j, valued) == Buffered(init + [e], j, valued)
  {
    BufferedAppend(grown, e.(samples := e.samples + [x]), j, valued);
    BufferedAppend(init, e, j, valued);
    OfKindAppend(e.samples, x, valued);
  }

  lemma SplitKey(init: seq<Entry>, e: Entry, k: Key)
    ensures HasKey(init + [e], k) <==> HasKey(init, k) || e.key == k
  {
    assert (init + [e])[|init|] == e;
    if HasKey(init, k) {
      var i :| 0 <= i < |init| && init[i].key == k;
      assert (init + [e])[i].key == k;
    }
  }

  /** An offer adds its sample at the end of its own key and kind, and nothing anywhere else. */
  lemma AddSampleBuffers(pending: seq<Entry>, k: Key, x: Sample, j: Key, valued: bool)
    requires DistinctKeys(pending)
    ensures k == j && x.value.Some? == valued ==>
      Buffered(AddSample(pending, k, x), j, valued) == Buffered(pending, j, valued) + [x]
    ensures !(k == j && x.value.Some? == valued) ==>
      Buffered(AddSample(pending, k, x), j, valued) == Buffered(pending, j, valued)
  {
    if HasKey(pending, k) {
      AppendToBuffers(pending, k, x, j, valued);
    } else {
      BufferedAppend(pending, Entry(k, [x]), j, valued);
      OfKindAppend([], x, valued);
      assert [] + [x] == [x];
    }
  }

  lemma DeliveredPacket(log: seq<Message>, j: Key, xs: seq<Sample>, k: Key, valued: bool)
    ensures j == k ==> Delivered(log + Packet(j, xs), k, valued) == Delivered(log, k, valued) + OfKind(xs, valued)
    ensures j != k ==> Delivered(log + Packet(j, xs), k, valued) == Delivered(log, k, valued)
  {
    if xs == [] {
      assert log + [] == log;
    } else {
      DeliveredAppend(log, Message(j, xs), k, valued);
    }
  }

  lemma CleanSent(e: Entry)
    ensures Sent(e, Fault(false, false)) == Packet(e.key, OfKind(e.samples, true)) + Packet(e.key, OfKind(e.samples, false))
  {
  }

  /** A fault-free publication delivers every sample of the entry, each kind in order. */
  lemma CleanPublication(log: seq<Message>, e: Entry, k: Key, valued: bool)
    ensures e.key == k ==> Delivered(log + Sent(e, Fault(false, false)), k, valued) == Delivered(log, k, valued) + OfKind(e.samples, valued)
    ensures e.key != k ==> Delivered(log + Sent(e, Fault(false, false)), k, valued) == Delivered(log, k, valued)
  {
    var v, w := OfKind(e.samples, true), OfKind(e.samples, false);
    CleanSent(e);
    Associate(log, Packet(e.key, v), Packet(e.key, w));
    DeliveredPacket(log, e.key, v, k, valued);
    DeliveredPacket(log + Packet(e.key, v), e.key, w, k, valued);
    OfKindTwice(e.samples, true);
    OfKindTwice(e.samples, false);
    Units(Delivered(log, k, valued), if valued then v else w);
  }

  lemma Units(xs: seq<Sample>, ys: seq<Sample>)
    ensures xs + [] == xs && xs + ys + [] == xs + ys && xs + [] + ys == xs + ys
  {
  }

  /** A fault-free flush delivers the whole buffer, each key and kind in order. */
  lemma {:induction false} CleanFlush(log: seq<Message>, entries: seq<Entry>, faults: seq<Fault>, k: Key, valued: bool)
    requires |faults| == |entries|
    requires forall i :: 0 <= i < |faults| ==> faults[i] == Fault(false, false)
    ensures Delivered(log + SentAll(entries, faults), k, valued) == Delivered(log, k, valued) + Buffered(entries, k, valued)
  {
    if entries == [] {
      assert log + SentAll(entries, faults) == log;
    } else {
      var n := |entries| - 1;
      CleanFlush(log, entries[..n], faults[..n], k, valued);
      CleanFlushStep(log, SentAll(entries[..n], faults[..n]), entries[..n], entries[n], k, valued);
      assert SentAll(entries, faults) == SentAll(entries[..n], faults[..n]) + Sent(entries[n], faults[n]);
      Snoc(entries, n);
    }
  }

  lemma CleanFlushStep(log: seq<Message>, sent: seq<Message>, entries: seq<Entry>, e: Entry, k: Key, valued: bool)
    requires Delivered(log + sent, k, valued) == Delivered(log, k, valued) + Buffered(entries, k, valued)
    ensures Delivered(log + (sent + Sent(e, Fault(false, false))), k, valued)
      == Delivered(log, k, valued) + Buffered(entries + [e], k, valued)
  {
    Associate(log, sent, Sent(e, Fault(false, false)));
    CleanPublication(log + sent, e, k, valued);
    BufferedAppend(entries, e, k, valued);
    Associate(Delivered(log, k, valued), Buffered(entries, k, valued), OfKind(e.samples, valued));
  }

  // ---- conservation of one publication ----

  /** A weighting of samples. Conservation is stated for all of them: the weighting that is one on a
      single sample counts its copies, the constant one counts everything. */
  type Weight = (Key, Sample) -> nat

  function Weigh(k: Key, samples: seq<Sample>, w: Weight): nat {
    if samples == [] then 0 else Weigh(k, samples[..|samples| - 1], w) + w(k, samples[|samples| - 1])
  }

  function MessageWeight(log: seq<Message>, w: Weight): nat {
    if log == [] then 0 else MessageWeight(log[..|log| - 1], w) + Weigh(log[|log| - 1].key, log[|log| - 1].samples, w)
  }

  lemma WeighAppend(k: Key, xs: seq<Sample>, x: Sample, w: Weight)
    ensures Weigh(k, xs + [x], w) == Weigh(k, xs, w) + w(k, x)
  {
    assert (xs + [x])[..|xs|] == xs;
  }

  lemma {:induction false} WeighConcat(k: Key, xs: seq<Sample>, ys: seq<Sample>, w: Weight)
    ensures Weigh(k, xs + ys, w) == Weigh(k, xs, w) + Weigh(k, ys, w)
  {
    if ys == [] {
      assert xs + ys == xs;
    } else {
      var n := |ys| - 1;
      WeighConcat(k, xs, ys[..n], w);
      WeighAppend(k, xs + ys[..n], ys[n], w);
      Associate(xs, ys[..n], [ys[n]]);
      Snoc(ys, n);
    }
  }

  lemma {:induction false} WeighKinds(k: Key, samples: seq<Sample>, w: Weight)
    ensures Weigh(k, samples, w) == Weigh(k, OfKind(samples, true), w) + Weigh(k, OfKind(samples, false), w)
  {
    if samples != [] {
      var init, x := samples[..|samples| - 1], samples[|samples| - 1];
      WeighKinds(k, init, w);
      if x.value.Some? {
        WeighAppend(k, OfKind(init, true), x, w);
      } else {
        WeighAppend(k, OfKind(init, false), x, w);
      }
    }
  }

  lemma MessageAppend(log: seq<Message>, m: Message, w: Weight)
    ensures MessageWeight(log + [m], w) == MessageWeight(log, w) + Weigh(m.key, m.samples, w)
  {
    assert (log + [m])[..|log|] == log;
  }

  /** Whatever calls raise, each sample of the entry is either sent or lost, and never both. */
  lemma PublicationConserves(e: Entry, f: Fault, w: Weight)
    ensures Weigh(e.key, e.samples, w) == MessageWeight(Sent(e, f), w) + Weigh(e.key, Lost(e, f), w)
  {
    var v, u := OfKind(e.samples, true), OfKind(e.samples, false);
    WeighKinds(e.key, e.samples, w);
    WeighConcat(e.key, v, u, w);
    OneMessage(Message(e.key, v), w);
    OneMessage(Message(e.key, u), w);
    MessageAppend([Message(e.key, v)], Message(e.key, u), w);
    assert [Message(e.key, v), Message(e.key, u)] == [Message(e.key, v)] + [Message(e.key, u)];
  }

  lemma OneMessage(m: Message, w: Weight)
    ensures MessageWeight([m], w) == Weigh(m.key, m.samples, w)
  {
    MessageAppend([], m, w);
    assert [] + [m] == [m];
  }

  /** A publication with calls that raise: when the call with the valued samples raises nothing is delivered; otherwise
      all valued samples are, and the valueless ones unless their own call raises. */
  lemma FaultyPublication(log: seq<Message>, e: Entry, f: Fault, k: Key)
    requires e.key == k
    ensures f.valued && OfKind(e.samples, true) != [] ==> Sent(e, f) == []
    ensures !f.valued || OfKind(e.samples, true) == [] ==>
      && Delivered(log + Sent(e, f), k, true) == Delivered(log, k, true) + OfKind(e.samples, true)
      && Delivered(log + Sent(e, f), k, false)
        == Delivered(log, k, false) + if f.valueless then [] else OfKind(e.samples, false)
  {
    if !f.valued || OfKind(e.samples, true) == [] {
      var v, w := OfKind(e.samples, true), if f.valueless then [] else OfKind(e.samples, false);
      OfKindTwice(e.samples, true);
      OfKindTwice(e.samples, false);
      FaultySent(e, f);
      Associate(log, Packet(k, v), Packet(k, w));
      DeliveredPacket(log, k, v, k, true);
      DeliveredPacket(log, k, v, k, false);
      DeliveredPacket(log + Packet(k, v), k, w, k, true);
      DeliveredPacket(log + Packet(k, v), k, w, k, false);
      Units(Delivered(log, k, true), v);
      Units(Delivered(log, k, false), w);
    }
  }

  lemma FaultySent(e: Entry, f: Fault)
    requires !f.valued || OfKind(e.samples, true) == []
    ensures Sent(e, f)
      == Packet(e.key, OfKind(e.samples, true)) + Packet(e.key, if f.valueless then [] else OfKind(e.samples, false))
  {
  }

  /** The buffer keeps its keys in the order of their first samples. */
  lemma BufferOrder(pending: seq<Entry>, k: Key, x: Sample)
    ensures var after := AddSample(pending, k, x);
      && |after| == |pending| + (if HasKey(pending, k) then 0 else 1)
      && (forall i :: 0 <= i < |pending| ==> after[i].key == pending[i].key)
      && (!HasKey(pending, k) ==> after[|pending|] == Entry(k, [x]))
  {
    AppendToKeys(pending, k, x);
  }
}

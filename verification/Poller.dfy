/** One poll cycle: PollManager._poll_group in modbus_adapter/poll_manager.py. */
module Poller {
  import opened Values
  import opened Deadband
  import opened Signals
  import opened Codec
  import opened Device
  import opened Planner
  import opened Publisher

  /** What connection.read gave for a block: an exception, or data of whatever length arrived. */
  datatype Outcome = Failed | Answer(data: seq<int>)

  type Decoder = (seq<int>, SignalSpec) -> Result<Value>

  /** The runtime and the decoder a poller works with. Everything below holds for any decoder. */
  datatype Host = Host(platform: Platform, decode: Decoder)

  /** The adapter's own decoder is the codec. */
  function AdapterHost(p: Platform): Host { Host(p, (raw, s) => Decode(p, raw, s)) }

  datatype Group = Group(unit: nat, mode: PublishMode)

  /** A sample handed to the publisher, with its group and signal. */
  datatype Offer = Offer(group: Group, signal: SignalSpec, sample: Sample)

  datatype Stats = Stats(
    error: bool, requests: nat, requestErrors: nat, registersRead: int,
    decoded: nat, good: nat, bad: nat, changed: nat, suppressed: nat)

  const NO_STATS := Stats(false, 0, 0, 0, 0, 0, 0, 0, 0)

  /** The state a cycle works on: the cache, the per-table statistics, what was offered to the publisher,
      and the shared read counters. */
  datatype Cycle = Cycle(
    last: map<Key, Value>, stats: map<Table, Stats>, offers: seq<Offer>, goodReads: nat, badReads: nat)

  /** stats[table], a defaultdict. */
  function StatsOf(stats: map<Table, Stats>, t: Table): Stats { if t in stats then stats[t] else NO_STATS }

  function KeyOf(g: Group, s: SignalSpec): Key { (g.unit, s.name) }

  /** data[lo:hi] with Python's rules for bounds that are negative or past the end. */
  function Slice(data: seq<int>, lo: int, hi: int): seq<int> {
    var from, to := Bound(|data|, lo), Bound(|data|, hi);
    if from <= to then data[from..to] else []
  }

  function Bound(n: nat, i: int): (r: nat)
    ensures r <= n
  {
    if i < 0 then Max(0, i + n) else if i > n then n else i
  }

  function SliceFor(b: Block, s: SignalSpec, data: seq<int>): seq<int> {
    Slice(data, s.address - b.start, s.address - b.start + UnitLength(s))
  }

  function OfferBad(g: Group, c: Cycle, s: SignalSpec): Cycle {
    c.(offers := c.offers + [Offer(g, s, Sample(None))], badReads := c.badReads + 1)
  }

  function PollSignal(h: Host, g: Group, c: Cycle, b: Block, data: seq<int>, s: SignalSpec): Cycle {
    Settle(h, g, c, b.table, s, h.decode(SliceFor(b, s, data), s))
  }

  /** The statistics after one decoding. */
  function Tally(st: Stats, good: bool, published: bool): Stats {
    if !good then st.(error := true, bad := st.bad + 1)
    else if published then st.(decoded := st.decoded + 1, good := st.good + 1, changed := st.changed + 1)
    else st.(decoded := st.decoded + 1, good := st.good + 1, suppressed := st.suppressed + 1)
  }

  /** What becomes of one decoding. */
  function Settle(h: Host, g: Group, c: Cycle, t: Table, s: SignalSpec, r: Result<Value>): Cycle {
    if r.Err? then OfferBad(g, c.(stats := c.stats[t := Tally(StatsOf(c.stats, t), false, false)]), s)
    else if Publishes(h.platform, g.mode, s.deadband, Lookup(c.last, KeyOf(g, s)), r.value) then
      Cycle(c.last[KeyOf(g, s) := r.value], c.stats[t := Tally(StatsOf(c.stats, t), true, true)],
            c.offers + [Offer(g, s, Sample(Some(r.value)))], c.goodReads + 1, c.badReads)
    else
      c.(stats := c.stats[t := Tally(StatsOf(c.stats, t), true, false)], goodReads := c.goodReads + 1)
  }

  function PollSignals(h: Host, g: Group, c: Cycle, b: Block, data: seq<int>, signals: seq<SignalSpec>): Cycle {
    if signals == [] then c
    else PollSignal(h, g, PollSignals(h, g, c, b, data, signals[..|signals| - 1]), b, data, signals[|signals| - 1])
  }

  function OfferAllBad(g: Group, c: Cycle, signals: seq<SignalSpec>): Cycle {
    if signals == [] then c else OfferBad(g, OfferAllBad(g, c, signals[..|signals| - 1]), signals[|signals| - 1])
  }

  /** The statistics after the read of a block. */
  function TallyBlock(st: Stats, b: Block, o: Outcome): Stats {
    if o.Failed? then
      st.(error := true, requests := st.requests + 1, requestErrors := st.requestErrors + 1, bad := st.bad + |b.signals|)
    else st.(requests := st.requests + 1, registersRead := st.registersRead + b.Length())
  }

  function StartBlock(c: Cycle, b: Block, o: Outcome): Cycle {
    c.(stats := c.stats[b.table := TallyBlock(StatsOf(c.stats, b.table), b, o)])
  }

  function PollBlock(h: Host, g: Group, c: Cycle, b: Block, o: Outcome): Cycle {
    if o.Failed? then OfferAllBad(g, StartBlock(c, b, o), b.signals)
    else PollSignals(h, g, StartBlock(c, b, o), b, o.data, b.signals)
  }

  function PollBlocks(h: Host, g: Group, c: Cycle, blocks: seq<Block>, outcomes: seq<Outcome>): Cycle
    requires |outcomes| == |blocks|
  {
    if blocks == [] then c
    else
      var n := |blocks| - 1;
      PollBlock(h, g, PollBlocks(h, g, c, blocks[..n], outcomes[..n]), blocks[n], outcomes[n])
  }

  lemma PollAppend(h: Host, g: Group, c: Cycle, blocks: seq<Block>, b: Block, outcomes: seq<Outcome>, o: Outcome)
    requires |outcomes| == |blocks|
    ensures PollBlocks(h, g, c, blocks + [b], outcomes + [o]) == PollBlock(h, g, PollBlocks(h, g, c, blocks, outcomes), b, o)
  {
    assert (blocks + [b])[..|blocks|] == blocks && (outcomes + [o])[..|blocks|] == outcomes;
  }

  lemma SignalsAppend(h: Host, g: Group, c: Cycle, b: Block, data: seq<int>, signals: seq<SignalSpec>, s: SignalSpec)
    ensures PollSignals(h, g, c, b, data, signals + [s])
      == PollSignal(h, g, PollSignals(h, g, c, b, data, signals), b, data, s)
  {
    assert (signals + [s])[..|signals|] == signals;
  }

  /** The poller and the parts of its collaborators a cycle changes. */
  class PollManager {
    var last: map<Key, Value>
    var offers: seq<Offer>
    var goodReads: nat
    var badReads: nat

    constructor ()
      ensures last == map[] && offers == [] && goodReads == 0 && badReads == 0
    {
      last, offers, goodReads, badReads := map[], [], 0, 0;
    }

    ghost function State(stats: map<Table, Stats>): Cycle
      reads this
    {
      Cycle(last, stats, offers, goodReads, badReads)
    }

    method PollGroup(h: Host, g: Group, blocks: seq<Block>, outcomes: seq<Outcome>) returns (stats: map<Table, Stats>)
      requires |outcomes| == |blocks|
      modifies this
      ensures State(stats) == PollBlocks(h, g, old(State(map[])), blocks, outcomes)
    {
      stats := map[];
      ghost var start := State(map[]);
      for i := 0 to |blocks|
        invariant State(stats) == PollBlocks(h, g, start, blocks[..i], outcomes[..i])
      {
        assert blocks[..i + 1][..i] == blocks[..i] && outcomes[..i + 1][..i] == outcomes[..i];
        if outcomes[i].Failed? {
          stats := BlockFailed(g, blocks[i], stats);
        } else {
          stats := BlockAnswered(h, g, blocks[i], outcomes[i].data, stats);
        }
      }
      assert blocks[..|blocks|] == blocks && outcomes[..|outcomes|] == outcomes;
    }

    /** The except branch of the block read. */
    method BlockFailed(g: Group, b: Block, before: map<Table, Stats>) returns (stats: map<Table, Stats>)
      modifies this
      ensures State(stats) == OfferAllBad(g, StartBlock(old(State(before)), b, Failed), b.signals)
    {
      var st := StatsOf(before, b.table);
      st := st.(requests := st.requests + 1);
      stats := before[b.table := st.(error := true, requestErrors := st.requestErrors + 1, bad := st.bad + |b.signals|)];
      ghost var start := State(stats);
      for j := 0 to |b.signals|
        invariant State(stats) == OfferAllBad(g, start, b.signals[..j])
      {
        assert b.signals[..j + 1][..j] == b.signals[..j];
        badReads := badReads + 1;
        offers := offers + [Offer(g, b.signals[j], Sample(None))];
      }
      assert b.signals[..|b.signals|] == b.signals;
    }

    method BlockAnswered(h: Host, g: Group, b: Block, data: seq<int>, before: map<Table, Stats>)
      returns (stats: map<Table, Stats>)
      modifies this
      ensures State(stats) == PollSignals(h, g, StartBlock(old(State(before)), b, Answer(data)), b, data, b.signals)
    {
      ghost var start := StartBlock(State(before), b, Answer(data));
      var st := StatsOf(before, b.table);
      st := st.(requests := st.requests + 1);
      stats := before[b.table := st.(registersRead := st.registersRead + b.Length())];
      assert State(stats) == start;
      for j := 0 to |b.signals|
        invariant State(stats) == PollSignals(h, g, start, b, data, b.signals[..j])
      {
        var s := b.signals[j];
        SignalsAppend(h, g, start, b, data, b.signals[..j], s);
        assert b.signals[..j + 1] == b.signals[..j] + [s];
        stats := Sift(h, g, b.table, s, h.decode(SliceFor(b, s, data), s), stats);
      }
      assert b.signals[..|b.signals|] == b.signals;
    }

    /** The rest of the loop body, once the decoding has succeeded or raised. */
    method Sift(h: Host, g: Group, t: Table, s: SignalSpec, decoded: Result<Value>, before: map<Table, Stats>)
      returns (stats: map<Table, Stats>)
      modifies this
      ensures State(stats) == Settle(h, g, old(State(before)), t, s, decoded)
    {
      stats := before;
      var st := StatsOf(stats, t);
      if decoded.Err? {
        stats := stats[t := st.(error := true, bad := st.bad + 1)];
        badReads := badReads + 1;
        offers := offers + [Offer(g, s, Sample(None))];
        return;
      }
      var value := decoded.value;
      st := st.(decoded := st.decoded + 1, good := st.good + 1);
      goodReads := goodReads + 1;
      var key := (g.unit, s.name);
      if g.mode == Always || Exceeds(h.platform, s.deadband, if key in last then Some(last[key]) else None, value) {
        last := last[key := value];
        stats := stats[t := st.(changed := st.changed + 1)];
        offers := offers + [Offer(g, s, Sample(Some(value)))];
      } else {
        stats := stats[t := st.(suppressed := st.suppressed + 1)];
      }
    }
  }

  // ---- accounting ----

  function OffersOn(offers: seq<Offer>, t: Table): nat {
    if offers == [] then 0
    else OffersOn(offers[..|offers| - 1], t) + if offers[|offers| - 1].signal.table == t then 1 else 0
  }

  function SignalsOn(blocks: seq<Block>, t: Table): nat {
    if blocks == [] then 0
    else
      var b := blocks[|blocks| - 1];
      SignalsOn(blocks[..|blocks| - 1], t) + if b.table == t then |b.signals| else 0
  }

  function UnitsAnswered(blocks: seq<Block>, outcomes: seq<Outcome>, t: Table): int
    requires |outcomes| == |blocks|
  {
    if blocks == [] then 0
    else
      var n := |blocks| - 1;
      UnitsAnswered(blocks[..n], outcomes[..n], t)
      + if blocks[n].table == t && outcomes[n].Answer? then blocks[n].Length() else 0
  }

  function FailedOn(blocks: seq<Block>, outcomes: seq<Outcome>, t: Table): nat
    requires |outcomes| == |blocks|
  {
    if blocks == [] then 0
    else
      var n := |blocks| - 1;
      FailedOn(blocks[..n], outcomes[..n], t) + if blocks[n].table == t && outcomes[n].Failed? then 1 else 0
  }

  /** Every signal dealt with is good or bad; the good ones are the decoded ones and are changed or
      suppressed; the result is an error exactly when something was bad. */
  ghost predicate Sums(st: Stats, signals: int) {
    && st.good + st.bad == signals
    && st.good == st.decoded == st.changed + st.suppressed
    && (st.error <==> st.bad > 0)
  }

  lemma TallySums(st: Stats, good: bool, published: bool, n: int)
    requires Sums(st, n)
    ensures var after := Tally(st, good, published);
      && Sums(after, n + 1)
      && after.changed + after.bad == st.changed + st.bad + (if !good || published then 1 else 0)
      && after.requests == st.requests && after.requestErrors == st.requestErrors && after.registersRead == st.registersRead
  {
  }

  /** The sample balance of one table after `signals` of its signals have been dealt with. */
  ghost predicate Balanced(start: Cycle, c: Cycle, t: Table, signals: int) {
    && Sums(StatsOf(c.stats, t), signals)
    && OffersMatch(start, c, t)
  }

  function GoodTotal(stats: map<Table, Stats>): nat {
    StatsOf(stats, Coil).good + StatsOf(stats, Discrete).good + StatsOf(stats, Holding).good + StatsOf(stats, Input).good
  }

  function BadTotal(stats: map<Table, Stats>): nat {
    StatsOf(stats, Coil).bad + StatsOf(stats, Discrete).bad + StatsOf(stats, Holding).bad + StatsOf(stats, Input).bad
  }

  /** The shared counters move by exactly the good and bad samples of the four tables together. */
  ghost predicate Counted(start: Cycle, c: Cycle) {
    c.goodReads == start.goodReads + GoodTotal(c.stats) && c.badReads == start.badReads + BadTotal(c.stats)
  }

  ghost predicate Uniform(b: Block) { b.signals != [] && forall s :: s in b.signals ==> s.table == b.table }

  lemma OneMoreOffer(offers: seq<Offer>, o: Offer, t: Table)
    ensures OffersOn(offers + [o], t) == OffersOn(offers, t) + if o.signal.table == t then 1 else 0
  {
    assert (offers + [o])[..|offers|] == offers;
  }

  lemma TotalsUpdate(stats: map<Table, Stats>, u: Table, st: Stats)
    ensures GoodTotal(stats[u := st]) == GoodTotal(stats) - StatsOf(stats, u).good + st.good
    ensures BadTotal(stats[u := st]) == BadTotal(stats) - StatsOf(stats, u).bad + st.bad
  {
  }

  /** Whether a decoding is published. */
  predicate Kept(h: Host, g: Group, c: Cycle, s: SignalSpec, r: Result<Value>) {
    r.Ok? && Publishes(h.platform, g.mode, s.deadband, Lookup(c.last, KeyOf(g, s)), r.value)
  }

  lemma SettleStats(h: Host, g: Group, c: Cycle, u: Table, s: SignalSpec, r: Result<Value>)
    ensures Settle(h, g, c, u, s, r).stats == c.stats[u := Tally(StatsOf(c.stats, u), r.Ok?, Kept(h, g, c, s, r))]
    ensures Settle(h, g, c, u, s, r).goodReads == c.goodReads + (if r.Ok? then 1 else 0)
    ensures Settle(h, g, c, u, s, r).badReads == c.badReads + (if r.Ok? then 0 else 1)
  {
  }

  lemma SettleOffers(h: Host, g: Group, c: Cycle, u: Table, s: SignalSpec, r: Result<Value>, t: Table)
    ensures OffersOn(Settle(h, g, c, u, s, r).offers, t)
      == OffersOn(c.offers, t) + (if s.table == t && (r.Err? || Kept(h, g, c, s, r)) then 1 else 0)
  {
    if r.Err? {
      OneMoreOffer(c.offers, Offer(g, s, Sample(None)), t);
    } else {
      OneMoreOffer(c.offers, Offer(g, s, Sample(Some(r.value))), t);
    }
  }

  lemma SettleCounts(h: Host, g: Group, start: Cycle, c: Cycle, u: Table, s: SignalSpec, r: Result<Value>)
    requires Counted(start, c)
    ensures Counted(start, Settle(h, g, c, u, s, r))
  {
    SettleStats(h, g, c, u, s, r);
    TotalsUpdate(c.stats, u, Tally(StatsOf(c.stats, u), r.Ok?, Kept(h, g, c, s, r)));
  }

  lemma TallySumsAt(stats: map<Table, Stats>, u: Table, good: bool, published: bool, t: Table, n: nat)
    requires Sums(StatsOf(stats, t), n)
    ensures Sums(StatsOf(stats[u := Tally(StatsOf(stats, u), good, published)], t), if t == u then n + 1 else n)
  {
    TallySums(StatsOf(stats, t), good, published, n);
  }

  /** Offers of a table that are accounted for by its changed and bad samples. */
  ghost predicate OffersMatch(start: Cycle, c: Cycle, t: Table) {
    OffersOn(c.offers, t) == OffersOn(start.offers, t) + StatsOf(c.stats, t).changed + StatsOf(c.stats, t).bad
  }

  lemma SettleMatches(h: Host, g: Group, start: Cycle, c: Cycle, s: SignalSpec, r: Result<Value>, t: Table)
    requires OffersMatch(start, c, t)
    ensures OffersMatch(start, Settle(h, g, c, s.table, s, r), t)
  {
    SettleStats(h, g, c, s.table, s, r);
    SettleOffers(h, g, c, s.table, s, r, t);
  }

  lemma SettleBalances(
      h: Host, g: Group, start: Cycle, c: Cycle, u: Table, s: SignalSpec, r: Result<Value>, t: Table, n: nat)
    requires s.table == u && Balanced(start, c, t, n)
    ensures Balanced(start, Settle(h, g, c, u, s, r), t, if t == u then n + 1 else n)
    ensures SameRequests(c, Settle(h, g, c, u, s, r), t)
  {
    SettleStats(h, g, c, u, s, r);
    TallySumsAt(c.stats, u, r.Ok?, Kept(h, g, c, s, r), t, n);
    SettleMatches(h, g, start, c, s, r, t);
  }

  ghost predicate SameRequests(c: Cycle, d: Cycle, t: Table) {
    var x, y := StatsOf(c.stats, t), StatsOf(d.stats, t);
    x.requests == y.requests && x.requestErrors == y.requestErrors && x.registersRead == y.registersRead
  }

  /** The accounts of table `t` from start to c after k more signals of table `u`. */
  ghost predicate Accounted(start: Cycle, from: Cycle, c: Cycle, t: Table, u: Table, n: nat, k: nat) {
    Balanced(start, c, t, if t == u then n + k else n) && Counted(start, c) && SameRequests(from, c, t)
  }

  lemma {:induction false} SignalsBalance(
      h: Host, g: Group, start: Cycle, c: Cycle, b: Block, data: seq<int>, signals: seq<SignalSpec>, t: Table, n: nat)
    requires forall s :: s in signals ==> s.table == b.table
    requires Balanced(start, c, t, n) && Counted(start, c)
    ensures Accounted(start, c, PollSignals(h, g, c, b, data, signals), t, b.table, n, |signals|)
  {
    if signals != [] {
      var init, s := signals[..|signals| - 1], signals[|signals| - 1];
      assert s in signals;
      SignalsBalance(h, g, start, c, b, data, init, t, n);
      SignalBalances(h, g, start, c, PollSignals(h, g, c, b, data, init), b, s, h.decode(SliceFor(b, s, data), s), t, n, |init|);
    }
  }

  lemma SignalBalances(h: Host, g: Group, start: Cycle, c: Cycle, mid: Cycle, b: Block, s: SignalSpec, r: Result<Value>,
                       t: Table, n: nat, k: nat)
    requires s.table == b.table && Accounted(start, c, mid, t, b.table, n, k)
    ensures Accounted(start, c, Settle(h, g, mid, b.table, s, r), t, b.table, n, k + 1)
  {
    SettleBalances(h, g, start, mid, b.table, s, r, t, if t == b.table then n + k else n);
    SettleCounts(h, g, start, mid, b.table, s, r);
  }

  lemma {:induction false} BadOffersCount(g: Group, c: Cycle, signals: seq<SignalSpec>, u: Table, t: Table)
    requires forall s :: s in signals ==> s.table == u
    ensures var r := OfferAllBad(g, c, signals);
      && r == c.(offers := r.offers, badReads := c.badReads + |signals|)
      && OffersOn(r.offers, t) == OffersOn(c.offers, t) + if t == u then |signals| else 0
  {
    if signals != [] {
      var init, s := signals[..|signals| - 1], signals[|signals| - 1];
      BadOffersCount(g, c, init, u, t);
      OneMoreOffer(OfferAllBad(g, c, init).offers, Offer(g, s, Sample(None)), t);
    }
  }

  /** How the requests of table `t` move from c to d over one block. */
  ghost predicate Requested(c: Cycle, d: Cycle, b: Block, o: Outcome, t: Table) {
    var x, y := StatsOf(c.stats, t), StatsOf(d.stats, t);
    && y.requests == x.requests + (if t == b.table then 1 else 0)
    && y.requestErrors == x.requestErrors + (if t == b.table && o.Failed? then 1 else 0)
    && y.registersRead == x.registersRead + (if t == b.table && o.Answer? then b.Length() else 0)
  }

  lemma BlockBalances(h: Host, g: Group, start: Cycle, c: Cycle, b: Block, o: Outcome, t: Table, n: nat)
    requires Uniform(b) && Balanced(start, c, t, n) && Counted(start, c)
    ensures var d := PollBlock(h, g, c, b, o);
      Balanced(start, d, t, if t == b.table then n + |b.signals| else n) && Counted(start, d) && Requested(c, d, b, o, t)
  {
    if o.Failed? {
      FailedBlockBalances(g, start, c, b, t, n);
    } else {
      AnsweredBlockBalances(h, g, start, c, b, o, t, n);
    }
  }

  lemma StatsAt(stats: map<Table, Stats>, u: Table, st: Stats, t: Table)
    ensures t == u ==> StatsOf(stats[u := st], t) == st
    ensures t != u ==> StatsOf(stats[u := st], t) == StatsOf(stats, t)
  {
  }

  /** A step to a cycle whose statistics of one table are replaced. */
  lemma CountedUpdate(start: Cycle, c: Cycle, d: Cycle, u: Table, st: Stats)
    requires Counted(start, c) && d.stats == c.stats[u := st]
    requires d.goodReads == c.goodReads + st.good - StatsOf(c.stats, u).good
    requires d.badReads == c.badReads + st.bad - StatsOf(c.stats, u).bad
    ensures Counted(start, d)
  {
    TotalsUpdate(c.stats, u, st);
  }

  lemma StartRequested(c: Cycle, d: Cycle, b: Block, o: Outcome, t: Table)
    requires d.stats == StartBlock(c, b, o).stats
    ensures Requested(c, d, b, o, t)
  {
    StatsAt(c.stats, b.table, TallyBlock(StatsOf(c.stats, b.table), b, o), t);
  }

  /** The statistics of one table are replaced and offers of that table added to match. */
  lemma BalancedUpdate(start: Cycle, c: Cycle, d: Cycle, u: Table, st: Stats, t: Table, n: int, more: int, added: int)
    requires Balanced(start, c, t, n) && d.stats == c.stats[u := st]
    requires t == u ==> Sums(st, n + more) && st.changed + st.bad == StatsOf(c.stats, u).changed + StatsOf(c.stats, u).bad + added
    requires OffersOn(d.offers, t) == OffersOn(c.offers, t) + if t == u then added else 0
    ensures Balanced(start, d, t, if t == u then n + more else n)
  {
    StatsAt(c.stats, u, st, t);
  }

  lemma FailedCounted(g: Group, start: Cycle, c: Cycle, b: Block)
    requires Uniform(b) && Counted(start, c)
    ensures Counted(start, OfferAllBad(g, StartBlock(c, b, Failed), b.signals))
  {
    BadOffersCount(g, StartBlock(c, b, Failed), b.signals, b.table, b.table);
    CountedUpdate(start, c, OfferAllBad(g, StartBlock(c, b, Failed), b.signals), b.table, TallyBlock(StatsOf(c.stats, b.table), b, Failed));
  }

  lemma FailedRequested(g: Group, c: Cycle, b: Block, t: Table)
    requires Uniform(b)
    ensures Requested(c, OfferAllBad(g, StartBlock(c, b, Failed), b.signals), b, Failed, t)
  {
    BadOffersCount(g, StartBlock(c, b, Failed), b.signals, b.table, b.table);
    StartRequested(c, OfferAllBad(g, StartBlock(c, b, Failed), b.signals), b, Failed, t);
  }

  lemma FailedBalanced(g: Group, start: Cycle, c: Cycle, b: Block, t: Table, n: nat)
    requires Uniform(b) && Balanced(start, c, t, n)
    ensures Balanced(start, OfferAllBad(g, StartBlock(c, b, Failed), b.signals), t, if t == b.table then n + |b.signals| else n)
  {
    BadOffersCount(g, StartBlock(c, b, Failed), b.signals, b.table, t);
    FailedSums(StatsOf(c.stats, b.table), b, n);
    BalancedUpdate(start, c, OfferAllBad(g, StartBlock(c, b, Failed), b.signals), b.table,
      TallyBlock(StatsOf(c.stats, b.table), b, Failed), t, n, |b.signals|, |b.signals|);
  }

  lemma FailedBlockBalances(g: Group, start: Cycle, c: Cycle, b: Block, t: Table, n: nat)
    requires Uniform(b) && Balanced(start, c, t, n) && Counted(start, c)
    ensures Balanced(start, OfferAllBad(g, StartBlock(c, b, Failed), b.signals), t, if t == b.table then n + |b.signals| else n)
    ensures Counted(start, OfferAllBad(g, StartBlock(c, b, Failed), b.signals))
    ensures Requested(c, OfferAllBad(g, StartBlock(c, b, Failed), b.signals), b, Failed, t)
  {
    FailedBalanced(g, start, c, b, t, n);
    FailedCounted(g, start, c, b);
    FailedRequested(g, c, b, t);
  }

  lemma FailedSums(st: Stats, b: Block, n: nat)
    requires b.signals != []
    ensures Sums(st, n) ==> Sums(TallyBlock(st, b, Failed), n + |b.signals|)
  {
  }

  lemma AnsweredCounted(start: Cycle, c: Cycle, b: Block, o: Outcome)
    requires Counted(start, c) && o.Answer?
    ensures Counted(start, StartBlock(c, b, o))
  {
    CountedUpdate(start, c, StartBlock(c, b, o), b.table, TallyBlock(StatsOf(c.stats, b.table), b, o));
  }

  lemma AnsweredStats(c: Cycle, b: Block, o: Outcome, t: Table)
    requires o.Answer?
    ensures var x, y := StatsOf(c.stats, t), StatsOf(StartBlock(c, b, o).stats, t);
      y == x.(requests := y.requests, registersRead := y.registersRead)
  {
    StatsAt(c.stats, b.table, TallyBlock(StatsOf(c.stats, b.table), b, o), t);
  }

  lemma AnsweredBalanced(start: Cycle, c: Cycle, b: Block, o: Outcome, t: Table, n: nat)
    requires Balanced(start, c, t, n) && o.Answer?
    ensures Balanced(start, StartBlock(c, b, o), t, n)
  {
    AnsweredStats(c, b, o, t);
    assert StartBlock(c, b, o).offers == c.offers;
  }

  lemma AnsweredStart(start: Cycle, c: Cycle, b: Block, o: Outcome, t: Table, n: nat)
    requires Balanced(start, c, t, n) && Counted(start, c) && o.Answer?
    ensures Balanced(start, StartBlock(c, b, o), t, n)
    ensures Counted(start, StartBlock(c, b, o))
    ensures Requested(c, StartBlock(c, b, o), b, o, t)
  {
    AnsweredBalanced(start, c, b, o, t, n);
    AnsweredCounted(start, c, b, o);
    StartRequested(c, StartBlock(c, b, o), b, o, t);
  }

  lemma AnsweredBlockBalances(h: Host, g: Group, start: Cycle, c: Cycle, b: Block, o: Outcome, t: Table, n: nat)
    requires Uniform(b) && Balanced(start, c, t, n) && Counted(start, c) && o.Answer?
    ensures Balanced(start, PollSignals(h, g, StartBlock(c, b, o), b, o.data, b.signals), t,
                     if t == b.table then n + |b.signals| else n)
    ensures Counted(start, PollSignals(h, g, StartBlock(c, b, o), b, o.data, b.signals))
    ensures Requested(c, PollSignals(h, g, StartBlock(c, b, o), b, o.data, b.signals), b, o, t)
  {
    AnsweredStart(start, c, b, o, t, n);
    SignalsBalance(h, g, start, StartBlock(c, b, o), b, o.data, b.signals, t, n);
  }

  /** The requests of a table over some blocks, in its statistics. */
  ghost predicate RequestsAdd(c: Cycle, blocks: seq<Block>, outcomes: seq<Outcome>, t: Table)
    requires |outcomes| == |blocks|
  {
    && StatsOf(c.stats, t).requests == |BlocksOn(blocks, t)|
    && StatsOf(c.stats, t).requestErrors == FailedOn(blocks, outcomes, t)
    && StatsOf(c.stats, t).registersRead == UnitsAnswered(blocks, outcomes, t)
  }

  lemma RequestsStep(c: Cycle, d: Cycle, blocks: seq<Block>, outcomes: seq<Outcome>, t: Table)
    requires |outcomes| == |blocks| > 0 && RequestsAdd(c, blocks[..|blocks| - 1], outcomes[..|blocks| - 1], t)
    requires Requested(c, d, blocks[|blocks| - 1], outcomes[|blocks| - 1], t)
    ensures RequestsAdd(d, blocks, outcomes, t)
  {
  }

  lemma SignalsOnLast(blocks: seq<Block>, t: Table)
    requires blocks != []
    ensures var n := |blocks| - 1;
      SignalsOn(blocks, t) == if t == blocks[n].table then SignalsOn(blocks[..n], t) + |blocks[n].signals| else SignalsOn(blocks[..n], t)
  {
  }

  lemma PollLast(h: Host, g: Group, c: Cycle, blocks: seq<Block>, outcomes: seq<Outcome>)
    requires |outcomes| == |blocks| > 0
    ensures var n := |blocks| - 1;
      PollBlocks(h, g, c, blocks, outcomes) == PollBlock(h, g, PollBlocks(h, g, c, blocks[..n], outcomes[..n]), blocks[n], outcomes[n])
  {
  }

  /** For every pattern of block and decode failures, per table: every configured signal gives one good
      or bad sample; good ones are exactly the decoded ones and are changed or suppressed; offers are the
      changed and the bad ones; requests are blocks; the units read are the lengths of the answered
      blocks; the result is an error exactly when something was bad. */
  lemma {:induction false} PollAccounts(h: Host, g: Group, start: Cycle, blocks: seq<Block>, outcomes: seq<Outcome>, t: Table)
    requires |outcomes| == |blocks| && start.stats == map[]
    requires forall b :: b in blocks ==> Uniform(b)
    ensures var c := PollBlocks(h, g, start, blocks, outcomes);
      Balanced(start, c, t, SignalsOn(blocks, t)) && Counted(start, c) && RequestsAdd(c, blocks, outcomes, t)
  {
    if blocks != [] {
      var n := |blocks| - 1;
      var c := PollBlocks(h, g, start, blocks[..n], outcomes[..n]);
      PollAccounts(h, g, start, blocks[..n], outcomes[..n], t);
      BlockBalances(h, g, start, c, blocks[n], outcomes[n], t, SignalsOn(blocks[..n], t));
      RequestsStep(c, PollBlock(h, g, c, blocks[n], outcomes[n]), blocks, outcomes, t);
      SignalsOnLast(blocks, t);
      PollLast(h, g, start, blocks, outcomes);
    }
  }

  /** In a cycle over the adapter's own plan the signals accounted for are the configured ones. */
  lemma PlannedSignals(signals: seq<SignalSpec>, maxGap: int, t: Table)
    ensures SignalsOn(Coalesced(signals, maxGap), t) == |OnTable(signals, t)|
  {
    CoalescedOn(signals, maxGap, t);
    SignalsOnTable(Coalesced(signals, maxGap), t);
    FlattenPlan(SortByAddress(OnTable(signals, t)), maxGap);
    SortSorts(OnTable(signals, t));
    assert |multiset(SortByAddress(OnTable(signals, t)))| == |multiset(OnTable(signals, t))|;
  }

  /** The blocks of the adapter's own plan are not empty and hold signals of their own table. */
  lemma PlanIsUniform(signals: seq<SignalSpec>, maxGap: int, b: Block)
    requires b in Coalesced(signals, maxGap)
    ensures Uniform(b)
  {
    var blocks := PlanTable(signals, b.table, maxGap);
    BlocksOnHolds(Coalesced(signals, maxGap), b);
    CoalescedOn(signals, maxGap, b.table);
    OversizeIsFirstSignal(SortByAddress(OnTable(signals, b.table)), maxGap);
    FlattenPlan(SortByAddress(OnTable(signals, b.table)), maxGap);
    FlattenMembers(blocks);
    TableMembers(signals, b.table);
  }

  /** The account of the adapter's own cycle, for every list of signals, every gap limit and every pattern of
      failures: per table every configured signal gives one good or bad sample, and one request is made for each
      block of the table's plan. */
  lemma PlannedAccounts(h: Host, g: Group, start: Cycle, signals: seq<SignalSpec>, maxGap: int, outcomes: seq<Outcome>, t: Table)
    requires |outcomes| == |Coalesced(signals, maxGap)| && start.stats == map[]
    ensures var c := PollBlocks(h, g, start, Coalesced(signals, maxGap), outcomes);
      var st := StatsOf(c.stats, t);
      && st.good + st.bad == |OnTable(signals, t)|
      && st.good == st.decoded == st.changed + st.suppressed && (st.error <==> st.bad > 0)
      && OffersOn(c.offers, t) == OffersOn(start.offers, t) + st.changed + st.bad
      && st.requests == |PlanTable(signals, t, maxGap)|
      && st.requestErrors == FailedOn(Coalesced(signals, maxGap), outcomes, t)
      && st.registersRead == UnitsAnswered(Coalesced(signals, maxGap), outcomes, t)
      && Counted(start, c)
  {
    forall b | b in Coalesced(signals, maxGap) ensures Uniform(b) { PlanIsUniform(signals, maxGap, b); }
    PollAccounts(h, g, start, Coalesced(signals, maxGap), outcomes, t);
    PlannedSignals(signals, maxGap, t);
    CoalescedOn(signals, maxGap, t);
  }

  lemma {:induction false} SignalsOnTable(blocks: seq<Block>, t: Table)
    ensures SignalsOn(blocks, t) == |Flatten(BlocksOn(blocks, t))|
  {
    if blocks != [] {
      var init, b := blocks[..|blocks| - 1], blocks[|blocks| - 1];
      SignalsOnTable(init, t);
      if b.table == t {
        FlattenAppend(BlocksOn(init, t), b);
      } else {
        assert BlocksOn(blocks, t) == BlocksOn(init, t);
      }
    }
  }

  // ---- coalesced polling against reading each signal alone ----

  /** Every slice lies inside its block and holds exactly what a read of the signal alone returns. */
  lemma SliceIsSingleRead(signals: seq<SignalSpec>, maxGap: int, b: Block, s: SignalSpec, img: Image)
    requires b in Coalesced(signals, maxGap) && s in b.signals && UnitLength(s) >= 1
    ensures s in signals && s.table == b.table
    ensures b.start <= s.address && End(s) <= b.end
    ensures SliceFor(b, s, ReadImage(img, b.table, b.start, b.Length())) == ReadImage(img, s.table, s.address, UnitLength(s))
  {
    PlannedBlock(signals, maxGap, b);
    SameSlice(b, s, img);
    assert Slice(ReadImage(img, s.table, s.address, UnitLength(s)), 0, UnitLength(s)) == ReadImage(img, s.table, s.address, UnitLength(s));
  }

  /** A block of the plan spans its signals, which are configured and of its table. */
  lemma PlannedBlock(signals: seq<SignalSpec>, maxGap: int, b: Block)
    requires b in Coalesced(signals, maxGap)
    ensures Encloses(b) && forall s :: s in b.signals ==> s in signals && s.table == b.table
  {
    var sorted := SortByAddress(OnTable(signals, b.table));
    BlocksOnHolds(Coalesced(signals, maxGap), b);
    CoalescedOn(signals, maxGap, b.table);
    SortSorts(OnTable(signals, b.table));
    PlanEncloses(sorted, maxGap);
    FlattenPlan(sorted, maxGap);
    FlattenMembers(Plan(sorted, maxGap));
    TableMembers(signals, b.table);
  }

  /** The answers a device holding the image gives to a list of blocks. */
  function Answers(img: Image, blocks: seq<Block>): (outcomes: seq<Outcome>)
    requires forall b :: b in blocks ==> b.Length() >= 0
    ensures |outcomes| == |blocks|
  {
    if blocks == [] then []
    else
      var b := blocks[|blocks| - 1];
      Answers(img, blocks[..|blocks| - 1]) + [Answer(ReadImage(img, b.table, b.start, b.Length()))]
  }

  /** One block per signal, in the order the plan reads them. */
  function Alone(signals: seq<SignalSpec>): (blocks: seq<Block>)
    ensures |blocks| == |signals| && forall i :: 0 <= i < |signals| ==> blocks[i] == Open(signals[i])
  {
    seq(|signals|, i requires 0 <= i < |signals| => Open(signals[i]))
  }

  lemma AloneConcat(xs: seq<SignalSpec>, ys: seq<SignalSpec>)
    ensures Alone(xs + ys) == Alone(xs) + Alone(ys)
  {
  }

  /** What a consumer can tell two cycles apart by. */
  ghost predicate SameEffects(a: Cycle, b: Cycle) {
    a.last == b.last && a.offers == b.offers && a.goodReads == b.goodReads && a.badReads == b.badReads
  }

  ghost predicate WholeBlocks(blocks: seq<Block>) {
    forall b :: b in blocks ==> Whole(b)
  }

  /** The block holds all of each of its signals. */
  ghost predicate Whole(b: Block) {
    b.Length() >= 0 && forall s :: s in b.signals ==>
      s.table == b.table && b.start <= s.address && End(s) <= b.end && 1 <= UnitLength(s)
  }

  lemma {:induction false} BlockAsSingles(h: Host, g: Group, c: Cycle, d: Cycle, b: Block, img: Image, signals: seq<SignalSpec>)
    requires SameEffects(c, d) && Whole(b) && forall s :: s in signals ==> s in b.signals
    requires forall s :: s in Alone(signals) ==> s.Length() >= 0
    ensures SameEffects(
      PollSignals(h, g, c, b, ReadImage(img, b.table, b.start, b.Length()), signals),
      PollBlocks(h, g, d, Alone(signals), Answers(img, Alone(signals))))
  {
    if signals != [] {
      var n := |signals| - 1;
      var init, s := signals[..n], signals[n];
      assert Alone(signals)[..n] == Alone(init);
      assert Answers(img, Alone(signals))[..n] == Answers(img, Alone(init));
      BlockAsSingles(h, g, c, d, b, img, init);
      assert s in b.signals;
      SameSlice(b, s, img);
      OneSignal(h, g, PollSignals(h, g, c, b, ReadImage(img, b.table, b.start, b.Length()), init),
                PollBlocks(h, g, d, Alone(init), Answers(img, Alone(init))), b,
                ReadImage(img, b.table, b.start, b.Length()), ReadImage(img, s.table, s.address, Open(s).Length()), s);
    }
  }

  lemma SameSlice(b: Block, s: SignalSpec, img: Image)
    requires b.Length() >= 0 && s.table == b.table && b.start <= s.address && End(s) <= b.end && 1 <= UnitLength(s)
    ensures SliceFor(b, s, ReadImage(img, b.table, b.start, b.Length()))
      == SliceFor(Open(s), s, ReadImage(img, s.table, s.address, Open(s).Length()))
  {
  }

  lemma OneSignal(h: Host, g: Group, c: Cycle, d: Cycle, b: Block, data: seq<int>, alone: seq<int>, s: SignalSpec)
    requires SameEffects(c, d) && SliceFor(b, s, data) == SliceFor(Open(s), s, alone)
    ensures SameEffects(PollSignal(h, g, c, b, data, s), PollBlock(h, g, d, Open(s), Answer(alone)))
  {
    var e := StartBlock(d, Open(s), Answer(alone));
    assert PollSignals(h, g, e, Open(s), alone, []) == e;
    assert [s][..0] == [];
    assert PollSignals(h, g, e, Open(s), alone, [s]) == PollSignal(h, g, e, Open(s), alone, s);
    SettleSame(h, g, c, e, b.table, s.table, s, h.decode(SliceFor(b, s, data), s));
  }

  lemma SettleSame(h: Host, g: Group, c: Cycle, d: Cycle, t: Table, u: Table, s: SignalSpec, r: Result<Value>)
    requires SameEffects(c, d)
    ensures SameEffects(Settle(h, g, c, t, s, r), Settle(h, g, d, u, s, r))
  {
  }

  lemma {:induction false} PollConcat(
      h: Host, g: Group, c: Cycle, xs: seq<Block>, ys: seq<Block>, os: seq<Outcome>, qs: seq<Outcome>)
    requires |xs| == |os| && |ys| == |qs|
    ensures PollBlocks(h, g, c, xs + ys, os + qs) == PollBlocks(h, g, PollBlocks(h, g, c, xs, os), ys, qs)
  {
    if ys == [] {
      assert xs + ys == xs && os + qs == os;
    } else {
      var n := |ys| - 1;
      PollConcat(h, g, c, xs, ys[..n], os, qs[..n]);
      PollAppend(h, g, c, xs + ys[..n], ys[n], os + qs[..n], qs[n]);
      ConcatLast(xs, ys);
      ConcatLast(os, qs);
    }
  }

  lemma ConcatLast<T>(xs: seq<T>, ys: seq<T>)
    requires ys != []
    ensures xs + ys == xs + ys[..|ys| - 1] + [ys[|ys| - 1]]
  {
  }

  lemma {:induction false} AnswersConcat(img: Image, xs: seq<Block>, ys: seq<Block>)
    requires forall b :: b in xs + ys ==> b.Length() >= 0
    requires (forall b :: b in xs ==> b.Length() >= 0) && (forall b :: b in ys ==> b.Length() >= 0)
    ensures Answers(img, xs + ys) == Answers(img, xs) + Answers(img, ys)
  {
    if ys == [] {
      assert xs + ys == xs;
    } else {
      var n := |ys| - 1;
      assert (xs + ys)[..|xs| + n] == xs + ys[..n];
      forall b | b in xs + ys[..n] ensures b.Length() >= 0 { assert b in xs || b in ys; }
      AnswersConcat(img, xs, ys[..n]);
    }
  }

  lemma AloneHaveLength(blocks: seq<Block>)
    requires WholeBlocks(blocks)
    ensures forall a :: a in Alone(Flatten(blocks)) ==> a.Length() >= 0
  {
    FlattenMembers(blocks);
    forall a | a in Alone(Flatten(blocks)) ensures a.Length() >= 0 {
      var k :| 0 <= k < |Flatten(blocks)| && Alone(Flatten(blocks))[k] == a;
      assert Flatten(blocks)[k] in Flatten(blocks);
      var i :| 0 <= i < |blocks| && Flatten(blocks)[k] in blocks[i].signals;
      assert Whole(blocks[i]);
    }
  }

  lemma {:induction false} BlocksAsSingles(h: Host, g: Group, c: Cycle, blocks: seq<Block>, img: Image)
    requires WholeBlocks(blocks)
    requires forall a :: a in Alone(Flatten(blocks)) ==> a.Length() >= 0
    ensures SameEffects(
      PollBlocks(h, g, c, blocks, Answers(img, blocks)),
      PollBlocks(h, g, c, Alone(Flatten(blocks)), Answers(img, Alone(Flatten(blocks)))))
  {
    if blocks != [] {
      var n := |blocks| - 1;
      var init, b := blocks[..n], blocks[n];
      assert blocks == init + [b] && b in blocks;
      AloneHaveLength(init);
      BlocksAsSingles(h, g, c, init, img);
      var xs, ys := Alone(Flatten(init)), Alone(b.signals);
      FlattenAppend(init, b);
      AloneConcat(Flatten(init), b.signals);
      AnswersConcat(img, xs, ys);
      PollConcat(h, g, c, xs, ys, Answers(img, xs), Answers(img, ys));
      var data := ReadImage(img, b.table, b.start, b.Length());
      assert Answers(img, blocks) == Answers(img, init) + [Answer(data)];
      PollAppend(h, g, c, init, b, Answers(img, init), Answer(data));
      LastBlockAsSingles(h, g, PollBlocks(h, g, c, init, Answers(img, init)), PollBlocks(h, g, c, xs, Answers(img, xs)), b, img);
    }
  }

  lemma LastBlockAsSingles(h: Host, g: Group, c: Cycle, d: Cycle, b: Block, img: Image)
    requires SameEffects(c, d) && Whole(b) && b.Length() >= 0
    requires forall a :: a in Alone(b.signals) ==> a.Length() >= 0
    ensures SameEffects(
      PollBlock(h, g, c, b, Answer(ReadImage(img, b.table, b.start, b.Length()))),
      PollBlocks(h, g, d, Alone(b.signals), Answers(img, Alone(b.signals))))
  {
    BlockAsSingles(h, g, StartBlock(c, b, Answer(ReadImage(img, b.table, b.start, b.Length()))), d, b, img, b.signals);
  }

  /** Polling with the plan has exactly the effects of reading every signal by itself: the same cache,
      the same offers in the same order and the same counters, for every device that answers from its memory. */
  lemma CoalescingIsTransparent(h: Host, g: Group, c: Cycle, signals: seq<SignalSpec>, maxGap: int, img: Image)
    requires forall s :: s in signals ==> UnitLength(s) >= 1
    ensures var blocks := Coalesced(signals, maxGap);
      && (forall b :: b in blocks ==> b.Length() >= 0)
      && (forall a :: a in Alone(Flatten(blocks)) ==> a.Length() >= 0)
      && SameEffects(
           PollBlocks(h, g, c, blocks, Answers(img, blocks)),
           PollBlocks(h, g, c, Alone(Flatten(blocks)), Answers(img, Alone(Flatten(blocks)))))
  {
    var blocks := Coalesced(signals, maxGap);
    forall b | b in blocks ensures Whole(b) {
      PlannedBlock(signals, maxGap, b);
      assert b.signals[0] in b.signals;
    }
    AloneHaveLength(blocks);
    BlocksAsSingles(h, g, c, blocks, img);
  }

  // ---- one signal through a run of cycles ----

  /** The readings of signal `s` in one block, a signal configured twice being read twice. */
  function SignalReads(h: Host, b: Block, o: Outcome, signals: seq<SignalSpec>, s: SignalSpec): seq<Read> {
    if signals == [] then []
    else
      var init, x := signals[..|signals| - 1], signals[|signals| - 1];
      SignalReads(h, b, o, init, s) + if x == s then [ReadOf(h, b, o, s)] else []
  }

  function ReadOf(h: Host, b: Block, o: Outcome, s: SignalSpec): Read {
    if o.Failed? then Bad
    else
      var r := h.decode(SliceFor(b, s, o.data), s);
      if r.Err? then Bad else Good(r.value)
  }

  function CycleReads(h: Host, blocks: seq<Block>, outcomes: seq<Outcome>, s: SignalSpec): seq<Read>
    requires |outcomes| == |blocks|
  {
    if blocks == [] then []
    else
      var n := |blocks| - 1;
      CycleReads(h, blocks[..n], outcomes[..n], s) + SignalReads(h, blocks[n], outcomes[n], blocks[n].signals, s)
  }

  ghost predicate Matching(blocks: seq<Block>, cycles: seq<seq<Outcome>>) {
    forall os :: os in cycles ==> |os| == |blocks|
  }

  /** Cycle after cycle of one poll group, each with its own outcomes and fresh statistics. */
  ghost function Run(h: Host, g: Group, blocks: seq<Block>, cycles: seq<seq<Outcome>>): Cycle
    requires Matching(blocks, cycles)
  {
    if cycles == [] then Cycle(map[], map[], [], 0, 0)
    else
      var n := |cycles| - 1;
      PollBlocks(h, g, Run(h, g, blocks, cycles[..n]).(stats := map[]), blocks, cycles[n])
  }

  ghost function RunReads(h: Host, blocks: seq<Block>, cycles: seq<seq<Outcome>>, s: SignalSpec): seq<Read>
    requires Matching(blocks, cycles)
  {
    if cycles == [] then []
    else
      var n := |cycles| - 1;
      RunReads(h, blocks, cycles[..n], s) + CycleReads(h, blocks, cycles[n], s)
  }

  /** The values published of a signal of a unit. */
  function ValuesOf(offers: seq<Offer>, unit: nat, s: SignalSpec): seq<Value> {
    if offers == [] then []
    else
      var o := offers[|offers| - 1];
      ValuesOf(offers[..|offers| - 1], unit, s)
        + if o.group.unit == unit && o.signal == s && o.sample.value.Some? then [o.sample.value.value] else []
  }

  /** The cache entry and the published values of a signal are those its own history gives. */
  ghost predicate Tracks(h: Host, g: Group, c: Cycle, s: SignalSpec, history: seq<Read>) {
    var t := Follow(h.platform, g.mode, s.deadband, history);
    Lookup(c.last, KeyOf(g, s)) == t.last && ValuesOf(c.offers, g.unit, s) == t.published
  }

  ghost predicate NameUnique(signals: seq<SignalSpec>, s: SignalSpec) {
    forall x :: x in signals && x.name == s.name ==> x == s
  }

  lemma OfferAppends(offers: seq<Offer>, o: Offer, unit: nat, s: SignalSpec)
    ensures ValuesOf(offers + [o], unit, s)
      == ValuesOf(offers, unit, s)
        + if o.group.unit == unit && o.signal == s && o.sample.value.Some? then [o.sample.value.value] else []
  {
    assert (offers + [o])[..|offers|] == offers;
  }

  lemma FollowOne(h: Host, mode: PublishMode, d: DeadbandSpec, history: seq<Read>, r: Read)
    ensures Follow(h.platform, mode, d, history + [r]) == Observe(h.platform, mode, d, Follow(h.platform, mode, d, history), r)
  {
    assert (history + [r])[..|history|] == history;
  }

  lemma SettleTracks(
      h: Host, g: Group, c: Cycle, t: Table, x: SignalSpec, r: Result<Value>, s: SignalSpec, history: seq<Read>)
    requires Tracks(h, g, c, s, history) && (x.name == s.name ==> x == s)
    ensures Tracks(h, g, Settle(h, g, c, t, x, r), s,
                   if x == s then history + [if r.Err? then Bad else Good(r.value)] else history)
  {
    FollowOne(h, g.mode, s.deadband, history, if r.Err? then Bad else Good(r.value));
    OfferAppends(c.offers, Offer(g, x, Sample(None)), g.unit, s);
    if r.Ok? { OfferAppends(c.offers, Offer(g, x, Sample(Some(r.value))), g.unit, s); }
  }

  lemma {:induction false} SignalsTrack(
      h: Host, g: Group, c: Cycle, b: Block, o: Outcome, signals: seq<SignalSpec>, s: SignalSpec, history: seq<Read>)
    requires Tracks(h, g, c, s, history) && NameUnique(signals, s)
    ensures Tracks(h, g, if o.Failed? then OfferAllBad(g, c, signals) else PollSignals(h, g, c, b, o.data, signals), s,
                   history + SignalReads(h, b, o, signals, s))
  {
    if signals == [] {
      assert history + [] == history;
    } else {
      var init, x := signals[..|signals| - 1], signals[|signals| - 1];
      assert x in signals;
      SignalsTrack(h, g, c, b, o, init, s, history);
      var past := history + SignalReads(h, b, o, init, s);
      assert history + SignalReads(h, b, o, signals, s) == if x == s then past + [ReadOf(h, b, o, s)] else past;
      if o.Failed? {
        OfferAppends(OfferAllBad(g, c, init).offers, Offer(g, x, Sample(None)), g.unit, s);
        FollowOne(h, g.mode, s.deadband, past, Bad);
      } else {
        SettleTracks(h, g, PollSignals(h, g, c, b, o.data, init), b.table, x, h.decode(SliceFor(b, x, o.data), x), s, past);
      }
    }
  }

  lemma {:induction false} CycleTracks(
      h: Host, g: Group, c: Cycle, blocks: seq<Block>, outcomes: seq<Outcome>, s: SignalSpec, history: seq<Read>)
    requires |outcomes| == |blocks| && Tracks(h, g, c, s, history) && NameUnique(Flatten(blocks), s)
    ensures Tracks(h, g, PollBlocks(h, g, c, blocks, outcomes), s, history + CycleReads(h, blocks, outcomes, s))
  {
    if blocks == [] {
      assert history + [] == history;
    } else {
      var n := |blocks| - 1;
      var b, o := blocks[n], outcomes[n];
      UniqueSplits(blocks, s);
      CycleTracks(h, g, c, blocks[..n], outcomes[..n], s, history);
      BlockTracks(h, g, PollBlocks(h, g, c, blocks[..n], outcomes[..n]), b, o, s,
                  history + CycleReads(h, blocks[..n], outcomes[..n], s));
      Associate(history, CycleReads(h, blocks[..n], outcomes[..n], s), SignalReads(h, b, o, b.signals, s));
    }
  }

  lemma UniqueSplits(blocks: seq<Block>, s: SignalSpec)
    requires blocks != [] && NameUnique(Flatten(blocks), s)
    ensures NameUnique(Flatten(blocks[..|blocks| - 1]), s) && NameUnique(blocks[|blocks| - 1].signals, s)
  {
  }

  lemma BlockTracks(h: Host, g: Group, c: Cycle, b: Block, o: Outcome, s: SignalSpec, history: seq<Read>)
    requires Tracks(h, g, c, s, history) && NameUnique(b.signals, s)
    ensures Tracks(h, g, PollBlock(h, g, c, b, o), s, history + SignalReads(h, b, o, b.signals, s))
  {
    SignalsTrack(h, g, StartBlock(c, b, o), b, o, b.signals, s, history);
  }

  /** Over any run of cycles with any failures, each uniquely named signal behaves as if it were polled
      alone: its cache entry and its published values are those of its own history of readings. So the
      laws of the deadband filter hold for every signal of a poll group. */
  lemma {:induction false} SignalsAreIndependent(
      h: Host, g: Group, blocks: seq<Block>, cycles: seq<seq<Outcome>>, s: SignalSpec)
    requires Matching(blocks, cycles) && NameUnique(Flatten(blocks), s)
    ensures Tracks(h, g, Run(h, g, blocks, cycles), s, RunReads(h, blocks, cycles, s))
  {
    if cycles != [] {
      var n := |cycles| - 1;
      SignalsAreIndependent(h, g, blocks, cycles[..n], s);
      CycleTracks(h, g, Run(h, g, blocks, cycles[..n]).(stats := map[]), blocks, cycles[n], s,
                  RunReads(h, blocks, cycles[..n], s));
    }
  }

  /** The publication bound on the poller itself: N published values of a signal with absolute deadband
      D move the sum of its readings' steps by at least (N-1)*D. */
  lemma PollerPublicationBound(h: Host, g: Group, blocks: seq<Block>, cycles: seq<seq<Outcome>>, s: SignalSpec)
    requires Matching(blocks, cycles) && NameUnique(Flatten(blocks), s)
    requires g.mode == OnChange && s.deadband.kind == Absolute && s.deadband.value > 0.0
    requires var t := Follow(h.platform, OnChange, s.deadband, RunReads(h, blocks, cycles, s));
      t.decoded != [] && Numeric(h.platform, t.decoded)
    ensures var t := Follow(h.platform, OnChange, s.deadband, RunReads(h, blocks, cycles, s));
      && ValuesOf(Run(h, g, blocks, cycles).offers, g.unit, s) == t.published
      && t.published != [] && Bands(|t.published| - 1, s.deadband.value) <= Variation(h.platform, t.decoded)
  {
    SignalsAreIndependent(h, g, blocks, cycles, s);
    PublicationBound(h.platform, s.deadband, RunReads(h, blocks, cycles, s));
  }

  // ---- what a reading does, by unit and name ----

  /** A reading is compared with, and cached as, the value of its unit and its name; what is offered is what the cache
      then holds, and a bad reading leaves the cache alone. */
  lemma SettleByUnitAndName(h: Host, g: Group, c: Cycle, t: Table, s: SignalSpec, r: Result<Value>)
    ensures
      var d := Settle(h, g, c, t, s, r);
      if r.Err? then
        d.last == c.last && d.offers == c.offers + [Offer(g, s, Sample(None))]
      else if (g.unit, s.name) in c.last && g.mode == OnChange
        && !Exceeds(h.platform, s.deadband, Some(c.last[(g.unit, s.name)]), r.value)
      then
        d.last == c.last && d.offers == c.offers
      else
        d.last == c.last[(g.unit, s.name) := r.value] && d.offers == c.offers + [Offer(g, s, Sample(Some(r.value)))]
  {
  }

  /** A failed block offers one bad sample for each of its signals, in order, and leaves the cache alone. */
  lemma {:induction false} FailedBlockOffers(g: Group, c: Cycle, signals: seq<SignalSpec>)
    ensures OfferAllBad(g, c, signals).last == c.last
    ensures |OfferAllBad(g, c, signals).offers| == |c.offers| + |signals|
    ensures OfferAllBad(g, c, signals).offers[..|c.offers|] == c.offers
    ensures forall i :: 0 <= i < |signals| ==>
      OfferAllBad(g, c, signals).offers[|c.offers| + i] == Offer(g, signals[i], Sample(None))
  {
    if signals != [] { FailedBlockOffers(g, c, signals[..|signals| - 1]); }
  }

  /** A slice holds those units of the signal that arrived, so an answer shorter than its block gives the signals past
      its end nothing. */
  lemma SliceOfAnswer(b: Block, s: SignalSpec, data: seq<int>)
    requires b.start <= s.address && UnitLength(s) >= 0
    ensures |data| >= End(s) - b.start ==> |SliceFor(b, s, data)| == UnitLength(s)
    ensures s.address - b.start <= |data| < End(s) - b.start ==> |SliceFor(b, s, data)| == |data| - (s.address - b.start)
    ensures |data| <= s.address - b.start ==> SliceFor(b, s, data) == []
    ensures forall i :: 0 <= i < |SliceFor(b, s, data)| ==>
      s.address - b.start + i < |data| && SliceFor(b, s, data)[i] == data[s.address - b.start + i]
  {
  }

  /** What is offered for a reading when everything is published. */
  ghost function SampleOf(r: Read): Sample { if r.Bad? then Sample(None) else Sample(Some(r.v)) }

  /** The offers beyond `before` are one for each signal, in order, of its reading. */
  ghost predicate OffersEach(h: Host, g: Group, before: seq<Offer>, offers: seq<Offer>, b: Block, o: Outcome, signals: seq<SignalSpec>) {
    && |offers| == |before| + |signals| && before <= offers
    && forall i :: 0 <= i < |signals| ==>
      offers[|before| + i] == Offer(g, signals[i], SampleOf(ReadOf(h, b, o, signals[i])))
  }

  lemma OffersEachNext(h: Host, g: Group, before: seq<Offer>, offers: seq<Offer>, b: Block, o: Outcome, signals: seq<SignalSpec>)
    requires signals != [] && OffersEach(h, g, before, offers, b, o, signals[..|signals| - 1])
    ensures var s := signals[|signals| - 1];
      OffersEach(h, g, before, offers + [Offer(g, s, SampleOf(ReadOf(h, b, o, s)))], b, o, signals)
  {
  }

  /** A group that publishes always offers every signal of a block in every cycle, in the order of the block: its value,
      or a bad sample if the read or the decoding failed. */
  lemma {:induction false} EverySignalOffered(h: Host, g: Group, c: Cycle, b: Block, o: Outcome, signals: seq<SignalSpec>)
    requires g.mode == Always
    ensures OffersEach(h, g, c.offers, (if o.Failed? then OfferAllBad(g, c, signals) else PollSignals(h, g, c, b, o.data, signals)).offers,
                       b, o, signals)
  {
    if signals != [] {
      var init, s := signals[..|signals| - 1], signals[|signals| - 1];
      EverySignalOffered(h, g, c, b, o, init);
      if o.Failed? {
        OffersEachNext(h, g, c.offers, OfferAllBad(g, c, init).offers, b, o, signals);
      } else {
        var d := PollSignals(h, g, c, b, o.data, init);
        SettleByUnitAndName(h, g, d, b.table, s, h.decode(SliceFor(b, s, o.data), s));
        OffersEachNext(h, g, c.offers, d.offers, b, o, signals);
      }
    }
  }

  /** The signals a run of offers is about. */
  ghost function About(offers: seq<Offer>): (signals: seq<SignalSpec>)
    ensures |signals| == |offers| && forall i :: 0 <= i < |offers| ==> signals[i] == offers[i].signal
  {
    seq(|offers|, i requires 0 <= i < |offers| => offers[i].signal)
  }

  lemma AboutBlock(h: Host, g: Group, before: seq<Offer>, offers: seq<Offer>, b: Block, o: Outcome, signals: seq<SignalSpec>)
    requires OffersEach(h, g, before, offers, b, o, signals)
    ensures About(offers) == About(before) + signals
  {
  }

  /** And over a cycle every signal is offered once, block after block. */
  lemma {:induction false} CycleOffersAll(h: Host, g: Group, c: Cycle, blocks: seq<Block>, outcomes: seq<Outcome>)
    requires g.mode == Always && |outcomes| == |blocks|
    ensures About(PollBlocks(h, g, c, blocks, outcomes).offers) == About(c.offers) + Flatten(blocks)
  {
    if blocks == [] {
      assert About(c.offers) + [] == About(c.offers);
    } else {
      var n := |blocks| - 1;
      var b, o, d := blocks[n], outcomes[n], PollBlocks(h, g, c, blocks[..n], outcomes[..n]);
      CycleOffersAll(h, g, c, blocks[..n], outcomes[..n]);
      EverySignalOffered(h, g, StartBlock(d, b, o), b, o, b.signals);
      AboutBlock(h, g, d.offers, PollBlock(h, g, d, b, o).offers, b, o, b.signals);
      Associate(About(c.offers), Flatten(blocks[..n]), b.signals);
    }
  }

  // ---- groups of several units ----

  /** No signal of the group is the one of that unit and name. */
  predicate Elsewhere(g: Group, signals: seq<SignalSpec>, unit: nat, name: string) {
    unit != g.unit || forall x :: x in signals ==> x.name != name
  }

  /** The cache entry of a unit and name, and the values published of a signal of that name, are the same. */
  predicate Untouched(c: Cycle, d: Cycle, unit: nat, s: SignalSpec) {
    && ((unit, s.name) in c.last <==> (unit, s.name) in d.last)
    && ((unit, s.name) in c.last ==> c.last[(unit, s.name)] == d.last[(unit, s.name)])
    && ValuesOf(c.offers, unit, s) == ValuesOf(d.offers, unit, s)
  }

  lemma SettleElsewhere(h: Host, g: Group, c: Cycle, t: Table, x: SignalSpec, r: Result<Value>, unit: nat, s: SignalSpec)
    requires unit != g.unit || x.name != s.name
    ensures Untouched(c, Settle(h, g, c, t, x, r), unit, s)
  {
    OfferAppends(c.offers, Offer(g, x, Sample(None)), unit, s);
    if r.Ok? { OfferAppends(c.offers, Offer(g, x, Sample(Some(r.value))), unit, s); }
  }

  lemma {:induction false} SignalsElsewhere(
      h: Host, g: Group, c: Cycle, b: Block, o: Outcome, signals: seq<SignalSpec>, unit: nat, s: SignalSpec)
    requires Elsewhere(g, signals, unit, s.name)
    ensures Untouched(c, if o.Failed? then OfferAllBad(g, c, signals) else PollSignals(h, g, c, b, o.data, signals), unit, s)
  {
    if signals != [] {
      var init, x := signals[..|signals| - 1], signals[|signals| - 1];
      assert x in signals;
      SignalsElsewhere(h, g, c, b, o, init, unit, s);
      if o.Failed? {
        OfferAppends(OfferAllBad(g, c, init).offers, Offer(g, x, Sample(None)), unit, s);
      } else {
        SettleElsewhere(h, g, PollSignals(h, g, c, b, o.data, init), b.table, x, h.decode(SliceFor(b, x, o.data), x), unit, s);
      }
    }
  }

  /** A cycle of a group leaves the cache entries and the published values of all other units alone, and of its own
      unit those of all names it does not poll. */
  lemma {:induction false} CycleElsewhere(
      h: Host, g: Group, c: Cycle, blocks: seq<Block>, outcomes: seq<Outcome>, unit: nat, s: SignalSpec)
    requires |outcomes| == |blocks| && Elsewhere(g, Flatten(blocks), unit, s.name)
    ensures Untouched(c, PollBlocks(h, g, c, blocks, outcomes), unit, s)
  {
    if blocks != [] {
      var n := |blocks| - 1;
      ElsewhereSplits(g, blocks, unit, s.name);
      CycleElsewhere(h, g, c, blocks[..n], outcomes[..n], unit, s);
      var d := PollBlocks(h, g, c, blocks[..n], outcomes[..n]);
      SignalsElsewhere(h, g, StartBlock(d, blocks[n], outcomes[n]), blocks[n], outcomes[n], blocks[n].signals, unit, s);
    }
  }

  lemma ElsewhereSplits(g: Group, blocks: seq<Block>, unit: nat, name: string)
    requires blocks != [] && Elsewhere(g, Flatten(blocks), unit, name)
    ensures Elsewhere(g, Flatten(blocks[..|blocks| - 1]), unit, name) && Elsewhere(g, blocks[|blocks| - 1].signals, unit, name)
  {
  }

  /** A cycle of some group. */
  datatype Turn = Turn(group: Group, blocks: seq<Block>, outcomes: seq<Outcome>)

  ghost predicate TurnOk(turn: Turn) { |turn.outcomes| == |turn.blocks| }

  /** Cycles of any groups in any order, on one cache. */
  ghost function MixedRun(h: Host, turns: seq<Turn>): Cycle
    requires forall turn :: turn in turns ==> TurnOk(turn)
  {
    if turns == [] then Cycle(map[], map[], [], 0, 0)
    else
      var turn := turns[|turns| - 1];
      assert TurnOk(turn);
      PollBlocks(h, turn.group, MixedRun(h, turns[..|turns| - 1]).(stats := map[]), turn.blocks, turn.outcomes)
  }

  /** What a signal of a group is read as, in the cycles of that group alone. */
  ghost function OwnReads(h: Host, turns: seq<Turn>, g: Group, s: SignalSpec): seq<Read>
    requires forall turn :: turn in turns ==> TurnOk(turn)
  {
    if turns == [] then []
    else
      var turn := turns[|turns| - 1];
      assert TurnOk(turn);
      OwnReads(h, turns[..|turns| - 1], g, s) + if turn.group == g then CycleReads(h, turn.blocks, turn.outcomes, s) else []
  }

  /** The signal of the group is the only one of its unit and name. */
  ghost predicate OnlyOne(turn: Turn, g: Group, s: SignalSpec) {
    if turn.group == g then NameUnique(Flatten(turn.blocks), s) else Elsewhere(turn.group, Flatten(turn.blocks), g.unit, s.name)
  }

  /** Groups of different units do not affect each other, even with equal names: in any run of cycles of any groups the
      cache entry and the published values of a signal are those its own readings give. */
  lemma {:induction false} UnitsAreIndependent(h: Host, turns: seq<Turn>, g: Group, s: SignalSpec)
    requires forall turn :: turn in turns ==> TurnOk(turn) && OnlyOne(turn, g, s)
    ensures var t, c := Follow(h.platform, g.mode, s.deadband, OwnReads(h, turns, g, s)), MixedRun(h, turns);
      && ((g.unit, s.name) in c.last <==> t.last.Some?) && ((g.unit, s.name) in c.last ==> c.last[(g.unit, s.name)] == t.last.value)
      && ValuesOf(c.offers, g.unit, s) == t.published
    ensures Tracks(h, g, MixedRun(h, turns), s, OwnReads(h, turns, g, s))
  {
    if turns != [] {
      var n := |turns| - 1;
      var turn := turns[n];
      assert turn in turns && TurnOk(turn) && OnlyOne(turn, g, s);
      UnitsAreIndependent(h, turns[..n], g, s);
      var c := MixedRun(h, turns[..n]).(stats := map[]);
      if turn.group == g {
        CycleTracks(h, g, c, turn.blocks, turn.outcomes, s, OwnReads(h, turns[..n], g, s));
      } else {
        CycleElsewhere(h, turn.group, c, turn.blocks, turn.outcomes, g.unit, s);
        assert OwnReads(h, turns[..n], g, s) + [] == OwnReads(h, turns[..n], g, s);
      }
    }
  }

  /** Equal first values of one name on two units are both published. */
  lemma EqualNamesOnTwoUnits(h: Host, one: Group, two: Group, c: Cycle, s: SignalSpec, x: SignalSpec, v: Value)
    requires one.unit != two.unit && s.name == x.name && (two.unit, x.name) !in c.last
    ensures var d := Settle(h, one, c, s.table, s, Ok(v));
      Settle(h, two, d, x.table, x, Ok(v)).offers == d.offers + [Offer(two, x, Sample(Some(v)))]
  {
  }
}

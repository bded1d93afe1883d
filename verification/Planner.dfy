/** The read planner: coalesce in modbus_adapter/poll_manager.py. */
module Planner {
  import opened Values
  import opened Signals

  datatype Block = Block(table: Table, start: int, end: int, signals: seq<SignalSpec>) {
    function Length(): int { end - start }
  }

  // ---- grouping and sorting ----

  function OnTable(signals: seq<SignalSpec>, t: Table): seq<SignalSpec> {
    if signals == [] then []
    else
      var s := signals[|signals| - 1];
      OnTable(signals[..|signals| - 1], t) + if s.table == t then [s] else []
  }

  /** The tables in order of first appearance: the key order of the grouping dictionary. */
  function Tables(signals: seq<SignalSpec>): seq<Table> {
    if signals == [] then []
    else
      var before, t := Tables(signals[..|signals| - 1]), signals[|signals| - 1].table;
      if t in before then before else before + [t]
  }

  /** Stable insertion behind every signal of the same or a lower address. */
  function Insert(sorted: seq<SignalSpec>, s: SignalSpec): seq<SignalSpec> {
    if sorted == [] || sorted[|sorted| - 1].address <= s.address then sorted + [s]
    else Insert(sorted[..|sorted| - 1], s) + [sorted[|sorted| - 1]]
  }

  /** sorted(signals, key=address). */
  function SortByAddress(signals: seq<SignalSpec>): seq<SignalSpec> {
    if signals == [] then [] else Insert(SortByAddress(signals[..|signals| - 1]), signals[|signals| - 1])
  }

  predicate Sorted(s: seq<SignalSpec>) {
    forall i, j :: 0 <= i < j < |s| ==> s[i].address <= s[j].address
  }

  // ---- the greedy plan ----

  predicate Fits(b: Block, s: SignalSpec, maxGap: int) {
    s.address <= b.end + maxGap && End(s) - b.start <= Cap(b.table)
  }

  function Open(s: SignalSpec): Block { Block(s.table, s.address, End(s), [s]) }

  function Absorb(b: Block, s: SignalSpec): Block { b.(end := Max(b.end, End(s)), signals := b.signals + [s]) }

  function Extend(blocks: seq<Block>, s: SignalSpec, maxGap: int): (r: seq<Block>)
    ensures r != []
  {
    if blocks != [] && Fits(blocks[|blocks| - 1], s, maxGap)
    then blocks[..|blocks| - 1] + [Absorb(blocks[|blocks| - 1], s)]
    else blocks + [Open(s)]
  }

  /** The blocks of one table, from its signals in address order. */
  function Plan(sorted: seq<SignalSpec>, maxGap: int): seq<Block> {
    if sorted == [] then [] else Extend(Plan(sorted[..|sorted| - 1], maxGap), sorted[|sorted| - 1], maxGap)
  }

  function PlanTable(signals: seq<SignalSpec>, t: Table, maxGap: int): seq<Block> {
    Plan(SortByAddress(OnTable(signals, t)), maxGap)
  }

  function PlanTables(signals: seq<SignalSpec>, tables: seq<Table>, maxGap: int): seq<Block> {
    if tables == [] then []
    else PlanTables(signals, tables[..|tables| - 1], maxGap)
         + PlanTable(signals, tables[|tables| - 1], maxGap)
  }

  function Coalesced(signals: seq<SignalSpec>, maxGap: int): seq<Block> {
    PlanTables(signals, Tables(signals), maxGap)
  }

  // ---- the loops ----

  method GroupByTable(signals: seq<SignalSpec>) returns (tables: seq<Table>, byTable: map<Table, seq<SignalSpec>>)
    ensures tables == Tables(signals)
    ensures forall t :: t in tables ==> t in byTable && byTable[t] == OnTable(signals, t)
  {
    tables, byTable := [], map[];
    for i := 0 to |signals|
      invariant tables == Tables(signals[..i])
      invariant forall t :: t in tables <==> t in byTable
      invariant forall t :: t in tables ==> byTable[t] == OnTable(signals[..i], t)
      invariant forall t :: t !in tables ==> OnTable(signals[..i], t) == []
    {
      var s := signals[i];
      GroupStep(signals, i);
      if s.table in byTable {
        byTable := byTable[s.table := byTable[s.table] + [s]];
      } else {
        tables := tables + [s.table];
        byTable := byTable[s.table := [s]];
      }
    }
    assert signals[..|signals|] == signals;
  }

  lemma GroupStep(signals: seq<SignalSpec>, i: nat)
    requires i < |signals|
    ensures Tables(signals[..i + 1])
      == if signals[i].table in Tables(signals[..i]) then Tables(signals[..i]) else Tables(signals[..i]) + [signals[i].table]
    ensures forall t :: OnTable(signals[..i + 1], t) == OnTable(signals[..i], t) + if signals[i].table == t then [signals[i]] else []
  {
    assert signals[..i + 1][..i] == signals[..i];
  }

  /** One table: `cur` is the block still open. */
  method CoalesceTable(sorted: seq<SignalSpec>, maxGap: int) returns (blocks: seq<Block>)
    ensures blocks == Plan(sorted, maxGap)
  {
    blocks := [];
    var cur: Option<Block> := None;
    for i := 0 to |sorted|
      invariant i == 0 ==> cur == None
      invariant Plan(sorted[..i], maxGap) == blocks + if cur.None? then [] else [cur.value]
      invariant cur.None? ==> blocks == []
    {
      var s := sorted[i];
      assert sorted[..i + 1][..i] == sorted[..i];
      if cur.Some? && s.address <= cur.value.end + maxGap && End(s) - cur.value.start <= Cap(cur.value.table) {
        cur := Some(cur.value.(end := Max(cur.value.end, End(s)), signals := cur.value.signals + [s]));
      } else {
        if cur.Some? {
          blocks := blocks + [cur.value];
        }
        cur := Some(Block(s.table, s.address, End(s), [s]));
      }
    }
    assert sorted[..|sorted|] == sorted;
    if cur.Some? {
      blocks := blocks + [cur.value];
    }
  }

  method Coalesce(signals: seq<SignalSpec>, maxGap: int) returns (blocks: seq<Block>)
    ensures blocks == Coalesced(signals, maxGap)
  {
    var tables, byTable := GroupByTable(signals);
    blocks := [];
    for i := 0 to |tables|
      invariant blocks == PlanTables(signals, tables[..i], maxGap)
    {
      var more := CoalesceTable(SortByAddress(byTable[tables[i]]), maxGap);
      assert tables[..i + 1][..i] == tables[..i];
      blocks := blocks + more;
    }
    assert tables[..|tables|] == tables;
  }

  // ---- facts about sorting ----

  lemma {:induction false} InsertKeeps(sorted: seq<SignalSpec>, s: SignalSpec)
    ensures multiset(Insert(sorted, s)) == multiset(sorted) + multiset{s}
  {
    if !(sorted == [] || sorted[|sorted| - 1].address <= s.address) {
      var init, last := sorted[..|sorted| - 1], sorted[|sorted| - 1];
      InsertKeeps(init, s);
      FrontAndLast(sorted);
    }
  }

  lemma FrontAndLast(signals: seq<SignalSpec>)
    requires signals != []
    ensures multiset(signals) == multiset(signals[..|signals| - 1]) + multiset{signals[|signals| - 1]}
  {
    Snoc(signals, |signals| - 1);
  }

  lemma SortedAppend(sorted: seq<SignalSpec>, s: SignalSpec)
    requires Sorted(sorted) && forall x :: x in sorted ==> x.address <= s.address
    ensures Sorted(sorted + [s])
  {
  }

  lemma LastIsHighest(sorted: seq<SignalSpec>)
    requires Sorted(sorted) && sorted != []
    ensures Sorted(sorted[..|sorted| - 1])
    ensures forall x :: x in sorted[..|sorted| - 1] ==> x.address <= sorted[|sorted| - 1].address
    ensures forall x :: x in sorted ==> x.address <= sorted[|sorted| - 1].address
  {
  }

  lemma {:induction false} InsertSorts(sorted: seq<SignalSpec>, s: SignalSpec)
    requires Sorted(sorted)
    ensures Sorted(Insert(sorted, s)) && multiset(Insert(sorted, s)) == multiset(sorted) + multiset{s}
  {
    InsertKeeps(sorted, s);
    if sorted != [] {
      var init, last := sorted[..|sorted| - 1], sorted[|sorted| - 1];
      LastIsHighest(sorted);
      if last.address <= s.address {
        SortedAppend(sorted, s);
      } else {
        InsertSorts(init, s);
        forall x | x in Insert(init, s) ensures x.address <= last.address {
          assert x in multiset(Insert(init, s)) && (x in multiset(init) || x == s);
        }
        SortedAppend(Insert(init, s), last);
      }
    }
  }

  /** The sort keeps the signals, orders them by address, and keeps ties in input order. */
  lemma {:induction false} SortSorts(signals: seq<SignalSpec>)
    ensures Sorted(SortByAddress(signals)) && multiset(SortByAddress(signals)) == multiset(signals)
  {
    if signals != [] {
      var init := signals[..|signals| - 1];
      SortSorts(init);
      InsertSorts(SortByAddress(init), signals[|signals| - 1]);
      FrontAndLast(signals);
    }
  }

  function AtAddress(signals: seq<SignalSpec>, a: int): seq<SignalSpec> {
    if signals == [] then []
    else
      var s := signals[|signals| - 1];
      AtAddress(signals[..|signals| - 1], a) + if s.address == a then [s] else []
  }

  lemma {:induction false} InsertIsStable(sorted: seq<SignalSpec>, s: SignalSpec, a: int)
    requires Sorted(sorted)
    ensures AtAddress(Insert(sorted, s), a) == AtAddress(sorted, a) + if s.address == a then [s] else []
  {
    var r := Insert(sorted, s);
    assert r != [];
    if sorted == [] || sorted[|sorted| - 1].address <= s.address {
      assert r[..|r| - 1] == sorted;
    } else {
      var init, last := sorted[..|sorted| - 1], sorted[|sorted| - 1];
      assert r[..|r| - 1] == Insert(init, s) && r[|r| - 1] == last;
      InsertIsStable(init, s, a);
      if last.address == a {
        // the inserted signal is below `last`, so it is not at address a
        assert s.address != a;
      }
    }
  }

  lemma {:induction false} SortIsStable(signals: seq<SignalSpec>, a: int)
    ensures AtAddress(SortByAddress(signals), a) == AtAddress(signals, a)
  {
    if signals != [] {
      var init := signals[..|signals| - 1];
      SortIsStable(init, a);
      SortSorts(init);
      InsertIsStable(SortByAddress(init), signals[|signals| - 1], a);
    }
  }

  lemma {:induction false} OnTableMembers(signals: seq<SignalSpec>, t: Table)
    ensures forall s :: s in OnTable(signals, t) <==> s in signals && s.table == t
  {
    if signals != [] {
      OnTableMembers(signals[..|signals| - 1], t);
      assert signals == signals[..|signals| - 1] + [signals[|signals| - 1]];
    }
  }

  // ---- soundness ----

  function Flatten(blocks: seq<Block>): seq<SignalSpec> {
    if blocks == [] then [] else Flatten(blocks[..|blocks| - 1]) + blocks[|blocks| - 1].signals
  }

  /** The signals fit a request of their table one by one. */
  ghost predicate Requestable(signals: seq<SignalSpec>) {
    forall s :: s in signals ==> 1 <= UnitLength(s) <= Cap(s.table)
  }

  /** The signals of one table do. */
  ghost predicate RequestableOn(signals: seq<SignalSpec>, t: Table) {
    forall s :: s in signals && s.table == t ==> 1 <= UnitLength(s) <= Cap(t)
  }

  /** Every window of more than maxGap units inside the span of the set touches one of its signals. */
  ghost predicate NoWideHole(g: set<SignalSpec>, maxGap: int) {
    forall a: int, x, y :: x in g && y in g && x.address <= a && a + maxGap + 1 <= End(y) ==> Touched(g, a, maxGap)
  }

  ghost predicate Touched(g: set<SignalSpec>, a: int, maxGap: int) {
    exists u :: u in g && u.address < a + maxGap + 1 && a < End(u)
  }

  /** A set of signals one request may read together. */
  ghost predicate Legal(g: set<SignalSpec>, t: Table, maxGap: int) {
    && (forall x :: x in g ==> x.table == t)
    && (forall x, y :: x in g && y in g ==> End(y) - x.address <= Cap(t))
    && NoWideHole(g, maxGap)
  }

  ghost function Members(b: Block): set<SignalSpec> { set s | s in b.signals }

  /** A block is what its signals make it: bounds attained, address order, one legal request. */
  ghost predicate BlockOk(b: Block, maxGap: int) {
    && b.signals != [] && Sorted(b.signals)
    && b.start == b.signals[0].address
    && (forall s :: s in b.signals ==> b.start <= s.address && End(s) <= b.end)
    && (exists s :: s in b.signals && End(s) == b.end)
    && b.end - b.start <= Cap(b.table)
    && Legal(Members(b), b.table, maxGap)
  }

  lemma OpenOk(s: SignalSpec, maxGap: int)
    requires 1 <= UnitLength(s) <= Cap(s.table) && maxGap >= 0
    ensures BlockOk(Open(s), maxGap)
  {
    assert s in Open(s).signals;
    forall a: int, x, y | x in Members(Open(s)) && y in Members(Open(s)) && x.address <= a && a + maxGap + 1 <= End(y)
      ensures Touched(Members(Open(s)), a, maxGap)
    {
    }
  }

  lemma AbsorbOk(b: Block, s: SignalSpec, maxGap: int)
    requires BlockOk(b, maxGap) && Fits(b, s, maxGap) && maxGap >= 0
    requires s.table == b.table && UnitLength(s) >= 1
    requires forall x :: x in b.signals ==> x.address <= s.address && UnitLength(x) >= 1
    ensures BlockOk(Absorb(b, s), maxGap)
  {
    SortedAppend(b.signals, s);
    AbsorbLegal(b, s, maxGap);
    AbsorbBounds(b, s, maxGap);
    AbsorbInside(b, s);
  }

  lemma AbsorbInside(b: Block, s: SignalSpec)
    requires b.signals != [] && b.start == b.signals[0].address && UnitLength(s) >= 1
    requires forall x :: x in b.signals ==> b.start <= x.address && End(x) <= b.end
    requires forall x :: x in b.signals ==> x.address <= s.address
    ensures forall x :: x in Absorb(b, s).signals ==> b.start <= x.address && End(x) <= Absorb(b, s).end
    ensures Absorb(b, s).start == Absorb(b, s).signals[0].address
  {
    assert b.signals[0] in b.signals;
  }

  lemma AbsorbBounds(b: Block, s: SignalSpec, maxGap: int)
    requires b.signals != [] && (exists x :: x in b.signals && End(x) == b.end)
    requires Fits(b, s, maxGap) && b.end - b.start <= Cap(b.table)
    ensures exists x :: x in Absorb(b, s).signals && End(x) == Absorb(b, s).end
    ensures Absorb(b, s).end - b.start <= Cap(b.table)
  {
    var last :| last in b.signals && End(last) == b.end;
    assert last in Absorb(b, s).signals && s in Absorb(b, s).signals;
  }

  lemma AbsorbLegal(b: Block, s: SignalSpec, maxGap: int)
    requires BlockOk(b, maxGap) && Fits(b, s, maxGap) && maxGap >= 0
    requires s.table == b.table && UnitLength(s) >= 1
    requires forall x :: x in b.signals ==> x.address <= s.address && UnitLength(x) >= 1
    ensures Legal(Members(b) + {s}, b.table, maxGap)
    ensures Members(Absorb(b, s)) == Members(b) + {s}
  {
    var g := Members(b) + {s};
    var last :| last in b.signals && End(last) == b.end;
    assert b.signals[0] in b.signals && last in Members(b);
    forall a: int, x, y | x in g && y in g && x.address <= a && a + maxGap + 1 <= End(y)
      ensures Touched(g, a, maxGap)
    {
      if a + maxGap + 1 <= b.end {
        WindowInside(b, s, a, maxGap);
      } else if a < b.end {
        assert last in g && last.address < b.end;
      } else {
        assert s in g && s.address < a + maxGap + 1 && y == s;
      }
    }
  }

  /** A window inside the old block is touched by one of its signals. */
  lemma WindowInside(b: Block, s: SignalSpec, a: int, maxGap: int)
    requires BlockOk(b, maxGap) && b.start <= a && a + maxGap + 1 <= b.end
    ensures Touched(Members(b) + {s}, a, maxGap)
  {
    var last :| last in b.signals && End(last) == b.end;
    assert b.signals[0] in Members(b) && last in Members(b);
    assert Touched(Members(b), a, maxGap);
    var u :| u in Members(b) && u.address < a + maxGap + 1 && a < End(u);
    assert u in Members(b) + {s};
  }

  /** What makes two signals impossible to read together, whatever other signals of the table join
      them: too long a span, or a hole wider than maxGap that no signal bridges. */
  ghost predicate Apart(x: SignalSpec, y: SignalSpec, signals: seq<SignalSpec>, maxGap: int) {
    || End(y) - x.address > Cap(x.table)
    || exists m: int :: Gap(m, x, y, signals, maxGap)
  }

  ghost predicate Gap(m: int, x: SignalSpec, y: SignalSpec, signals: seq<SignalSpec>, maxGap: int) {
    && End(x) <= m && m + maxGap < y.address
    && forall u :: u in signals ==> End(u) <= m || m + maxGap < u.address
  }

  /** Everything the planner keeps true while it walks the sorted signals. */
  ghost predicate PlanOk(blocks: seq<Block>, t: Table, seen: seq<SignalSpec>, maxGap: int) {
    && Flatten(blocks) == seen
    && BlocksOk(blocks, t, maxGap)
    && Increasing(blocks)
    && (blocks != [] ==> forall u :: u in seen ==> End(u) <= blocks[|blocks| - 1].end)
    && AllApart(Heads(blocks), seen, maxGap)
  }

  ghost predicate BlocksOk(blocks: seq<Block>, t: Table, maxGap: int) {
    forall b :: b in blocks ==> b.table == t && BlockOk(b, maxGap)
  }

  ghost predicate Increasing(blocks: seq<Block>) {
    forall i, j :: 0 <= i < j < |blocks| ==> blocks[i].start < blocks[j].start
  }

  lemma BlocksOkAppend(blocks: seq<Block>, b: Block, t: Table, maxGap: int)
    requires BlocksOk(blocks, t, maxGap) && b.table == t && BlockOk(b, maxGap)
    ensures BlocksOk(blocks + [b], t, maxGap)
    ensures blocks != [] ==> BlocksOk(blocks[..|blocks| - 1] + [b], t, maxGap)
  {
  }

  /** The signals that opened the blocks. */
  ghost function Heads(blocks: seq<Block>): (heads: seq<SignalSpec>)
    requires forall b :: b in blocks ==> b.signals != []
    ensures |heads| == |blocks| && forall i :: 0 <= i < |blocks| ==> heads[i] == blocks[i].signals[0]
  {
    seq(|blocks|, i requires 0 <= i < |blocks| => blocks[i].signals[0])
  }

  ghost predicate AllApart(heads: seq<SignalSpec>, seen: seq<SignalSpec>, maxGap: int) {
    && (forall h :: h in heads ==> h in seen)
    && forall i, j :: 0 <= i < j < |heads| ==> Apart(heads[i], heads[j], seen, maxGap)
  }

  lemma {:induction false} PlanIsOk(sorted: seq<SignalSpec>, t: Table, maxGap: int)
    requires Sorted(sorted) && Requestable(sorted) && maxGap >= 0
    requires forall s :: s in sorted ==> s.table == t
    ensures PlanOk(Plan(sorted, maxGap), t, sorted, maxGap)
  {
    if sorted != [] {
      var init, s := sorted[..|sorted| - 1], sorted[|sorted| - 1];
      assert sorted == init + [s];
      assert s in sorted && forall x :: x in init ==> x in sorted;
      assert Sorted(init);
      PlanIsOk(init, t, maxGap);
      forall x | x in init ensures x.address <= s.address { var i :| 0 <= i < |init| && init[i] == x; }
      ExtendOk(Plan(init, maxGap), t, init, s, maxGap);
    }
  }

  lemma ExtendOk(blocks: seq<Block>, t: Table, seen: seq<SignalSpec>, s: SignalSpec, maxGap: int)
    requires PlanOk(blocks, t, seen, maxGap) && maxGap >= 0
    requires Requestable(seen + [s]) && s.table == t
    requires forall x :: x in seen ==> x.address <= s.address
    ensures PlanOk(Extend(blocks, s, maxGap), t, seen + [s], maxGap)
  {
    assert forall x :: x in seen + [s] <==> x in seen || x == s;
    FlattenMembers(blocks);
    if blocks != [] && Fits(blocks[|blocks| - 1], s, maxGap) {
      AbsorbKeepsPlan(blocks, t, seen, s, maxGap);
    } else {
      OpenKeepsPlan(blocks, t, seen, s, maxGap);
    }
  }

  lemma IncreasingAppend(blocks: seq<Block>, b: Block)
    requires Increasing(blocks) && (blocks != [] ==> blocks[|blocks| - 1].start < b.start)
    ensures Increasing(blocks + [b])
  {
  }

  lemma IncreasingReplace(blocks: seq<Block>, b: Block)
    requires Increasing(blocks) && blocks != [] && blocks[|blocks| - 1].start == b.start
    ensures Increasing(blocks[..|blocks| - 1] + [b])
  {
  }

  lemma ApartAppend(heads: seq<SignalSpec>, seen: seq<SignalSpec>, s: SignalSpec, maxGap: int)
    requires AllApart(heads, seen, maxGap) && s in seen
    requires forall i :: 0 <= i < |heads| ==> Apart(heads[i], s, seen, maxGap)
    ensures AllApart(heads + [s], seen, maxGap)
  {
  }

  lemma HeadsAppend(blocks: seq<Block>, b: Block)
    requires (forall c :: c in blocks ==> c.signals != []) && b.signals != []
    ensures forall c :: c in blocks + [b] ==> c.signals != []
    ensures Heads(blocks + [b]) == Heads(blocks) + [b.signals[0]]
  {
  }

  lemma HeadsReplace(blocks: seq<Block>, b: Block)
    requires (forall c :: c in blocks ==> c.signals != []) && blocks != [] && b.signals != []
    requires b.signals[0] == blocks[|blocks| - 1].signals[0]
    ensures forall c :: c in blocks[..|blocks| - 1] + [b] ==> c.signals != []
    ensures Heads(blocks[..|blocks| - 1] + [b]) == Heads(blocks)
  {
  }

  lemma AbsorbKeepsPlan(blocks: seq<Block>, t: Table, seen: seq<SignalSpec>, s: SignalSpec, maxGap: int)
    requires PlanOk(blocks, t, seen, maxGap) && maxGap >= 0 && blocks != []
    requires Fits(blocks[|blocks| - 1], s, maxGap) && UnitLength(s) >= 1 && s.table == t
    requires forall x :: x in seen ==> x.address <= s.address && UnitLength(x) >= 1
    ensures PlanOk(Extend(blocks, s, maxGap), t, seen + [s], maxGap)
  {
    var last := blocks[|blocks| - 1];
    var b := Absorb(last, s);
    assert last in blocks && BlockOk(last, maxGap);
    FlattenMembers(blocks);
    AbsorbOk(last, s, maxGap);
    FlattenExtend(blocks, s, maxGap);
    BlocksOkAppend(blocks, b, t, maxGap);
    IncreasingReplace(blocks, b);
    HeadsReplace(blocks, b);
    ApartGrows(Heads(blocks), seen, s, maxGap);
    EndsGrow(seen, s, last.end, b.end);
  }

  lemma EndsGrow(seen: seq<SignalSpec>, s: SignalSpec, end: int, more: int)
    requires (forall u :: u in seen ==> End(u) <= end) && end <= more && End(s) <= more
    ensures forall u :: u in seen + [s] ==> End(u) <= more
  {
  }

  lemma OpenKeepsPlan(blocks: seq<Block>, t: Table, seen: seq<SignalSpec>, s: SignalSpec, maxGap: int)
    requires PlanOk(blocks, t, seen, maxGap) && maxGap >= 0
    requires blocks != [] ==> !Fits(blocks[|blocks| - 1], s, maxGap)
    requires 1 <= UnitLength(s) <= Cap(t) && s.table == t
    requires forall x :: x in seen ==> x.address <= s.address && UnitLength(x) >= 1
    ensures PlanOk(Extend(blocks, s, maxGap), t, seen + [s], maxGap)
  {
    OpenOk(s, maxGap);
    FlattenExtend(blocks, s, maxGap);
    BlocksOkAppend(blocks, Open(s), t, maxGap);
    HeadsAppend(blocks, Open(s));
    ApartGrows(Heads(blocks), seen, s, maxGap);
    if blocks == [] {
      EmptySeen(blocks, seen);
    } else {
      var last := blocks[|blocks| - 1];
      assert last in blocks && BlockOk(last, maxGap);
      FlattenMembers(blocks);
      LastStartBelow(last, s, maxGap);
      EndsGrow(seen, s, last.end, End(s));
      HeadsApart(blocks, t, seen, s, maxGap);
    }
    ApartAppend(Heads(blocks), seen + [s], s, maxGap);
    IncreasingAppend(blocks, Open(s));
  }

  lemma EmptySeen(blocks: seq<Block>, seen: seq<SignalSpec>)
    requires Flatten(blocks) == seen && blocks == []
    ensures seen == []
  {
  }

  lemma HeadsApart(blocks: seq<Block>, t: Table, seen: seq<SignalSpec>, s: SignalSpec, maxGap: int)
    requires blocks != [] && BlocksOk(blocks, t, maxGap) && Increasing(blocks)
    requires forall u :: u in seen ==> End(u) <= blocks[|blocks| - 1].end
    requires AllApart(Heads(blocks), seen, maxGap) && !Fits(blocks[|blocks| - 1], s, maxGap)
    ensures forall i :: 0 <= i < |blocks| ==> Apart(Heads(blocks)[i], s, seen + [s], maxGap)
  {
    forall i | 0 <= i < |blocks| ensures Apart(Heads(blocks)[i], s, seen + [s], maxGap) {
      assert Heads(blocks)[i] in seen && BlockOk(blocks[i], maxGap);
      HeadAtStart(blocks, i, t, maxGap);
      NewHeadApart(blocks[|blocks| - 1], Heads(blocks)[i], seen, s, maxGap);
    }
  }

  lemma HeadAtStart(blocks: seq<Block>, i: nat, t: Table, maxGap: int)
    requires i < |blocks| && BlocksOk(blocks, t, maxGap) && Increasing(blocks)
    ensures Heads(blocks)[i].address <= blocks[|blocks| - 1].start && Heads(blocks)[i].table == t
    ensures blocks[|blocks| - 1].table == t
  {
    assert blocks[i] in blocks && blocks[|blocks| - 1] in blocks;
    assert BlockOk(blocks[i], maxGap);
    assert blocks[i].signals[0] in Members(blocks[i]);
  }

  lemma LastStartBelow(last: Block, s: SignalSpec, maxGap: int)
    requires BlockOk(last, maxGap) && !Fits(last, s, maxGap) && maxGap >= 0
    requires 1 <= UnitLength(s) <= Cap(last.table) && UnitLength(last.signals[0]) >= 1
    ensures last.start < s.address && last.end < End(s)
  {
    assert last.signals[0] in last.signals;
  }

  lemma ApartGrows(heads: seq<SignalSpec>, seen: seq<SignalSpec>, s: SignalSpec, maxGap: int)
    requires AllApart(heads, seen, maxGap) && forall x :: x in seen ==> x.address <= s.address
    ensures AllApart(heads, seen + [s], maxGap)
  {
    forall i, j | 0 <= i < j < |heads| ensures Apart(heads[i], heads[j], seen + [s], maxGap) {
      var x, y := heads[i], heads[j];
      assert y in seen;
      if End(y) - x.address <= Cap(x.table) {
        var m: int :| Gap(m, x, y, seen, maxGap);
        assert Gap(m, x, y, seen + [s], maxGap);
      }
    }
  }

  /** At a block break the new signal cannot be read together with any earlier head. */
  lemma NewHeadApart(last: Block, head: SignalSpec, seen: seq<SignalSpec>, s: SignalSpec, maxGap: int)
    requires !Fits(last, s, maxGap) && head in seen && head.table == last.table && head.address <= last.start
    requires forall u :: u in seen ==> End(u) <= last.end
    ensures Apart(head, s, seen + [s], maxGap)
  {
    if s.address > last.end + maxGap {
      assert Gap(last.end, head, s, seen + [s], maxGap);
    }
  }

  lemma {:induction false} FlattenMembers(blocks: seq<Block>)
    ensures forall i, s :: 0 <= i < |blocks| && s in blocks[i].signals ==> s in Flatten(blocks)
    ensures forall s :: s in Flatten(blocks) ==> exists i :: 0 <= i < |blocks| && s in blocks[i].signals
  {
    if blocks != [] {
      var init := blocks[..|blocks| - 1];
      FlattenMembers(init);
      forall s | s in Flatten(blocks) ensures exists i :: 0 <= i < |blocks| && s in blocks[i].signals {
        if s in Flatten(init) {
          var i :| 0 <= i < |init| && s in init[i].signals;
          assert s in blocks[i].signals;
        }
      }
    }
  }

  // ---- optimality ----

  /** The groups hold every signal of the table, and each could be one request. Groups need not be
      contiguous and may overlap. */
  ghost predicate LegalGrouping(groups: seq<set<SignalSpec>>, signals: seq<SignalSpec>, t: Table, maxGap: int) {
    && (forall s :: s in signals && s.table == t ==> Held(s, groups))
    && (forall g :: g in groups ==> Legal(g, t, maxGap) && forall s :: s in g ==> s in signals)
  }

  ghost predicate Held(s: SignalSpec, groups: seq<set<SignalSpec>>) {
    exists i :: 0 <= i < |groups| && s in groups[i]
  }

  lemma ApartNeverTogether(x: SignalSpec, y: SignalSpec, signals: seq<SignalSpec>, g: set<SignalSpec>, t: Table, maxGap: int)
    requires Apart(x, y, signals, maxGap) && x.table == t && UnitLength(x) >= 1 && UnitLength(y) >= 1
    requires Legal(g, t, maxGap) && forall s :: s in g ==> s in signals
    ensures !(x in g && y in g)
  {
    if x in g && y in g && End(y) - x.address <= Cap(t) {
      var m: int :| Gap(m, x, y, signals, maxGap);
      GapUntouched(m, x, y, signals, g, maxGap);
    }
  }

  lemma GapUntouched(m: int, x: SignalSpec, y: SignalSpec, signals: seq<SignalSpec>, g: set<SignalSpec>, maxGap: int)
    requires Gap(m, x, y, signals, maxGap) && forall s :: s in g ==> s in signals
    ensures !Touched(g, m, maxGap)
  {
  }

  lemma {:induction false} SetBound(s: set<nat>, n: nat)
    requires forall x :: x in s ==> x < n
    ensures |s| <= n
  {
    if n == 0 {
      assert s == {};
    } else {
      SetBound(s - {n - 1}, n - 1);
    }
  }

  lemma Pigeonhole(holes: seq<nat>, n: nat)
    requires forall i :: 0 <= i < |holes| ==> holes[i] < n
    requires forall i, j :: 0 <= i < j < |holes| ==> holes[i] != holes[j]
    ensures |holes| <= n
  {
    DistinctSize(holes);
    SetBound(Range(holes), n);
  }

  ghost function Range(holes: seq<nat>): set<nat> { set h | h in holes }

  lemma {:induction false} DistinctSize(holes: seq<nat>)
    requires forall i, j :: 0 <= i < j < |holes| ==> holes[i] != holes[j]
    ensures |Range(holes)| == |holes|
  {
    if holes != [] {
      var init, last := holes[..|holes| - 1], holes[|holes| - 1];
      DistinctSize(init);
      assert last !in Range(init);
      assert Range(holes) == Range(init) + {last};
    }
  }

  /** A group for each block head. */
  lemma {:induction false} HeadHoles(heads: seq<SignalSpec>, groups: seq<set<SignalSpec>>) returns (holes: seq<nat>)
    requires forall h :: h in heads ==> Held(h, groups)
    ensures |holes| == |heads|
    ensures forall i :: 0 <= i < |heads| ==> holes[i] < |groups| && heads[i] in groups[holes[i]]
  {
    holes := [];
    for n := 0 to |heads|
      invariant |holes| == n
      invariant forall i :: 0 <= i < n ==> holes[i] < |groups| && heads[i] in groups[holes[i]]
    {
      assert Held(heads[n], groups);
      var k :| 0 <= k < |groups| && heads[n] in groups[k];
      holes := holes + [k];
    }
  }

  /** The planner of one table is sound: it keeps every signal once and in address order, and each
      block is one legal request. */
  lemma TablePlanSound(signals: seq<SignalSpec>, t: Table, maxGap: int)
    requires RequestableOn(signals, t) && maxGap >= 0
    ensures PlanOk(PlanTable(signals, t, maxGap), t, SortByAddress(OnTable(signals, t)), maxGap)
  {
    SortSorts(OnTable(signals, t));
    OnTableMembers(signals, t);
    var sorted := SortByAddress(OnTable(signals, t));
    forall s | s in sorted ensures s in signals && s.table == t { assert s in multiset(sorted); }
    PlanIsOk(sorted, t, maxGap);
  }

  /** The fewest reads: no legal grouping of the signals of a table has fewer groups than the planner
      has blocks. */
  lemma PlanIsOptimal(signals: seq<SignalSpec>, t: Table, maxGap: int, groups: seq<set<SignalSpec>>)
    requires maxGap >= 0 && LegalGrouping(groups, signals, t, maxGap)
    requires forall s :: s in signals && s.table == t ==> UnitLength(s) >= 1
    ensures |PlanTable(signals, t, maxGap)| <= |groups|
  {
    GroupedRequestable(signals, t, maxGap, groups);
    var sorted := SortByAddress(OnTable(signals, t));
    TablePlanSound(signals, t, maxGap);
    TableMembers(signals, t);
    ApartNeedsGroups(Heads(PlanTable(signals, t, maxGap)), sorted, t, maxGap, groups);
  }

  /** Signals that can be grouped at all fit a request one by one. */
  lemma GroupedRequestable(signals: seq<SignalSpec>, t: Table, maxGap: int, groups: seq<set<SignalSpec>>)
    requires LegalGrouping(groups, signals, t, maxGap)
    requires forall s :: s in signals && s.table == t ==> UnitLength(s) >= 1
    ensures RequestableOn(signals, t)
  {
    forall s | s in signals && s.table == t ensures UnitLength(s) <= Cap(t) {
      assert Held(s, groups);
      var i :| 0 <= i < |groups| && s in groups[i];
      assert groups[i] in groups && Legal(groups[i], t, maxGap);
    }
  }

  /** Pairwise unreadable signals need a group each. */
  lemma ApartNeedsGroups(heads: seq<SignalSpec>, signals: seq<SignalSpec>, t: Table, maxGap: int, groups: seq<set<SignalSpec>>)
    requires AllApart(heads, signals, maxGap) && LegalGrouping(groups, signals, t, maxGap)
    requires forall s :: s in signals ==> s.table == t && UnitLength(s) >= 1
    ensures |heads| <= |groups|
  {
    var holes := HeadHoles(heads, groups);
    forall i, j | 0 <= i < j < |holes| ensures holes[i] != holes[j] {
      assert heads[i] in signals && heads[j] in signals;
      ApartNeverTogether(heads[i], heads[j], signals, groups[holes[i]], t, maxGap);
    }
    Pigeonhole(holes, |groups|);
  }

  lemma TableMembers(signals: seq<SignalSpec>, t: Table)
    ensures forall s :: s in SortByAddress(OnTable(signals, t)) <==> s in signals && s.table == t
  {
    var onTable := OnTable(signals, t);
    SortSorts(onTable);
    OnTableMembers(signals, t);
    forall s ensures s in SortByAddress(onTable) <==> s in onTable {
      assert s in multiset(SortByAddress(onTable)) <==> s in multiset(onTable);
    }
  }

  ghost function Groups(blocks: seq<Block>): (groups: seq<set<SignalSpec>>)
    ensures |groups| == |blocks| && forall i :: 0 <= i < |blocks| ==> groups[i] == Members(blocks[i])
  {
    seq(|blocks|, i requires 0 <= i < |blocks| => Members(blocks[i]))
  }

  /** The plan is itself a legal grouping, so its size is the least there is. */
  lemma PlanIsLegalGrouping(signals: seq<SignalSpec>, t: Table, maxGap: int)
    requires RequestableOn(signals, t) && maxGap >= 0
    ensures LegalGrouping(Groups(PlanTable(signals, t, maxGap)), signals, t, maxGap)
  {
    TablePlanSound(signals, t, maxGap);
    TableMembers(signals, t);
    PlanCovers(PlanTable(signals, t, maxGap), signals, t, SortByAddress(OnTable(signals, t)), maxGap);
  }

  lemma PlanCovers(blocks: seq<Block>, signals: seq<SignalSpec>, t: Table, sorted: seq<SignalSpec>, maxGap: int)
    requires Flatten(blocks) == sorted && BlocksOk(blocks, t, maxGap)
    requires forall s :: s in sorted <==> s in signals && s.table == t
    ensures LegalGrouping(Groups(blocks), signals, t, maxGap)
  {
    forall s | s in signals && s.table == t ensures Held(s, Groups(blocks)) { FlattenHeld(s, blocks); }
    forall g | g in Groups(blocks) ensures Legal(g, t, maxGap) && forall s :: s in g ==> s in signals {
      var b := GroupBlock(g, blocks);
      FlattenMembers(blocks);
    }
  }

  lemma FlattenHeld(s: SignalSpec, blocks: seq<Block>)
    requires s in Flatten(blocks)
    ensures Held(s, Groups(blocks))
  {
    FlattenMembers(blocks);
    var i :| 0 <= i < |blocks| && s in blocks[i].signals;
    assert s in Groups(blocks)[i];
  }

  lemma GroupBlock(g: set<SignalSpec>, blocks: seq<Block>) returns (b: Block)
    requires g in Groups(blocks)
    ensures b in blocks && g == Members(b)
  {
    var i :| 0 <= i < |blocks| && Groups(blocks)[i] == g;
    b := blocks[i];
  }

  /** The block count of a table depends on which signals there are, not on their order. */
  lemma TableCountIgnoresOrder(a: seq<SignalSpec>, b: seq<SignalSpec>, t: Table, maxGap: int)
    requires multiset(a) == multiset(b) && RequestableOn(a, t) && maxGap >= 0
    ensures |PlanTable(a, t, maxGap)| == |PlanTable(b, t, maxGap)|
  {
    assert forall s :: s in a <==> s in b by {
      assert forall s :: s in a <==> s in multiset(a);
      assert forall s :: s in b <==> s in multiset(b);
    }
    PlanIsLegalGrouping(a, t, maxGap);
    PlanIsLegalGrouping(b, t, maxGap);
    PlanIsOptimal(a, t, maxGap, Groups(PlanTable(b, t, maxGap)));
    PlanIsOptimal(b, t, maxGap, Groups(PlanTable(a, t, maxGap)));
  }

  // ---- the whole plan ----

  function BlocksOn(blocks: seq<Block>, t: Table): seq<Block> {
    if blocks == [] then []
    else
      var b := blocks[|blocks| - 1];
      BlocksOn(blocks[..|blocks| - 1], t) + if b.table == t then [b] else []
  }

  lemma {:induction false} BlocksOnConcat(xs: seq<Block>, ys: seq<Block>, t: Table)
    ensures BlocksOn(xs + ys, t) == BlocksOn(xs, t) + BlocksOn(ys, t)
  {
    if ys == [] {
      assert xs + ys == xs;
    } else {
      assert (xs + ys)[..|xs + ys| - 1] == xs + ys[..|ys| - 1];
      BlocksOnConcat(xs, ys[..|ys| - 1], t);
    }
  }

  lemma {:induction false} BlocksOnUniform(blocks: seq<Block>, u: Table, t: Table)
    requires forall b :: b in blocks ==> b.table == u
    ensures BlocksOn(blocks, t) == if u == t then blocks else []
  {
    if blocks != [] {
      assert blocks[|blocks| - 1] in blocks;
      BlocksOnUniform(blocks[..|blocks| - 1], u, t);
      if u == t { Rejoin(blocks, BlocksOn(blocks, t)); }
    }
  }

  lemma {:induction false} PlanOnOneTable(sorted: seq<SignalSpec>, t: Table, maxGap: int)
    requires forall s :: s in sorted ==> s.table == t
    ensures forall b :: b in Plan(sorted, maxGap) ==> b.table == t
  {
    if sorted != [] {
      assert sorted[|sorted| - 1] in sorted;
      PlanOnOneTable(sorted[..|sorted| - 1], t, maxGap);
    }
  }

  lemma {:induction false} TablesDistinct(signals: seq<SignalSpec>)
    ensures forall i, j :: 0 <= i < j < |Tables(signals)| ==> Tables(signals)[i] != Tables(signals)[j]
    ensures forall s :: s in signals ==> s.table in Tables(signals)
  {
    if signals != [] {
      TablesDistinct(signals[..|signals| - 1]);
      assert signals == signals[..|signals| - 1] + [signals[|signals| - 1]];
    }
  }

  lemma {:induction false} PlanTablesOn(signals: seq<SignalSpec>, tables: seq<Table>, maxGap: int, t: Table)
    requires forall i, j :: 0 <= i < j < |tables| ==> tables[i] != tables[j]
    ensures BlocksOn(PlanTables(signals, tables, maxGap), t) == if t in tables then PlanTable(signals, t, maxGap) else []
  {
    if tables != [] {
      var init, u := tables[..|tables| - 1], tables[|tables| - 1];
      PlanTablesOn(signals, init, maxGap, t);
      BlocksOnConcat(PlanTables(signals, init, maxGap), PlanTable(signals, u, maxGap), t);
      TableMembers(signals, u);
      PlanOnOneTable(SortByAddress(OnTable(signals, u)), u, maxGap);
      BlocksOnUniform(PlanTable(signals, u, maxGap), u, t);
      InRejoined(tables, t);
    }
  }

  /** The blocks of a table inside the whole plan are the plan of that table. */
  lemma CoalescedOn(signals: seq<SignalSpec>, maxGap: int, t: Table)
    ensures BlocksOn(Coalesced(signals, maxGap), t) == PlanTable(signals, t, maxGap)
  {
    TablesDistinct(signals);
    PlanTablesOn(signals, Tables(signals), maxGap, t);
    if t !in Tables(signals) {
      OnTableMembers(signals, t);
      assert OnTable(signals, t) == [] by {
        if OnTable(signals, t) != [] { assert OnTable(signals, t)[0] in OnTable(signals, t); }
      }
    }
  }

  lemma {:induction false} CountByTable(blocks: seq<Block>)
    ensures |blocks| == |BlocksOn(blocks, Coil)| + |BlocksOn(blocks, Discrete)|
                      + |BlocksOn(blocks, Holding)| + |BlocksOn(blocks, Input)|
  {
    if blocks != [] { CountByTable(blocks[..|blocks| - 1]); }
  }

  /** The number of reads per poll is the same for every order in which the signals are configured. */
  lemma ReadCountIgnoresOrder(a: seq<SignalSpec>, b: seq<SignalSpec>, maxGap: int)
    requires multiset(a) == multiset(b) && Requestable(a) && maxGap >= 0
    ensures |Coalesced(a, maxGap)| == |Coalesced(b, maxGap)|
  {
    CountByTable(Coalesced(a, maxGap));
    CountByTable(Coalesced(b, maxGap));
    forall t: Table
      ensures |BlocksOn(Coalesced(a, maxGap), t)| == |BlocksOn(Coalesced(b, maxGap), t)|
    {
      CoalescedOn(a, maxGap, t);
      CoalescedOn(b, maxGap, t);
      TableCountIgnoresOrder(a, b, t, maxGap);
    }
  }

  // ---- without the length precondition ----

  /** Every signal is planned once, in address order, whatever the signals are. */
  lemma {:induction false} FlattenPlan(sorted: seq<SignalSpec>, maxGap: int)
    ensures Flatten(Plan(sorted, maxGap)) == sorted
  {
    if sorted != [] {
      FlattenPlan(sorted[..|sorted| - 1], maxGap);
      FlattenExtend(Plan(sorted[..|sorted| - 1], maxGap), sorted[|sorted| - 1], maxGap);
      Rejoin(sorted, Flatten(Plan(sorted, maxGap)));
    }
  }

  lemma FlattenAppend(blocks: seq<Block>, b: Block)
    ensures Flatten(blocks + [b]) == Flatten(blocks) + b.signals
  {
    assert (blocks + [b])[..|blocks|] == blocks;
  }

  lemma FlattenExtend(blocks: seq<Block>, s: SignalSpec, maxGap: int)
    ensures Flatten(Extend(blocks, s, maxGap)) == Flatten(blocks) + [s]
  {
    FlattenAppend(blocks, Open(s));
    if blocks != [] { FlattenAppend(blocks[..|blocks| - 1], Absorb(blocks[|blocks| - 1], s)); }
  }

  /** A block longer than the cap is exactly its first signal long, whatever the signals are. */
  lemma {:induction false} OversizeIsFirstSignal(sorted: seq<SignalSpec>, maxGap: int)
    ensures forall b :: b in Plan(sorted, maxGap) ==>
      b.signals != [] && (b.Length() > Cap(b.table) ==> b.Length() == UnitLength(b.signals[0]))
        && b.start == b.signals[0].address
  {
    if sorted != [] { OversizeIsFirstSignal(sorted[..|sorted| - 1], maxGap); }
  }

  /** A block spans its signals. */
  predicate Encloses(b: Block) {
    b.signals != [] && b.start == b.signals[0].address
    && forall s :: s in b.signals ==> b.start <= s.address && End(s) <= b.end
  }

  /** Every block of a plan spans its signals, whatever their lengths and the gap limit are. */
  lemma {:induction false} PlanEncloses(sorted: seq<SignalSpec>, maxGap: int)
    requires Sorted(sorted)
    ensures forall b :: b in Plan(sorted, maxGap) ==> Encloses(b)
  {
    if sorted != [] {
      var init, s := sorted[..|sorted| - 1], sorted[|sorted| - 1];
      LastIsHighest(sorted);
      PlanEncloses(init, maxGap);
      FlattenPlan(init, maxGap);
      FlattenMembers(Plan(init, maxGap));
      ExtendEncloses(Plan(init, maxGap), s, maxGap);
    }
  }

  lemma ExtendEncloses(blocks: seq<Block>, s: SignalSpec, maxGap: int)
    requires forall b :: b in blocks ==> Encloses(b)
    requires forall x :: x in Flatten(blocks) ==> x.address <= s.address
    ensures forall b :: b in Extend(blocks, s, maxGap) ==> Encloses(b)
  {
    if blocks != [] && Fits(blocks[|blocks| - 1], s, maxGap) {
      FlattenMembers(blocks);
      assert blocks[|blocks| - 1] in blocks;
      AbsorbEncloses(blocks[|blocks| - 1], s);
      assert forall b :: b in blocks[..|blocks| - 1] ==> b in blocks;
    } else {
      assert Encloses(Open(s));
    }
  }

  lemma AbsorbEncloses(b: Block, s: SignalSpec)
    requires Encloses(b) && b.signals[0].address <= s.address
    ensures Encloses(Absorb(b, s))
  {
  }

  // ---- the limits in figures ----

  ghost function TableSet(signals: seq<SignalSpec>, t: Table): set<SignalSpec> { set s | s in signals && s.table == t }

  /** One read when one is possible: signals of a table that span at most 2000 bits or 125 registers and leave no hole
      above the gap limit are a single block, the only one of their table in the whole plan. */
  lemma OneReadSuffices(signals: seq<SignalSpec>, t: Table, maxGap: int)
    requires maxGap >= 0 && TableSet(signals, t) != {} && NoWideHole(TableSet(signals, t), maxGap)
    requires forall s :: s in signals && s.table == t ==> UnitLength(s) >= 1
    requires forall x, y :: x in signals && x.table == t && y in signals && y.table == t ==>
      y.address + UnitLength(y) - x.address <= if t == Coil || t == Discrete then 2000 else 125
    ensures |BlocksOn(Coalesced(signals, maxGap), t)| == 1
    ensures Members(BlocksOn(Coalesced(signals, maxGap), t)[0]) == TableSet(signals, t)
  {
    var g := TableSet(signals, t);
    CoalescedOn(signals, maxGap, t);
    forall s | s in signals && s.table == t ensures Held(s, [g]) { assert s in [g][0]; }
    assert Legal(g, t, maxGap);
    PlanIsOptimal(signals, t, maxGap, [g]);
    TableMembers(signals, t);
    FlattenPlan(SortByAddress(OnTable(signals, t)), maxGap);
    OnlyBlock(PlanTable(signals, t, maxGap), SortByAddress(OnTable(signals, t)), g);
  }

  lemma OnlyBlock(blocks: seq<Block>, sorted: seq<SignalSpec>, g: set<SignalSpec>)
    requires |blocks| <= 1 && Flatten(blocks) == sorted && g != {} && forall s :: s in sorted <==> s in g
    ensures |blocks| == 1 && Members(blocks[0]) == g
  {
    var s :| s in g;
    assert s in sorted;
    assert Flatten(blocks[..0]) == [];
    assert Flatten(blocks) == [] + blocks[0].signals;
  }

  lemma {:induction false} BlocksOnHolds(blocks: seq<Block>, b: Block)
    requires b in blocks
    ensures b in BlocksOn(blocks, b.table)
  {
    InRejoined(blocks, b);
    if b != blocks[|blocks| - 1] { BlocksOnHolds(blocks[..|blocks| - 1], b); }
  }

  /** No read of more than 2000 bits or 125 registers, when every signal by itself needs no more. */
  lemma NoReadTooLong(signals: seq<SignalSpec>, maxGap: int, b: Block)
    requires maxGap >= 0 && b in Coalesced(signals, maxGap)
    requires forall s :: s in signals ==>
      1 <= UnitLength(s) <= if s.table == Coil || s.table == Discrete then 2000 else 125
    ensures 1 <= b.end - b.start <= if b.table == Coil || b.table == Discrete then 2000 else 125
  {
    CoalescedOn(signals, maxGap, b.table);
    BlocksOnHolds(Coalesced(signals, maxGap), b);
    TablePlanSound(signals, b.table, maxGap);
    TableMembers(signals, b.table);
    var blocks := PlanTable(signals, b.table, maxGap);
    assert BlockOk(b, maxGap);
    FlattenMembers(blocks);
    assert b.signals[0] in b.signals;
  }

  /** 1500 coils side by side are one read, 126 registers two. */
  lemma LongestReads(coils: seq<SignalSpec>, registers: seq<SignalSpec>, maxGap: int)
    requires maxGap >= 0 && |coils| == 1500 && |registers| == 126
    requires forall i :: 0 <= i < 1500 ==> coils[i].table == Coil && coils[i].address == i
    requires forall i :: 0 <= i < 126 ==>
      registers[i].table == Holding && registers[i].typ == UInt16 && registers[i].address == i
    ensures |BlocksOn(Coalesced(coils, maxGap), Coil)| == 1
    ensures |BlocksOn(Coalesced(registers, maxGap), Holding)| > 1
  {
    var g := TableSet(coils, Coil);
    assert coils[0] in g;
    forall a: int, x, y | x in g && y in g && x.address <= a && a + maxGap + 1 <= End(y)
      ensures Touched(g, a, maxGap)
    {
      assert coils[a] in g;
    }
    OneReadSuffices(coils, Coil, maxGap);
    TooLongForOne(registers, maxGap);
  }

  lemma TooLongForOne(registers: seq<SignalSpec>, maxGap: int)
    requires maxGap >= 0 && |registers| == 126
    requires forall i :: 0 <= i < 126 ==>
      registers[i].table == Holding && registers[i].typ == UInt16 && registers[i].address == i
    ensures |BlocksOn(Coalesced(registers, maxGap), Holding)| > 1
  {
    CoalescedOn(registers, maxGap, Holding);
    forall s | s in registers ensures 1 <= UnitLength(s) <= 125 { var i :| 0 <= i < 126 && registers[i] == s; }
    PlanIsLegalGrouping(registers, Holding, maxGap);
    TwoGroups(Groups(PlanTable(registers, Holding, maxGap)), registers, registers[0], registers[125], maxGap);
  }

  /** Two registers more than 125 apart are never in one group. */
  lemma TwoGroups(groups: seq<set<SignalSpec>>, signals: seq<SignalSpec>, x: SignalSpec, y: SignalSpec, maxGap: int)
    requires LegalGrouping(groups, signals, Holding, maxGap) && x in signals && y in signals
    requires x.table == Holding && y.table == Holding && End(y) - x.address > 125
    ensures |groups| > 1
  {
    assert Held(x, groups) && Held(y, groups);
    var i :| 0 <= i < |groups| && x in groups[i];
    var j :| 0 <= j < |groups| && y in groups[j];
    assert groups[i] in groups && Legal(groups[i], Holding, maxGap);
  }

  // ---- the order of the reads ----

  /** Some signal is on table u before any is on table t. */
  ghost predicate Precedes(signals: seq<SignalSpec>, u: Table, t: Table) {
    exists p :: 0 <= p < |signals| && signals[p].table == u && forall q :: 0 <= q <= p ==> signals[q].table != t
  }

  ghost predicate Mentions(signals: seq<SignalSpec>, t: Table) { exists i :: 0 <= i < |signals| && signals[i].table == t }

  ghost predicate InOrder(signals: seq<SignalSpec>, tables: seq<Table>) {
    && (forall t :: t in tables <==> Mentions(signals, t))
    && forall i, j :: 0 <= i < j < |tables| ==> Precedes(signals, tables[i], tables[j])
  }

  /** The tables read are those mentioned, in order of first mention. */
  lemma {:induction false} TablesInOrder(signals: seq<SignalSpec>)
    ensures InOrder(signals, Tables(signals))
  {
    if signals != [] {
      TablesInOrder(signals[..|signals| - 1]);
      OrderGrows(signals[..|signals| - 1], signals[|signals| - 1], Tables(signals[..|signals| - 1]));
      Snoc(signals, |signals| - 1);
    }
  }

  lemma OrderGrows(signals: seq<SignalSpec>, s: SignalSpec, tables: seq<Table>)
    requires InOrder(signals, tables)
    ensures InOrder(signals + [s], if s.table in tables then tables else tables + [s.table])
  {
    forall t ensures Mentions(signals + [s], t) <==> Mentions(signals, t) || t == s.table { MentionsGrows(signals, s, t); }
    forall i, j | 0 <= i < j < |tables| ensures Precedes(signals + [s], tables[i], tables[j]) {
      PrecedesGrows(signals, s, tables[i], tables[j]);
    }
    if s.table !in tables {
      forall i | 0 <= i < |tables| ensures Precedes(signals + [s], tables[i], s.table) {
        PrecedesNew(signals, s, tables[i]);
      }
    }
  }

  lemma MentionsGrows(signals: seq<SignalSpec>, s: SignalSpec, t: Table)
    ensures Mentions(signals + [s], t) <==> Mentions(signals, t) || t == s.table
  {
    assert (signals + [s])[|signals|] == s;
    if Mentions(signals, t) {
      var i :| 0 <= i < |signals| && signals[i].table == t;
      assert (signals + [s])[i].table == t;
    }
  }

  lemma PrecedesGrows(signals: seq<SignalSpec>, s: SignalSpec, u: Table, t: Table)
    requires Precedes(signals, u, t)
    ensures Precedes(signals + [s], u, t)
  {
    var p :| 0 <= p < |signals| && signals[p].table == u && forall q :: 0 <= q <= p ==> signals[q].table != t;
    assert (signals + [s])[p].table == u && forall q :: 0 <= q <= p ==> (signals + [s])[q].table != t;
  }

  lemma PrecedesNew(signals: seq<SignalSpec>, s: SignalSpec, u: Table)
    requires Mentions(signals, u) && !Mentions(signals, s.table)
    ensures Precedes(signals + [s], u, s.table)
  {
    var p :| 0 <= p < |signals| && signals[p].table == u;
    assert (signals + [s])[p].table == u && forall q :: 0 <= q <= p ==> (signals + [s])[q].table != s.table;
  }

  ghost predicate TableByTable(signals: seq<SignalSpec>, blocks: seq<Block>) {
    forall i, j :: 0 <= i < j < |blocks| ==>
      blocks[i].table == blocks[j].table || Precedes(signals, blocks[i].table, blocks[j].table)
  }

  lemma TableAfterTables(signals: seq<SignalSpec>, before: seq<Block>, more: seq<Block>, t: Table)
    requires TableByTable(signals, before) && forall b :: b in more ==> b.table == t
    requires forall b :: b in before ==> Precedes(signals, b.table, t)
    ensures TableByTable(signals, before + more)
  {
    var all := before + more;
    forall i, j | 0 <= i < j < |all| ensures all[i].table == all[j].table || Precedes(signals, all[i].table, all[j].table) {
      if j >= |before| {
        assert all[j] == more[j - |before|] && all[j] in more;
        assert if i < |before| then all[i] == before[i] && all[i] in before else all[i] == more[i - |before|] && all[i] in more;
      }
    }
  }

  /** The reads come table by table, a table first mentioned earlier before one first mentioned later. */
  lemma ReadsInTableOrder(signals: seq<SignalSpec>, maxGap: int)
    ensures TableByTable(signals, Coalesced(signals, maxGap))
  {
    TablesInOrder(signals);
    PlansInOrder(signals, Tables(signals), maxGap);
  }

  lemma {:induction false} PlansInOrder(signals: seq<SignalSpec>, tables: seq<Table>, maxGap: int)
    requires forall i, j :: 0 <= i < j < |tables| ==> Precedes(signals, tables[i], tables[j])
    ensures TableByTable(signals, PlanTables(signals, tables, maxGap))
    ensures forall b :: b in PlanTables(signals, tables, maxGap) ==> b.table in tables
  {
    if tables != [] {
      var n := |tables| - 1;
      var before: seq<Block> := PlanTables(signals, tables[..n], maxGap);
      PlansInOrder(signals, tables[..n], maxGap);
      TableMembers(signals, tables[n]);
      PlanOnOneTable(SortByAddress(OnTable(signals, tables[n])), tables[n], maxGap);
      forall b | b in before ensures Precedes(signals, b.table, tables[n]) {
        var i :| 0 <= i < n && tables[i] == b.table;
      }
      TableAfterTables(signals, before, PlanTable(signals, tables[n], maxGap), tables[n]);
    }
  }

  /** The signals at an address of a table, in the order in which they are configured. */
  function ConfiguredAt(signals: seq<SignalSpec>, t: Table, a: int): seq<SignalSpec> {
    if signals == [] then []
    else
      var s := signals[|signals| - 1];
      ConfiguredAt(signals[..|signals| - 1], t, a) + if s.table == t && s.address == a then [s] else []
  }

  lemma AtAddressAppend(signals: seq<SignalSpec>, s: SignalSpec, a: int)
    ensures AtAddress(signals + [s], a) == AtAddress(signals, a) + if s.address == a then [s] else []
  {
    assert (signals + [s])[..|signals|] == signals;
  }

  lemma {:induction false} OnTableInOrder(signals: seq<SignalSpec>, t: Table, a: int)
    ensures AtAddress(OnTable(signals, t), a) == ConfiguredAt(signals, t, a)
  {
    if signals != [] {
      var init, s := signals[..|signals| - 1], signals[|signals| - 1];
      OnTableInOrder(init, t, a);
      if s.table == t {
        AtAddressAppend(OnTable(init, t), s, a);
      } else {
        assert OnTable(signals, t) == OnTable(init, t);
      }
    }
  }

  /** The signals of a table are read in address order, and those of one address in the order of the configuration. */
  lemma ReadInOrder(signals: seq<SignalSpec>, t: Table, maxGap: int, a: int)
    ensures Sorted(Flatten(PlanTable(signals, t, maxGap)))
    ensures AtAddress(Flatten(PlanTable(signals, t, maxGap)), a) == ConfiguredAt(signals, t, a)
  {
    SortSorts(OnTable(signals, t));
    FlattenPlan(SortByAddress(OnTable(signals, t)), maxGap);
    SortIsStable(OnTable(signals, t), a);
    OnTableInOrder(signals, t, a);
  }
}

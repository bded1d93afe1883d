/** The paged walk of the signal inventory: CommandService.browse in modbus_adapter/command_service.py. */
module Paging {
  import opened Values
  import opened Numerals

  /** The cursor of a request: null and absent are the same; Opaque is an array or an object. */
  datatype Cursor = Absent | Text(token: string) | Whole(n: int) | Fraction(x: real) | Flag(on: bool) | Opaque

  /** An entry of the inventory as browse reports it. */
  datatype Listing = Listing(id: string, name: string, typ: string)

  datatype Page = BadArgs | Page(entries: seq<Listing>, cursor: Option<string>)

  const DEFAULT_MAX := 200
  const HARD_MAX := 1000

  /** int(cursor), None when it raises; fractions are cut toward zero. */
  function Offset(c: Cursor): Option<int> {
    match c
    case Absent => Some(0)
    case Text(t) => ParseInt(t)
    case Whole(n) => Some(n)
    case Fraction(x) => Some(if x < 0.0 then -(-x).Floor else x.Floor)
    case Flag(on) => Some(if on then 1 else 0)
    case Opaque => None
  }

  /** The page size: `max` is None when absent or not an integer. */
  function PageSize(max: Option<int>): (k: nat)
    ensures 1 <= k <= HARD_MAX
  {
    var n := if max.Some? then max.value else DEFAULT_MAX;
    if n < 1 then 1 else if n > HARD_MAX then HARD_MAX else n
  }

  /** inventory[start:end] with end past the end allowed. */
  function Cut(inventory: seq<Listing>, start: nat, end: nat): seq<Listing>
    requires start <= end
  {
    if start >= |inventory| then [] else if end > |inventory| then inventory[start..] else inventory[start..end]
  }

  function Browse(inventory: seq<Listing>, cursor: Cursor, max: Option<int>): Page {
    var start := Offset(cursor);
    if start.None? || start.value < 0 then BadArgs
    else
      var next := start.value + PageSize(max);
      Page(Cut(inventory, start.value, next), if next < |inventory| then Some(Numeral(next)) else None)
  }

  // ---- a client that follows the cursors ----

  /** What a client talks to. */
  type Server = (Cursor, Option<int>) -> Page

  function Adapter(inventory: seq<Listing>): Server { (cursor: Cursor, max: Option<int>) => Browse(inventory, cursor, max) }

  function PageFrom(inventory: seq<Listing>, start: nat, max: Option<int>): Page {
    var next := start + PageSize(max);
    Page(Cut(inventory, start, next), if next < |inventory| then Some(Numeral(next)) else None)
  }

  /** No cursor asks for the entries from the start, a printed offset for those from that offset on. */
  ghost predicate Serves(browse: Server, inventory: seq<Listing>) {
    && (forall max :: browse(Absent, max) == PageFrom(inventory, 0, max))
    && (forall max, start: nat :: browse(Text(Numeral(start)), max) == PageFrom(inventory, start, max))
  }

  lemma OffsetPrinted(start: nat)
    ensures Offset(Text(Numeral(start))) == Some(start)
  {
    PrintParse(start);
  }

  lemma BrowseFrom(inventory: seq<Listing>, cursor: Cursor, start: nat, max: Option<int>)
    requires Offset(cursor) == Some(start)
    ensures Browse(inventory, cursor, max) == PageFrom(inventory, start, max)
  {
  }

  /** The adapter serves its inventory: the cursors it prints are the offsets it parses. */
  lemma AdapterServes(inventory: seq<Listing>)
    ensures Serves(Adapter(inventory), inventory)
  {
    forall max ensures Adapter(inventory)(Absent, max) == PageFrom(inventory, 0, max) {
      BrowseFrom(inventory, Absent, 0, max);
    }
    forall max, start: nat ensures Adapter(inventory)(Text(Numeral(start)), max) == PageFrom(inventory, start, max) {
      OffsetPrinted(start);
      BrowseFrom(inventory, Text(Numeral(start)), start, max);
    }
  }

  function Follow(p: Page): Cursor { if p.Page? && p.cursor.Some? then Text(p.cursor.value) else Absent }

  /** A walk: the first page without a cursor, each further one with the cursor of the page before it, each
      with a `max` of its own. */
  ghost predicate Walk(browse: Server, maxes: seq<Option<int>>, pages: seq<Page>)
    decreases |pages|
  {
    if pages == [] || |maxes| != |pages| then false
    else if |pages| == 1 then pages[0] == browse(Absent, maxes[0])
    else
      var n := |pages| - 1;
      && Walk(browse, maxes[..n], pages[..n])
      && pages[n - 1].Page? && pages[n - 1].cursor.Some?
      && pages[n] == browse(Follow(pages[n - 1]), maxes[n])
  }

  predicate Finished(pages: seq<Page>) {
    pages != [] && pages[|pages| - 1].Page? && pages[|pages| - 1].cursor.None?
  }

  /** The entries of all pages, in order. */
  function Entries(pages: seq<Page>): seq<Listing> {
    if pages == [] then []
    else
      var p := pages[|pages| - 1];
      Entries(pages[..|pages| - 1]) + if p.Page? then p.entries else []
  }

  function Reach(maxes: seq<Option<int>>): nat {
    if maxes == [] then 0 else Reach(maxes[..|maxes| - 1]) + PageSize(maxes[|maxes| - 1])
  }

  lemma CutExtends(inventory: seq<Listing>, start: nat, end: nat)
    requires start <= end
    ensures Cut(inventory, 0, start) + Cut(inventory, start, end) == Cut(inventory, 0, end)
    ensures end >= |inventory| ==> Cut(inventory, 0, end) == inventory
  {
  }

  /** A walk with offsets in place of cursors: each page starts where the pages before it end. */
  ghost predicate Chain(inventory: seq<Listing>, maxes: seq<Option<int>>, pages: seq<Page>)
    decreases |pages|
  {
    && |maxes| == |pages|
    && (pages != [] ==>
      var n := |pages| - 1;
      && Chain(inventory, maxes[..n], pages[..n]) && pages[n] == PageFrom(inventory, Reach(maxes[..n]), maxes[n])
      && (n > 0 ==> Reach(maxes[..n]) < |inventory|))
  }

  lemma PageCursor(inventory: seq<Listing>, start: nat, max: Option<int>)
    ensures var p, next := PageFrom(inventory, start, max), start + PageSize(max);
      && p.Page? && (p.cursor.Some? <==> next < |inventory|)
      && (next < |inventory| ==> Follow(p) == Text(Numeral(next)))
  {
  }

  lemma ChainCursor(inventory: seq<Listing>, maxes: seq<Option<int>>, pages: seq<Page>)
    requires Chain(inventory, maxes, pages) && pages != []
    ensures pages[|pages| - 1].Page?
    ensures Reach(maxes) < |inventory| ==> Follow(pages[|pages| - 1]) == Text(Numeral(Reach(maxes)))
    ensures pages[|pages| - 1].cursor.Some? <==> Reach(maxes) < |inventory|
  {
    PageCursor(inventory, Reach(maxes[..|maxes| - 1]), maxes[|maxes| - 1]);
  }

  lemma {:induction false} WalkChains(browse: Server, inventory: seq<Listing>, maxes: seq<Option<int>>, pages: seq<Page>)
    requires Serves(browse, inventory) && Walk(browse, maxes, pages)
    ensures Chain(inventory, maxes, pages)
    decreases |pages|
  {
    if |pages| == 1 {
      assert Reach(maxes[..0]) == 0;
    } else {
      var n := |pages| - 1;
      WalkChains(browse, inventory, maxes[..n], pages[..n]);
      ChainCursor(inventory, maxes[..n], pages[..n]);
      assert pages[n - 1] == pages[..n][n - 1];
    }
  }

  lemma EntriesLast(pages: seq<Page>, xs: seq<Listing>)
    requires pages != [] && pages[|pages| - 1].Page? && pages[|pages| - 1].entries == xs
    ensures Entries(pages) == Entries(pages[..|pages| - 1]) + xs
  {
  }

  lemma {:induction false} ChainCollects(inventory: seq<Listing>, maxes: seq<Option<int>>, pages: seq<Page>)
    requires Chain(inventory, maxes, pages)
    ensures Entries(pages) == Cut(inventory, 0, Reach(maxes))
    decreases |pages|
  {
    if pages != [] {
      var n := |pages| - 1;
      ChainCollects(inventory, maxes[..n], pages[..n]);
      CutExtends(inventory, Reach(maxes[..n]), Reach(maxes));
      EntriesLast(pages, Cut(inventory, Reach(maxes[..n]), Reach(maxes)));
    }
  }

  /** Following the cursors gives no error and exactly the inventory, in order, whatever page sizes the
      client asks for: all of it when the last page has no cursor, and otherwise a prefix of it. */
  lemma WalkCollects(browse: Server, inventory: seq<Listing>, maxes: seq<Option<int>>, pages: seq<Page>)
    requires Serves(browse, inventory) && Walk(browse, maxes, pages)
    ensures pages[|pages| - 1].Page?
    ensures Finished(pages) <==> Entries(pages) == inventory
    ensures !Finished(pages) ==> Entries(pages) < inventory
  {
    WalkChains(browse, inventory, maxes, pages);
    ChainCursor(inventory, maxes, pages);
    ChainCollects(inventory, maxes, pages);
    CutExtends(inventory, 0, Reach(maxes));
    if Reach(maxes) < |inventory| { assert Cut(inventory, 0, Reach(maxes)) == inventory[..Reach(maxes)]; }
  }

  lemma {:induction false} ReachGrows(maxes: seq<Option<int>>)
    ensures |maxes| <= Reach(maxes)
  {
    if maxes != [] { ReachGrows(maxes[..|maxes| - 1]); }
  }

  /** The walk ends: no walk has more pages than the inventory has signals, or one if it has none. */
  lemma WalkEnds(browse: Server, inventory: seq<Listing>, maxes: seq<Option<int>>, pages: seq<Page>)
    requires Serves(browse, inventory) && Walk(browse, maxes, pages)
    ensures |pages| <= Max(1, |inventory|)
  {
    WalkChains(browse, inventory, maxes, pages);
    ReachGrows(maxes[..|pages| - 1]);
  }

  /** The client asks for rule(i) entries on page i. */
  ghost predicate Obeys(maxes: seq<Option<int>>, rule: nat -> Option<int>) {
    forall i :: 0 <= i < |maxes| ==> maxes[i] == rule(i)
  }

  /** A client with any rule for choosing page sizes gets to the end and has then seen the inventory. */
  lemma WalkCompletes(browse: Server, inventory: seq<Listing>, rule: nat -> Option<int>)
      returns (maxes: seq<Option<int>>, pages: seq<Page>)
    requires Serves(browse, inventory)
    ensures Walk(browse, maxes, pages) && Obeys(maxes, rule) && Entries(pages) == inventory
  {
    maxes, pages := WalkToEnd(browse, inventory, rule, [rule(0)], [browse(Absent, rule(0))]);
    WalkCollects(browse, inventory, maxes, pages);
  }

  lemma WalkToEnd(browse: Server, inventory: seq<Listing>, rule: nat -> Option<int>, soFar: seq<Option<int>>, seen: seq<Page>)
      returns (maxes: seq<Option<int>>, pages: seq<Page>)
    requires Serves(browse, inventory) && Walk(browse, soFar, seen) && Obeys(soFar, rule)
    ensures Walk(browse, maxes, pages) && Obeys(maxes, rule) && Finished(pages)
    decreases |inventory| - |seen|
  {
    WalkCollects(browse, inventory, soFar, seen);
    if Finished(seen) {
      maxes, pages := soFar, seen;
    } else {
      var more, next := WalkFurther(browse, soFar, seen, rule(|seen|));
      WalkEnds(browse, inventory, more, next);
      maxes, pages := WalkToEnd(browse, inventory, rule, more, next);
    }
  }

  lemma WalkFurther(browse: Server, maxes: seq<Option<int>>, pages: seq<Page>, max: Option<int>)
      returns (more: seq<Option<int>>, next: seq<Page>)
    requires Walk(browse, maxes, pages) && pages[|pages| - 1].Page? && !Finished(pages)
    ensures more == maxes + [max] && |next| == |pages| + 1 && Walk(browse, more, next)
  {
    more, next := maxes + [max], pages + [browse(Follow(pages[|pages| - 1]), max)];
    assert next[..|pages|] == pages && more[..|pages|] == maxes;
  }

  lemma {:induction false} ReachFixed(maxes: seq<Option<int>>, max: Option<int>)
    requires forall i :: 0 <= i < |maxes| ==> maxes[i] == max
    ensures Reach(maxes) == |maxes| * PageSize(max)
  {
    if maxes != [] { ReachFixed(maxes[..|maxes| - 1], max); }
  }

  lemma FixedBounds(browse: Server, inventory: seq<Listing>, maxes: seq<Option<int>>, pages: seq<Page>, max: Option<int>)
    requires Serves(browse, inventory) && Walk(browse, maxes, pages) && Finished(pages)
    requires forall i :: 0 <= i < |maxes| ==> maxes[i] == max
    ensures |inventory| <= |pages| * PageSize(max)
    ensures |pages| > 1 ==> (|pages| - 1) * PageSize(max) < |inventory|
  {
    WalkChains(browse, inventory, maxes, pages);
    ChainCursor(inventory, maxes, pages);
    ReachFixed(maxes, max);
    ReachFixed(maxes[..|pages| - 1], max);
  }

  /** With one page size throughout, a finished walk has as many pages as that size goes into the
      inventory, rounded up, and at least one. */
  lemma FixedPageCount(browse: Server, inventory: seq<Listing>, maxes: seq<Option<int>>, pages: seq<Page>, max: Option<int>)
    requires Serves(browse, inventory) && Walk(browse, maxes, pages) && Finished(pages)
    requires forall i :: 0 <= i < |maxes| ==> maxes[i] == max
    ensures |pages| == PageCount(|inventory|, PageSize(max))
  {
    FixedBounds(browse, inventory, maxes, pages, max);
    RoundedUp(|inventory|, PageSize(max), |pages|);
  }

  /** The laws for the adapter itself. */
  lemma AdapterWalks(inventory: seq<Listing>, maxes: seq<Option<int>>, pages: seq<Page>)
    requires Walk(Adapter(inventory), maxes, pages)
    ensures |pages| <= Max(1, |inventory|)
    ensures Finished(pages) <==> Entries(pages) == inventory
  {
    AdapterServes(inventory);
    WalkCollects(Adapter(inventory), inventory, maxes, pages);
    WalkEnds(Adapter(inventory), inventory, maxes, pages);
  }

  /** n divided by k and rounded up, but at least 1. */
  function PageCount(n: nat, k: nat): nat
    requires k >= 1
  {
    Max(1, (n + k - 1) / k)
  }

  lemma RoundedUp(n: nat, k: nat, count: nat)
    requires k >= 1 && count >= 1 && n <= count * k && (count > 1 ==> (count - 1) * k < n)
    ensures count == PageCount(n, k)
  {
    var q, r := (n + k - 1) / k, (n + k - 1) % k;
    assert n + k - 1 == q * k + r;
    if q > count {
      assert q * k >= (count + 1) * k by { Monotone(count + 1, q, k); }
    } else if q < count {
      assert q * k <= (count - 1) * k by { Monotone(q, count - 1, k); }
    }
  }

  lemma Monotone(a: int, b: int, k: nat)
    requires a <= b
    ensures a * k <= b * k
  {
  }

  /** A request is refused exactly when its cursor is no integer or a negative one. */
  lemma BadCursors(inventory: seq<Listing>, cursor: Cursor, max: Option<int>)
    ensures Browse(inventory, cursor, max).BadArgs? <==>
      cursor.Opaque? || (cursor.Text? && ParseInt(cursor.token).None?) || (Offset(cursor).Some? && Offset(cursor).value < 0)
  {
  }

  // ---- pages in figures ----

  /** The page size is `max` within 1 and 1000, and 200 without it. */
  lemma PageSizes(max: Option<int>)
    ensures max == None ==> PageSize(max) == 200
    ensures max.Some? && 1 <= max.value <= 1000 ==> PageSize(max) == max.value
    ensures max.Some? && max.value < 1 ==> PageSize(max) == 1
    ensures max.Some? && max.value > 1000 ==> PageSize(max) == 1000
  {
  }

  /** The offset a cursor asks for: int() of it, and 0 without one. */
  ghost predicate AsksFrom(c: Cursor, start: int) {
    match c
    case Absent => start == 0
    case Text(t) => ParseInt(t) == Some(start)
    case Whole(n) => start == n
    case Fraction(x) => if x < 0.0 then x <= start as real < x + 1.0 else x - 1.0 < start as real <= x
    case Flag(on) => start == if on then 1 else 0
    case Opaque => false
  }

  /** A page holds the entries from the offset on, as many as the page size and the inventory allow, and the offset
      after them as its cursor while there are more. */
  lemma PageHolds(inventory: seq<Listing>, cursor: Cursor, max: Option<int>, start: nat)
    requires AsksFrom(cursor, start)
    ensures var p, size := Browse(inventory, cursor, max), PageSize(max);
      && p.Page?
      && |p.entries| == (if |inventory| <= start then 0 else if |inventory| <= start + size then |inventory| - start else size)
      && (forall i :: 0 <= i < |p.entries| ==> p.entries[i] == inventory[start + i])
      && p.cursor == if start + size < |inventory| then Some(Numeral(start + size)) else None
  {
    OffsetAsked(cursor, start);
    BrowseFrom(inventory, cursor, start, max);
    CutHolds(inventory, start, start + PageSize(max));
  }

  lemma CutHolds(inventory: seq<Listing>, start: nat, end: nat)
    requires start <= end
    ensures |Cut(inventory, start, end)|
      == if |inventory| <= start then 0 else if |inventory| <= end then |inventory| - start else end - start
    ensures forall i :: 0 <= i < |Cut(inventory, start, end)| ==> Cut(inventory, start, end)[i] == inventory[start + i]
  {
  }

  /** A cursor is refused exactly when it asks for no offset or for a negative one. */
  lemma RefusedCursors(inventory: seq<Listing>, cursor: Cursor, max: Option<int>)
    ensures Browse(inventory, cursor, max) == BadArgs <==> forall start :: AsksFrom(cursor, start) ==> start < 0
  {
    if Offset(cursor).Some? {
      OffsetAsked(cursor, Offset(cursor).value);
      assert AsksFrom(cursor, Offset(cursor).value);
    }
    forall start | AsksFrom(cursor, start) ensures Offset(cursor) == Some(start) { OffsetAsked(cursor, start); }
  }

  lemma OffsetAsked(c: Cursor, start: int)
    ensures AsksFrom(c, start) <==> Offset(c) == Some(start)
  {
  }
}

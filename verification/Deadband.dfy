/** The client-side change filter: modbus_adapter/config/deadband_spec.py and its use by the poller. */
module Deadband {
  import opened Values

  datatype Kind = NoBand | Absolute | Percent | UnknownKind

  datatype DeadbandSpec = DeadbandSpec(kind: Kind, value: real)

  datatype PublishMode = OnChange | Always

  /** True if `v` should be published given the last published value `prior` (None = first). */
  predicate Exceeds(p: Platform, d: DeadbandSpec, prior: Option<Value>, v: Value) {
    if prior.None? then true
    else if d.kind == NoBand then !Same(v, prior.value)
    else
      var was, now := AsReal(p, prior.value), AsReal(p, v);
      if was.None? || now.None? then !Same(v, prior.value)
      else
        var delta := Abs(now.value - was.value);
        match d.kind
        case Absolute => delta >= d.value
        case Percent =>
          var base := Abs(was.value);
          if base == 0.0 then !Same(v, prior.value) else delta / base * 100.0 >= d.value
        case _ => !Same(v, prior.value)
  }

  /** The poller's publish decision. */
  predicate Publishes(p: Platform, mode: PublishMode, d: DeadbandSpec, last: Option<Value>, v: Value) {
    mode == Always || Exceeds(p, d, last, v)
  }

  // ---- one signal over a whole history ----

  /** A poll of the signal either decodes a value or is bad, which leaves the cache alone. */
  datatype Read = Good(v: Value) | Bad

  datatype Track = Track(last: Option<Value>, decoded: seq<Value>, published: seq<Value>)

  function Observe(p: Platform, mode: PublishMode, d: DeadbandSpec, t: Track, r: Read): Track {
    if r.Bad? then t
    else if Publishes(p, mode, d, t.last, r.v)
    then Track(Some(r.v), t.decoded + [r.v], t.published + [r.v])
    else t.(decoded := t.decoded + [r.v])
  }

  function Follow(p: Platform, mode: PublishMode, d: DeadbandSpec, history: seq<Read>): Track {
    if history == [] then Track(None, [], [])
    else Observe(p, mode, d, Follow(p, mode, d, history[..|history| - 1]), history[|history| - 1])
  }

  /** Sum of the sizes of all the steps a sequence of readings takes. */
  function Variation(p: Platform, vs: seq<Value>): real
    requires Numeric(p, vs)
  {
    if |vs| < 2 then 0.0
    else Variation(p, vs[..|vs| - 1])
         + Abs(AsReal(p, vs[|vs| - 1]).value - AsReal(p, vs[|vs| - 2]).value)
  }

  ghost predicate Numeric(p: Platform, vs: seq<Value>) {
    forall v :: v in vs ==> AsReal(p, v).Some?
  }

  /** The cache holds the last published value, and the latest decoded value does not exceed the
      deadband from it, whatever mixture of good and bad reads went before. */
  lemma {:induction false} CacheTracksSignal(p: Platform, mode: PublishMode, d: DeadbandSpec, history: seq<Read>)
    ensures var t := Follow(p, mode, d, history);
      && (t.last.Some? <==> t.decoded != []) && (t.published == [] <==> t.decoded == [])
      && (t.published != [] ==>
        && t.last == Some(t.published[|t.published| - 1])
        && var latest := t.decoded[|t.decoded| - 1];
           latest == t.last.value || (mode == OnChange && !Exceeds(p, d, t.last, latest)))
  {
    if history != [] {
      CacheTracksSignal(p, mode, d, history[..|history| - 1]);
    }
  }

  /** With an absolute deadband the latest reading is strictly inside the band: drift cannot escape. */
  lemma DriftStaysInBand(p: Platform, d: DeadbandSpec, history: seq<Read>)
    requires d.kind == Absolute && d.value > 0.0
    requires var t := Follow(p, OnChange, d, history); Numeric(p, t.decoded) && t.decoded != []
    ensures var t := Follow(p, OnChange, d, history);
      && t.last.Some? && AsReal(p, t.last.value).Some?
      && Abs(AsReal(p, t.decoded[|t.decoded| - 1]).value - AsReal(p, t.last.value).value) < d.value
  {
    CacheTracksSignal(p, OnChange, d, history);
    PublicationPotential(p, d, history);
  }

  /** The sum of n bands. */
  function Bands(n: nat, band: real): real { if n == 0 then 0.0 else Bands(n - 1, band) + band }

  lemma {:induction false} BandsMultiply(n: nat, band: real)
    ensures Bands(n, band) == n as real * band
  {
    if n > 0 {
      BandsMultiply(n - 1, band);
      Distribute((n - 1) as real, 1.0, band);
    }
  }

  /** N published values of a signal with absolute deadband D satisfy (N-1)*D <= total variation. */
  lemma PublicationBound(p: Platform, d: DeadbandSpec, history: seq<Read>)
    requires d.kind == Absolute && d.value > 0.0
    requires var t := Follow(p, OnChange, d, history); Numeric(p, t.decoded) && t.decoded != []
    ensures var t := Follow(p, OnChange, d, history);
      t.published != [] && Bands(|t.published| - 1, d.value) <= Variation(p, t.decoded)
  {
    PublicationPotential(p, d, history);
  }

  /** The bound with the unspent movement since the last publication added. */
  ghost predicate WithinBudget(p: Platform, band: real, t: Track) {
    && Numeric(p, t.decoded) && t.decoded != []
    && t.last.Some? && AsReal(p, t.last.value).Some?
    && t.published != [] && Bands(|t.published| - 1, band) <= Variation(p, t.decoded) - Unspent(p, t)
  }

  /** How far the latest reading is from the last published one. */
  function Unspent(p: Platform, t: Track): real
    requires t.decoded != [] && t.last.Some?
    requires AsReal(p, t.last.value).Some? && AsReal(p, t.decoded[|t.decoded| - 1]).Some?
  {
    Abs(AsReal(p, t.decoded[|t.decoded| - 1]).value - AsReal(p, t.last.value).value)
  }

  lemma {:induction false} PublicationPotential(p: Platform, d: DeadbandSpec, history: seq<Read>)
    requires d.kind == Absolute && d.value > 0.0
    requires var t := Follow(p, OnChange, d, history); Numeric(p, t.decoded) && t.decoded != []
    ensures WithinBudget(p, d.value, Follow(p, OnChange, d, history))
  {
    var earlier, r := history[..|history| - 1], history[|history| - 1];
    var before, t := Follow(p, OnChange, d, earlier), Follow(p, OnChange, d, history);
    if r.Bad? {
      PublicationPotential(p, d, earlier);
    } else {
      CacheTracksSignal(p, OnChange, d, earlier);
      assert t.decoded == before.decoded + [r.v] && r.v in t.decoded;
      if before.decoded != [] {
        forall v | v in before.decoded ensures AsReal(p, v).Some? { assert v in t.decoded; }
        PublicationPotential(p, d, earlier);
        BudgetStep(p, d, before, r.v);
      }
    }
  }

  lemma BudgetStep(p: Platform, d: DeadbandSpec, t: Track, v: Value)
    requires d.kind == Absolute && WithinBudget(p, d.value, t) && Numeric(p, t.decoded + [v])
    ensures WithinBudget(p, d.value, Observe(p, OnChange, d, t, Good(v)))
  {
    assert v in t.decoded + [v];
    if Abs(AsReal(p, v).value - AsReal(p, t.last.value).value) >= d.value {
      BudgetPublished(p, d.value, t, v);
    } else {
      BudgetSuppressed(p, d.value, t, v);
    }
  }

  lemma BudgetPublished(p: Platform, band: real, t: Track, v: Value)
    requires WithinBudget(p, band, t) && Numeric(p, t.decoded + [v]) && AsReal(p, v).Some?
    requires Abs(AsReal(p, v).value - AsReal(p, t.last.value).value) >= band
    ensures WithinBudget(p, band, Track(Some(v), t.decoded + [v], t.published + [v]))
  {
    VariationGrows(p, t.decoded, v);
    Triangle(AsReal(p, t.last.value).value, AsReal(p, t.decoded[|t.decoded| - 1]).value, AsReal(p, v).value);
  }

  lemma BudgetSuppressed(p: Platform, band: real, t: Track, v: Value)
    requires WithinBudget(p, band, t) && Numeric(p, t.decoded + [v]) && AsReal(p, v).Some?
    ensures WithinBudget(p, band, t.(decoded := t.decoded + [v]))
  {
    VariationGrows(p, t.decoded, v);
    Triangle(AsReal(p, t.last.value).value, AsReal(p, t.decoded[|t.decoded| - 1]).value, AsReal(p, v).value);
  }

  lemma Triangle(x: real, y: real, z: real)
    ensures Abs(z - x) <= Abs(y - x) + Abs(z - y)
  {
  }

  lemma VariationGrows(p: Platform, vs: seq<Value>, v: Value)
    requires Numeric(p, vs + [v]) && Numeric(p, vs) && vs != [] && AsReal(p, v).Some?
    ensures AsReal(p, vs[|vs| - 1]).Some?
    ensures Variation(p, vs + [v]) == Variation(p, vs) + Abs(AsReal(p, v).value - AsReal(p, vs[|vs| - 1]).value)
  {
    assert (vs + [v])[..|vs|] == vs;
  }

  // ---- flags and text ----

  /** docs/sample-configurations.md promises that a flag is published on any change. float() accepts a
      flag, so the code keeps that promise exactly when the band is at most one unit (100 percent). */
  lemma FlagPublishesEveryChange(p: Platform, d: DeadbandSpec)
    ensures (forall b: bool :: Exceeds(p, d, Some(BoolV(!b)), BoolV(b)))
      <==> (d.kind == Absolute ==> d.value <= 1.0) && (d.kind == Percent ==> d.value <= 100.0)
  {
    forall b: bool
      ensures d.kind == Absolute ==> (Exceeds(p, d, Some(BoolV(!b)), BoolV(b)) <==> d.value <= 1.0)
      ensures d.kind == Percent ==> (Exceeds(p, d, Some(BoolV(!b)), BoolV(b)) <==> b || d.value <= 100.0)
    {
    }
    assert Exceeds(p, d, Some(BoolV(!false)), BoolV(false)) ==
           Exceeds(p, d, Some(BoolV(true)), BoolV(false));
  }

  /** The case that breaks the promise: the flag drops, and an absolute band of two hides it. */
  lemma WideBandHidesFlag(p: Platform)
    ensures !Exceeds(p, DeadbandSpec(Absolute, 2.0), Some(BoolV(true)), BoolV(false))
    ensures !Same(BoolV(true), BoolV(false))
  {
  }

  /** The same promise for text: float() reads numerals, so a new spelling of a number can hide in the band. On
      every platform with two spellings of one number other than 0, every change of text is published if and
      only if the band is neither absolute nor percent, or not positive. */
  lemma TextPublishesEveryChange(p: Platform, d: DeadbandSpec, a: seq<Byte>, b: seq<Byte>)
    requires a != b && p.parse(a) == p.parse(b) && p.parse(a).Some? && p.parse(a).value != 0.0
    ensures (forall w: seq<Byte>, v: seq<Byte> :: w != v ==> Exceeds(p, d, Some(TextV(w)), TextV(v)))
      <==> (d.kind != Absolute && d.kind != Percent) || d.value <= 0.0
  {
    if (d.kind != Absolute && d.kind != Percent) || d.value <= 0.0 {
      forall w: seq<Byte>, v: seq<Byte> | w != v ensures Exceeds(p, d, Some(TextV(w)), TextV(v)) {
        TextExceeds(p, d, w, v);
      }
    } else {
      SpellingHides(p, d, a, b);
    }
  }

  lemma TextExceeds(p: Platform, d: DeadbandSpec, w: seq<Byte>, v: seq<Byte>)
    requires w != v && ((d.kind != Absolute && d.kind != Percent) || d.value <= 0.0)
    ensures Exceeds(p, d, Some(TextV(w)), TextV(v))
  {
    var was, now := p.parse(w), p.parse(v);
    if was.Some? && now.Some? && Abs(was.value) > 0.0 {
      ShareNotNegative(Abs(now.value - was.value), Abs(was.value));
    }
  }

  lemma ShareNotNegative(x: real, y: real)
    requires x >= 0.0 && y > 0.0
    ensures x / y * 100.0 >= 0.0
  {
  }

  lemma SpellingHides(p: Platform, d: DeadbandSpec, a: seq<Byte>, b: seq<Byte>)
    requires p.parse(a) == p.parse(b) && p.parse(a).Some? && p.parse(a).value != 0.0
    requires (d.kind == Absolute || d.kind == Percent) && d.value > 0.0
    ensures !Exceeds(p, d, Some(TextV(a)), TextV(b))
  {
    NothingShares(Abs(p.parse(a).value));
  }

  lemma NothingShares(y: real)
    requires y > 0.0
    ensures 0.0 / y * 100.0 == 0.0
  {
  }

  /** A case that breaks it: the text changes from 1 to 1.0 and an absolute band of a half hides it. */
  lemma NumeralHidesInBand(p: Platform)
    requires p.parse([0x31]) == Some(1.0) && p.parse([0x31, 0x2E, 0x30]) == Some(1.0)
    ensures !Exceeds(p, DeadbandSpec(Absolute, 0.5), Some(TextV([0x31])), TextV([0x31, 0x2E, 0x30]))
    ensures !Same(TextV([0x31]), TextV([0x31, 0x2E, 0x30]))
  {
    assert [0x31] != [0x31, 0x2E, 0x30];
  }

  /** Text that float() does not read is published exactly when it changes, whatever the band. */
  lemma PlainTextPublishesOnChange(p: Platform, d: DeadbandSpec, w: Value, v: Value)
    requires v.TextV? && w.TextV? && p.parse(v.utf8).None?
    ensures Exceeds(p, d, Some(w), v) <==> v != w
  {
  }

  // ---- the filter in figures ----

  /** float() reads the value as that number: a number, or a text that is a numeral. */
  ghost predicate ReadsAs(p: Platform, v: Value, x: real) {
    Denotes(v, x) || (v.TextV? && p.parse(v.utf8) == Some(x))
  }

  /** float() raises. */
  ghost predicate Unreadable(p: Platform, v: Value) { v.OtherV? || (v.TextV? && p.parse(v.utf8).None?) }

  lemma AlwaysPublished(p: Platform, mode: PublishMode, d: DeadbandSpec, last: Option<Value>, v: Value)
    requires last == None || mode == Always
    ensures Publishes(p, mode, d, last, v)
  {
  }

  /** The absolute value of x. */
  ghost predicate SizeOf(size: real, x: real) { size >= 0.0 && (size == x || size == -x) }

  /** A number y after a published number x. No band: published exactly when they differ. An absolute band D: when they
      are D or more apart. A percentage D: when the change is at least D percent of the old number, or, if that is 0,
      when they differ. */
  lemma NumberAfterNumber(p: Platform, d: DeadbandSpec, w: Value, x: real, v: Value, y: real, change: real, base: real)
    requires Denotes(w, x) && Denotes(v, y) && SizeOf(change, y - x) && SizeOf(base, x)
    ensures d.kind == NoBand || d.kind == UnknownKind ==> (Publishes(p, OnChange, d, Some(w), v) <==> x != y)
    ensures d.kind == Absolute ==> (Publishes(p, OnChange, d, Some(w), v) <==> change >= d.value)
    ensures d.kind == Percent && x == 0.0 ==> (Publishes(p, OnChange, d, Some(w), v) <==> x != y)
    ensures d.kind == Percent && x != 0.0 ==>
      (Publishes(p, OnChange, d, Some(w), v) <==> 100.0 * change >= d.value * base)
  {
    if d.kind == Percent && x != 0.0 { PercentOfOld(p, d, w, x, v, y, change, base); }
  }

  /** The bands compare the numbers float() reads, out of text too. */
  lemma ReadableAfterReadable(p: Platform, d: DeadbandSpec, w: Value, x: real, v: Value, y: real, change: real, base: real)
    requires ReadsAs(p, w, x) && ReadsAs(p, v, y) && SizeOf(change, y - x) && SizeOf(base, x)
    ensures d.kind == Absolute ==> (Publishes(p, OnChange, d, Some(w), v) <==> change >= d.value)
    ensures d.kind == Percent && x != 0.0 ==>
      (Publishes(p, OnChange, d, Some(w), v) <==> 100.0 * change >= d.value * base)
  {
    if d.kind == Percent && x != 0.0 { PercentOfOld(p, d, w, x, v, y, change, base); }
  }

  lemma PercentOfOld(p: Platform, d: DeadbandSpec, w: Value, x: real, v: Value, y: real, delta: real, base: real)
    requires AsReal(p, w) == Some(x) && AsReal(p, v) == Some(y) && d.kind == Percent
    requires SizeOf(delta, y - x) && SizeOf(base, x) && x != 0.0
    ensures Publishes(p, OnChange, d, Some(w), v) <==> 100.0 * delta >= d.value * base
  {
    ShareAtLeast(delta, base, d.value);
    PercentExceeds(p, d, w, x, v, y, delta, base);
  }

  lemma PercentExceeds(p: Platform, d: DeadbandSpec, w: Value, x: real, v: Value, y: real, delta: real, base: real)
    requires AsReal(p, w) == Some(x) && AsReal(p, v) == Some(y) && d.kind == Percent
    requires delta == Abs(y - x) && base == Abs(x) && base > 0.0
    ensures Publishes(p, OnChange, d, Some(w), v) <==> delta / base * 100.0 >= d.value
  {
  }

  lemma ShareAtLeast(delta: real, base: real, percent: real)
    requires base > 0.0
    ensures delta / base * 100.0 >= percent <==> 100.0 * delta >= percent * base
  {
    var q := delta / base;
    assert delta == q * base;
    assert 100.0 * delta == q * 100.0 * base;
    if q * 100.0 >= percent {
      ProductOrder(percent, q * 100.0, base);
    } else {
      ProductOrder(q * 100.0, percent, base);
    }
  }

  lemma ProductOrder(x: real, y: real, k: real)
    requires k > 0.0 && x <= y
    ensures x * k <= y * k && (x < y ==> x * k < y * k)
  {
    assert y * k - x * k == (y - x) * k;
  }

  /** Everything else is published exactly when it is a different value: text or other data without a band or with an
      unknown one, whatever float() does not read, and a percentage of a text that reads as 0. */
  lemma OtherAfterOther(p: Platform, d: DeadbandSpec, w: Value, v: Value)
    requires w.TextV? || w.OtherV? || v.TextV? || v.OtherV?
    requires d.kind == NoBand || d.kind == UnknownKind || Unreadable(p, w) || Unreadable(p, v)
      || (d.kind == Percent && ReadsAs(p, w, 0.0))
    ensures Publishes(p, OnChange, d, Some(w), v) <==> v != w
  {
  }

  /** Ten percent of the old value: 111 follows 100, and 100 does not follow 111. */
  lemma TenPercent(p: Platform)
    ensures Publishes(p, OnChange, DeadbandSpec(Percent, 10.0), Some(RealV(100.0)), RealV(111.0))
    ensures !Publishes(p, OnChange, DeadbandSpec(Percent, 10.0), Some(RealV(111.0)), RealV(100.0))
  {
    NumberAfterNumber(p, DeadbandSpec(Percent, 10.0), RealV(100.0), 100.0, RealV(111.0), 111.0, 11.0, 100.0);
    NumberAfterNumber(p, DeadbandSpec(Percent, 10.0), RealV(111.0), 111.0, RealV(100.0), 100.0, 11.0, 111.0);
  }
}

/** The values that flow through the adapter, and the parts of the Python runtime left open. */
module Values {
  datatype Option<+T> = None | Some(value: T)

  datatype Failure =
    | ShortRead | WrongType | OutOfRange | MissingCount | UnknownType | DivisionByZero | BadSignal | Unresolvable

  datatype Result<+T> = Ok(value: T) | Err(error: Failure)

  type Byte = b: int | 0 <= b < 256

  /** A decoded or written value. Text is its UTF-8 form; OtherV stands for null, arrays and objects. */
  datatype Value = BoolV(b: bool) | IntV(n: int) | RealV(x: real) | TextV(utf8: seq<Byte>) | OtherV(truthy: bool)

  /** What this model does not fix, as arbitrary functions. The first argument of view and pack is the
      number of registers of the float format.
      - view:   the real number an IEEE bit pattern denotes
      - pack:   the bit pattern that stores a real number, None when it overflows
      - parse:  float(text), None when it raises
      - render: str(value) of a value that is not text, as UTF-8
      - repair: decoding of bytes that are not UTF-8, with replacement characters */
  datatype Platform = Platform(
    view: (nat, nat) -> real,
    pack: (nat, real) -> Option<nat>,
    parse: seq<Byte> -> Option<real>,
    render: Value -> seq<Byte>,
    repair: seq<Byte> -> seq<Byte>)

  /** The number an arithmetic operator sees: Python booleans are the numbers 0 and 1. */
  function Number(v: Value): Option<real> {
    match v
    case BoolV(b) => Some(if b then 1.0 else 0.0)
    case IntV(n) => Some(n as real)
    case RealV(x) => Some(x)
    case TextV(_) => None
    case OtherV(_) => None
  }

  /** The value is that number; a flag is 1 or 0. */
  ghost predicate Denotes(v: Value, x: real) {
    v == RealV(x) || (v.IntV? && v.n as real == x) || (v == BoolV(x == 1.0) && (x == 0.0 || x == 1.0))
  }

  /** float(v): also reads numerals out of text. */
  function AsReal(p: Platform, v: Value): Option<real> {
    if v.TextV? then p.parse(v.utf8) else Number(v)
  }

  /** Python ==, which compares numbers across kinds. */
  predicate Same(a: Value, b: Value) {
    if Number(a).Some? && Number(b).Some? then Number(a) == Number(b) else a == b
  }

  function Truthy(v: Value): bool {
    match v
    case BoolV(b) => b
    case IntV(n) => n != 0
    case RealV(x) => x != 0.0
    case TextV(t) => t != []
    case OtherV(t) => t
  }

  function Abs(x: real): real { if x < 0.0 then -x else x }

  function Max(a: int, b: int): int { if a < b then b else a }

  lemma Distribute(x: real, y: real, k: real)
    ensures (x + y) * k == x * k + y * k
  {
  }

  // ---- sequences, one element at a time ----

  lemma Snoc<T>(s: seq<T>, i: nat)
    requires i < |s|
    ensures s[..i + 1] == s[..i] + [s[i]] && s[..i + 1][..i] == s[..i]
    ensures i + 1 == |s| ==> s == s[..i] + [s[i]]
  {
  }

  /** A sequence is its front and its last element; stated the other way round so that the equation only
      enters a proof at its end. */
  lemma Rejoin<T>(s: seq<T>, r: seq<T>)
    requires s != [] && r == s[..|s| - 1] + [s[|s| - 1]]
    ensures r == s
  {
  }

  lemma InRejoined<T>(s: seq<T>, x: T)
    requires s != []
    ensures x in s <==> x in s[..|s| - 1] || x == s[|s| - 1]
  {
    Snoc(s, |s| - 1);
  }

  lemma Associate<T>(xs: seq<T>, ys: seq<T>, zs: seq<T>)
    ensures xs + (ys + zs) == xs + ys + zs
  {
  }

  ghost predicate Every<T>(xs: seq<T>, p: T -> bool) { forall i :: 0 <= i < |xs| ==> p(xs[i]) }

  lemma EverySplits<T>(xs: seq<T>, p: T -> bool)
    requires xs != []
    ensures Every(xs, p) <==> Every(xs[..|xs| - 1], p) && p(xs[|xs| - 1])
  {
    Snoc(xs, |xs| - 1);
  }
}

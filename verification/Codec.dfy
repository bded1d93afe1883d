/** Types and scaling over bits and registers: modbus_adapter/codec.py. */
module Codec {
  import opened Values
  import opened Signals
  import opened Bytes

  /** What a write sends: one coil or a list of registers. */
  datatype Wire = CoilWire(on: bool) | RegisterWire(regs: seq<int>)

  function ByteCount(t: SignalType): nat
    requires IntType(t) || FloatType(t)
  {
    2 * Width(t)
  }

  predicate Signed(t: SignalType) { t.Int16? || t.Int32? || t.Int64? }

  /** The values an integer type can hold. */
  predicate InRange(t: SignalType, n: int)
    requires IntType(t)
  {
    match t
    case Int16 => -0x8000 <= n < 0x8000
    case UInt16 => 0 <= n < 0x1_0000
    case Int32 => -0x8000_0000 <= n < 0x8000_0000
    case UInt32 => 0 <= n < 0x1_0000_0000
    case Int64 => -0x8000_0000_0000_0000 <= n < 0x8000_0000_0000_0000
    case UInt64 => 0 <= n < 0x1_0000_0000_0000_0000
  }

  function Modulus(width: nat): nat {
    if width == 1 then 0x1_0000 else if width == 2 then 0x1_0000_0000 else 0x1_0000_0000_0000_0000
  }

  function PackInt(t: SignalType, n: int): Result<seq<Byte>>
    requires IntType(t)
  {
    if !InRange(t, n) then Err(OutOfRange)
    else Ok(FromNat(if n < 0 then n + Modulus(Width(t)) else n, ByteCount(t)))
  }

  function UnpackInt(t: SignalType, data: seq<Byte>): Result<int>
    requires IntType(t)
  {
    if |data| != ByteCount(t) then Err(ShortRead)
    else
      var v := ToNat(data);
      Ok(if Signed(t) && v >= Modulus(Width(t)) / 2 then v - Modulus(Width(t)) else v)
  }

  // ---- scaling ----

  function Scale(s: SignalSpec): real { if s.scale.None? then 1.0 else s.scale.value }

  function Offset(s: SignalSpec): real { if s.offset.None? then 0.0 else s.offset.value }

  predicate Unscaled(s: SignalSpec) { Scale(s) == 1.0 && Offset(s) == 0.0 }

  /** raw * scale + offset, and back. */
  function Affine(x: real, s: SignalSpec): real { x * Scale(s) + Offset(s) }

  function Inverse(y: real, s: SignalSpec): real
    requires Scale(s) != 0.0
  {
    (y - Offset(s)) / Scale(s)
  }

  function ApplyScale(v: Value, s: SignalSpec): Value {
    if Unscaled(s) || Number(v).None? then v else RealV(Affine(Number(v).value, s))
  }

  /** Python's round: to the nearest integer, ties to the even one. */
  function HalfEven(x: real): int {
    var floor := x.Floor;
    var rest := x - floor as real;
    if rest < 0.5 || (rest == 0.5 && floor % 2 == 0) then floor else floor + 1
  }

  lemma HalfEvenNearest(x: real, n: int)
    ensures Abs(HalfEven(x) as real - x) <= 0.5
    ensures Abs(x - n as real) < 0.5 ==> HalfEven(x) == n
    ensures Abs(x - n as real) == 0.5 ==> HalfEven(x) % 2 == 0
  {
  }

  /** The value before it is rounded or packed: (value - offset) / scale unless the scaling is the identity. */
  function Unscale(v: Value, s: SignalSpec): Result<Value> {
    if Unscaled(s) then Ok(v)
    else if Number(v).None? then Err(WrongType)
    else if Scale(s) == 0.0 then Err(DivisionByZero)
    else Ok(RealV(Inverse(Number(v).value, s)))
  }

  function RawInt(v: Value, s: SignalSpec): Result<int> {
    var raw := Unscale(v, s);
    if raw.Err? then Err(raw.error)
    else match raw.value
      case BoolV(b) => Ok(if b then 1 else 0)
      case IntV(n) => Ok(n)
      case RealV(x) => Ok(HalfEven(x))
      case _ => Err(WrongType)
  }

  function RawReal(p: Platform, v: Value, s: SignalSpec): Result<real> {
    var raw := Unscale(v, s);
    if raw.Err? then Err(raw.error)
    else
      var x := AsReal(p, raw.value);
      if x.None? then Err(WrongType) else Ok(x.value)
  }

  // ---- decode ----

  function Pow2(k: nat): nat
    ensures Pow2(k) > 0
  {
    if k == 0 then 1 else 2 * Pow2(k - 1)
  }

  /** The value of a signal from the bits or registers read for it. */
  function Decode(p: Platform, raw: seq<int>, s: SignalSpec): Result<Value> {
    if BitTable(s.table) then
      if raw == [] then Err(ShortRead) else Ok(BoolV(raw[0] != 0))
    else match s.typ
      case Bool =>
        var bit := if s.bit.None? then 0 else s.bit.value;
        if raw == [] then Err(ShortRead)
        else if bit < 0 then Err(OutOfRange)
        else Ok(BoolV(raw[0] / Pow2(bit) % 2 == 1))
      case String => Ok(TextV(DecodeText(p, Assemble(raw, s.wordOrder, s.byteOrder))))
      case _ => DecodeNumber(p, Assemble(Take(raw, Width(s.typ)), s.wordOrder, s.byteOrder), s)
  }

  function Take<T>(xs: seq<T>, n: nat): seq<T> { if |xs| <= n then xs else xs[..n] }

  function DecodeNumber(p: Platform, data: seq<Byte>, s: SignalSpec): Result<Value>
    requires IntType(s.typ) || FloatType(s.typ)
  {
    if IntType(s.typ) then
      var n := UnpackInt(s.typ, data);
      if n.Err? then Err(n.error) else Ok(ApplyScale(IntV(n.value), s))
    else if |data| != ByteCount(s.typ) then Err(ShortRead)
    else Ok(ApplyScale(RealV(p.view(Width(s.typ), ToNat(data))), s))
  }

  function DecodeText(p: Platform, data: seq<Byte>): seq<Byte> {
    StripNul(if ValidUtf8(data) then data else p.repair(data))
  }

  // ---- encode ----

  function Encode(p: Platform, v: Value, s: SignalSpec): Result<Wire> {
    if BitTable(s.table) then Ok(CoilWire(Truthy(v)))
    else match s.typ
      case Bool => Err(UnknownType)
      case String =>
        if s.count.None? || s.count.value == 0 then Err(MissingCount)
        else ToWire(PaddedText(p, v, s.count.value), s)
      case _ =>
        var data := EncodeNumber(p, v, s);
        if data.Err? then Err(data.error) else ToWire(data.value, s)
  }

  function ToWire(data: seq<Byte>, s: SignalSpec): Result<Wire> {
    if |data| % 2 == 1 then Err(ShortRead) else Ok(RegisterWire(Disassemble(data, s.wordOrder, s.byteOrder)))
  }

  function EncodeNumber(p: Platform, v: Value, s: SignalSpec): Result<seq<Byte>>
    requires IntType(s.typ) || FloatType(s.typ)
  {
    if IntType(s.typ) then
      var n := RawInt(v, s);
      if n.Err? then Err(n.error) else PackInt(s.typ, n.value)
    else
      var x := RawReal(p, v, s);
      if x.Err? then Err(x.error)
      else
        var bits := p.pack(Width(s.typ), x.value);
        if bits.None? || bits.value >= Modulus(Width(s.typ)) then Err(OutOfRange)
        else Ok(FromNat(bits.value, ByteCount(s.typ)))
  }

  /** str(value), cut to 2 * count bytes and padded with NUL; a negative count cuts from the end. */
  function PaddedText(p: Platform, v: Value, count: int): seq<Byte> {
    var text := if v.TextV? then v.utf8 else p.render(v);
    var cut := if count >= 0 then Take(text, 2 * count)
               else if |text| + 2 * count >= 0 then text[..|text| + 2 * count] else [];
    if |cut| < 2 * count then cut + Zeros(2 * count - |cut|) else cut
  }

  // ---- integers ----

  lemma ModulusIsPow256(t: SignalType)
    requires IntType(t) || FloatType(t)
    ensures Pow256(ByteCount(t)) == Modulus(Width(t))
  {
    assert Pow256(2) == 0x1_0000;
    assert Pow256(4) == 0x1_0000 * Pow256(2);
    assert Pow256(6) == 0x1_0000 * Pow256(4);
    assert Pow256(8) == 0x1_0000 * Pow256(6);
  }

  /** Two's complement packing succeeds exactly on the values of the type, and unpacks to the value. */
  lemma PackUnpack(t: SignalType, n: int)
    requires IntType(t)
    ensures PackInt(t, n).Ok? <==> InRange(t, n)
    ensures InRange(t, n) ==> UnpackInt(t, PackInt(t, n).value) == Ok(n)
  {
    if InRange(t, n) {
      ModulusIsPow256(t);
      ToNatFromNat(if n < 0 then n + Modulus(Width(t)) else n, ByteCount(t));
    }
  }

  lemma UnpackPack(t: SignalType, data: seq<Byte>)
    requires IntType(t) && |data| == ByteCount(t)
    ensures var n := UnpackInt(t, data);
      n.Ok? && InRange(t, n.value) && PackInt(t, n.value) == Ok(data)
  {
    ModulusIsPow256(t);
    FromNatToNat(data);
  }

  // ---- main results ----

  predicate RegisterSignal(s: SignalSpec) { !BitTable(s.table) }

  /** Writing and reading a number only moves its bytes into registers and back. */
  lemma NumberOnTheWire(p: Platform, data: seq<Byte>, s: SignalSpec)
    requires RegisterSignal(s) && (IntType(s.typ) || FloatType(s.typ)) && |data| == ByteCount(s.typ)
    ensures var w := ToWire(data, s);
      && w.Ok? && w.value.RegisterWire? && |w.value.regs| == Width(s.typ)
      && Decode(p, w.value.regs, s) == DecodeNumber(p, data, s)
  {
    AssembleInverse([], data, s.wordOrder, s.byteOrder);
  }

  lemma NumberFromTheWire(p: Platform, regs: seq<int>, s: SignalSpec)
    requires RegisterSignal(s) && (IntType(s.typ) || FloatType(s.typ))
    requires Registers(regs) && |regs| == Width(s.typ)
    ensures var data := Assemble(regs, s.wordOrder, s.byteOrder);
      Decode(p, regs, s) == DecodeNumber(p, data, s) && ToWire(data, s) == Ok(RegisterWire(regs))
  {
    AssembleInverse(regs, [], s.wordOrder, s.byteOrder);
    assert Take(regs, Width(s.typ)) == regs;
  }

  /** What a successful write of an integer reads back as: the raw integer, scaled. */
  lemma IntegerReadback(p: Platform, v: Value, s: SignalSpec)
    requires RegisterSignal(s) && IntType(s.typ)
    ensures Encode(p, v, s).Ok? <==> RawInt(v, s).Ok? && InRange(s.typ, RawInt(v, s).value)
    ensures Encode(p, v, s).Ok? ==>
      && Encode(p, v, s).value.RegisterWire? && |Encode(p, v, s).value.regs| == Width(s.typ)
      && Decode(p, Encode(p, v, s).value.regs, s) == Ok(ApplyScale(IntV(RawInt(v, s).value), s))
  {
    var raw := RawInt(v, s);
    if raw.Ok? {
      PackUnpack(s.typ, raw.value);
      if InRange(s.typ, raw.value) {
        NumberOnTheWire(p, PackInt(s.typ, raw.value).value, s);
      }
    }
  }

  /** decode(encode(n)) == n for the integers of the type, in every order; all others fail to encode. */
  lemma IntegerRoundTrip(p: Platform, n: int, s: SignalSpec)
    requires RegisterSignal(s) && IntType(s.typ) && Unscaled(s)
    ensures Encode(p, IntV(n), s).Ok? <==> InRange(s.typ, n)
    ensures InRange(s.typ, n) ==> Decode(p, Encode(p, IntV(n), s).value.regs, s) == Ok(IntV(n))
  {
    IntegerReadback(p, IntV(n), s);
  }

  /** encode(decode(regs)) == regs for every list of 16-bit registers of the right length, in every
      order and under every invertible scaling: each representable raw value survives. */
  lemma RegistersRoundTrip(p: Platform, regs: seq<int>, s: SignalSpec)
    requires RegisterSignal(s) && IntType(s.typ) && Scale(s) != 0.0
    requires Registers(regs) && |regs| == Width(s.typ)
    ensures Decode(p, regs, s).Ok? && Encode(p, Decode(p, regs, s).value, s) == Ok(RegisterWire(regs))
  {
    var data := Assemble(regs, s.wordOrder, s.byteOrder);
    UnpackPack(s.typ, data);
    NumberFromTheWire(p, regs, s);
    RescaleInt(UnpackInt(s.typ, data).value, s);
  }

  lemma RescaleInt(n: int, s: SignalSpec)
    requires Scale(s) != 0.0
    ensures RawInt(ApplyScale(IntV(n), s), s) == Ok(n)
  {
    InverseAffine(n as real, s);
    HalfEvenNearest(n as real, n);
  }

  lemma InverseAffine(x: real, s: SignalSpec)
    requires Scale(s) != 0.0
    ensures Inverse(Affine(x, s), s) == x
  {
    assert Affine(x, s) - Offset(s) == x * Scale(s);
    Cancel(x, Scale(s));
  }

  lemma Cancel(x: real, k: real)
    requires k != 0.0
    ensures x * k / k == x
  {
  }

  /** The same for floats, for the bit patterns the platform packs as it unpacked them. Not all do: two patterns
      denote zero, and some denote no real number. */
  lemma FloatRegistersRoundTrip(p: Platform, regs: seq<int>, s: SignalSpec)
    requires RegisterSignal(s) && FloatType(s.typ) && Scale(s) != 0.0
    requires Registers(regs) && |regs| == Width(s.typ)
    requires var bits := ToNat(Assemble(regs, s.wordOrder, s.byteOrder));
      p.pack(Width(s.typ), p.view(Width(s.typ), bits)) == Some(bits)
    ensures Decode(p, regs, s).Ok? && Encode(p, Decode(p, regs, s).value, s) == Ok(RegisterWire(regs))
  {
    var data := Assemble(regs, s.wordOrder, s.byteOrder);
    NumberFromTheWire(p, regs, s);
    FloatBytesRoundTrip(p, data, s);
  }

  lemma FloatBytesRoundTrip(p: Platform, data: seq<Byte>, s: SignalSpec)
    requires FloatType(s.typ) && Scale(s) != 0.0 && |data| == ByteCount(s.typ)
    requires ToNat(data) < Modulus(Width(s.typ)) ==>
      p.pack(Width(s.typ), p.view(Width(s.typ), ToNat(data))) == Some(ToNat(data))
    ensures DecodeNumber(p, data, s).Ok? && EncodeNumber(p, DecodeNumber(p, data, s).value, s) == Ok(data)
  {
    ModulusIsPow256(s.typ);
    FromNatToNat(data);
    InverseAffine(p.view(Width(s.typ), ToNat(data)), s);
  }

  /** A number written to an integer signal reads back within half a scale step of itself whenever the
      rounded raw value fits, and fails to encode otherwise. */
  lemma ScalingBound(p: Platform, v: Value, s: SignalSpec)
    requires RegisterSignal(s) && IntType(s.typ) && Scale(s) != 0.0 && Number(v).Some?
    ensures var raw := HalfEven(Inverse(Number(v).value, s));
      && (Encode(p, v, s).Ok? <==> InRange(s.typ, raw))
      && (Encode(p, v, s).Ok? ==>
        var back := Decode(p, Encode(p, v, s).value.regs, s);
        back.Ok? && Number(back.value).Some? && Abs(Number(back.value).value - Number(v).value) <= Abs(Scale(s)) / 2.0)
  {
    IntegerReadback(p, v, s);
    RawIntRounds(v, s);
    if Encode(p, v, s).Ok? {
      ScaledNear(v, s);
    }
  }

  lemma RawIntRounds(v: Value, s: SignalSpec)
    requires Scale(s) != 0.0 && Number(v).Some?
    ensures RawInt(v, s) == Ok(HalfEven(Inverse(Number(v).value, s)))
  {
    if Unscaled(s) {
      assert Inverse(Number(v).value, s) == Number(v).value;
      match v
      case IntV(n) => HalfEvenNearest(n as real, n);
      case BoolV(b) => HalfEvenNearest(Number(v).value, if b then 1 else 0);
      case _ =>
    }
  }

  lemma ScaledNear(v: Value, s: SignalSpec)
    requires Scale(s) != 0.0 && Number(v).Some?
    ensures var n := HalfEven(Inverse(Number(v).value, s));
      && Number(ApplyScale(IntV(n), s)).Some?
      && Abs(Number(ApplyScale(IntV(n), s)).value - Number(v).value) <= Abs(Scale(s)) / 2.0
  {
    var y := Inverse(Number(v).value, s);
    HalfEvenNearest(y, 0);
    AffineInverse(Number(v).value, s);
    AffineDistance(HalfEven(y) as real, y, s);
    assert Unscaled(s) ==> Affine(HalfEven(y) as real, s) == HalfEven(y) as real;
  }

  lemma AffineInverse(y: real, s: SignalSpec)
    requires Scale(s) != 0.0
    ensures Affine(Inverse(y, s), s) == y
  {
  }

  lemma AffineDistance(n: real, y: real, s: SignalSpec)
    requires Abs(n - y) <= 0.5
    ensures Abs(Affine(n, s) - Affine(y, s)) <= Abs(Scale(s)) / 2.0
  {
    var k := Scale(s);
    assert Affine(n, s) - Affine(y, s) == (n - y) * k by { Distribute(n, -y, k); }
    Distribute(0.5, n - y, k);
    Distribute(0.5, y - n, k);
    SameSign(0.5 + (n - y), k);
    SameSign(0.5 + (y - n), k);
  }

  lemma SameSign(x: real, k: real)
    requires x >= 0.0
    ensures k >= 0.0 ==> x * k >= 0.0
    ensures k <= 0.0 ==> x * k <= 0.0
  {
  }

  // ---- text ----

  lemma TextOnTheWire(p: Platform, data: seq<Byte>, s: SignalSpec)
    requires RegisterSignal(s) && s.typ == String && |data| % 2 == 0
    ensures var w := ToWire(data, s);
      && w.Ok? && w.value.RegisterWire? && 2 * |w.value.regs| == |data|
      && Assemble(w.value.regs, s.wordOrder, s.byteOrder) == data
      && Decode(p, w.value.regs, s) == Ok(TextV(DecodeText(p, data)))
  {
    AssembleInverse([], data, s.wordOrder, s.byteOrder);
  }

  lemma PaddedTextSize(p: Platform, v: Value, count: nat)
    ensures |PaddedText(p, v, count)| == 2 * count
  {
  }

  /** Text whose UTF-8 form fits in 2 * count bytes and does not end in NUL returns unchanged. */
  lemma TextRoundTrip(p: Platform, text: seq<Byte>, s: SignalSpec)
    requires RegisterSignal(s) && s.typ == String && s.count.Some? && s.count.value > 0
    requires ValidUtf8(text) && |text| <= 2 * s.count.value && (text != [] ==> text[|text| - 1] != 0)
    ensures var w := Encode(p, TextV(text), s);
      w.Ok? && w.value.RegisterWire? && |w.value.regs| == s.count.value && Decode(p, w.value.regs, s) == Ok(TextV(text))
  {
    PaddedTextSize(p, TextV(text), s.count.value);
    TextOnTheWire(p, PaddedText(p, TextV(text), s.count.value), s);
    PaddedTextStrips(p, text, s.count.value);
  }

  lemma PaddedTextFits(p: Platform, text: seq<Byte>, count: nat)
    requires |text| <= 2 * count
    ensures PaddedText(p, TextV(text), count) == text + Zeros(2 * count - |text|)
  {
    if |text| == 2 * count { assert text + Zeros(0) == text; }
  }

  lemma PaddedTextStrips(p: Platform, text: seq<Byte>, count: nat)
    requires ValidUtf8(text) && |text| <= 2 * count && (text != [] ==> text[|text| - 1] != 0)
    ensures DecodeText(p, PaddedText(p, TextV(text), count)) == text
  {
    PaddedTextFits(p, text, count);
    PaddingKeepsUtf8(text, 2 * count - |text|);
    StripPadding(text, 2 * count - |text|);
  }

  /** Longer text leaves exactly its first 2 * count bytes in the registers. */
  lemma TextTruncation(p: Platform, text: seq<Byte>, s: SignalSpec)
    requires RegisterSignal(s) && s.typ == String && s.count.Some? && s.count.value > 0
    requires |text| >= 2 * s.count.value
    ensures var w := Encode(p, TextV(text), s);
      && w.Ok? && w.value.RegisterWire?
      && Assemble(w.value.regs, s.wordOrder, s.byteOrder) == text[..2 * s.count.value]
  {
    TextOnTheWire(p, PaddedText(p, TextV(text), s.count.value), s);
  }

  lemma NumberSize(p: Platform, v: Value, s: SignalSpec)
    requires (IntType(s.typ) || FloatType(s.typ)) && EncodeNumber(p, v, s).Ok?
    ensures |EncodeNumber(p, v, s).value| == ByteCount(s.typ)
  {
  }

  lemma WireSize(data: seq<Byte>, s: SignalSpec)
    requires |data| % 2 == 0
    ensures var w := ToWire(data, s);
      w.Ok? && w.value.RegisterWire? && 2 * |w.value.regs| == |data| && Registers(w.value.regs)
  {
  }

  /** Every successful encoding fills exactly the units the signal is read with, and its registers are
      16 bit. The one exception, a string of negative count, is excluded by config.schema.json. */
  lemma EncodedSize(p: Platform, v: Value, s: SignalSpec)
    requires Encode(p, v, s).Ok? && (s.typ == String && s.count.Some? ==> s.count.value > 0)
    ensures var w := Encode(p, v, s).value;
      && (BitTable(s.table) <==> w.CoilWire?)
      && (w.RegisterWire? ==> |w.regs| == UnitLength(s) && Registers(w.regs))
  {
    if !BitTable(s.table) {
      if s.typ == String {
        PaddedTextSize(p, v, s.count.value);
        WireSize(PaddedText(p, v, s.count.value), s);
      } else {
        NumberSize(p, v, s);
        WireSize(EncodeNumber(p, v, s).value, s);
      }
    }
  }

  // ---- types and scaling in figures ----

  /** The scale and the offset of a signal: 1 and 0 when absent. */
  ghost predicate ScaledBy(s: SignalSpec, k: real, o: real) {
    && (s.scale == Some(k) || (s.scale == None && k == 1.0))
    && (s.offset == Some(o) || (s.offset == None && o == 0.0))
  }

  /** An n of the type whose two's complement is the unsigned number u. */
  ghost predicate Holds(t: SignalType, u: int, n: int) {
    match t
    case Int16 => -0x8000 <= n < 0x8000 && (n == u || n == u - 0x1_0000)
    case UInt16 => n == u < 0x1_0000
    case Int32 => -0x8000_0000 <= n < 0x8000_0000 && (n == u || n == u - 0x1_0000_0000)
    case UInt32 => n == u < 0x1_0000_0000
    case Int64 => -0x8000_0000_0000_0000 <= n < 0x8000_0000_0000_0000 && (n == u || n == u - 0x1_0000_0000_0000_0000)
    case UInt64 => n == u < 0x1_0000_0000_0000_0000
    case _ => false
  }

  /** An n within the bounds of the type. */
  ghost predicate Representable(t: SignalType, n: int) { exists u :: 0 <= u < 0x1_0000_0000_0000_0000 && Holds(t, u, n) }

  /** The unsigned number in a register list. */
  ghost function Unsigned(regs: seq<int>, s: SignalSpec): int { ToNat(Assemble(regs, s.wordOrder, s.byteOrder)) }

  /** A register value x becomes x * scale + offset; without either it stays as it is, of its own kind. */
  ghost predicate Scales(from: Value, x: real, k: real, o: real, to: Value) {
    if k == 1.0 && o == 0.0 then to == from else to == RealV(x * k + o)
  }

  /** What an integer signal reads, from its registers, its scale and its offset. */
  lemma IntegerReads(p: Platform, regs: seq<int>, s: SignalSpec, n: int, k: real, o: real)
    requires RegisterSignal(s) && IntType(s.typ) && |regs| == UnitLength(s)
    requires Holds(s.typ, Unsigned(regs, s), n) && ScaledBy(s, k, o)
    ensures var r := Decode(p, regs, s); r.Ok? && Scales(IntV(n), n as real, k, o, r.value)
  {
    var data := Assemble(regs, s.wordOrder, s.byteOrder);
    FromNatToNat(data);
    ModulusIsPow256(s.typ);
    assert Take(regs, Width(s.typ)) == regs;
    UnpackHolds(s.typ, data, n);
    ScaleMeans(IntV(n), n as real, s, k, o);
  }

  lemma ScaleMeans(from: Value, x: real, s: SignalSpec, k: real, o: real)
    requires Number(from) == Some(x) && ScaledBy(s, k, o)
    ensures Scales(from, x, k, o, ApplyScale(from, s))
  {
  }

  lemma UnpackHolds(t: SignalType, data: seq<Byte>, n: int)
    requires IntType(t) && |data| == ByteCount(t) && Holds(t, ToNat(data), n)
    requires ToNat(data) < Modulus(Width(t))
    ensures UnpackInt(t, data) == Ok(n)
  {
  }

  /** What a float signal reads. */
  lemma FloatReads(p: Platform, regs: seq<int>, s: SignalSpec, k: real, o: real)
    requires RegisterSignal(s) && FloatType(s.typ) && |regs| == UnitLength(s) && ScaledBy(s, k, o)
    ensures var r, x := Decode(p, regs, s), p.view(if s.typ == Float32 then 2 else 4, Unsigned(regs, s));
      r.Ok? && Scales(RealV(x), x, k, o, r.value)
  {
    assert Take(regs, Width(s.typ)) == regs;
  }

  /** Registers past the value are ignored; too few are an error. */
  lemma NumberNeedsRegisters(p: Platform, regs: seq<int>, s: SignalSpec)
    requires RegisterSignal(s) && (IntType(s.typ) || FloatType(s.typ))
    ensures |regs| < UnitLength(s) ==> Decode(p, regs, s).Err?
    ensures |regs| >= UnitLength(s) ==> Decode(p, regs, s) == Decode(p, regs[..UnitLength(s)], s)
  {
    if |regs| >= UnitLength(s) { assert Take(regs[..UnitLength(s)], UnitLength(s)) == Take(regs, UnitLength(s)); }
  }

  /** The integer nearest to q, the even one of two. */
  ghost predicate Rounds(q: real, n: int) {
    -0.5 <= q - n as real <= 0.5 && (q - n as real == 0.5 || q - n as real == -0.5 ==> n % 2 == 0)
  }

  lemma RoundsHalfEven(q: real, n: int)
    requires Rounds(q, n)
    ensures HalfEven(q) == n
  {
  }

  /** What writing a number y to an integer signal sends: the nearest integer to (y - offset) / scale, in two's
      complement; it fails exactly when the type does not hold that integer. */
  lemma IntegerWrites(p: Platform, v: Value, s: SignalSpec, y: real, k: real, o: real, n: int)
    requires RegisterSignal(s) && IntType(s.typ) && Denotes(v, y) && ScaledBy(s, k, o) && k != 0.0
    requires Rounds((y - o) / k, n)
    ensures Encode(p, v, s).Ok? <==> Representable(s.typ, n)
    ensures Encode(p, v, s).Ok? ==>
      var w := Encode(p, v, s).value;
      w.RegisterWire? && |w.regs| == UnitLength(s) && Holds(s.typ, Unsigned(w.regs, s), n)
  {
    RawIntMeans(v, s, y, k, o, (y - o) / k, n);
    RawIntWrites(p, v, s, n);
  }

  lemma RawIntMeans(v: Value, s: SignalSpec, y: real, k: real, o: real, q: real, n: int)
    requires Denotes(v, y) && ScaledBy(s, k, o) && k != 0.0 && q == (y - o) / k && Rounds(q, n)
    ensures RawInt(v, s) == Ok(n)
  {
    RawIntRounds(v, s);
    RoundsHalfEven(q, n);
  }

  lemma RawIntWrites(p: Platform, v: Value, s: SignalSpec, n: int)
    requires RegisterSignal(s) && IntType(s.typ) && RawInt(v, s) == Ok(n)
    ensures Encode(p, v, s).Ok? <==> Representable(s.typ, n)
    ensures Encode(p, v, s).Ok? ==>
      var w := Encode(p, v, s).value;
      w.RegisterWire? && |w.regs| == UnitLength(s) && Holds(s.typ, Unsigned(w.regs, s), n)
  {
    RangeHolds(s.typ, n);
    if InRange(s.typ, n) {
      PackHolds(s.typ, n);
      BytesOnTheWire(PackInt(s.typ, n).value, s);
    }
  }

  lemma RangeHolds(t: SignalType, n: int)
    requires IntType(t)
    ensures Representable(t, n) <==> InRange(t, n)
  {
    if InRange(t, n) { assert Holds(t, if n < 0 then n + Modulus(Width(t)) else n, n); }
  }

  lemma PackHolds(t: SignalType, n: int)
    requires IntType(t) && InRange(t, n)
    ensures PackInt(t, n).Ok? && Holds(t, ToNat(PackInt(t, n).value), n)
  {
    ModulusIsPow256(t);
    ToNatFromNat(if n < 0 then n + Modulus(Width(t)) else n, ByteCount(t));
  }

  /** What writing a number y to a float signal sends: the platform's pattern for (y - offset) / scale. */
  lemma FloatWrites(p: Platform, v: Value, s: SignalSpec, y: real, k: real, o: real)
    requires RegisterSignal(s) && FloatType(s.typ) && Denotes(v, y) && ScaledBy(s, k, o) && k != 0.0
    ensures var bits, w := p.pack(if s.typ == Float32 then 2 else 4, (y - o) / k), Encode(p, v, s);
      && (bits.Some? && bits.value < (if s.typ == Float32 then 0x1_0000_0000 else 0x1_0000_0000_0000_0000) <==> w.Ok?)
      && (w.Ok? ==> w.value.RegisterWire? && |w.value.regs| == UnitLength(s) && Unsigned(w.value.regs, s) == bits.value)
  {
    RawRealMeans(p, v, s, y, k, o, (y - o) / k);
    RawRealWrites(p, v, s, (y - o) / k);
  }

  lemma RawRealMeans(p: Platform, v: Value, s: SignalSpec, y: real, k: real, o: real, q: real)
    requires Denotes(v, y) && ScaledBy(s, k, o) && k != 0.0 && q == (y - o) / k
    ensures RawReal(p, v, s) == Ok(q)
  {
  }

  lemma RawRealWrites(p: Platform, v: Value, s: SignalSpec, q: real)
    requires RegisterSignal(s) && FloatType(s.typ) && RawReal(p, v, s) == Ok(q)
    ensures var bits, w := p.pack(if s.typ == Float32 then 2 else 4, q), Encode(p, v, s);
      && (bits.Some? && bits.value < (if s.typ == Float32 then 0x1_0000_0000 else 0x1_0000_0000_0000_0000) <==> w.Ok?)
      && (w.Ok? ==> w.value.RegisterWire? && |w.value.regs| == UnitLength(s) && Unsigned(w.value.regs, s) == bits.value)
  {
    var bits := p.pack(Width(s.typ), q);
    if bits.Some? && bits.value < Modulus(Width(s.typ)) { BitsOnTheWire(bits.value, s); }
  }

  lemma BytesOnTheWire(data: seq<Byte>, s: SignalSpec)
    requires RegisterSignal(s) && (IntType(s.typ) || FloatType(s.typ)) && |data| == ByteCount(s.typ)
    ensures var w := ToWire(data, s);
      w.Ok? && w.value.RegisterWire? && |w.value.regs| == UnitLength(s) && Unsigned(w.value.regs, s) == ToNat(data)
  {
    AssembleInverse([], data, s.wordOrder, s.byteOrder);
  }

  lemma BitsOnTheWire(bits: nat, s: SignalSpec)
    requires RegisterSignal(s) && FloatType(s.typ) && bits < Modulus(Width(s.typ))
    ensures var w := ToWire(FromNat(bits, ByteCount(s.typ)), s);
      w.Ok? && w.value.RegisterWire? && |w.value.regs| == UnitLength(s) && Unsigned(w.value.regs, s) == bits
  {
    ModulusIsPow256(s.typ);
    ToNatFromNat(bits, ByteCount(s.typ));
    BytesOnTheWire(FromNat(bits, ByteCount(s.typ)), s);
  }

  /** What no numeric signal takes: anything under a scale of 0 and any value that is no number, except text that
      float() reads on an unscaled float signal. */
  lemma NumberRefuses(p: Platform, v: Value, s: SignalSpec, k: real, o: real)
    requires RegisterSignal(s) && (IntType(s.typ) || FloatType(s.typ)) && ScaledBy(s, k, o)
    requires k == 0.0 || v.OtherV? || (v.TextV? && (IntType(s.typ) || k != 1.0 || o != 0.0 || p.parse(v.utf8).None?))
    ensures Encode(p, v, s).Err?
  {
  }

  /** A numeral written to an unscaled float signal is written as its number. */
  lemma NumeralWrites(p: Platform, v: Value, s: SignalSpec, y: real)
    requires RegisterSignal(s) && FloatType(s.typ) && ScaledBy(s, 1.0, 0.0) && v.TextV? && p.parse(v.utf8) == Some(y)
    ensures Encode(p, v, s) == Encode(p, RealV(y), s)
  {
  }

  // ---- flags and text in figures ----

  lemma PowersOfTwo(k: nat)
    ensures Pow2(k) == (if k == 0 then 1 else 2 * Pow2(k - 1))
    ensures Pow2(0) == 1 && Pow2(1) == 2 && Pow2(2) == 4 && Pow2(3) == 8 && Pow2(8) == 256 && Pow2(15) == 0x8000
  {
    assert Pow2(8) == 256;
  }

  /** A flag in a register is the bit of that number, counted from the lowest; bit 0 when none is given. */
  lemma FlagReads(p: Platform, regs: seq<int>, s: SignalSpec, b: nat, above: nat, on: bool, below: nat)
    requires RegisterSignal(s) && s.typ == Bool && regs != []
    requires s.bit == Some(b) || (s.bit == None && b == 0)
    requires regs[0] == (2 * above + if on then 1 else 0) * Pow2(b) + below && below < Pow2(b)
    ensures Decode(p, regs, s) == Ok(BoolV(on))
  {
    DivideBack(2 * above + if on then 1 else 0, Pow2(b), below);
  }

  lemma DivideBack(q: nat, d: nat, r: nat)
    requires r < d
    ensures (q * d + r) / d == q
  {
    var n := q * d + r;
    assert n == n / d * d + n % d && 0 <= n % d < d;
    if n / d < q { Multiples(n / d + 1, q, d); }
    if n / d > q { Multiples(q + 1, n / d, d); }
  }

  lemma Multiples(x: int, y: int, d: nat)
    requires x <= y
    ensures x * d <= y * d
  {
  }

  /** Bits read as flags; any value is written as its truth; flags in registers are never encoded. */
  lemma BitsAreTruth(p: Platform, raw: seq<int>, v: Value, s: SignalSpec)
    ensures s.table == Coil || s.table == Discrete ==>
      && (raw == [] ==> Decode(p, raw, s).Err?)
      && (raw != [] ==> Decode(p, raw, s) == Ok(BoolV(raw[0] != 0)))
      && Encode(p, v, s) == Ok(CoilWire(v !in {BoolV(false), IntV(0), RealV(0.0), TextV([]), OtherV(false)}))
    ensures (s.table == Holding || s.table == Input) && s.typ == Bool ==> Encode(p, v, s).Err?
  {
  }

  /** Text, or the printed form of any other value, fills the registers from the front; NULs fill the rest. */
  lemma TextWrites(p: Platform, v: Value, s: SignalSpec, text: seq<Byte>)
    requires RegisterSignal(s) && s.typ == String && s.count.Some? && s.count.value > 0
    requires v == TextV(text) || (!v.TextV? && text == p.render(v))
    ensures var w, size := Encode(p, v, s), 2 * s.count.value;
      && w.Ok? && w.value.RegisterWire?
      && var data := Assemble(w.value.regs, s.wordOrder, s.byteOrder);
         |data| == size && forall i :: 0 <= i < size ==> data[i] == if i < |text| then text[i] else 0
  {
    PaddedHolds(p, v, s.count.value, text);
    TextOnTheWire(p, PaddedText(p, v, s.count.value), s);
  }

  lemma PaddedHolds(p: Platform, v: Value, count: nat, text: seq<Byte>)
    requires v == TextV(text) || (!v.TextV? && text == p.render(v))
    ensures var data := PaddedText(p, v, count);
      |data| == 2 * count && forall i :: 0 <= i < 2 * count ==> data[i] == if i < |text| then text[i] else 0
  {
  }

  lemma TextNeedsLength(p: Platform, v: Value, s: SignalSpec)
    requires RegisterSignal(s) && s.typ == String && (s.count == None || s.count == Some(0))
    ensures Encode(p, v, s).Err?
  {
  }

  /** Text reads as its bytes without the NULs at the end; bytes that are no text go through the replacement. */
  lemma TextReads(p: Platform, regs: seq<int>, s: SignalSpec, text: seq<Byte>, n: nat)
    requires RegisterSignal(s) && s.typ == String && (text == [] || text[|text| - 1] != 0)
    requires var data := Assemble(regs, s.wordOrder, s.byteOrder);
      (if ValidUtf8(data) then data else p.repair(data)) == text + Zeros(n)
    ensures Decode(p, regs, s) == Ok(TextV(text))
  {
    StripPadding(text, n);
  }

  /** A raw 600 at a tenth with an offset of -40 is 20, and 20 is written as 600. */
  lemma TenthsOffset(p: Platform, s: SignalSpec)
    requires RegisterSignal(s) && s.typ == UInt16 && s.scale == Some(0.1) && s.offset == Some(-40.0)
    requires s.byteOrder == Big
    ensures Decode(p, [600], s) == Ok(RealV(20.0))
    ensures Encode(p, RealV(20.0), s) == Ok(RegisterWire([600]))
  {
    SingleRegister(s, 600);
    IntegerReads(p, [600], s, 600, 0.1, -40.0);
    IntegerWrites(p, RealV(20.0), s, 20.0, 0.1, -40.0, 600);
    var regs := Encode(p, RealV(20.0), s).value.regs;
    SingleRegister(s, regs[0]);
    assert regs == [regs[0]];
  }

  lemma SingleRegister(s: SignalSpec, w: int)
    requires 0 <= w < 0x1_0000 && s.byteOrder == Big
    ensures Unsigned([w], s) == w
  {
    HighLow(w);
    assert Reverse([w]) == [w];
    ConcatAppend([], w, Big);
    assert [] + [w] == [w];
    assert Assemble([w], s.wordOrder, Big) == [High(w), Low(w)];
    ToNatPair([], High(w), Low(w));
    assert [] + [High(w), Low(w)] == [High(w), Low(w)];
  }
}

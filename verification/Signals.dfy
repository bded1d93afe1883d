/** Configured signals: modbus_adapter/config/signal_spec.py and the tables of modbus_adapter/codec.py. */
module Signals {
  import opened Values
  import opened Deadband
  import opened Numerals

  datatype Table = Coil | Discrete | Holding | Input

  datatype SignalType =
    | Int16 | UInt16 | Int32 | UInt32 | Int64 | UInt64 | Float32 | Float64 | Bool | String

  /** Any word or byte order other than "little" behaves as big. */
  datatype Order = Big | Little

  datatype SignalSpec = SignalSpec(
    name: string, table: Table, address: int, typ: SignalType, count: Option<int>,
    wordOrder: Order, byteOrder: Order, bit: Option<int>,
    scale: Option<real>, offset: Option<real>, deadband: DeadbandSpec)

  predicate BitTable(t: Table) { t == Coil || t == Discrete }

  predicate Writable(t: Table) { t == Coil || t == Holding }

  predicate IntType(t: SignalType) {
    t.Int16? || t.UInt16? || t.Int32? || t.UInt32? || t.Int64? || t.UInt64?
  }

  predicate FloatType(t: SignalType) { t.Float32? || t.Float64? }

  /** Quantities a single request may read: sections 6.1 to 6.4 of the MODBUS Application Protocol
      Specification V1.1b3. */
  function Cap(t: Table): int { if BitTable(t) then 2000 else 125 }

  /** Registers of a numeric type. */
  function Width(t: SignalType): nat
    requires IntType(t) || FloatType(t)
  {
    match t
    case Int16 => 1
    case UInt16 => 1
    case Int32 => 2
    case UInt32 => 2
    case Float32 => 2
    case _ => 4
  }

  /** Read length: bits for coils and discrete inputs, registers otherwise. A string without a count
      never gets past FromDict. */
  function UnitLength(s: SignalSpec): int {
    if BitTable(s.table) then 1
    else match s.typ
      case Bool => 1
      case String => if s.count.Some? then s.count.value else 0
      case _ => Width(s.typ)
  }

  function End(s: SignalSpec): int { s.address + UnitLength(s) }

  // ---- parsing a signal description ----

  /** A signal description as received: absent keys are None. */
  datatype RawSignal = RawSignal(
    name: Option<string>, table: Option<string>, address: Option<int>, typ: Option<string>, count: Option<int>,
    wordOrder: Option<string>, byteOrder: Option<string>, bit: Option<int>,
    scale: Option<real>, offset: Option<real>, deadband: Option<DeadbandSpec>)

  function TableName(t: Table): string {
    match t
    case Coil => "coil"
    case Discrete => "discrete"
    case Holding => "holding"
    case Input => "input"
  }

  function TypeName(t: SignalType): string {
    match t
    case Int16 => "int16"
    case UInt16 => "uint16"
    case Int32 => "int32"
    case UInt32 => "uint32"
    case Int64 => "int64"
    case UInt64 => "uint64"
    case Float32 => "float32"
    case Float64 => "float64"
    case Bool => "bool"
    case String => "string"
  }

  function ParseTable(s: string): Option<Table> {
    if s == "coil" then Some(Coil) else if s == "discrete" then Some(Discrete)
    else if s == "holding" then Some(Holding) else if s == "input" then Some(Input) else None
  }

  function ParseType(s: string): Option<SignalType> {
    if s == "int16" then Some(Int16) else if s == "uint16" then Some(UInt16)
    else if s == "int32" then Some(Int32) else if s == "uint32" then Some(UInt32)
    else if s == "int64" then Some(Int64) else if s == "uint64" then Some(UInt64)
    else if s == "float32" then Some(Float32) else if s == "float64" then Some(Float64)
    else if s == "bool" then Some(Bool) else if s == "string" then Some(String) else None
  }

  function ParseOrder(s: Option<string>): Order { if s == Some("little") then Little else Big }

  function FromDict(o: RawSignal): Result<SignalSpec> {
    if o.name.None? || o.name.value == "" then Err(BadSignal)
    else if o.table.None? || ParseTable(o.table.value).None? then Err(BadSignal)
    else if o.address.None? || o.address.value < 0 then Err(BadSignal)
    else
      var table := ParseTable(o.table.value).value;
      var typeName := if o.typ.Some? then o.typ.value else if BitTable(table) then "bool" else "uint16";
      if BitTable(table) && typeName != "bool" then Err(BadSignal)
      else if ParseType(typeName).None? then Err(BadSignal)
      else
        var typ := ParseType(typeName).value;
        if typ == String && (o.count.None? || o.count.value == 0) then Err(BadSignal)
        else if o.bit.Some? && (BitTable(table) || typ != Bool) then Err(BadSignal)
        else Ok(SignalSpec(
          o.name.value, table, o.address.value, typ, o.count,
          ParseOrder(o.wordOrder), ParseOrder(o.byteOrder), o.bit, o.scale, o.offset,
          if o.deadband.Some? then o.deadband.value else DeadbandSpec(NoBand, 0.0)))
  }

  /** What the planner and the codec may rely on for every accepted description, and exactly which
      accepted descriptions fit one protocol request: all but strings of a wrong register count. */
  lemma AcceptedSignals(o: RawSignal)
    requires FromDict(o).Ok?
    ensures var s := FromDict(o).value;
      && s.address >= 0 && s.name != ""
      && (BitTable(s.table) ==> s.typ == Bool && s.bit.None?)
      && (s.typ == String ==> s.count.Some? && s.count.value != 0)
      && (1 <= UnitLength(s) <= Cap(s.table) <==> (s.typ == String ==> 1 <= s.count.value <= 125))
  {
  }

  // ---- the stable id ----

  function SignalId(s: SignalSpec, unit: int): string {
    "u" + (Numeral(unit) + "/" + (TableName(s.table) + "/" + (Numeral(s.address) + "/" + TypeName(s.typ))))
  }

  /** A text splits at its first slash in one way only. */
  lemma SlashSplits(a: string, b: string, c: string, d: string)
    requires a + "/" + b == c + "/" + d
    requires '/' !in a && '/' !in c
    ensures a == c && b == d
  {
    var x, y := a + "/" + b, c + "/" + d;
    assert x[|a|] == '/' && y[|c|] == '/';
    assert forall i :: 0 <= i < |a| ==> x[i] == a[i] && x[i] != '/';
    assert forall i :: 0 <= i < |c| ==> y[i] == c[i] && y[i] != '/';
    assert a == x[..|a|] == y[..|c|] == c;
    assert b == x[|a| + 1..] == y[|c| + 1..] == d;
  }

  lemma NamesInjective(a: SignalSpec, b: SignalSpec)
    ensures TableName(a.table) == TableName(b.table) <==> a.table == b.table
    ensures TypeName(a.typ) == TypeName(b.typ) <==> a.typ == b.typ
    ensures '/' !in TableName(a.table)
  {
    assert ParseTable(TableName(a.table)) == Some(a.table) && ParseTable(TableName(b.table)) == Some(b.table);
    assert ParseType(TypeName(a.typ)) == Some(a.typ) && ParseType(TypeName(b.typ)) == Some(b.typ);
  }

  /** Two signals share a stable id exactly when unit, table, address and type agree; `bit`, `count`
      and the scaling are not part of it. The write allow-list matches on this text. */
  lemma SignalIdIdentifies(a: SignalSpec, ua: int, b: SignalSpec, ub: int)
    ensures SignalId(a, ua) == SignalId(b, ub)
      <==> ua == ub && a.table == b.table && a.address == b.address && a.typ == b.typ
  {
    NamesInjective(a, b);
    NamesInjective(b, a);
    NumeralNoSlash(ua);
    NumeralNoSlash(ub);
    NumeralNoSlash(a.address);
    NumeralNoSlash(b.address);
    if SignalId(a, ua) == SignalId(b, ub) {
      var a2, b2 := Numeral(a.address) + "/" + TypeName(a.typ), Numeral(b.address) + "/" + TypeName(b.typ);
      var a1, b1 := TableName(a.table) + "/" + a2, TableName(b.table) + "/" + b2;
      assert Numeral(ua) + "/" + a1 == SignalId(a, ua)[1..];
      assert Numeral(ub) + "/" + b1 == SignalId(b, ub)[1..];
      SlashSplits(Numeral(ua), a1, Numeral(ub), b1);
      SlashSplits(TableName(a.table), a2, TableName(b.table), b2);
      SlashSplits(Numeral(a.address), TypeName(a.typ), Numeral(b.address), TypeName(b.typ));
      NumeralInjective(ua, ub);
      NumeralInjective(a.address, b.address);
    }
  }

  // ---- the description in texts and figures ----

  ghost predicate BitName(table: string) { table == "coil" || table == "discrete" }

  ghost predicate TableText(table: string) { BitName(table) || table == "holding" || table == "input" }

  ghost predicate TypeText(typ: string) {
    || typ == "int16" || typ == "uint16" || typ == "int32" || typ == "uint32" || typ == "int64" || typ == "uint64"
    || typ == "float32" || typ == "float64" || typ == "bool" || typ == "string"
  }

  /** Exactly the descriptions accepted: a name, a known table, an address that is not negative, no type but "bool" for
      bits and a known one for registers, a length for a string, and a bit only for a flag in a register. */
  lemma AcceptedExactly(o: RawSignal)
    ensures FromDict(o).Ok? <==>
      && o.name.Some? && o.name.value != "" && o.table.Some? && TableText(o.table.value)
      && o.address.Some? && o.address.value >= 0
      && (o.typ.Some? ==> TypeText(o.typ.value) && (BitName(o.table.value) ==> o.typ.value == "bool"))
      && (o.typ == Some("string") ==> o.count.Some? && o.count.value != 0)
      && (o.bit.Some? ==> !BitName(o.table.value) && o.typ == Some("bool"))
  {
  }

  /** Each key gives its own field; absent orders are big, an absent type is a flag for bits and uint16 for registers,
      an absent deadband is none. */
  lemma KeysGiveFields(o: RawSignal)
    requires FromDict(o).Ok?
    ensures var s := FromDict(o).value;
      && Some(s.name) == o.name && Some(s.address) == o.address && Some(TableName(s.table)) == o.table
      && s.count == o.count && s.bit == o.bit && s.scale == o.scale && s.offset == o.offset
      && (s.wordOrder == Little <==> o.wordOrder == Some("little"))
      && (s.byteOrder == Little <==> o.byteOrder == Some("little"))
      && (o.typ.Some? ==> TypeName(s.typ) == o.typ.value)
      && (o.typ.None? ==> s.typ == if o.table == Some("coil") || o.table == Some("discrete") then Bool else UInt16)
      && (if o.deadband.Some? then s.deadband == o.deadband.value else s.deadband.kind == NoBand)
  {
  }

  /** Which text names which table and type. */
  lemma Names(t: Table, y: SignalType)
    ensures TableName(Coil) == "coil" && TableName(Discrete) == "discrete"
    ensures TableName(Holding) == "holding" && TableName(Input) == "input"
    ensures ParseTable(TableName(t)) == Some(t) && ParseType(TypeName(y)) == Some(y)
    ensures TypeName(Int16) == "int16" && TypeName(Int32) == "int32" && TypeName(Int64) == "int64"
    ensures TypeName(UInt16) == "uint16" && TypeName(UInt32) == "uint32" && TypeName(UInt64) == "uint64"
    ensures TypeName(Float32) == "float32" && TypeName(Float64) == "float64"
    ensures TypeName(Bool) == "bool" && TypeName(String) == "string"
  {
  }

  /** Read lengths: one bit; one, two or four registers by the width of the type; `count` registers of text. */
  lemma ReadLengths(s: SignalSpec)
    ensures s.table == Coil || s.table == Discrete ==> UnitLength(s) == 1
    ensures s.table == Holding || s.table == Input ==>
      && (s.typ in {Int16, UInt16, Bool} ==> UnitLength(s) == 1)
      && (s.typ in {Int32, UInt32, Float32} ==> UnitLength(s) == 2)
      && (s.typ in {Int64, UInt64, Float64} ==> UnitLength(s) == 4)
      && (s.typ == String && s.count.Some? ==> UnitLength(s) == s.count.value)
  {
  }

  /** The id of a signal, in the example of its own documentation. */
  lemma IdText(s: SignalSpec)
    requires s.table == Holding && s.address == 40 && s.typ == Float32
    ensures SignalId(s, 1) == "u1/holding/40/float32"
  {
    assert Numeral(1) == "1";
    assert Numeral(40) == "40" by { PrintedDigits(); }
    assert "40" + ("/" + "float32") == "40/float32";
    assert "holding" + ("/" + "40/float32") == "holding/40/float32";
  }
}

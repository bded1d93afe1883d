/** Byte strings, big-endian numbers, register lists and the UTF-8 form of text. */
module Bytes {
  import opened Values
  import opened Signals

  function Pow256(k: nat): nat { if k == 0 then 1 else 256 * Pow256(k - 1) }

  /** The unsigned number a big-endian byte string denotes. */
  function ToNat(bs: seq<Byte>): nat {
    if bs == [] then 0 else 256 * ToNat(bs[..|bs| - 1]) + bs[|bs| - 1]
  }

  /** The low `k` bytes of a number, most significant first. */
  function FromNat(v: nat, k: nat): (bs: seq<Byte>)
    ensures |bs| == k
  {
    if k == 0 then [] else FromNat(v / 256, k - 1) + [v % 256]
  }

  lemma {:induction false} FromNatToNat(bs: seq<Byte>)
    ensures ToNat(bs) < Pow256(|bs|) && FromNat(ToNat(bs), |bs|) == bs
  {
    if bs != [] { FromNatToNat(bs[..|bs| - 1]); }
  }

  lemma {:induction false} ToNatFromNat(v: nat, k: nat)
    requires v < Pow256(k)
    ensures ToNat(FromNat(v, k)) == v
  {
    if k > 0 {
      ToNatFromNat(v / 256, k - 1);
      assert FromNat(v, k)[..k - 1] == FromNat(v / 256, k - 1);
    }
  }

  // ---- register lists ----

  function Reverse<T>(s: seq<T>): (r: seq<T>)
    ensures |r| == |s| && forall i :: 0 <= i < |s| ==> r[i] == s[|s| - 1 - i]
  {
    if s == [] then [] else Reverse(s[1..]) + [s[0]]
  }

  lemma ReverseTwice<T>(s: seq<T>)
    ensures Reverse(Reverse(s)) == s
  {
  }

  /** The bytes of a register; the value is masked to 16 bits. */
  function High(w: int): Byte { w % 0x1_0000 / 256 }

  function Low(w: int): Byte { w % 256 }

  /** One register as two bytes in the given byte order. */
  function RegisterBytes(w: int, order: Order): (bs: seq<Byte>)
    ensures |bs| == 2
  {
    if order == Little then [Low(w), High(w)] else [High(w), Low(w)]
  }

  /** Two bytes as a register. */
  function Word(a: Byte, b: Byte, order: Order): (w: int)
    ensures 0 <= w < 0x1_0000
  {
    if order == Little then 256 * b + a else 256 * a + b
  }

  function Concat(words: seq<int>, order: Order): (bs: seq<Byte>)
    ensures |bs| == 2 * |words|
  {
    if words == [] then [] else Concat(words[..|words| - 1], order) + RegisterBytes(words[|words| - 1], order)
  }

  function Split(data: seq<Byte>, order: Order): (words: seq<int>)
    requires |data| % 2 == 0
    ensures 2 * |words| == |data| && Registers(words)
  {
    if data == [] then []
    else Split(data[..|data| - 2], order) + [Word(data[|data| - 2], data[|data| - 1], order)]
  }

  predicate Registers(words: seq<int>) { forall i :: 0 <= i < |words| ==> 0 <= words[i] < 0x1_0000 }

  /** Registers to a big-endian byte string. */
  function Assemble(regs: seq<int>, wordOrder: Order, byteOrder: Order): (bs: seq<Byte>)
    ensures |bs| == 2 * |regs|
  {
    Concat(if wordOrder == Little then Reverse(regs) else regs, byteOrder)
  }

  /** A big-endian byte string to registers. */
  function Disassemble(data: seq<Byte>, wordOrder: Order, byteOrder: Order): (regs: seq<int>)
    requires |data| % 2 == 0
    ensures 2 * |regs| == |data| && Registers(regs)
  {
    var words := Split(data, byteOrder);
    if wordOrder == Little then Reverse(words) else words
  }

  method AssembleRegisters(regs: seq<int>, wordOrder: Order, byteOrder: Order) returns (out: seq<Byte>)
    ensures out == Assemble(regs, wordOrder, byteOrder)
  {
    var words := if wordOrder == Little then Reverse(regs) else regs;
    out := [];
    for i := 0 to |words|
      invariant out == Concat(words[..i], byteOrder)
    {
      var b := [High(words[i]), Low(words[i])];
      if byteOrder == Little {
        b := [b[1], b[0]];
      }
      ConcatStep(words, i, byteOrder);
      out := out + b;
    }
    assert words[..|words|] == words;
  }

  method DisassembleBytes(data: seq<Byte>, wordOrder: Order, byteOrder: Order) returns (words: seq<int>)
    requires |data| % 2 == 0
    ensures words == Disassemble(data, wordOrder, byteOrder)
  {
    words := [];
    var i := 0;
    while i < |data|
      invariant 0 <= i <= |data| && i % 2 == 0
      invariant words == Split(data[..i], byteOrder)
    {
      var high, low := data[i], data[i + 1];
      if byteOrder == Little {
        high, low := low, high;
      }
      SplitStep(data, i, byteOrder);
      words := words + [256 * (high as int) + low];
      i := i + 2;
    }
    assert data[..|data|] == data;
    if wordOrder == Little {
      words := Reverse(words);
    }
  }

  lemma HighLow(w: int)
    requires 0 <= w < 0x1_0000
    ensures 256 * High(w) + Low(w) == w
  {
  }

  lemma WordBytes(a: Byte, b: Byte)
    ensures High(256 * a + b) == a && Low(256 * a + b) == b
  {
  }

  lemma RegisterRoundTrip(w: int, order: Order)
    requires 0 <= w < 0x1_0000
    ensures Word(RegisterBytes(w, order)[0], RegisterBytes(w, order)[1], order) == w
  {
    HighLow(w);
  }

  lemma BytesRoundTrip(a: Byte, b: Byte, order: Order)
    ensures RegisterBytes(Word(a, b, order), order) == [a, b]
  {
    WordBytes(a, b);
    WordBytes(b, a);
  }

  lemma ConcatStep(words: seq<int>, i: nat, order: Order)
    requires i < |words|
    ensures Concat(words[..i + 1], order) == Concat(words[..i], order) + RegisterBytes(words[i], order)
  {
    assert words[..i + 1][..i] == words[..i];
  }

  lemma SplitAppend(data: seq<Byte>, a: Byte, b: Byte, order: Order)
    requires |data| % 2 == 0
    ensures Split(data + [a, b], order) == Split(data, order) + [Word(a, b, order)]
  {
    assert (data + [a, b])[..|data|] == data;
  }

  lemma ConcatAppend(words: seq<int>, w: int, order: Order)
    ensures Concat(words + [w], order) == Concat(words, order) + RegisterBytes(w, order)
  {
    assert (words + [w])[..|words|] == words;
  }

  lemma {:induction false} SplitConcat(words: seq<int>, order: Order)
    requires Registers(words)
    ensures Split(Concat(words, order), order) == words
  {
    if words != [] {
      var init, last := words[..|words| - 1], words[|words| - 1];
      SplitConcat(init, order);
      assert words == init + [last];
      SplitConcatStep(init, last, order);
    }
  }

  lemma SplitConcatStep(init: seq<int>, last: int, order: Order)
    requires Split(Concat(init, order), order) == init && 0 <= last < 0x1_0000
    ensures Split(Concat(init + [last], order), order) == init + [last]
  {
    var bs := RegisterBytes(last, order);
    ConcatAppend(init, last, order);
    RegisterRoundTrip(last, order);
    SplitAppend(Concat(init, order), bs[0], bs[1], order);
    assert bs == [bs[0], bs[1]];
  }

  lemma SplitStep(data: seq<Byte>, i: nat, order: Order)
    requires i + 2 <= |data| && i % 2 == 0
    ensures Split(data[..i + 2], order) == Split(data[..i], order) + [Word(data[i], data[i + 1], order)]
  {
    assert data[..i + 2][..i] == data[..i];
  }

  lemma {:induction false} ConcatSplit(data: seq<Byte>, order: Order)
    requires |data| % 2 == 0
    ensures Concat(Split(data, order), order) == data
  {
    if data != [] {
      var init := data[..|data| - 2];
      ConcatSplit(init, order);
      ConcatSplitStep(init, data[|data| - 2], data[|data| - 1], order);
      LastTwo(data);
    }
  }

  lemma LastTwo(data: seq<Byte>)
    requires |data| >= 2
    ensures data == data[..|data| - 2] + [data[|data| - 2], data[|data| - 1]]
  {
  }

  lemma ConcatSplitStep(init: seq<Byte>, a: Byte, b: Byte, order: Order)
    requires |init| % 2 == 0 && Concat(Split(init, order), order) == init
    ensures Concat(Split(init + [a, b], order), order) == init + [a, b]
  {
    SplitAppend(init, a, b, order);
    ConcatAppend(Split(init, order), Word(a, b, order), order);
    BytesRoundTrip(a, b, order);
  }

  /** The two conversions undo each other in all four orders. */
  lemma AssembleInverse(regs: seq<int>, data: seq<Byte>, wordOrder: Order, byteOrder: Order)
    requires Registers(regs) && |data| % 2 == 0
    ensures Disassemble(Assemble(regs, wordOrder, byteOrder), wordOrder, byteOrder) == regs
    ensures Assemble(Disassemble(data, wordOrder, byteOrder), wordOrder, byteOrder) == data
  {
    ReverseTwice(regs);
    ReverseTwice(Split(data, byteOrder));
    SplitConcat(if wordOrder == Little then Reverse(regs) else regs, byteOrder);
    ConcatSplit(data, byteOrder);
  }

  /** The number a register list spells in base 65536, most significant register first. */
  function BigEndian(regs: seq<int>): int {
    if regs == [] then 0 else 0x1_0000 * BigEndian(regs[..|regs| - 1]) + regs[|regs| - 1]
  }

  /** In big/big order registers are read as section 4.2 of the MODBUS Application Protocol
      Specification V1.1b3 transmits them: high byte first, most significant register first. */
  lemma {:induction false} BigBigIsBigEndian(regs: seq<int>)
    requires Registers(regs)
    ensures ToNat(Assemble(regs, Big, Big)) == BigEndian(regs)
  {
    if regs != [] {
      BigBigIsBigEndian(regs[..|regs| - 1]);
      BigBigStep(regs[..|regs| - 1], regs[|regs| - 1]);
      Snoc(regs, |regs| - 1);
    }
  }

  lemma BigBigStep(init: seq<int>, last: int)
    requires 0 <= last < 0x1_0000
    ensures ToNat(Concat(init + [last], Big)) == 0x1_0000 * ToNat(Concat(init, Big)) + last
  {
    ConcatAppend(init, last, Big);
    HighLow(last);
    ToNatPair(Concat(init, Big), High(last), Low(last));
  }

  lemma ToNatPair(bs: seq<Byte>, high: Byte, low: Byte)
    ensures ToNat(bs + [high, low]) == 0x1_0000 * ToNat(bs) + 256 * high + low
  {
    assert bs + [high, low] == bs + [high] + [low];
    ToNatAppend(bs, high);
    ToNatAppend(bs + [high], low);
  }

  lemma ToNatAppend(bs: seq<Byte>, b: Byte)
    ensures ToNat(bs + [b]) == 256 * ToNat(bs) + b
  {
    assert (bs + [b])[..|bs|] == bs;
  }

  /** The table of docs/reference/data-types.md: how the two registers of a value ABCD lie on the wire. */
  function Layout(a: Byte, b: Byte, c: Byte, d: Byte, wordOrder: Order, byteOrder: Order): seq<Byte> {
    match (wordOrder, byteOrder)
    case (Big, Big) => [a, b, c, d]
    case (Big, Little) => [b, a, d, c]
    case (Little, Big) => [c, d, a, b]
    case (Little, Little) => [d, c, b, a]
  }

  /** All four layouts come out as tabulated: registers in address order, high byte first. */
  lemma Layouts(a: Byte, b: Byte, c: Byte, d: Byte, wordOrder: Order, byteOrder: Order)
    ensures Concat(Disassemble([a, b, c, d], wordOrder, byteOrder), Big) == Layout(a, b, c, d, wordOrder, byteOrder)
  {
    var x, y := Word(a, b, byteOrder), Word(c, d, byteOrder);
    DisassemblePair(a, b, c, d, wordOrder, byteOrder);
    ConcatPair(if wordOrder == Little then y else x, if wordOrder == Little then x else y);
    WordLayout(a, b, byteOrder);
    WordLayout(c, d, byteOrder);
  }

  lemma DisassemblePair(a: Byte, b: Byte, c: Byte, d: Byte, wordOrder: Order, byteOrder: Order)
    ensures var x, y := Word(a, b, byteOrder), Word(c, d, byteOrder);
      Disassemble([a, b, c, d], wordOrder, byteOrder) == if wordOrder == Little then [y, x] else [x, y]
  {
    SplitPair(a, b, c, d, byteOrder);
    ReversePair(Word(a, b, byteOrder), Word(c, d, byteOrder));
  }

  lemma WordLayout(a: Byte, b: Byte, o: Order)
    ensures RegisterBytes(Word(a, b, o), Big) == if o == Little then [b, a] else [a, b]
  {
    WordBytes(a, b);
    WordBytes(b, a);
  }

  lemma SplitPair(a: Byte, b: Byte, c: Byte, d: Byte, o: Order)
    ensures Split([a, b, c, d], o) == [Word(a, b, o), Word(c, d, o)]
  {
    SplitAppend([], a, b, o);
    SplitAppend([a, b], c, d, o);
    assert [] + [a, b] == [a, b] && [a, b] + [c, d] == [a, b, c, d];
  }

  lemma ConcatPair(x: int, y: int)
    ensures Concat([x, y], Big) == RegisterBytes(x, Big) + RegisterBytes(y, Big)
  {
    assert [x, y][..1] == [x] && [x][..0] == [];
    assert Concat([x], Big) == Concat([], Big) + RegisterBytes(x, Big);
  }

  lemma ReversePair(x: int, y: int)
    ensures Reverse([x, y]) == [y, x]
  {
  }

  /** Where each register's bytes lie, for lists of any length: "little" words come in reverse, "little" bytes come low
      byte first. */
  lemma RegisterPlaces(regs: seq<int>, wordOrder: Order, byteOrder: Order, i: nat)
    requires Registers(regs) && i < |regs|
    ensures var data, w := Assemble(regs, wordOrder, byteOrder), regs[if wordOrder == Little then |regs| - 1 - i else i];
      && data[2 * i] == (if byteOrder == Little then w % 256 else w / 256)
      && data[2 * i + 1] == (if byteOrder == Little then w / 256 else w % 256)
  {
    var words := if wordOrder == Little then Reverse(regs) else regs;
    ConcatPlaces(words, byteOrder, i);
    TwoBytes(words[i], byteOrder);
  }

  lemma TwoBytes(w: int, order: Order)
    requires 0 <= w < 0x1_0000
    ensures RegisterBytes(w, order) == if order == Little then [w % 256, w / 256] else [w / 256, w % 256]
  {
  }

  lemma {:induction false} ConcatPlaces(words: seq<int>, order: Order, i: nat)
    requires i < |words|
    ensures Concat(words, order)[2 * i] == RegisterBytes(words[i], order)[0]
    ensures Concat(words, order)[2 * i + 1] == RegisterBytes(words[i], order)[1]
  {
    if i < |words| - 1 { ConcatPlaces(words[..|words| - 1], order, i); }
  }

  // ---- UTF-8 ----

  predicate Continuation(b: Byte) { 0x80 <= b < 0xC0 }

  /** Length of the well-formed character that starts the bytes, 0 if there is none: the table of
      section 4 of RFC 3629, which fixes the syntax of section 3. */
  function CharLength(bs: seq<Byte>): (n: nat)
    ensures n <= |bs|
  {
    if |bs| >= 1 && bs[0] < 0x80 then 1
    else if |bs| >= 2 && 0xC2 <= bs[0] < 0xE0 && Continuation(bs[1]) then 2
    else if |bs| >= 3 && 0xE0 <= bs[0] < 0xF0 && Continuation(bs[1]) && Continuation(bs[2])
         && (bs[0] == 0xE0 ==> bs[1] >= 0xA0) && (bs[0] == 0xED ==> bs[1] < 0xA0) then 3
    else if |bs| >= 4 && 0xF0 <= bs[0] < 0xF5
         && Continuation(bs[1]) && Continuation(bs[2]) && Continuation(bs[3])
         && (bs[0] == 0xF0 ==> bs[1] >= 0x90) && (bs[0] == 0xF4 ==> bs[1] < 0x90) then 4
    else 0
  }

  predicate ValidUtf8(bs: seq<Byte>) {
    bs == [] || (CharLength(bs) > 0 && ValidUtf8(bs[CharLength(bs)..]))
  }

  predicate Scalar(c: int) { 0 <= c < 0xD800 || 0xE000 <= c < 0x11_0000 }

  /** The UTF-8 form of a Unicode scalar value: section 3 of RFC 3629. */
  function Utf8Char(c: int): (bs: seq<Byte>)
    requires Scalar(c)
    ensures bs != []
  {
    if c < 0x80 then [c]
    else if c < 0x800 then [0xC0 + c / 64, 0x80 + c % 64]
    else if c < 0x1_0000 then [0xE0 + c / 4096, 0x80 + c / 64 % 64, 0x80 + c % 64]
    else [0xF0 + c / 262144, 0x80 + c / 4096 % 64, 0x80 + c / 64 % 64, 0x80 + c % 64]
  }

  predicate Scalars(cs: seq<int>) { forall i :: 0 <= i < |cs| ==> Scalar(cs[i]) }

  function Utf8(cs: seq<int>): seq<Byte>
    requires Scalars(cs)
  {
    if cs == [] then [] else Utf8Char(cs[0]) + Utf8(cs[1..])
  }

  lemma Utf8CharLength(c: int, rest: seq<Byte>)
    requires Scalar(c)
    ensures CharLength(Utf8Char(c) + rest) == |Utf8Char(c)|
  {
  }

  /** The form of every text is accepted. */
  lemma {:induction false} EncodedIsUtf8(cs: seq<int>)
    requires Scalars(cs)
    ensures ValidUtf8(Utf8(cs))
  {
    if cs != [] {
      var rest := Utf8(cs[1..]);
      EncodedIsUtf8(cs[1..]);
      Utf8CharLength(cs[0], rest);
      assert (Utf8Char(cs[0]) + rest)[|Utf8Char(cs[0])|..] == rest;
    }
  }

  /** Nothing else is accepted: the bytes accepted are the form of a text. */
  lemma {:induction false} Utf8IsEncoded(bs: seq<Byte>) returns (cs: seq<int>)
    requires ValidUtf8(bs)
    ensures Scalars(cs) && Utf8(cs) == bs
  {
    if bs == [] { return []; }
    var n := CharLength(bs);
    var c := DecodeChar(bs);
    var rest := Utf8IsEncoded(bs[n..]);
    cs := [c] + rest;
    assert cs[1..] == rest;
    assert bs == bs[..n] + bs[n..];
  }

  lemma DecodeChar(bs: seq<Byte>) returns (c: int)
    requires CharLength(bs) > 0
    ensures Scalar(c) && Utf8Char(c) == bs[..CharLength(bs)]
  {
    match CharLength(bs)
    case 1 =>
      c := bs[0];
    case 2 =>
      c := (bs[0] as int - 0xC0) * 64 + (bs[1] as int - 0x80);
    case 3 =>
      c := ThreeBytes(bs[0], bs[1], bs[2]);
    case _ =>
      c := FourBytes(bs[0], bs[1], bs[2], bs[3]);
  }

  lemma ThreeBytes(x: Byte, y: Byte, z: Byte) returns (c: int)
    requires 0xE0 <= x < 0xF0 && Continuation(y) && Continuation(z)
    requires (x == 0xE0 ==> y >= 0xA0) && (x == 0xED ==> y < 0xA0)
    ensures Scalar(c) && Utf8Char(c) == [x, y, z]
  {
    c := (x as int - 0xE0) * 4096 + (y as int - 0x80) * 64 + (z as int - 0x80);
    assert c / 64 == (x as int - 0xE0) * 64 + (y as int - 0x80);
  }

  lemma FourBytes(w: Byte, x: Byte, y: Byte, z: Byte) returns (c: int)
    requires 0xF0 <= w < 0xF5 && Continuation(x) && Continuation(y) && Continuation(z)
    requires (w == 0xF0 ==> x >= 0x90) && (w == 0xF4 ==> x < 0x90)
    ensures Scalar(c) && Utf8Char(c) == [w, x, y, z]
  {
    c := (w as int - 0xF0) * 262144 + (x as int - 0x80) * 4096 + (y as int - 0x80) * 64 + (z as int - 0x80);
    assert c / 64 == (w as int - 0xF0) * 4096 + (x as int - 0x80) * 64 + (y as int - 0x80);
    assert c / 4096 == (w as int - 0xF0) * 64 + (x as int - 0x80);
  }

  function Zeros(n: nat): (bs: seq<Byte>)
    ensures |bs| == n && forall i :: 0 <= i < n ==> bs[i] == 0
  {
    seq(n, _ => 0)
  }

  lemma ZerosStart(n: nat)
    requires n > 0
    ensures CharLength(Zeros(n)) == 1 && Zeros(n)[1..] == Zeros(n - 1)
  {
  }

  lemma {:induction false} ZerosAreUtf8(n: nat)
    ensures ValidUtf8(Zeros(n))
  {
    if n > 0 {
      ZerosStart(n);
      ZerosAreUtf8(n - 1);
    }
  }

  lemma CharLengthExtends(bs: seq<Byte>, more: seq<Byte>)
    requires CharLength(bs) > 0
    ensures CharLength(bs + more) == CharLength(bs)
    ensures (bs + more)[CharLength(bs)..] == bs[CharLength(bs)..] + more
  {
  }

  lemma {:induction false} PaddingKeepsUtf8(bs: seq<Byte>, n: nat)
    requires ValidUtf8(bs)
    ensures ValidUtf8(bs + Zeros(n))
  {
    if bs == [] {
      ZerosAreUtf8(n);
      assert bs + Zeros(n) == Zeros(n);
    } else {
      CharLengthExtends(bs, Zeros(n));
      PaddingKeepsUtf8(bs[CharLength(bs)..], n);
    }
  }

  /** rstrip("\0"). */
  function StripNul(bs: seq<Byte>): seq<Byte> {
    if bs != [] && bs[|bs| - 1] == 0 then StripNul(bs[..|bs| - 1]) else bs
  }

  lemma {:induction false} StripPadding(bs: seq<Byte>, n: nat)
    requires bs != [] ==> bs[|bs| - 1] != 0
    ensures StripNul(bs + Zeros(n)) == bs
  {
    if n > 0 {
      var padded := bs + Zeros(n);
      assert padded[..|padded| - 1] == bs + Zeros(n - 1) && padded[|padded| - 1] == 0;
      StripPadding(bs, n - 1);
    } else {
      assert bs + Zeros(n) == bs;
    }
  }
}

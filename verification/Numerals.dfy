/** Integers as text: Python's str(n), f"{n}" and int(text), over ASCII. */
module Numerals {
  import opened Values

  const DIGITS: string := "0123456789"

  function Decimal(n: nat): string {
    if n < 10 then [DIGITS[n]] else Decimal(n / 10) + [DIGITS[n % 10]]
  }

  function Numeral(n: int): string { if n < 0 then "-" + Decimal(-n) else Decimal(n) }

  predicate Digit(c: char) { '0' <= c <= '9' }

  /** Digits with single underscores between them. */
  function ParseDigits(s: string): Option<nat> {
    if s == [] || !Digit(s[|s| - 1]) then None
    else
      var d := (s[|s| - 1] - '0') as nat;
      if |s| == 1 then Some(d)
      else
        var r := ParseDigits(if s[|s| - 2] == '_' then s[..|s| - 2] else s[..|s| - 1]);
        if r.None? then None else Some(10 * r.value + d)
  }

  predicate Blank(c: char) { c == ' ' || '\t' <= c <= '\r' || '\U{1C}' <= c <= '\U{1F}' }

  function TrimEnd(s: string): string {
    if s != [] && Blank(s[|s| - 1]) then TrimEnd(s[..|s| - 1]) else s
  }

  function TrimStart(s: string): string {
    if s != [] && Blank(s[0]) then TrimStart(s[1..]) else s
  }

  /** int(text), None when it raises. */
  function ParseInt(text: string): Option<int> {
    var s := TrimStart(TrimEnd(text));
    if s == [] then None
    else if s[0] == '-' || s[0] == '+' then
      var r := ParseDigits(s[1..]);
      if r.None? then None else if s[0] == '-' then Some(-(r.value as int)) else Some(r.value)
    else
      var r := ParseDigits(s);
      if r.None? then None else Some(r.value)
  }

  lemma {:induction false} DecimalDigits(n: nat)
    ensures forall i :: 0 <= i < |Decimal(n)| ==> Digit(Decimal(n)[i])
    ensures |Decimal(n)| > 0
  {
    if n >= 10 { DecimalDigits(n / 10); }
  }

  lemma {:induction false} DecimalParses(n: nat)
    ensures ParseDigits(Decimal(n)) == Some(n)
  {
    DecimalDigits(n);
    if n >= 10 {
      DecimalParses(n / 10);
      DecimalDigits(n / 10);
      var s := Decimal(n);
      assert s[..|s| - 1] == Decimal(n / 10);
      assert Digit(s[|s| - 2]);
    }
  }

  /** Printing and parsing an integer returns it; in particular the printed form identifies it. */
  lemma PrintParse(n: int)
    ensures ParseInt(Numeral(n)) == Some(n)
  {
    DecimalDigits(if n < 0 then -n else n);
    DecimalParses(if n < 0 then -n else n);
    NotTrimmed(Numeral(n));
    if n < 0 { assert Numeral(n)[1..] == Decimal(-n); }
  }

  lemma NotTrimmed(s: string)
    requires s != [] && !Blank(s[0]) && !Blank(s[|s| - 1])
    ensures TrimStart(TrimEnd(s)) == s
  {
  }

  lemma NumeralInjective(m: int, n: int)
    ensures Numeral(m) == Numeral(n) <==> m == n
  {
    PrintParse(m);
    PrintParse(n);
  }

  lemma NumeralNoSlash(n: int)
    ensures '/' !in Numeral(n)
  {
    DecimalDigits(if n < 0 then -n else n);
  }

  /** How integers look: decimal digits, a sign, single underscores inside, white space around. */
  lemma NumeralTexts()
    ensures Numeral(0) == "0" && Numeral(-15) == "-15" && Numeral(987) == "987" && Numeral(623) == "623" && Numeral(40) == "40"
    ensures ParseInt(" 1_0 ") == Some(10) && ParseInt("+5") == Some(5) && ParseInt("-007") == Some(-7)
    ensures ParseInt("").None? && ParseInt("-").None? && ParseInt("1__0").None? && ParseInt("_1").None?
    ensures ParseInt("1_").None? && ParseInt("1.0").None? && ParseInt("0x1").None?
  {
    PrintedDigits();
    SpacedText();
    assert ParseDigits("007"[..2]) == Some(0);
  }

  lemma PrintedDigits()
    ensures Numeral(-15) == "-15" && Numeral(987) == "987" && Numeral(623) == "623" && Numeral(40) == "40"
  {
  }

  lemma SpacedText()
    ensures ParseInt(" 1_0 ") == Some(10)
  {
    assert TrimEnd(" 1_0 ") == " 1_0" && TrimStart(" 1_0") == "1_0";
    assert "1_0"[..1] == "1";
  }
}

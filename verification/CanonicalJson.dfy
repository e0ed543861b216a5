/**
  Canonical JSON text: sorted keys, no spaces, ASCII escapes. Two values have
  the same text exactly when they are equal as JSON, whatever the insertion
  order of their keys.
 */
module CanonicalJson {
  import opened Wrappers
  import opened JsonValues
  import opened DecimalText

  const QUOTE: Unit := 34
  const COMMA: Unit := 44
  const MINUS: Unit := 45
  const OPEN_BRACKET: Unit := 91
  const BACKSLASH: Unit := 92
  const CLOSE_BRACKET: Unit := 93
  const LETTER_U: Unit := 117
  const OPEN_BRACE: Unit := 123
  const CLOSE_BRACE: Unit := 125

  // ---- Strings -------------------------------------------------------------------

  /** The letter of a single-character escape. */
  function ShortEscape(u: Unit): Option<Unit> {
    if u == QUOTE || u == BACKSLASH then Some(u)
    else if u == 8 then Some(98)
    else if u == 12 then Some(102)
    else if u == 10 then Some(110)
    else if u == 13 then Some(114)
    else if u == 9 then Some(116)
    else None
  }

  function HexDigit(d: nat): Unit
    requires d < 16
  {
    if d < 10 then 48 + d else 87 + d
  }

  /** The last n hexadecimal digits of u, padded with zeros. */
  function Hex(u: nat, n: nat): (s: Str)
    ensures |s| == n
  {
    if n == 0 then [] else Hex(u / 16, n - 1) + [HexDigit(u % 16)]
  }

  function Pow16(n: nat): nat { if n == 0 then 1 else 16 * Pow16(n - 1) }

  function Hex4(u: Unit): Str { Hex(u, 4) }

  /** One code unit inside quotes. With `ascii`, everything beyond '~' is escaped too. */
  function EncodeUnit(ascii: bool, u: Unit): (e: Str)
    ensures e != [] && e[0] != QUOTE
  {
    if ShortEscape(u).Some? then [BACKSLASH, ShortEscape(u).value]
    else if u < 0x20 || (ascii && u > 0x7e) then [BACKSLASH, LETTER_U] + Hex4(u)
    else [u]
  }

  function EncodeUnits(ascii: bool, s: Str): Str {
    if s == [] then [] else EncodeUnit(ascii, s[0]) + EncodeUnits(ascii, s[1..])
  }

  function EncodeString(ascii: bool, s: Str): Str {
    [QUOTE] + EncodeUnits(ascii, s) + [QUOTE]
  }

  lemma {:induction false} EncodeUnitsAppend(ascii: bool, a: Str, b: Str)
    ensures EncodeUnits(ascii, a + b) == EncodeUnits(ascii, a) + EncodeUnits(ascii, b)
  {
    if a == [] {
      assert a + b == b;
    } else {
      assert (a + b)[1..] == a[1..] + b;
      EncodeUnitsAppend(ascii, a[1..], b);
    }
  }

  lemma EncodeUnitsSnoc(ascii: bool, s: Str, u: Unit)
    ensures EncodeUnits(ascii, s + [u]) == EncodeUnits(ascii, s) + EncodeUnit(ascii, u)
  {
    EncodeUnitsAppend(ascii, s, [u]);
    assert [u][1..] == [];
    assert EncodeUnits(ascii, [u]) == EncodeUnit(ascii, u) + [];
  }

  /** What encodeString appends for one code unit. */
  method WriteUnit(u: Unit) returns (piece: Str)
    ensures piece == EncodeUnit(true, u)
  {
    if ShortEscape(u).Some? {
      piece := [BACKSLASH, ShortEscape(u).value];
    } else if u < 0x20 || u > 0x7e {
      piece := [BACKSLASH, LETTER_U] + Hex4(u);
    } else {
      piece := [u];
    }
  }

  lemma EncodeUnitsNext(value: Str, i: nat)
    requires i < |value|
    ensures EncodeUnits(true, value[..i + 1]) == EncodeUnits(true, value[..i]) + EncodeUnit(true, value[i])
  {
    EncodeUnitsSnoc(true, value[..i], value[i]);
    assert value[..i + 1] == value[..i] + [value[i]];
  }

  lemma ConcatAssociates(a: Str, b: Str, c: Str)
    ensures a + b + c == a + (b + c)
  {
  }

  /** encodeString: the escapes are appended unit by unit. */
  method WriteString(value: Str) returns (out: Str)
    ensures out == EncodeString(true, value)
  {
    out := [QUOTE];
    for i := 0 to |value|
      invariant out == [QUOTE] + EncodeUnits(true, value[..i])
    {
      var piece := WriteUnit(value[i]);
      EncodeUnitsNext(value, i);
      ConcatAssociates([QUOTE], EncodeUnits(true, value[..i]), piece);
      out := out + piece;
    }
    assert value[..|value|] == value;
    out := out + [QUOTE];
  }

  lemma {:induction false} HexInjective(a: nat, b: nat, n: nat)
    requires a < Pow16(n) && b < Pow16(n) && Hex(a, n) == Hex(b, n)
    ensures a == b
  {
    if n > 0 {
      assert Hex(a, n)[n - 1] == Hex(b, n)[n - 1];
      assert Hex(a, n)[..n - 1] == Hex(a / 16, n - 1) && Hex(b, n)[..n - 1] == Hex(b / 16, n - 1);
      HexInjective(a / 16, b / 16, n - 1);
    }
  }

  /** The code of the units is prefix-free: an escape ends where it says it ends. */
  lemma UnitReadable(ascii: bool, a: Unit, b: Unit, s: Str, t: Str)
    requires EncodeUnit(ascii, a) + s == EncodeUnit(ascii, b) + t
    ensures a == b && s == t
  {
    var x, y := EncodeUnit(ascii, a), EncodeUnit(ascii, b);
    assert x[0] == (x + s)[0] == (y + t)[0] == y[0];
    if |x| > 1 {
      assert x[1] == (x + s)[1] == (y + t)[1] == y[1];
      assert |x| == |y|;
    }
    assert x == (x + s)[..|x|] && y == (y + t)[..|y|];
    if |x| == 6 {
      assert Hex4(a) == x[2..] && Hex4(b) == y[2..];
      assert Pow16(4) == 65536;
      HexInjective(a, b, 4);
    }
    assert s == (x + s)[|x|..] && t == (y + t)[|y|..];
  }

  lemma UnitsHead(ascii: bool, a: Str, s: Str)
    ensures (EncodeUnits(ascii, a) + [QUOTE] + s)[0] == QUOTE <==> a == []
    ensures a == [] ==> (EncodeUnits(ascii, a) + [QUOTE] + s)[1..] == s
  {
    if a != [] {
      assert (EncodeUnits(ascii, a) + [QUOTE] + s)[0] == EncodeUnit(ascii, a[0])[0];
    }
  }

  lemma UnitsSplit(ascii: bool, a: Str, s: Str)
    requires a != []
    ensures EncodeUnits(ascii, a) + [QUOTE] + s
         == EncodeUnit(ascii, a[0]) + (EncodeUnits(ascii, a[1..]) + [QUOTE] + s)
  {
  }

  lemma {:induction false} UnitsReadable(ascii: bool, a: Str, b: Str, s: Str, t: Str)
    requires EncodeUnits(ascii, a) + [QUOTE] + s == EncodeUnits(ascii, b) + [QUOTE] + t
    ensures a == b && s == t
  {
    UnitsHead(ascii, a, s);
    UnitsHead(ascii, b, t);
    if a != [] {
      UnitsSplit(ascii, a, s);
      UnitsSplit(ascii, b, t);
      UnitReadable(ascii, a[0], b[0],
                   EncodeUnits(ascii, a[1..]) + [QUOTE] + s, EncodeUnits(ascii, b[1..]) + [QUOTE] + t);
      UnitsReadable(ascii, a[1..], b[1..], s, t);
      assert a == [a[0]] + a[1..] && b == [b[0]] + b[1..];
    }
  }

  lemma Unquoted(body: Str, s: Str)
    ensures ([QUOTE] + body + [QUOTE] + s)[1..] == body + [QUOTE] + s
  {
  }

  /** A quoted string ends at its closing quote, and its text determines it. */
  lemma StringReadable(ascii: bool, a: Str, b: Str, s: Str, t: Str)
    requires EncodeString(ascii, a) + s == EncodeString(ascii, b) + t
    ensures a == b && s == t
  {
    Unquoted(EncodeUnits(ascii, a), s);
    Unquoted(EncodeUnits(ascii, b), t);
    UnitsReadable(ascii, a, b, s, t);
  }

  // ---- Integers ------------------------------------------------------------------

  function Units(text: string): Str
    requires AllDigits(text)
  {
    seq(|text|, i requires 0 <= i < |text| => text[i] as int)
  }

  function IntText(n: int): Str {
    if n < 0 then [MINUS] + Units(NatText(-n)) else Units(NatText(n))
  }

  predicate IsDigitUnit(u: Unit) { 48 <= u <= 57 }

  /** What follows a value: nothing, or a separator or closing mark. */
  predicate Delimited(s: Str) {
    s == [] || s[0] == COMMA || s[0] == CLOSE_BRACKET || s[0] == CLOSE_BRACE
  }

  function LeadingDigits(z: Str): nat {
    if z == [] || !IsDigitUnit(z[0]) then 0 else 1 + LeadingDigits(z[1..])
  }

  lemma {:induction false} DigitsStop(x: Str, s: Str)
    requires (forall i :: 0 <= i < |x| ==> IsDigitUnit(x[i])) && Delimited(s)
    ensures LeadingDigits(x + s) == |x|
  {
    if x == [] {
      assert x + s == s;
    } else {
      assert (x + s)[1..] == x[1..] + s;
      DigitsStop(x[1..], s);
    }
  }

  lemma UnitsInjective(a: string, b: string)
    requires AllDigits(a) && AllDigits(b) && Units(a) == Units(b)
    ensures a == b
  {
    assert |a| == |Units(a)| == |b|;
    forall i | 0 <= i < |a| ensures a[i] == b[i] {
      assert Units(a)[i] == a[i] as int && Units(b)[i] == b[i] as int;
    }
  }

  lemma DigitsReadable(m: nat, n: nat, s: Str, t: Str)
    requires Units(NatText(m)) + s == Units(NatText(n)) + t && Delimited(s) && Delimited(t)
    ensures m == n && s == t
  {
    var x, y := Units(NatText(m)), Units(NatText(n));
    DigitsStop(x, s);
    DigitsStop(y, t);
    assert x == (x + s)[..|x|] && y == (y + t)[..|x|];
    assert s == (x + s)[|x|..] && t == (y + t)[|x|..];
    UnitsInjective(NatText(m), NatText(n));
    ParseNatText(m);
    ParseNatText(n);
  }

  lemma IntHead(n: int, s: Str)
    ensures IntText(n) != []
    ensures (IntText(n) + s)[0] == MINUS <==> n < 0
    ensures n >= 0 ==> IsDigitUnit((IntText(n) + s)[0])
    ensures n < 0 ==> (IntText(n) + s)[1..] == Units(NatText(-n)) + s
  {
    DigitsHead(NatText(if n < 0 then -n else n), s);
  }

  lemma DigitsHead(text: string, s: Str)
    requires AllDigits(text) && text != []
    ensures Units(text) != [] && IsDigitUnit((Units(text) + s)[0])
    ensures ([MINUS] + Units(text) + s)[1..] == Units(text) + s
  {
    assert (Units(text) + s)[0] == Units(text)[0] == text[0] as int;
  }

  lemma IntReadable(m: int, n: int, s: Str, t: Str)
    requires IntText(m) + s == IntText(n) + t && Delimited(s) && Delimited(t)
    ensures m == n && s == t
  {
    IntHead(m, s);
    IntHead(n, t);
    if m < 0 {
      DigitsReadable(-m, -n, s, t);
    } else {
      DigitsReadable(m, n, s, t);
    }
  }

  // ---- Key order --------------------------------------------------------------------

  predicate IsHigh(u: Unit) { 0xD800 <= u <= 0xDBFF }
  predicate IsLow(u: Unit) { 0xDC00 <= u <= 0xDFFF }

  /** Array.from(s, codePointAt): surrogate pairs joined, lone surrogates kept. */
  function CodePoints(s: Str): seq<int> {
    if s == [] then []
    else if |s| >= 2 && IsHigh(s[0]) && IsLow(s[1])
    then [0x10000 + (s[0] - 0xD800) * 0x400 + (s[1] - 0xDC00)] + CodePoints(s[2..])
    else [s[0]] + CodePoints(s[1..])
  }

  predicate Before(a: seq<int>, b: seq<int>) {
    b != [] && (a == [] || a[0] < b[0] || (a[0] == b[0] && Before(a[1..], b[1..])))
  }

  /** The sort comparator's order: by code point. */
  predicate KeyLess(a: Str, b: Str) { Before(CodePoints(a), CodePoints(b)) }

  /** The comparator: negative, zero or positive as the key is before, equal or after. */
  method CompareKeys(a: Str, b: Str) returns (order: int)
    ensures order < 0 <==> KeyLess(a, b)
    ensures order > 0 <==> KeyLess(b, a)
    ensures order == 0 <==> a == b
  {
    var left, right := CodePoints(a), CodePoints(b);
    var i := 0;
    while i < |left| && i < |right|
      invariant 0 <= i <= |left| && i <= |right| && left[..i] == right[..i]
      invariant Before(left, right) <==> Before(left[i..], right[i..])
      invariant Before(right, left) <==> Before(right[i..], left[i..])
    {
      assert left[i..][1..] == left[i + 1..] && right[i..][1..] == right[i + 1..];
      if left[i] != right[i] {
        return left[i] - right[i];
      }
      i := i + 1;
    }
    if left == right { CodePointsInjective(a, b); }
    assert |left| == |right| ==> left == right by {
      assert left[..|left|] == left && right[..|right|] == right;
    }
    return |left| - |right|;
  }

  lemma {:induction false} CodePointsInjective(a: Str, b: Str)
    requires CodePoints(a) == CodePoints(b)
    ensures a == b
  {
    if a != [] && b != [] {
      var pairA := |a| >= 2 && IsHigh(a[0]) && IsLow(a[1]);
      var pairB := |b| >= 2 && IsHigh(b[0]) && IsLow(b[1]);
      assert CodePoints(a)[0] == CodePoints(b)[0];
      assert pairA == pairB;
      var n := if pairA then 2 else 1;
      assert CodePoints(a[n..]) == CodePoints(a)[1..] == CodePoints(b)[1..] == CodePoints(b[n..]);
      CodePointsInjective(a[n..], b[n..]);
      assert a == a[..n] + a[n..] && b == b[..n] + b[n..];
    }
  }

  lemma {:induction false} BeforeTotal(a: seq<int>, b: seq<int>)
    ensures a == b || Before(a, b) || Before(b, a)
    ensures !(Before(a, b) && Before(b, a)) && !Before(a, a)
  {
    if a != [] && b != [] {
      BeforeTotal(a[1..], b[1..]);
      assert a == [a[0]] + a[1..] && b == [b[0]] + b[1..];
    } else if a != [] {
      BeforeTotal(a[1..], []);
    }
  }

  lemma {:induction false} BeforeTransitive(a: seq<int>, b: seq<int>, c: seq<int>)
    requires Before(a, b) && Before(b, c)
    ensures Before(a, c)
  {
    if a != [] && a[0] == b[0] == c[0] {
      BeforeTransitive(a[1..], b[1..], c[1..]);
    }
  }

  /** Of two different keys exactly one comes first. */
  lemma KeyOrderTotal(a: Str, b: Str)
    ensures !KeyLess(a, a) && !(KeyLess(a, b) && KeyLess(b, a))
    ensures a != b ==> KeyLess(a, b) || KeyLess(b, a)
  {
    BeforeTotal(CodePoints(a), CodePoints(b));
    if CodePoints(a) == CodePoints(b) { CodePointsInjective(a, b); }
  }

  /** Code-point order is a strict total order: irreflexive, transitive, and comparing any two keys. */
  lemma {:induction false} KeyOrderStrictTotal(a: Str, b: Str, c: Str)
    ensures !KeyLess(a, a)
    ensures KeyLess(a, b) && KeyLess(b, c) ==> KeyLess(a, c)
    ensures (if KeyLess(a, b) then 1 else 0) + (if a == b then 1 else 0) + (if KeyLess(b, a) then 1 else 0) == 1
  {
    KeyOrderTotal(a, b);
    if KeyLess(a, b) && KeyLess(b, c) {
      BeforeTransitive(CodePoints(a), CodePoints(b), CodePoints(c));
    }
  }

  /** Where the first difference is, the smaller code point is a's; or a is a proper prefix of b. */
  ghost predicate FirstDifferenceIsSmaller(a: seq<int>, b: seq<int>) {
    exists i :: 0 <= i <= |a| && i < |b| && a[..i] == b[..i] && (i == |a| || a[i] < b[i])
  }

  /**
    The order is decided by the first code point in which the keys differ, the
    smaller one first, and where there is none by the shorter key.
   */
  lemma {:induction false} BeforeExactly(a: seq<int>, b: seq<int>)
    ensures Before(a, b) <==> FirstDifferenceIsSmaller(a, b)
  {
    if a == [] {
      if b != [] { assert a[..0] == b[..0]; }
    } else if b != [] {
      BeforeExactly(a[1..], b[1..]);
      if i :| 0 <= i <= |a[1..]| && i < |b[1..]| && a[1..][..i] == b[1..][..i] && (i == |a[1..]| || a[1..][i] < b[1..][i]) && a[0] == b[0] {
        assert a[..i + 1] == [a[0]] + a[1..][..i] && b[..i + 1] == [b[0]] + b[1..][..i];
        assert i + 1 == |a| || a[i + 1] < b[i + 1];
      }
      if i :| 0 <= i <= |a| && i < |b| && a[..i] == b[..i] && (i == |a| || a[i] < b[i]) {
        if i == 0 {
          assert a[0] < b[0];
        } else {
          assert a[0] == a[..i][0] == b[..i][0] == b[0];
          assert a[1..][..i - 1] == a[..i][1..] && b[1..][..i - 1] == b[..i][1..];
          assert i - 1 == |a[1..]| || a[1..][i - 1] < b[1..][i - 1];
        }
      }
      if a[0] < b[0] { assert a[..0] == b[..0]; }
    }
  }

  /** Keys compare by their code points, the first difference deciding. */
  lemma KeyOrderExactly(a: Str, b: Str)
    ensures KeyLess(a, b) <==> FirstDifferenceIsSmaller(CodePoints(a), CodePoints(b))
  {
    BeforeExactly(CodePoints(a), CodePoints(b));
  }

  /** UTF-16, section 2 of RFC 2781: a code point above the first plane is a surrogate pair. */
  function Utf16(points: seq<int>): seq<int> {
    if points == [] then []
    else
      var c := points[0];
      (if c < 0x10000 then [c] else [0xD800 + (c - 0x10000) / 0x400, 0xDC00 + (c - 0x10000) % 0x400])
      + Utf16(points[1..])
  }

  /** No unit that could be the first half of a pair is left before one that could be the second. */
  ghost predicate FullyPaired(points: seq<int>) {
    forall i :: 0 <= i < |points| - 1 ==> !(0xD800 <= points[i] <= 0xDBFF && 0xDC00 <= points[i + 1] <= 0xDFFF)
  }

  lemma PairValue(high: Unit, low: Unit)
    requires IsHigh(high) && IsLow(low)
    ensures var c := 0x10000 + (high - 0xD800) * 0x400 + (low - 0xDC00);
      0x10000 <= c < 0x110000 && 0xD800 + (c - 0x10000) / 0x400 == high && 0xDC00 + (c - 0x10000) % 0x400 == low
  {
  }

  lemma Utf16Step(c: int, points: seq<int>, units: seq<int>, rest: seq<int>)
    requires Utf16(points) == rest
    requires units == if c < 0x10000 then [c] else [0xD800 + (c - 0x10000) / 0x400, 0xDC00 + (c - 0x10000) % 0x400]
    ensures Utf16([c] + points) == units + rest
  {
    assert ([c] + points)[1..] == points;
  }

  lemma PairedStep(c: int, points: seq<int>)
    requires FullyPaired(points)
    requires points != [] ==> !(0xD800 <= c <= 0xDBFF && 0xDC00 <= points[0] <= 0xDFFF)
    ensures FullyPaired([c] + points)
  {
  }

  /** The code points of a key are the ones its UTF-16 units encode, every pair joined. */
  lemma {:induction false} CodePointsExactly(s: Str)
    ensures Utf16(CodePoints(s)) == s && FullyPaired(CodePoints(s))
    ensures forall i :: 0 <= i < |CodePoints(s)| ==> 0 <= CodePoints(s)[i] < 0x110000
    ensures s != [] && CodePoints(s)[0] < 0x10000 ==> CodePoints(s)[0] == s[0]
  {
    if s != [] {
      if |s| >= 2 && IsHigh(s[0]) && IsLow(s[1]) {
        var c: int := CodePoints(s)[0];
        PairValue(s[0], s[1]);
        CodePointsExactly(s[2..]);
        Utf16Step(c, CodePoints(s[2..]), [s[0], s[1]], s[2..]);
        PairedStep(c, CodePoints(s[2..]));
        assert s == [s[0], s[1]] + s[2..];
      } else {
        CodePointsExactly(s[1..]);
        Utf16Step(s[0], CodePoints(s[1..]), [s[0]], s[1..]);
        PairedStep(s[0], CodePoints(s[1..]));
        assert s == [s[0]] + s[1..];
      }
    }
  }

  // ---- Sorting -----------------------------------------------------------------------

  function Insert(k: Str, ks: seq<Str>): seq<Str> {
    if ks == [] || KeyLess(k, ks[0]) then [k] + ks else [ks[0]] + Insert(k, ks[1..])
  }

  function SortKeys(ks: seq<Str>): seq<Str> {
    if ks == [] then [] else Insert(ks[0], SortKeys(ks[1..]))
  }

  ghost predicate Sorted(ks: seq<Str>) {
    forall i, j :: 0 <= i < j < |ks| ==> KeyLess(ks[i], ks[j])
  }

  function Elements(ks: seq<Str>): set<Str> { set k | k in ks }

  lemma {:induction false} InsertKeeps(k: Str, ks: seq<Str>)
    requires Sorted(ks) && k !in ks
    ensures Sorted(Insert(k, ks)) && Elements(Insert(k, ks)) == Elements(ks) + {k}
  {
    if ks == [] {
    } else if KeyLess(k, ks[0]) {
      forall i | 0 <= i < |ks| ensures KeyLess(k, ks[i]) {
        if i > 0 { BeforeTransitive(CodePoints(k), CodePoints(ks[0]), CodePoints(ks[i])); }
      }
    } else {
      var rest := Insert(k, ks[1..]);
      assert ks == [ks[0]] + ks[1..];
      InsertKeeps(k, ks[1..]);
      KeyOrderTotal(k, ks[0]);
      forall i | 0 <= i < |rest| ensures KeyLess(ks[0], rest[i]) {
        assert rest[i] in Elements(rest);
      }
      assert Elements(Insert(k, ks)) == {ks[0]} + Elements(rest);
    }
  }

  ghost predicate NoRepeats(ks: seq<Str>) {
    forall i, j :: 0 <= i < j < |ks| ==> ks[i] != ks[j]
  }

  lemma {:induction false} SortKeysSorts(ks: seq<Str>)
    requires NoRepeats(ks)
    ensures Sorted(SortKeys(ks)) && Elements(SortKeys(ks)) == Elements(ks)
  {
    if ks != [] {
      SortKeysSorts(ks[1..]);
      assert ks == [ks[0]] + ks[1..];
      assert ks[0] !in Elements(ks[1..]);
      InsertKeeps(ks[0], SortKeys(ks[1..]));
    }
  }

  /** A set of keys has one sorted listing. */
  lemma {:induction false} SortedUnique(a: seq<Str>, b: seq<Str>)
    requires Sorted(a) && Sorted(b) && Elements(a) == Elements(b)
    ensures a == b
  {
    Inhabited(a);
    Inhabited(b);
    if a != [] {
      var i :| 0 <= i < |b| && b[i] == a[0];
      var j :| 0 <= j < |a| && a[j] == b[0];
      KeyOrderTotal(a[0], b[0]);
      assert a[0] == b[0];
      TailElements(a);
      TailElements(b);
      SortedUnique(a[1..], b[1..]);
      assert a == [a[0]] + a[1..] && b == [b[0]] + b[1..];
    }
  }

  lemma Inhabited(a: seq<Str>)
    ensures a != [] ==> a[0] in Elements(a)
    ensures a == [] <==> Elements(a) == {}
  {
    if a != [] { assert a[0] in Elements(a); }
  }

  lemma TailElements(a: seq<Str>)
    requires Sorted(a) && a != []
    ensures Elements(a[1..]) == Elements(a) - {a[0]} && Sorted(a[1..])
  {
    assert a == [a[0]] + a[1..];
    KeyOrderTotal(a[0], a[0]);
    forall i | 0 < i < |a| ensures a[i] != a[0] {
      assert KeyLess(a[0], a[i]);
    }
  }

  // ---- Values -------------------------------------------------------------------------

  function KeysOf(members: seq<Member>): seq<Str> {
    seq(|members|, i requires 0 <= i < |members| => members[i].key)
  }

  lemma {:induction false} InsertElements(k: Str, ks: seq<Str>)
    ensures Elements(Insert(k, ks)) == Elements(ks) + {k}
  {
    if ks != [] && !KeyLess(k, ks[0]) {
      InsertElements(k, ks[1..]);
      assert ks == [ks[0]] + ks[1..];
      assert Elements(Insert(k, ks)) == {ks[0]} + Elements(Insert(k, ks[1..]));
    }
  }

  lemma {:induction false} SortKeysElements(ks: seq<Str>)
    ensures Elements(SortKeys(ks)) == Elements(ks)
  {
    if ks != [] {
      SortKeysElements(ks[1..]);
      InsertElements(ks[0], SortKeys(ks[1..]));
      assert ks == [ks[0]] + ks[1..];
    }
  }

  lemma KeysOfElements(members: seq<Member>)
    ensures Elements(KeysOf(members)) == KeySet(members)
  {
    var ks := KeysOf(members);
    forall k | k in KeySet(members) ensures k in Elements(ks) {
      var i :| 0 <= i < |members| && members[i].key == k;
      assert ks[i] == k;
    }
    forall k | k in Elements(ks) ensures k in KeySet(members) {
      var i :| 0 <= i < |ks| && ks[i] == k;
      assert members[i] in members;
    }
  }

  /** The object's keys in canonical order. */
  function SortedKeys(members: seq<Member>): (ks: seq<Str>)
    ensures Elements(ks) == KeySet(members)
  {
    SortKeysElements(KeysOf(members));
    KeysOfElements(members);
    SortKeys(KeysOf(members))
  }

  lemma SortedKeysSorted(members: seq<Member>)
    requires DistinctKeys(members)
    ensures Sorted(SortedKeys(members))
  {
    SortKeysSorts(KeysOf(members));
  }

  /** Values without floats, with safe integers: the domain of request digests. */
  predicate Portable(v: Json) {
    match v
    case Int(n) => -MAX_SAFE <= n <= MAX_SAFE
    case Float(_) => false
    case Arr(items) => forall i :: 0 <= i < |items| ==> Portable(items[i])
    case Obj(members) => forall m :: m in members ==> Portable(m.value)
    case _ => true
  }

  /** canonicalJsonString. */
  function Canonical(v: Json): Str
    requires Portable(v)
    decreases v, 1
  {
    match v
    case Null => Ascii("null")
    case Bool(b) => if b then Ascii("true") else Ascii("false")
    case Int(n) => IntText(n)
    case String(s) => EncodeString(true, s)
    case Arr(items) =>
      [OPEN_BRACKET]
      + (if items == [] then [] else Canonical(items[0]) + MoreItems(v, items[1..]))
      + [CLOSE_BRACKET]
    case Obj(members) =>
      var keys := SortedKeys(members);
      assert forall k :: k in keys ==> k in Elements(keys);
      [OPEN_BRACE]
      + (if keys == [] then [] else MemberText(v, keys[0]) + MoreMembers(v, keys[1..]))
      + [CLOSE_BRACE]
  }

  /** The remaining items, each after a comma. */
  function MoreItems(v: Json, items: seq<Json>): Str
    requires forall i :: 0 <= i < |items| ==> items[i] < v && Portable(items[i])
    decreases v, 0, |items|
  {
    if items == [] then [] else [COMMA] + Canonical(items[0]) + MoreItems(v, items[1..])
  }

  /** "key":value, for a key of the object. */
  function MemberText(v: Json, key: Str): Str
    requires v.Obj? && Portable(v) && key in KeySet(v.members)
    decreases v, 0, 0
  {
    EncodeString(true, key) + [COLON] + Canonical(Find(v.members, key).value)
  }

  /** The remaining members, each after a comma. */
  function MoreMembers(v: Json, keys: seq<Str>): Str
    requires v.Obj? && Portable(v) && forall k :: k in keys ==> k in KeySet(v.members)
    decreases v, 0, |keys|
  {
    if keys == [] then [] else [COMMA] + MemberText(v, keys[0]) + MoreMembers(v, keys[1..])
  }
}

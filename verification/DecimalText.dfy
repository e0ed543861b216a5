/**
  Decimal text: the stored form of ledger totals, written by Python from a
  Decimal and by Node with integer arithmetic on the digits.
 */
module DecimalText {
  import opened Wrappers
  import opened Decimals

  // ---- Digit strings ---------------------------------------------------------

  predicate IsDigit(c: char) { '0' <= c <= '9' }

  predicate AllDigits(s: string) { forall i :: 0 <= i < |s| ==> IsDigit(s[i]) }

  function DigitValue(c: char): nat
    requires IsDigit(c)
  {
    c as int - '0' as int
  }

  function DigitChar(d: nat): (c: char)
    requires d < 10
    ensures IsDigit(c) && DigitValue(c) == d
  {
    (d + '0' as int) as char
  }

  function ParseNat(s: string): nat
    requires AllDigits(s)
  {
    if s == [] then 0 else 10 * ParseNat(s[..|s| - 1]) + DigitValue(s[|s| - 1])
  }

  /** The digits of n without leading zeros. */
  function NatText(n: nat): (s: string)
    ensures AllDigits(s) && s != []
  {
    if n < 10 then [DigitChar(n)] else NatText(n / 10) + [DigitChar(n % 10)]
  }

  predicate NoLeadingZero(s: string) {
    s != [] && AllDigits(s) && (s[0] == '0' ==> |s| == 1)
  }

  function Zeros(n: nat): (s: string)
    ensures |s| == n && AllDigits(s)
    ensures forall i :: 0 <= i < n ==> s[i] == '0'
  {
    seq(n, _ => '0')
  }

  lemma ParseZero(s: string)
    requires AllDigits(s) && |s| == 1 && s[0] == '0'
    ensures ParseNat(s) == 0
  {
  }

  lemma {:induction false} ParseNatText(n: nat)
    ensures ParseNat(NatText(n)) == n && NoLeadingZero(NatText(n))
  {
    if n >= 10 {
      ParseNatText(n / 10);
      assert NatText(n)[..|NatText(n)| - 1] == NatText(n / 10);
      if NatText(n / 10)[0] == '0' { ParseZero(NatText(n / 10)); }
    } else {
      assert NatText(n)[..0] == [];
    }
  }

  lemma {:induction false} ParseConcat(a: string, b: string)
    requires AllDigits(a) && AllDigits(b)
    ensures ParseNat(a + b) == Shift(ParseNat(a), |b|) + ParseNat(b)
  {
    if b == [] {
      assert a + b == a;
    } else {
      var n := |b| - 1;
      assert (a + b)[..|a + b| - 1] == a + b[..n];
      ParseConcat(a, b[..n]);
    }
  }

  lemma {:induction false} ParseBound(s: string)
    requires AllDigits(s)
    ensures ParseNat(s) < Pow10(|s|)
  {
    if s != [] { ParseBound(s[..|s| - 1]); }
  }

  /** Digit strings of one length with one value are one string. */
  lemma {:induction false} ParseInjective(a: string, b: string)
    requires AllDigits(a) && AllDigits(b) && |a| == |b| && ParseNat(a) == ParseNat(b)
    ensures a == b
  {
    if a != [] {
      var n := |a| - 1;
      assert DigitValue(a[n]) == DigitValue(b[n]);
      ParseInjective(a[..n], b[..n]);
      assert a == a[..n] + [a[n]] && b == b[..n] + [b[n]];
    }
  }

  lemma {:induction false} ParseZeros(n: nat)
    ensures ParseNat(Zeros(n)) == 0
  {
    if n > 0 {
      assert Zeros(n)[..n - 1] == Zeros(n - 1);
      ParseZeros(n - 1);
    }
  }

  lemma {:induction false} ShiftZero(k: nat)
    ensures Shift(0, k) == 0
  {
    if k > 0 { ShiftZero(k - 1); }
  }

  lemma LeadingZeros(n: nat, digits: string)
    requires AllDigits(digits)
    ensures ParseNat(Zeros(n) + digits) == ParseNat(digits)
  {
    ParseConcat(Zeros(n), digits);
    ParseZeros(n);
    ShiftZero(|digits|);
  }

  lemma {:induction false} LeadingDigitCounts(s: string)
    requires AllDigits(s) && s != [] && s[0] != '0'
    ensures ParseNat(s) >= Pow10(|s| - 1)
  {
    if |s| > 1 { LeadingDigitCounts(s[..|s| - 1]); }
  }

  /** Without leading zeros the digit string is determined by the number. */
  lemma NoLeadingZeroUnique(a: string, b: string)
    requires NoLeadingZero(a) && NoLeadingZero(b) && ParseNat(a) == ParseNat(b)
    ensures a == b
  {
    if |a| != |b| {
      var short, long := if |a| < |b| then a else b, if |a| < |b| then b else a;
      LeadingDigitCounts(long);
      ParseBound(short);
      ShiftShift(1, |short|, |long| - 1 - |short|);
      ShiftGrows(Pow10(|short|), |long| - 1 - |short|);
    }
    ParseInjective(a, b);
  }

  // ---- Numerals ----------------------------------------------------------------

  /** The part before the first separator, and the part after it if there is one. */
  function SplitOn(text: string, separators: set<char>): (parts: (string, Option<string>))
    ensures forall i :: 0 <= i < |parts.0| ==> parts.0[i] !in separators
  {
    if text == [] then ([], None)
    else if text[0] in separators then ([], Some(text[1..]))
    else
      var rest := SplitOn(text[1..], separators);
      ([text[0]] + rest.0, rest.1)
  }

  predicate IsPower(s: string) {
    s != [] && if s[0] == '+' || s[0] == '-' then |s| > 1 && AllDigits(s[1..]) else AllDigits(s)
  }

  function ParsePower(s: string): int
    requires IsPower(s)
  {
    if s[0] == '-' then -(ParseNat(s[1..]) as int)
    else if s[0] == '+' then ParseNat(s[1..])
    else ParseNat(s)
  }

  function Mantissa(text: string): string { SplitOn(text, {'e', 'E'}).0 }

  function Whole(text: string): string { SplitOn(Mantissa(text), {'.'}).0 }

  function Fraction(text: string): string {
    var after := SplitOn(Mantissa(text), {'.'}).1;
    if after.Some? then after.value else ""
  }

  function PowerText(text: string): string {
    var after := SplitOn(text, {'e', 'E'}).1;
    if after.Some? then after.value else "0"
  }

  /** A non-negative decimal in plain or exponent form. */
  predicate IsNumeral(text: string) {
    Whole(text) != [] && AllDigits(Whole(text)) && AllDigits(Fraction(text)) && IsPower(PowerText(text))
  }

  /** decimalParts: the digits as one integer, and how many of them are decimals. */
  function Parts(text: string): (nat, int)
    requires IsNumeral(text)
  {
    (ParseNat(Whole(text) + Fraction(text)), |Fraction(text)| - ParsePower(PowerText(text)))
  }

  /** Decimal(text). */
  function Parse(text: string): Dec
    requires IsNumeral(text)
  {
    Dec(Parts(text).0, -Parts(text).1)
  }

  /**
    What a numeral is worth, in plain or exponent form: its whole part and, as many
    places further down as it has digits, its fraction, both scaled by the power of ten.
   */
  lemma NumeralValue(text: string)
    requires IsNumeral(text)
    ensures var power := ParsePower(PowerText(text));
      Val(Parse(text)) == Val(Dec(ParseNat(Whole(text)), power))
                        + Val(Dec(ParseNat(Fraction(text)), power - |Fraction(text)|))
  {
    var w, f, power := ParseNat(Whole(text)), ParseNat(Fraction(text)), ParsePower(PowerText(text));
    var n := |Fraction(text)|;
    ParseConcat(Whole(text), Fraction(text));
    SameExponentAdds(Shift(w, n), f, power - n);
    RescaleBy(w, power, n);
  }

  // ---- Canonical text -------------------------------------------------------------

  /** Plain text without leading zeros, trailing fraction zeros or a bare point. */
  predicate IsCanonical(text: string) {
    NoLeadingZero(text) ||
    exists p :: 0 < p < |text| - 1 && text[p] == '.' && CanonicalAt(text, p)
  }

  predicate CanonicalAt(text: string, p: nat)
    requires p < |text|
  {
    NoLeadingZero(text[..p]) && AllDigits(text[p + 1..]) && p + 1 < |text| && text[|text| - 1] != '0'
  }

  lemma {:induction false} SplitNoSeparator(text: string, separators: set<char>)
    requires forall i :: 0 <= i < |text| ==> text[i] !in separators
    ensures SplitOn(text, separators) == (text, None)
  {
    if text != [] {
      SplitNoSeparator(text[1..], separators);
      assert [text[0]] + text[1..] == text;
    }
  }

  lemma {:induction false} SplitAtFirst(a: string, c: char, b: string, separators: set<char>)
    requires c in separators && forall i :: 0 <= i < |a| ==> a[i] !in separators
    ensures SplitOn(a + [c] + b, separators) == (a, Some(b))
  {
    var text := a + [c] + b;
    if a == [] {
      assert text[1..] == b;
    } else {
      assert text[1..] == a[1..] + [c] + b;
      SplitAtFirst(a[1..], c, b, separators);
      assert [a[0]] + a[1..] == a;
    }
  }

  /** A digit string is a plain numeral for the number it spells. */
  lemma DigitsAreNumeral(s: string)
    requires AllDigits(s) && s != []
    ensures IsNumeral(s) && Whole(s) == s && Fraction(s) == "" && Parse(s) == Dec(ParseNat(s), 0)
  {
    SplitNoSeparator(s, {'e', 'E'});
    SplitNoSeparator(s, {'.'});
    assert s + "" == s;
    assert "0"[..0] == "";
    assert ParseNat("0") == 0;
  }

  lemma PointIsNumeral(w: string, f: string)
    requires AllDigits(w) && w != [] && AllDigits(f)
    ensures IsNumeral(w + "." + f) && Whole(w + "." + f) == w && Fraction(w + "." + f) == f
    ensures Parse(w + "." + f) == Dec(ParseNat(w + f), -|f|)
  {
    var text := w + "." + f;
    NoExponentMark(w, f);
    SplitNoSeparator(text, {'e', 'E'});
    SplitAtFirst(w, '.', f, {'.'});
    assert "0"[..0] == "";
    assert ParseNat("0") == 0;
  }

  /** A mantissa followed by an exponent mark and a power reads as those two parts. */
  lemma MantissaAndPower(m: string, e: char, q: string)
    requires e == 'e' || e == 'E'
    requires forall i :: 0 <= i < |m| ==> m[i] !in {'e', 'E'}
    ensures Mantissa(m + [e] + q) == m && PowerText(m + [e] + q) == q
    ensures Mantissa(m) == m
  {
    SplitAtFirst(m, e, q, {'e', 'E'});
    SplitNoSeparator(m, {'e', 'E'});
  }

  /** What the power is worth: its digits, negative after a minus sign. */
  lemma PowerForms(p: string)
    requires AllDigits(p) && p != []
    ensures IsPower(p) && IsPower("+" + p) && IsPower("-" + p)
    ensures ParsePower(p) == ParsePower("+" + p) == ParseNat(p) && ParsePower("-" + p) == -(ParseNat(p) as int)
  {
    assert ("+" + p)[1..] == p && ("-" + p)[1..] == p;
  }

  lemma ExponentShape(m: string, w: string, f: string, e: char, q: string, power: int)
    requires e == 'e' || e == 'E'
    requires forall i :: 0 <= i < |m| ==> m[i] !in {'e', 'E'}
    requires IsNumeral(m) && Whole(m) == w && Fraction(m) == f && IsPower(q) && ParsePower(q) == power
    ensures IsNumeral(m + [e] + q) && Parse(m + [e] + q) == Dec(ParseNat(w + f), power - |f|)
  {
    MantissaAndPower(m, e, q);
  }

  /** What the digits of a power are worth after this sign. */
  function SignedPower(sign: string, p: string): int
    requires AllDigits(p)
  {
    if sign == "-" then -(ParseNat(p) as int) else ParseNat(p)
  }

  /** Every way to write an exponent after a point: e or E, and plus, minus or no sign. */
  lemma ExponentForms(w: string, f: string, e: char, sign: string, p: string)
    requires AllDigits(w) && w != [] && AllDigits(f) && AllDigits(p) && p != [] && (e == 'e' || e == 'E')
    requires sign == "" || sign == "+" || sign == "-"
    ensures var text := w + "." + f + [e] + (sign + p);
      IsNumeral(text) && Parse(text) == Dec(ParseNat(w + f), (if sign == "-" then -(ParseNat(p) as int) else ParseNat(p)) - |f|)
  {
    PowerForms(p);
    PointIsNumeral(w, f);
    NoExponentMark(w, f);
    assert "" + p == p;
    ExponentShape(w + "." + f, w, f, e, sign + p, SignedPower(sign, p));
  }

  /** And without a point, so that "1e-7" is Dec(1, -7). */
  lemma PointlessExponentForms(w: string, e: char, sign: string, p: string)
    requires AllDigits(w) && w != [] && AllDigits(p) && p != [] && (e == 'e' || e == 'E')
    requires sign == "" || sign == "+" || sign == "-"
    ensures var text := w + [e] + (sign + p);
      IsNumeral(text) && Parse(text) == Dec(ParseNat(w), if sign == "-" then -(ParseNat(p) as int) else ParseNat(p))
  {
    PowerForms(p);
    DigitsAreNumeral(w);
    NoExponentMark(w, "");
    assert w + "" == w && "" + p == p;
    ExponentShape(w, w, "", e, sign + p, SignedPower(sign, p));
  }

  lemma NoExponentMark(w: string, f: string)
    requires AllDigits(w) && AllDigits(f)
    ensures forall i :: 0 <= i < |w| ==> w[i] !in {'e', 'E'}
    ensures forall i :: 0 <= i < |w + "." + f| ==> (w + "." + f)[i] !in {'e', 'E'}
  {
    var text := w + "." + f;
    forall i | 0 <= i < |text| ensures text[i] !in {'e', 'E'} {
      assert text[i] == if i < |w| then w[i] else if i == |w| then '.' else f[i - |w| - 1];
    }
  }

  /** Canonical text as its whole digits and its fraction digits. */
  lemma CanonicalShape(text: string) returns (w: string, f: string)
    requires IsCanonical(text)
    ensures NoLeadingZero(w) && AllDigits(f) && (f != [] ==> f[|f| - 1] != '0')
    ensures text == if f == [] then w else w + "." + f
    ensures IsNumeral(text) && Parse(text) == Dec(ParseNat(w + f), -|f|)
  {
    if NoLeadingZero(text) {
      w, f := text, "";
      assert w + f == w;
      DigitsAreNumeral(text);
    } else {
      var p :| 0 < p < |text| - 1 && text[p] == '.' && CanonicalAt(text, p);
      w, f := text[..p], text[p + 1..];
      assert text == w + "." + f;
      PointIsNumeral(w, f);
    }
  }

  lemma SameExponentSameCoef(a: nat, b: nat, exp: int)
    requires Val(Dec(a, exp)) == Val(Dec(b, exp))
    ensures a == b
  {
    SameExponentOrder(a, b, exp);
    SameExponentOrder(b, a, exp);
  }

  lemma LastDigitShows(w: string, f: string)
    requires AllDigits(w) && AllDigits(f) && (f != [] ==> f[|f| - 1] != '0')
    ensures |f| > 0 ==> ParseNat(w + f) % 10 != 0
  {
    if f != [] { assert (w + f)[|w + f| - 1] == f[|f| - 1]; }
  }

  lemma AlignLonger(c: nat, n: int, c': nat, n': int)
    requires n > n' >= 0 && Val(Dec(c, -n)) == Val(Dec(c', -n'))
    ensures c % 10 == 0
  {
    Rescale(Dec(c', -n'), -n);
    SameExponentSameCoef(c, Shift(c', n - n'), -n);
    assert Shift(c', n - n') == 10 * Shift(c', n - n' - 1);
  }

  /** Each value has one canonical text. */
  lemma CanonicalUnique(a: string, b: string)
    requires IsCanonical(a) && IsCanonical(b)
    requires IsNumeral(a) && IsNumeral(b) && Val(Parse(a)) == Val(Parse(b))
    ensures a == b
  {
    var w, f := CanonicalShape(a);
    var w', f' := CanonicalShape(b);
    SameShapeSameText(w, f, ParseNat(w + f), w', f', ParseNat(w' + f'));
  }

  // A longer fraction would end with the zero that alignment appends.
  lemma ReducedUnique(c: nat, n: int, c': nat, n': int)
    requires n >= 0 && n' >= 0 && Val(Dec(c, -n)) == Val(Dec(c', -n'))
    requires (n > 0 ==> c % 10 != 0) && (n' > 0 ==> c' % 10 != 0)
    ensures n == n' && c == c'
  {
    if n > n' {
      AlignLonger(c, n, c', n');
    } else if n' > n {
      AlignLonger(c', n', c, n);
    } else {
      SameExponentSameCoef(c, c', -n);
    }
  }

  lemma SameShapeSameText(w: string, f: string, c: nat, w': string, f': string, c': nat)
    requires NoLeadingZero(w) && AllDigits(f) && (f != [] ==> f[|f| - 1] != '0') && c == ParseNat(w + f)
    requires NoLeadingZero(w') && AllDigits(f') && (f' != [] ==> f'[|f'| - 1] != '0') && c' == ParseNat(w' + f')
    requires Val(Dec(c, -|f|)) == Val(Dec(c', -|f'|))
    ensures w == w' && f == f'
  {
    LastDigitShows(w, f);
    LastDigitShows(w', f');
    ReducedUnique(c, |f|, c', |f'|);
    SameDigits(w, f, w', f');
  }

  lemma SameDigits(w: string, f: string, w': string, f': string)
    requires NoLeadingZero(w) && AllDigits(f) && NoLeadingZero(w') && AllDigits(f')
    requires |f| == |f'| && ParseNat(w + f) == ParseNat(w' + f')
    ensures w == w' && f == f'
  {
    ParseConcat(w, f);
    ParseConcat(w', f');
    ParseBound(f);
    ParseBound(f');
    QuotientUnique(ParseNat(w), ParseNat(f), ParseNat(w'), ParseNat(f'), |f|);
    NoLeadingZeroUnique(w, w');
    ParseInjective(f, f');
  }

  lemma QuotientUnique(q: nat, r: nat, q': nat, r': nat, k: nat)
    requires r < Pow10(k) && r' < Pow10(k) && Shift(q, k) + r == Shift(q', k) + r'
    ensures q == q' && r == r'
  {
    ShiftOrder(q, q', k);
    ShiftOrder(q', q, k);
  }

  // ---- Printing ------------------------------------------------------------------

  function PadStart(s: string, n: nat): string {
    if |s| >= n then s else Zeros(n - |s|) + s
  }

  /** Remove trailing zeros. */
  function StripZeros(s: string): string {
    if s != [] && s[|s| - 1] == '0' then StripZeros(s[..|s| - 1]) else s
  }

  function StripPoint(s: string): string {
    if s != [] && s[|s| - 1] == '.' then s[..|s| - 1] else s
  }

  /** format(value, "f"): plain digits, with the point where the exponent puts it. */
  function FormatF(d: Dec): string {
    if d.exp >= 0 then NatText(Shift(d.coef, d.exp))
    else
      var digits, scale := NatText(d.coef), -d.exp;
      if |digits| < scale then "0." + Zeros(scale - |digits|) + digits
      else if |digits| == scale then "0." + digits
      else digits[..|digits| - scale] + "." + digits[|digits| - scale..]
  }

  /** Python's _decimal_text. */
  function PythonText(d: Dec): string {
    var text := FormatF(d);
    if '.' in text then Trim(text) else text
  }

  /** Node's digits of total at a positive scale, before trimming. */
  function PointText(total: nat, scale: nat): string
    requires scale > 0
  {
    var digits := PadStart(NatText(total), scale + 1);
    digits[..|digits| - scale] + "." + digits[|digits| - scale..]
  }

  /** The total of two amounts at their common scale. */
  function TotalAt(a: nat, aScale: int, b: nat, bScale: int, scale: int): nat
    requires aScale <= scale && bScale <= scale
  {
    Shift(a, scale - aScale) + Shift(b, scale - bScale)
  }

  function Max(a: int, b: int): int { if a >= b then a else b }

  function PlainText(total: nat, scale: nat): string {
    if scale == 0 then PadStart(NatText(total), 1) else Trim(PointText(total, scale))
  }

  /** Node's addAmounts. */
  function AddAmounts(left: string, right: string): string
    requires IsNumeral(left) && IsNumeral(right)
  {
    var (a, aScale) := Parts(left);
    var (b, bScale) := Parts(right);
    var scale := Max(Max(aScale, bScale), 0);
    var total := TotalAt(a, aScale, b, bScale, scale);
    PlainText(total, scale)
  }

  /** Node's amountExceeds. */
  predicate AmountExceeds(left: string, right: string)
    requires IsNumeral(left) && IsNumeral(right)
  {
    var (a, aScale) := Parts(left);
    var (b, bScale) := Parts(right);
    var scale := Max(aScale, bScale);
    Shift(a, scale - aScale) > Shift(b, scale - bScale)
  }

  function Trim(text: string): string { StripPoint(StripZeros(text)) }

  lemma TrimLastZero(w: string, f: string)
    requires AllDigits(w) && AllDigits(f) && f != [] && f[|f| - 1] == '0'
    ensures var g := f[..|f| - 1];
      && Trim(w + "." + f) == Trim(w + "." + g)
      && Val(Dec(ParseNat(w + f), -|f|)) == Val(Dec(ParseNat(w + g), -|g|))
  {
    var g := f[..|f| - 1];
    var text := w + "." + f;
    assert text[..|text| - 1] == w + "." + g;
    assert (w + f)[..|w + f| - 1] == w + g;
    RescaleOne(ParseNat(w + g), -|g|);
  }

  lemma TrimNothing(w: string, f: string)
    requires NoLeadingZero(w) && AllDigits(f) && (f != [] ==> f[|f| - 1] != '0')
    ensures Trim(w + "." + f) == (if f == [] then w else w + "." + f)
    ensures IsCanonical(Trim(w + "." + f))
    ensures IsNumeral(Trim(w + "." + f)) && Parse(Trim(w + "." + f)) == Dec(ParseNat(w + f), -|f|)
  {
    var text := w + "." + f;
    if f == [] {
      assert text[..|text| - 1] == w && w + f == w;
      DigitsAreNumeral(w);
    } else {
      assert text[|w|] == '.' && text[..|w|] == w && text[|w| + 1..] == f;
      assert CanonicalAt(text, |w|);
      PointIsNumeral(w, f);
    }
  }

  /** Trimming keeps the value and makes the text canonical. */
  lemma {:induction false} TrimIsCanonical(w: string, f: string)
    requires NoLeadingZero(w) && AllDigits(f)
    ensures IsCanonical(Trim(w + "." + f)) && IsNumeral(Trim(w + "." + f))
    ensures Val(Parse(Trim(w + "." + f))) == Val(Dec(ParseNat(w + f), -|f|))
    ensures Parse(Trim(w + "." + f)).exp >= -|f|
    decreases |f|
  {
    if f != [] && f[|f| - 1] == '0' {
      TrimLastZero(w, f);
      TrimIsCanonical(w, f[..|f| - 1]);
    } else {
      TrimNothing(w, f);
    }
  }

  lemma ShortDigits(digits: string, scale: nat)
    requires AllDigits(digits) && |digits| <= scale
    ensures var f := Zeros(scale - |digits|) + digits;
      AllDigits(f) && |f| == scale && "0" + f == Zeros(scale + 1 - |digits|) + digits
      && ParseNat("0" + f) == ParseNat(digits)
  {
    var f := Zeros(scale - |digits|) + digits;
    assert "0" + f == Zeros(scale + 1 - |digits|) + digits;
    LeadingZeros(scale + 1 - |digits|, digits);
  }

  lemma LongDigits(digits: string, scale: nat)
    requires NoLeadingZero(digits) && |digits| > scale > 0
    ensures var w, f := digits[..|digits| - scale], digits[|digits| - scale..];
      NoLeadingZero(w) && AllDigits(f) && |f| == scale && w + f == digits
  {
    assert digits[..|digits| - scale][0] == digits[0];
  }

  lemma PadShape(total: nat, scale: nat) returns (w: string, f: string)
    requires scale > 0
    ensures NoLeadingZero(w) && AllDigits(f) && |f| == scale
    ensures PointText(total, scale) == w + "." + f && ParseNat(w + f) == total
  {
    var digits := NatText(total);
    ParseNatText(total);
    if |digits| <= scale {
      w, f := "0", Zeros(scale - |digits|) + digits;
      ShortDigits(digits, scale);
      var padded := PadStart(digits, scale + 1);
      assert padded == w + f;
      assert padded[..1] == w && padded[1..] == f;
    } else {
      w, f := digits[..|digits| - scale], digits[|digits| - scale..];
      LongDigits(digits, scale);
    }
  }

  lemma FormatShape(d: Dec) returns (w: string, f: string)
    requires d.exp < 0
    ensures NoLeadingZero(w) && AllDigits(f) && |f| == -d.exp
    ensures FormatF(d) == w + "." + f && ParseNat(w + f) == d.coef
  {
    var digits, scale := NatText(d.coef), -d.exp;
    ParseNatText(d.coef);
    if |digits| <= scale {
      w, f := "0", Zeros(scale - |digits|) + digits;
      ShortDigits(digits, scale);
      assert "0." + Zeros(scale - |digits|) + digits == w + "." + f;
    } else {
      w, f := digits[..|digits| - scale], digits[|digits| - scale..];
      LongDigits(digits, scale);
    }
  }

  /** _decimal_text prints the canonical text of the value, and reading it back loses nothing. */
  lemma {:induction false} PythonTextExact(d: Dec)
    ensures IsCanonical(PythonText(d)) && IsNumeral(PythonText(d))
    ensures Val(Parse(PythonText(d))) == Val(d)
  {
    if d.exp >= 0 {
      var n := Shift(d.coef, d.exp);
      ParseNatText(n);
      DigitsAreNumeral(NatText(n));
      assert '.' !in NatText(n);
    } else {
      var w, f := FormatShape(d);
      assert FormatF(d)[|w|] == '.';
      TrimIsCanonical(w, f);
    }
  }

  /** The printed text has no more decimals than the number. */
  lemma {:induction false} PythonTextScale(d: Dec)
    ensures IsNumeral(PythonText(d)) && (Parse(PythonText(d)).exp >= d.exp || Parse(PythonText(d)).exp >= 0)
  {
    if d.exp >= 0 {
      var n := Shift(d.coef, d.exp);
      DigitsAreNumeral(NatText(n));
      assert '.' !in NatText(n);
    } else {
      var w, f := FormatShape(d);
      assert FormatF(d)[|w|] == '.';
      TrimIsCanonical(w, f);
    }
  }

  lemma TotalExact(a: nat, aScale: int, b: nat, bScale: int, scale: int)
    requires aScale <= scale && bScale <= scale
    ensures Val(Dec(TotalAt(a, aScale, b, bScale, scale), -scale)) == Val(Dec(a, -aScale)) + Val(Dec(b, -bScale))
  {
    Rescale(Dec(a, -aScale), -scale);
    Rescale(Dec(b, -bScale), -scale);
    SameExponentAdds(Shift(a, scale - aScale), Shift(b, scale - bScale), -scale);
  }

  lemma PlainTextExact(total: nat, scale: nat)
    ensures IsCanonical(PlainText(total, scale)) && IsNumeral(PlainText(total, scale))
    ensures Val(Parse(PlainText(total, scale))) == Val(Dec(total, -(scale as int)))
  {
    if scale == 0 {
      ParseNatText(total);
      DigitsAreNumeral(NatText(total));
    } else {
      var w, f := PadShape(total, scale);
      TrimIsCanonical(w, f);
    }
  }

  /** addAmounts prints the true sum in the unique canonical form. */
  lemma {:induction false} AddAmountsExact(left: string, right: string)
    requires IsNumeral(left) && IsNumeral(right)
    ensures IsCanonical(AddAmounts(left, right)) && IsNumeral(AddAmounts(left, right))
    ensures Val(Parse(AddAmounts(left, right))) == Val(Parse(left)) + Val(Parse(right))
  {
    var (a, aScale) := Parts(left);
    var (b, bScale) := Parts(right);
    var scale := Max(Max(aScale, bScale), 0);
    var total := TotalAt(a, aScale, b, bScale, scale);
    TotalExact(a, aScale, b, bScale, scale);
    PlainTextExact(total, scale);
    assert AddAmounts(left, right) == PlainText(total, scale);
    assert Parse(left) == Dec(a, -aScale) && Parse(right) == Dec(b, -bScale);
  }

  /** amountExceeds decides the true order of the values. */
  lemma {:induction false} AmountExceedsExact(left: string, right: string)
    requires IsNumeral(left) && IsNumeral(right)
    ensures AmountExceeds(left, right) <==> Val(Parse(left)) > Val(Parse(right))
  {
    var (a, aScale) := Parts(left);
    var (b, bScale) := Parts(right);
    AlignedOrder(a, aScale, b, bScale);
  }

  lemma AlignedOrder(a: nat, aScale: int, b: nat, bScale: int)
    ensures var scale := Max(aScale, bScale);
      Shift(a, scale - aScale) > Shift(b, scale - bScale) <==> Val(Dec(a, -aScale)) > Val(Dec(b, -bScale))
  {
    OrderExact(Dec(b, -bScale), Dec(a, -aScale), -Max(aScale, bScale));
  }

  /** Node and Python write the same text for the same total. */
  lemma {:induction false} NodeAndPythonAgree(left: string, right: string)
    requires IsNumeral(left) && IsNumeral(right)
    ensures AddAmounts(left, right) == PythonText(Add(Parse(left), Parse(right)))
  {
    AddAmountsExact(left, right);
    AddExact(Parse(left), Parse(right));
    PythonTextExact(Add(Parse(left), Parse(right)));
    CanonicalUnique(AddAmounts(left, right), PythonText(Add(Parse(left), Parse(right))));
  }
}

/**
  Unpadded base64url with the strict decoder, and the three-segment form of a
  token string (sections 3.5 and 5 of RFC 4648).
 */
module Base64Url {
  import opened Wrappers

  type Byte = b: int | 0 <= b < 256
  type Sextet = s: int | 0 <= s < 64

  // ---- Letters ---------------------------------------------------------------------

  predicate IsLetter(c: char) {
    'A' <= c <= 'Z' || 'a' <= c <= 'z' || '0' <= c <= '9' || c == '-' || c == '_'
  }

  function Letter(s: Sextet): (c: char)
    ensures IsLetter(c) && SextetOf(c) == s
  {
    if s < 26 then (s + 65) as char
    else if s < 52 then (s + 71) as char
    else if s < 62 then (s - 4) as char
    else if s == 62 then '-'
    else '_'
  }

  function SextetOf(c: char): Sextet
    requires IsLetter(c)
  {
    if c <= 'Z' && c >= 'A' then c as int - 65
    else if c >= 'a' then c as int - 71
    else if c >= '0' && c <= '9' then c as int + 4
    else if c == '-' then 62
    else 63
  }

  lemma LetterOfSextet(c: char)
    requires IsLetter(c)
    ensures Letter(SextetOf(c)) == c
  {
  }

  function Letters(ss: seq<Sextet>): (t: string)
    ensures |t| == |ss|
    ensures forall i :: 0 <= i < |ss| ==> t[i] == Letter(ss[i])
  {
    seq(|ss|, i requires 0 <= i < |ss| => Letter(ss[i]))
  }

  predicate AllLetters(t: string) { forall i :: 0 <= i < |t| ==> IsLetter(t[i]) }

  function SextetsOf(t: string): (ss: seq<Sextet>)
    requires AllLetters(t)
    ensures |ss| == |t|
    ensures forall i :: 0 <= i < |t| ==> ss[i] == SextetOf(t[i])
  {
    seq(|t|, i requires 0 <= i < |t| => SextetOf(t[i]))
  }

  lemma LettersInvert(ss: seq<Sextet>)
    ensures AllLetters(Letters(ss)) && SextetsOf(Letters(ss)) == ss
  {
  }

  lemma SextetsInvert(t: string)
    requires AllLetters(t)
    ensures Letters(SextetsOf(t)) == t
  {
    forall i | 0 <= i < |t| ensures Letters(SextetsOf(t))[i] == t[i] { LetterOfSextet(t[i]); }
  }

  // ---- Bytes to sextets and back ----------------------------------------------------

  function Split6(bytes: seq<Byte>): (ss: seq<Sextet>)
    ensures |ss| % 4 != 1
  {
    if |bytes| == 0 then []
    else if |bytes| == 1 then [bytes[0] / 4, bytes[0] % 4 * 16]
    else if |bytes| == 2 then [bytes[0] / 4, bytes[0] % 4 * 16 + bytes[1] / 16, bytes[1] % 16 * 4]
    else Quad(bytes[0], bytes[1], bytes[2]) + Split6(bytes[3..])
  }

  function Quad(a: Byte, b: Byte, c: Byte): seq<Sextet> {
    [a / 4, a % 4 * 16 + b / 16, b % 16 * 4 + c / 64, c % 64]
  }

  function ByteA(p: Sextet, q: Sextet): Byte { p * 4 + q / 16 }
  function ByteB(q: Sextet, r: Sextet): Byte { q % 16 * 16 + r / 4 }
  function ByteC(r: Sextet, s: Sextet): Byte { r % 4 * 64 + s }

  function Triple(p: Sextet, q: Sextet, r: Sextet, s: Sextet): seq<Byte> {
    [ByteA(p, q), ByteB(q, r), ByteC(r, s)]
  }

  /** The lenient decoder: leftover bits of the last letter are ignored. */
  function Join8(ss: seq<Sextet>): seq<Byte>
    requires |ss| % 4 != 1
  {
    if |ss| == 0 then []
    else if |ss| == 2 then [ByteA(ss[0], ss[1])]
    else if |ss| == 3 then [ByteA(ss[0], ss[1]), ByteB(ss[1], ss[2])]
    else Triple(ss[0], ss[1], ss[2], ss[3]) + Join8(ss[4..])
  }

  /** No leftover bits are set. */
  predicate CleanTail(ss: seq<Sextet>) {
    && (|ss| % 4 == 2 ==> ss[|ss| - 1] % 16 == 0)
    && (|ss| % 4 == 3 ==> ss[|ss| - 1] % 4 == 0)
  }

  lemma HighAndLow(high: nat, low: nat, unit: nat)
    requires (unit == 4 || unit == 16) && low < unit
    ensures (high * unit + low) / unit == high && (high * unit + low) % unit == low
  {
    if unit == 4 {
      assert (high * 4 + low) / 4 == high;
    } else {
      assert (high * 16 + low) / 16 == high;
    }
  }

  lemma QuadTriple(a: Byte, b: Byte, c: Byte)
    ensures var q := Quad(a, b, c); Triple(q[0], q[1], q[2], q[3]) == [a, b, c]
  {
    HighAndLow(a % 4, b / 16, 16);
    HighAndLow(b % 16, c / 64, 4);
    BytesFromParts(a, b, c, a % 4 * 16 + b / 16, b % 16 * 4 + c / 64);
  }

  lemma BytesFromParts(a: Byte, b: Byte, c: Byte, q: Sextet, r: Sextet)
    requires q / 16 == a % 4 && q % 16 == b / 16 && r / 4 == b % 16 && r % 4 == c / 64
    ensures ByteA(a / 4, q) == a && ByteB(q, r) == b && ByteC(r, c % 64) == c
  {
  }

  lemma ByteParts(p: Sextet, q: Sextet, r: Sextet, s: Sextet)
    ensures ByteA(p, q) / 4 == p && ByteA(p, q) % 4 == q / 16
    ensures ByteB(q, r) / 16 == q % 16 && ByteB(q, r) % 16 == r / 4
    ensures ByteC(r, s) / 64 == r % 4 && ByteC(r, s) % 64 == s
  {
  }

  /** Three bytes are regrouped into the four sextets they were made of. */
  lemma TripleQuad(p: Sextet, q: Sextet, r: Sextet, s: Sextet, a: Byte, b: Byte, c: Byte)
    requires a / 4 == p && a % 4 == q / 16 && b / 16 == q % 16 && b % 16 == r / 4 && c / 64 == r % 4 && c % 64 == s
    ensures Quad(a, b, c) == [p, q, r, s]
  {
  }

  lemma {:induction false} JoinSplit(bytes: seq<Byte>)
    ensures Join8(Split6(bytes)) == bytes
  {
    if |bytes| >= 3 {
      var q, rest := Quad(bytes[0], bytes[1], bytes[2]), Split6(bytes[3..]);
      JoinSplit(bytes[3..]);
      QuadTriple(bytes[0], bytes[1], bytes[2]);
      assert (q + rest)[4..] == rest;
      assert bytes == [bytes[0], bytes[1], bytes[2]] + bytes[3..];
    }
  }

  lemma ShortTails(p: Sextet, q: Sextet, r: Sextet)
    ensures Split6([ByteA(p, q)]) == [p, q] <==> q % 16 == 0
    ensures Split6([ByteA(p, q), ByteB(q, r)]) == [p, q, r] <==> r % 4 == 0
  {
    ByteParts(p, q, r, 0);
    assert Split6([ByteA(p, q)]) == [p, q / 16 * 16];
    assert Split6([ByteA(p, q), ByteB(q, r)]) == [p, q / 16 * 16 + q % 16, r / 4 * 4];
  }

  lemma SplitGroup(a: Byte, b: Byte, c: Byte, rest: seq<Byte>)
    ensures Split6([a, b, c] + rest) == Quad(a, b, c) + Split6(rest)
  {
    assert ([a, b, c] + rest)[3..] == rest;
  }

  lemma HeadAndTail(head: seq<Sextet>, tail: seq<Sextet>, other: seq<Sextet>)
    ensures head + tail == head + other <==> tail == other
  {
    assert (head + tail)[|head|..] == tail && (head + other)[|head|..] == other;
  }

  lemma SplitJoinStep(p: Sextet, q: Sextet, r: Sextet, s: Sextet, rest: seq<Sextet>)
    requires |rest| % 4 != 1
    ensures Split6(Join8([p, q, r, s] + rest)) == [p, q, r, s] + rest <==> Split6(Join8(rest)) == rest
  {
    assert ([p, q, r, s] + rest)[4..] == rest;
    SplitGroup(ByteA(p, q), ByteB(q, r), ByteC(r, s), Join8(rest));
    ByteParts(p, q, r, s);
    TripleQuad(p, q, r, s, ByteA(p, q), ByteB(q, r), ByteC(r, s));
    HeadAndTail([p, q, r, s], Split6(Join8(rest)), rest);
  }

  lemma CleanTailStep(head: seq<Sextet>, rest: seq<Sextet>)
    requires |head| == 4
    ensures CleanTail(head + rest) <==> CleanTail(rest)
  {
  }

  lemma TwoLetters(p: Sextet, q: Sextet)
    ensures Split6(Join8([p, q])) == [p, q] <==> CleanTail([p, q])
  {
    ShortTails(p, q, 0);
    assert Join8([p, q]) == [ByteA(p, q)];
  }

  lemma ThreeLetters(p: Sextet, q: Sextet, r: Sextet)
    ensures Split6(Join8([p, q, r])) == [p, q, r] <==> CleanTail([p, q, r])
  {
    ShortTails(p, q, r);
    assert Join8([p, q, r]) == [ByteA(p, q), ByteB(q, r)];
  }

  /** Re-encoding gives the letters back exactly when no leftover bit was set. */
  lemma {:induction false} SplitJoin(ss: seq<Sextet>)
    requires |ss| % 4 != 1
    ensures Split6(Join8(ss)) == ss <==> CleanTail(ss)
  {
    if |ss| == 2 {
      assert ss == [ss[0], ss[1]];
      TwoLetters(ss[0], ss[1]);
    } else if |ss| == 3 {
      assert ss == [ss[0], ss[1], ss[2]];
      ThreeLetters(ss[0], ss[1], ss[2]);
    } else if |ss| >= 4 {
      var rest := ss[4..];
      assert ss == [ss[0], ss[1], ss[2], ss[3]] + rest;
      SplitJoin(rest);
      SplitJoinStep(ss[0], ss[1], ss[2], ss[3], rest);
      CleanTailStep([ss[0], ss[1], ss[2], ss[3]], rest);
    }
  }

  // ---- The codec ----------------------------------------------------------------------

  function Encode(bytes: seq<Byte>): string { Letters(Split6(bytes)) }

  datatype DecodeError = Invalid | NonCanonical

  /** The strict decoder: what does not re-encode to itself is refused. */
  function Decode(t: string): Result<seq<Byte>, DecodeError> {
    if !AllLetters(t) || |t| % 4 == 1 then Err(Invalid)
    else
      var decoded := Join8(SextetsOf(t));
      if Encode(decoded) != t then Err(NonCanonical) else Ok(decoded)
  }

  /** Decoding accepts exactly the image of encoding, and inverts it. */
  lemma DecodeInvertsEncode(t: string, bytes: seq<Byte>)
    ensures Decode(t) == Ok(bytes) <==> t == Encode(bytes)
  {
    LettersInvert(Split6(bytes));
    JoinSplit(bytes);
  }

  /** The alphabet of section 5 of RFC 4648: upper case, lower case, digits, minus and underscore. */
  lemma LettersExactly(s: Sextet)
    ensures s < 26 ==> Letter(s) as int - 'A' as int == s
    ensures 26 <= s < 52 ==> Letter(s) as int - 'a' as int == s - 26
    ensures 52 <= s < 62 ==> Letter(s) as int - '0' as int == s - 52
    ensures s == 62 ==> Letter(s) == '-'
    ensures s == 63 ==> Letter(s) == '_'
  {
  }

  /** Examples of section 10 of RFC 4648, without padding. */
  lemma ExamplesOfTheStandard()
    ensures Encode([]) == "" && Encode([102]) == "Zg" && Encode([102, 111]) == "Zm8" && Encode([102, 111, 111]) == "Zm9v"
  {
    assert [102, 111, 111][3..] == [];
  }

  /** The accepted texts, without reference to the encoder: RFC 4648's canonical form. */
  lemma {:induction false} AcceptedTexts(t: string)
    ensures Decode(t).Ok? <==> AllLetters(t) && |t| % 4 != 1 && CleanTail(SextetsOf(t))
  {
    if AllLetters(t) && |t| % 4 != 1 {
      var ss := SextetsOf(t);
      SplitJoin(ss);
      SextetsInvert(t);
      LettersInvert(Split6(Join8(ss)));
    }
  }

  // ---- Token strings -------------------------------------------------------------------

  /** str.split("."). */
  function SplitDots(t: string): (parts: seq<string>)
    ensures parts != []
  {
    if t == "" then [""]
    else
      var rest := SplitDots(t[1..]);
      if t[0] == '.' then [""] + rest else [[t[0]] + rest[0]] + rest[1..]
  }

  function JoinDots(parts: seq<string>): string
    requires parts != []
  {
    if |parts| == 1 then parts[0] else parts[0] + "." + JoinDots(parts[1..])
  }

  lemma {:induction false} JoinOfSplit(t: string)
    ensures JoinDots(SplitDots(t)) == t
  {
    if t != "" {
      JoinOfSplit(t[1..]);
      var rest := SplitDots(t[1..]);
      if t[0] == '.' {
        assert ([""] + rest)[1..] == rest;
        assert JoinDots(SplitDots(t)) == "" + "." + t[1..];
      } else {
        PrependToFirst(t[0], rest);
      }
    }
  }

  lemma PrependToFirst(c: char, parts: seq<string>)
    requires parts != []
    ensures JoinDots([[c] + parts[0]] + parts[1..]) == [c] + JoinDots(parts)
  {
    var longer := [[c] + parts[0]] + parts[1..];
    assert longer[1..] == parts[1..];
    if |parts| > 1 {
      assert [c] + parts[0] + "." + JoinDots(parts[1..]) == [c] + (parts[0] + "." + JoinDots(parts[1..]));
    }
  }

  lemma {:induction false} SplitWithoutDots(s: string)
    requires '.' !in s
    ensures SplitDots(s) == [s]
  {
    if s != "" {
      SplitWithoutDots(s[1..]);
      assert [s[0]] + s[1..] == s;
    }
  }

  lemma {:induction false} SplitAtFirstDot(s: string, t: string)
    requires '.' !in s
    ensures SplitDots(s + "." + t) == [s] + SplitDots(t)
  {
    var whole := s + "." + t;
    if s == "" {
      assert whole[1..] == t;
    } else {
      assert whole[1..] == s[1..] + "." + t;
      SplitAtFirstDot(s[1..], t);
      assert [s[0]] + s[1..] == s;
    }
  }

  /** _sign: the three segments of a token string. */
  function TokenText(header: seq<Byte>, payload: seq<Byte>, signature: seq<Byte>): string {
    Encode(header) + "." + (Encode(payload) + "." + Encode(signature))
  }

  datatype Segments = Segments(header: seq<Byte>, payload: seq<Byte>, signature: seq<Byte>)

  /** The segments parse accepts, before their content is read. */
  function ParseSegments(t: string): Result<Segments, DecodeError> {
    var parts := SplitDots(t);
    if |parts| != 3 then Err(Invalid)
    else
      match (Decode(parts[0]), Decode(parts[1]), Decode(parts[2]))
      case (Ok(h), Ok(p), Ok(s)) => Ok(Segments(h, p, s))
      case _ => Err(Invalid)
  }

  lemma EncodeHasNoDot(bytes: seq<Byte>)
    ensures '.' !in Encode(bytes)
  {
  }

  lemma SplitTokenText(header: seq<Byte>, payload: seq<Byte>, signature: seq<Byte>)
    ensures SplitDots(TokenText(header, payload, signature)) == [Encode(header), Encode(payload), Encode(signature)]
  {
    EncodeHasNoDot(header);
    EncodeHasNoDot(payload);
    EncodeHasNoDot(signature);
    SplitAtFirstDot(Encode(header), Encode(payload) + "." + Encode(signature));
    SplitAtFirstDot(Encode(payload), Encode(signature));
    SplitWithoutDots(Encode(signature));
  }

  lemma JoinThree(a: string, b: string, c: string)
    ensures JoinDots([a, b, c]) == a + "." + (b + "." + c)
  {
    assert [a, b, c][1..] == [b, c];
    assert [b, c][1..] == [c];
    assert JoinDots([c]) == c;
    assert JoinDots([b, c]) == b + "." + c;
  }

  /**
    A token string is accepted with some segments exactly when it is the text of
    those segments: splitting recovers them, and no two accepted strings share them.
   */
  lemma SegmentsDetermineToken(t: string, g: Segments)
    ensures ParseSegments(t) == Ok(g) <==> t == TokenText(g.header, g.payload, g.signature)
  {
    var parts := SplitDots(t);
    DecodeInvertsEncode(Encode(g.header), g.header);
    DecodeInvertsEncode(Encode(g.payload), g.payload);
    DecodeInvertsEncode(Encode(g.signature), g.signature);
    SplitTokenText(g.header, g.payload, g.signature);
    if ParseSegments(t) == Ok(g) {
      DecodeInvertsEncode(parts[0], g.header);
      DecodeInvertsEncode(parts[1], g.payload);
      DecodeInvertsEncode(parts[2], g.signature);
      JoinOfSplit(t);
      JoinThree(parts[0], parts[1], parts[2]);
      assert parts == [parts[0], parts[1], parts[2]];
    }
  }
}

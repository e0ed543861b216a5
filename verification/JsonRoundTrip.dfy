/** Canonical text read back: the same value, with the keys of every object in code-point order. */
module JsonRoundTrip {
  import opened JsonValues
  import opened CanonicalJson
  import opened CanonicalProof
  import opened JsonReader

  /** The value with the members of every object in code-point order of their keys. */
  function Ordered(v: Json): Json {
    match v
    case Arr(items) => Arr(seq(|items|, i requires 0 <= i < |items| => Ordered(items[i])))
    case Obj(members) =>
      var ks := SortedKeys(members);
      Obj(seq(|ks|, i requires 0 <= i < |ks| =>
        assert ks[i] in Elements(ks);
        Member(ks[i], Ordered(Find(members, ks[i]).value))))
    case _ => v
  }

  function OrderedItems(items: seq<Json>): (out: seq<Json>)
    ensures |out| == |items|
  {
    seq(|items|, i requires 0 <= i < |items| => Ordered(items[i]))
  }

  function OrderedMembers(v: Json, ks: seq<Str>): (out: seq<Member>)
    requires KeysIn(v, ks)
    ensures |out| == |ks|
  {
    seq(|ks|, i requires 0 <= i < |ks| => assert ks[i] in ks; Member(ks[i], Ordered(Find(v.members, ks[i]).value)))
  }

  // ---- The reader, case by case ------------------------------------------------------------------

  lemma WordReads(t: Str, v: Json, z: Str)
    requires (v == Null && t == Ascii("null") + z) || (v == Bool(true) && t == Ascii("true") + z)
          || (v == Bool(false) && t == Ascii("false") + z)
    ensures ReadValue(t) == Got(v, z)
  {
    assert Ascii("null") == [110, 117, 108, 108];
    assert Ascii("true") == [116, 114, 117, 101];
    assert Ascii("false") == [102, 97, 108, 115, 101];
    var n := if v == Bool(false) then 5 else 4;
    assert t[n..] == z;
    assert t[0] == if v == Null then 110 else if v == Bool(true) then 116 else 102;
  }

  lemma StringReads(t: Str, s: Str, z: Str)
    requires t != [] && t[0] == 34 && ReadString(t) == Got(s, z)
    ensures ReadValue(t) == Got(String(s), z)
  {
  }

  lemma IntReads(t: Str, n: int, z: Str)
    requires t != [] && (t[0] == 45 || IsDecimal(t[0])) && ReadInt(t) == Got(n, z)
    ensures ReadValue(t) == Got(Int(n), z)
  {
  }

  lemma EmptyArrReads(t: Str, z: Str)
    requires |t| > 1 && t[0] == 91 && t[1] == 93 && t[2..] == z
    ensures ReadValue(t) == Got(Arr([]), z)
  {
  }

  lemma ArrReads(t: Str, items: seq<Json>, z: Str)
    requires |t| > 1 && t[0] == 91 && t[1] != 93 && ReadItems(t[1..]) == Got(items, z)
    ensures ReadValue(t) == Got(Arr(items), z)
  {
  }

  lemma EmptyObjReads(t: Str, z: Str)
    requires |t| > 1 && t[0] == 123 && t[1] == 125 && t[2..] == z
    ensures ReadValue(t) == Got(Obj([]), z)
  {
  }

  lemma ObjReads(t: Str, members: seq<Member>, z: Str)
    requires |t| > 1 && t[0] == 123 && t[1] != 125 && ReadMembers(t[1..]) == Got(members, z)
    ensures ReadValue(t) == Got(Obj(members), z)
  {
  }

  lemma LastItemReads(t: Str, v: Json, rest: Str, z: Str)
    requires ReadValue(t) == Got(v, rest) && rest != [] && rest[0] == 93 && rest[1..] == z
    ensures ReadItems(t) == Got([v], z)
  {
  }

  lemma ItemReads(t: Str, v: Json, rest: Str, vs: seq<Json>, z: Str)
    requires ReadValue(t) == Got(v, rest) && rest != [] && rest[0] == 44 && ReadItems(rest[1..]) == Got(vs, z)
    ensures ReadItems(t) == Got([v] + vs, z)
  {
  }

  lemma LastMemberReads(t: Str, m: Member, rest: Str, z: Str)
    requires ReadMember(t) == Got(m, rest) && rest != [] && rest[0] == 125 && rest[1..] == z
    ensures ReadMembers(t) == Got([m], z)
  {
  }

  lemma NextMemberReads(t: Str, m: Member, rest: Str, ms: seq<Member>, z: Str)
    requires ReadMember(t) == Got(m, rest) && rest != [] && rest[0] == 44 && ReadMembers(rest[1..]) == Got(ms, z)
    ensures ReadMembers(t) == Got([m] + ms, z)
  {
  }

  lemma PairReads(t: Str, k: Str, v: Json, rest: Str, z: Str)
    requires ReadString(t) == Got(k, [58] + rest) && ReadValue(rest) == Got(v, z)
    ensures ReadMember(t) == Got(Member(k, v), z)
  {
    assert ([58] + rest)[1..] == rest;
  }

  // ---- The round trip -------------------------------------------------------------------------------

  lemma SecondUnit(open: Unit, body: Str, close: Unit, s: Str)
    ensures var t := [open] + body + [close] + s;
      |t| > 1 && t[0] == open && t[1] == (body + [close] + s)[0] && t[1..] == body + [close] + s
      && (body == [] ==> t[2..] == s)
  {
    Opened(open, body, close, s);
  }

  lemma {:induction false} ValueReadsBack(v: Json, s: Str)
    requires Fit(v) && Delimited(s)
    ensures ReadValue(Canonical(v) + s) == Got(Ordered(v), s)
    decreases v, 2
  {
    if v.Int? {
      IntHead(v.n, s);
      IntReadsBack(v.n, s);
      IntReads(Canonical(v) + s, v.n, s);
    } else if v.String? {
      StringReadsBack(true, v.s, s);
      QuoteFirst(true, v.s, [], s);
      assert EncodeString(true, v.s) + [] == EncodeString(true, v.s);
      StringReads(Canonical(v) + s, v.s, s);
    } else if v.Arr? {
      ArrReadsBack(v, s);
    } else if v.Obj? {
      ObjReadsBack(v, s);
    } else {
      WordReads(Canonical(v) + s, v, s);
    }
  }

  lemma {:induction false} ArrReadsBack(v: Json, s: Str)
    requires v.Arr? && Fit(v) && Delimited(s)
    ensures ReadValue(Canonical(v) + s) == Got(Ordered(v), s)
    decreases v, 1
  {
    var t := Canonical(v) + s;
    ArrText(v);
    SecondUnit(OPEN_BRACKET, ArrBody(v), CLOSE_BRACKET, s);
    ArrHead(v, s);
    assert Ordered(v) == Arr(OrderedItems(v.items));
    if v.items == [] {
      EmptyArrReads(t, s);
    } else {
      ItemsReadBack(v, v.items, s);
      ArrReads(t, OrderedItems(v.items), s);
    }
  }

  lemma {:induction false} ItemsReadBack(v: Json, items: seq<Json>, s: Str)
    requires items != [] && Delimited(s)
    requires forall i :: 0 <= i < |items| ==> items[i] < v && Portable(items[i]) && Fit(items[i])
    ensures ReadItems(Canonical(items[0]) + ItemsRest(v, items[1..], s)) == Got(OrderedItems(items), s)
    decreases v, 0, |items|
  {
    var rest := ItemsRest(v, items[1..], s);
    ItemsTail(v, items[1..], s);
    ValueReadsBack(items[0], rest);
    assert OrderedItems(items) == [Ordered(items[0])] + OrderedItems(items[1..]);
    if items[1..] == [] {
      assert OrderedItems(items) == [Ordered(items[0])];
      LastItemReads(Canonical(items[0]) + rest, Ordered(items[0]), rest, s);
    } else {
      ItemsReadBack(v, items[1..], s);
      ItemReads(Canonical(items[0]) + rest, Ordered(items[0]), rest, OrderedItems(items[1..]), s);
    }
  }

  lemma {:induction false} ObjReadsBack(v: Json, s: Str)
    requires v.Obj? && Fit(v) && Delimited(s)
    ensures ReadValue(Canonical(v) + s) == Got(Ordered(v), s)
    decreases v, 1
  {
    var t, ks := Canonical(v) + s, SortedKeys(v.members);
    ObjText(v);
    SecondUnit(OPEN_BRACE, ObjBody(v), CLOSE_BRACE, s);
    ObjHead(v, s);
    assert Ordered(v) == Obj(OrderedMembers(v, ks));
    if ks == [] {
      EmptyObjReads(t, s);
    } else {
      MembersReadBack(v, ks, s);
      ObjReads(t, OrderedMembers(v, ks), s);
    }
  }

  lemma {:induction false} MemberReadsBack(v: Json, k: Str, s: Str)
    requires Fit(v) && KeysIn(v, [k]) && k in KeySet(v.members) && Delimited(s)
    ensures ReadMember(MemberText(v, k) + s) == Got(Member(k, Ordered(Find(v.members, k).value)), s)
    decreases v, 0, 0
  {
    var x := Find(v.members, k).value;
    MemberShape(v, k, s);
    StringReadsBack(true, k, [COLON] + (Canonical(x) + s));
    ValueReadsBack(x, s);
    PairReads(MemberText(v, k) + s, k, Ordered(x), Canonical(x) + s, s);
  }

  lemma {:induction false} MembersReadBack(v: Json, ks: seq<Str>, s: Str)
    requires Fit(v) && ks != [] && KeysIn(v, ks) && Delimited(s)
    ensures ReadMembers(MemberText(v, ks[0]) + MembersRest(v, ks[1..], s)) == Got(OrderedMembers(v, ks), s)
    decreases v, 0, |ks|
  {
    var t, rest := MemberText(v, ks[0]) + MembersRest(v, ks[1..], s), MembersRest(v, ks[1..], s);
    var m := Member(ks[0], Ordered(Find(v.members, ks[0]).value));
    MembersTail(v, ks[1..], s);
    MemberReadsBack(v, ks[0], rest);
    assert OrderedMembers(v, ks) == [m] + OrderedMembers(v, ks[1..]);
    if ks[1..] == [] {
      assert OrderedMembers(v, ks) == [m];
      LastMemberReads(t, m, rest, s);
    } else {
      MembersReadBack(v, ks[1..], s);
      NextMemberReads(t, m, rest, OrderedMembers(v, ks[1..]), s);
    }
  }

  // ---- What is read back --------------------------------------------------------------------------------

  /** Ordering the keys changes no value. */
  lemma {:induction false} OrderedIsEqual(v: Json)
    requires WellFormed(v)
    ensures JsonEqual(v, Ordered(v)) && WellFormed(Ordered(v))
  {
    match v
    case Arr(items) =>
      forall i | 0 <= i < |items| ensures JsonEqual(items[i], Ordered(v).items[i]) && WellFormed(Ordered(v).items[i]) {
        OrderedIsEqual(items[i]);
      }
    case Obj(members) => OrderedObjIsEqual(v);
    case _ => JsonEqualReflexive(v);
  }

  lemma {:induction false} OrderedObjIsEqual(v: Json)
    requires v.Obj? && WellFormed(v)
    ensures JsonEqual(v, Ordered(v)) && WellFormed(Ordered(v))
    decreases v, 0
  {
    var ks, out := SortedKeys(v.members), Ordered(v).members;
    SortedKeysSorted(v.members);
    assert forall i :: 0 <= i < |ks| ==> ks[i] in Elements(ks) && out[i].key == ks[i];
    forall i, j | 0 <= i < j < |out| ensures out[i].key != out[j].key { KeyOrderTotal(ks[i], ks[j]); }
    forall m | m in out ensures m.key in KeySet(v.members) && m.value == Ordered(Find(v.members, m.key).value) {}
    assert KeySet(out) == KeySet(v.members) by {
      forall k | k in KeySet(v.members) ensures k in KeySet(out) {
        assert k in Elements(ks);
        var i :| 0 <= i < |ks| && ks[i] == k;
        assert out[i] in out && out[i].key == k;
      }
    }
    forall k | k in KeySet(v.members)
      ensures JsonEqual(Find(v.members, k).value, Find(out, k).value) && WellFormed(Find(out, k).value)
    {
      OrderedIsEqual(Find(v.members, k).value);
      assert Find(out, k) in out;
    }
    forall m | m in out ensures WellFormed(m.value) {
      FindUnique(out, m);
    }
  }

  /** In every object, at any depth, the keys ascend. */
  ghost predicate InKeyOrder(v: Json) {
    match v
    case Arr(items) => forall i :: 0 <= i < |items| ==> InKeyOrder(items[i])
    case Obj(members) =>
      && (forall i, j :: 0 <= i < j < |members| ==> KeyLess(members[i].key, members[j].key))
      && forall m :: m in members ==> InKeyOrder(m.value)
    case _ => true
  }

  lemma {:induction false} OrderedIsInOrder(v: Json)
    requires WellFormed(v)
    ensures InKeyOrder(Ordered(v))
  {
    match v
    case Arr(items) =>
      forall i | 0 <= i < |items| ensures InKeyOrder(Ordered(v).items[i]) { OrderedIsInOrder(items[i]); }
    case Obj(members) =>
      var ks := SortedKeys(members);
      SortedKeysSorted(members);
      assert forall i :: 0 <= i < |ks| ==> ks[i] in Elements(ks);
      forall m | m in Ordered(v).members ensures InKeyOrder(m.value) {
        OrderedIsInOrder(Find(members, m.key).value);
      }
    case _ =>
  }

  /**
    The round trip: the reader accepts exactly the whole canonical text of a value
    and gives back an equal value whose keys are everywhere in code-point order.
   */
  lemma {:induction false} CanonicalRoundTrip(v: Json) returns (w: Json)
    requires Fit(v)
    ensures ReadValue(Canonical(v)) == Got(w, []) && JsonEqual(v, w) && InKeyOrder(w)
  {
    w := Ordered(v);
    ValueReadsBack(v, []);
    assert Canonical(v) + [] == Canonical(v);
    OrderedIsEqual(v);
    OrderedIsInOrder(v);
  }

  /** The text under which a ledger key is hashed is the JSON array of its kind and its id. */
  lemma LedgerKeyReads(kind: Str, id: Str)
    ensures ReadValue(LedgerKeyText(kind, id)) == Got(Arr([String(kind), String(id)]), [])
  {
    var x, y, t := EncodeString(false, kind), EncodeString(false, id), LedgerKeyText(kind, id);
    KeyTextShape(kind, id);
    StringReadsBack(false, kind, [44] + (y + [93]));
    StringReadsBack(false, id, [93]);
    JoinFour([], 44, y, [93]);
    StringReads(x + ([44] + (y + [93])), kind, [44] + (y + [93]));
    StringReads(y + [93], id, [93]);
    LastItemReads(y + [93], String(id), [93], []);
    ItemReads(x + ([44] + (y + [93])), String(kind), [44] + (y + [93]), [String(id)], []);
    assert [String(kind)] + [String(id)] == [String(kind), String(id)];
    assert t[0] == 91 && t[1] == t[1..][0] == x[0];
    ArrReads(t, [String(kind), String(id)], []);
  }
}

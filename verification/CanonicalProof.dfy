/** Canonical text determines the value, and equal values have equal text. */
module CanonicalProof {
  import opened JsonValues
  import opened CanonicalJson

  ghost predicate Fit(v: Json) { Portable(v) && WellFormed(v) }

  // ---- The first unit tells what kind of value follows ---------------------------------

  datatype Kind = NullKind | TrueKind | FalseKind | IntKind | StringKind | ArrKind | ObjKind | NoKind

  function KindOf(v: Json): Kind {
    match v
    case Null => NullKind
    case Bool(b) => if b then TrueKind else FalseKind
    case Int(_) => IntKind
    case String(_) => StringKind
    case Arr(_) => ArrKind
    case Obj(_) => ObjKind
    case Float(_) => NoKind
  }

  function KindAt(u: Unit): Kind {
    if u == 110 then NullKind
    else if u == 116 then TrueKind
    else if u == 102 then FalseKind
    else if u == MINUS || IsDigitUnit(u) then IntKind
    else if u == QUOTE then StringKind
    else if u == OPEN_BRACKET then ArrKind
    else if u == OPEN_BRACE then ObjKind
    else NoKind
  }

  lemma HeadKind(v: Json, s: Str)
    requires Portable(v)
    ensures Canonical(v) != [] && KindAt((Canonical(v) + s)[0]) == KindOf(v) && KindOf(v) != NoKind
  {
    match v
    case Int(n) => IntHead(n, s);
    case _ =>
  }

  // ---- Reading -------------------------------------------------------------------------

  /** The text between the opening and the closing mark. */
  function ArrBody(v: Json): Str
    requires v.Arr? && Portable(v)
  {
    if v.items == [] then [] else Canonical(v.items[0]) + MoreItems(v, v.items[1..])
  }

  function ObjBody(v: Json): Str
    requires v.Obj? && Portable(v)
  {
    var keys := SortedKeys(v.members);
    assert forall k :: k in keys ==> k in Elements(keys);
    if keys == [] then [] else MemberText(v, keys[0]) + MoreMembers(v, keys[1..])
  }

  // Regrouping, on arbitrary texts.

  lemma Grouped(first: Unit, head: Str, more: Str, close: Unit, s: Str)
    ensures ([first] + head + more + [close] + s)[0] == first
    ensures ([first] + head + more + [close] + s)[1..] == head + (more + [close] + s)
  {
  }

  lemma Regroup(head: Str, more: Str, close: Unit, s: Str)
    ensures (head + more) + [close] + s == head + (more + [close] + s)
  {
  }

  lemma Closed(close: Unit, s: Str)
    ensures ([] + [close] + s)[0] == close
    ensures ([] + [close] + s)[1..] == s
  {
  }

  lemma Opened(open: Unit, body: Str, close: Unit, s: Str)
    ensures ([open] + body + [close] + s)[1..] == body + [close] + s
  {
  }

  lemma SameHead(c: Str, s: Str, t: Str)
    requires c + s == c + t
    ensures s == t
  {
    assert s == (c + s)[|c|..] && t == (c + t)[|c|..];
  }

  lemma ArrText(v: Json)
    requires v.Arr? && Portable(v)
    ensures Canonical(v) == [OPEN_BRACKET] + ArrBody(v) + [CLOSE_BRACKET]
  {
  }

  lemma ObjText(v: Json)
    requires v.Obj? && Portable(v)
    ensures Canonical(v) == [OPEN_BRACE] + ObjBody(v) + [CLOSE_BRACE]
  {
  }

  lemma LeafText(v: Json, w: Json)
    requires Portable(v) && Portable(w) && KindOf(v) == KindOf(w)
    requires v.Null? || v.Bool?
    ensures v == w
  {
  }

  /** Canonical text followed by a delimiter can be read in one way only. */
  lemma {:induction false} ValueReadable(v: Json, w: Json, s: Str, t: Str)
    requires Fit(v) && Fit(w) && Delimited(s) && Delimited(t)
    requires Canonical(v) + s == Canonical(w) + t
    ensures JsonEqual(v, w) && s == t
    decreases v, 2
  {
    HeadKind(v, s);
    HeadKind(w, t);
    if v.Int? {
      IntReadable(v.n, w.n, s, t);
    } else if v.String? {
      StringReadable(true, v.s, w.s, s, t);
    } else if v.Arr? {
      ArrText(v);
      ArrText(w);
      Opened(OPEN_BRACKET, ArrBody(v), CLOSE_BRACKET, s);
      Opened(OPEN_BRACKET, ArrBody(w), CLOSE_BRACKET, t);
      ArrReadable(v, w, s, t);
    } else if v.Obj? {
      ObjText(v);
      ObjText(w);
      Opened(OPEN_BRACE, ObjBody(v), CLOSE_BRACE, s);
      Opened(OPEN_BRACE, ObjBody(w), CLOSE_BRACE, t);
      ObjReadable(v, w, s, t);
    } else {
      LeafText(v, w);
      SameHead(Canonical(v), s, t);
    }
  }

  /** What follows the items `items` of an array: the remaining ones and the rest of the text. */
  function ItemsRest(v: Json, items: seq<Json>, s: Str): Str
    requires forall i :: 0 <= i < |items| ==> items[i] < v && Portable(items[i])
  {
    MoreItems(v, items) + [CLOSE_BRACKET] + s
  }

  lemma ItemsTail(v: Json, items: seq<Json>, s: Str)
    requires forall i :: 0 <= i < |items| ==> items[i] < v && Portable(items[i])
    ensures ItemsRest(v, items, s) != [] && Delimited(ItemsRest(v, items, s))
    ensures ItemsRest(v, items, s)[0] == if items == [] then CLOSE_BRACKET else COMMA
    ensures items == [] ==> ItemsRest(v, items, s)[1..] == s
    ensures items != [] ==> (ItemsRest(v, items, s)[1..] == Canonical(items[0]) + ItemsRest(v, items[1..], s))
  {
    if items == [] {
      Closed(CLOSE_BRACKET, s);
    } else {
      Grouped(COMMA, Canonical(items[0]), MoreItems(v, items[1..]), CLOSE_BRACKET, s);
    }
  }

  lemma ArrHead(v: Json, s: Str)
    requires v.Arr? && Portable(v)
    ensures (ArrBody(v) + [CLOSE_BRACKET] + s)[0] == CLOSE_BRACKET <==> v.items == []
    ensures v.items == [] ==> (ArrBody(v) + [CLOSE_BRACKET] + s)[1..] == s
    ensures v.items != [] ==>
      (ArrBody(v) + [CLOSE_BRACKET] + s == Canonical(v.items[0]) + ItemsRest(v, v.items[1..], s))
  {
    if v.items == [] {
      Closed(CLOSE_BRACKET, s);
    } else {
      Regroup(Canonical(v.items[0]), MoreItems(v, v.items[1..]), CLOSE_BRACKET, s);
      HeadKind(v.items[0], ItemsRest(v, v.items[1..], s));
    }
  }

  lemma {:induction false} ArrReadable(v: Json, w: Json, s: Str, t: Str)
    requires v.Arr? && w.Arr? && Fit(v) && Fit(w) && Delimited(s) && Delimited(t)
    requires ArrBody(v) + [CLOSE_BRACKET] + s == ArrBody(w) + [CLOSE_BRACKET] + t
    ensures JsonEqual(v, w) && s == t
    decreases v, 1
  {
    ArrHead(v, s);
    ArrHead(w, t);
    if v.items != [] {
      var a, b := v.items, w.items;
      ItemsTail(v, a[1..], s);
      ItemsTail(w, b[1..], t);
      ValueReadable(a[0], b[0], ItemsRest(v, a[1..], s), ItemsRest(w, b[1..], t));
      ItemsReadable(v, a[1..], w, b[1..], s, t);
      ItemsEqual(a, b);
    }
  }

  lemma ItemsEqual(a: seq<Json>, b: seq<Json>)
    requires |a| == |b| && a != [] && JsonEqual(a[0], b[0])
    requires forall i :: 0 <= i < |a[1..]| ==> JsonEqual(a[1..][i], b[1..][i])
    ensures forall i :: 0 <= i < |a| ==> JsonEqual(a[i], b[i])
    ensures JsonEqual(Arr(a), Arr(b))
  {
    forall i | 0 <= i < |a| ensures JsonEqual(a[i], b[i]) {
      if i > 0 { assert a[1..][i - 1] == a[i] && b[1..][i - 1] == b[i]; }
    }
  }

  lemma {:induction false} ItemsReadable(v: Json, a: seq<Json>, w: Json, b: seq<Json>, s: Str, t: Str)
    requires forall i :: 0 <= i < |a| ==> a[i] < v && Portable(a[i]) && Fit(a[i])
    requires forall i :: 0 <= i < |b| ==> b[i] < w && Portable(b[i]) && Fit(b[i])
    requires Delimited(s) && Delimited(t)
    requires ItemsRest(v, a, s) == ItemsRest(w, b, t)
    ensures |a| == |b| && (forall i :: 0 <= i < |a| ==> JsonEqual(a[i], b[i])) && s == t
    decreases v, 0, |a|
  {
    ItemsTail(v, a, s);
    ItemsTail(w, b, t);
    if a != [] {
      ItemsTail(v, a[1..], s);
      ItemsTail(w, b[1..], t);
      ValueReadable(a[0], b[0], ItemsRest(v, a[1..], s), ItemsRest(w, b[1..], t));
      ItemsReadable(v, a[1..], w, b[1..], s, t);
      ItemsEqual(a, b);
    }
  }

  ghost predicate KeysIn(v: Json, ks: seq<Str>) {
    v.Obj? && forall k :: k in ks ==> k in KeySet(v.members)
  }

  ghost function MembersRest(v: Json, ks: seq<Str>, s: Str): Str
    requires Fit(v) && KeysIn(v, ks)
  {
    MoreMembers(v, ks) + [CLOSE_BRACE] + s
  }

  lemma MembersTail(v: Json, ks: seq<Str>, s: Str)
    requires Fit(v) && KeysIn(v, ks)
    ensures MembersRest(v, ks, s) != [] && Delimited(MembersRest(v, ks, s))
    ensures MembersRest(v, ks, s)[0] == if ks == [] then CLOSE_BRACE else COMMA
    ensures ks == [] ==> MembersRest(v, ks, s)[1..] == s
    ensures ks != [] ==> (MembersRest(v, ks, s)[1..] == MemberText(v, ks[0]) + MembersRest(v, ks[1..], s))
  {
    if ks == [] {
      Closed(CLOSE_BRACE, s);
    } else {
      Grouped(COMMA, MemberText(v, ks[0]), MoreMembers(v, ks[1..]), CLOSE_BRACE, s);
    }
  }

  lemma QuoteFirst(ascii: bool, key: Str, s: Str, t: Str)
    ensures (EncodeString(ascii, key) + s + t)[0] == QUOTE
    ensures EncodeString(ascii, key) + s + t == EncodeString(ascii, key) + (s + t)
  {
  }

  lemma ObjHead(v: Json, s: Str)
    requires v.Obj? && Fit(v)
    ensures var ks := SortedKeys(v.members);
      && KeysIn(v, ks)
      && ((ObjBody(v) + [CLOSE_BRACE] + s)[0] == CLOSE_BRACE <==> ks == [])
      && (ks == [] ==> (ObjBody(v) + [CLOSE_BRACE] + s)[1..] == s)
      && (ks != [] ==> ObjBody(v) + [CLOSE_BRACE] + s == MemberText(v, ks[0]) + MembersRest(v, ks[1..], s))
  {
    var ks := SortedKeys(v.members);
    assert forall k :: k in ks ==> k in Elements(ks);
    if ks == [] {
      Closed(CLOSE_BRACE, s);
    } else {
      var value := Canonical(Find(v.members, ks[0]).value);
      Regroup(MemberText(v, ks[0]), MoreMembers(v, ks[1..]), CLOSE_BRACE, s);
      MemberShape(v, ks[0], MembersRest(v, ks[1..], s));
    }
  }

  lemma MemberShape(v: Json, k: Str, s: Str)
    requires Fit(v) && KeysIn(v, [k])
    ensures k in KeySet(v.members)
    ensures (MemberText(v, k) + s)[0] == QUOTE
    ensures MemberText(v, k) + s == EncodeString(true, k) + ([COLON] + (Canonical(Find(v.members, k).value) + s))
  {
    assert k in [k];
    JoinFour(EncodeString(true, k), COLON, Canonical(Find(v.members, k).value), s);
    QuoteFirst(true, k, [COLON] + Canonical(Find(v.members, k).value), s);
  }

  lemma JoinFour(a: Str, colon: Unit, b: Str, s: Str)
    ensures a + [colon] + b + s == a + ([colon] + (b + s))
    ensures a + [colon] + b + s == a + ([colon] + b) + s
    ensures ([colon] + (b + s))[1..] == b + s
  {
  }

  lemma {:induction false} MemberReadable(v: Json, k: Str, w: Json, l: Str, s: Str, t: Str)
    requires Fit(v) && Fit(w) && KeysIn(v, [k]) && KeysIn(w, [l]) && Delimited(s) && Delimited(t)
    requires k in KeySet(v.members) && l in KeySet(w.members)
    requires MemberText(v, k) + s == MemberText(w, l) + t
    ensures k == l && JsonEqual(Find(v.members, k).value, Find(w.members, k).value) && s == t
    decreases v, 0, 0
  {
    var x, y := Find(v.members, k).value, Find(w.members, l).value;
    MemberShape(v, k, s);
    MemberShape(w, l, t);
    StringReadable(true, k, l, [COLON] + (Canonical(x) + s), [COLON] + (Canonical(y) + t));
    JoinFour([], COLON, Canonical(x), s);
    JoinFour([], COLON, Canonical(y), t);
    ValueReadable(x, y, s, t);
  }

  lemma {:induction false} ObjReadable(v: Json, w: Json, s: Str, t: Str)
    requires v.Obj? && w.Obj? && Fit(v) && Fit(w) && Delimited(s) && Delimited(t)
    requires ObjBody(v) + [CLOSE_BRACE] + s == ObjBody(w) + [CLOSE_BRACE] + t
    ensures JsonEqual(v, w) && s == t
    decreases v, 1
  {
    var ks, ls := SortedKeys(v.members), SortedKeys(w.members);
    ObjHead(v, s);
    ObjHead(w, t);
    if ks != [] {
      MembersTail(v, ks[1..], s);
      MembersTail(w, ls[1..], t);
      MemberReadable(v, ks[0], w, ls[0], MembersRest(v, ks[1..], s), MembersRest(w, ls[1..], t));
      MembersReadable(v, ks[1..], w, ls[1..], s, t);
      assert ks == [ks[0]] + ks[1..] && ls == [ls[0]] + ls[1..];
    }
    assert KeySet(v.members) == Elements(ks) == Elements(ls) == KeySet(w.members);
    forall k | k in KeySet(v.members) ensures JsonEqual(Find(v.members, k).value, Find(w.members, k).value) {
      assert k in ks;
    }
  }

  lemma {:induction false} MembersReadable(v: Json, ks: seq<Str>, w: Json, ls: seq<Str>, s: Str, t: Str)
    requires Fit(v) && Fit(w) && KeysIn(v, ks) && KeysIn(w, ls) && Delimited(s) && Delimited(t)
    requires MembersRest(v, ks, s) == MembersRest(w, ls, t)
    ensures ks == ls && s == t
    ensures forall k :: k in ks ==> JsonEqual(Find(v.members, k).value, Find(w.members, k).value)
    decreases v, 0, |ks|
  {
    MembersTail(v, ks, s);
    MembersTail(w, ls, t);
    if ks != [] {
      MembersTail(v, ks[1..], s);
      MembersTail(w, ls[1..], t);
      MemberReadable(v, ks[0], w, ls[0], MembersRest(v, ks[1..], s), MembersRest(w, ls[1..], t));
      MembersReadable(v, ks[1..], w, ls[1..], s, t);
      assert ks == [ks[0]] + ks[1..] && ls == [ls[0]] + ls[1..];
    }
  }

  // ---- Writing ---------------------------------------------------------------------------

  lemma {:induction false} EqualValuesSameText(v: Json, w: Json)
    requires Fit(v) && Fit(w) && JsonEqual(v, w)
    ensures Canonical(v) == Canonical(w)
    decreases v, 1
  {
    match v
    case Arr(a) =>
      if a != [] {
        EqualValuesSameText(a[0], w.items[0]);
        ItemsSameText(v, a[1..], w, w.items[1..]);
      }
    case Obj(a) =>
      var ks := SortedKeys(a);
      SortedKeysSorted(a);
      SortedKeysSorted(w.members);
      SortedUnique(ks, SortedKeys(w.members));
      assert forall k :: k in ks ==> k in Elements(ks);
      if ks != [] {
        EqualValuesSameText(Find(a, ks[0]).value, Find(w.members, ks[0]).value);
        MembersSameText(v, w, ks[1..]);
      }
    case _ =>
  }

  lemma {:induction false} ItemsSameText(v: Json, a: seq<Json>, w: Json, b: seq<Json>)
    requires |a| == |b| && forall i :: 0 <= i < |a| ==> 
      a[i] < v && b[i] < w && Portable(a[i]) && Portable(b[i]) && Fit(a[i]) && Fit(b[i]) && JsonEqual(a[i], b[i])
    ensures MoreItems(v, a) == MoreItems(w, b)
    decreases v, 0, |a|
  {
    if a != [] {
      EqualValuesSameText(a[0], b[0]);
      ItemsSameText(v, a[1..], w, b[1..]);
    }
  }

  lemma {:induction false} MembersSameText(v: Json, w: Json, ks: seq<Str>)
    requires Fit(v) && Fit(w) && v.Obj? && w.Obj? && JsonEqual(v, w) && KeysIn(v, ks)
    ensures KeysIn(w, ks) && MoreMembers(v, ks) == MoreMembers(w, ks)
    decreases v, 0, |ks|
  {
    if ks != [] {
      EqualValuesSameText(Find(v.members, ks[0]).value, Find(w.members, ks[0]).value);
      MembersSameText(v, w, ks[1..]);
    }
  }

  /**
    The canonical text is injective up to JSON equality: two values have the
    same text if and only if they are equal, whatever the order of their keys.
   */
  lemma CanonicalInjective(v: Json, w: Json)
    requires Fit(v) && Fit(w)
    ensures Canonical(v) == Canonical(w) <==> JsonEqual(v, w)
  {
    if Canonical(v) == Canonical(w) {
      assert Canonical(v) + [] == Canonical(w) + [];
      ValueReadable(v, w, [], []);
    }
    if JsonEqual(v, w) {
      EqualValuesSameText(v, w);
    }
  }

  // ---- Ledger keys ------------------------------------------------------------------------

  /** json.dumps([kind, id], ensure_ascii=False): the text under which a ledger key is hashed. */
  function LedgerKeyText(kind: Str, id: Str): Str {
    [OPEN_BRACKET] + EncodeString(false, kind) + [COMMA] + EncodeString(false, id) + [CLOSE_BRACKET]
  }

  lemma KeyTextShape(kind: Str, id: Str)
    ensures LedgerKeyText(kind, id)[1..]
         == EncodeString(false, kind) + ([COMMA] + (EncodeString(false, id) + [CLOSE_BRACKET]))
  {
    PairShape(EncodeString(false, kind), EncodeString(false, id));
  }

  lemma PairShape(a: Str, b: Str)
    ensures ([OPEN_BRACKET] + a + [COMMA] + b + [CLOSE_BRACKET])[1..] == a + ([COMMA] + (b + [CLOSE_BRACKET]))
  {
  }

  /** Token and budget keys never alias, and neither do two tokens or two budgets. */
  lemma LedgerKeysDistinct(kind: Str, id: Str, kind': Str, id': Str)
    ensures LedgerKeyText(kind, id) == LedgerKeyText(kind', id') <==> kind == kind' && id == id'
  {
    if LedgerKeyText(kind, id) == LedgerKeyText(kind', id') {
      var x, y := EncodeString(false, id), EncodeString(false, id');
      KeyTextShape(kind, id);
      KeyTextShape(kind', id');
      StringReadable(false, kind, kind', [COMMA] + (x + [CLOSE_BRACKET]), [COMMA] + (y + [CLOSE_BRACKET]));
      JoinFour([], COMMA, x, [CLOSE_BRACKET]);
      JoinFour([], COMMA, y, [CLOSE_BRACKET]);
      StringReadable(false, id, id', [CLOSE_BRACKET], [CLOSE_BRACKET]);
    }
  }
}

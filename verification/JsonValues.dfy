/**
  JSON data as the claims carry it, and the structural equality that pins are
  compared with.

  A string is its sequence of UTF-16 code units, the form in which JavaScript
  holds it. An object lists its members in insertion order.
 */
module JsonValues {

  type Unit = u: int | 0 <= u < 0x10000

  type Str = seq<Unit>

  const COLON: Unit := 58

  // The largest integer that every SDK represents exactly.
  const MAX_SAFE: int := 0x1F_FFFF_FFFF_FFFF

  /** The code units of an ASCII literal. */
  function Ascii(text: string): (units: Str)
    requires forall i :: 0 <= i < |text| ==> text[i] < 128 as char
  {
    seq(|text|, i requires 0 <= i < |text| => text[i] as int)
  }

  datatype Json =
    | Null
    | Bool(b: bool)
    | Int(n: int)
    | Float(r: real)
    | String(s: Str)
    | Arr(items: seq<Json>)
    | Obj(members: seq<Member>)

  datatype Member = Member(key: Str, value: Json)

  function KeySet(members: seq<Member>): set<Str> {
    set m | m in members :: m.key
  }

  ghost predicate DistinctKeys(members: seq<Member>) {
    forall i, j :: 0 <= i < j < |members| ==> members[i].key != members[j].key
  }

  /** The member with this key: a dictionary lookup. */
  function Find(members: seq<Member>, key: Str): (m: Member)
    requires key in KeySet(members)
    ensures m in members && m.key == key
  {
    if members[0].key == key then members[0] else
      assert key in KeySet(members[1..]) by {
        var m :| m in members && m.key == key;
        assert m in members[1..];
      }
      Find(members[1..], key)
  }

  lemma {:induction false} FindUnique(members: seq<Member>, m: Member)
    requires DistinctKeys(members) && m in members
    ensures m.key in KeySet(members) && Find(members, m.key) == m
  {
    if members[0] != m {
      var rest := members[1..];
      assert m in rest;
      assert forall i :: 0 <= i < |rest| ==> rest[i] == members[i + 1];
      FindUnique(rest, m);
    }
  }

  /** Every object inside the value has distinct keys, as any parsed JSON object has. */
  ghost predicate WellFormed(v: Json) {
    match v
    case Arr(items) => forall i :: 0 <= i < |items| ==> WellFormed(items[i])
    case Obj(members) => DistinctKeys(members) && forall m :: m in members ==> WellFormed(m.value)
    case _ => true
  }

  /** Python's json_value_equal: numbers compare by value, booleans never equal numbers. */
  predicate JsonEqual(left: Json, right: Json)
  {
    match (left, right)
    case (Bool(a), Bool(b)) => a == b
    case (Obj(a), Obj(b)) =>
      KeySet(a) == KeySet(b) &&
      forall k :: k in KeySet(a) ==> JsonEqual(Find(a, k).value, Find(b, k).value)
    case (Arr(a), Arr(b)) =>
      |a| == |b| && forall i :: 0 <= i < |a| ==> JsonEqual(a[i], b[i])
    case (Int(a), Int(b)) => a == b
    case (Int(a), Float(b)) => a as real == b
    case (Float(a), Int(b)) => a == b as real
    case (Float(a), Float(b)) => a == b
    case (String(a), String(b)) => a == b
    case (Null, Null) => true
    case _ => false
  }

  lemma {:induction false} JsonEqualReflexive(v: Json)
    ensures JsonEqual(v, v)
  {
    match v
    case Arr(items) =>
      forall i | 0 <= i < |items| ensures JsonEqual(items[i], items[i]) {
        JsonEqualReflexive(items[i]);
      }
    case Obj(members) =>
      forall k | k in KeySet(members) ensures JsonEqual(Find(members, k).value, Find(members, k).value) {
        JsonEqualReflexive(Find(members, k).value);
      }
    case _ =>
  }

  lemma {:induction false} JsonEqualSymmetric(a: Json, b: Json)
    requires JsonEqual(a, b)
    ensures JsonEqual(b, a)
  {
    match (a, b)
    case (Arr(xs), Arr(ys)) =>
      forall i | 0 <= i < |ys| ensures JsonEqual(ys[i], xs[i]) {
        JsonEqualSymmetric(xs[i], ys[i]);
      }
    case (Obj(xs), Obj(ys)) =>
      forall k | k in KeySet(ys) ensures JsonEqual(Find(ys, k).value, Find(xs, k).value) {
        JsonEqualSymmetric(Find(xs, k).value, Find(ys, k).value);
      }
    case _ =>
  }

  lemma {:induction false} JsonEqualTransitive(a: Json, b: Json, c: Json)
    requires JsonEqual(a, b) && JsonEqual(b, c)
    ensures JsonEqual(a, c)
  {
    match (a, b, c)
    case (Arr(xs), Arr(ys), Arr(zs)) =>
      forall i | 0 <= i < |xs| ensures JsonEqual(xs[i], zs[i]) {
        JsonEqualTransitive(xs[i], ys[i], zs[i]);
      }
    case (Obj(xs), Obj(ys), Obj(zs)) =>
      forall k | k in KeySet(xs) ensures JsonEqual(Find(xs, k).value, Find(zs, k).value) {
        JsonEqualTransitive(Find(xs, k).value, Find(ys, k).value, Find(zs, k).value);
      }
    case _ =>
  }

  // ---- The Node comparison -----------------------------------------------------

  /** Node's jsonEqual: as many keys on both sides, and every left key on the right with an equal value. */
  predicate NodeJsonEqual(left: Json, right: Json) {
    match (left, right)
    case (Bool(a), Bool(b)) => a == b
    case (Obj(a), Obj(b)) =>
      |a| == |b| &&
      forall m :: m in a ==> m.key in KeySet(b) && NodeJsonEqual(m.value, Find(b, m.key).value)
    case (Arr(a), Arr(b)) =>
      |a| == |b| && forall i :: 0 <= i < |a| ==> NodeJsonEqual(a[i], b[i])
    case (Int(a), Int(b)) => a == b
    case (Int(a), Float(b)) => a as real == b
    case (Float(a), Int(b)) => a == b as real
    case (Float(a), Float(b)) => a == b
    case (String(a), String(b)) => a == b
    case (Null, Null) => true
    case _ => false
  }

  lemma {:induction false} KeyCount(members: seq<Member>)
    requires DistinctKeys(members)
    ensures |KeySet(members)| == |members|
  {
    if members != [] {
      var n := |members| - 1;
      var front, last := members[..n], members[n].key;
      KeyCount(front);
      assert members == front + [members[n]];
      assert KeySet(members) == KeySet(front) + {last};
      assert last !in KeySet(front) by {
        forall m | m in front ensures m.key != last {
          var i :| 0 <= i < n && front[i] == m;
        }
      }
    }
  }

  lemma SameSizeSubset(a: set<Str>, b: set<Str>)
    requires a <= b && |a| == |b|
    ensures a == b
  {
    assert |b - a| == |b| - |a|;
    assert b == a + (b - a);
  }

  /** Counting keys decides the same as comparing key sets, so both SDKs agree on equality. */
  lemma {:induction false} NodeJsonEqualAgrees(left: Json, right: Json)
    requires WellFormed(left) && WellFormed(right)
    ensures NodeJsonEqual(left, right) <==> JsonEqual(left, right)
  {
    match (left, right)
    case (Arr(a), Arr(b)) =>
      forall i | 0 <= i < |a| && i < |b| ensures NodeJsonEqual(a[i], b[i]) <==> JsonEqual(a[i], b[i]) {
        NodeJsonEqualAgrees(a[i], b[i]);
      }
    case (Obj(a), Obj(b)) =>
      KeyCount(a);
      KeyCount(b);
      forall m | m in a && m.key in KeySet(b)
        ensures Find(a, m.key) == m
        ensures NodeJsonEqual(m.value, Find(b, m.key).value) <==> JsonEqual(m.value, Find(b, m.key).value)
      {
        FindUnique(a, m);
        NodeJsonEqualAgrees(m.value, Find(b, m.key).value);
      }
      if |a| == |b| && KeySet(a) <= KeySet(b) { SameSizeSubset(KeySet(a), KeySet(b)); }
    case _ =>
  }
}

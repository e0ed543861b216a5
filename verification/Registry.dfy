/**
  Which keys a verifier trusts: root keys that may sign fresh grants, and
  holder keys that may only sign a narrowed child. The tables are related to
  the history of operations that built them.
 */
module Registry {
  import opened Wrappers
  import opened JsonValues
  import opened TokenClaims

  type KeyTable = map<Str, seq<PublicKey>>

  datatype Tables = Tables(keys: KeyTable, holders: KeyTable)

  datatype Operation =
    | Register(iss: Str, key: PublicKey, rotate: bool)
    | Revoke(iss: Str, key: PublicKey)
    | RevokeIssuer(iss: Str)
    | RegisterHolder(iss: Str, key: PublicKey)
    | RevokeHolder(iss: Str, key: PublicKey)

  function ListFor(table: KeyTable, iss: Str): seq<PublicKey> {
    if iss in table then table[iss] else []
  }

  /** The keys other than `key`, in order. */
  function Without(ks: seq<PublicKey>, key: PublicKey): (rest: seq<PublicKey>)
    ensures forall k :: k in rest <==> k in ks && k != key
    ensures NoDuplicates(ks) ==> NoDuplicates(rest)
  {
    if ks == [] then []
    else
      var rest := Without(ks[1..], key);
      assert ks == [ks[0]] + ks[1..];
      assert NoDuplicates(ks) ==> NoDuplicates(ks[1..]) && ks[0] !in ks[1..];
      if ks[0] == key then rest else [ks[0]] + rest
  }

  ghost predicate NoDuplicates(ks: seq<PublicKey>) {
    forall i, j :: 0 <= i < j < |ks| ==> ks[i] != ks[j]
  }

  function Put(table: KeyTable, iss: Str, ks: seq<PublicKey>): KeyTable {
    if ks == [] then table - {iss} else table[iss := ks]
  }

  function Apply(t: Tables, op: Operation): Tables {
    match op
    case Register(iss, key, rotate) =>
      t.(keys := t.keys[iss := if rotate && iss in t.keys then [key] + Without(t.keys[iss], key) else [key]])
    case Revoke(iss, key) => t.(keys := Put(t.keys, iss, Without(ListFor(t.keys, iss), key)))
    case RevokeIssuer(iss) => Tables(t.keys - {iss}, t.holders - {iss})
    case RegisterHolder(iss, key) =>
      t.(holders := t.holders[iss := [key] + Without(ListFor(t.holders, iss), key)])
    case RevokeHolder(iss, key) => t.(holders := Put(t.holders, iss, Without(ListFor(t.holders, iss), key)))
  }

  function TablesAfter(ops: seq<Operation>): Tables {
    if ops == [] then Tables(map[], map[]) else Apply(TablesAfter(ops[..|ops| - 1]), ops[|ops| - 1])
  }

  // ---- What the history says ------------------------------------------------------

  /** The operation ends the trust of `key` as a root for `iss`. */
  predicate EndsRoot(op: Operation, iss: Str, key: PublicKey) {
    || (op.Register? && op.iss == iss && op.key != key && !op.rotate)
    || op == Revoke(iss, key)
    || op == RevokeIssuer(iss)
  }

  predicate EndsHolder(op: Operation, iss: Str, key: PublicKey) {
    op == RevokeHolder(iss, key) || op == RevokeIssuer(iss)
  }

  predicate StartsRoot(op: Operation, iss: Str, key: PublicKey) {
    op.Register? && op.iss == iss && op.key == key
  }

  ghost predicate RootFrom(ops: seq<Operation>, i: nat, iss: Str, key: PublicKey)
    requires i < |ops|
  {
    StartsRoot(ops[i], iss, key) && forall j :: i < j < |ops| ==> !EndsRoot(ops[j], iss, key)
  }

  /** The key was registered for the issuer and neither replaced nor revoked since. */
  ghost predicate RootInHistory(ops: seq<Operation>, iss: Str, key: PublicKey) {
    exists i: nat :: i < |ops| && RootFrom(ops, i, iss, key)
  }

  ghost predicate HolderFrom(ops: seq<Operation>, i: nat, iss: Str, key: PublicKey)
    requires i < |ops|
  {
    ops[i] == RegisterHolder(iss, key) && forall j :: i < j < |ops| ==> !EndsHolder(ops[j], iss, key)
  }

  ghost predicate HolderInHistory(ops: seq<Operation>, iss: Str, key: PublicKey) {
    exists i: nat :: i < |ops| && HolderFrom(ops, i, iss, key)
  }

  // ---- The tables are the history ---------------------------------------------------

  lemma RootStep(t: Tables, op: Operation, iss: Str, key: PublicKey)
    ensures key in ListFor(Apply(t, op).keys, iss)
       <==> StartsRoot(op, iss, key) || (key in ListFor(t.keys, iss) && !EndsRoot(op, iss, key))
  {
  }

  lemma HolderStep(t: Tables, op: Operation, iss: Str, key: PublicKey)
    ensures key in ListFor(Apply(t, op).holders, iss)
       <==> op == RegisterHolder(iss, key) || (key in ListFor(t.holders, iss) && !EndsHolder(op, iss, key))
  {
  }

  lemma RootHistoryStep(ops: seq<Operation>, iss: Str, key: PublicKey)
    requires ops != []
    ensures var n := |ops| - 1;
      RootInHistory(ops, iss, key)
      <==> StartsRoot(ops[n], iss, key) || (RootInHistory(ops[..n], iss, key) && !EndsRoot(ops[n], iss, key))
  {
    var n := |ops| - 1;
    if StartsRoot(ops[n], iss, key) {
      assert RootFrom(ops, n, iss, key);
    } else if RootInHistory(ops, iss, key) {
      var i: nat :| i < |ops| && RootFrom(ops, i, iss, key);
      assert RootFrom(ops[..n], i, iss, key);
    } else if RootInHistory(ops[..n], iss, key) && !EndsRoot(ops[n], iss, key) {
      var i: nat :| i < n && RootFrom(ops[..n], i, iss, key);
      forall j | i < j < |ops| ensures !EndsRoot(ops[j], iss, key) {
        if j < n { assert ops[..n][j] == ops[j]; }
      }
      assert RootFrom(ops, i, iss, key);
    }
  }

  lemma HolderHistoryStep(ops: seq<Operation>, iss: Str, key: PublicKey)
    requires ops != []
    ensures var n := |ops| - 1;
      HolderInHistory(ops, iss, key)
      <==> ops[n] == RegisterHolder(iss, key) || (HolderInHistory(ops[..n], iss, key) && !EndsHolder(ops[n], iss, key))
  {
    var n := |ops| - 1;
    if ops[n] == RegisterHolder(iss, key) {
      assert HolderFrom(ops, n, iss, key);
    } else if HolderInHistory(ops, iss, key) {
      var i: nat :| i < |ops| && HolderFrom(ops, i, iss, key);
      assert HolderFrom(ops[..n], i, iss, key);
    } else if HolderInHistory(ops[..n], iss, key) && !EndsHolder(ops[n], iss, key) {
      var i: nat :| i < n && HolderFrom(ops[..n], i, iss, key);
      forall j | i < j < |ops| ensures !EndsHolder(ops[j], iss, key) {
        if j < n { assert ops[..n][j] == ops[j]; }
      }
      assert HolderFrom(ops, i, iss, key);
    }
  }

  /** A key is in the root table exactly when the history trusts it as a root. */
  lemma {:induction false} RootsAreHistory(ops: seq<Operation>, iss: Str, key: PublicKey)
    ensures key in ListFor(TablesAfter(ops).keys, iss) <==> RootInHistory(ops, iss, key)
  {
    if ops != [] {
      var n := |ops| - 1;
      RootsAreHistory(ops[..n], iss, key);
      RootStep(TablesAfter(ops[..n]), ops[n], iss, key);
      RootHistoryStep(ops, iss, key);
    }
  }

  lemma {:induction false} HoldersAreHistory(ops: seq<Operation>, iss: Str, key: PublicKey)
    ensures key in ListFor(TablesAfter(ops).holders, iss) <==> HolderInHistory(ops, iss, key)
  {
    if ops != [] {
      var n := |ops| - 1;
      HoldersAreHistory(ops[..n], iss, key);
      HolderStep(TablesAfter(ops[..n]), ops[n], iss, key);
      HolderHistoryStep(ops, iss, key);
    }
  }

  /** Listed keys are never empty lists and never repeat a key. */
  ghost predicate CleanTable(table: KeyTable) {
    forall iss :: iss in table ==> table[iss] != [] && NoDuplicates(table[iss])
  }

  lemma FrontIsClean(ks: seq<PublicKey>, key: PublicKey)
    requires NoDuplicates(ks)
    ensures NoDuplicates([key] + Without(ks, key)) && NoDuplicates(Without(ks, key))
  {
    assert key !in Without(ks, key);
  }

  lemma {:induction false} TablesStayClean(ops: seq<Operation>)
    ensures CleanTable(TablesAfter(ops).keys) && CleanTable(TablesAfter(ops).holders)
  {
    if ops != [] {
      var t, op := TablesAfter(ops[..|ops| - 1]), ops[|ops| - 1];
      TablesStayClean(ops[..|ops| - 1]);
      if !op.RevokeIssuer? {
        FrontIsClean(ListFor(t.keys, op.iss), op.key);
        FrontIsClean(ListFor(t.holders, op.iss), op.key);
      }
    }
  }

  // ---- The registry object -------------------------------------------------------------

  datatype LookupError = UnknownIssuer

  class KeyRegistry {
    var keys: KeyTable
    var holders: KeyTable

    function View(): Tables
      reads this
    {
      Tables(keys, holders)
    }

    constructor ()
      ensures View() == TablesAfter([])
    {
      keys, holders := map[], map[];
    }

    method Register(iss: Str, publicKey: PublicKey, rotate: bool)
      modifies this
      ensures View() == Apply(old(View()), Operation.Register(iss, publicKey, rotate))
    {
      if rotate && iss in keys {
        var existing := Without(keys[iss], publicKey);
        keys := keys[iss := [publicKey] + existing];
      } else {
        keys := keys[iss := [publicKey]];
      }
    }

    method Revoke(iss: Str, publicKey: PublicKey)
      modifies this
      ensures View() == Apply(old(View()), Operation.Revoke(iss, publicKey))
    {
      var remaining := Without(if iss in keys then keys[iss] else [], publicKey);
      if remaining != [] {
        keys := keys[iss := remaining];
      } else {
        keys := keys - {iss};
      }
    }

    method RevokeIssuer(iss: Str)
      modifies this
      ensures View() == Apply(old(View()), Operation.RevokeIssuer(iss))
    {
      keys := keys - {iss};
      holders := holders - {iss};
    }

    method RegisterHolder(iss: Str, publicKey: PublicKey)
      modifies this
      ensures View() == Apply(old(View()), Operation.RegisterHolder(iss, publicKey))
    {
      var existing := Without(if iss in holders then holders[iss] else [], publicKey);
      holders := holders[iss := [publicKey] + existing];
    }

    method RevokeHolder(iss: Str, publicKey: PublicKey)
      modifies this
      ensures View() == Apply(old(View()), Operation.RevokeHolder(iss, publicKey))
    {
      var remaining := Without(if iss in holders then holders[iss] else [], publicKey);
      if remaining != [] {
        holders := holders[iss := remaining];
      } else {
        holders := holders - {iss};
      }
    }

    /** The root keys of the issuer, newest first; an unknown issuer is an error of its own. */
    method KeysFor(iss: Str) returns (found: Result<seq<PublicKey>, LookupError>)
      ensures found.Ok? <==> ListFor(keys, iss) != []
      ensures found.Ok? ==> found.value == ListFor(keys, iss)
    {
      if iss !in keys || keys[iss] == [] { return Err(UnknownIssuer); }
      return Ok(keys[iss]);
    }

    method HolderKeysFor(iss: Str) returns (found: Result<seq<PublicKey>, LookupError>)
      ensures found.Ok? <==> ListFor(holders, iss) != []
      ensures found.Ok? ==> found.value == ListFor(holders, iss)
    {
      if iss !in holders || holders[iss] == [] { return Err(UnknownIssuer); }
      return Ok(holders[iss]);
    }
  }
}

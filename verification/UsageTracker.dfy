/** The in-memory tracker of per-token usage: one mutable usage object per token id. */
module UsageTracker {
  import opened JsonValues
  import opened TokenClaims
  import opened Decimals
  import opened Maps
  import opened Ledger
  import opened MemoryTrackers

  class TokenUsage {
    var callCount: nat
    var spentAmount: Dec
    var callTimestamps: seq<real>
    var expiresAt: int

    constructor ()
      ensures View() == NoUsage
    {
      callCount, spentAmount, callTimestamps, expiresAt := 0, Zero, [], 0;
    }

    function View(): Usage
      reads this
    {
      Usage(callCount, spentAmount, callTimestamps, expiresAt)
    }

    /** One more call, with the stamps that are still in the window. */
    method Charge(c: Claims, recent: seq<real>, now: real, amount: Dec)
      requires recent == Recent(callTimestamps, now - 60.0)
      modifies this
      ensures View() == UsageNext(c, old(View()), now, amount)
    {
      callCount := callCount + 1;
      spentAmount := Add(spentAmount, amount);
      callTimestamps := recent + [now];
      expiresAt := if expiresAt >= ExpiryOf(c) then expiresAt else ExpiryOf(c);
    }
  }

  lemma AllowsExtends(view: UsageView, chain: seq<Claims>, i: nat, now: real, amount: Dec)
    requires i < |chain| && UsageAllowsAll(view, chain[..i], now, amount)
    requires UsageAllows(chain[i], UsageOf(view, chain[i].jti), now, amount)
    ensures UsageAllowsAll(view, chain[..i + 1], now, amount)
  {
    forall k | 0 <= k < i ensures UsageAllows(chain[k], UsageOf(view, chain[k].jti), now, amount) {
      assert chain[..i][k] == chain[k];
    }
  }

  class UsageTracker {
    var usage: map<Str, TokenUsage>

    /** No two ids share a usage object. */
    ghost predicate Valid()
      reads this
    {
      forall i, j :: i in usage && j in usage && i != j ==> usage[i] != usage[j]
    }

    ghost function Objects(): set<object>
      reads this
    {
      set j | j in usage :: usage[j]
    }

    ghost function Contents(): UsageView
      reads this, Objects()
    {
      map j | j in usage :: usage[j].View()
    }

    constructor ()
      ensures Valid() && Contents() == map[]
    {
      usage := map[];
    }

    /** Drop the entries whose retention has passed. */
    method PurgeExpired(now: real)
      requires Valid()
      modifies this
      ensures Valid() && Contents() == PurgeUsage(old(Contents()), now)
      ensures Objects() <= old(Objects())
    {
      usage := map j | j in usage && usage[j].expiresAt as real > now :: usage[j];
    }

    /** Look up every token of the chain and check its limits; nothing is charged yet. */
    method Prepare(chain: seq<Claims>, now: real, amount: Dec) returns (allowed: bool, pending: seq<TokenUsage>)
      requires Valid() && DistinctIds(chain)
      ensures allowed <==> UsageAllowsAll(Contents(), chain, now, amount)
      ensures allowed ==> Pending(chain, pending)
      ensures allowed ==> forall i :: 0 <= i < |chain| && chain[i].jti !in usage ==> fresh(pending[i])
    {
      pending := [];
      for i := 0 to |chain|
        invariant Pending(chain[..i], pending)
        invariant forall k :: 0 <= k < i && chain[k].jti !in usage ==> fresh(pending[k])
        invariant UsageAllowsAll(Contents(), chain[..i], now, amount)
      {
        var c := chain[i];
        var entry: TokenUsage;
        if c.jti in usage {
          entry := usage[c.jti];
        } else {
          entry := new TokenUsage();
        }
        assert entry.View() == UsageOf(Contents(), c.jti);
        if !UsageAllows(c, entry.View(), now, amount) {
          assert !UsageAllowsAll(Contents(), chain, now, amount);
          return false, pending;
        }
        PendingExtends(chain, i, pending, entry);
        AllowsExtends(Contents(), chain, i, now, amount);
        pending := pending + [entry];
      }
      assert chain[..|chain|] == chain;
      return true, pending;
    }

    lemma PendingExtends(chain: seq<Claims>, i: nat, pending: seq<TokenUsage>, entry: TokenUsage)
      requires Valid() && i < |chain| && DistinctIds(chain) && Pending(chain[..i], pending)
      requires if chain[i].jti in usage then entry == usage[chain[i].jti]
               else entry !in Objects() && entry !in pending && entry.View() == NoUsage
      ensures Pending(chain[..i + 1], pending + [entry])
    {
      forall k | 0 <= k < i ensures pending[k] != entry {
        assert chain[..i][k] == chain[k];
        if chain[i].jti in usage && chain[k].jti !in usage { assert usage[chain[i].jti] in Objects(); }
      }
    }

    /** The usage objects of the chain: stored ones, or new empty ones, all different. */
    ghost predicate Pending(chain: seq<Claims>, pending: seq<TokenUsage>)
      reads this, Objects(), pending
    {
      && |pending| == |chain|
      && (forall i :: 0 <= i < |pending| ==>
            if chain[i].jti in usage then pending[i] == usage[chain[i].jti]
            else pending[i] !in Objects() && pending[i].View() == NoUsage)
      && (forall i, j :: 0 <= i < j < |pending| ==> pending[i] != pending[j])
    }

    /** Reserve every allowance of the chain at one clock reading, or change none of them. */
    method CheckAndRecordChain(chain: seq<Claims>, amount: Amount, now: real) returns (ok: bool)
      requires Valid()
      modifies this, Objects()
      ensures Valid() && fresh(Objects() - old(Objects()))
      ensures (ok, Contents()) == UsageStep(old(Contents()), Reservation(chain, amount, now))
    {
      if amount.Invalid? || chain == [] || !DistinctIds(chain) {
        return false;
      }
      if exists i :: 0 <= i < |chain| && now >= ExpiryOf(chain[i]) as real {
        return false;
      }
      PurgeExpired(now);
      var allowed, pending := Prepare(chain, now, amount.d);
      if !allowed {
        return false;
      }
      CommitAll(chain, pending, now, amount.d);
      return true;
    }

    method CommitOne(c: Claims, entry: TokenUsage, now: real, amount: Dec)
      modifies this, entry
      ensures usage == old(usage)[c.jti := entry]
      ensures entry.View() == UsageNext(c, old(entry.View()), now, amount)
    {
      entry.Charge(c, Recent(entry.callTimestamps, now - 60.0), now, amount);
      usage := usage[c.jti := entry];
    }

    /** The charging loop: each object once, each stored under its id. */
    method ChargeAll(chain: seq<Claims>, pending: seq<TokenUsage>, now: real, amount: Dec)
      requires |pending| == |chain| && Distinct(pending)
      modifies this, pending
      ensures usage == Assign(old(usage), IdsOf(chain), pending)
      ensures forall k :: 0 <= k < |chain| ==>
        pending[k].View() == UsageNext(chain[k], old(pending[k].View()), now, amount)
    {
      ghost var ids := IdsOf(chain);
      for i := 0 to |chain|
        invariant usage == Assign(old(usage), ids[..i], pending[..i])
        invariant forall k :: 0 <= k < i ==>
          pending[k].View() == UsageNext(chain[k], old(pending[k].View()), now, amount)
        invariant forall k :: i <= k < |chain| ==> pending[k].View() == old(pending[k].View())
      {
        CommitOne(chain[i], pending[i], now, amount);
        AssignNext(old(usage), ids, pending, i);
      }
      assert ids[..|chain|] == ids && pending[..|chain|] == pending;
    }

    /** What is stored once the objects of the chain are charged and stored. */
    lemma ContentsAfter(stored: map<Str, TokenUsage>, before: UsageView, ids: seq<Str>, pending: seq<TokenUsage>, next: seq<Usage>)
      requires |ids| == |pending| == |next| && Distinct(ids) && stored.Keys == before.Keys
      requires usage == Assign(stored, ids, pending)
      requires forall k :: 0 <= k < |ids| ==> pending[k].View() == next[k]
      requires forall j :: j in stored && j !in ids ==> stored[j].View() == before[j]
      ensures Contents() == Assign(before, ids, next)
    {
      AssignEffect(stored, ids, pending);
      AssignEffect(before, ids, next);
      forall j | j in usage ensures j in Assign(before, ids, next) && usage[j].View() == Assign(before, ids, next)[j] {
        if j in ids {
          var k :| 0 <= k < |ids| && ids[k] == j;
        }
      }
    }

    lemma StillValid(stored: map<Str, TokenUsage>, ids: seq<Str>, pending: seq<TokenUsage>)
      requires |ids| == |pending| && Distinct(ids) && Distinct(pending)
      requires forall i, j :: i in stored && j in stored && i != j ==> stored[i] != stored[j]
      requires forall k :: 0 <= k < |ids| ==> Owns(stored, ids[k], pending[k])
      requires usage == Assign(stored, ids, pending)
      ensures Valid()
      ensures forall j :: j in usage ==> usage[j] in pending || (j in stored && usage[j] == stored[j])
    {
      AssignEffect(stored, ids, pending);
      forall i, j | i in usage && j in usage && i != j ensures usage[i] != usage[j] {
        if i in ids && j in ids {
          var k :| 0 <= k < |ids| && ids[k] == i;
          var l :| 0 <= l < |ids| && ids[l] == j;
        } else if i in ids {
          var k :| 0 <= k < |ids| && ids[k] == i;
        } else if j in ids {
          var l :| 0 <= l < |ids| && ids[l] == j;
        }
      }
      forall j | j in usage ensures usage[j] in pending || (j in stored && usage[j] == stored[j]) {
        if j in ids {
          var k :| 0 <= k < |ids| && ids[k] == j;
        }
      }
    }

    /** The object is the stored one of this id, or not stored at all. */
    static ghost predicate Owns(stored: map<Str, TokenUsage>, jti: Str, entry: TokenUsage) {
      if jti in stored then entry == stored[jti] else forall j :: j in stored ==> stored[j] != entry
    }

    /** Prepared objects are all different, hold the stored usage, and belong to no other id. */
    lemma PreparedObjects(chain: seq<Claims>, pending: seq<TokenUsage>)
      requires Valid() && DistinctIds(chain) && Pending(chain, pending)
      ensures Distinct(pending)
      ensures forall k :: 0 <= k < |chain| ==> Owns(usage, IdsOf(chain)[k], pending[k])
      ensures forall k :: 0 <= k < |chain| ==> pending[k].View() == UsageOf(Contents(), chain[k].jti)
      ensures forall j :: j in usage && j !in IdsOf(chain) ==> usage[j] !in pending
    {
      forall k | 0 <= k < |chain| ensures Owns(usage, IdsOf(chain)[k], pending[k]) {
        if chain[k].jti !in usage {
          forall j | j in usage ensures usage[j] != pending[k] { assert usage[j] in Objects(); }
        }
      }
      forall j | j in usage && j !in IdsOf(chain) ensures usage[j] !in pending {
        forall k | 0 <= k < |chain| ensures pending[k] != usage[j] {
          assert IdsOf(chain)[k] != j && Owns(usage, IdsOf(chain)[k], pending[k]);
        }
      }
    }

    /** Charge the prepared objects one by one and store them. */
    method CommitAll(chain: seq<Claims>, pending: seq<TokenUsage>, now: real, amount: Dec)
      requires Valid() && DistinctIds(chain) && Pending(chain, pending)
      modifies this, pending
      ensures Valid()
      ensures Objects() <= old(Objects()) + (set o | o in pending)
      ensures Contents() == UsageCharge(old(Contents()), chain, now, amount)
    {
      ghost var before, stored, ids := Contents(), usage, IdsOf(chain);
      IdsDistinct(chain);
      PreparedObjects(chain, pending);
      ChargeAll(chain, pending, now, amount);
      StillValid(stored, ids, pending);
      ContentsAfter(stored, before, ids, pending, UsagesNext(before, chain, now, amount));
    }
  }
}

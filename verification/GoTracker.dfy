/** Go's MemoryUsageTracker: chain reservation over a map of usage values. */
module GoTracker {
  import opened Wrappers
  import opened TokenClaims
  import opened Decimals
  import opened Maps
  import opened Ledger
  import opened MemoryTrackers

  lemma {:induction false} RecentAppend(stamps: seq<real>, more: seq<real>, cutoff: real)
    ensures Recent(stamps + more, cutoff) == Recent(stamps, cutoff) + Recent(more, cutoff)
  {
    if stamps == [] {
      assert stamps + more == more;
    } else {
      assert (stamps + more)[1..] == stamps[1..] + more;
      RecentAppend(stamps[1..], more, cutoff);
    }
  }

  /** The stamps that are not before the cutoff, in order. */
  method RecentStamps(stamps: seq<real>, cutoff: real) returns (recent: seq<real>)
    ensures recent == Recent(stamps, cutoff)
  {
    recent := [];
    for i := 0 to |stamps|
      invariant recent == Recent(stamps[..i], cutoff)
    {
      assert stamps[..i + 1] == stamps[..i] + [stamps[i]];
      RecentAppend(stamps[..i], [stamps[i]], cutoff);
      if !(stamps[i] < cutoff) {
        recent := recent + [stamps[i]];
      }
    }
    assert stamps[..|stamps|] == stamps;
  }

  lemma MergeAssign<K(!new), V>(m: map<K, V>, ks: seq<K>, vs: seq<V>)
    requires |ks| == |vs| && Distinct(ks)
    ensures m + Assign(map[], ks, vs) == Assign(m, ks, vs)
  {
    AssignEffect(m, ks, vs);
    AssignEffect(map[], ks, vs);
    forall k | k in ks ensures Assign(map[], ks, vs)[k] == Assign(m, ks, vs)[k] {
      var i :| 0 <= i < |ks| && ks[i] == k;
    }
  }

  lemma SeenBefore(chain: seq<Claims>, i: nat)
    requires i < |chain| && chain[i].jti in IdsOf(chain)[..i]
    ensures !DistinctIds(chain)
  {
    var k :| 0 <= k < i && IdsOf(chain)[..i][k] == chain[i].jti;
    assert chain[k].jti == chain[i].jti;
  }

  lemma NotSeenBefore(chain: seq<Claims>, i: nat)
    requires i < |chain| && chain[i].jti !in IdsOf(chain)[..i]
    ensures forall k :: 0 <= k < i ==> chain[k].jti != chain[i].jti
  {
    forall k | 0 <= k < i ensures chain[k].jti != chain[i].jti {
      assert IdsOf(chain)[..i][k] == chain[k].jti;
    }
  }

  class MemoryUsageTracker {
    var entries: GoView

    constructor ()
      ensures entries == map[]
    {
      entries := map[];
    }

    /** The usage of one token after the call, unless it has expired or a limit refuses. */
    method Next(c: Claims, amount: real, now: real) returns (next: Option<GoUsage>)
      ensures next.Some? <==> GoAllows(c, GoUsageOf(entries, c.jti), now, amount)
      ensures next.Some? ==> next.value == GoNext(c, GoUsageOf(entries, c.jti), now, amount)
    {
      if now.Floor >= c.exp + 3 {
        return None;
      }
      var current := GoUsageOf(entries, c.jti);
      var spent := current.amount + amount;
      var recent := RecentStamps(current.stamps, now - 60.0);
      var limits := c.constraints;
      if || Exceeds(current.calls + 1, limits.maxCalls)
         || (limits.maxAmountUsd.Some? && spent > limits.maxAmountUsd.value)
         || Exceeds(|recent| + 1, limits.rateLimitPerMin)
      {
        return None;
      }
      return Some(GoUsage(current.calls + 1, spent, recent + [now], c.exp + 3));
    }

    /** Check every token of the chain against the kept entries and collect its new usage. */
    method Collect(chain: seq<Claims>, amount: real, now: real) returns (ok: bool, pending: GoView)
      ensures ok <==> GoAllowsAll(entries, chain, now, amount)
      ensures ok ==> pending == Assign(map[], IdsOf(chain), GoUsagesNext(entries, chain, now, amount))
    {
      pending := map[];
      ghost var ids, next := IdsOf(chain), GoUsagesNext(entries, chain, now, amount);
      for i := 0 to |chain|
        invariant SoFar(chain, i, amount, now)
        invariant pending == Assign(map[], ids[..i], next[..i])
      {
        AssignKeys(map[], ids[..i], next[..i]);
        if chain[i].jti in pending {
          SeenBefore(chain, i);
          return false, pending;
        }
        NotSeenBefore(chain, i);
        var entry := Next(chain[i], amount, now);
        if entry.None? {
          return false, pending;
        }
        pending := pending[chain[i].jti := entry.value];
        AssignNext(map[], ids, next, i);
      }
      assert ids[..|chain|] == ids && next[..|chain|] == next;
      return true, pending;
    }

    /** The first n tokens have different ids and are all allowed. */
    ghost predicate SoFar(chain: seq<Claims>, n: nat, amount: real, now: real)
      requires n <= |chain|
      reads this
    {
      && (forall j, k :: 0 <= j < k < n ==> chain[j].jti != chain[k].jti)
      && (forall k :: 0 <= k < n ==> GoAllows(chain[k], GoUsageOf(entries, chain[k].jti), now, amount))
    }

    /** Reserve the entire chain atomically, or change nothing but expired entries. */
    method Reserve(chain: seq<Claims>, amount: Amount, now: real) returns (ok: bool)
      modifies this
      ensures (ok, entries) == GoStep(old(entries), Reservation(chain, amount, now))
    {
      if amount.Invalid? {
        return false;
      }
      entries := map j | j in entries && !(now.Floor >= entries[j].expiry) :: entries[j];
      assert entries == GoPurge(old(entries), now);
      var pending;
      ok, pending := Collect(chain, Val(amount.d), now);
      if !ok || chain == [] {
        return false;
      }
      IdsDistinct(chain);
      MergeAssign(entries, IdsOf(chain), GoUsagesNext(entries, chain, now, Val(amount.d)));
      entries := entries + pending;
    }
  }
}

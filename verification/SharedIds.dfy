/**
  UsageTracker without any assumption on token ids: even when different tokens
  carry one jti, no token is charged past its own limits, because an entry is
  retained until the latest expiry it has ever been charged for.
 */
module SharedIds {
  import opened TokenClaims
  import opened Decimals
  import opened Maps
  import opened Ledger
  import opened LedgerRuns
  import opened MemoryTrackers

  /** The last call of the run was accepted and charged this very token. */
  predicate LastCharged(rs: seq<Reservation>, c: Claims)
    requires rs != []
  {
    UsageStep(UsageRun(rs[..|rs| - 1]).0, rs[|rs| - 1]).0 && c in rs[|rs| - 1].chain
  }

  function CallsOf(rs: seq<Reservation>, c: Claims): nat {
    if rs == [] then 0 else CallsOf(rs[..|rs| - 1], c) + if LastCharged(rs, c) then 1 else 0
  }

  function SpentOf(rs: seq<Reservation>, c: Claims): real {
    if rs == [] then 0.0
    else SpentOf(rs[..|rs| - 1], c) + if LastCharged(rs, c) then AmountOf(rs[|rs| - 1]) else 0.0
  }

  /** While the token can still be accepted, its entry holds at least its own charges. */
  ghost predicate Covered(view: UsageView, c: Claims, calls: nat, spent: real, t: real) {
    calls > 0 && t < ExpiryOf(c) as real ==>
      && c.jti in view
      && view[c.jti].calls >= calls
      && Val(view[c.jti].spent) >= spent
      && view[c.jti].expiresAt >= ExpiryOf(c)
  }

  ghost predicate OwnLimits(c: Claims, calls: nat, spent: real) {
    && WithinCount(calls, c.constraints.maxCalls)
    && (calls > 0 ==> Within(spent, c.constraints.maxAmountUsd))
    && (calls == 0 ==> spent == 0.0)
  }

  lemma ChargeCovers(view: UsageView, r: Reservation, c: Claims, calls: nat, spent: real, t: real)
    requires Covered(view, c, calls, spent, t) && OwnLimits(c, calls, spent) && t <= r.now
    requires UsageStep(view, r).0
    ensures var here := c in r.chain;
      var calls', spent' := calls + (if here then 1 else 0), spent + (if here then AmountOf(r) else 0.0);
      Covered(UsageStep(view, r).1, c, calls', spent', r.now) && OwnLimits(c, calls', spent')
  {
    var kept := PurgeUsage(view, r.now);
    IdsDistinct(r.chain);
    AssignEffect(kept, IdsOf(r.chain), UsagesNext(kept, r.chain, r.now, r.amount.d));
    var u := UsageOf(kept, c.jti);
    AddExact(u.spent, r.amount.d);
    if c in r.chain {
      var i :| 0 <= i < |r.chain| && r.chain[i] == c;
      assert IdsOf(r.chain)[i] == c.jti;
      assert !(r.now >= ExpiryOf(r.chain[i]) as real);
      assert UsageAllows(r.chain[i], u, r.now, r.amount.d);
    } else if c.jti in IdsOf(r.chain) {
      var i :| 0 <= i < |r.chain| && IdsOf(r.chain)[i] == c.jti;
    }
  }

  lemma {:induction false} SharedIdInvariant(rs: seq<Reservation>, c: Claims, start: real)
    requires ClockOrdered(rs) && (rs != [] ==> start <= rs[0].now)
    ensures Covered(UsageRun(rs).0, c, CallsOf(rs, c), SpentOf(rs, c), LastClock(rs, start))
    ensures OwnLimits(c, CallsOf(rs, c), SpentOf(rs, c))
  {
    if rs != [] {
      var n := |rs| - 1;
      SharedIdInvariant(rs[..n], c, start);
      assert LastClock(rs[..n], start) <= rs[n].now;
      var view := UsageRun(rs[..n]).0;
      if UsageStep(view, rs[n]).0 {
        ChargeCovers(view, rs[n], c, CallsOf(rs[..n], c), SpentOf(rs[..n], c), LastClock(rs[..n], start));
      }
    }
  }

  /**
    Siblings share: over every run with a non-decreasing clock, and any number of
    children, the accepted calls that charge a token and the exact sum of their
    amounts stay within its max_calls and max_amount_usd, purging included.
   */
  lemma SiblingsShare(rs: seq<Reservation>, parent: Claims)
    requires ClockOrdered(rs)
    ensures WithinCount(CallsOf(rs, parent), parent.constraints.maxCalls)
    ensures CallsOf(rs, parent) > 0 ==> Within(SpentOf(rs, parent), parent.constraints.maxAmountUsd)
  {
    SharedIdInvariant(rs, parent, if rs == [] then 0.0 else rs[0].now);
  }
}

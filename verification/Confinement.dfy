/**
  End-to-end confinement: from a policy grant, through issuing, one delegation
  hop, verification and the ledger, to the executed calls of a whole run.
 */
module Confinement {
  import opened Wrappers
  import opened JsonValues
  import opened TokenClaims
  import opened Decimals
  import opened Verification
  import opened Policy
  import opened Ledger
  import opened LedgerRuns
  import opened Authorization

  // ---- One call -------------------------------------------------------------------------

  /** The claims of the token lie inside the grant. */
  ghost predicate RootInside(g: Grant, root: Claims) {
    && g.iss == root.iss && g.sub == root.sub
    && Inside(g, root.capabilities, root.constraints)
    && root.exp - root.iat <= g.maxTtl
    && (root.dlg.Some? ==> root.dlg.value in g.delegates)
  }

  /** A token of a policy-bound issuer lies inside one of its grants. */
  lemma IssuedInsideGrant(grants: seq<Grant>, root: Token) returns (g: Grant)
    requires Issued(grants, root)
    ensures g in grants && RootInside(g, root.claims)
    ensures root.claims.prf.None? && ValidClaims(root.claims)
  {
    var key, req, now :| Issue(grants, key, req, now) == Ok(root);
    g :| g in grants && Matches(g, req) && GrantDenies(g, req).None?;
    GrantMeansContainment(g, req);
  }

  /** The parameters of a call, where none are given there are none. */
  function ParamsOf(call: Call): map<Str, Json> {
    if call.params.Some? then call.params.value else map[]
  }

  /** What the grant promises about a call that was let through. */
  ghost predicate Confined(g: Grant, call: Call) {
    var c := call.token.claims;
    var root := Root(call.token).claims;
    && root.iss == g.iss && c.sub == g.sub
    && (call.capability.Some? ==> CapabilityCovered(call.capability.value, g.capabilities))
    && PinsKept(g.pinnedParams, ParamsOf(call))
    && c.exp - c.iat <= g.maxTtl && root.exp - root.iat <= g.maxTtl
    && (c.prf.Some? ==> c.iss in g.delegates)
    && (BudgetIdName() in g.pinnedParams ==> PinnedAs(c.constraints.sharedBudget, g.pinnedParams[BudgetIdName()]))
  }

  /** Every authorized call whose root lies inside a grant is confined by that grant. */
  lemma AuthorizedCallConfined(g: Grant, trust: Trust, kind: TrackerKind, call: Call)
    requires RootInside(g, Root(call.token).claims) && Authorize(trust, kind, call).Ok?
    ensures Confined(g, call)
  {
    var c := call.token.claims;
    AuthorizedCall(trust, kind, call);
    VerifyUnfolds(trust, call.token, call.audience, DEFAULT_LEEWAY, call.own, call.parents);
    if c.prf.Some? {
      AttenuationStaysInside(g, Root(call.token).claims, c);
    }
    assert CheckCall(c, kind, call).None?;
    assert ParamsAllowed(c.constraints.allowedParams, ParamsOf(call));
  }

  // ---- Whole runs -------------------------------------------------------------------------

  // One call that went through: the trust it was verified with, what it charged and when.
  datatype Execution = Execution(trust: Trust, call: Call, chain: seq<Claims>, amount: Dec, now: real)

  ghost predicate LetThrough(kind: TrackerKind, e: Execution) {
    && Authorize(e.trust, kind, e.call) == Ok(Charge(e.chain, e.amount))
    && Timely(e.call, e.now)
  }

  function Reserved(e: Execution): Reservation { Reservation(e.chain, Valid(e.amount), e.now) }

  function Log(run: seq<Execution>): (log: seq<Reservation>)
    ensures |log| == |run|
  {
    seq(|run|, i requires 0 <= i < |run| => Reserved(run[i]))
  }

  ghost predicate Executed(kind: TrackerKind, run: seq<Execution>) {
    kind.Tracker? && forall i :: 0 <= i < |run| ==> LetThrough(kind, run[i])
  }

  /** The ledger accepted the reservations one after the other. */
  ghost predicate Accepted(cfg: Config, known: Known, log: seq<Reservation>) {
    ValidConfig(cfg) && LogFromKnown(known, log) && Replay(cfg, log).Some?
  }

  /** The calls of a run in reservation order: each was authorized and then accepted by the ledger. */
  ghost predicate Legal(cfg: Config, known: Known, kind: TrackerKind, run: seq<Execution>) {
    Executed(kind, run) && Accepted(cfg, known, Log(run))
  }

  predicate Under(e: Execution, root: Claims) { Root(e.call.token).claims == root }

  function CallAmount(call: Call): real {
    if call.amount.Some? && call.amount.value.Valid? then Val(call.amount.value.d) else 0.0
  }

  /** How many calls of the run trace back to the root. */
  function CallsUnder(run: seq<Execution>, root: Claims): nat {
    if run == [] then 0
    else CallsUnder(run[..|run| - 1], root) + if Under(run[|run| - 1], root) then 1 else 0
  }

  /** The exact sum of the amounts they were made with. */
  function SpentUnder(run: seq<Execution>, root: Claims): real {
    if run == [] then 0.0
    else SpentUnder(run[..|run| - 1], root) + if Under(run[|run| - 1], root) then CallAmount(run[|run| - 1].call) else 0.0
  }

  lemma LogPrefix(run: seq<Execution>)
    requires run != []
    ensures Log(run)[..|run| - 1] == Log(run[..|run| - 1])
  {
  }

  lemma AcceptedPrefix(cfg: Config, known: Known, log: seq<Reservation>)
    requires Accepted(cfg, known, log) && log != []
    ensures Accepted(cfg, known, log[..|log| - 1]) && FromKnown(known, log[|log| - 1].chain)
    ensures Reserve(cfg, Replay(cfg, log[..|log| - 1]).value, log[|log| - 1]).Some?
  {
    ReplayPrefix(cfg, log);
  }

  lemma ExecutedPrefix(kind: TrackerKind, run: seq<Execution>)
    requires Executed(kind, run) && run != []
    ensures Executed(kind, run[..|run| - 1]) && LetThrough(kind, run[|run| - 1])
  {
  }

  lemma LegalPrefix(cfg: Config, known: Known, kind: TrackerKind, run: seq<Execution>)
    requires Legal(cfg, known, kind, run) && run != []
    ensures Legal(cfg, known, kind, run[..|run| - 1])
    ensures Log(run)[..|run| - 1] == Log(run[..|run| - 1])
    ensures LetThrough(kind, run[|run| - 1]) && FromKnown(known, Log(run)[|run| - 1].chain)
  {
    LogPrefix(run);
    ExecutedPrefix(kind, run);
    AcceptedPrefix(cfg, known, Log(run));
  }

  /** A call under a limited root charges the root's own record. */
  lemma CallChargesRoot(cfg: Config, kind: TrackerKind, e: Execution, book: Book, root: Claims)
    requires LetThrough(kind, e) && Under(e, root) && Stateful(root) && kind.Tracker?
    requires Reserve(cfg, book, Reserved(e)).Some?
    ensures ChargeOn(cfg, Reserved(e), TokenKey(root.jti)).Some? && root in e.chain
    ensures root.constraints.maxAmountUsd.Some? ==> CallAmount(e.call) == Val(e.amount)
  {
    NoUnpaidLimit(e.trust, kind, e.call);
    var r := Reserved(e);
    var c := e.call.token.claims;
    assert ChainOf(c)[0] == root;
    var i :| 0 <= i < |r.chain| && r.chain[i] == root;
    assert Records(cfg, r.chain, r.now).value[i] == TokenRecord(root);
  }

  /** Ledger totals on the root's record bound what the calls under it did. */
  lemma {:induction false} LedgerCoversRun(cfg: Config, known: Known, kind: TrackerKind, run: seq<Execution>, root: Claims)
    requires Legal(cfg, known, kind, run) && Stateful(root)
    ensures CallsUnder(run, root) <= Calls(cfg, Log(run), TokenKey(root.jti))
    ensures root.constraints.maxAmountUsd.Some? ==> SpentUnder(run, root) <= Spent(cfg, Log(run), TokenKey(root.jti))
    ensures CallsUnder(run, root) > 0 ==> root.jti in known && known[root.jti] == root
  {
    if run != [] {
      var n := |run| - 1;
      var e, log := run[n], Log(run);
      LegalPrefix(cfg, known, kind, run);
      LedgerCoversRun(cfg, known, kind, run[..n], root);
      if Under(e, root) {
        AcceptedPrefix(cfg, known, log);
        CallChargesRoot(cfg, kind, e, Replay(cfg, log[..n]).value, root);
      }
    }
  }

  lemma NothingSpentBeforeACall(run: seq<Execution>, root: Claims)
    ensures CallsUnder(run, root) == 0 ==> SpentUnder(run, root) == 0.0
  {
  }

  // ---- The rate over the life of the root ------------------------------------------------------

  ghost predicate InWindow(times: seq<real>, root: Claims) {
    forall i :: 0 <= i < |times| ==> (root.iat - 2) as real <= times[i] < (root.iat + 33) as real
  }

  lemma WindowExtends(times: seq<real>, more: seq<real>, root: Claims)
    requires InWindow(times, root) && InWindow(more, root)
    ensures InWindow(times + more, root)
  {
  }

  /** Every reservation of the root's record falls in the 35 seconds of its verification window. */
  lemma {:induction false} TimesInWindow(cfg: Config, known: Known, kind: TrackerKind, run: seq<Execution>, root: Claims)
    requires Legal(cfg, known, kind, run) && root.jti in known && known[root.jti] == root
    ensures InWindow(Times(cfg, Log(run), TokenKey(root.jti)), root)
  {
    if run != [] {
      var n := |run| - 1;
      var log, k := Log(run), TokenKey(root.jti);
      LegalPrefix(cfg, known, kind, run);
      TimesInWindow(cfg, known, kind, run[..n], root);
      NewTimeInWindow(cfg, known, kind, run[n], root);
      assert log[n] == Reserved(run[n]);
      WindowExtends(Times(cfg, log[..n], k), NewTime(cfg, log[n], k), root);
    }
  }

  lemma NewTimeInWindow(cfg: Config, known: Known, kind: TrackerKind, e: Execution, root: Claims)
    requires LetThrough(kind, e) && root.jti in known && known[root.jti] == root
    requires FromKnown(known, e.chain)
    ensures ChargeOn(cfg, Reserved(e), TokenKey(root.jti)).Some?
        ==> (root.iat - 2) as real <= e.now < (root.iat + 33) as real
  {
    var r := Reserved(e);
    if ChargeOn(cfg, r, TokenKey(root.jti)).Some? {
      ChargedTokenInChain(cfg, known, r, root);
      var i :| 0 <= i < |r.chain| && r.chain[i] == root;
      AcceptanceSpan(e.trust, kind, e.call, e.now, i);
    }
  }

  lemma ChargedTokenInChain(cfg: Config, known: Known, r: Reservation, root: Claims)
    requires FromKnown(known, r.chain) && root.jti in known && known[root.jti] == root
    requires ChargeOn(cfg, r, TokenKey(root.jti)).Some?
    ensures root in r.chain
  {
    var recs := Records(cfg, r.chain, r.now).value;
    var i :| 0 <= i < |recs| && recs[i].key == TokenKey(root.jti);
    assert i < |r.chain|;
    assert recs[i] == TokenRecord(r.chain[i]);
    assert r.chain[i] == known[r.chain[i].jti] == root;
  }

  lemma RootCeilings(cfg: Config, known: Known, kind: TrackerKind, run: seq<Execution>, root: Claims)
    requires Legal(cfg, known, kind, run) && ValidClaims(root) && Stateful(root)
    ensures WithinCount(CallsUnder(run, root), root.constraints.maxCalls)
    ensures Within(SpentUnder(run, root), root.constraints.maxAmountUsd)
    ensures WithinCount(CallsUnder(run, root), root.constraints.rateLimitPerMin)
  {
    var log, k := Log(run), TokenKey(root.jti);
    LedgerCoversRun(cfg, known, kind, run, root);
    NothingSpentBeforeACall(run, root);
    if CallsUnder(run, root) > 0 {
      LifetimeCeiling(cfg, known, log, k);
      if root.constraints.rateLimitPerMin.Some? {
        TimesInWindow(cfg, known, kind, run, root);
        RateIsLifetimeCap(cfg, known, log, k, (root.iat - 2) as real);
      }
    }
  }

  /**
    End-to-end confinement. Every call let through for a chain whose root came
    from a policy-bound issuer lies inside one grant of that policy, and over the
    whole run the calls made under that root, directly or through any number of
    children, stay within the grant's ceilings on calls, amount and rate.
   */
  lemma {:induction false} EndToEndConfinement(grants: seq<Grant>, root: Token, cfg: Config, known: Known, kind: TrackerKind,
                            run: seq<Execution>) returns (g: Grant)
    requires Issued(grants, root) && Legal(cfg, known, kind, run)
    ensures g in grants
    ensures forall i :: 0 <= i < |run| && Under(run[i], root.claims) ==> Confined(g, run[i].call)
    ensures WithinCount(CallsUnder(run, root.claims), g.maxCalls)
    ensures Within(SpentUnder(run, root.claims), g.maxAmountUsd)
    ensures WithinCount(CallsUnder(run, root.claims), g.rateLimitPerMin)
  {
    g := IssuedInsideGrant(grants, root);
    forall i | 0 <= i < |run| && Under(run[i], root.claims) ensures Confined(g, run[i].call) {
      assert LetThrough(kind, run[i]);
      AuthorizedCallConfined(g, run[i].trust, kind, run[i].call);
    }
    CeilingsNarrow(g, root.claims.constraints);
    if Stateful(root.claims) {
      RootCeilings(cfg, known, kind, run, root.claims);
    }
  }

  /** A ceiling of the grant is a limit of the token, and not a larger one. */
  lemma CeilingsNarrow(g: Grant, c: Constraints)
    requires LimitInside(AsReal(c.maxCalls), AsReal(g.maxCalls)) && LimitInside(c.maxAmountUsd, g.maxAmountUsd)
    requires LimitInside(AsReal(c.rateLimitPerMin), AsReal(g.rateLimitPerMin))
    ensures g.maxCalls.Some? ==> c.maxCalls.Some? && c.maxCalls.value <= g.maxCalls.value
    ensures g.maxAmountUsd.Some? ==> c.maxAmountUsd.Some? && c.maxAmountUsd.value <= g.maxAmountUsd.value
    ensures g.rateLimitPerMin.Some? ==> c.rateLimitPerMin.Some? && c.rateLimitPerMin.value <= g.rateLimitPerMin.value
  {
    NotWiderMeansInside(AsReal(c.maxCalls), AsReal(g.maxCalls));
    NotWiderMeansInside(c.maxAmountUsd, g.maxAmountUsd);
    NotWiderMeansInside(AsReal(c.rateLimitPerMin), AsReal(g.rateLimitPerMin));
  }

  /** Without a tracker only roots of grants without ceilings are let through at all. */
  lemma UntrackedMeansUnlimited(g: Grant, trust: Trust, call: Call)
    requires RootInside(g, Root(call.token).claims) && Authorize(trust, NoTracker, call).Ok?
    ensures g.maxCalls.None? && g.maxAmountUsd.None? && g.rateLimitPerMin.None?
  {
    var c := call.token.claims;
    NoUnpaidLimit(trust, NoTracker, call);
    AuthorizedCall(trust, NoTracker, call);
    assert ChainOf(c)[0] == Root(call.token).claims;
    CeilingsNarrow(g, Root(call.token).claims.constraints);
  }
}

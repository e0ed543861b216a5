/**
  Confinement through the trackers themselves: what is executed is what the
  in-memory ledger, the process-local tracker behind verify_and_check, or the
  shared Redis ledger decided to accept.
 */
module TrackerRuns {
  import opened Wrappers
  import opened TokenClaims
  import opened Verification
  import opened Policy
  import opened Ledger
  import opened LedgerRuns
  import opened MemoryTrackers
  import opened Authorization
  import opened Confinement
  import opened RedisLedgerProof
  import opened RedisLedgerTheorems

  /** What a grant of the policy guarantees about everything done under the root in this run. */
  ghost predicate HeldBy(g: Grant, grants: seq<Grant>, run: seq<Execution>, root: Claims) {
    && g in grants
    && (forall i :: 0 <= i < |run| && Under(run[i], root) ==> Confined(g, run[i].call))
    && WithinCount(CallsUnder(run, root), g.maxCalls)
    && Within(SpentUnder(run, root), g.maxAmountUsd)
    && WithinCount(CallsUnder(run, root), g.rateLimitPerMin)
  }

  /** Confinement in every interleaving of verifiers that share a Redis ledger. */
  lemma {:induction false} RedisRunConfined(grants: seq<Grant>, root: Token, p: RedisProtocol.Params, n: nat, clock: real,
                                            acts: seq<RedisProtocol.Action>, run: seq<Execution>) returns (g: Grant)
    requires Issued(grants, root) && ValidParams(p) && RedisLedger.Run(p, n, clock, acts).Some?
    requires Executed(BudgetAware, run) && RedisLedger.Run(p, n, clock, acts).value.log == Log(run)
    ensures HeldBy(g, grants, run, root.claims)
  {
    CommitsAreSequential(p, n, clock, acts);
    g := EndToEndConfinement(grants, root, p.cfg, p.known, BudgetAware, run);
  }

  // ---- Decisions that agree with the ideal ledger ---------------------------------------------

  lemma {:induction false} DecisionsConfine(grants: seq<Grant>, root: Token, cfg: Config, known: Known, kind: TrackerKind,
                                            rs: seq<Reservation>, oks: seq<bool>, run: seq<Execution>) returns (g: Grant)
    requires Issued(grants, root) && ValidConfig(cfg) && LogFromKnown(known, rs)
    requires oks == IdealRun(cfg, rs).1 && Executed(kind, run) && AcceptedBy(rs, oks) == Log(run)
    ensures HeldBy(g, grants, run, root.claims)
  {
    AcceptedLogReplays(cfg, rs);
    AcceptedFromKnown(known, rs, oks);
    g := EndToEndConfinement(grants, root, cfg, known, kind, run);
  }

  /** Confinement through BudgetUsageTracker: the run is what it accepted of the calls made to it. */
  lemma {:induction false} BudgetRunConfined(grants: seq<Grant>, root: Token, cfg: Config, known: Known,
                                             rs: seq<Reservation>, run: seq<Execution>) returns (g: Grant)
    requires Issued(grants, root) && ValidConfig(cfg) && LogFromKnown(known, rs) && ClockOrdered(rs)
    requires Executed(BudgetAware, run) && AcceptedBy(rs, BudgetRun(cfg, rs).1) == Log(run)
    ensures HeldBy(g, grants, run, root.claims)
  {
    BudgetRunRefines(cfg, known, rs, if rs == [] then 0.0 else rs[0].now);
    g := DecisionsConfine(grants, root, cfg, known, BudgetAware, rs, BudgetRun(cfg, rs).1, run);
  }

  /** Confinement through UsageTracker, for calls that name no shared budget. */
  lemma {:induction false} UsageRunConfined(grants: seq<Grant>, root: Token, known: Known,
                                            rs: seq<Reservation>, run: seq<Execution>) returns (g: Grant)
    requires Issued(grants, root) && LogFromKnown(known, rs) && ClockOrdered(rs) && NoSharedBudget(rs)
    requires Executed(PlainTracker, run) && AcceptedBy(rs, UsageRun(rs).1) == Log(run)
    ensures HeldBy(g, grants, run, root.claims)
  {
    UsageRunRefines(known, rs, if rs == [] then 0.0 else rs[0].now);
    g := DecisionsConfine(grants, root, TokensOnly, known, PlainTracker, rs, UsageRun(rs).1, run);
  }

  // ---- Runs of verify_and_check ---------------------------------------------------------------

  // One call of verify_and_check with a process-local tracker, and its reservation reading.
  datatype Attempt = Attempt(trust: Trust, call: Call, now: real)

  /** What the attempt would execute, if the checks before the reservation let it get there. */
  function Planned(a: Attempt): Option<Execution> {
    match Authorize(a.trust, PlainTracker, a.call)
    case Ok(Charge(chain, amount)) => Some(Execution(a.trust, a.call, chain, amount, a.now))
    case _ => None
  }

  function Single<T>(item: Option<T>): seq<T> { if item.Some? then [item.value] else [] }

  /** The tracker's contents and the calls let through after a run of attempts. */
  function GuardRun(attempts: seq<Attempt>): (UsageView, seq<Execution>) {
    if attempts == [] then (map[], [])
    else
      var a := attempts[|attempts| - 1];
      var (view, done) := GuardRun(attempts[..|attempts| - 1]);
      var (ok, next) := GuardStep(a.trust, a.call, a.now, view);
      (next, done + if ok then Single(Planned(a)) else [])
  }

  /** The reservations the attempts ask of the tracker. */
  function Requested(attempts: seq<Attempt>): seq<Reservation> {
    if attempts == [] then []
    else
      var p := Planned(attempts[|attempts| - 1]);
      Requested(attempts[..|attempts| - 1]) + if p.Some? then [Reserved(p.value)] else []
  }

  lemma GuardStepReserves(a: Attempt, view: UsageView)
    ensures GuardStep(a.trust, a.call, a.now, view)
         == if Planned(a).Some? then UsageStep(view, Reserved(Planned(a).value)) else (false, view)
  {
    PlainPlansCharge(a.trust, a.call);
  }

  lemma UsageRunExtend(rs: seq<Reservation>, r: Reservation)
    ensures UsageRun(rs + [r]).0 == UsageStep(UsageRun(rs).0, r).1
    ensures UsageRun(rs + [r]).1 == UsageRun(rs).1 + [UsageStep(UsageRun(rs).0, r).0]
    ensures AcceptedBy(rs + [r], UsageRun(rs + [r]).1)
         == AcceptedBy(rs, UsageRun(rs).1) + if UsageStep(UsageRun(rs).0, r).0 then [r] else []
  {
    assert (rs + [r])[..|rs|] == rs;
    assert UsageRun(rs + [r]).1[..|rs|] == UsageRun(rs).1;
  }

  lemma LogExtends(run: seq<Execution>, e: Execution)
    ensures Log(run + [e]) == Log(run) + [Reserved(e)] && Log(run + []) == Log(run)
  {
    assert run + [] == run;
  }

  /** The attempts drive the tracker exactly by the reservations they ask for. */
  lemma {:induction false} GuardRunDrivesTracker(attempts: seq<Attempt>)
    ensures var rs := Requested(attempts);
      GuardRun(attempts).0 == UsageRun(rs).0 && Log(GuardRun(attempts).1) == AcceptedBy(rs, UsageRun(rs).1)
  {
    if attempts != [] {
      var n := |attempts| - 1;
      var a, rs, done := attempts[n], Requested(attempts[..n]), GuardRun(attempts[..n]).1;
      GuardRunDrivesTracker(attempts[..n]);
      GuardStepReserves(a, GuardRun(attempts[..n]).0);
      if Planned(a).Some? {
        UsageRunExtend(rs, Reserved(Planned(a).value));
        LogExtends(done, Planned(a).value);
      } else {
        assert rs + [] == rs && done + [] == done;
      }
    }
  }

  ghost predicate AttemptsOrdered(attempts: seq<Attempt>) {
    && (forall i, j :: 0 <= i <= j < |attempts| ==> attempts[i].now <= attempts[j].now)
    && (forall i :: 0 <= i < |attempts| ==> Timely(attempts[i].call, attempts[i].now))
  }

  lemma {:induction false} RequestsAreInOrder(attempts: seq<Attempt>)
    requires AttemptsOrdered(attempts)
    ensures ClockOrdered(Requested(attempts)) && NoSharedBudget(Requested(attempts))
    ensures forall i :: 0 <= i < |Requested(attempts)| ==> Requested(attempts)[i].now <= attempts[|attempts| - 1].now
    ensures Executed(PlainTracker, GuardRun(attempts).1)
  {
    if attempts != [] {
      var n := |attempts| - 1;
      RequestsAreInOrder(attempts[..n]);
      if Planned(attempts[n]).Some? { PlainTrackersSeeNoBudget(attempts[n].trust, PlainTracker, attempts[n].call); }
    }
  }

  /**
    Confinement of verify_and_check with its process-local tracker: over any run
    of calls with a non-decreasing clock, whatever is let through under a root of
    a policy-bound issuer lies inside one grant and within its ceilings.
   */
  lemma {:induction false} GuardRunConfined(grants: seq<Grant>, root: Token, known: Known, attempts: seq<Attempt>)
    returns (g: Grant)
    requires Issued(grants, root) && AttemptsOrdered(attempts) && LogFromKnown(known, Requested(attempts))
    ensures HeldBy(g, grants, GuardRun(attempts).1, root.claims)
  {
    GuardRunDrivesTracker(attempts);
    RequestsAreInOrder(attempts);
    g := UsageRunConfined(grants, root, known, Requested(attempts), GuardRun(attempts).1);
  }
}

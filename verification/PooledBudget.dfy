/**
  Grants that pin a shared budget: whatever is spent under all roots of all
  grants that pin it, together, stays within the budget's rule.
 */
module PooledBudget {
  import opened Wrappers
  import opened JsonValues
  import opened TokenClaims
  import opened Verification
  import opened Policy
  import opened Ledger
  import opened LedgerRuns
  import opened Admission
  import opened MemoryTrackers
  import opened Authorization
  import opened Confinement
  import opened RedisLedgerProof
  import opened RedisLedgerTheorems

  predicate PinsBudget(g: Grant, id: Str) {
    BudgetIdName() in g.pinnedParams && g.pinnedParams[BudgetIdName()] == String(id)
  }

  /** The call traces back to a root inside some grant that pins the budget. */
  ghost predicate Draws(e: Execution, grants: seq<Grant>, id: Str) {
    exists g :: g in grants && PinsBudget(g, id) && RootInside(g, Root(e.call.token).claims)
  }

  /** The amount in minor units that the call was made with. */
  function MinorOf(call: Call): nat {
    var minor := PinnedMinor(ParamsOf(call));
    if minor.Some? then minor.value else 0
  }

  ghost function CallsDrawing(run: seq<Execution>, grants: seq<Grant>, id: Str): nat {
    if run == [] then 0
    else CallsDrawing(run[..|run| - 1], grants, id) + if Draws(run[|run| - 1], grants, id) then 1 else 0
  }

  ghost function MinorDrawn(run: seq<Execution>, grants: seq<Grant>, id: Str): nat {
    if run == [] then 0
    else
      MinorDrawn(run[..|run| - 1], grants, id)
      + if Draws(run[|run| - 1], grants, id) then MinorOf(run[|run| - 1].call) else 0
  }

  /** Parameters that agree with the pins name the pinned amount. */
  lemma MinorFollowsPin(pins: map<Str, Json>, params: map<Str, Json>)
    requires PinsKept(pins, params) && PinnedMinor(pins).Some?
    ensures PinnedMinor(params) == PinnedMinor(pins)
  {
    assert JsonEqual(params[AmountMinorName()], pins[AmountMinorName()]);
  }

  /** The presented token of such a call names the budget, and the call was made with its pinned amount. */
  lemma DrawingCallNamesBudget(kind: TrackerKind, e: Execution, grants: seq<Grant>, id: Str)
    requires LetThrough(kind, e) && Draws(e, grants, id)
    ensures var c := e.call.token.claims;
      && c.constraints.sharedBudget == Some(id)
      && e.chain != [] && e.chain[|e.chain| - 1] == c
      && Some(MinorOf(e.call)) == PinnedMinor(c.constraints.allowedParams)
  {
    var g :| g in grants && PinsBudget(g, id) && RootInside(g, Root(e.call.token).claims);
    var c := e.call.token.claims;
    AuthorizedCallConfined(g, e.trust, kind, e.call);
    NoUnpaidLimit(e.trust, kind, e.call);
    AuthorizedCall(e.trust, kind, e.call);
    VerifyUnfolds(e.trust, e.call.token, e.call.audience, DEFAULT_LEEWAY, e.call.own, e.call.parents);
    assert ValidConstraints(c.constraints);
    MinorFollowsPin(c.constraints.allowedParams, ParamsOf(e.call));
  }

  lemma DrawingCallChargesBudget(cfg: Config, kind: TrackerKind, e: Execution, book: Book, grants: seq<Grant>, id: Str)
    requires ValidConfig(cfg) && LetThrough(kind, e) && Draws(e, grants, id) && Reserve(cfg, book, Reserved(e)).Some?
    ensures id in cfg.rules
    ensures ChargeOn(cfg, Reserved(e), BudgetKey(id)).Some?
    ensures ChargeOn(cfg, Reserved(e), BudgetKey(id)).value.minor == MinorOf(e.call)
  {
    DrawingCallNamesBudget(kind, e, grants, id);
    ChargesExactly(cfg, Reserved(e), BudgetKey(id));
    ChargeableExactly(cfg, e.chain, e.now);
  }

  lemma {:induction false} LedgerCoversPool(cfg: Config, known: Known, kind: TrackerKind, run: seq<Execution>,
                                            grants: seq<Grant>, id: Str)
    requires Legal(cfg, known, kind, run)
    ensures CallsDrawing(run, grants, id) <= Calls(cfg, Log(run), BudgetKey(id))
    ensures MinorDrawn(run, grants, id) <= Minor(cfg, Log(run), BudgetKey(id))
    ensures CallsDrawing(run, grants, id) > 0 ==> id in cfg.rules
  {
    if run != [] {
      var n := |run| - 1;
      LegalPrefix(cfg, known, kind, run);
      LedgerCoversPool(cfg, known, kind, run[..n], grants, id);
      if Draws(run[n], grants, id) {
        AcceptedPrefix(cfg, known, Log(run));
        DrawingCallChargesBudget(cfg, kind, run[n], Replay(cfg, Log(run)[..n]).value, grants, id);
      }
    }
  }

  /** Everything drawn on the budget stays within its rule. */
  ghost predicate PoolHeld(cfg: Config, run: seq<Execution>, grants: seq<Grant>, id: Str) {
    CallsDrawing(run, grants, id) > 0 ==>
      && id in cfg.rules
      && MinorDrawn(run, grants, id) <= cfg.rules[id].maxAmountMinor
      && WithinCount(CallsDrawing(run, grants, id), cfg.rules[id].maxCalls)
  }

  /**
    The pool of a pinned budget: over any run, the minor units that calls were
    made with under all roots of all grants that pin the budget, through fresh
    tokens and children alike, add up to no more than its max_amount_minor, and
    their number stays within its max_calls.
   */
  lemma {:induction false} PooledSpendHeld(cfg: Config, known: Known, kind: TrackerKind, run: seq<Execution>,
                                           grants: seq<Grant>, id: Str)
    requires Legal(cfg, known, kind, run)
    ensures PoolHeld(cfg, run, grants, id)
  {
    LedgerCoversPool(cfg, known, kind, run, grants, id);
    if id in cfg.rules {
      LifetimeCeiling(cfg, known, Log(run), BudgetKey(id));
    }
  }

  /** The same in every interleaving of verifiers that share a Redis ledger. */
  lemma {:induction false} RedisPoolHeld(p: RedisProtocol.Params, n: nat, clock: real, acts: seq<RedisProtocol.Action>,
                                         run: seq<Execution>, grants: seq<Grant>, id: Str)
    requires ValidParams(p) && RedisLedger.Run(p, n, clock, acts).Some?
    requires Executed(BudgetAware, run) && RedisLedger.Run(p, n, clock, acts).value.log == Log(run)
    ensures PoolHeld(p.cfg, run, grants, id)
  {
    CommitsAreSequential(p, n, clock, acts);
    PooledSpendHeld(p.cfg, p.known, BudgetAware, run, grants, id);
  }

  /** And for what the in-memory ledger accepts. */
  lemma {:induction false} BudgetPoolHeld(cfg: Config, known: Known, rs: seq<Reservation>, run: seq<Execution>,
                                          grants: seq<Grant>, id: Str)
    requires ValidConfig(cfg) && LogFromKnown(known, rs) && ClockOrdered(rs)
    requires Executed(BudgetAware, run) && AcceptedBy(rs, BudgetRun(cfg, rs).1) == Log(run)
    ensures PoolHeld(cfg, run, grants, id)
  {
    BudgetRunRefines(cfg, known, rs, if rs == [] then 0.0 else rs[0].now);
    AcceptedLogReplays(cfg, rs);
    AcceptedFromKnown(known, rs, BudgetRun(cfg, rs).1);
    PooledSpendHeld(cfg, known, BudgetAware, run, grants, id);
  }
}

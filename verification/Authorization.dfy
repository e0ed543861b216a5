/**
  The execution boundary: verify the token, check the call against it, and
  decide which usage records the call must charge.
 */
module Authorization {
  import opened Wrappers
  import opened JsonValues
  import opened TokenClaims
  import opened Decimals
  import opened Verification
  import opened Revocation
  import opened Ledger
  import opened LedgerRuns
  import opened MemoryTrackers
  import UsageTracker
  import RedisProtocol
  import RedisLedger
  import opened Registry

  // What the tracker offers; UsageTracker is (true, false, false), the budget trackers are (true, true, true).
  datatype TrackerKind = NoTracker | Tracker(hasChain: bool, requiresChain: bool, supportsBudgets: bool)

  const PlainTracker: TrackerKind := Tracker(true, false, false)
  const BudgetAware: TrackerKind := Tracker(true, true, true)

  datatype Call = Call(
    token: Token, audience: Option<Str>, capability: Option<Str>,
    params: Option<map<Str, Json>>, amount: Option<Amount>, own: Seen, parents: Seen)

  datatype Charge = NoCharge | Charge(chain: seq<Claims>, amount: Dec)

  const DEFAULT_LEEWAY: int := 2

  /** _stateful: some limit of the token needs a usage record. */
  predicate Stateful(c: Claims) {
    c.constraints.maxCalls.Some? || c.constraints.maxAmountUsd.Some? || c.constraints.rateLimitPerMin.Some?
  }

  /** The checks of the call itself, up to the amount. */
  function CheckCall(c: Claims, kind: TrackerKind, call: Call): Option<Reject> {
    var pins := c.constraints.allowedParams;
    if call.capability.Some? && !CapabilityCovered(call.capability.value, c.capabilities) then Some(CapabilityViolation)
    else if pins != map[] && call.params.None? then Some(ConstraintViolation)
    else if call.params.Some? && !ParamsAllowed(pins, call.params.value) then Some(ConstraintViolation)
    else if c.constraints.sharedBudget.Some? && (kind.NoTracker? || !kind.supportsBudgets) then Some(ConstraintViolation)
    else if Stateful(c) && kind.NoTracker? then Some(ConstraintViolation)
    else if c.constraints.maxAmountUsd.Some? && call.amount.None? then Some(ConstraintViolation)
    else if call.amount.Some? && call.amount.value.Invalid? then Some(ConstraintViolation)
    else None
  }

  /** Which tokens are charged: the whole chain, or the presented token alone. */
  function PlanCharge(c: Claims, kind: TrackerKind, amount: Option<Amount>): Result<Charge, Reject> {
    var resolved := if amount.Some? && amount.value.Valid? then amount.value.d else Zero;
    if kind.NoTracker? then Ok(NoCharge)
    else if c.prf.Some? && (Stateful(c.prf.value.claims) || kind.requiresChain) then
      if kind.hasChain then Ok(Charge([c.prf.value.claims, c], resolved)) else Err(ConstraintViolation)
    else Ok(Charge([c], resolved))
  }

  /** verify_and_check up to the reservation. */
  function Authorize(trust: Trust, kind: TrackerKind, call: Call): Result<Charge, Reject> {
    match Verify(trust, call.token, call.audience, DEFAULT_LEEWAY, call.own, call.parents)
    case Err(e) => Err(e)
    case Ok(c) =>
      if CheckCall(c, kind, call).Some? then Err(CheckCall(c, kind, call).value)
      else PlanCharge(c, kind, call.amount)
  }

  /** With a process-local tracker: whether the call is let through, and the tracker's new contents. */
  function GuardStep(trust: Trust, call: Call, now: real, view: UsageView): (bool, UsageView) {
    match Authorize(trust, PlainTracker, call)
    case Err(_) => (false, view)
    case Ok(NoCharge) => (true, view)
    case Ok(Charge(chain, amount)) => UsageStep(view, Reservation(chain, Valid(amount), now))
  }

  /** A tracker is always charged. */
  lemma PlainPlansCharge(trust: Trust, call: Call)
    ensures Authorize(trust, PlainTracker, call).Ok? ==> Authorize(trust, PlainTracker, call).value.Charge?
  {
  }

  /** verify_and_check with a process-local tracker, or with none. */
  method VerifyAndCheck(trust: Trust, call: Call, tracker: UsageTracker.UsageTracker?, now: real)
    returns (outcome: Result<Claims, Reject>)
    requires tracker != null ==> tracker.Valid()
    modifies tracker, if tracker != null then tracker.Objects() else {}
    ensures tracker != null ==> tracker.Valid() && fresh(tracker.Objects() - old(tracker.Objects()))
    ensures tracker != null ==>
      (outcome.Ok?, tracker.Contents()) == GuardStep(trust, call, now, old(tracker.Contents()))
    ensures tracker == null ==> (outcome.Ok? <==> Authorize(trust, NoTracker, call).Ok?)
    ensures outcome.Ok? ==> outcome.value == call.token.claims
  {
    var kind := if tracker == null then NoTracker else PlainTracker;
    var verified := Verify(trust, call.token, call.audience, DEFAULT_LEEWAY, call.own, call.parents);
    VerifyUnfolds(trust, call.token, call.audience, DEFAULT_LEEWAY, call.own, call.parents);
    if verified.Err? { return Err(verified.error); }
    var c := verified.value;
    var violation := CheckCall(c, kind, call);
    if violation.Some? { return Err(violation.value); }
    var plan := PlanCharge(c, kind, call.amount);
    if tracker == null { return Ok(c); }
    var ok := tracker.CheckAndRecordChain(plan.value.chain, Valid(plan.value.amount), now);
    if !ok { return Err(ConstraintViolation); }
    return Ok(c);
  }

  // ---- Exactly which calls are let through ----------------------------------------------------

  ghost predicate DeclaresLimit(c: Constraints) {
    c.maxCalls.Some? || c.maxAmountUsd.Some? || c.rateLimitPerMin.Some?
  }

  /** The parameters given agree with every pin. */
  ghost predicate AgreesWithPins(params: Option<map<Str, Json>>, pins: map<Str, Json>) {
    forall k :: k in pins ==> params.Some? && k in params.value && JsonEqual(params.value[k], pins[k])
  }

  /** The whole chain is charged, not only the presented token. */
  ghost predicate ChargesParent(c: Claims, kind: TrackerKind) {
    kind.Tracker? && c.prf.Some? && (DeclaresLimit(c.prf.value.claims.constraints) || kind.requiresChain)
  }

  /**
    A verified call is let through to its reservation exactly when its capability
    is covered, its parameters agree with every pin, its amount is valid and given
    where an amount is limited, and there is a tracker able to charge what must be
    charged: any for a limit, one that knows budgets for a shared budget, one that
    takes chains for a limited parent.
   */
  lemma LetThroughExactly(trust: Trust, kind: TrackerKind, call: Call)
    ensures var c := call.token.claims;
      Authorize(trust, kind, call).Ok? <==>
      && Verify(trust, call.token, call.audience, 2, call.own, call.parents).Ok?
      && (call.capability.Some? ==> CapabilityCovered(call.capability.value, c.capabilities))
      && AgreesWithPins(call.params, c.constraints.allowedParams)
      && (c.constraints.sharedBudget.Some? ==> kind.Tracker? && kind.supportsBudgets)
      && (DeclaresLimit(c.constraints) ==> kind.Tracker?)
      && (c.constraints.maxAmountUsd.Some? ==> call.amount.Some?)
      && (call.amount.Some? ==> call.amount.value.Valid?)
      && (ChargesParent(c, kind) ==> kind.hasChain)
    ensures var c := call.token.claims;
      Authorize(trust, kind, call).Ok? ==>
        Authorize(trust, kind, call).value ==
          if kind.NoTracker? then NoCharge
          else Charge(if ChargesParent(c, kind) then [c.prf.value.claims, c] else [c],
                      if call.amount.Some? then call.amount.value.d else Zero)
  {
    VerifyUnfolds(trust, call.token, call.audience, 2, call.own, call.parents);
  }

  // ---- Every limit that applies is charged ---------------------------------------------

  /** What an authorized call went through. */
  lemma AuthorizedCall(trust: Trust, kind: TrackerKind, call: Call)
    requires Authorize(trust, kind, call).Ok?
    ensures Verify(trust, call.token, call.audience, DEFAULT_LEEWAY, call.own, call.parents) == Ok(call.token.claims)
    ensures CheckCall(call.token.claims, kind, call).None?
    ensures PlanCharge(call.token.claims, kind, call.amount) == Authorize(trust, kind, call)
  {
    VerifyUnfolds(trust, call.token, call.audience, DEFAULT_LEEWAY, call.own, call.parents);
  }

  /** A limit of the parent forces the same kind of limit on the child. */
  lemma LimitsAreInherited(parent: Claims, child: Claims)
    requires Attenuated(parent, child)
    ensures Stateful(parent) ==> Stateful(child)
    ensures parent.constraints.maxAmountUsd.Some? ==> child.constraints.maxAmountUsd.Some?
    ensures parent.constraints.sharedBudget.Some? ==> child.constraints.sharedBudget.Some?
  {
  }

  /** Some token of the presented chain carries an amount limit. */
  predicate Budgeted(c: Claims) {
    exists i :: 0 <= i < |ChainOf(c)| && ChainOf(c)[i].constraints.maxAmountUsd.Some?
  }

  /**
    No limit anywhere in the chain goes unpaid: every token that declares one is
    charged, a shared budget is charged through a tracker that knows budgets, and
    a budgeted chain is never charged a defaulted zero.
   */
  lemma NoUnpaidLimit(trust: Trust, kind: TrackerKind, call: Call)
    requires Authorize(trust, kind, call).Ok?
    ensures var c := call.token.claims;
      var charge := Authorize(trust, kind, call).value;
      && (forall i :: 0 <= i < |ChainOf(c)| && Stateful(ChainOf(c)[i]) ==> charge.Charge? && ChainOf(c)[i] in charge.chain)
      && (forall i :: 0 <= i < |ChainOf(c)| && ChainOf(c)[i].constraints.sharedBudget.Some? ==>
            charge.Charge? && kind.supportsBudgets && c in charge.chain)
      && (Budgeted(c) ==> charge.Charge? && call.amount.Some?)
      && (call.amount.Some? ==> call.amount.value.Valid? && (charge.Charge? ==> charge.amount == call.amount.value.d))
      && (charge.Charge? ==> charge.chain == ChainOf(c) || charge.chain == [c])
      && (charge.Charge? && kind.requiresChain ==> charge.chain == ChainOf(c))
  {
    var c := call.token.claims;
    AuthorizedCall(trust, kind, call);
    VerifyUnfolds(trust, call.token, call.audience, DEFAULT_LEEWAY, call.own, call.parents);
    if c.prf.Some? { LimitsAreInherited(c.prf.value.claims, c); }
  }

  /** A tracker without budget support never sees a chain that names a shared budget. */
  lemma PlainTrackersSeeNoBudget(trust: Trust, kind: TrackerKind, call: Call)
    requires Authorize(trust, kind, call).Ok? && Authorize(trust, kind, call).value.Charge?
    requires kind.Tracker? && !kind.supportsBudgets
    ensures ChainWithoutBudget(Authorize(trust, kind, call).value.chain)
  {
    AuthorizedCall(trust, kind, call);
  }

  // ---- Acceptance spans -----------------------------------------------------------------

  /** No tracker, whatever it holds, accepts the reservation: not in memory, not in Go, not through Redis. */
  ghost predicate RefusedEverywhere(r: Reservation) {
    && (forall cfg, book :: Reserve(cfg, book, r).None?)
    && (forall cfg, book :: BudgetReserve(cfg, book, r).None?)
    && (forall view :: !UsageStep(view, r).0)
    && (forall view :: !GoStep(view, r).0)
    && (forall p, s, c :: !RedisAccepts(p, s, c, r))
  }

  /** A Redis client with this reservation passes the re-check in this state. */
  ghost predicate RedisAccepts(p: RedisProtocol.Params, s: RedisLedger.State, c: RedisLedger.Client, r: Reservation) {
    && c.chain == r.chain && c.amount == r.amount && s.clock == r.now
    && c.phase.Reading? && c.amount.Valid? && RedisLedger.RecheckStep(p, s, c).Ready?
  }

  /** Every tracker refuses a chain with a token past its retention. */
  lemma ExpiredIsRefused(r: Reservation)
    requires AnyExpired(r.chain, r.now)
    ensures RefusedEverywhere(r)
  {
    forall cfg ensures Records(cfg, r.chain, r.now).Err? {}
    forall view ensures !GoStep(view, r).0 {
      var i :| 0 <= i < |r.chain| && r.now >= ExpiryOf(r.chain[i]) as real;
      WholeSeconds(r.now, ExpiryOf(r.chain[i]));
      assert !GoAllows(r.chain[i], GoUsageOf(GoPurge(view, r.now), r.chain[i].jti), r.now, AmountOf(r));
    }
  }

  /** The clock is past the epoch and the reservation reads it last. */
  ghost predicate Timely(call: Call, now: real) {
    0.0 <= call.own.now <= now && 0.0 <= call.parents.now <= now
  }

  /** A verified token is charged only within 35 seconds, starting two seconds before its iat. */
  lemma AcceptanceSpan(trust: Trust, kind: TrackerKind, call: Call, now: real, i: nat)
    requires Authorize(trust, kind, call).Ok? && Authorize(trust, kind, call).value.Charge?
    requires Timely(call, now) && !AnyExpired(Authorize(trust, kind, call).value.chain, now)
    requires i < |Authorize(trust, kind, call).value.chain|
    ensures var d := Authorize(trust, kind, call).value.chain[i];
      (d.iat - 2) as real <= now < (d.iat + 33) as real
  {
    var c := call.token.claims;
    AuthorizedCall(trust, kind, call);
    VerifyUnfolds(trust, call.token, call.audience, DEFAULT_LEEWAY, call.own, call.parents);
    WindowInRealTime(c, DEFAULT_LEEWAY, call.own.now);
    if c.prf.Some? { WindowInRealTime(c.prf.value.claims, DEFAULT_LEEWAY, call.parents.now); }
  }

  // ---- Revocation across separate clock readings --------------------------------------------

  // Where in a run of the store the lookups of a call fall, and at which readings.
  datatype Lookups = Lookups(own: nat, ownAt: real, parents: nat, parentsAt: real)

  /** The answers the call saw are the store's, after the operations before each lookup. */
  ghost predicate AnswersFrom(ops: seq<StoreOp>, call: Call, at: Lookups) {
    && OpsOrdered(ops)
    && at.own <= at.parents <= |ops|
    && DoneBy(ops[..at.own], at.ownAt) && DoneBy(ops[..at.parents], at.parentsAt)
    && call.own.revoked == IsRevoked(StoreAfter(ops[..at.own]), call.token.claims.jti, at.ownAt)
    && call.parents.revoked == IsRevoked(StoreAfter(ops[..at.parents]), Root(call.token).claims.jti, at.parentsAt)
  }

  /** Operation i revokes the token with its own expiry. */
  ghost predicate RevokesOwnExpiry(ops: seq<StoreOp>, i: nat, c: Claims)
    requires i < |ops|
  {
    ops[i].Revoke? && ops[i].jti == c.jti && ops[i].expiresAt == c.exp
  }

  lemma RevocationIsSeen(ops: seq<StoreOp>, n: nat, at: real, i: nat, c: Claims)
    requires OpsOrdered(ops) && i < n <= |ops| && DoneBy(ops[..n], at)
    requires RevokesOwnExpiry(ops, i, c) && at < ExpiryOf(c) as real
    ensures IsRevoked(StoreAfter(ops[..n]), c.jti, at)
  {
    assert Reaches(ops[..n][i], c.jti, at);
    RetentionExact(ops[..n], c.jti, at);
  }

  /**
    Once a token was revoked with its own expiry, no later authorization that
    reserves usage succeeds for it or for a child of it, although the window
    check, the lookup and the reservation each read the clock on their own and
    the store may have purged in between.
   */
  lemma RevokedNeverCharged(trust: Trust, kind: TrackerKind, call: Call, ops: seq<StoreOp>, at: Lookups,
                            now: real, i: nat, d: Claims)
    requires AnswersFrom(ops, call, at) && at.ownAt <= now && at.parentsAt <= now
    requires i < if d == call.token.claims then at.own else at.parents
    requires d == call.token.claims || d == Root(call.token).claims
    requires RevokesOwnExpiry(ops, i, d)
    ensures var plan := Authorize(trust, kind, call);
      plan.Ok? && plan.value.Charge? ==> RefusedEverywhere(Reservation(plan.value.chain, Valid(plan.value.amount), now))
  {
    var c := call.token.claims;
    var plan := Authorize(trust, kind, call);
    if plan.Ok? && plan.value.Charge? {
      AuthorizedCall(trust, kind, call);
      VerifyUnfolds(trust, call.token, call.audience, DEFAULT_LEEWAY, call.own, call.parents);
      ChargedChainEndsFirst(c, plan.value, now);
      if now < ExpiryOf(c) as real {
        if d == c {
          RevocationIsSeen(ops, at.own, at.ownAt, i, c);
        } else {
          RevocationIsSeen(ops, at.parents, at.parentsAt, i, d);
        }
      }
      ExpiredIsRefused(Reservation(plan.value.chain, Valid(plan.value.amount), now));
    }
  }

  /** The presented token is the last one charged. */
  lemma ChargedChainEndsFirst(c: Claims, charge: Charge, now: real)
    requires charge.Charge? && (charge.chain == [c] || (c.prf.Some? && charge.chain == [c.prf.value.claims, c]))
    ensures now >= ExpiryOf(c) as real ==> AnyExpired(charge.chain, now)
  {
    assert charge.chain[|charge.chain| - 1] == c;
  }

  /** The same call, had the store known of no revocation. */
  function Unrevoked(call: Call): Call {
    call.(own := Seen(call.own.now, false), parents := Seen(call.parents.now, false))
  }

  /** Revocation is the only thing the store decides, and it decides it by the history. */
  lemma AuthorizeFollowsHistory(trust: Trust, kind: TrackerKind, call: Call, ops: seq<StoreOp>, at: Lookups)
    requires AnswersFrom(ops, call, at) && at.ownAt >= 0.0 && at.parentsAt >= 0.0
    ensures var c := call.token.claims;
      Authorize(trust, kind, call).Ok? <==>
      && Authorize(trust, kind, Unrevoked(call)).Ok?
      && !RevokedInHistory(ops[..at.own], c.jti, at.ownAt)
      && (c.prf.Some? ==> !RevokedInHistory(ops[..at.parents], Root(call.token).claims.jti, at.parentsAt))
  {
    RetentionExact(ops[..at.own], call.token.claims.jti, at.ownAt);
    RetentionExact(ops[..at.parents], Root(call.token).claims.jti, at.parentsAt);
    VerifyUnfolds(trust, call.token, call.audience, DEFAULT_LEEWAY, call.own, call.parents);
    VerifyUnfolds(trust, call.token, call.audience, DEFAULT_LEEWAY, Unrevoked(call).own, Unrevoked(call).parents);
  }

  /** Some operation before position n revokes the token with its own expiry. */
  ghost predicate WasRevoked(ops: seq<StoreOp>, n: nat, c: Claims)
    requires n <= |ops|
  {
    exists i: nat :: i < n && RevokesOwnExpiry(ops, i, c)
  }

  /** Whoever revokes the token names its own expiry. */
  ghost predicate RevokedHonestly(ops: seq<StoreOp>, c: Claims) {
    forall j :: 0 <= j < |ops| && ops[j].Revoke? && ops[j].jti == c.jti ==> ops[j].expiresAt == c.exp
  }

  lemma HistoryOfHonestRevocations(ops: seq<StoreOp>, n: nat, c: Claims, now: real)
    requires n <= |ops| && RevokedHonestly(ops, c)
    ensures RevokedInHistory(ops[..n], c.jti, now) <==> WasRevoked(ops, n, c) && now < ExpiryOf(c) as real
  {
    if i :| 0 <= i < n && Reaches(ops[..n][i], c.jti, now) {
      assert RevokesOwnExpiry(ops, i, c);
    }
    if WasRevoked(ops, n, c) && now < ExpiryOf(c) as real {
      var i: nat :| i < n && RevokesOwnExpiry(ops, i, c);
      assert Reaches(ops[..n][i], c.jti, now);
    }
  }

  /**
    Without a tracker nothing re-reads the clock after the lookups. A call that
    passes every other check is then let through exactly when each token of its
    chain that was revoked is looked up as late as the end of its retention.
   */
  lemma UntrackedRevocation(trust: Trust, call: Call, ops: seq<StoreOp>, at: Lookups)
    requires AnswersFrom(ops, call, at) && at.ownAt >= 0.0 && at.parentsAt >= 0.0
    requires Authorize(trust, NoTracker, Unrevoked(call)).Ok?
    requires RevokedHonestly(ops, call.token.claims) && RevokedHonestly(ops, Root(call.token).claims)
    ensures var c, root := call.token.claims, Root(call.token).claims;
      Authorize(trust, NoTracker, call).Ok? <==>
      && (WasRevoked(ops, at.own, c) ==> at.ownAt >= ExpiryOf(c) as real)
      && (c.prf.Some? && WasRevoked(ops, at.parents, root) ==> at.parentsAt >= ExpiryOf(root) as real)
  {
    AuthorizeFollowsHistory(trust, NoTracker, call, ops, at);
    HistoryOfHonestRevocations(ops, at.own, call.token.claims, at.ownAt);
    HistoryOfHonestRevocations(ops, at.parents, Root(call.token).claims, at.parentsAt);
  }

  /** verify reads the clock four times at most, in this order. */
  ghost predicate ReadInOrder(call: Call, at: Lookups) {
    && call.own.now <= at.ownAt
    && (call.token.claims.prf.Some? ==> at.ownAt <= call.parents.now <= at.parentsAt)
  }

  /** Such a call exists: the window is checked at 12.5 s, the lookup purges at 13 s. */
  lemma UntrackedRevocationGap() returns (trust: Trust, call: Call, ops: seq<StoreOp>, at: Lookups)
    ensures AnswersFrom(ops, call, at) && ReadInOrder(call, at)
    ensures at.own == 1 && |ops| == 1 && RevokesOwnExpiry(ops, 0, call.token.claims)
    ensures Authorize(trust, NoTracker, call) == Ok(NoCharge)
  {
    var claims := Claims([1], [1], [[1]], Unconstrained, 0, 10, [1], None, None);
    trust := SingleKey([7]);
    call := Call(Sign([7], claims), None, None, None, None, Seen(12.5, false), Seen(12.5, false));
    ops := [StoreOp.Revoke([1], 10, 11.0)];
    at := Lookups(1, 13.0, 1, 13.0);
    RetentionExact(ops[..1], [1], 13.0);
  }

  /** And so does one for a child of a revoked parent: the parent's lookup is the late one. */
  lemma UntrackedParentGap() returns (trust: Trust, call: Call, ops: seq<StoreOp>, at: Lookups)
    ensures AnswersFrom(ops, call, at) && ReadInOrder(call, at)
    ensures call.token.claims.prf.Some? && at.own == 1 && |ops| == 1
    ensures RevokesOwnExpiry(ops, 0, Root(call.token).claims)
    ensures Authorize(trust, NoTracker, call) == Ok(NoCharge)
  {
    var parent := Claims([1], [1], [[1]], Unconstrained, 0, 10, [1], Some([2]), None);
    var child := Claims([2], [1], [[1]], Unconstrained, 0, 10, [2], None, Some(Sign([7], parent)));
    trust := Registered(Tables(map[[1] := [[7]]], map[[2] := [[8]]]));
    call := Call(Sign([8], child), None, None, None, None, Seen(12.5, false), Seen(12.5, false));
    ops := [StoreOp.Revoke([1], 10, 11.0)];
    at := Lookups(1, 12.5, 1, 13.0);
    assert StoreAfter(ops[..0]) == map[];
    RetentionExact(ops[..1], [1], 13.0);
    RetentionExact(ops[..1], [2], 12.5);
    CoveredBySome([1], [[1]]);
    assert Covers([[1]][0], [1]);
  }
}

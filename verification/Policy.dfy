/** Issuer policy: the grants a signing key may make, and issuing under them. */
module Policy {
  import opened Wrappers
  import opened JsonValues
  import opened TokenClaims
  import opened Registry
  import opened Verification
  import opened Acceptance

  datatype GrantData = GrantData(
    iss: Str, sub: Str, capabilities: seq<Str>, maxTtl: int,
    maxCalls: Option<nat>, maxAmountUsd: Option<real>, rateLimitPerMin: Option<nat>,
    delegates: seq<Str>, pinnedParams: map<Str, Json>)

  /** The construction-time conditions on a grant. */
  predicate ValidGrant(g: GrantData) {
    && g.iss != [] && g.sub != []
    && g.capabilities != [] && (forall i :: 0 <= i < |g.capabilities| ==> g.capabilities[i] != [])
    && 0 < g.maxTtl <= MAX_TTL_SECONDS
    && (g.maxCalls.Some? ==> g.maxCalls.value >= 1)
    && (g.maxAmountUsd.Some? ==> g.maxAmountUsd.value >= 0.0)
    && (g.rateLimitPerMin.Some? ==> g.rateLimitPerMin.value >= 1)
    && (forall i :: 0 <= i < |g.delegates| ==> g.delegates[i] != [])
  }

  // A grant exists only with valid data: making one from anything else is an error.
  type Grant = g: GrantData | ValidGrant(g)
    witness GrantData([65], [65], [[65]], 1, None, None, None, [], map[])

  function NewGrant(data: GrantData): (made: Result<Grant, Reject>)
    ensures made.Ok? <==> ValidGrant(data)
    ensures made.Ok? ==> made.value == data
  {
    if ValidGrant(data) then Ok(data) else Err(InvalidArgument)
  }

  datatype IssueRequest = IssueRequest(
    iss: Str, sub: Str, capabilities: seq<Str>, constraints: Constraints, ttl: int, dlg: Option<Str>, jti: Str)

  datatype Denial =
    | BeyondCapabilities | BeyondTtl | BeyondCalls | BeyondAmount | BeyondRate
    | MissingPin | MissingBudget | BadDelegate

  /** The shared budget as the JSON value a pin is compared with: absent is null. */
  function BudgetValue(budget: Option<Str>): Json {
    if budget.Some? then String(budget.value) else Null
  }

  /** _grant_denies: the first reason, if any. */
  function GrantDenies(g: Grant, req: IssueRequest): Option<Denial> {
    var c := req.constraints;
    if !CapabilitiesNarrowed(req.capabilities, g.capabilities) then Some(BeyondCapabilities)
    else if req.ttl > g.maxTtl then Some(BeyondTtl)
    else if LimitIsWider(AsReal(c.maxCalls), AsReal(g.maxCalls)) then Some(BeyondCalls)
    else if LimitIsWider(c.maxAmountUsd, g.maxAmountUsd) then Some(BeyondAmount)
    else if LimitIsWider(AsReal(c.rateLimitPerMin), AsReal(g.rateLimitPerMin)) then Some(BeyondRate)
    else if !PinsKept(g.pinnedParams, c.allowedParams) then Some(MissingPin)
    else if BudgetIdName() in g.pinnedParams && BudgetValue(c.sharedBudget) != g.pinnedParams[BudgetIdName()]
    then Some(MissingBudget)
    else if req.dlg.Some? && req.dlg.value !in g.delegates then Some(BadDelegate)
    else None
  }

  predicate Matches(g: Grant, req: IssueRequest) { g.iss == req.iss && g.sub == req.sub }

  /** The grants for this issuer and audience, in order. */
  function Candidates(grants: seq<Grant>, req: IssueRequest): seq<Grant> {
    if grants == [] then []
    else (if Matches(grants[0], req) then [grants[0]] else []) + Candidates(grants[1..], req)
  }

  ghost predicate PolicyAllows(grants: seq<Grant>, req: IssueRequest) {
    exists g :: g in grants && Matches(g, req) && GrantDenies(g, req).None?
  }

  lemma {:induction false} CandidatesAreMatches(grants: seq<Grant>, req: IssueRequest)
    ensures forall g :: g in Candidates(grants, req) <==> g in grants && Matches(g, req)
  {
    if grants != [] {
      CandidatesAreMatches(grants[1..], req);
      assert grants == [grants[0]] + grants[1..];
    }
  }

  /** Every reason is the reason of its candidate. */
  ghost predicate ReasonsFor(candidates: seq<Grant>, req: IssueRequest, reasons: seq<Denial>) {
    |reasons| == |candidates| &&
    forall i :: 0 <= i < |candidates| ==> GrantDenies(candidates[i], req) == Some(reasons[i])
  }

  lemma CandidateAllows(grants: seq<Grant>, req: IssueRequest, g: Grant)
    requires g in Candidates(grants, req) && GrantDenies(g, req).None?
    ensures g in grants && Matches(g, req) && PolicyAllows(grants, req)
  {
    CandidatesAreMatches(grants, req);
  }

  lemma DeniedByAll(grants: seq<Grant>, req: IssueRequest, reasons: seq<Denial>)
    requires ReasonsFor(Candidates(grants, req), req, reasons)
    ensures !PolicyAllows(grants, req)
  {
    CandidatesAreMatches(grants, req);
    forall g | g in Candidates(grants, req) ensures GrantDenies(g, req).Some? {
      var i :| 0 <= i < |Candidates(grants, req)| && Candidates(grants, req)[i] == g;
    }
  }

  lemma ReasonsExtend(candidates: seq<Grant>, i: nat, req: IssueRequest, reasons: seq<Denial>, reason: Denial)
    requires i < |candidates| && ReasonsFor(candidates[..i], req, reasons)
    requires GrantDenies(candidates[i], req) == Some(reason)
    ensures ReasonsFor(candidates[..i + 1], req, reasons + [reason])
  {
    assert candidates[..i + 1] == candidates[..i] + [candidates[i]];
  }

  class IssuerPolicy {
    var grants: seq<Grant>

    constructor (initial: seq<Grant>)
      ensures grants == initial
    {
      grants := initial;
    }

    method Allow(g: Grant)
      modifies this
      ensures grants == old(grants) + [g]
    {
      grants := grants + [g];
    }

    /** Passes exactly when one grant covers the issuance; otherwise says why each candidate did not. */
    method Check(req: IssueRequest) returns (outcome: Result<Grant, seq<Denial>>)
      ensures outcome.Ok? <==> PolicyAllows(grants, req)
      ensures outcome.Ok? ==>
        outcome.value in grants && Matches(outcome.value, req) && GrantDenies(outcome.value, req).None?
      ensures outcome.Err? ==> ReasonsFor(Candidates(grants, req), req, outcome.error)
    {
      var candidates := Candidates(grants, req);
      var reasons: seq<Denial> := [];
      for i := 0 to |candidates|
        invariant ReasonsFor(candidates[..i], req, reasons)
      {
        var reason := GrantDenies(candidates[i], req);
        if reason.None? {
          CandidateAllows(grants, req, candidates[i]);
          return Ok(candidates[i]);
        }
        ReasonsExtend(candidates, i, req, reasons, reason.value);
        reasons := reasons + [reason.value];
      }
      assert candidates[..|candidates|] == candidates;
      DeniedByAll(grants, req, reasons);
      return Err(reasons);
    }
  }

  // ---- Issuing ------------------------------------------------------------------------

  function IssuedClaims(req: IssueRequest, iat: int): Claims {
    Claims(req.iss, req.sub, req.capabilities, req.constraints, iat, iat + req.ttl, req.jti, req.dlg, None)
  }

  /** TokenIssuer.issue with a policy: the key signs nothing the policy does not allow. */
  ghost function Issue(grants: seq<Grant>, key: PublicKey, req: IssueRequest, now: real): Result<Token, Reject> {
    var claims := IssuedClaims(req, IntSeconds(now));
    if !PolicyAllows(grants, req) then Err(PolicyViolation)
    else if !TtlAllowed(req.ttl) then Err(InvalidArgument)
    else if !ValidClaims(claims) then Err(Malformed)
    else Ok(Sign(key, claims))
  }

  /** A grant with valid entries covers no empty capability. */
  lemma NothingCoversEmpty(granted: seq<Str>)
    requires forall i :: 0 <= i < |granted| ==> granted[i] != []
    ensures !CapabilityCovered([], granted)
  {
    CoveredBySome([], granted);
  }

  /** The parts of a request that neither the policy nor the ttl range decides. */
  predicate WellFormedRequest(req: IssueRequest, iat: int) {
    && req.capabilities != [] && req.jti != [] && ValidConstraints(req.constraints)
    && -MAX_SAFE <= iat && iat + req.ttl <= MAX_SAFE
  }

  /**
    Issuing succeeds exactly when the policy allows the request,
    its ttl is positive and its own data is well formed: names, capabilities, the
    delegate and the ttl ceiling are all settled by the grant.
   */
  lemma IssueSucceedsExactly(grants: seq<Grant>, key: PublicKey, req: IssueRequest, now: real)
    ensures Issue(grants, key, req, now).Ok?
       <==> PolicyAllows(grants, req) && req.ttl > 0 && WellFormedRequest(req, IntSeconds(now))
  {
    if PolicyAllows(grants, req) {
      var g :| g in grants && Matches(g, req) && GrantDenies(g, req).None?;
      NothingCoversEmpty(g.capabilities);
      if req.dlg.Some? {
        var i :| 0 <= i < |g.delegates| && g.delegates[i] == req.dlg.value;
      }
    }
  }

  /** An issued token carries what was asked for, under the issuer's key. */
  lemma IssuedCarriesRequest(grants: seq<Grant>, key: PublicKey, req: IssueRequest, now: real)
    requires Issue(grants, key, req, now).Ok?
    ensures var token := Issue(grants, key, req, now).value;
      && token.kid == key && token.signer == Some(key)
      && token.claims.iss == req.iss && token.claims.sub == req.sub
      && token.claims.capabilities == req.capabilities && token.claims.constraints == req.constraints
      && token.claims.iat == IntSeconds(now) && token.claims.exp == token.claims.iat + req.ttl
      && token.claims.jti == req.jti && token.claims.dlg == req.dlg && token.claims.prf.None?
  {
  }

  /**
    An issued token is accepted exactly by the verifiers that trust its key, for
    its audience, within its life and unrevoked, unless it is for delegation.
   */
  lemma IssuedTokenAccepted(grants: seq<Grant>, key: PublicKey, req: IssueRequest, now: real, trusted: PublicKey,
                            ops: seq<Operation>, audience: Option<Str>, leeway: int, own: Seen, parents: Seen)
    requires Issue(grants, key, req, now).Ok? && 0 <= leeway <= 2
    ensures var token := Issue(grants, key, req, now).value;
      Verify(Registered(TablesAfter(ops)), token, audience, leeway, own, parents).Ok? <==>
      && RootInHistory(ops, req.iss, key) && req.dlg.None?
      && InLife(token.claims, leeway, own.now) && !own.revoked && (audience.Some? ==> audience.value == req.sub)
    ensures var token := Issue(grants, key, req, now).value;
      Verify(SingleKey(trusted), token, audience, leeway, own, parents).Ok? <==>
      && trusted == key && req.dlg.None?
      && InLife(token.claims, leeway, own.now) && !own.revoked && (audience.Some? ==> audience.value == req.sub)
  {
    var token := Issue(grants, key, req, now).value;
    RegistryAccepts(ops, token, audience, leeway, own, parents);
    SingleKeyAccepts(trusted, token, audience, leeway, own, parents);
  }

  /** The token was issued by a policy-bound issuer. */
  ghost predicate Issued(grants: seq<Grant>, token: Token) {
    exists key, req, now :: Issue(grants, key, req, now) == Ok(token)
  }

  // ---- What a grant contains -------------------------------------------------------------

  /** Everything the capabilities and constraints leave open is inside the grant. */
  ghost predicate Inside(g: Grant, capabilities: seq<Str>, c: Constraints) {
    && CapabilitiesInside(capabilities, g.capabilities)
    && ParamsInside(c.allowedParams, g.pinnedParams)
    && LimitInside(AsReal(c.maxCalls), AsReal(g.maxCalls))
    && LimitInside(c.maxAmountUsd, g.maxAmountUsd)
    && LimitInside(AsReal(c.rateLimitPerMin), AsReal(g.rateLimitPerMin))
    && (BudgetIdName() in g.pinnedParams ==> PinnedAs(c.sharedBudget, g.pinnedParams[BudgetIdName()]))
  }

  /** The pin names this budget, or is null where there is none. */
  ghost predicate PinnedAs(budget: Option<Str>, pin: Json) {
    match budget
    case Some(id) => pin == String(id)
    case None => pin == Null
  }

  /**
    A grant admits a request exactly when all the authority the token would carry
    is contained in the grant's, and the lifetime and the delegate are allowed.
   */
  lemma GrantMeansContainment(g: Grant, req: IssueRequest)
    ensures GrantDenies(g, req).None?
       <==> && Inside(g, req.capabilities, req.constraints)
            && req.ttl <= g.maxTtl
            && (req.dlg.Some? ==> req.dlg.value in g.delegates)
  {
    var c := req.constraints;
    NarrowedMeansContained(req.capabilities, g.capabilities);
    PinsKeptMeansContained(g.pinnedParams, c.allowedParams);
    NotWiderMeansInside(AsReal(c.maxCalls), AsReal(g.maxCalls));
    NotWiderMeansInside(c.maxAmountUsd, g.maxAmountUsd);
    NotWiderMeansInside(AsReal(c.rateLimitPerMin), AsReal(g.rateLimitPerMin));
  }

  /** Attenuation keeps a token inside whatever grant its parent is inside. */
  lemma AttenuationStaysInside(g: Grant, parent: Claims, child: Claims)
    requires Inside(g, parent.capabilities, parent.constraints)
    requires Attenuated(parent, child) && ValidConstraints(child.constraints)
    ensures Inside(g, child.capabilities, child.constraints)
  {
    var p, c := parent.constraints, child.constraints;
    NarrowedMeansContained(child.capabilities, parent.capabilities);
    PinsKeptMeansContained(p.allowedParams, c.allowedParams);
    NotWiderMeansInside(AsReal(c.maxCalls), AsReal(p.maxCalls));
    NotWiderMeansInside(c.maxAmountUsd, p.maxAmountUsd);
    NotWiderMeansInside(AsReal(c.rateLimitPerMin), AsReal(p.rateLimitPerMin));
    if BudgetIdName() in g.pinnedParams {
      PinsKeptMeansContained(g.pinnedParams, c.allowedParams);
      BudgetPinKept(g.pinnedParams, p, c);
    }
  }

  /** A pinned budget stays the shared budget: the schema ties the two together. */
  lemma BudgetPinKept(pinned: map<Str, Json>, parent: Constraints, child: Constraints)
    requires BudgetIdName() in pinned && PinnedAs(parent.sharedBudget, pinned[BudgetIdName()])
    requires PinsKept(pinned, child.allowedParams) && ValidConstraints(child)
    requires parent.sharedBudget.Some? ==> child.sharedBudget == parent.sharedBudget
    ensures PinnedAs(child.sharedBudget, pinned[BudgetIdName()])
  {
    assert JsonEqual(child.allowedParams[BudgetIdName()], pinned[BudgetIdName()]);
  }
}

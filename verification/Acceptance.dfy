/**
  Exactly which tokens verify, exactly when a child can be minted, and what it
  carries: in terms of the keys trusted, the claims and the request alone.
 */
module Acceptance {
  import opened Wrappers
  import opened JsonValues
  import opened TokenClaims
  import opened Registry
  import opened Verification

  /** The reading, in whole seconds, is within the lifetime widened by the leeway. */
  ghost predicate InLife(c: Claims, leeway: int, now: real) {
    c.iat - leeway <= IntSeconds(now) <= c.exp + leeway
  }

  /** What every accepted token satisfies by itself. */
  ghost predicate Live(token: Token, leeway: int, seen: Seen) {
    && ValidClaims(token.claims)
    && token.signer == Some(token.kid)
    && token.claims.exp - token.claims.iat <= 30
    && InLife(token.claims, leeway, seen.now)
    && !seen.revoked
  }

  /** The child's authority is contained in its parent's. */
  ghost predicate LimitsContained(p: Constraints, c: Constraints) {
    && LimitInside(AsReal(c.maxCalls), AsReal(p.maxCalls))
    && LimitInside(c.maxAmountUsd, p.maxAmountUsd)
    && LimitInside(AsReal(c.rateLimitPerMin), AsReal(p.rateLimitPerMin))
    && ParamsInside(c.allowedParams, p.allowedParams)
    && (p.sharedBudget.Some? ==> c.sharedBudget == p.sharedBudget)
  }

  /** The parent lets this issuer mint this child. */
  ghost predicate Narrower(parent: Claims, child: Claims) {
    && parent.jti != child.jti
    && parent.prf.None? && child.dlg.None?
    && parent.dlg == Some(child.iss) && child.sub == parent.sub
    && parent.iat <= child.iat && child.exp <= parent.exp
    && CapabilitiesInside(child.capabilities, parent.capabilities)
    && LimitsContained(parent.constraints, child.constraints)
  }

  lemma ContainmentExactly(p: Constraints, c: Constraints)
    ensures ConstraintsNotWider(p, c) <==> LimitsContained(p, c)
  {
    NotWiderMeansInside(AsReal(c.maxCalls), AsReal(p.maxCalls));
    NotWiderMeansInside(c.maxAmountUsd, p.maxAmountUsd);
    NotWiderMeansInside(AsReal(c.rateLimitPerMin), AsReal(p.rateLimitPerMin));
    PinsKeptMeansContained(p.allowedParams, c.allowedParams);
  }

  /** The attenuation checks pass exactly when the child's authority is contained in the parent's. */
  lemma AttenuatedExactly(parent: Claims, child: Claims)
    ensures Attenuated(parent, child) <==> Narrower(parent, child)
  {
    NarrowedMeansContained(child.capabilities, parent.capabilities);
    ContainmentExactly(parent.constraints, child.constraints);
  }

  // ---- The schema ----------------------------------------------------------------------------

  /** Limits a token may declare: counts from 1 to 2^53 - 1, amounts from zero. */
  lemma LimitsExactly(c: Constraints)
    requires c.sharedBudget.None?
    ensures ValidConstraints(c) <==>
      && (forall n :: c.maxCalls == Some(n) ==> 1 <= n <= 9007199254740991)
      && (forall n :: c.rateLimitPerMin == Some(n) ==> 1 <= n <= 9007199254740991)
      && (forall x :: c.maxAmountUsd == Some(x) ==> x >= 0.0)
  {
    if c.maxCalls.Some? { assert c.maxCalls == Some(c.maxCalls.value); }
    if c.rateLimitPerMin.Some? { assert c.rateLimitPerMin == Some(c.rateLimitPerMin.value); }
    if c.maxAmountUsd.Some? { assert c.maxAmountUsd == Some(c.maxAmountUsd.value); }
  }

  /** Three upper-case letters. */
  ghost predicate IsCurrency(s: Str) {
    exists a: Unit, b: Unit, c: Unit :: 65 <= a <= 90 && 65 <= b <= 90 && 65 <= c <= 90 && s == [a, b, c]
  }

  /** A shared budget is valid exactly with its id, a safe amount and a currency pinned beside valid limits. */
  lemma SharedBudgetExactly(c: Constraints, id: Str)
    requires c.sharedBudget == Some(id)
    ensures ValidConstraints(c) <==>
      && ValidConstraints(c.(sharedBudget := None))
      && id != []
      && Ascii("budget_id") in c.allowedParams && JsonEqual(c.allowedParams[Ascii("budget_id")], String(id))
      && Ascii("amount_minor") in c.allowedParams
      && (exists n: nat :: n <= 9007199254740991 && JsonEqual(c.allowedParams[Ascii("amount_minor")], Int(n)))
      && Ascii("currency") in c.allowedParams
      && (exists s :: IsCurrency(s) && JsonEqual(c.allowedParams[Ascii("currency")], String(s)))
  {
    var pins := c.allowedParams;
    if PinnedMinor(pins).Some? { PinnedMinorExactly(pins, PinnedMinor(pins).value); }
    if n: nat :| n <= MAX_SAFE && AmountMinorName() in pins && JsonEqual(pins[AmountMinorName()], Int(n)) {
      PinnedMinorExactly(pins, n);
    }
    if CurrencyName() in pins && pins[CurrencyName()].String? {
      var s := pins[CurrencyName()].s;
      assert IsCurrency(s) <==> |s| == 3 && forall i :: 0 <= i < 3 ==> 65 <= s[i] <= 90 by {
        if |s| == 3 { assert s == [s[0], s[1], s[2]]; }
      }
    }
  }

  /** Valid claims name issuer, audience, id and capabilities, end after they begin, and keep to safe integers. */
  lemma ClaimsExactly(c: Claims)
    ensures ValidClaims(c) <==>
      && |c.iss| > 0 && |c.sub| > 0 && |c.jti| > 0 && |c.capabilities| > 0 && [] !in c.capabilities
      && c.dlg != Some([])
      && c.exp > c.iat && c.iat >= -9007199254740991 && c.exp <= 9007199254740991
      && ValidConstraints(c.constraints)
  {
  }

  // ---- A single trusted key ----------------------------------------------------------------

  /**
    With one trusted key a token is accepted exactly when it is a plain token,
    signed by that very key, with valid claims and a lifetime of at most 30
    seconds, read within its life, not revoked, and for this audience.
   */
  lemma SingleKeyAccepts(key: PublicKey, token: Token, audience: Option<Str>, leeway: int, own: Seen, parents: Seen)
    ensures Verify(SingleKey(key), token, audience, leeway, own, parents).Ok? <==>
      && 0 <= leeway <= 2
      && token.claims.prf.None? && token.claims.dlg.None?
      && token.kid == key && token.signer == Some(key)
      && ValidClaims(token.claims) && token.claims.exp - token.claims.iat <= 30
      && InLife(token.claims, leeway, own.now) && !own.revoked
      && (audience.Some? ==> audience.value == token.claims.sub)
    ensures Verify(SingleKey(key), token, audience, leeway, own, parents).Ok?
        ==> Verify(SingleKey(key), token, audience, leeway, own, parents).value == token.claims
  {
  }

  // ---- A registry ------------------------------------------------------------------------------

  lemma CoreExactly(ops: seq<Operation>, token: Token, leeway: int, seen: Seen)
    ensures VerifyCore(Registered(TablesAfter(ops)), token, leeway, seen, false).Ok? <==>
      0 <= leeway <= 2 && Live(token, leeway, seen) && RootInHistory(ops, token.claims.iss, token.kid)
    ensures VerifyCore(Registered(TablesAfter(ops)), token, leeway, seen, true).Ok? <==>
      0 <= leeway <= 2 && Live(token, leeway, seen) && HolderInHistory(ops, token.claims.iss, token.kid)
  {
    KeyCheckFollowsHistory(ops, token);
  }

  /** The parent of a delegated token is acceptable for it. */
  ghost predicate ParentAccepts(ops: seq<Operation>, child: Claims, parent: Token, leeway: int, parents: Seen) {
    && Live(parent, leeway, parents)
    && RootInHistory(ops, parent.claims.iss, parent.kid)
    && Narrower(parent.claims, child)
  }

  /**
    With a registry a plain token is accepted exactly when the history trusts its
    key as a root of its issuer; a delegated one exactly when the history trusts
    its key as a holder of its issuer and its parent's as a root, and its
    authority is contained in the parent's; each live at its own reading.
   */
  lemma RegistryAccepts(ops: seq<Operation>, token: Token, audience: Option<Str>, leeway: int, own: Seen, parents: Seen)
    ensures Verify(Registered(TablesAfter(ops)), token, audience, leeway, own, parents).Ok? <==>
      && 0 <= leeway <= 2 && Live(token, leeway, own)
      && (audience.Some? ==> audience.value == token.claims.sub)
      && match token.claims.prf
         case None => token.claims.dlg.None? && RootInHistory(ops, token.claims.iss, token.kid)
         case Some(parent) =>
           HolderInHistory(ops, token.claims.iss, token.kid) && ParentAccepts(ops, token.claims, parent, leeway, parents)
    ensures Verify(Registered(TablesAfter(ops)), token, audience, leeway, own, parents).Ok?
        ==> Verify(Registered(TablesAfter(ops)), token, audience, leeway, own, parents).value == token.claims
  {
    CoreExactly(ops, token, leeway, own);
    if token.claims.prf.Some? {
      CoreExactly(ops, token.claims.prf.value, leeway, parents);
      AttenuatedExactly(token.claims.prf.value.claims, token.claims);
    }
  }

  // ---- Minting a child ---------------------------------------------------------------------------

  /** A child carries what was asked for, in its parent's name, and embeds the parent. */
  lemma MintedChildCarriesRequest(parent: Token, key: PublicKey, req: ChildRequest, now: real)
    requires Attenuate(parent, key, req, now).Ok?
    ensures var child := Attenuate(parent, key, req, now).value;
      && child.kid == key && child.signer == Some(key)
      && child.claims.iss == req.iss && child.claims.capabilities == req.capabilities
      && child.claims.constraints == req.constraints && child.claims.jti == req.jti
      && child.claims.iat == IntSeconds(now) && child.claims.exp == child.claims.iat + req.ttl
      && child.claims.sub == parent.claims.sub && child.claims.prf == Some(parent) && child.claims.dlg.None?
  {
  }

  /** Capabilities inside valid ones are not empty strings. */
  lemma InsideValidIsValid(inner: seq<Str>, outer: seq<Str>)
    requires CapabilitiesInside(inner, outer) && forall i :: 0 <= i < |outer| ==> outer[i] != []
    ensures forall i :: 0 <= i < |inner| ==> inner[i] != []
  {
    forall i | 0 <= i < |inner| ensures inner[i] != [] {
      CoverageExactly(inner[i], inner);
      CoverageExactly(inner[i], outer);
    }
  }

  /**
    A child is minted exactly when the ttl is from 1 to 30, the parent is a valid
    delegable root within its own life that names the requester, the child's
    lifetime ends within the parent's, its id is its own, and the capabilities,
    limits and pins asked for are contained in the parent's.
   */
  lemma AttenuateExactly(parent: Token, key: PublicKey, req: ChildRequest, now: real)
    ensures Attenuate(parent, key, req, now).Ok? <==>
      && 1 <= req.ttl <= 30
      && ValidClaims(parent.claims) && parent.claims.exp - parent.claims.iat <= 30
      && parent.claims.iat <= IntSeconds(now) && IntSeconds(now) + req.ttl <= parent.claims.exp
      && parent.claims.prf.None? && parent.claims.dlg == Some(req.iss)
      && req.jti != [] && req.jti != parent.claims.jti
      && req.capabilities != [] && CapabilitiesInside(req.capabilities, parent.claims.capabilities)
      && ValidConstraints(req.constraints) && LimitsContained(parent.claims.constraints, req.constraints)
  {
    AttenuatedExactly(parent.claims, ChildClaims(parent, req, IntSeconds(now)));
    if ValidClaims(parent.claims) && CapabilitiesInside(req.capabilities, parent.claims.capabilities) {
      InsideValidIsValid(req.capabilities, parent.claims.capabilities);
    }
  }
}

/**
  Verifying a presented token and its optional parent, and minting a narrower
  child. Each step that reads the clock or the revocation store takes its own
  reading.
 */
module Verification {
  import opened Wrappers
  import opened JsonValues
  import opened TokenClaims
  import opened Registry

  datatype Trust = SingleKey(key: PublicKey) | Registered(tables: Tables)

  datatype Reject =
    | InvalidArgument | Malformed | BadSignature | UnknownKey | Expired | NotYetValid
    | Withdrawn | WrongAudience | BadDelegation | CapabilityViolation | ConstraintViolation | PolicyViolation

  // What one core check saw: its clock reading, and what the store answered afterwards.
  datatype Seen = Seen(now: real, revoked: bool)

  /** A token signed with the key pair of `key`. */
  function Sign(key: PublicKey, claims: Claims): Token {
    Token(key, claims, Some(key))
  }

  // ---- The checks -------------------------------------------------------------------

  /** Only the key named by kid is tried, and it must be trusted in the role asked for. */
  function CheckKey(trust: Trust, token: Token, holder: bool): Option<Reject> {
    match trust
    case Registered(tables) =>
      var listed := ListFor(if holder then tables.holders else tables.keys, token.claims.iss);
      if listed == [] then Some(UnknownKey)
      else if token.kid !in listed || token.signer != Some(token.kid) then Some(BadSignature)
      else None
    case SingleKey(key) =>
      if holder then Some(BadDelegation)
      else if token.kid != key || token.signer != Some(key) then Some(BadSignature)
      else None
  }

  function CheckWindow(c: Claims, leeway: int, now: real): Option<Reject> {
    if IntSeconds(now) < c.iat - leeway then Some(NotYetValid)
    else if IntSeconds(now) > c.exp + leeway then Some(Expired)
    else None
  }

  function VerifyCore(trust: Trust, token: Token, leeway: int, seen: Seen, holder: bool): Result<Claims, Reject> {
    var c := token.claims;
    if !(0 <= leeway <= MAX_LEEWAY_SECONDS) then Err(InvalidArgument)
    else if !ValidClaims(c) then Err(Malformed)
    else if CheckKey(trust, token, holder).Some? then Err(CheckKey(trust, token, holder).value)
    else if c.exp - c.iat > MAX_TTL_SECONDS then Err(Expired)
    else if CheckWindow(c, leeway, seen.now).Some? then Err(CheckWindow(c, leeway, seen.now).value)
    else if seen.revoked then Err(Withdrawn)
    else Ok(c)
  }

  predicate CapabilitiesNarrowed(inner: seq<Str>, outer: seq<Str>) {
    forall i :: 0 <= i < |inner| ==> CapabilityCovered(inner[i], outer)
  }

  /** _assert_constraints_not_wider. */
  predicate ConstraintsNotWider(parent: Constraints, child: Constraints) {
    && (parent.sharedBudget.Some? ==> child.sharedBudget == parent.sharedBudget)
    && !LimitIsWider(AsReal(child.maxCalls), AsReal(parent.maxCalls))
    && !LimitIsWider(child.maxAmountUsd, parent.maxAmountUsd)
    && !LimitIsWider(AsReal(child.rateLimitPerMin), AsReal(parent.rateLimitPerMin))
    && PinsKept(parent.allowedParams, child.allowedParams)
  }

  /** _assert_attenuated. */
  predicate Attenuated(parent: Claims, child: Claims) {
    && parent.jti != child.jti
    && parent.prf.None?
    && parent.dlg == Some(child.iss)
    && child.dlg.None?
    && child.sub == parent.sub
    && parent.iat <= child.iat && child.exp <= parent.exp
    && CapabilitiesNarrowed(child.capabilities, parent.capabilities)
    && ConstraintsNotWider(parent.constraints, child.constraints)
  }

  function Verify(trust: Trust, token: Token, audience: Option<Str>, leeway: int,
                  own: Seen, parents: Seen): Result<Claims, Reject>
  {
    var c := token.claims;
    if !ValidClaims(c) then Err(Malformed)
    else if c.prf.Some? && trust.SingleKey? then Err(BadDelegation)
    else
      match VerifyCore(trust, token, leeway, own, c.prf.Some?)
      case Err(e) => Err(e)
      case Ok(_) =>
        if audience.Some? && audience.value != c.sub then Err(WrongAudience)
        else if c.prf.Some? then VerifyParent(trust, c, c.prf.value, leeway, parents)
        else if c.dlg.Some? then Err(BadDelegation)
        else Ok(c)
  }

  function VerifyParent(trust: Trust, child: Claims, parent: Token, leeway: int, seen: Seen): Result<Claims, Reject> {
    if !ValidClaims(parent.claims) then Err(Malformed)
    else if parent.claims.prf.Some? then Err(BadDelegation)
    else
      match VerifyCore(trust, parent, leeway, seen, false)
      case Err(e) => Err(e)
      case Ok(p) => if Attenuated(p, child) then Ok(child) else Err(BadDelegation)
  }

  /** The token that carries the original grant. */
  function Root(token: Token): Token {
    if token.claims.prf.Some? then token.claims.prf.value else token
  }

  /** Parent and child of a delegated token, or the token alone. */
  function ChainOf(c: Claims): seq<Claims> {
    if c.prf.Some? then [c.prf.value.claims, c] else [c]
  }

  // ---- Acceptance windows in real time ------------------------------------------------

  /**
    Truncating the clock to seconds accepts the whole last second: the window
    reaches to exp + leeway + 1, which is what the retention after exp covers.
   */
  lemma WindowInRealTime(c: Claims, leeway: int, now: real)
    requires now >= 0.0
    ensures CheckWindow(c, leeway, now).None? <==> (c.iat - leeway) as real <= now < (c.exp + leeway + 1) as real
    ensures 0 <= leeway <= MAX_LEEWAY_SECONDS && CheckWindow(c, leeway, now).None?
        ==> now < (c.exp + RETENTION_AFTER_EXP_SECONDS) as real
  {
  }

  // ---- Narrowing is containment of authority --------------------------------------------

  ghost predicate CapabilitiesInside(inner: seq<Str>, outer: seq<Str>) {
    forall cap :: CapabilityCovered(cap, inner) ==> CapabilityCovered(cap, outer)
  }

  /** Entry-by-entry coverage is exactly containment of everything the entries cover. */
  lemma NarrowedMeansContained(inner: seq<Str>, outer: seq<Str>)
    ensures CapabilitiesNarrowed(inner, outer) <==> CapabilitiesInside(inner, outer)
  {
    if CapabilitiesNarrowed(inner, outer) {
      forall cap | CapabilityCovered(cap, inner) ensures CapabilityCovered(cap, outer) {
        CoverageTransitive(cap, inner, outer);
      }
    } else {
      var i :| 0 <= i < |inner| && !CapabilityCovered(inner[i], outer);
      CoveredBySome(inner[i], inner);
      assert Covers(inner[i], inner[i]);
    }
  }

  /** The call parameters agree with every pin. */
  predicate ParamsAllowed(pins: map<Str, Json>, params: map<Str, Json>) {
    PinsKept(pins, params)
  }

  ghost predicate ParamsInside(inner: map<Str, Json>, outer: map<Str, Json>) {
    forall params :: ParamsAllowed(inner, params) ==> ParamsAllowed(outer, params)
  }

  /** Keeping the pins is exactly containment of the parameters they allow. */
  lemma PinsKeptMeansContained(outer: map<Str, Json>, inner: map<Str, Json>)
    ensures PinsKept(outer, inner) <==> ParamsInside(inner, outer)
  {
    if PinsKept(outer, inner) {
      forall params | ParamsAllowed(inner, params) ensures ParamsAllowed(outer, params) {
        PinsKeptTransitive(outer, inner, params);
      }
    } else {
      forall k | k in inner ensures JsonEqual(inner[k], inner[k]) { JsonEqualReflexive(inner[k]); }
      assert ParamsAllowed(inner, inner);
    }
  }

  // ---- What an accepted token proves ------------------------------------------------------

  ghost predicate CoreSound(trust: Trust, token: Token, leeway: int, seen: Seen, holder: bool) {
    && 0 <= leeway <= MAX_LEEWAY_SECONDS
    && ValidClaims(token.claims)
    && CheckKey(trust, token, holder).None?
    && token.claims.exp - token.claims.iat <= MAX_TTL_SECONDS
    && CheckWindow(token.claims, leeway, seen.now).None?
    && !seen.revoked
  }

  lemma VerifyUnfolds(trust: Trust, token: Token, audience: Option<Str>, leeway: int, own: Seen, parents: Seen)
    ensures Verify(trust, token, audience, leeway, own, parents).Ok?
       <==> && CoreSound(trust, token, leeway, own, token.claims.prf.Some?)
            && (audience.Some? ==> audience.value == token.claims.sub)
            && (if token.claims.prf.Some?
                then trust.Registered? && CoreSound(trust, Root(token), leeway, parents, false)
                     && Attenuated(Root(token).claims, token.claims)
                else token.claims.dlg.None?)
    ensures Verify(trust, token, audience, leeway, own, parents).Ok?
        ==> Verify(trust, token, audience, leeway, own, parents).value == token.claims
  {
  }

  /**
    Over any history of registry operations, an accepted token traces back to a
    root key that the history trusts for the root's own issuer, and a delegated
    one also to a holder key registered for the delegate its parent names.
   */
  lemma {:induction false} AcceptedTokensAreRooted(ops: seq<Operation>, token: Token, audience: Option<Str>, leeway: int,
                                own: Seen, parents: Seen)
    requires Verify(Registered(TablesAfter(ops)), token, audience, leeway, own, parents).Ok?
    ensures var root := Root(token);
      && root.claims.prf.None?
      && root.signer == Some(root.kid)
      && RootInHistory(ops, root.claims.iss, root.kid)
    ensures token.claims.exp - token.claims.iat <= MAX_TTL_SECONDS
    ensures Root(token).claims.exp - Root(token).claims.iat <= MAX_TTL_SECONDS
    ensures token.claims.dlg.None? && (audience.Some? ==> audience.value == token.claims.sub)
    ensures token.claims.prf.Some? ==>
      && token.signer == Some(token.kid)
      && Root(token).claims.dlg == Some(token.claims.iss)
      && HolderInHistory(ops, token.claims.iss, token.kid)
  {
    var root := Root(token);
    VerifyUnfolds(Registered(TablesAfter(ops)), token, audience, leeway, own, parents);
    RootsAreHistory(ops, root.claims.iss, root.kid);
    HoldersAreHistory(ops, token.claims.iss, token.kid);
  }

  ghost predicate HolderOnly(ops: seq<Operation>, key: PublicKey) {
    forall i :: 0 <= i < |ops| && ops[i].Register? ==> ops[i].key != key
  }

  /** A key that was only ever registered as a holder never validates a token without a parent. */
  lemma {:induction false} HolderKeyIsNeverARoot(ops: seq<Operation>, token: Token, audience: Option<Str>, leeway: int,
                              own: Seen, parents: Seen)
    requires HolderOnly(ops, token.kid) && token.claims.prf.None?
    ensures Verify(Registered(TablesAfter(ops)), token, audience, leeway, own, parents).Err?
  {
    if Verify(Registered(TablesAfter(ops)), token, audience, leeway, own, parents).Ok? {
      AcceptedTokensAreRooted(ops, token, audience, leeway, own, parents);
    }
  }

  // ---- Attenuation ---------------------------------------------------------------------------

  datatype ChildRequest = ChildRequest(
    iss: Str, capabilities: seq<Str>, constraints: Constraints, ttl: int, jti: Str)

  function ChildClaims(parent: Token, req: ChildRequest, iat: int): Claims {
    Claims(req.iss, parent.claims.sub, req.capabilities, req.constraints,
           iat, iat + req.ttl, req.jti, None, Some(parent))
  }

  predicate TtlAllowed(ttl: int) { 0 < ttl <= MAX_TTL_SECONDS }

  /** CapabilityToken.attenuate; the fresh token id is part of the request. */
  function Attenuate(parent: Token, key: PublicKey, req: ChildRequest, now: real): Result<Token, Reject> {
    var p := parent.claims;
    var child := ChildClaims(parent, req, IntSeconds(now));
    if !TtlAllowed(req.ttl) then Err(InvalidArgument)
    else if !ValidClaims(p) then Err(Malformed)
    else if p.exp - p.iat > MAX_TTL_SECONDS then Err(Expired)
    else if IntSeconds(now) < p.iat then Err(NotYetValid)
    else if IntSeconds(now) > p.exp then Err(Expired)
    else if !ValidClaims(child) then Err(Malformed)
    else if !Attenuated(p, child) then Err(BadDelegation)
    else Ok(Sign(key, child))
  }

  lemma KeyCheckFollowsHistory(ops: seq<Operation>, token: Token)
    ensures CheckKey(Registered(TablesAfter(ops)), token, false).None?
       <==> RootInHistory(ops, token.claims.iss, token.kid) && token.signer == Some(token.kid)
    ensures CheckKey(Registered(TablesAfter(ops)), token, true).None?
       <==> HolderInHistory(ops, token.claims.iss, token.kid) && token.signer == Some(token.kid)
  {
    RootsAreHistory(ops, token.claims.iss, token.kid);
    HoldersAreHistory(ops, token.claims.iss, token.kid);
  }

  /**
    A child minted from a genuinely signed parent is accepted exactly while the
    registry trusts the parent's key as a root and the child's key as a holder,
    neither token is revoked, and each clock reading is inside its token's
    leeway window.
   */
  lemma MintedChildAccepted(ops: seq<Operation>, parent: Token, key: PublicKey, req: ChildRequest, minted: real,
                            audience: Option<Str>, leeway: int, own: Seen, parents: Seen)
    requires Attenuate(parent, key, req, minted).Ok? && parent.signer == Some(parent.kid)
    requires 0 <= leeway <= MAX_LEEWAY_SECONDS
    requires audience.None? || audience == Some(parent.claims.sub)
    ensures var child := Attenuate(parent, key, req, minted).value;
      Verify(Registered(TablesAfter(ops)), child, audience, leeway, own, parents).Ok?
      <==>
      && RootInHistory(ops, parent.claims.iss, parent.kid) && HolderInHistory(ops, req.iss, key)
      && !own.revoked && !parents.revoked
      && CheckWindow(child.claims, leeway, own.now).None? && CheckWindow(parent.claims, leeway, parents.now).None?
  {
    var child := Attenuate(parent, key, req, minted).value;
    VerifyUnfolds(Registered(TablesAfter(ops)), child, audience, leeway, own, parents);
    KeyCheckFollowsHistory(ops, parent);
    KeyCheckFollowsHistory(ops, child);
  }

  /**
    Attenuation completeness: once the holder key is registered, and while the
    parent's key stays trusted, the child is accepted at every instant of its
    own leeway window, because that window lies inside the parent's.
   */
  lemma AttenuationComplete(ops: seq<Operation>, parent: Token, first: Seen, firstLeeway: int,
                            key: PublicKey, req: ChildRequest, minted: real, leeway: int, t: real, u: real)
    requires VerifyCore(Registered(TablesAfter(ops)), parent, firstLeeway, first, false).Ok?
    requires Attenuate(parent, key, req, minted).Ok? && HolderInHistory(ops, req.iss, key)
    requires 0 <= leeway <= MAX_LEEWAY_SECONDS
    requires CheckWindow(Attenuate(parent, key, req, minted).value.claims, leeway, t).None?
    requires CheckWindow(Attenuate(parent, key, req, minted).value.claims, leeway, u).None?
    ensures var child := Attenuate(parent, key, req, minted).value;
      && Verify(Registered(TablesAfter(ops)), child, Some(parent.claims.sub), leeway, Seen(t, false), Seen(u, false))
         == Ok(child.claims)
      && Root(child) == parent
      && CheckWindow(parent.claims, leeway, t).None? && CheckWindow(parent.claims, leeway, u).None?
  {
    var child := Attenuate(parent, key, req, minted).value;
    KeyCheckFollowsHistory(ops, parent);
    MintedChildAccepted(ops, parent, key, req, minted, Some(parent.claims.sub), leeway, Seen(t, false), Seen(u, false));
    VerifyUnfolds(Registered(TablesAfter(ops)), child, Some(parent.claims.sub), leeway, Seen(t, false), Seen(u, false));
  }
}

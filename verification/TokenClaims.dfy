/**
  Capability claims, and the two orders that delegation and policy narrow
  along: wildcard coverage of capabilities and optional numeric limits.
 */
module TokenClaims {
  import opened Wrappers
  import opened JsonValues

  const MAX_TTL_SECONDS: int := 30
  const MAX_LEEWAY_SECONDS: int := 2
  // Integer-second verification accepts the entire exp + leeway second.
  const RETENTION_AFTER_EXP_SECONDS: int := 3

  const STAR: Unit := 42

  type PublicKey = seq<Unit>

  datatype Constraints = Constraints(
    maxCalls: Option<nat>,
    maxAmountUsd: Option<real>,
    rateLimitPerMin: Option<nat>,
    allowedParams: map<Str, Json>,
    sharedBudget: Option<Str>)

  datatype Claims = Claims(
    iss: Str,
    sub: Str,
    capabilities: seq<Str>,
    constraints: Constraints,
    iat: int,
    exp: int,
    jti: Str,
    dlg: Option<Str>,
    prf: Option<Token>)

  // A parsed token. `signer` is the one key, if any, under which the signature
  // segment verifies over this header and payload.
  datatype Token = Token(kid: PublicKey, claims: Claims, signer: Option<PublicKey>)

  const Unconstrained: Constraints := Constraints(None, None, None, map[], None)

  function AmountMinorName(): Str { Ascii("amount_minor") }
  function CurrencyName(): Str { Ascii("currency") }
  function BudgetIdName(): Str { Ascii("budget_id") }

  /** The pinned amount in minor units, when it is a non-negative safe integer. */
  function PinnedMinor(pins: map<Str, Json>): Option<nat> {
    if AmountMinorName() !in pins then None else
      match pins[AmountMinorName()]
      case Int(n) => if 0 <= n <= MAX_SAFE then Some(n) else None
      case Float(r) =>
        if 0.0 <= r <= MAX_SAFE as real && r.Floor as real == r then Some(r.Floor) else None
      case _ => None
  }

  /** The pinned amount is n exactly when the pin is the number n, as an integer or as a float. */
  lemma PinnedMinorExactly(pins: map<Str, Json>, n: nat)
    ensures PinnedMinor(pins) == Some(n)
       <==> n <= MAX_SAFE && AmountMinorName() in pins && JsonEqual(pins[AmountMinorName()], Int(n))
  {
    if AmountMinorName() in pins && pins[AmountMinorName()].Float? {
      var r := pins[AmountMinorName()].r;
      assert r == n as real ==> r.Floor == n;
    }
  }

  /** The schema conditions on constraints. */
  predicate ValidConstraints(c: Constraints) {
    && (c.maxCalls.Some? ==> 1 <= c.maxCalls.value <= MAX_SAFE)
    && (c.maxAmountUsd.Some? ==> 0.0 <= c.maxAmountUsd.value)
    && (c.rateLimitPerMin.Some? ==> 1 <= c.rateLimitPerMin.value <= MAX_SAFE)
    && (c.sharedBudget.Some? ==>
          && c.sharedBudget.value != []
          && BudgetIdName() in c.allowedParams
          && c.allowedParams[BudgetIdName()] == String(c.sharedBudget.value)
          && PinnedMinor(c.allowedParams).Some?
          && CurrencyName() in c.allowedParams
          && c.allowedParams[CurrencyName()].String?
          && |c.allowedParams[CurrencyName()].s| == 3
          && forall i :: 0 <= i < 3 ==> 65 <= c.allowedParams[CurrencyName()].s[i] <= 90)
  }

  /** The schema conditions on claims. */
  predicate ValidClaims(c: Claims) {
    && c.iss != [] && c.sub != [] && c.jti != []
    && c.capabilities != []
    && (forall i :: 0 <= i < |c.capabilities| ==> c.capabilities[i] != [])
    && ValidConstraints(c.constraints)
    && -MAX_SAFE <= c.iat < c.exp <= MAX_SAFE
    && (c.dlg.Some? ==> c.dlg.value != [])
  }

  /** int(time.time()): truncation toward zero. */
  function IntSeconds(t: real): int {
    if t >= 0.0 then t.Floor else -((-t).Floor)
  }

  /** The whole seconds of a reading are the integer next to it on the side of zero. */
  lemma IntSecondsTruncates(t: real, n: int)
    ensures IntSeconds(t) == n
       <==> if t >= 0.0 then n as real <= t < (n + 1) as real else (n - 1) as real < t <= n as real
  {
    if t < 0.0 {
      assert (-t).Floor as real <= -t < (-t).Floor as real + 1.0;
    }
  }

  // ---- Capabilities ----------------------------------------------------------

  /** `item` ends with ":*". */
  predicate IsWildcard(item: Str) {
    |item| >= 2 && item[|item| - 2] == COLON && item[|item| - 1] == STAR
  }

  /** One granted entry covers the capability. */
  predicate Covers(item: Str, capability: Str) {
    capability == item || (IsWildcard(item) && item[..|item| - 1] <= capability)
  }

  /** capability_covered: the first entry that covers the capability decides. */
  predicate CapabilityCovered(capability: Str, granted: seq<Str>) {
    granted != [] && (Covers(granted[0], capability) || CapabilityCovered(capability, granted[1..]))
  }

  lemma {:induction false} CoveredBySome(capability: Str, granted: seq<Str>)
    ensures CapabilityCovered(capability, granted)
       <==> exists i :: 0 <= i < |granted| && Covers(granted[i], capability)
  {
    if granted != [] {
      CoveredBySome(capability, granted[1..]);
      if i :| 0 <= i < |granted| && Covers(granted[i], capability) && i > 0 {
        assert granted[1..][i - 1] == granted[i];
      }
      if i :| 0 <= i < |granted[1..]| && Covers(granted[1..][i], capability) {
        assert granted[i + 1] == granted[1..][i];
      }
    }
  }

  /** What a granted entry is worth: itself, or everything that starts with what precedes its star. */
  ghost predicate NamesOrPrefixes(item: Str, capability: Str) {
    item == capability || exists p: Str :: item == p + Ascii(":*") && p + Ascii(":") <= capability
  }

  lemma CoversMeans(item: Str, capability: Str)
    ensures Covers(item, capability) <==> NamesOrPrefixes(item, capability)
  {
    if IsWildcard(item) {
      var p := item[..|item| - 2];
      assert item == p + Ascii(":*");
      assert item[..|item| - 1] == p + Ascii(":");
    }
    if p: Str :| item == p + Ascii(":*") && p + Ascii(":") <= capability {
      assert item[..|item| - 1] == p + Ascii(":");
      assert item[|item| - 2] == Ascii(":*")[0] && item[|item| - 1] == Ascii(":*")[1];
    }
  }

  /**
    A capability is covered exactly when it is listed, or some entry is a prefix
    followed by ":*" and the capability starts with that prefix and ":".
   */
  lemma CoverageExactly(capability: Str, granted: seq<Str>)
    ensures CapabilityCovered(capability, granted) <==>
      || capability in granted
      || (exists i, p: Str :: 0 <= i < |granted| && granted[i] == p + Ascii(":*") && p + Ascii(":") <= capability)
  {
    CoveredBySome(capability, granted);
    if i :| 0 <= i < |granted| && Covers(granted[i], capability) {
      CoversMeans(granted[i], capability);
    }
    if i :| 0 <= i < |granted| && granted[i] == capability {
      CoversMeans(granted[i], capability);
    }
    if i, p: Str :| 0 <= i < |granted| && granted[i] == p + Ascii(":*") && p + Ascii(":") <= capability {
      CoversMeans(granted[i], capability);
    }
  }

  // A wildcard ends with '*', so it can never be a prefix ending with ':'.
  lemma CoversTransitive(a: Str, b: Str, c: Str)
    requires Covers(a, b) && Covers(b, c)
    ensures Covers(a, c)
  {
    if a != b && b != c {
      var p := a[..|a| - 1];
      var q := b[..|b| - 1];
      assert p[|p| - 1] == COLON;
      assert |p| != |b|;
      assert p == b[..|p|] == q[..|p|];
      assert q == c[..|q|];
      assert p == c[..|p|];
    }
  }

  /** Coverage composes: what narrows a narrowed set narrows the original set. */
  lemma {:induction false} CoverageTransitive(capability: Str, middle: seq<Str>, outer: seq<Str>)
    requires CapabilityCovered(capability, middle)
    requires forall i :: 0 <= i < |middle| ==> CapabilityCovered(middle[i], outer)
    ensures CapabilityCovered(capability, outer)
  {
    CoveredBySome(capability, middle);
    var i :| 0 <= i < |middle| && Covers(middle[i], capability);
    CoveredBySome(middle[i], outer);
    var j :| 0 <= j < |outer| && Covers(outer[j], middle[i]);
    CoversTransitive(outer[j], middle[i], capability);
    CoveredBySome(capability, outer);
  }

  // ---- Optional limits -------------------------------------------------------

  /** limit_is_wider: an absent limit is unlimited. */
  predicate LimitIsWider(child: Option<real>, parent: Option<real>) {
    parent.Some? && (child.None? || child.value > parent.value)
  }

  function AsReal(limit: Option<nat>): Option<real> {
    match limit
    case None => None
    case Some(n) => Some(n as real)
  }

  /** A spend within the narrower limit is within the wider one. */
  ghost predicate Within(spend: real, limit: Option<real>) {
    limit.Some? ==> spend <= limit.value
  }

  ghost predicate LimitInside(inner: Option<real>, outer: Option<real>) {
    forall spend :: Within(spend, inner) ==> Within(spend, outer)
  }

  lemma NotWiderMeansInside(child: Option<real>, parent: Option<real>)
    ensures !LimitIsWider(child, parent) <==> LimitInside(child, parent)
  {
    if LimitIsWider(child, parent) {
      var spend := if child.None? then parent.value + 1.0 else child.value;
      assert Within(spend, child) && !Within(spend, parent);
    }
  }

  /** Every pin of `outer` is kept, unchanged up to JSON equality, by `inner`. */
  predicate PinsKept(outer: map<Str, Json>, inner: map<Str, Json>) {
    forall k :: k in outer ==> k in inner && JsonEqual(inner[k], outer[k])
  }

  lemma PinsKeptTransitive(a: map<Str, Json>, b: map<Str, Json>, c: map<Str, Json>)
    requires PinsKept(a, b) && PinsKept(b, c)
    ensures PinsKept(a, c)
  {
    forall k | k in a ensures k in c && JsonEqual(c[k], a[k]) {
      JsonEqualTransitive(c[k], b[k], a[k]);
    }
  }
}

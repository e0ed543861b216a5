/**
  The Node twin of the ledger: totals by text arithmetic, counts in binary64.
  It accepts the same charges and stores the same entries as the Python ledger.
 */
module NodeLedger {
  import opened Wrappers
  import opened JsonValues
  import opened TokenClaims
  import opened Decimals
  import opened DecimalText
  import opened Ledger
  import opened BudgetTracker

  const TWO_53: nat := 0x20_0000_0000_0000

  /** The nearest double, ties to even: exact up to 2^53, even numbers up to 2^54. */
  function RoundDouble(n: nat): nat
    requires n <= 2 * TWO_53
  {
    if n <= TWO_53 || n % 2 == 0 then n
    else if n % 4 == 1 then n - 1
    else n + 1
  }

  /**
    Above 2^53 doubles are two apart: an even number is held exactly, and an odd
    one goes to its neighbour with an even half, the multiple of four beside it.
   */
  lemma RoundsHalfToEven(q: nat, r: nat)
    requires r < 4 && 4 * q + r <= 2 * 9007199254740992
    ensures RoundDouble(4 * q + r) ==
      if 4 * q + r <= 9007199254740992 || r == 0 || r == 2 then 4 * q + r
      else if r == 1 then 4 * q
      else 4 * (q + 1)
  {
    RemainderOfFour(q, r);
    RemainderOfTwo(q, r);
  }

  lemma RemainderOfFour(q: nat, r: nat)
    requires r < 4
    ensures (4 * q + r) % 4 == r
  {
  }

  lemma RemainderOfTwo(q: nat, r: nat)
    requires r < 4
    ensures (4 * q + r) % 2 == r % 2
  {
    assert r == 0 || r == 1 || r == 2 || r == 3;
    Parity(2 * q + r / 2, r % 2);
  }

  lemma Parity(half: nat, odd: nat)
    requires odd < 2
    ensures (2 * half + odd) % 2 == odd
  {
  }

  /** Rounding never moves a sum of two safe integers across a safe limit. */
  lemma RoundingKeepsOrder(n: nat, limit: nat)
    requires n <= 2 * TWO_53 && limit <= MAX_SAFE
    ensures RoundDouble(n) > limit <==> n > limit
    ensures n <= limit ==> RoundDouble(n) == n
  {
  }

  // Decimal text as a runtime handles it: which texts are numerals and what they are
  // worth, addAmounts, and amountExceeds.
  datatype Arith = Arith(
    isNumeral: string -> bool, value: string -> real,
    sum: (string, string) -> string, exceeds: (string, string) -> bool)

  function NodeSum(left: string, right: string): string {
    if IsNumeral(left) && IsNumeral(right) then AddAmounts(left, right) else "0"
  }

  predicate NodeExceeds(left: string, right: string) {
    IsNumeral(left) && IsNumeral(right) && AmountExceeds(left, right)
  }

  const NodeArith: Arith := Arith(IsNumeral, s => Val(ReadTotal(s)), NodeSum, NodeExceeds)

  /** Sums print like Python's and comparisons decide the true order. */
  ghost predicate SumsAlike(arith: Arith, codec: Codec, left: string, amount: string, d: Dec) {
    arith.isNumeral(left) && arith.isNumeral(amount) && arith.value(amount) == Val(d) ==>
      && arith.isNumeral(arith.sum(left, amount))
      && arith.sum(left, amount) == codec.show(Add(codec.read(left), d))
      && arith.value(arith.sum(left, amount)) == Val(Add(codec.read(left), d))
  }

  ghost predicate OrdersTruly(arith: Arith, left: string, right: string) {
    arith.isNumeral(left) && arith.isNumeral(right) ==>
      (arith.exceeds(left, right) <==> arith.value(left) > arith.value(right))
  }

  ghost predicate Alike(arith: Arith, codec: Codec) {
    && arith.isNumeral("0")
    && (forall left, amount, d :: SumsAlike(arith, codec, left, amount, d))
    && (forall left, right :: OrdersTruly(arith, left, right))
  }

  /** addAmounts and amountExceeds against Decimal and _decimal_text. */
  lemma {:induction false} NodeAlikePython()
    ensures Alike(NodeArith, PythonCodec)
  {
    DigitsAreNumeral("0");
    forall left, amount, d ensures SumsAlike(NodeArith, PythonCodec, left, amount, d) {
      if IsNumeral(left) && IsNumeral(amount) && Val(Parse(amount)) == Val(d) {
        SumPrintsAlike(left, amount, d);
      }
    }
    forall left, right ensures OrdersTruly(NodeArith, left, right) {
      if IsNumeral(left) && IsNumeral(right) { AmountExceedsExact(left, right); }
    }
  }

  lemma SumPrintsAlike(left: string, amount: string, d: Dec)
    requires IsNumeral(left) && IsNumeral(amount) && Val(Parse(amount)) == Val(d)
    ensures IsNumeral(AddAmounts(left, amount))
    ensures AddAmounts(left, amount) == PythonText(Add(Parse(left), d))
    ensures Val(Parse(AddAmounts(left, amount))) == Val(Add(Parse(left), d))
  {
    AddAmountsExact(left, amount);
    AddExact(Parse(left), d);
    PythonTextExact(Add(Parse(left), d));
    CanonicalUnique(AddAmounts(left, amount), PythonText(Add(Parse(left), d)));
  }

  /** What an entry satisfies after fewer than 2^53 charges. */
  predicate Storable(arith: Arith, e: StoredEntry) {
    e.calls <= MAX_SAFE && e.minor <= MAX_SAFE && arith.isNumeral(e.usd)
  }

  function BaseOf(current: Option<StoredEntry>): StoredEntry {
    if current.Some? then current.value else StoredEntry(0, "0", 0, [], 0)
  }

  /** Node's pending; `limit` and `amount` are the texts String gives for the two numbers. */
  function NodePending(arith: Arith, rec: Record, limit: string, current: Option<StoredEntry>, now: real, amount: string)
    : Option<StoredEntry>
    requires rec.minor <= MAX_SAFE && Storable(arith, BaseOf(current))
  {
    var base := BaseOf(current);
    var calls := RoundDouble(base.calls + 1);
    var usd := arith.sum(base.usd, amount);
    var minor := RoundDouble(base.minor + rec.minor);
    var recent := Recent(base.stamps, now - 60.0);
    if Exceeds(calls, rec.calls) then None
    else if rec.usd.Some? && arith.exceeds(usd, limit) then None
    else if Exceeds(|recent| + 1, rec.rate) then None
    else if Exceeds(minor, rec.minorLimit) then None
    else Some(StoredEntry(calls, usd, minor, if rec.rate.Some? then recent + [now] else [], rec.expiry))
  }

  // ---- Node's own records ------------------------------------------------------------------

  /** Number.isSafeInteger and not negative; one number type, so 5 and 5.0 are alike. */
  predicate NodeSafe(v: Json) {
    match v
    case Int(n) => 0 <= n <= MAX_SAFE
    case Float(r) => 0.0 <= r <= MAX_SAFE as real && r == r.Floor as real
    case _ => false
  }

  function NodeNumber(v: Json): nat
    requires NodeSafe(v)
  {
    match v
    case Int(n) => n
    case Float(r) => r.Floor
  }

  /** A property of the pins, where a missing one is undefined. */
  function Property(pins: map<Str, Json>, name: Str): Option<Json> {
    if name in pins then Some(pins[name]) else None
  }

  /** chain.map over the tokens, which stops at the first expired one. */
  function NodeTokenRecords(chain: seq<Claims>, now: real): Result<seq<Record>, Refusal> {
    if chain == [] then Ok([])
    else if now >= (chain[0].exp + RETENTION_AFTER_EXP_SECONDS) as real then Err(TokenExpired)
    else
      match NodeTokenRecords(chain[1..], now)
      case Err(e) => Err(e)
      case Ok(rest) => Ok([TokenRecord(chain[0])] + rest)
  }

  /** Node's records: ids counted in a Set, tokens mapped in order, then the shared budget. */
  function NodeRecords(cfg: Config, chain: seq<Claims>, now: real): Result<seq<Record>, Refusal> {
    var ids := set i | 0 <= i < |chain| :: chain[i].jti;
    if chain == [] || |ids| != |chain| then Err(Denied)
    else
      match NodeTokenRecords(chain, now)
      case Err(e) => Err(e)
      case Ok(records) =>
        var last := chain[|chain| - 1].constraints;
        var pins := last.allowedParams;
        if last.sharedBudget.None? && !cfg.requireBudget then Ok(records)
        else if last.sharedBudget.None? || last.sharedBudget.value !in cfg.rules then Err(Denied)
        else
          var rule := cfg.rules[last.sharedBudget.value];
          var amount := Property(pins, AmountMinorName());
          if chain[0].iss !in rule.issuers then Err(Denied)
          else if now >= rule.expiresAt as real then Err(Denied)
          else if amount.None? || !NodeSafe(amount.value) then Err(Denied)
          else if Property(pins, CurrencyName()) != Some(String(rule.currency)) then Err(Denied)
          else Ok(records + [Record(BudgetKey(rule.id), rule.expiresAt, rule.maxCalls, None, None,
                                    Some(rule.maxAmountMinor), NodeNumber(amount.value))])
  }

  /** A Set of the ids has as many members as the chain exactly when they differ. */
  lemma {:induction false} IdSetCounts(chain: seq<Claims>)
    ensures var ids := set i | 0 <= i < |chain| :: chain[i].jti;
      |ids| <= |chain| && (|ids| == |chain| <==> DistinctIds(chain))
  {
    if chain != [] {
      var n := |chain| - 1;
      var front := chain[..n];
      IdSetCounts(front);
      var ids, some := set i | 0 <= i < |chain| :: chain[i].jti, set i | 0 <= i < n :: front[i].jti;
      assert ids == some + {chain[n].jti} by {
        forall i | 0 <= i < n ensures chain[i].jti == front[i].jti {}
      }
      assert forall i :: 0 <= i < n ==> front[i] == chain[i];
      if chain[n].jti in some {
        var i :| 0 <= i < n && front[i].jti == chain[n].jti;
        assert chain[i].jti == chain[n].jti;
        assert ids == some;
      }
    }
  }

  lemma {:induction false} TokenRecordsAgree(chain: seq<Claims>, now: real)
    ensures NodeTokenRecords(chain, now) == if AnyExpired(chain, now) then Err(TokenExpired) else Ok(TokenRecords(chain))
  {
    if chain != [] {
      var rest := chain[1..];
      TokenRecordsAgree(rest, now);
      assert forall i :: 0 <= i < |rest| ==> rest[i] == chain[i + 1];
      assert AnyExpired(chain, now) <==> now >= ExpiryOf(chain[0]) as real || AnyExpired(rest, now) by {
        if i :| 0 <= i < |chain| && now >= ExpiryOf(chain[i]) as real && i > 0 {
          assert now >= ExpiryOf(rest[i - 1]) as real;
        }
        if i :| 0 <= i < |rest| && now >= ExpiryOf(rest[i]) as real {
          assert now >= ExpiryOf(chain[i + 1]) as real;
        }
      }
      assert TokenRecords(chain) == [TokenRecord(chain[0])] + TokenRecords(rest);
    }
  }

  /** Node and Python charge the same records, or refuse for the same reason. */
  lemma NodeRecordsAgree(cfg: Config, chain: seq<Claims>, now: real)
    ensures NodeRecords(cfg, chain, now) == Records(cfg, chain, now)
  {
    IdSetCounts(chain);
    TokenRecordsAgree(chain, now);
    assert TokenRecords(chain) + [] == TokenRecords(chain);
  }

  // ---- Node's pending ------------------------------------------------------------------------

  /** What every record of a chain satisfies. */
  ghost predicate Chargeable(rec: Record) {
    && rec.minor <= MAX_SAFE
    && (if rec.minorLimit.Some? then rec.minorLimit.value <= MAX_SAFE else rec.minor == 0)
  }

  lemma RecordsAreChargeable(cfg: Config, chain: seq<Claims>, now: real, i: nat)
    requires ValidConfig(cfg) && Records(cfg, chain, now).Ok? && i < |Records(cfg, chain, now).value|
    ensures Chargeable(Records(cfg, chain, now).value[i])
  {
    if i < |chain| { assert Records(cfg, chain, now).value[i] == TokenRecord(chain[i]); }
  }

  lemma MinorAgrees(rec: Record, minor: nat)
    requires Chargeable(rec) && minor <= MAX_SAFE
    ensures Exceeds(RoundDouble(minor + rec.minor), rec.minorLimit) <==> Exceeds(minor + rec.minor, rec.minorLimit)
    ensures !Exceeds(minor + rec.minor, rec.minorLimit) ==>
      RoundDouble(minor + rec.minor) == minor + rec.minor && minor + rec.minor <= MAX_SAFE
  {
    RoundingKeepsOrder(minor + rec.minor, if rec.minorLimit.Some? then rec.minorLimit.value else MAX_SAFE);
  }

  /** The texts denote the numbers of the charge, in whatever notation they are printed. */
  ghost predicate Denote(arith: Arith, rec: Record, limit: string, amount: string, d: Dec) {
    && arith.isNumeral(amount) && arith.value(amount) == Val(d)
    && (rec.usd.Some? ==> arith.isNumeral(limit) && arith.value(limit) == rec.usd.value)
  }

  /**
    Node and Python take the same decision on every charge and produce the very
    same entry, although Node counts and adds minor units in double precision.
   */
  lemma NodePendingAgrees(arith: Arith, codec: Codec, rec: Record, limit: string, current: Option<StoredEntry>,
                          now: real, amount: string, d: Dec)
    requires Alike(arith, codec) && Denote(arith, rec, limit, amount, d)
    requires Chargeable(rec) && Storable(arith, BaseOf(current))
    ensures NodePending(arith, rec, limit, current, now, amount) == StoredPending(codec, rec, current, now, d)
    ensures var next := NodePending(arith, rec, limit, current, now, amount);
      next.Some? ==>
        && next.value.calls == BaseOf(current).calls + 1
        && (BaseOf(current).calls < MAX_SAFE ==> Storable(arith, next.value))
  {
    var base := BaseOf(current);
    assert SumsAlike(arith, codec, base.usd, amount, d);
    assert OrdersTruly(arith, arith.sum(base.usd, amount), limit);
    MinorAgrees(rec, base.minor);
  }
}

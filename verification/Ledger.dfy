/**
  The accounting rules of the usage and budget ledger, and the ideal ledger
  that never forgets an entry. Every concrete tracker is proved against it.
 */
module Ledger {
  import opened Wrappers
  import opened JsonValues
  import opened TokenClaims
  import opened Decimals
  import opened Maps

  datatype Rule = Rule(
    id: Str, issuers: set<Str>, currency: Str,
    maxAmountMinor: nat, expiresAt: int, maxCalls: Option<nat>)

  datatype Config = Config(rules: map<Str, Rule>, requireBudget: bool)

  /** The construction-time conditions on budget rules. */
  ghost predicate ValidConfig(cfg: Config) {
    forall id :: id in cfg.rules ==>
      && cfg.rules[id].id == id
      && cfg.rules[id].maxAmountMinor <= MAX_SAFE
      && 0 < cfg.rules[id].expiresAt <= MAX_SAFE
      && (cfg.rules[id].maxCalls.Some? ==> 1 <= cfg.rules[id].maxCalls.value <= MAX_SAFE)
  }

  // Stands for the SHA-256 of ["token", jti] or ["budget", id].
  datatype Key = TokenKey(jti: Str) | BudgetKey(id: Str)

  datatype Record = Record(
    key: Key, expiry: int,
    calls: Option<nat>, usd: Option<real>, rate: Option<nat>,
    minorLimit: Option<nat>, minor: nat)

  datatype Entry = Entry(calls: nat, usd: real, minor: nat, stamps: seq<real>, expiry: int)

  type Book = map<Key, Entry>

  // Booleans, non-numbers, non-finite and negative amounts are Invalid.
  datatype Amount = Valid(d: Dec) | Invalid

  datatype Reservation = Reservation(chain: seq<Claims>, amount: Amount, now: real)

  datatype Refusal = Denied | TokenExpired

  // ---- Which records a chain charges ----------------------------------------

  predicate DistinctIds(chain: seq<Claims>) {
    forall i, j :: 0 <= i < j < |chain| ==> chain[i].jti != chain[j].jti
  }

  function ExpiryOf(c: Claims): int { c.exp + RETENTION_AFTER_EXP_SECONDS }

  predicate AnyExpired(chain: seq<Claims>, now: real) {
    exists i :: 0 <= i < |chain| && now >= ExpiryOf(chain[i]) as real
  }

  function TokenRecord(c: Claims): Record {
    Record(TokenKey(c.jti), ExpiryOf(c), c.constraints.maxCalls, c.constraints.maxAmountUsd,
           c.constraints.rateLimitPerMin, None, 0)
  }

  function TokenRecords(chain: seq<Claims>): (recs: seq<Record>)
    ensures |recs| == |chain|
    ensures forall i :: 0 <= i < |chain| ==> recs[i] == TokenRecord(chain[i])
  {
    seq(|chain|, i requires 0 <= i < |chain| => TokenRecord(chain[i]))
  }

  /** The shared budget charged by the chain: none, one record, or a refusal. */
  function BudgetRecords(cfg: Config, chain: seq<Claims>, now: real): Result<seq<Record>, Refusal>
    requires chain != []
  {
    var last := chain[|chain| - 1].constraints;
    if last.sharedBudget.None? then
      if cfg.requireBudget then Err(Denied) else Ok([])
    else if last.sharedBudget.value !in cfg.rules then Err(Denied)
    else
      var rule := cfg.rules[last.sharedBudget.value];
      if chain[0].iss !in rule.issuers then Err(Denied)
      else if now >= rule.expiresAt as real then Err(Denied)
      else if PinnedMinor(last.allowedParams).None? then Err(Denied)
      else if CurrencyName() !in last.allowedParams
           || last.allowedParams[CurrencyName()] != String(rule.currency) then Err(Denied)
      else Ok([Record(BudgetKey(rule.id), rule.expiresAt, rule.maxCalls, None, None,
                      Some(rule.maxAmountMinor), PinnedMinor(last.allowedParams).value)])
  }

  /** All records of a chain: one per token, then the shared budget. */
  function Records(cfg: Config, chain: seq<Claims>, now: real): Result<seq<Record>, Refusal> {
    if chain == [] || !DistinctIds(chain) then Err(Denied)
    else if AnyExpired(chain, now) then Err(TokenExpired)
    else
      match BudgetRecords(cfg, chain, now)
      case Err(e) => Err(e)
      case Ok(budget) => Ok(TokenRecords(chain) + budget)
  }

  ghost predicate DistinctRecords(recs: seq<Record>) {
    forall i, j :: 0 <= i < j < |recs| ==> recs[i].key != recs[j].key
  }

  /** Token and budget records never share a key. */
  lemma RecordsDistinct(cfg: Config, chain: seq<Claims>, now: real)
    requires Records(cfg, chain, now).Ok?
    ensures DistinctRecords(Records(cfg, chain, now).value)
    ensures Records(cfg, chain, now).value != []
  {
  }

  /** The records do not depend on the clock, only whether there are any does. */
  lemma RecordsTimeless(cfg: Config, chain: seq<Claims>, now: real, later: real)
    requires Records(cfg, chain, now).Ok? && Records(cfg, chain, later).Ok?
    ensures Records(cfg, chain, now) == Records(cfg, chain, later)
  {
  }

  /** A chain that is chargeable at `now` has no record that is due by then. */
  lemma RecordsUnexpired(cfg: Config, chain: seq<Claims>, now: real, i: nat)
    requires Records(cfg, chain, now).Ok? && i < |Records(cfg, chain, now).value|
    ensures now < Records(cfg, chain, now).value[i].expiry as real
  {
    if i < |chain| {
      assert !(now >= ExpiryOf(chain[i]) as real);
    }
  }

  // ---- Charging one record ---------------------------------------------------

  /** Timestamps still inside the sliding window. */
  function Recent(stamps: seq<real>, cutoff: real): seq<real> {
    if stamps == [] then []
    else (if stamps[0] >= cutoff then [stamps[0]] else []) + Recent(stamps[1..], cutoff)
  }

  predicate Exceeds(spend: nat, limit: Option<nat>) {
    limit.Some? && spend > limit.value
  }

  /** The entry after one charge, or None when a limit refuses it. */
  function Pending(rec: Record, current: Option<Entry>, now: real, amount: real): Option<Entry> {
    var base := if current.Some? then current.value else Entry(0, 0.0, 0, [], 0);
    var calls := base.calls + 1;
    var total := base.usd + amount;
    var minor := base.minor + rec.minor;
    var recent := Recent(base.stamps, now - 60.0);
    if Exceeds(calls, rec.calls) then None
    else if rec.usd.Some? && total > rec.usd.value then None
    else if Exceeds(|recent| + 1, rec.rate) then None
    else if Exceeds(minor, rec.minorLimit) then None
    else Some(Entry(calls, total, minor, if rec.rate.Some? then recent + [now] else [], rec.expiry))
  }

  // ---- Charging a chain, all or nothing --------------------------------------

  function Get<V>(book: map<Key, V>, k: Key): Option<V> {
    if k in book then Some(book[k]) else None
  }

  predicate AllPending(book: Book, recs: seq<Record>, now: real, amount: real) {
    forall i :: 0 <= i < |recs| ==> Pending(recs[i], Get(book, recs[i].key), now, amount).Some?
  }

  function Charged(book: Book, recs: seq<Record>, now: real, amount: real): (entries: seq<Entry>)
    requires AllPending(book, recs, now, amount)
    ensures |entries| == |recs|
    ensures forall i :: 0 <= i < |recs| ==>
      entries[i] == Pending(recs[i], Get(book, recs[i].key), now, amount).value
  {
    seq(|recs|, i requires 0 <= i < |recs| => Pending(recs[i], Get(book, recs[i].key), now, amount).value)
  }

  function KeysOf(recs: seq<Record>): (ks: seq<Key>)
    ensures |ks| == |recs|
  {
    seq(|recs|, i requires 0 <= i < |recs| => recs[i].key)
  }

  /** The book with the entry of each record replaced. */
  function Write<V>(book: map<Key, V>, recs: seq<Record>, entries: seq<V>): map<Key, V>
    requires |recs| == |entries|
  {
    Assign(book, KeysOf(recs), entries)
  }

  function RecordKeys(recs: seq<Record>): set<Key> {
    set i | 0 <= i < |recs| :: recs[i].key
  }

  lemma WriteEffect<V>(book: map<Key, V>, recs: seq<Record>, entries: seq<V>)
    requires |recs| == |entries| && DistinctRecords(recs)
    ensures Write(book, recs, entries).Keys == book.Keys + RecordKeys(recs)
    ensures forall i :: 0 <= i < |recs| ==> Write(book, recs, entries)[recs[i].key] == entries[i]
    ensures forall k :: k in book && k !in RecordKeys(recs) ==> Write(book, recs, entries)[k] == book[k]
  {
    var ks := KeysOf(recs);
    AssignEffect(book, ks, entries);
    assert RecordKeys(recs) == KeySetOf(ks) by {
      forall i | 0 <= i < |recs| ensures recs[i].key in KeySetOf(ks) { assert ks[i] == recs[i].key; }
    }
    forall i | 0 <= i < |recs| ensures Write(book, recs, entries)[recs[i].key] == entries[i] {
      assert ks[i] == recs[i].key;
    }
  }

  /** One reservation against the ideal ledger: every record is charged, or None. */
  function Reserve(cfg: Config, book: Book, r: Reservation): Option<Book> {
    if r.amount.Invalid? then None
    else
      match Records(cfg, r.chain, r.now)
      case Err(_) => None
      case Ok(recs) =>
        var amount := Val(r.amount.d);
        if AllPending(book, recs, r.now, amount)
        then Some(Write(book, recs, Charged(book, recs, r.now, amount)))
        else None
  }

  /** The ledger after a sequence of accepted reservations, if each is accepted in turn. */
  function Replay(cfg: Config, log: seq<Reservation>): Option<Book> {
    if log == [] then Some(map[])
    else
      match Replay(cfg, log[..|log| - 1])
      case None => None
      case Some(book) => Reserve(cfg, book, log[|log| - 1])
  }

  lemma ReplayExtend(cfg: Config, log: seq<Reservation>, r: Reservation)
    ensures Replay(cfg, log + [r]) ==
      match Replay(cfg, log) { case None => None case Some(book) => Reserve(cfg, book, r) }
  {
    assert (log + [r])[..|log|] == log;
  }

  // ---- What a key is worth, once ids determine claims -------------------------

  type Known = map<Str, Claims>

  /** Every token of the chain is the one its id stands for. */
  predicate FromKnown(known: Known, chain: seq<Claims>) {
    forall i :: 0 <= i < |chain| ==> chain[i].jti in known && known[chain[i].jti] == chain[i]
  }

  ghost predicate LogFromKnown(known: Known, log: seq<Reservation>) {
    forall i :: 0 <= i < |log| ==> FromKnown(known, log[i].chain)
  }

  predicate HasTemplate(cfg: Config, known: Known, k: Key) {
    match k
    case TokenKey(jti) => jti in known
    case BudgetKey(id) => id in cfg.rules
  }

  /** The limits and the expiry that every record with this key carries. */
  function Template(cfg: Config, known: Known, k: Key): Record
    requires HasTemplate(cfg, known, k)
  {
    match k
    case TokenKey(jti) => TokenRecord(known[jti])
    case BudgetKey(id) =>
      var rule := cfg.rules[id];
      Record(k, rule.expiresAt, rule.maxCalls, None, None, Some(rule.maxAmountMinor), 0)
  }

  lemma RecordsFollowTemplate(cfg: Config, known: Known, chain: seq<Claims>, now: real, i: nat)
    requires ValidConfig(cfg) && FromKnown(known, chain)
    requires Records(cfg, chain, now).Ok? && i < |Records(cfg, chain, now).value|
    ensures var rec := Records(cfg, chain, now).value[i];
      HasTemplate(cfg, known, rec.key) &&
      rec.(minor := 0) == Template(cfg, known, rec.key).(key := rec.key, minor := 0)
  {
    var rec := Records(cfg, chain, now).value[i];
    if i < |chain| {
      assert rec == TokenRecord(chain[i]);
    }
  }
}

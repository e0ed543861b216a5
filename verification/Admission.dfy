/**
  Exactly which reservations the ledger accepts, said in terms of the history
  of accepted ones: no charge is let through beyond a limit and none is refused
  below it.
 */
module Admission {
  import opened Wrappers
  import opened JsonValues
  import opened TokenClaims
  import opened Ledger
  import opened LedgerRuns

  // ---- Which chains can be charged at all -----------------------------------------------

  /** The presented token names no budget, or names one that its chain may charge now. */
  ghost predicate BudgetInOrder(cfg: Config, root: Claims, last: Claims, now: real) {
    var pins := last.constraints.allowedParams;
    match last.constraints.sharedBudget
    case None => !cfg.requireBudget
    case Some(id) =>
      && id in cfg.rules
      && root.iss in cfg.rules[id].issuers
      && now < cfg.rules[id].expiresAt as real
      && PinnedMinor(pins).Some?
      && CurrencyName() in pins && pins[CurrencyName()] == String(cfg.rules[id].currency)
  }

  /** What the chain charges to a key: a token its own record, the named budget its pinned amount. */
  ghost predicate ChargesKey(chain: seq<Claims>, k: Key)
    requires chain != []
  {
    match k
    case TokenKey(jti) => exists i :: 0 <= i < |chain| && chain[i].jti == jti
    case BudgetKey(id) => chain[|chain| - 1].constraints.sharedBudget == Some(id)
  }

  /** A chain is chargeable exactly when its ids differ, none has expired, and its budget is in order. */
  lemma ChargeableExactly(cfg: Config, chain: seq<Claims>, now: real)
    ensures Records(cfg, chain, now).Ok? <==>
      && chain != []
      && DistinctIds(chain)
      && (forall i :: 0 <= i < |chain| ==> now < ExpiryOf(chain[i]) as real)
      && BudgetInOrder(cfg, chain[0], chain[|chain| - 1], now)
  {
    if !AnyExpired(chain, now) {
      forall i | 0 <= i < |chain| ensures now < ExpiryOf(chain[i]) as real {
        assert !(now >= ExpiryOf(chain[i]) as real);
      }
    }
  }

  lemma FindsExactly(recs: seq<Record>, k: Key)
    ensures FindRecord(recs, k).Some? <==> exists i :: 0 <= i < |recs| && recs[i].key == k
  {
  }

  /** A chargeable chain charges one record per token and its named budget, and nothing else. */
  lemma {:induction false} ChargesExactly(cfg: Config, r: Reservation, k: Key)
    requires ValidConfig(cfg) && Records(cfg, r.chain, r.now).Ok?
    ensures r.chain != []
    ensures ChargeOn(cfg, r, k).Some? <==> ChargesKey(r.chain, k)
    ensures ChargeOn(cfg, r, k).Some? && k.BudgetKey? ==>
      Some(ChargeOn(cfg, r, k).value.minor) == PinnedMinor(r.chain[|r.chain| - 1].constraints.allowedParams)
    ensures ChargeOn(cfg, r, k).Some? && k.TokenKey? ==> ChargeOn(cfg, r, k).value.minor == 0
  {
    var recs := Records(cfg, r.chain, r.now).value;
    FindsExactly(recs, k);
    assert forall i :: 0 <= i < |r.chain| ==> recs[i].key == TokenKey(r.chain[i].jti);
    if |recs| > |r.chain| {
      assert recs[|r.chain|].key == BudgetKey(r.chain[|r.chain| - 1].constraints.sharedBudget.value);
    }
  }

  // ---- Which charges are accepted -------------------------------------------------------

  lemma {:induction false} RecentCounts(stamps: seq<real>, cutoff: real)
    ensures |Recent(stamps, cutoff)| == CountFrom(stamps, cutoff)
  {
    if stamps != [] {
      RecentCounts(stamps[1..], cutoff);
      CountFromConcat([stamps[0]], stamps[1..], cutoff);
      assert [stamps[0]] + stamps[1..] == stamps;
      assert CountFrom([stamps[0]], cutoff) == if stamps[0] >= cutoff then 1 else 0;
    }
  }

  /** One more charge on the key keeps it within the limits of the record, counted from the history. */
  ghost predicate RoomFor(cfg: Config, log: seq<Reservation>, rec: Record, amount: real, now: real) {
    && WithinCount(Calls(cfg, log, rec.key) + 1, rec.calls)
    && Within(Spent(cfg, log, rec.key) + amount, rec.usd)
    && WithinCount(Minor(cfg, log, rec.key) + rec.minor, rec.minorLimit)
    && WithinCount(CountFrom(Times(cfg, log, rec.key), now - 60.0) + 1, rec.rate)
  }

  /** The stamps a record keeps count the acceptances of the last sixty seconds. */
  lemma StampsCount(cfg: Config, known: Known, log: seq<Reservation>, k: Key, now: real)
    requires ValidConfig(cfg) && LogFromKnown(known, log) && Replay(cfg, log).Some?
    requires HasRate(cfg, known, k) && Ascending(Times(cfg, log, k) + [now])
    ensures var e := Get(Replay(cfg, log).value, k);
      |Recent(if e.Some? then e.value.stamps else [], now - 60.0)| == CountFrom(Times(cfg, log, k), now - 60.0)
  {
    var times := Times(cfg, log, k);
    InOrderBefore(times, now);
    StampsOfRun(cfg, known, log, k);
    StampedCount(Get(Replay(cfg, log).value, k), times, now);
  }

  lemma InOrderBefore(times: seq<real>, now: real)
    requires Ascending(times + [now])
    ensures Ascending(times) && (times != [] ==> times[|times| - 1] <= now)
  {
    assert times == (times + [now])[..|times|];
    if times != [] {
      assert (times + [now])[|times| - 1] <= (times + [now])[|times|];
    }
  }

  lemma StampedCount(e: Option<Entry>, times: seq<real>, now: real)
    requires Stamped(e, times) && (times != [] ==> times[|times| - 1] <= now)
    ensures |Recent(if e.Some? then e.value.stamps else [], now - 60.0)| == CountFrom(times, now - 60.0)
  {
    RecentCounts(if e.Some? then e.value.stamps else [], now - 60.0);
  }

  lemma PendingAdmits(cfg: Config, known: Known, log: seq<Reservation>, rec: Record, amount: real, now: real)
    requires ValidConfig(cfg) && LogFromKnown(known, log) && Replay(cfg, log).Some?
    requires HasTemplate(cfg, known, rec.key) && rec.rate == Template(cfg, known, rec.key).rate
    requires Ascending(Times(cfg, log, rec.key) + [now])
    ensures Pending(rec, Get(Replay(cfg, log).value, rec.key), now, amount).Some?
       <==> RoomFor(cfg, log, rec, amount, now)
  {
    Conservation(cfg, log, rec.key);
    if rec.rate.Some? {
      StampsCount(cfg, known, log, rec.key, now);
    }
  }

  /**
    Exact admission: after any history, a reservation with a valid amount is
    accepted if and only if its chain is chargeable and every record it charges,
    counted over the whole history, has room for it.
   */
  lemma {:induction false} AdmitsExactly(cfg: Config, known: Known, log: seq<Reservation>, r: Reservation)
    requires ValidConfig(cfg) && LogFromKnown(known, log) && FromKnown(known, r.chain) && Replay(cfg, log).Some?
    requires r.amount.Valid? && forall k :: Ascending(Times(cfg, log, k) + [r.now])
    ensures Replay(cfg, log + [r]).Some? <==>
      && Records(cfg, r.chain, r.now).Ok?
      && forall i :: 0 <= i < |Records(cfg, r.chain, r.now).value| ==>
           RoomFor(cfg, log, Records(cfg, r.chain, r.now).value[i], AmountOf(r), r.now)
  {
    ReplayExtend(cfg, log, r);
    if Records(cfg, r.chain, r.now).Ok? {
      var recs, book := Records(cfg, r.chain, r.now).value, Replay(cfg, log).value;
      forall i | 0 <= i < |recs|
        ensures Pending(recs[i], Get(book, recs[i].key), r.now, AmountOf(r)).Some?
           <==> RoomFor(cfg, log, recs[i], AmountOf(r), r.now)
      {
        RecordsFollowTemplate(cfg, known, r.chain, r.now, i);
        PendingAdmits(cfg, known, log, recs[i], AmountOf(r), r.now);
      }
    }
  }
}

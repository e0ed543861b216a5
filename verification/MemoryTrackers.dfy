/**
  The three in-memory trackers as functions on their state, and the theorem
  that they accept exactly the same reservations in every run.

  They differ in when they purge (first or last), in what they store (decimal
  text, a Decimal or a rational; stamps always or only under a rate limit) and
  in how they compare the clock (real seconds or whole Unix seconds).
 */
module MemoryTrackers {
  import opened Wrappers
  import opened JsonValues
  import opened TokenClaims
  import opened Decimals
  import opened Maps
  import opened Ledger
  import opened LedgerRuns

  // ---- BudgetUsageTracker: read and check first, purge last ---------------------

  function PurgeBook(book: Book, now: real): Book {
    map k | k in book && book[k].expiry as real > now :: book[k]
  }

  /** One call of BudgetUsageTracker.check_and_record_chain; None leaves the entries alone. */
  function BudgetReserve(cfg: Config, book: Book, r: Reservation): Option<Book> {
    if r.amount.Invalid? then None
    else
      match Records(cfg, r.chain, r.now)
      case Err(_) => None
      case Ok(recs) =>
        var amount := Val(r.amount.d);
        if AllPending(book, recs, r.now, amount)
        then Some(Write(PurgeBook(book, r.now), recs, Charged(book, recs, r.now, amount)))
        else None
  }

  // ---- UsageTracker: purge first, keep the longest retention ---------------------

  datatype Usage = Usage(calls: nat, spent: Dec, stamps: seq<real>, expiresAt: int)

  const NoUsage: Usage := Usage(0, Zero, [], 0)

  type UsageView = map<Str, Usage>

  function PurgeUsage(view: UsageView, now: real): UsageView {
    map j | j in view && view[j].expiresAt as real > now :: view[j]
  }

  function UsageOf(view: UsageView, jti: Str): Usage {
    if jti in view then view[jti] else NoUsage
  }

  predicate UsageAllows(c: Claims, u: Usage, now: real, amount: Dec) {
    && !Exceeds(u.calls + 1, c.constraints.maxCalls)
    && !(c.constraints.maxAmountUsd.Some? && Val(Add(u.spent, amount)) > c.constraints.maxAmountUsd.value)
    && !Exceeds(|Recent(u.stamps, now - 60.0)| + 1, c.constraints.rateLimitPerMin)
  }

  function UsageNext(c: Claims, u: Usage, now: real, amount: Dec): Usage {
    Usage(u.calls + 1, Add(u.spent, amount), Recent(u.stamps, now - 60.0) + [now],
          if u.expiresAt >= ExpiryOf(c) then u.expiresAt else ExpiryOf(c))
  }

  predicate UsageAllowsAll(view: UsageView, chain: seq<Claims>, now: real, amount: Dec) {
    forall i :: 0 <= i < |chain| ==> UsageAllows(chain[i], UsageOf(view, chain[i].jti), now, amount)
  }

  function IdsOf(chain: seq<Claims>): (ids: seq<Str>)
    ensures |ids| == |chain|
  {
    seq(|chain|, i requires 0 <= i < |chain| => chain[i].jti)
  }

  function UsagesNext(view: UsageView, chain: seq<Claims>, now: real, amount: Dec): (us: seq<Usage>)
    ensures |us| == |chain|
  {
    seq(|chain|, i requires 0 <= i < |chain| => UsageNext(chain[i], UsageOf(view, chain[i].jti), now, amount))
  }

  /** Every token of the chain charged, from the usage it had before. */
  function UsageCharge(view: UsageView, chain: seq<Claims>, now: real, amount: Dec): UsageView {
    Assign(view, IdsOf(chain), UsagesNext(view, chain, now, amount))
  }

  /** One call of UsageTracker.check_and_record_chain: whether it is accepted, and the new state. */
  function UsageStep(view: UsageView, r: Reservation): (bool, UsageView) {
    if r.amount.Invalid? || r.chain == [] || !DistinctIds(r.chain) || AnyExpired(r.chain, r.now) then (false, view)
    else
      var kept := PurgeUsage(view, r.now);
      if UsageAllowsAll(kept, r.chain, r.now, r.amount.d)
      then (true, UsageCharge(kept, r.chain, r.now, r.amount.d))
      else (false, kept)
  }

  // ---- Go's MemoryUsageTracker: purge always, whole Unix seconds ------------------

  datatype GoUsage = GoUsage(calls: nat, amount: real, stamps: seq<real>, expiry: int)

  const NoGoUsage: GoUsage := GoUsage(0, 0.0, [], 0)

  type GoView = map<Str, GoUsage>

  function GoPurge(view: GoView, now: real): GoView {
    map j | j in view && now.Floor < view[j].expiry :: view[j]
  }

  function GoUsageOf(view: GoView, jti: Str): GoUsage {
    if jti in view then view[jti] else NoGoUsage
  }

  predicate GoAllows(c: Claims, u: GoUsage, now: real, amount: real) {
    && now.Floor < c.exp + 3
    && !Exceeds(u.calls + 1, c.constraints.maxCalls)
    && !(c.constraints.maxAmountUsd.Some? && u.amount + amount > c.constraints.maxAmountUsd.value)
    && !Exceeds(|Recent(u.stamps, now - 60.0)| + 1, c.constraints.rateLimitPerMin)
  }

  function GoNext(c: Claims, u: GoUsage, now: real, amount: real): GoUsage {
    GoUsage(u.calls + 1, u.amount + amount, Recent(u.stamps, now - 60.0) + [now], c.exp + 3)
  }

  function GoUsagesNext(view: GoView, chain: seq<Claims>, now: real, amount: real): (us: seq<GoUsage>)
    ensures |us| == |chain|
  {
    seq(|chain|, i requires 0 <= i < |chain| => GoNext(chain[i], GoUsageOf(view, chain[i].jti), now, amount))
  }

  predicate GoAllowsAll(view: GoView, chain: seq<Claims>, now: real, amount: real) {
    DistinctIds(chain) &&
    forall i :: 0 <= i < |chain| ==> GoAllows(chain[i], GoUsageOf(view, chain[i].jti), now, amount)
  }

  /** One call of Reserve: whether it is accepted, and the new state. */
  function GoStep(view: GoView, r: Reservation): (bool, GoView) {
    if r.amount.Invalid? then (false, view)
    else
      var kept := GoPurge(view, r.now);
      var amount := Val(r.amount.d);
      if r.chain != [] && GoAllowsAll(kept, r.chain, r.now, amount)
      then (true, Assign(kept, IdsOf(r.chain), GoUsagesNext(kept, r.chain, r.now, amount)))
      else (false, kept)
  }

  // ---- Runs -------------------------------------------------------------------------

  function IdealRun(cfg: Config, rs: seq<Reservation>): (run: (Book, seq<bool>))
    ensures |run.1| == |rs|
  {
    if rs == [] then (map[], [])
    else
      var n := |rs| - 1;
      var (book, oks) := IdealRun(cfg, rs[..n]);
      match Reserve(cfg, book, rs[n])
      case None => (book, oks + [false])
      case Some(next) => (next, oks + [true])
  }

  function BudgetRun(cfg: Config, rs: seq<Reservation>): (run: (Book, seq<bool>))
    ensures |run.1| == |rs|
  {
    if rs == [] then (map[], [])
    else
      var n := |rs| - 1;
      var (book, oks) := BudgetRun(cfg, rs[..n]);
      match BudgetReserve(cfg, book, rs[n])
      case None => (book, oks + [false])
      case Some(next) => (next, oks + [true])
  }

  function UsageRun(rs: seq<Reservation>): (run: (UsageView, seq<bool>))
    ensures |run.1| == |rs|
  {
    if rs == [] then (map[], [])
    else
      var (view, oks) := UsageRun(rs[..|rs| - 1]);
      var (ok, next) := UsageStep(view, rs[|rs| - 1]);
      (next, oks + [ok])
  }

  function GoRun(rs: seq<Reservation>): (run: (GoView, seq<bool>))
    ensures |run.1| == |rs|
  {
    if rs == [] then (map[], [])
    else
      var (view, oks) := GoRun(rs[..|rs| - 1]);
      var (ok, next) := GoStep(view, rs[|rs| - 1]);
      (next, oks + [ok])
  }

  /** The reservations a tracker accepted, in order, from its decisions. */
  function AcceptedBy(rs: seq<Reservation>, oks: seq<bool>): seq<Reservation>
    requires |oks| == |rs|
  {
    if rs == [] then []
    else
      var n := |rs| - 1;
      AcceptedBy(rs[..n], oks[..n]) + if oks[n] then [rs[n]] else []
  }

  /** The reservations the ideal ledger accepts, in order. */
  function AcceptedLog(cfg: Config, rs: seq<Reservation>): seq<Reservation> {
    AcceptedBy(rs, IdealRun(cfg, rs).1)
  }

  lemma AcceptedLogStep(cfg: Config, rs: seq<Reservation>)
    requires rs != []
    ensures var n := |rs| - 1;
      AcceptedLog(cfg, rs) == AcceptedLog(cfg, rs[..n])
        + if Reserve(cfg, IdealRun(cfg, rs[..n]).0, rs[n]).Some? then [rs[n]] else []
  {
    var n := |rs| - 1;
    assert IdealRun(cfg, rs).1[..n] == IdealRun(cfg, rs[..n]).1;
  }

  lemma {:induction false} AcceptedLogReplays(cfg: Config, rs: seq<Reservation>)
    ensures Replay(cfg, AcceptedLog(cfg, rs)) == Some(IdealRun(cfg, rs).0)
  {
    if rs != [] {
      var n := |rs| - 1;
      AcceptedLogReplays(cfg, rs[..n]);
      AcceptedLogStep(cfg, rs);
      ReplayExtend(cfg, AcceptedLog(cfg, rs[..n]), rs[n]);
      assert AcceptedLog(cfg, rs[..n]) + [] == AcceptedLog(cfg, rs[..n]);
    }
  }

  ghost predicate ClockOrdered(rs: seq<Reservation>) {
    forall i, j :: 0 <= i <= j < |rs| ==> rs[i].now <= rs[j].now
  }

  lemma {:induction false} IdealRunWithin(cfg: Config, known: Known, rs: seq<Reservation>)
    requires ValidConfig(cfg) && LogFromKnown(known, rs)
    ensures BookWithin(cfg, known, IdealRun(cfg, rs).0)
  {
    if rs != [] {
      var n := |rs| - 1;
      IdealRunWithin(cfg, known, rs[..n]);
      assert FromKnown(known, rs[n].chain);
      if Reserve(cfg, IdealRun(cfg, rs[..n]).0, rs[n]).Some? {
        ReserveWithin(cfg, known, IdealRun(cfg, rs[..n]).0, rs[n]);
      }
    }
  }

  // ---- BudgetUsageTracker refines the ideal ledger -----------------------------------

  /** What the tracker holds is ideal; what it has forgotten was due by `t`. */
  ghost predicate Remembers(ideal: Book, book: Book, t: real) {
    && (forall k :: k in book ==> k in ideal && book[k] == ideal[k])
    && (forall k :: k in ideal && k !in book ==> ideal[k].expiry as real <= t)
  }

  /** Looking up a chargeable record gives what the ideal ledger gives. */
  lemma RememberedLookup(cfg: Config, known: Known, ideal: Book, book: Book, t: real, r: Reservation, i: nat)
    requires ValidConfig(cfg) && FromKnown(known, r.chain) && BookWithin(cfg, known, ideal)
    requires Remembers(ideal, book, t) && t <= r.now
    requires Records(cfg, r.chain, r.now).Ok? && i < |Records(cfg, r.chain, r.now).value|
    ensures var k := Records(cfg, r.chain, r.now).value[i].key; Get(book, k) == Get(ideal, k)
  {
    RecordsFollowTemplate(cfg, known, r.chain, r.now, i);
    RecordsUnexpired(cfg, r.chain, r.now, i);
  }

  lemma PurgedWriteRemembers(ideal: Book, book: Book, t: real, now: real, recs: seq<Record>, entries: seq<Entry>)
    requires Remembers(ideal, book, t) && t <= now && DistinctRecords(recs) && |recs| == |entries|
    ensures Remembers(Write(ideal, recs, entries), Write(PurgeBook(book, now), recs, entries), now)
  {
    WriteEffect(ideal, recs, entries);
    WriteEffect(PurgeBook(book, now), recs, entries);
    var ideal', book' := Write(ideal, recs, entries), Write(PurgeBook(book, now), recs, entries);
    forall k | k in book' ensures k in ideal' && book'[k] == ideal'[k] {
      if k in RecordKeys(recs) {
        var j :| 0 <= j < |recs| && recs[j].key == k;
        assert book'[recs[j].key] == entries[j] == ideal'[recs[j].key];
      }
    }
  }

  lemma BudgetStepRefines(cfg: Config, known: Known, ideal: Book, book: Book, t: real, r: Reservation)
    requires ValidConfig(cfg) && FromKnown(known, r.chain) && BookWithin(cfg, known, ideal)
    requires Remembers(ideal, book, t) && t <= r.now
    ensures BudgetReserve(cfg, book, r).Some? <==> Reserve(cfg, ideal, r).Some?
    ensures Reserve(cfg, ideal, r).Some? ==>
      Remembers(Reserve(cfg, ideal, r).value, BudgetReserve(cfg, book, r).value, r.now)
  {
    if r.amount.Valid? && Records(cfg, r.chain, r.now).Ok? {
      var recs := Records(cfg, r.chain, r.now).value;
      var amount := Val(r.amount.d);
      forall i | 0 <= i < |recs| ensures Get(book, recs[i].key) == Get(ideal, recs[i].key) {
        RememberedLookup(cfg, known, ideal, book, t, r, i);
      }
      if AllPending(ideal, recs, r.now, amount) {
        assert AllPending(book, recs, r.now, amount);
        assert Charged(book, recs, r.now, amount) == Charged(ideal, recs, r.now, amount);
        RecordsDistinct(cfg, r.chain, r.now);
        PurgedWriteRemembers(ideal, book, t, r.now, recs, Charged(ideal, recs, r.now, amount));
      } else {
        assert !AllPending(book, recs, r.now, amount);
      }
    }
  }

  function LastClock(rs: seq<Reservation>, start: real): real {
    if rs == [] then start else rs[|rs| - 1].now
  }

  /** With or without shared budgets, the purging ledger accepts what the ideal one accepts. */
  lemma {:induction false} BudgetRunRefines(cfg: Config, known: Known, rs: seq<Reservation>, start: real)
    requires ValidConfig(cfg) && LogFromKnown(known, rs) && ClockOrdered(rs)
    requires rs != [] ==> start <= rs[0].now
    ensures BudgetRun(cfg, rs).1 == IdealRun(cfg, rs).1
    ensures Remembers(IdealRun(cfg, rs).0, BudgetRun(cfg, rs).0, LastClock(rs, start))
  {
    if rs != [] {
      var n := |rs| - 1;
      BudgetRunRefines(cfg, known, rs[..n], start);
      IdealRunWithin(cfg, known, rs[..n]);
      assert FromKnown(known, rs[n].chain);
      assert LastClock(rs[..n], start) <= rs[n].now;
      BudgetStepRefines(cfg, known, IdealRun(cfg, rs[..n]).0, BudgetRun(cfg, rs[..n]).0,
                        LastClock(rs[..n], start), rs[n]);
    }
  }

  /**
    Budget conservation in memory: an entry that is still held equals the sum and
    the count of all reservations the tracker accepted naming it, through any mix
    of fresh tokens, delegated chains, rejections and purges; an entry that was
    charged is only ever missing once its record has expired; and no budget is
    overspent.
   */
  lemma BudgetConservation(cfg: Config, known: Known, rs: seq<Reservation>, k: Key)
    requires ValidConfig(cfg) && LogFromKnown(known, rs) && ClockOrdered(rs)
    ensures var log := AcceptedBy(rs, BudgetRun(cfg, rs).1);
      var book := BudgetRun(cfg, rs).0;
      && (k in book ==>
            && book[k].calls == Calls(cfg, log, k) > 0
            && book[k].usd == Spent(cfg, log, k)
            && book[k].minor == Minor(cfg, log, k))
      && (Calls(cfg, log, k) > 0 && k !in book ==>
            HasTemplate(cfg, known, k) && Template(cfg, known, k).expiry as real <= LastClock(rs, 0.0))
      && (HasTemplate(cfg, known, k) ==>
            && WithinCount(Calls(cfg, log, k), Template(cfg, known, k).calls)
            && WithinCount(Minor(cfg, log, k), Template(cfg, known, k).minorLimit)
            && (Calls(cfg, log, k) > 0 ==> Within(Spent(cfg, log, k), Template(cfg, known, k).usd)))
  {
    var log := AcceptedLog(cfg, rs);
    BudgetRunRefines(cfg, known, rs, if rs == [] then 0.0 else rs[0].now);
    AcceptedLogReplays(cfg, rs);
    AcceptedFromKnown(known, rs, IdealRun(cfg, rs).1);
    Conservation(cfg, log, k);
    IdealRunWithin(cfg, known, rs);
    if HasTemplate(cfg, known, k) { LifetimeCeiling(cfg, known, log, k); }
  }

  lemma {:induction false} AcceptedFromKnown(known: Known, rs: seq<Reservation>, oks: seq<bool>)
    requires LogFromKnown(known, rs) && |oks| == |rs|
    ensures LogFromKnown(known, AcceptedBy(rs, oks))
  {
    if rs != [] {
      AcceptedFromKnown(known, rs[..|rs| - 1], oks[..|rs| - 1]);
      assert FromKnown(known, rs[|rs| - 1].chain);
    }
  }

  // ---- UsageTracker refines the ideal ledger -------------------------------------------

  const TokensOnly: Config := Config(map[], false)

  /** No token of the run names a shared budget: these trackers refuse those upfront. */
  ghost predicate NoSharedBudget(rs: seq<Reservation>) {
    forall i :: 0 <= i < |rs| ==> ChainWithoutBudget(rs[i].chain)
  }

  predicate ChainWithoutBudget(chain: seq<Claims>) {
    chain != [] ==> chain[|chain| - 1].constraints.sharedBudget.None?
  }

  lemma TokenOnlyRecords(chain: seq<Claims>, now: real)
    requires ChainWithoutBudget(chain)
    ensures Records(TokensOnly, chain, now).Ok?
       <==> chain != [] && DistinctIds(chain) && !AnyExpired(chain, now)
    ensures Records(TokensOnly, chain, now).Ok? ==> Records(TokensOnly, chain, now).value == TokenRecords(chain)
  {
    if chain != [] {
      assert TokenRecords(chain) + [] == TokenRecords(chain);
    }
  }

  ghost predicate UsageMatches(c: Claims, e: Entry, u: Usage) {
    && u.calls == e.calls && Val(u.spent) == e.usd && u.expiresAt >= e.expiry
    && (c.constraints.rateLimitPerMin.Some? ==> u.stamps == e.stamps)
  }

  ghost predicate UsageRemembers(known: Known, ideal: Book, view: UsageView, t: real) {
    && (forall j :: j in view ==> j in known && TokenKey(j) in ideal && UsageMatches(known[j], ideal[TokenKey(j)], view[j]))
    && (forall k :: k in ideal && (k.TokenKey? ==> k.jti !in view) ==> ideal[k].expiry as real <= t)
  }

  /** For a token that has not expired, the purged view and the ideal ledger agree. */
  lemma UsageLookup(known: Known, ideal: Book, view: UsageView, t: real, c: Claims, now: real, amount: Dec)
    requires UsageRemembers(known, ideal, view, t) && t <= now && BookWithin(TokensOnly, known, ideal)
    requires c.jti in known && known[c.jti] == c && now < ExpiryOf(c) as real
    ensures var u := UsageOf(PurgeUsage(view, now), c.jti);
      var p := Pending(TokenRecord(c), Get(ideal, TokenKey(c.jti)), now, Val(amount));
      && (UsageAllows(c, u, now, amount) <==> p.Some?)
      && (p.Some? ==> UsageMatches(c, p.value, UsageNext(c, u, now, amount)))
  {
    var k := TokenKey(c.jti);
    var u := UsageOf(PurgeUsage(view, now), c.jti);
    AddExact(u.spent, amount);
    if k in ideal {
      assert ideal[k].expiry == Template(TokensOnly, known, k).expiry == ExpiryOf(c);
      assert c.jti in view && u == view[c.jti];
    } else {
      assert c.jti !in view && u == NoUsage;
      assert Val(Zero) == 0.0;
    }
  }

  lemma IdsDistinct(chain: seq<Claims>)
    requires DistinctIds(chain)
    ensures Distinct(IdsOf(chain))
    ensures forall i :: 0 <= i < |chain| ==> chain[i].jti in IdsOf(chain)
  {
    forall i | 0 <= i < |chain| ensures chain[i].jti in IdsOf(chain) { assert IdsOf(chain)[i] == chain[i].jti; }
  }

  lemma UsageStepDecides(known: Known, ideal: Book, view: UsageView, t: real, r: Reservation)
    requires FromKnown(known, r.chain) && BookWithin(TokensOnly, known, ideal) && ChainWithoutBudget(r.chain)
    requires UsageRemembers(known, ideal, view, t) && t <= r.now
    ensures UsageStep(view, r).0 <==> Reserve(TokensOnly, ideal, r).Some?
  {
    TokenOnlyRecords(r.chain, r.now);
    if r.amount.Valid? && Records(TokensOnly, r.chain, r.now).Ok? {
      var recs := TokenRecords(r.chain);
      var kept := PurgeUsage(view, r.now);
      forall i | 0 <= i < |r.chain|
        ensures UsageAllows(r.chain[i], UsageOf(kept, r.chain[i].jti), r.now, r.amount.d)
           <==> Pending(recs[i], Get(ideal, recs[i].key), r.now, Val(r.amount.d)).Some?
      {
        assert !(r.now >= ExpiryOf(r.chain[i]) as real);
        UsageLookup(known, ideal, view, t, r.chain[i], r.now, r.amount.d);
      }
    }
  }

  lemma UsagePurgeRemembers(known: Known, ideal: Book, view: UsageView, t: real, now: real)
    requires UsageRemembers(known, ideal, view, t) && t <= now
    ensures UsageRemembers(known, ideal, PurgeUsage(view, now), now)
    ensures UsageRemembers(known, ideal, view, now)
  {
    var kept := PurgeUsage(view, now);
    forall k | k in ideal && (k.TokenKey? ==> k.jti !in kept) ensures ideal[k].expiry as real <= now {
      if k.TokenKey? && k.jti in view { assert TokenKey(k.jti) == k; }
    }
  }

  lemma ReserveTokensOnly(ideal: Book, r: Reservation)
    requires ChainWithoutBudget(r.chain) && Reserve(TokensOnly, ideal, r).Some?
    ensures var ideal' := Reserve(TokensOnly, ideal, r).value;
      && ideal'.Keys == ideal.Keys + (set j | j in IdsOf(r.chain) :: TokenKey(j))
      && (forall i :: 0 <= i < |r.chain| ==>
            Pending(TokenRecord(r.chain[i]), Get(ideal, TokenKey(r.chain[i].jti)), r.now, AmountOf(r))
            == Get(ideal', TokenKey(r.chain[i].jti)) && TokenKey(r.chain[i].jti) in ideal')
      && (forall k :: k in ideal && (k.TokenKey? ==> k.jti !in IdsOf(r.chain)) ==> ideal'[k] == ideal[k])
  {
    TokenOnlyRecords(r.chain, r.now);
    var recs := TokenRecords(r.chain);
    RecordsDistinct(TokensOnly, r.chain, r.now);
    WriteEffect(ideal, recs, Charged(ideal, recs, r.now, AmountOf(r)));
    assert RecordKeys(recs) == set j | j in IdsOf(r.chain) :: TokenKey(j) by {
      forall i | 0 <= i < |recs| ensures recs[i].key == TokenKey(IdsOf(r.chain)[i]) {}
    }
    forall i | 0 <= i < |r.chain|
      ensures Pending(TokenRecord(r.chain[i]), Get(ideal, TokenKey(r.chain[i].jti)), r.now, AmountOf(r))
        == Get(Reserve(TokensOnly, ideal, r).value, TokenKey(r.chain[i].jti))
      ensures TokenKey(r.chain[i].jti) in Reserve(TokensOnly, ideal, r).value
    {
      assert recs[i].key == TokenKey(r.chain[i].jti);
    }
  }

  lemma UsageAcceptRemembers(known: Known, ideal: Book, view: UsageView, t: real, r: Reservation)
    requires FromKnown(known, r.chain) && BookWithin(TokensOnly, known, ideal) && ChainWithoutBudget(r.chain)
    requires UsageRemembers(known, ideal, view, t) && t <= r.now && Reserve(TokensOnly, ideal, r).Some?
    requires !AnyExpired(r.chain, r.now) && DistinctIds(r.chain)
    ensures UsageRemembers(known, Reserve(TokensOnly, ideal, r).value,
                           UsageCharge(PurgeUsage(view, r.now), r.chain, r.now, r.amount.d), r.now)
  {
    var kept := PurgeUsage(view, r.now);
    UsagePurgeRemembers(known, ideal, view, t, r.now);
    ReserveTokensOnly(ideal, r);
    IdsDistinct(r.chain);
    AssignEffect(kept, IdsOf(r.chain), UsagesNext(kept, r.chain, r.now, r.amount.d));
    var ideal', view' := Reserve(TokensOnly, ideal, r).value, UsageCharge(kept, r.chain, r.now, r.amount.d);
    forall j | j in view'
      ensures j in known && TokenKey(j) in ideal' && UsageMatches(known[j], ideal'[TokenKey(j)], view'[j])
    {
      if j in IdsOf(r.chain) {
        var i :| 0 <= i < |r.chain| && IdsOf(r.chain)[i] == j;
        assert !(r.now >= ExpiryOf(r.chain[i]) as real);
        UsageLookup(known, ideal, view, t, r.chain[i], r.now, r.amount.d);
      }
    }
  }

  lemma {:induction false} UsageRunRefines(known: Known, rs: seq<Reservation>, start: real)
    requires LogFromKnown(known, rs) && ClockOrdered(rs) && NoSharedBudget(rs)
    requires rs != [] ==> start <= rs[0].now
    ensures UsageRun(rs).1 == IdealRun(TokensOnly, rs).1
    ensures UsageRemembers(known, IdealRun(TokensOnly, rs).0, UsageRun(rs).0, LastClock(rs, start))
  {
    if rs != [] {
      var n := |rs| - 1;
      UsageRunRefines(known, rs[..n], start);
      IdealRunWithin(TokensOnly, known, rs[..n]);
      assert FromKnown(known, rs[n].chain) && ChainWithoutBudget(rs[n].chain);
      var ideal, view, t := IdealRun(TokensOnly, rs[..n]).0, UsageRun(rs[..n]).0, LastClock(rs[..n], start);
      assert t <= rs[n].now;
      UsageStepDecides(known, ideal, view, t, rs[n]);
      UsagePurgeRemembers(known, ideal, view, t, rs[n].now);
      if Reserve(TokensOnly, ideal, rs[n]).Some? {
        TokenOnlyRecords(rs[n].chain, rs[n].now);
        UsageAcceptRemembers(known, ideal, view, t, rs[n]);
      }
    }
  }

  // ---- Go's tracker refines the ideal ledger -----------------------------------------------

  ghost predicate GoMatches(c: Claims, e: Entry, u: GoUsage) {
    && u.calls == e.calls && u.amount == e.usd && u.expiry == e.expiry
    && (c.constraints.rateLimitPerMin.Some? ==> u.stamps == e.stamps)
  }

  ghost predicate GoRemembers(known: Known, ideal: Book, view: GoView, t: real) {
    && (forall j :: j in view ==> j in known && TokenKey(j) in ideal && GoMatches(known[j], ideal[TokenKey(j)], view[j]))
    && (forall k :: k in ideal && (k.TokenKey? ==> k.jti !in view) ==> ideal[k].expiry as real <= t)
  }

  // Expiries are whole seconds, so comparing whole Unix seconds loses nothing.
  lemma WholeSeconds(now: real, expiry: int)
    ensures now.Floor < expiry <==> now < expiry as real
  {
  }

  lemma GoLookup(known: Known, ideal: Book, view: GoView, t: real, c: Claims, now: real, amount: real)
    requires GoRemembers(known, ideal, view, t) && t <= now && BookWithin(TokensOnly, known, ideal)
    requires c.jti in known && known[c.jti] == c && now < ExpiryOf(c) as real
    ensures var u := GoUsageOf(GoPurge(view, now), c.jti);
      var p := Pending(TokenRecord(c), Get(ideal, TokenKey(c.jti)), now, amount);
      && (GoAllows(c, u, now, amount) <==> p.Some?)
      && (p.Some? ==> GoMatches(c, p.value, GoNext(c, u, now, amount)))
  {
    var k := TokenKey(c.jti);
    WholeSeconds(now, ExpiryOf(c));
    if k in ideal {
      assert ideal[k].expiry == Template(TokensOnly, known, k).expiry == ExpiryOf(c);
      assert c.jti in view;
    }
  }

  lemma GoStepDecides(known: Known, ideal: Book, view: GoView, t: real, r: Reservation)
    requires FromKnown(known, r.chain) && BookWithin(TokensOnly, known, ideal) && ChainWithoutBudget(r.chain)
    requires GoRemembers(known, ideal, view, t) && t <= r.now
    ensures GoStep(view, r).0 <==> Reserve(TokensOnly, ideal, r).Some?
  {
    TokenOnlyRecords(r.chain, r.now);
    if r.amount.Valid? {
      var recs := TokenRecords(r.chain);
      var kept := GoPurge(view, r.now);
      forall i | 0 <= i < |r.chain|
        ensures GoAllows(r.chain[i], GoUsageOf(kept, r.chain[i].jti), r.now, Val(r.amount.d))
           <==> r.now < ExpiryOf(r.chain[i]) as real
                && Pending(recs[i], Get(ideal, recs[i].key), r.now, Val(r.amount.d)).Some?
      {
        WholeSeconds(r.now, ExpiryOf(r.chain[i]));
        if r.now < ExpiryOf(r.chain[i]) as real {
          GoLookup(known, ideal, view, t, r.chain[i], r.now, Val(r.amount.d));
        }
      }
    }
  }

  lemma GoPurgeRemembers(known: Known, ideal: Book, view: GoView, t: real, now: real)
    requires GoRemembers(known, ideal, view, t) && t <= now
    ensures GoRemembers(known, ideal, GoPurge(view, now), now)
    ensures GoRemembers(known, ideal, view, now)
  {
    var kept := GoPurge(view, now);
    forall k | k in ideal && (k.TokenKey? ==> k.jti !in kept) ensures ideal[k].expiry as real <= now {
      if k.TokenKey? && k.jti in view {
        assert TokenKey(k.jti) == k;
        WholeSeconds(now, view[k.jti].expiry);
      }
    }
  }

  lemma GoAcceptRemembers(known: Known, ideal: Book, view: GoView, t: real, r: Reservation)
    requires FromKnown(known, r.chain) && BookWithin(TokensOnly, known, ideal) && ChainWithoutBudget(r.chain)
    requires GoRemembers(known, ideal, view, t) && t <= r.now && Reserve(TokensOnly, ideal, r).Some?
    requires !AnyExpired(r.chain, r.now) && DistinctIds(r.chain)
    ensures GoRemembers(known, Reserve(TokensOnly, ideal, r).value,
                        Assign(GoPurge(view, r.now), IdsOf(r.chain),
                               GoUsagesNext(GoPurge(view, r.now), r.chain, r.now, AmountOf(r))),
                        r.now)
  {
    var kept := GoPurge(view, r.now);
    GoPurgeRemembers(known, ideal, view, t, r.now);
    ReserveTokensOnly(ideal, r);
    var next := GoUsagesNext(kept, r.chain, r.now, AmountOf(r));
    IdsDistinct(r.chain);
    AssignEffect(kept, IdsOf(r.chain), next);
    var ideal', view' := Reserve(TokensOnly, ideal, r).value, Assign(kept, IdsOf(r.chain), next);
    forall j | j in view'
      ensures j in known && TokenKey(j) in ideal' && GoMatches(known[j], ideal'[TokenKey(j)], view'[j])
    {
      if j in IdsOf(r.chain) {
        var i :| 0 <= i < |r.chain| && IdsOf(r.chain)[i] == j;
        assert !(r.now >= ExpiryOf(r.chain[i]) as real);
        GoLookup(known, ideal, view, t, r.chain[i], r.now, AmountOf(r));
      }
    }
  }

  lemma {:induction false} GoRunRefines(known: Known, rs: seq<Reservation>, start: real)
    requires LogFromKnown(known, rs) && ClockOrdered(rs) && NoSharedBudget(rs)
    requires rs != [] ==> start <= rs[0].now
    ensures GoRun(rs).1 == IdealRun(TokensOnly, rs).1
    ensures GoRemembers(known, IdealRun(TokensOnly, rs).0, GoRun(rs).0, LastClock(rs, start))
  {
    if rs != [] {
      var n := |rs| - 1;
      GoRunRefines(known, rs[..n], start);
      IdealRunWithin(TokensOnly, known, rs[..n]);
      assert FromKnown(known, rs[n].chain) && ChainWithoutBudget(rs[n].chain);
      var ideal, view, t := IdealRun(TokensOnly, rs[..n]).0, GoRun(rs[..n]).0, LastClock(rs[..n], start);
      assert t <= rs[n].now;
      GoStepDecides(known, ideal, view, t, rs[n]);
      GoPurgeRemembers(known, ideal, view, t, rs[n].now);
      if Reserve(TokensOnly, ideal, rs[n]).Some? {
        TokenOnlyRecords(rs[n].chain, rs[n].now);
        GoAcceptRemembers(known, ideal, view, t, rs[n]);
      }
    }
  }

  /**
    UsageTracker, BudgetUsageTracker without budgets and Go's Reserve accept
    exactly the same reservations in every run with a non-decreasing clock and
    one set of claims per token id: the ones a ledger that forgets nothing accepts.
   */
  lemma TrackersAgree(known: Known, rs: seq<Reservation>)
    requires LogFromKnown(known, rs) && ClockOrdered(rs) && NoSharedBudget(rs)
    ensures UsageRun(rs).1 == BudgetRun(TokensOnly, rs).1 == GoRun(rs).1 == IdealRun(TokensOnly, rs).1
  {
    var start := if rs == [] then 0.0 else rs[0].now;
    UsageRunRefines(known, rs, start);
    BudgetRunRefines(TokensOnly, known, rs, start);
    GoRunRefines(known, rs, start);
  }
}

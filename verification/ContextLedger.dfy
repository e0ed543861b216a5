/**
  The ledgers as they add in the 1000-digit context of _decimal_sum: over any
  feasible run they decide and store exactly what the exact ledgers do.
 */
module ContextLedger {
  import opened Wrappers
  import opened JsonValues
  import opened TokenClaims
  import opened Decimals
  import opened DecimalText
  import opened DecimalContext
  import opened Maps
  import opened Ledger
  import opened MemoryTrackers
  import opened BudgetTracker
  import opened NodeRuns

  // Amounts are multiples of 10^-scale below 10^size, runs are at most 10^count long.
  datatype Bounds = Bounds(prec: nat, scale: nat, size: nat, count: nat)

  ghost predicate Roomy(b: Bounds) { b.count + b.size + b.scale <= b.prec && b.prec >= 1 }

  /** A total of at most n fitting amounts. */
  ghost predicate Small(b: Bounds, total: Dec, n: nat) {
    total.exp >= -(b.scale as int) && CoefAt(total, -(b.scale as int)) <= Shift(n, b.size + b.scale)
  }

  /** One more fitting amount is added without rounding. */
  lemma AddsExactly(b: Bounds, total: Dec, amount: Dec, n: nat)
    requires Roomy(b) && Small(b, total, n) && Fits(amount, b.scale, b.size) && n + 1 <= Pow10(b.count)
    ensures ContextSum(b.prec, total, amount) == Add(total, amount) && Small(b, Add(total, amount), n + 1)
  {
    OneMore(b.prec, total, amount, n, b.scale, b.size, b.count);
  }

  lemma SmallGrows(b: Bounds, total: Dec, n: nat)
    requires Small(b, total, n)
    ensures Small(b, total, n + 1)
  {
    ShiftOrder(n, n + 1, b.size + b.scale);
  }

  lemma ZeroIsSmall(b: Bounds, n: nat)
    ensures Small(b, Zero, n)
  {
    ShiftZero(b.scale);
  }

  // ---- UsageTracker ------------------------------------------------------------------------

  /** The limit checks of UsageTracker, with _decimal_sum. */
  predicate ContextAllows(prec: nat, c: Claims, u: Usage, now: real, amount: Dec) {
    && !Exceeds(u.calls + 1, c.constraints.maxCalls)
    && !(c.constraints.maxAmountUsd.Some? && Val(ContextSum(prec, u.spent, amount)) > c.constraints.maxAmountUsd.value)
    && !Exceeds(|Recent(u.stamps, now - 60.0)| + 1, c.constraints.rateLimitPerMin)
  }

  function ContextNext(prec: nat, c: Claims, u: Usage, now: real, amount: Dec): Usage {
    Usage(u.calls + 1, ContextSum(prec, u.spent, amount), Recent(u.stamps, now - 60.0) + [now],
          if u.expiresAt >= ExpiryOf(c) then u.expiresAt else ExpiryOf(c))
  }

  predicate ContextAllowsAll(prec: nat, view: UsageView, chain: seq<Claims>, now: real, amount: Dec) {
    forall i :: 0 <= i < |chain| ==> ContextAllows(prec, chain[i], UsageOf(view, chain[i].jti), now, amount)
  }

  function ContextUsages(prec: nat, view: UsageView, chain: seq<Claims>, now: real, amount: Dec): (us: seq<Usage>)
    ensures |us| == |chain|
  {
    seq(|chain|, i requires 0 <= i < |chain| => ContextNext(prec, chain[i], UsageOf(view, chain[i].jti), now, amount))
  }

  function ContextUsageStep(prec: nat, view: UsageView, r: Reservation): (bool, UsageView) {
    if r.amount.Invalid? || r.chain == [] || !DistinctIds(r.chain) || AnyExpired(r.chain, r.now) then (false, view)
    else
      var kept := PurgeUsage(view, r.now);
      if ContextAllowsAll(prec, kept, r.chain, r.now, r.amount.d)
      then (true, Assign(kept, IdsOf(r.chain), ContextUsages(prec, kept, r.chain, r.now, r.amount.d)))
      else (false, kept)
  }

  function ContextUsageRun(prec: nat, rs: seq<Reservation>): (UsageView, seq<bool>) {
    if rs == [] then (map[], [])
    else
      var (view, oks) := ContextUsageRun(prec, rs[..|rs| - 1]);
      var (ok, next) := ContextUsageStep(prec, view, rs[|rs| - 1]);
      (next, oks + [ok])
  }

  ghost predicate UsageSmall(b: Bounds, view: UsageView, n: nat) {
    forall j :: j in view ==> Small(b, view[j].spent, n)
  }

  lemma UsageAddsExactly(b: Bounds, view: UsageView, jti: Str, amount: Dec, n: nat)
    requires Roomy(b) && UsageSmall(b, view, n) && Fits(amount, b.scale, b.size) && n + 1 <= Pow10(b.count)
    ensures var spent := UsageOf(view, jti).spent;
      ContextSum(b.prec, spent, amount) == Add(spent, amount) && Small(b, Add(spent, amount), n + 1)
  {
    ZeroIsSmall(b, n);
    AddsExactly(b, UsageOf(view, jti).spent, amount, n);
  }

  lemma {:induction false} AssignSmall(b: Bounds, view: UsageView, ids: seq<Str>, us: seq<Usage>, n: nat)
    requires |ids| == |us| && UsageSmall(b, view, n) && forall i :: 0 <= i < |us| ==> Small(b, us[i].spent, n)
    ensures UsageSmall(b, Assign(view, ids, us), n)
  {
    if ids != [] { AssignSmall(b, view, ids[..|ids| - 1], us[..|ids| - 1], n); }
  }

  lemma UsageSmallGrows(b: Bounds, view: UsageView, n: nat)
    requires UsageSmall(b, view, n)
    ensures UsageSmall(b, view, n + 1)
  {
    forall j | j in view ensures Small(b, view[j].spent, n + 1) { SmallGrows(b, view[j].spent, n); }
  }

  ghost predicate AmountFits(b: Bounds, r: Reservation) {
    r.amount.Valid? ==> Fits(r.amount.d, b.scale, b.size)
  }

  lemma UsageStepAgrees(b: Bounds, view: UsageView, r: Reservation, n: nat)
    requires Roomy(b) && UsageSmall(b, view, n) && AmountFits(b, r) && n + 1 <= Pow10(b.count)
    ensures ContextUsageStep(b.prec, view, r) == UsageStep(view, r)
    ensures UsageSmall(b, UsageStep(view, r).1, n + 1)
  {
    UsageSmallGrows(b, view, n);
    if r.amount.Valid? {
      var kept := PurgeUsage(view, r.now);
      forall i | 0 <= i < |r.chain|
        ensures ContextAllows(b.prec, r.chain[i], UsageOf(kept, r.chain[i].jti), r.now, r.amount.d)
           <==> UsageAllows(r.chain[i], UsageOf(kept, r.chain[i].jti), r.now, r.amount.d)
        ensures ContextNext(b.prec, r.chain[i], UsageOf(kept, r.chain[i].jti), r.now, r.amount.d)
             == UsagesNext(kept, r.chain, r.now, r.amount.d)[i]
        ensures Small(b, UsagesNext(kept, r.chain, r.now, r.amount.d)[i].spent, n + 1)
      {
        UsageAddsExactly(b, kept, r.chain[i].jti, r.amount.d, n);
      }
      assert ContextUsages(b.prec, kept, r.chain, r.now, r.amount.d) == UsagesNext(kept, r.chain, r.now, r.amount.d);
      AssignSmall(b, kept, IdsOf(r.chain), UsagesNext(kept, r.chain, r.now, r.amount.d), n + 1);
    }
  }

  lemma {:induction false} UsageRunAgrees(b: Bounds, rs: seq<Reservation>)
    requires Roomy(b) && |rs| <= Pow10(b.count) && forall i :: 0 <= i < |rs| ==> AmountFits(b, rs[i])
    ensures ContextUsageRun(b.prec, rs) == UsageRun(rs) && UsageSmall(b, UsageRun(rs).0, |rs|)
  {
    if rs != [] {
      var n := |rs| - 1;
      UsageRunAgrees(b, rs[..n]);
      UsageStepAgrees(b, UsageRun(rs[..n]).0, rs[n], n);
    }
  }

  // The bounds of DecimalSumExact: all finite binary64 amounts, runs of up to 10^300 calls.
  const Binary64: Bounds := Bounds(PRECISION, BINARY64_SCALE, BINARY64_SIZE, RUN_LENGTH_DIGITS)

  /** UsageTracker with the 1000-digit context accepts and stores what it would with exact sums. */
  lemma {:induction false} UsageContextExact(rs: seq<Reservation>)
    requires |rs| <= Pow10(RUN_LENGTH_DIGITS) && forall i :: 0 <= i < |rs| ==> AmountFits(Binary64, rs[i])
    ensures ContextUsageRun(1000, rs) == UsageRun(rs)
  {
    UsageRunAgrees(Binary64, rs);
  }

  // ---- The budget ledger with totals stored as text ----------------------------------------------

  /** _pending with _decimal_sum. */
  function ContextPending(prec: nat, codec: Codec, rec: Record, current: Option<StoredEntry>, now: real, amount: Dec)
    : Option<StoredEntry>
  {
    var base := if current.Some? then current.value else StoredEntry(0, "0", 0, [], 0);
    var calls := base.calls + 1;
    var total := ContextSum(prec, codec.read(base.usd), amount);
    var minor := base.minor + rec.minor;
    var recent := Recent(base.stamps, now - 60.0);
    if Exceeds(calls, rec.calls) then None
    else if rec.usd.Some? && Val(total) > rec.usd.value then None
    else if Exceeds(|recent| + 1, rec.rate) then None
    else if Exceeds(minor, rec.minorLimit) then None
    else Some(StoredEntry(calls, codec.show(total), minor, if rec.rate.Some? then recent + [now] else [], rec.expiry))
  }

  function ContextResults(prec: nat, codec: Codec, recs: seq<Record>, book: Stored, c: Charge)
    : (rs: seq<Option<StoredEntry>>)
    ensures |rs| == |recs|
  {
    seq(|recs|, i requires 0 <= i < |recs| => ContextPending(prec, codec, recs[i], Get(book, recs[i].key), c.now, c.amount))
  }

  function ContextStep(prec: nat, codec: Codec, cfg: Config, book: Stored, c: Charge): Option<Stored> {
    match Records(cfg, c.chain, c.now)
    case Err(_) => None
    case Ok(recs) => Commit(book, recs, ContextResults(prec, codec, recs, book, c), c.now)
  }

  function ContextRun(prec: nat, codec: Codec, cfg: Config, cs: seq<Charge>): (Stored, seq<bool>) {
    if cs == [] then (map[], [])
    else
      var (book, oks) := ContextRun(prec, codec, cfg, cs[..|cs| - 1]);
      match ContextStep(prec, codec, cfg, book, cs[|cs| - 1])
      case None => (book, oks + [false])
      case Some(next) => (next, oks + [true])
  }

  /** Printing and reading back keeps the value and adds no decimals. */
  ghost predicate KeepsScale(codec: Codec) {
    && codec.read("0") == Zero
    && forall d :: codec.read(codec.show(d)).exp >= d.exp || codec.read(codec.show(d)).exp >= 0
  }

  lemma {:induction false} PythonKeepsScale()
    ensures KeepsScale(PythonCodec)
  {
    DigitsAreNumeral("0");
    assert ParseNat("0") == 0;
    forall d ensures PythonCodec.read(PythonCodec.show(d)).exp >= d.exp || PythonCodec.read(PythonCodec.show(d)).exp >= 0 {
      PythonTextScale(d);
    }
  }

  /** A total that was small is small again when it is read back from its text. */
  lemma SmallSurvivesText(b: Bounds, codec: Codec, d: Dec, n: nat)
    requires Exact(codec) && KeepsScale(codec) && Small(b, d, n)
    ensures Small(b, codec.read(codec.show(d)), n)
  {
    var low, back := -(b.scale as int), codec.read(codec.show(d));
    assert back.exp >= d.exp || back.exp >= 0;
    Rescale(d, low);
    Rescale(back, low);
    SameExponentSameCoef(CoefAt(d, low), CoefAt(back, low), low);
  }

  ghost predicate BookSmall(b: Bounds, codec: Codec, book: Stored, n: nat) {
    forall k :: k in book ==> Small(b, codec.read(book[k].usd), n)
  }

  lemma PendingAgrees(b: Bounds, codec: Codec, rec: Record, current: Option<StoredEntry>, now: real, amount: Dec, n: nat)
    requires Roomy(b) && Exact(codec) && KeepsScale(codec) && Fits(amount, b.scale, b.size) && n + 1 <= Pow10(b.count)
    requires current.Some? ==> Small(b, codec.read(current.value.usd), n)
    ensures ContextPending(b.prec, codec, rec, current, now, amount) == StoredPending(codec, rec, current, now, amount)
    ensures var next := StoredPending(codec, rec, current, now, amount);
      next.Some? ==> Small(b, codec.read(next.value.usd), n + 1)
  {
    var total := codec.read(if current.Some? then current.value.usd else "0");
    ZeroIsSmall(b, n);
    AddsExactly(b, total, amount, n);
    SmallSurvivesText(b, codec, Add(total, amount), n + 1);
  }

  lemma {:induction false} AssignBookSmall(b: Bounds, codec: Codec, book: Stored, ks: seq<Key>, vs: seq<StoredEntry>, n: nat)
    requires |ks| == |vs| && BookSmall(b, codec, book, n)
    requires forall i :: 0 <= i < |vs| ==> Small(b, codec.read(vs[i].usd), n)
    ensures BookSmall(b, codec, Assign(book, ks, vs), n)
  {
    if ks != [] { AssignBookSmall(b, codec, book, ks[..|ks| - 1], vs[..|ks| - 1], n); }
  }

  lemma BookSmallGrows(b: Bounds, codec: Codec, book: Stored, n: nat)
    requires BookSmall(b, codec, book, n)
    ensures BookSmall(b, codec, book, n + 1)
  {
    forall k | k in book ensures Small(b, codec.read(book[k].usd), n + 1) { SmallGrows(b, codec.read(book[k].usd), n); }
  }

  lemma ContextStepAgrees(b: Bounds, codec: Codec, cfg: Config, book: Stored, c: Charge, n: nat)
    requires Roomy(b) && Exact(codec) && KeepsScale(codec) && Fits(c.amount, b.scale, b.size) && n + 1 <= Pow10(b.count)
    requires BookSmall(b, codec, book, n)
    ensures ContextStep(b.prec, codec, cfg, book, c) == PythonStep(codec, cfg, book, c)
    ensures PythonStep(codec, cfg, book, c).Some? ==> BookSmall(b, codec, PythonStep(codec, cfg, book, c).value, n + 1)
  {
    if Records(cfg, c.chain, c.now).Ok? {
      var recs := Records(cfg, c.chain, c.now).value;
      var rs := PythonResults(codec, recs, book, c);
      forall i | 0 <= i < |recs|
        ensures ContextResults(b.prec, codec, recs, book, c)[i] == rs[i]
        ensures rs[i].Some? ==> Small(b, codec.read(rs[i].value.usd), n + 1)
      {
        PendingAgrees(b, codec, recs[i], Get(book, recs[i].key), c.now, c.amount, n);
      }
      assert ContextResults(b.prec, codec, recs, book, c) == rs;
      BookSmallGrows(b, codec, book, n);
      if PythonStep(codec, cfg, book, c).Some? {
        AssignBookSmall(b, codec, Purged(book, c.now), KeysOf(recs), Values(rs), n + 1);
      }
    }
  }

  lemma {:induction false} ContextRunAgrees(b: Bounds, codec: Codec, cfg: Config, cs: seq<Charge>)
    requires Roomy(b) && Exact(codec) && KeepsScale(codec)
    requires |cs| <= Pow10(b.count) && forall i :: 0 <= i < |cs| ==> Fits(cs[i].amount, b.scale, b.size)
    ensures ContextRun(b.prec, codec, cfg, cs) == PythonRun(codec, cfg, cs)
    ensures BookSmall(b, codec, PythonRun(codec, cfg, cs).0, |cs|)
  {
    if cs != [] {
      var n := |cs| - 1;
      ContextRunAgrees(b, codec, cfg, cs[..n]);
      ContextStepAgrees(b, codec, cfg, PythonRun(codec, cfg, cs[..n]).0, cs[n], n);
      BookSmallGrows(b, codec, PythonRun(codec, cfg, cs[..n]).0, n);
    }
  }

  /** The Python budget ledger with the 1000-digit context accepts and stores what it would with exact sums. */
  lemma {:induction false} BudgetContextExact(cfg: Config, cs: seq<Charge>)
    requires |cs| <= Pow10(RUN_LENGTH_DIGITS)
    requires forall i :: 0 <= i < |cs| ==> Fits(cs[i].amount, BINARY64_SCALE, BINARY64_SIZE)
    ensures ContextRun(1000, PythonCodec, cfg, cs) == PythonRun(PythonCodec, cfg, cs)
  {
    PythonCodecExact();
    PythonKeepsScale();
    ContextRunAgrees(Binary64, PythonCodec, cfg, cs);
  }

  /**
    The ledger as the code runs it, with the decimal context and totals kept as
    text, accepts exactly what the ledger of exact numbers that forgets nothing
    accepts.
   */
  lemma {:induction false} BudgetContextDecidesIdeally(cfg: Config, known: Known, cs: seq<Charge>)
    requires ValidConfig(cfg) && LogFromKnown(known, ReservationsFor(cs)) && ClockOrdered(ReservationsFor(cs))
    requires |cs| <= Pow10(RUN_LENGTH_DIGITS)
    requires forall i :: 0 <= i < |cs| ==> Fits(cs[i].amount, BINARY64_SCALE, BINARY64_SIZE)
    ensures ContextRun(1000, PythonCodec, cfg, cs).1 == IdealRun(cfg, ReservationsFor(cs)).1
  {
    BudgetContextExact(cfg, cs);
    PythonCodecExact();
    PythonRunMeans(PythonCodec, cfg, cs);
    BudgetRunRefines(cfg, known, ReservationsFor(cs), if cs == [] then 0.0 else cs[0].now);
  }
}

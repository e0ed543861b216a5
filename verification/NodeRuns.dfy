/** Whole runs of the Node ledger beside the Python one: same decisions, same stored entries. */
module NodeRuns {
  import opened Wrappers
  import opened JsonValues
  import opened TokenClaims
  import opened Decimals
  import opened Maps
  import opened Ledger
  import opened MemoryTrackers
  import opened BudgetTracker
  import opened NodeLedger

  type Stored = map<Key, StoredEntry>

  // One call of checkAndRecordChain, with the amount as a number and as Node prints it.
  datatype Charge = Charge(chain: seq<Claims>, amount: Dec, text: string, now: real)

  // How Node prints the number of a USD limit.
  type Printer = real -> string

  /** The limit of the record prints as a numeral of the same value. */
  ghost predicate LimitPrints(arith: Arith, show: Printer, rec: Record) {
    rec.usd.Some? ==> arith.isNumeral(show(rec.usd.value)) && arith.value(show(rec.usd.value)) == rec.usd.value
  }

  /** The amount and the limits of the chain print as numerals of the same value. */
  ghost predicate Printed(arith: Arith, show: Printer, c: Charge) {
    && arith.isNumeral(c.text) && arith.value(c.text) == Val(c.amount)
    && forall i :: 0 <= i < |c.chain| ==> LimitPrints(arith, show, TokenRecord(c.chain[i]))
  }

  lemma RecordLimitsPrint(arith: Arith, show: Printer, cfg: Config, c: Charge)
    requires Printed(arith, show, c) && Records(cfg, c.chain, c.now).Ok?
    ensures AllPrint(arith, show, Records(cfg, c.chain, c.now).value)
  {
    var recs := Records(cfg, c.chain, c.now).value;
    forall i | 0 <= i < |recs| ensures LimitPrints(arith, show, recs[i]) {
      if i < |c.chain| { assert recs[i] == TokenRecord(c.chain[i]); }
    }
  }

  ghost predicate AllPrint(arith: Arith, show: Printer, recs: seq<Record>) {
    forall i :: 0 <= i < |recs| ==> LimitPrints(arith, show, recs[i])
  }

  function LimitText(show: Printer, rec: Record): string {
    if rec.usd.Some? then show(rec.usd.value) else "0"
  }

  function Purged(book: Stored, now: real): Stored {
    map k | k in book && book[k].expiry as real > now :: book[k]
  }

  /** After the pending entries are computed: all of them are stored, or nothing changes. */
  function Commit(book: Stored, recs: seq<Record>, results: seq<Option<StoredEntry>>, now: real): Option<Stored>
    requires |results| == |recs|
  {
    if forall i :: 0 <= i < |results| ==> results[i].Some?
    then Some(Assign(Purged(book, now), KeysOf(recs), Values(results)))
    else None
  }

  function Values(results: seq<Option<StoredEntry>>): (vs: seq<StoredEntry>)
    requires forall i :: 0 <= i < |results| ==> results[i].Some?
    ensures |vs| == |results|
    ensures forall i :: 0 <= i < |vs| ==> vs[i] == results[i].value
  {
    seq(|results|, i requires 0 <= i < |results| => results[i].value)
  }

  function PythonResults(codec: Codec, recs: seq<Record>, book: Stored, c: Charge): (rs: seq<Option<StoredEntry>>)
    ensures |rs| == |recs|
  {
    seq(|recs|, i requires 0 <= i < |recs| => StoredPending(codec, recs[i], Get(book, recs[i].key), c.now, c.amount))
  }

  function PythonStep(codec: Codec, cfg: Config, book: Stored, c: Charge): Option<Stored> {
    match Records(cfg, c.chain, c.now)
    case Err(_) => None
    case Ok(recs) => Commit(book, recs, PythonResults(codec, recs, book, c), c.now)
  }

  ghost predicate AllChargeable(recs: seq<Record>) {
    forall i :: 0 <= i < |recs| ==> Chargeable(recs[i])
  }

  /** Every entry is storable and was charged at most n times. */
  ghost predicate BookStorable(arith: Arith, book: Stored, n: nat) {
    arith.isNumeral("0") && forall k :: k in book ==> Storable(arith, book[k]) && book[k].calls <= n
  }

  ghost function NodeResults(arith: Arith, show: Printer, recs: seq<Record>, book: Stored, c: Charge)
    : (rs: seq<Option<StoredEntry>>)
    requires AllChargeable(recs) && BookStorable(arith, book, MAX_SAFE)
    ensures |rs| == |recs|
  {
    seq(|recs|, i requires 0 <= i < |recs| =>
      NodePending(arith, recs[i], LimitText(show, recs[i]), Get(book, recs[i].key), c.now, c.text))
  }

  lemma ChainIsChargeable(cfg: Config, chain: seq<Claims>, now: real)
    requires ValidConfig(cfg) && Records(cfg, chain, now).Ok?
    ensures AllChargeable(Records(cfg, chain, now).value)
  {
    forall i | 0 <= i < |Records(cfg, chain, now).value| ensures Chargeable(Records(cfg, chain, now).value[i]) {
      RecordsAreChargeable(cfg, chain, now, i);
    }
  }

  ghost function NodeStep(arith: Arith, show: Printer, cfg: Config, book: Stored, c: Charge): Option<Stored>
    requires ValidConfig(cfg) && BookStorable(arith, book, MAX_SAFE)
  {
    NodeRecordsAgree(cfg, c.chain, c.now);
    match NodeRecords(cfg, c.chain, c.now)
    case Err(_) => None
    case Ok(recs) =>
      ChainIsChargeable(cfg, c.chain, c.now);
      Commit(book, recs, NodeResults(arith, show, recs, book, c), c.now)
  }

  /** Node and Python compute the same pending entries, and storable ones. */
  lemma ResultsAgree(arith: Arith, codec: Codec, show: Printer, recs: seq<Record>, book: Stored, c: Charge, n: nat)
    requires Alike(arith, codec) && Printed(arith, show, c) && AllPrint(arith, show, recs)
    requires AllChargeable(recs) && BookStorable(arith, book, n) && n < MAX_SAFE
    ensures NodeResults(arith, show, recs, book, c) == PythonResults(codec, recs, book, c)
    ensures forall i :: 0 <= i < |recs| ==>
      var r := PythonResults(codec, recs, book, c)[i];
      r.Some? ==> Storable(arith, r.value) && r.value.calls <= n + 1
  {
    forall i | 0 <= i < |recs|
      ensures NodeResults(arith, show, recs, book, c)[i] == PythonResults(codec, recs, book, c)[i]
      ensures var r := PythonResults(codec, recs, book, c)[i];
        r.Some? ==> Storable(arith, r.value) && r.value.calls <= n + 1
    {
      assert LimitPrints(arith, show, recs[i]) && Chargeable(recs[i]);
      NodePendingAgrees(arith, codec, recs[i], LimitText(show, recs[i]), Get(book, recs[i].key), c.now, c.text, c.amount);
    }
  }

  lemma {:induction false} AssignStorable(arith: Arith, book: Stored, ks: seq<Key>, vs: seq<StoredEntry>, n: nat)
    requires |ks| == |vs| && BookStorable(arith, book, n)
    requires forall i :: 0 <= i < |vs| ==> Storable(arith, vs[i]) && vs[i].calls <= n
    ensures BookStorable(arith, Assign(book, ks, vs), n)
  {
    if ks != [] {
      AssignStorable(arith, book, ks[..|ks| - 1], vs[..|ks| - 1], n);
    }
  }

  lemma NodeStepAgrees(arith: Arith, codec: Codec, show: Printer, cfg: Config, book: Stored, c: Charge, n: nat)
    requires Alike(arith, codec) && Printed(arith, show, c) && ValidConfig(cfg)
    requires BookStorable(arith, book, n) && n < MAX_SAFE
    ensures NodeStep(arith, show, cfg, book, c) == PythonStep(codec, cfg, book, c)
    ensures PythonStep(codec, cfg, book, c).Some? ==> BookStorable(arith, PythonStep(codec, cfg, book, c).value, n + 1)
  {
    NodeRecordsAgree(cfg, c.chain, c.now);
    if Records(cfg, c.chain, c.now).Ok? {
      var recs := Records(cfg, c.chain, c.now).value;
      ChainIsChargeable(cfg, c.chain, c.now);
      RecordLimitsPrint(arith, show, cfg, c);
      ResultsAgree(arith, codec, show, recs, book, c, n);
      if PythonStep(codec, cfg, book, c).Some? {
        AssignStorable(arith, Purged(book, c.now), KeysOf(recs), Values(PythonResults(codec, recs, book, c)), n + 1);
      }
    }
  }

  // ---- Runs ------------------------------------------------------------------------------

  function PythonRun(codec: Codec, cfg: Config, cs: seq<Charge>): (Stored, seq<bool>) {
    if cs == [] then (map[], [])
    else
      var (book, oks) := PythonRun(codec, cfg, cs[..|cs| - 1]);
      match PythonStep(codec, cfg, book, cs[|cs| - 1])
      case None => (book, oks + [false])
      case Some(next) => (next, oks + [true])
  }

  /** None only if an entry left the range in which doubles count exactly. */
  ghost function NodeRun(arith: Arith, show: Printer, cfg: Config, cs: seq<Charge>): Option<(Stored, seq<bool>)>
    requires ValidConfig(cfg)
  {
    if cs == [] then Some((map[], []))
    else
      match NodeRun(arith, show, cfg, cs[..|cs| - 1])
      case None => None
      case Some((book, oks)) =>
        if !BookStorable(arith, book, MAX_SAFE) then None
        else
          match NodeStep(arith, show, cfg, book, cs[|cs| - 1])
          case None => Some((book, oks + [false]))
          case Some(next) => Some((next, oks + [true]))
  }

  ghost predicate RunStorable(arith: Arith, codec: Codec, cfg: Config, cs: seq<Charge>) {
    BookStorable(arith, PythonRun(codec, cfg, cs).0, |cs|)
  }

  ghost predicate AllPrinted(arith: Arith, show: Printer, cs: seq<Charge>) {
    forall i :: 0 <= i < |cs| ==> Printed(arith, show, cs[i])
  }

  /** On the same calls the two ledgers decide alike and store the very same entries. */
  lemma {:induction false} NodeRunAgrees(arith: Arith, codec: Codec, show: Printer, cfg: Config, cs: seq<Charge>)
    requires Alike(arith, codec) && ValidConfig(cfg)
    requires AllPrinted(arith, show, cs) && |cs| <= MAX_SAFE
    ensures NodeRun(arith, show, cfg, cs) == Some(PythonRun(codec, cfg, cs))
    ensures RunStorable(arith, codec, cfg, cs)
  {
    if cs != [] {
      var n := |cs| - 1;
      NodeRunAgrees(arith, codec, show, cfg, cs[..n]);
      NodeStepAgrees(arith, codec, show, cfg, PythonRun(codec, cfg, cs[..n]).0, cs[n], n);
    }
  }

  /** The Node ledger and the Python ledger never diverge, over any run of fewer than 2^53 calls. */
  lemma {:induction false} NodeAndPythonLedgersAgree(show: Printer, cfg: Config, cs: seq<Charge>)
    requires ValidConfig(cfg) && AllPrinted(NodeArith, show, cs) && |cs| <= MAX_SAFE
    ensures NodeRun(NodeArith, show, cfg, cs) == Some(PythonRun(PythonCodec, cfg, cs))
  {
    NodeAlikePython();
    NodeRunAgrees(NodeArith, PythonCodec, show, cfg, cs);
  }

  // ---- Back to the ledger of numbers --------------------------------------------------------

  function ReservationFor(c: Charge): Reservation { Reservation(c.chain, Valid(c.amount), c.now) }

  lemma ResultsMean(codec: Codec, recs: seq<Record>, book: Stored, c: Charge)
    requires Exact(codec)
    ensures AllPending(BookOf(codec, book), recs, c.now, Val(c.amount))
       <==> forall i :: 0 <= i < |recs| ==> PythonResults(codec, recs, book, c)[i].Some?
    ensures AllPending(BookOf(codec, book), recs, c.now, Val(c.amount)) ==>
      Meanings(codec, Values(PythonResults(codec, recs, book, c))) == Charged(BookOf(codec, book), recs, c.now, Val(c.amount))
  {
    var rs := PythonResults(codec, recs, book, c);
    forall i | 0 <= i < |recs|
      ensures MeaningOf(codec, rs[i]) == Pending(recs[i], Get(BookOf(codec, book), recs[i].key), c.now, Val(c.amount))
    {
      StoredPendingExact(codec, recs[i], Get(book, recs[i].key), c.now, c.amount);
      assert MeaningOf(codec, Get(book, recs[i].key)) == Get(BookOf(codec, book), recs[i].key);
    }
  }

  /** A step on stored text is a step of the ledger of numbers. */
  lemma PythonStepMeans(codec: Codec, cfg: Config, book: Stored, c: Charge)
    requires Exact(codec)
    ensures (match PythonStep(codec, cfg, book, c) { case None => None case Some(next) => Some(BookOf(codec, next)) })
         == BudgetReserve(cfg, BookOf(codec, book), ReservationFor(c))
  {
    if Records(cfg, c.chain, c.now).Ok? {
      var recs := Records(cfg, c.chain, c.now).value;
      ResultsMean(codec, recs, book, c);
      assert BookOf(codec, Purged(book, c.now)) == PurgeBook(BookOf(codec, book), c.now);
      if AllPending(BookOf(codec, book), recs, c.now, Val(c.amount)) {
        AssignMeans(codec, Purged(book, c.now), KeysOf(recs), Values(PythonResults(codec, recs, book, c)));
      }
    }
  }

  function ReservationsFor(cs: seq<Charge>): (rs: seq<Reservation>)
    ensures |rs| == |cs|
    ensures forall i :: 0 <= i < |cs| ==> rs[i] == ReservationFor(cs[i])
  {
    seq(|cs|, i requires 0 <= i < |cs| => ReservationFor(cs[i]))
  }

  /** A run on stored text decides as the ledger of numbers and stores what its entries are worth. */
  lemma {:induction false} PythonRunMeans(codec: Codec, cfg: Config, cs: seq<Charge>)
    requires Exact(codec)
    ensures PythonRun(codec, cfg, cs).1 == BudgetRun(cfg, ReservationsFor(cs)).1
    ensures BookOf(codec, PythonRun(codec, cfg, cs).0) == BudgetRun(cfg, ReservationsFor(cs)).0
  {
    if cs != [] {
      var n := |cs| - 1;
      PythonRunMeans(codec, cfg, cs[..n]);
      assert ReservationsFor(cs)[..n] == ReservationsFor(cs[..n]);
      PythonStepMeans(codec, cfg, PythonRun(codec, cfg, cs[..n]).0, cs[n]);
    }
  }
}

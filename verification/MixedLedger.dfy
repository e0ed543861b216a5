/**
  Python and Node verifiers on one Redis key prefix. Entries are stored with
  their totals as text; each client re-checks with the arithmetic of its own
  runtime and seen what clients of either runtime wrote. Every interleaving is
  a run of the ledger of numbers.
 */
module MixedLedger {
  import opened Wrappers
  import opened JsonValues
  import opened TokenClaims
  import opened Decimals
  import opened DecimalContext
  import opened Ledger
  import opened LedgerRuns
  import opened BudgetTracker
  import opened NodeLedger
  import opened Maps
  import opened ContextLedger
  import opened RedisProtocol
  import opened RedisTranslation
  import opened RedisLedgerProof
  import opened RedisLedgerTheorems
  import opened Policy
  import opened Authorization
  import opened Confinement
  import opened TrackerRuns

  datatype Runtime = Python | Node

  // The protocol's parameters, the runtime of each client, the two arithmetics, and how
  // numbers print.
  datatype World = World(
    p: Params, runtimes: seq<Runtime>, arith: Arith, codec: Codec, bounds: Bounds,
    limitText: NodeRuns.Printer, amountText: Dec -> string)

  ghost predicate Sound(w: World) {
    ValidParams(w.p) && Alike(w.arith, w.codec) && Exact(w.codec) && KeepsScale(w.codec) && Roomy(w.bounds)
  }

  type StoredState = StateOf<StoredEntry>

  function RuntimeOf(w: World, i: nat): Runtime { if i < |w.runtimes| then w.runtimes[i] else Python }

  /** The charge as the runtimes see it: the number and its text. */
  function ChargeOf(w: World, chain: seq<Claims>, d: Dec, now: real): NodeRuns.Charge {
    NodeRuns.Charge(chain, d, w.amountText(d), now)
  }

  /** The amount is a finite double, and it and the limits print as what they are worth. */
  ghost predicate Presentable(w: World, chain: seq<Claims>, amount: Amount) {
    amount.Valid? ==>
      && Fits(amount.d, w.bounds.scale, w.bounds.size)
      && NodeRuns.Printed(w.arith, w.limitText, ChargeOf(w, chain, amount.d, 0.0))
  }

  // ---- The re-check of each runtime ------------------------------------------------------------

  function RecordsBy(w: World, rt: Runtime, chain: seq<Claims>, now: real): Result<seq<Record>, Refusal> {
    if rt.Node? then NodeRecords(w.p.cfg, chain, now) else Records(w.p.cfg, chain, now)
  }

  /** One charge: Python adds in the decimal context, Node adds texts and doubles. */
  function PendingBy(w: World, rt: Runtime, rec: Record, current: Option<StoredEntry>, now: real, d: Dec)
    : Option<StoredEntry>
  {
    if rt.Python? then ContextPending(w.bounds.prec, w.codec, rec, current, now, d)
    else if rec.minor <= MAX_SAFE && Storable(w.arith, BaseOf(current))
    then NodePending(w.arith, rec, NodeRuns.LimitText(w.limitText, rec), current, now, w.amountText(d))
    else None
  }

  function ResultsBy(w: World, rt: Runtime, recs: seq<Record>, got: seq<Option<StoredEntry>>, now: real, d: Dec)
    : (rs: seq<Option<StoredEntry>>)
    requires |recs| == |got|
    ensures |rs| == |recs|
  {
    seq(|recs|, i requires 0 <= i < |recs| => PendingBy(w, rt, recs[i], got[i], now, d))
  }

  /** The second clock reading of a client of this runtime. */
  function RecheckBy(w: World, rt: Runtime, s: StoredState, c: ClientOf<StoredEntry>): PhaseOf<StoredEntry>
    requires c.phase.Reading? && c.amount.Valid?
  {
    match RecordsBy(w, rt, c.chain, s.clock)
    case Err(_) => Done(Rejected)
    case Ok(recs) =>
      var got := c.phase.got;
      if |recs| != |got| then Done(Rejected)
      else
        var rs := ResultsBy(w, rt, recs, got, s.clock, c.amount.d);
        if exists i :: 0 <= i < |rs| && rs[i].None? then Done(Rejected)
        else Ready(c.phase.keys, c.phase.seen, got, s.clock, NodeRuns.Values(rs))
  }

  ghost function MixedApply(w: World, s: StoredState, a: Action): Option<StoredState> {
    if a.Recheck? then
      if Rechecks(s, a)
      then Some(Put(s, a.client, s.clients[a.client].(
             phase := RecheckBy(w, RuntimeOf(w, a.client), s, s.clients[a.client]))))
      else None
    else if a.Call? && !Presentable(w, a.chain, a.amount) then None
    else CommonStep(w.p, s, a)
  }

  /** The state after a run of n clients of mixed runtimes from an empty server. */
  ghost function MixedRun(w: World, n: nat, clock: real, acts: seq<Action>): Option<StoredState> {
    if acts == [] then Some(Initial(n, clock))
    else
      match MixedRun(w, n, clock, acts[..|acts| - 1])
      case None => None
      case Some(s) => MixedApply(w, s, acts[|acts| - 1])
  }

  // ---- What stored entries satisfy ---------------------------------------------------------------

  /** An entry charged at most m times. */
  ghost predicate Fine(w: World, e: StoredEntry, m: nat) {
    Storable(w.arith, e) && e.calls <= m && Small(w.bounds, w.codec.read(e.usd), m)
  }

  ghost predicate ReadsFine(w: World, got: seq<Option<StoredEntry>>, m: nat) {
    forall i :: 0 <= i < |got| && got[i].Some? ==> Fine(w, got[i].value, m)
  }

  ghost predicate EntriesFine(w: World, es: seq<StoredEntry>, m: nat) {
    forall i :: 0 <= i < |es| ==> Fine(w, es[i], m)
  }

  ghost predicate DbFine(w: World, db: map<Key, CellOf<StoredEntry>>, m: nat) {
    forall k :: k in db ==> Fine(w, db[k].entry, m)
  }

  ghost predicate ClientFine(w: World, c: ClientOf<StoredEntry>, m: nat) {
    && (Presentable(w, c.chain, c.amount))
    && (c.phase.Reading? ==> ReadsFine(w, c.phase.got, m))
    && (c.phase.Ready? ==> ReadsFine(w, c.phase.got, m) && EntriesFine(w, c.phase.pending, m))
  }

  ghost predicate StateFine(w: World, s: StoredState, m: nat) {
    DbFine(w, s.db, m) && forall i :: 0 <= i < |s.clients| ==> ClientFine(w, s.clients[i], m)
  }

  lemma FineGrows(w: World, e: StoredEntry, m: nat)
    requires Fine(w, e, m)
    ensures Fine(w, e, m + 1)
  {
    SmallGrows(w.bounds, w.codec.read(e.usd), m);
  }

  lemma ClientFineGrows(w: World, c: ClientOf<StoredEntry>, m: nat)
    requires ClientFine(w, c, m)
    ensures ClientFine(w, c, m + 1)
  {
    if c.phase.Reading? || c.phase.Ready? {
      var got := c.phase.got;
      forall i | 0 <= i < |got| && got[i].Some? ensures Fine(w, got[i].value, m + 1) { FineGrows(w, got[i].value, m); }
    }
    if c.phase.Ready? {
      var es := c.phase.pending;
      forall i | 0 <= i < |es| ensures Fine(w, es[i], m + 1) { FineGrows(w, es[i], m); }
    }
  }

  lemma StateFineGrows(w: World, s: StoredState, m: nat)
    requires StateFine(w, s, m)
    ensures StateFine(w, s, m + 1)
  {
    forall k | k in s.db ensures Fine(w, s.db[k].entry, m + 1) { FineGrows(w, s.db[k].entry, m); }
    forall i | 0 <= i < |s.clients| ensures ClientFine(w, s.clients[i], m + 1) { ClientFineGrows(w, s.clients[i], m); }
  }

  lemma PutFine(w: World, s: StoredState, i: nat, c: ClientOf<StoredEntry>, m: nat)
    requires StateFine(w, s, m) && i < |s.clients| && ClientFine(w, c, m)
    ensures StateFine(w, Put(s, i, c), m)
  {
  }

  lemma {:induction false} AssignFine(w: World, db: map<Key, CellOf<StoredEntry>>, ks: seq<Key>, cells: seq<CellOf<StoredEntry>>, m: nat)
    requires |ks| == |cells| && DbFine(w, db, m) && forall i :: 0 <= i < |cells| ==> Fine(w, cells[i].entry, m)
    ensures DbFine(w, Assign(db, ks, cells), m)
  {
    if ks != [] { AssignFine(w, db, ks[..|ks| - 1], cells[..|ks| - 1], m); }
  }

  lemma ReadFine(w: World, s: StoredState, c: ClientOf<StoredEntry>, m: nat)
    requires DbFine(w, s.db, m) && ClientFine(w, c, m) && c.phase.Reading? && |c.phase.got| < |c.phase.keys|
    ensures ClientFine(w, c.(phase := ReadStep(s, c.phase)), m)
  {
  }

  lemma CommitFine(w: World, s: StoredState, i: nat, recs: seq<Record>, m: nat)
    requires StateFine(w, s, m) && i < |s.clients| && s.clients[i].phase.Ready?
    requires |recs| == |s.clients[i].phase.pending|
    ensures StateFine(w, Commit(w.p, s, i, recs), m)
  {
    var ready := s.clients[i].phase;
    assert ClientFine(w, s.clients[i], m);
    AssignFine(w, s.db, KeysOf(recs), Cells(s, recs, ready.pending, ready.now), m);
  }

  lemma ExecFine(w: World, s: StoredState, i: nat, m: nat)
    requires StateFine(w, s, m) && i < |s.clients| && s.clients[i].phase.Ready? && ExecStep(w.p, s, i).Some?
    ensures StateFine(w, ExecStep(w.p, s, i).value, m)
  {
    var c := s.clients[i];
    if Unchanged(s, c.phase.keys, c.phase.seen) {
      CommitFine(w, s, i, Records(w.p.cfg, c.chain, c.phase.now).value, m);
    } else {
      assert ClientFine(w, c, m);
      PutFine(w, s, i, c.(attempts := c.attempts + 1, phase := if c.attempts + 1 >= w.p.maxRetries then Done(Exhausted) else Starting), m);
    }
  }

  lemma CommonStepFine(w: World, s: StoredState, a: Action, m: nat)
    requires StateFine(w, s, m) && !a.Recheck? && CommonStep(w.p, s, a).Some?
    requires a.Call? ==> Presentable(w, a.chain, a.amount)
    ensures StateFine(w, CommonStep(w.p, s, a).value, m)
  {
    if a.Exec? {
      ExecFine(w, s, a.client, m);
    } else if !a.Tick? && !a.Expire? {
      var i, s' := a.client, CommonStep(w.p, s, a).value;
      assert ClientFine(w, s.clients[i], m);
      if a.Read? { ReadFine(w, s, s.clients[i], m); }
      PutFine(w, s, i, s'.clients[i], m);
      assert s' == Put(s, i, s'.clients[i]);
    }
  }

  // ---- The re-check, translated --------------------------------------------------------------------

  /** The entry as the ledger of numbers knows it. */
  function Numeric(w: World): StoredEntry -> Entry { e => Meaning(w.codec, e) }

  lemma RecordsByAgree(w: World, rt: Runtime, chain: seq<Claims>, now: real)
    ensures RecordsBy(w, rt, chain, now) == Records(w.p.cfg, chain, now)
  {
    NodeRecordsAgree(w.p.cfg, chain, now);
  }

  /** Either runtime makes of an entry what the ledger of numbers makes of its meaning. */
  lemma PendingByAgrees(w: World, rt: Runtime, rec: Record, current: Option<StoredEntry>, now: real, d: Dec, m: nat)
    requires Sound(w) && Chargeable(rec) && Fits(d, w.bounds.scale, w.bounds.size)
    requires Denote(w.arith, rec, NodeRuns.LimitText(w.limitText, rec), w.amountText(d), d)
    requires (current.Some? ==> Fine(w, current.value, m)) && m < MAX_SAFE && m + 1 <= Pow10(w.bounds.count)
    ensures TranslateOption(Numeric(w), PendingBy(w, rt, rec, current, now, d))
         == Pending(rec, TranslateOption(Numeric(w), current), now, Val(d))
    ensures var next := PendingBy(w, rt, rec, current, now, d); next.Some? ==> Fine(w, next.value, m + 1)
  {
    NodePendingAgrees(w.arith, w.codec, rec, NodeRuns.LimitText(w.limitText, rec), current, now, w.amountText(d), d);
    PendingAgrees(w.bounds, w.codec, rec, current, now, d, m);
    StoredPendingExact(w.codec, rec, current, now, d);
  }

  lemma ResultsByAgree(w: World, rt: Runtime, s: StoredState, c: ClientOf<StoredEntry>, m: nat)
    requires Sound(w) && ClientFine(w, c, m) && c.phase.Reading? && c.amount.Valid?
    requires Records(w.p.cfg, c.chain, s.clock).Ok? && |Records(w.p.cfg, c.chain, s.clock).value| == |c.phase.got|
    requires m < MAX_SAFE && m + 1 <= Pow10(w.bounds.count)
    ensures var recs, got := Records(w.p.cfg, c.chain, s.clock).value, c.phase.got;
      var rs := ResultsBy(w, rt, recs, got, s.clock, c.amount.d);
      forall i :: 0 <= i < |recs| ==>
        && TranslateOption(Numeric(w), rs[i])
           == Pending(recs[i], TranslateReads(Numeric(w), got)[i], s.clock, Val(c.amount.d))
        && (rs[i].Some? ==> Fine(w, rs[i].value, m + 1))
  {
    var recs, got := Records(w.p.cfg, c.chain, s.clock).value, c.phase.got;
    NodeRuns.ChainIsChargeable(w.p.cfg, c.chain, s.clock);
    NodeRuns.RecordLimitsPrint(w.arith, w.limitText, w.p.cfg, ChargeOf(w, c.chain, c.amount.d, s.clock));
    forall i | 0 <= i < |recs|
      ensures var rs := ResultsBy(w, rt, recs, got, s.clock, c.amount.d);
        && TranslateOption(Numeric(w), rs[i])
           == Pending(recs[i], TranslateReads(Numeric(w), got)[i], s.clock, Val(c.amount.d))
        && (rs[i].Some? ==> Fine(w, rs[i].value, m + 1))
    {
      assert Chargeable(recs[i]) && NodeRuns.LimitPrints(w.arith, w.limitText, recs[i]);
      PendingByAgrees(w, rt, recs[i], got[i], s.clock, c.amount.d, m);
    }
  }

  lemma ValuesAgree(f: StoredEntry -> Entry, recs: seq<Record>, rs: seq<Option<StoredEntry>>, seen: seq<Option<Entry>>,
                    now: real, amount: real)
    requires |recs| == |rs| == |seen|
    requires forall i :: 0 <= i < |recs| ==> TranslateOption(f, rs[i]) == Pending(recs[i], seen[i], now, amount)
    ensures RedisLedger.AllAccept(recs, seen, now, amount) <==> !exists i :: 0 <= i < |rs| && rs[i].None?
    ensures RedisLedger.AllAccept(recs, seen, now, amount) ==>
      TranslateEntries(f, NodeRuns.Values(rs)) == RedisLedger.Computed(recs, seen, now, amount)
  {
    if i :| 0 <= i < |rs| && rs[i].None? {
      assert TranslateOption(f, rs[i]).None? && Pending(recs[i], seen[i], now, amount).None?;
    } else {
      forall i | 0 <= i < |recs| ensures Pending(recs[i], seen[i], now, amount).Some? {
        assert TranslateOption(f, rs[i]).Some?;
      }
    }
  }

  /** A re-check of either runtime is the re-check of the ledger of numbers. */
  lemma RecheckByAgrees(w: World, rt: Runtime, s: StoredState, c: ClientOf<StoredEntry>, m: nat)
    requires Sound(w) && ClientFine(w, c, m) && c.phase.Reading? && c.amount.Valid?
    requires m < MAX_SAFE && m + 1 <= Pow10(w.bounds.count)
    ensures TranslatePhase(Numeric(w), RecheckBy(w, rt, s, c))
         == RedisLedger.RecheckStep(w.p, Translate(Numeric(w), s), TranslateClient(Numeric(w), c))
  {
    RecordsByAgree(w, rt, c.chain, s.clock);
    if Records(w.p.cfg, c.chain, s.clock).Ok? && |Records(w.p.cfg, c.chain, s.clock).value| == |c.phase.got| {
      DecidedRecheckAgrees(w, rt, s, c, m, Records(w.p.cfg, c.chain, s.clock).value);
    }
  }

  lemma RecheckByShape(w: World, rt: Runtime, s: StoredState, c: ClientOf<StoredEntry>, recs: seq<Record>)
    requires c.phase.Reading? && c.amount.Valid?
    requires RecordsBy(w, rt, c.chain, s.clock) == Ok(recs) && |recs| == |c.phase.got|
    ensures var rs := ResultsBy(w, rt, recs, c.phase.got, s.clock, c.amount.d);
      RecheckBy(w, rt, s, c) == if exists i :: 0 <= i < |rs| && rs[i].None? then Done(Rejected)
                                else Ready(c.phase.keys, c.phase.seen, c.phase.got, s.clock, NodeRuns.Values(rs))
  {
  }

  lemma RecheckStepShape(p: Params, s: RedisLedger.State, c: RedisLedger.Client, recs: seq<Record>)
    requires c.phase.Reading? && c.amount.Valid? && Records(p.cfg, c.chain, s.clock) == Ok(recs) && |recs| == |c.phase.got|
    ensures var got, amount := c.phase.got, Val(c.amount.d);
      RedisLedger.RecheckStep(p, s, c) ==
        if RedisLedger.AllAccept(recs, got, s.clock, amount)
        then Ready(c.phase.keys, c.phase.seen, got, s.clock, RedisLedger.Computed(recs, got, s.clock, amount))
        else Done(Rejected)
  {
  }

  lemma DecidedRecheckAgrees(w: World, rt: Runtime, s: StoredState, c: ClientOf<StoredEntry>, m: nat, recs: seq<Record>)
    requires Sound(w) && ClientFine(w, c, m) && c.phase.Reading? && c.amount.Valid?
    requires m < MAX_SAFE && m + 1 <= Pow10(w.bounds.count)
    requires Records(w.p.cfg, c.chain, s.clock) == Ok(recs) && RecordsBy(w, rt, c.chain, s.clock) == Ok(recs)
    requires |recs| == |c.phase.got|
    ensures TranslatePhase(Numeric(w), RecheckBy(w, rt, s, c))
         == RedisLedger.RecheckStep(w.p, Translate(Numeric(w), s), TranslateClient(Numeric(w), c))
  {
    ResultsByAgree(w, rt, s, c, m);
    ValuesAgree(Numeric(w), recs, ResultsBy(w, rt, recs, c.phase.got, s.clock, c.amount.d),
                TranslateReads(Numeric(w), c.phase.got), s.clock, Val(c.amount.d));
    RecheckByShape(w, rt, s, c, recs);
    RecheckStepShape(w.p, Translate(Numeric(w), s), TranslateClient(Numeric(w), c), recs);
  }

  lemma RecheckByFine(w: World, rt: Runtime, s: StoredState, c: ClientOf<StoredEntry>, m: nat)
    requires Sound(w) && ClientFine(w, c, m) && c.phase.Reading? && c.amount.Valid?
    requires m < MAX_SAFE && m + 1 <= Pow10(w.bounds.count)
    ensures ClientFine(w, c.(phase := RecheckBy(w, rt, s, c)), m + 1)
  {
    RecordsByAgree(w, rt, c.chain, s.clock);
    ClientFineGrows(w, c, m);
    if Records(w.p.cfg, c.chain, s.clock).Ok? && |Records(w.p.cfg, c.chain, s.clock).value| == |c.phase.got| {
      ResultsByAgree(w, rt, s, c, m);
    }
  }

  /** Each step of the shared store is possible exactly when it is for the ledger of numbers, and does the same. */
  lemma MixedStepIsNumeric(w: World, s: StoredState, a: Action, m: nat)
    requires Sound(w) && StateFine(w, s, m) && (a.Call? ==> Presentable(w, a.chain, a.amount))
    requires m < MAX_SAFE && m + 1 <= Pow10(w.bounds.count)
    ensures RedisLedger.Apply(w.p, Translate(Numeric(w), s), a)
         == match MixedApply(w, s, a) { case None => None case Some(t) => Some(Translate(Numeric(w), t)) }
    ensures MixedApply(w, s, a).Some? ==> StateFine(w, MixedApply(w, s, a).value, m + 1)
  {
    StateFineGrows(w, s, m);
    if a.Recheck? {
      if Rechecks(s, a) {
        var i := a.client;
        var c, rt := s.clients[i], RuntimeOf(w, i);
        assert ClientFine(w, c, m);
        RecheckByAgrees(w, rt, s, c, m);
        RecheckByFine(w, rt, s, c, m);
        PutTranslates(Numeric(w), s, i, c.(phase := RecheckBy(w, rt, s, c)));
        PutFine(w, s, i, c.(phase := RecheckBy(w, rt, s, c)), m + 1);
      }
    } else {
      StepTranslates(Numeric(w), w.p, s, a);
      if MixedApply(w, s, a).Some? { CommonStepFine(w, s, a, m + 1); }
    }
  }

  /**
    Every run of clients of mixed runtimes over stored text is, action by action,
    a run of the ledger of numbers: whatever is proved of that holds of this.
   */
  lemma {:induction false} MixedRunIsNumeric(w: World, n: nat, clock: real, acts: seq<Action>)
    requires Sound(w) && MixedRun(w, n, clock, acts).Some? && |acts| <= MAX_SAFE && |acts| <= Pow10(w.bounds.count)
    ensures RedisLedger.Run(w.p, n, clock, acts) == Some(Translate(Numeric(w), MixedRun(w, n, clock, acts).value))
    ensures StateFine(w, MixedRun(w, n, clock, acts).value, |acts|)
  {
    if acts == [] {
      InitialTranslates(Numeric(w), n, clock);
    } else {
      var m := |acts| - 1;
      MixedRunIsNumeric(w, n, clock, acts[..m]);
      MixedStepIsNumeric(w, MixedRun(w, n, clock, acts[..m]).value, acts[m], m);
    }
  }

  // ---- What the shared ledger promises --------------------------------------------------------------

  /** The SDKs' own arithmetic, with the 1000-digit context in Python. */
  ghost predicate OfTheSdks(w: World) {
    ValidParams(w.p) && w.arith == NodeArith && w.codec == PythonCodec && w.bounds == Binary64
  }

  lemma {:induction false} SdksAreSound(w: World)
    requires OfTheSdks(w)
    ensures Sound(w)
  {
    NodeAlikePython();
    PythonCodecExact();
    PythonKeepsScale();
  }

  /** Powers of ten of runs as long as doubles can count. */
  lemma {:induction false} SafeRunsAreShort()
    ensures MAX_SAFE <= Pow10(RUN_LENGTH_DIGITS)
  {
    assert Shift(1, 8) == 100000000;
    ShiftShift(1, 8, 8);
    ShiftIsProduct(Shift(1, 8), 8);
    ShiftShift(1, 16, RUN_LENGTH_DIGITS - 16);
    ShiftGrows(Shift(1, 16), RUN_LENGTH_DIGITS - 16);
  }

  /**
    Python and Node clients sharing one store, in any interleaving of fewer than
    2^53 actions: the commits of both, in commit order, are one legal sequential
    run; every stored text is worth what that run charged; and no allowance is
    exceeded, whichever runtime made the charges.
   */
  lemma {:induction false} MixedCommitsAreSequential(w: World, n: nat, clock: real, acts: seq<Action>)
    requires OfTheSdks(w) && MixedRun(w, n, clock, acts).Some? && |acts| <= MAX_SAFE
    ensures var s := MixedRun(w, n, clock, acts).value;
      && Replay(w.p.cfg, s.log).Some?
      && (forall k :: Ascending(Times(w.p.cfg, s.log, k)))
      && (forall k :: k in s.db ==> Get(Replay(w.p.cfg, s.log).value, k) == Some(Meaning(w.codec, s.db[k].entry)))
      && (forall k :: HasTemplate(w.p.cfg, w.p.known, k) ==>
            && WithinCount(Calls(w.p.cfg, s.log, k), Template(w.p.cfg, w.p.known, k).calls)
            && WithinCount(Minor(w.p.cfg, s.log, k), Template(w.p.cfg, w.p.known, k).minorLimit)
            && (Calls(w.p.cfg, s.log, k) > 0 ==> Within(Spent(w.p.cfg, s.log, k), Template(w.p.cfg, w.p.known, k).usd)))
  {
    SdksAreSound(w);
    SafeRunsAreShort();
    MixedRunIsNumeric(w, n, clock, acts);
    CommitsAreSequential(w.p, n, clock, acts);
    var s := MixedRun(w, n, clock, acts).value;
    forall k | k in s.db ensures Get(Replay(w.p.cfg, s.log).value, k) == Some(Meaning(w.codec, s.db[k].entry)) {
      assert Translate(Numeric(w), s).db[k].entry == Meaning(w.codec, s.db[k].entry);
    }
    forall k | HasTemplate(w.p.cfg, w.p.known, k)
      ensures WithinCount(Calls(w.p.cfg, s.log, k), Template(w.p.cfg, w.p.known, k).calls)
      ensures WithinCount(Minor(w.p.cfg, s.log, k), Template(w.p.cfg, w.p.known, k).minorLimit)
      ensures Calls(w.p.cfg, s.log, k) > 0 ==> Within(Spent(w.p.cfg, s.log, k), Template(w.p.cfg, w.p.known, k).usd)
    {
      NoOverspend(w.p, n, clock, acts, k);
    }
  }

  /** And what is executed through it under a policy-bound root stays inside one grant. */
  lemma {:induction false} MixedRunConfined(grants: seq<Grant>, root: Token, w: World, n: nat, clock: real,
                                            acts: seq<Action>, run: seq<Execution>) returns (g: Grant)
    requires Issued(grants, root) && OfTheSdks(w) && MixedRun(w, n, clock, acts).Some? && |acts| <= MAX_SAFE
    requires Executed(BudgetAware, run) && MixedRun(w, n, clock, acts).value.log == Log(run)
    ensures HeldBy(g, grants, run, root.claims)
  {
    SdksAreSound(w);
    SafeRunsAreShort();
    MixedRunIsNumeric(w, n, clock, acts);
    g := RedisRunConfined(grants, root, w.p, n, clock, acts, run);
  }
}

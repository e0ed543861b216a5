/**
  Every interleaving of the Redis ledger protocol is a sequential run of the
  ideal ledger, in commit order, and key expiry never reopens an allowance.
 */
module RedisLedgerProof {
  import opened Wrappers
  import opened TokenClaims
  import opened Decimals
  import opened Ledger
  import opened LedgerRuns
  import opened RedisProtocol
  import opened RedisLedger

  ghost predicate ValidParams(p: Params) {
    ValidConfig(p.cfg) && p.maxRetries >= 1
  }

  /** The keys of a chain, whatever the clock says. */
  function ChainKeys(chain: seq<Claims>): seq<Key>
    requires chain != []
  {
    var last := chain[|chain| - 1].constraints;
    seq(|chain|, i requires 0 <= i < |chain| => TokenKey(chain[i].jti))
    + if last.sharedBudget.Some? then [BudgetKey(last.sharedBudget.value)] else []
  }

  lemma RecordsHaveChainKeys(cfg: Config, chain: seq<Claims>, now: real)
    requires ValidConfig(cfg) && Records(cfg, chain, now).Ok?
    ensures chain != [] && KeysOf(Records(cfg, chain, now).value) == ChainKeys(chain)
  {
  }

  // ---- The invariant -----------------------------------------------------------

  /** The server holds the ideal entry of a key, or the key's record is already due. */
  ghost predicate DbAgrees(s: State, book: Book) {
    && (forall k :: k in s.db ==>
          k in book && s.db[k].entry == book[k] && s.db[k].deadline >= book[k].expiry * 1000)
    && (forall k :: k in book && k !in s.db ==> book[k].expiry as real <= s.clock)
  }

  ghost predicate NoLater(ts: seq<real>, t: real) {
    forall i :: 0 <= i < |ts| ==> ts[i] <= t
  }

  /** What a watching client knows about a key nobody has touched since its WATCH. */
  ghost predicate SawCurrent(s: State, keys: seq<Key>, seen: seq<nat>, got: seq<Option<Entry>>) {
    && |seen| == |keys| && |got| <= |keys|
    && (forall i :: 0 <= i < |keys| ==> seen[i] <= Version(s, keys[i]))
    && (forall i :: 0 <= i < |got| && seen[i] == Version(s, keys[i]) ==> got[i] == Stored(s.db, keys[i]))
  }

  ghost predicate ReadySound(p: Params, s: State, book: Book, c: Client)
    requires c.phase.Ready? && c.amount.Valid?
  {
    var ready := c.phase;
    var amount := Val(c.amount.d);
    && ready.now <= s.clock
    && |ready.got| == |ready.keys| == |ready.seen|
    && Records(p.cfg, c.chain, ready.now).Ok?
    && var recs := Records(p.cfg, c.chain, ready.now).value;
    && |recs| == |ready.got|
    && AllAccept(recs, ready.got, ready.now, amount)
    && ready.pending == Computed(recs, ready.got, ready.now, amount)
    && forall i :: 0 <= i < |ready.keys| && ready.seen[i] == Version(s, ready.keys[i]) ==>
         && (ready.keys[i] in book && ready.keys[i] !in s.db ==> book[ready.keys[i]].expiry as real <= ready.now)
         && NoLater(Times(p.cfg, s.log, ready.keys[i]), ready.now)
  }

  predicate Active(phase: Phase) { !phase.Idle? && !phase.Done? }

  predicate Watching(phase: Phase) { phase.Reading? || phase.Ready? }

  ghost predicate ClientSound(p: Params, s: State, book: Book, c: Client) {
    && c.attempts <= p.maxRetries
    && c.writes == (if c.phase == Done(Accepted) then 1 else 0)
    && (Active(c.phase) ==> c.attempts < p.maxRetries && c.amount.Valid? && FromKnown(p.known, c.chain))
    && (c.phase.Named? || Watching(c.phase) ==> c.chain != [] && c.phase.keys == ChainKeys(c.chain))
    && (Watching(c.phase) ==> SawCurrent(s, c.phase.keys, c.phase.seen, c.phase.got))
    && (Active(c.phase) && c.phase.Ready? ==> ReadySound(p, s, book, c))
  }

  ghost predicate LogOrdered(cfg: Config, log: seq<Reservation>) {
    forall k :: Ascending(Times(cfg, log, k))
  }

  ghost predicate LogBefore(cfg: Config, log: seq<Reservation>, t: real) {
    forall k :: NoLater(Times(cfg, log, k), t)
  }

  ghost predicate Inv(p: Params, s: State) {
    && LogFromKnown(p.known, s.log)
    && Replay(p.cfg, s.log).Some?
    && LogOrdered(p.cfg, s.log)
    && LogBefore(p.cfg, s.log, s.clock)
    && DbAgrees(s, Replay(p.cfg, s.log).value)
    && ClientsSound(p, s, Replay(p.cfg, s.log).value)
  }

  // ---- Steps keep what other clients rely on --------------------------------------

  /** A key whose version stands still keeps its stored entry, ideal entry and history. */
  ghost predicate Evolves(p: Params, s: State, book: Book, s': State, book': Book) {
    && s.clock <= s'.clock
    && (forall k :: Version(s, k) <= Version(s', k))
    && (forall k :: Version(s, k) == Version(s', k) ==>
          && Stored(s.db, k) == Stored(s'.db, k)
          && Get(book, k) == Get(book', k)
          && Times(p.cfg, s.log, k) == Times(p.cfg, s'.log, k))
  }

  lemma OtherClientKept(p: Params, s: State, book: Book, s': State, book': Book, c: Client)
    requires ClientSound(p, s, book, c) && Evolves(p, s, book, s', book')
    ensures ClientSound(p, s', book', c)
  {
    if c.phase.Reading? || c.phase.Ready? {
      var keys, seen, got := c.phase.keys, c.phase.seen, c.phase.got;
      forall i | 0 <= i < |keys| ensures seen[i] <= Version(s', keys[i]) {
        assert Version(s, keys[i]) <= Version(s', keys[i]);
      }
      forall i | 0 <= i < |got| && seen[i] == Version(s', keys[i])
        ensures got[i] == Stored(s'.db, keys[i])
      {
        assert Version(s, keys[i]) == Version(s', keys[i]);
      }
      if c.phase.Ready? {
        forall i | 0 <= i < |keys| && seen[i] == Version(s', keys[i])
          ensures keys[i] in book' && keys[i] !in s'.db ==> book'[keys[i]].expiry as real <= c.phase.now
          ensures NoLater(Times(p.cfg, s'.log, keys[i]), c.phase.now)
        {
          assert Version(s, keys[i]) == Version(s', keys[i]);
          assert Get(book, keys[i]) == Get(book', keys[i]);
          assert Stored(s.db, keys[i]) == Stored(s'.db, keys[i]);
        }
      }
    }
  }

  ghost predicate ClientsSound(p: Params, s: State, book: Book) {
    forall i :: 0 <= i < |s.clients| ==> ClientSound(p, s, book, s.clients[i])
  }

  lemma ClientsKept(p: Params, s: State, book: Book, s': State, book': Book, i: nat)
    requires ClientsSound(p, s, book) && Evolves(p, s, book, s', book')
    requires i < |s'.clients| == |s.clients| && s'.clients == s.clients[i := s'.clients[i]]
    requires ClientSound(p, s', book', s'.clients[i])
    ensures ClientsSound(p, s', book')
  {
    forall j | 0 <= j < |s'.clients| ensures ClientSound(p, s', book', s'.clients[j]) {
      if j != i {
        OtherClientKept(p, s, book, s', book', s.clients[j]);
      }
    }
  }

  lemma EvolvesQuietly(p: Params, s: State, s': State, book: Book)
    requires s.clock <= s'.clock && s.db == s'.db && s.version == s'.version && s.log == s'.log
    ensures Evolves(p, s, book, s', book)
  {
  }

  // ---- Server steps ------------------------------------------------------------

  lemma TickKeeps(p: Params, s: State, time: real)
    requires Inv(p, s) && time >= s.clock
    ensures Inv(p, s.(clock := time))
  {
    var s' := s.(clock := time);
    var book := Replay(p.cfg, s.log).value;
    EvolvesQuietly(p, s, s', book);
    forall i | 0 <= i < |s.clients| ensures ClientSound(p, s', book, s.clients[i]) {
      OtherClientKept(p, s, book, s', book, s.clients[i]);
    }
    forall k ensures NoLater(Times(p.cfg, s.log, k), time) {
      assert NoLater(Times(p.cfg, s.log, k), s.clock);
    }
  }

  lemma MillisAtLeast(t: real, deadline: int)
    requires Millis(t) >= deadline * 1000
    ensures deadline as real <= t
  {
    assert (t * 1000.0).Floor as real <= t * 1000.0;
  }

  lemma ExpireKeeps(p: Params, s: State, k: Key)
    requires Inv(p, s) && Due(s, k)
    ensures Inv(p, Apply(p, s, Expire(k)).value)
  {
    var s' := Apply(p, s, Expire(k)).value;
    var book := Replay(p.cfg, s.log).value;
    MillisAtLeast(s.clock, book[k].expiry);
    assert Version(s', k) == Version(s, k) + 1;
    assert forall k' :: k' != k ==> Version(s', k') == Version(s, k') && Stored(s.db, k') == Stored(s'.db, k');
    assert Evolves(p, s, book, s', book);
    forall i | 0 <= i < |s.clients| ensures ClientSound(p, s', book, s.clients[i]) {
      OtherClientKept(p, s, book, s', book, s.clients[i]);
    }
  }

  // ---- Client steps that change nothing on the server --------------------------------

  /** Steps that only move one client's own state keep the invariant. */
  lemma QuietKeeps(p: Params, s: State, s': State, i: nat)
    requires Inv(p, s) && i < |s.clients| == |s'.clients|
    requires s'.clock == s.clock && s'.db == s.db && s'.version == s.version && s'.log == s.log
    requires s'.clients == s.clients[i := s'.clients[i]]
    requires ClientSound(p, s, Replay(p.cfg, s.log).value, s'.clients[i])
    ensures Inv(p, s')
  {
    var book := Replay(p.cfg, s.log).value;
    EvolvesQuietly(p, s, s', book);
    OtherClientKept(p, s, book, s', book, s'.clients[i]);
    ClientsKept(p, s, book, s', book, i);
  }

  lemma WatchSound(p: Params, s: State, c: Client)
    requires Inv(p, s) && ClientSound(p, s, Replay(p.cfg, s.log).value, c) && c.phase.Named?
    ensures ClientSound(p, s, Replay(p.cfg, s.log).value,
                        c.(phase := Reading(c.phase.keys, Versions(s, c.phase.keys), [])))
  {
  }

  lemma ReadSound(p: Params, s: State, c: Client)
    requires Inv(p, s) && ClientSound(p, s, Replay(p.cfg, s.log).value, c)
    requires c.phase.Reading? && |c.phase.got| < |c.phase.keys|
    ensures ClientSound(p, s, Replay(p.cfg, s.log).value, c.(phase := ReadStep(s, c.phase)))
  {
  }

  /**
    After the re-check, a key read as missing is either new or its record is due:
    the server only drops a key once its record's expiry has passed.
   */
  lemma RecheckSound(p: Params, s: State, c: Client)
    requires ValidParams(p) && Inv(p, s) && ClientSound(p, s, Replay(p.cfg, s.log).value, c)
    requires c.phase.Reading? && |c.phase.got| == |c.phase.keys| && c.amount.Valid?
    ensures ClientSound(p, s, Replay(p.cfg, s.log).value, c.(phase := RecheckStep(p, s, c)))
  {
    var book := Replay(p.cfg, s.log).value;
    var phase := RecheckStep(p, s, c);
    if phase.Ready? {
      forall i | 0 <= i < |phase.keys|
        ensures phase.keys[i] in book && phase.keys[i] !in s.db ==> book[phase.keys[i]].expiry as real <= phase.now
        ensures NoLater(Times(p.cfg, s.log, phase.keys[i]), phase.now)
      {
      }
    }
  }

  // ---- EXEC ------------------------------------------------------------------------

  /** What the client read and nobody touched is what the ideal ledger holds. */
  lemma ReadsAreIdeal(p: Params, s: State, c: Client, i: nat)
    requires ValidParams(p) && Inv(p, s) && ClientSound(p, s, Replay(p.cfg, s.log).value, c)
    requires c.phase.Ready? && Unchanged(s, c.phase.keys, c.phase.seen) && i < |c.phase.keys|
    ensures i < |Records(p.cfg, c.chain, c.phase.now).value|
    ensures Records(p.cfg, c.chain, c.phase.now).value[i].key == c.phase.keys[i]
    ensures c.phase.got[i] == Get(Replay(p.cfg, s.log).value, c.phase.keys[i])
  {
    var book := Replay(p.cfg, s.log).value;
    var k := c.phase.keys[i];
    var recs := Records(p.cfg, c.chain, c.phase.now).value;
    RecordsHaveChainKeys(p.cfg, c.chain, c.phase.now);
    assert KeysOf(recs)[i] == recs[i].key;
    assert c.phase.got[i] == Stored(s.db, k);
    if k in book && k !in s.db {
      ReplayWithin(p.cfg, p.known, s.log);
      RecordsFollowTemplate(p.cfg, p.known, c.chain, c.phase.now, i);
      RecordsUnexpired(p.cfg, c.chain, c.phase.now, i);
      assert false;
    }
  }

  /** A commit is the ideal ledger's own reservation, computed from its own entries. */
  lemma CommitIsReservation(p: Params, s: State, c: Client)
    requires ValidParams(p) && Inv(p, s) && ClientSound(p, s, Replay(p.cfg, s.log).value, c)
    requires c.phase.Ready? && Unchanged(s, c.phase.keys, c.phase.seen)
    ensures var book := Replay(p.cfg, s.log).value;
      var recs := Records(p.cfg, c.chain, c.phase.now).value;
      && |recs| == |c.phase.pending|
      && Reserve(p.cfg, book, Reservation(c.chain, c.amount, c.phase.now))
         == Some(Write(book, recs, c.phase.pending))
  {
    var book := Replay(p.cfg, s.log).value;
    var recs := Records(p.cfg, c.chain, c.phase.now).value;
    var amount := Val(c.amount.d);
    forall i | 0 <= i < |recs|
      ensures c.phase.got[i] == Get(book, recs[i].key)
    {
      ReadsAreIdeal(p, s, c, i);
    }
    assert AllPending(book, recs, c.phase.now, amount);
    assert Charged(book, recs, c.phase.now, amount) == c.phase.pending;
  }

  /** The rounded-up TTL keeps the key at least to its record's expiry. */
  lemma TtlReachesExpiry(clock: real, now: real, expiry: int)
    requires now <= clock
    ensures Millis(clock) + TtlMillis(expiry, now) >= expiry * 1000
  {
    var x := now * 1000.0;
    var y := (expiry as real - now) * 1000.0;
    assert y == (expiry * 1000) as real - x;
    assert (-y).Floor as real <= -y < (-y).Floor as real + 1.0;
    assert x.Floor as real <= x < x.Floor as real + 1.0;
    assert Ceil(y) == expiry * 1000 - x.Floor;
    assert x.Floor <= (clock * 1000.0).Floor by {
      assert x <= clock * 1000.0;
    }
  }

  lemma TimesExtend(cfg: Config, log: seq<Reservation>, r: Reservation, k: Key)
    ensures Times(cfg, log + [r], k) == Times(cfg, log, k) + NewTime(cfg, r, k)
  {
    assert (log + [r])[..|log|] == log;
  }

  lemma WriteAgrees(s: State, book: Book, recs: seq<Record>, pending: seq<Entry>, now: real)
    requires DbAgrees(s, book) && DistinctRecords(recs) && |recs| == |pending| && now <= s.clock
    requires forall j :: 0 <= j < |recs| ==> pending[j].expiry == recs[j].expiry
    ensures DbAgrees(s.(db := Write(s.db, recs, Cells(s, recs, pending, now))), Write(book, recs, pending))
  {
    var cells := Cells(s, recs, pending, now);
    WriteEffect(book, recs, pending);
    WriteEffect(s.db, recs, cells);
    var db', book' := Write(s.db, recs, cells), Write(book, recs, pending);
    forall k | k in db'
      ensures k in book' && db'[k].entry == book'[k] && db'[k].deadline >= book'[k].expiry * 1000
    {
      if k in RecordKeys(recs) {
        var j :| 0 <= j < |recs| && recs[j].key == k;
        TtlReachesExpiry(s.clock, now, recs[j].expiry);
        assert db'[k] == cells[j] && book'[k] == pending[j];
      }
    }
  }

  lemma WriteStored(db: map<Key, Cell>, book: Book, recs: seq<Record>, cells: seq<Cell>, pending: seq<Entry>, k: Key)
    requires DistinctRecords(recs) && |recs| == |pending| == |cells| && k !in RecordKeys(recs)
    ensures Stored(db, k) == Stored(Write(db, recs, cells), k)
    ensures Get(book, k) == Get(Write(book, recs, pending), k)
  {
    WriteEffect(db, recs, cells);
    WriteEffect(book, recs, pending);
  }

  lemma CommitEvolves(p: Params, s: State, book: Book, i: nat, recs: seq<Record>)
    requires i < |s.clients| && s.clients[i].phase.Ready?
    requires Records(p.cfg, s.clients[i].chain, s.clients[i].phase.now) == Ok(recs)
    requires |recs| == |s.clients[i].phase.pending|
    ensures Evolves(p, s, book, Commit(p, s, i, recs), Write(book, recs, s.clients[i].phase.pending))
  {
    var c := s.clients[i];
    RecordsDistinct(p.cfg, c.chain, c.phase.now);
    var s', book' := Commit(p, s, i, recs), Write(book, recs, c.phase.pending);
    var r := Reservation(c.chain, c.amount, c.phase.now);
    forall k | Version(s, k) == Version(s', k)
      ensures Stored(s.db, k) == Stored(s'.db, k) && Get(book, k) == Get(book', k)
      ensures Times(p.cfg, s.log, k) == Times(p.cfg, s'.log, k)
    {
      assert k !in RecordKeys(recs);
      WriteStored(s.db, book, recs, Cells(s, recs, c.phase.pending, c.phase.now), c.phase.pending, k);
      TimesExtend(p.cfg, s.log, r, k);
      assert NewTime(p.cfg, r, k) == [];
    }
  }

  lemma OrderExtends(cfg: Config, log: seq<Reservation>, r: Reservation, clock: real)
    requires LogOrdered(cfg, log) && LogBefore(cfg, log, clock) && r.now <= clock
    requires forall k :: ChargeOn(cfg, r, k).Some? ==> NoLater(Times(cfg, log, k), r.now)
    ensures LogOrdered(cfg, log + [r]) && LogBefore(cfg, log + [r], clock)
  {
    forall k ensures Ascending(Times(cfg, log + [r], k)) && NoLater(Times(cfg, log + [r], k), clock) {
      assert Ascending(Times(cfg, log, k)) && NoLater(Times(cfg, log, k), clock);
      TimesExtend(cfg, log, r, k);
      TimesInOrder(Times(cfg, log, k), NewTime(cfg, r, k), r.now, clock);
    }
  }

  lemma TimesInOrder(times: seq<real>, more: seq<real>, now: real, clock: real)
    requires Ascending(times) && NoLater(times, clock) && now <= clock
    requires more == [] || (more == [now] && NoLater(times, now))
    ensures Ascending(times + more) && NoLater(times + more, clock)
  {
    if more == [] { assert times + more == times; }
  }

  lemma CommitKeepsOrder(p: Params, s: State, c: Client)
    requires ValidParams(p) && Inv(p, s) && ClientSound(p, s, Replay(p.cfg, s.log).value, c)
    requires c.phase.Ready? && Unchanged(s, c.phase.keys, c.phase.seen)
    ensures var log' := s.log + [Reservation(c.chain, c.amount, c.phase.now)];
      LogOrdered(p.cfg, log') && LogBefore(p.cfg, log', s.clock)
  {
    var r := Reservation(c.chain, c.amount, c.phase.now);
    forall k | ChargeOn(p.cfg, r, k).Some?
      ensures NoLater(Times(p.cfg, s.log, k), r.now)
    {
      var recs := Records(p.cfg, c.chain, c.phase.now).value;
      var j :| 0 <= j < |recs| && recs[j].key == k;
      ReadsAreIdeal(p, s, c, j);
    }
    OrderExtends(p.cfg, s.log, r, s.clock);
  }

  lemma CommitKeepsClients(p: Params, s: State, book: Book, i: nat, recs: seq<Record>)
    requires ClientsSound(p, s, book) && i < |s.clients| && s.clients[i].phase.Ready?
    requires Records(p.cfg, s.clients[i].chain, s.clients[i].phase.now) == Ok(recs)
    requires |recs| == |s.clients[i].phase.pending|
    ensures ClientsSound(p, Commit(p, s, i, recs), Write(book, recs, s.clients[i].phase.pending))
  {
    var s', book' := Commit(p, s, i, recs), Write(book, recs, s.clients[i].phase.pending);
    CommitEvolves(p, s, book, i, recs);
    AcceptedIsSound(p, s, book, s', book', s.clients[i]);
    ClientsKept(p, s, book, s', book', i);
  }

  lemma AcceptedIsSound(p: Params, s: State, book: Book, s': State, book': Book, c: Client)
    requires ClientSound(p, s, book, c) && c.phase.Ready?
    ensures ClientSound(p, s', book', c.(writes := c.writes + 1, phase := Done(Accepted)))
  {
  }

  lemma CommitKeepsStore(p: Params, s: State, book: Book, c: Client, recs: seq<Record>)
    requires DbAgrees(s, book) && c.phase.Ready? && c.amount.Valid? && ReadySound(p, s, book, c)
    requires Records(p.cfg, c.chain, c.phase.now) == Ok(recs) && |recs| == |c.phase.pending|
    ensures DbAgrees(s.(db := Write(s.db, recs, Cells(s, recs, c.phase.pending, c.phase.now))),
                     Write(book, recs, c.phase.pending))
  {
    RecordsDistinct(p.cfg, c.chain, c.phase.now);
    WriteAgrees(s, book, recs, c.phase.pending, c.phase.now);
  }

  lemma CommitKeeps(p: Params, s: State, i: nat, recs: seq<Record>)
    requires ValidParams(p) && Inv(p, s) && i < |s.clients|
    requires s.clients[i].phase.Ready? && Unchanged(s, s.clients[i].phase.keys, s.clients[i].phase.seen)
    requires Records(p.cfg, s.clients[i].chain, s.clients[i].phase.now) == Ok(recs)
    requires |recs| == |s.clients[i].phase.pending|
    ensures Inv(p, Commit(p, s, i, recs))
  {
    var c := s.clients[i];
    var book := Replay(p.cfg, s.log).value;
    var r := Reservation(c.chain, c.amount, c.phase.now);
    CommitIsReservation(p, s, c);
    CommitKeepsStore(p, s, book, c, recs);
    CommitKeepsOrder(p, s, c);
    ReplayExtend(p.cfg, s.log, r);
    CommitKeepsClients(p, s, book, i, recs);
  }

  // ---- Every run ---------------------------------------------------------------------

  lemma StepKeeps(p: Params, s: State, a: Action)
    requires ValidParams(p) && Inv(p, s) && Apply(p, s, a).Some?
    ensures Inv(p, Apply(p, s, a).value)
  {
    match a
    case Tick(time) => TickKeeps(p, s, time);
    case Expire(k) => ExpireKeeps(p, s, k);
    case Exec(i) => ExecKeeps(p, s, i);
    case _ => PrepareKeeps(p, s, a);
  }

  lemma AbortSound(p: Params, s: State, book: Book, c: Client)
    requires ClientSound(p, s, book, c) && Active(c.phase)
    ensures var next := if c.attempts + 1 >= p.maxRetries then Done(Exhausted) else Starting;
      ClientSound(p, s, book, c.(attempts := c.attempts + 1, phase := next))
  {
  }

  lemma AbortKeeps(p: Params, s: State, i: nat)
    requires ValidParams(p) && Inv(p, s) && i < |s.clients| && s.clients[i].phase.Ready?
    ensures Inv(p, Abort(p, s, i))
  {
    var c := s.clients[i];
    AbortSound(p, s, Replay(p.cfg, s.log).value, c);
    QuietKeeps(p, s, Abort(p, s, i), i);
  }

  lemma ExecKeeps(p: Params, s: State, i: nat)
    requires ValidParams(p) && Inv(p, s) && i < |s.clients| && s.clients[i].phase.Ready?
    requires ExecStep(p, s, i).Some?
    ensures Inv(p, ExecStep(p, s, i).value)
  {
    var c := s.clients[i];
    if Unchanged(s, c.phase.keys, c.phase.seen) {
      CommitKeeps(p, s, i, Records(p.cfg, c.chain, c.phase.now).value);
    } else {
      AbortKeeps(p, s, i);
    }
  }

  lemma PrepareKeeps(p: Params, s: State, a: Action)
    requires ValidParams(p) && Inv(p, s) && Apply(p, s, a).Some?
    requires a.Call? || a.Begin? || a.Watch? || a.Read? || a.Recheck?
    ensures Inv(p, Apply(p, s, a).value)
  {
    var i := a.client;
    var c := s.clients[i];
    var s' := Apply(p, s, a).value;
    match a {
      case Call(_, chain, amount) =>
      case Begin(_) =>
        if Records(p.cfg, c.chain, s.clock).Ok? { RecordsHaveChainKeys(p.cfg, c.chain, s.clock); }
      case Watch(_) => WatchSound(p, s, c);
      case Read(_) => ReadSound(p, s, c);
      case Recheck(_) => RecheckSound(p, s, c);
      case _ =>
    }
    QuietKeeps(p, s, s', i);
  }

  lemma {:induction false} RunKeeps(p: Params, n: nat, clock: real, acts: seq<Action>)
    requires ValidParams(p) && Run(p, n, clock, acts).Some?
    ensures Inv(p, Run(p, n, clock, acts).value)
  {
    if acts != [] {
      RunKeeps(p, n, clock, acts[..|acts| - 1]);
      StepKeeps(p, Run(p, n, clock, acts[..|acts| - 1]).value, acts[|acts| - 1]);
    }
  }
}

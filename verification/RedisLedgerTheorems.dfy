/** The promises of the Redis ledger, for every interleaving of any number of clients. */
module RedisLedgerTheorems {
  import opened Wrappers
  import opened TokenClaims
  import opened Decimals
  import opened Ledger
  import opened LedgerRuns
  import opened RedisProtocol
  import opened RedisLedger
  import opened RedisLedgerProof

  /**
    Linearizability: in every run the commits, in commit order, are a legal
    sequential run of the ideal ledger, and the commits of each key carry
    non-decreasing clock readings. Each commit's entries are the ideal ones.
   */
  lemma {:induction false} CommitsAreSequential(p: Params, n: nat, clock: real, acts: seq<Action>)
    requires ValidParams(p) && Run(p, n, clock, acts).Some?
    ensures var s := Run(p, n, clock, acts).value;
      && Replay(p.cfg, s.log).Some?
      && LogFromKnown(p.known, s.log)
      && (forall k :: Ascending(Times(p.cfg, s.log, k)))
      && (forall k :: k in s.db ==> Get(Replay(p.cfg, s.log).value, k) == Some(s.db[k].entry))
  {
    RunKeeps(p, n, clock, acts);
  }

  /**
    Key expiry never reopens an allowance: for every chain that is chargeable
    now, the server still holds exactly what the ideal ledger, which forgets
    nothing, holds for each of its records.
   */
  lemma {:induction false} ExpiryNeverReopens(p: Params, n: nat, clock: real, acts: seq<Action>, chain: seq<Claims>)
    requires ValidParams(p) && Run(p, n, clock, acts).Some? && FromKnown(p.known, chain)
    requires Records(p.cfg, chain, Run(p, n, clock, acts).value.clock).Ok?
    ensures var s := Run(p, n, clock, acts).value;
      && Replay(p.cfg, s.log).Some?
      && forall i :: 0 <= i < |Records(p.cfg, chain, s.clock).value| ==>
           var k := Records(p.cfg, chain, s.clock).value[i].key;
           Stored(s.db, k) == Get(Replay(p.cfg, s.log).value, k)
  {
    RunKeeps(p, n, clock, acts);
    var s := Run(p, n, clock, acts).value;
    var book := Replay(p.cfg, s.log).value;
    var recs := Records(p.cfg, chain, s.clock).value;
    forall i | 0 <= i < |recs| ensures Stored(s.db, recs[i].key) == Get(book, recs[i].key) {
      ReplayWithin(p.cfg, p.known, s.log);
      RecordsFollowTemplate(p.cfg, p.known, chain, s.clock, i);
      RecordsUnexpired(p.cfg, chain, s.clock, i);
    }
  }

  /** What an undisturbed client read for a chain that is chargeable now. */
  lemma UndisturbedReads(p: Params, s: State, c: Client, i: nat)
    requires ValidParams(p) && Inv(p, s) && ClientSound(p, s, Replay(p.cfg, s.log).value, c)
    requires c.phase.Reading? && |c.phase.got| == |c.phase.keys| && Unchanged(s, c.phase.keys, c.phase.seen)
    requires Records(p.cfg, c.chain, s.clock).Ok? && i < |Records(p.cfg, c.chain, s.clock).value|
    ensures |Records(p.cfg, c.chain, s.clock).value| == |c.phase.got|
    ensures c.phase.got[i] == Get(Replay(p.cfg, s.log).value, Records(p.cfg, c.chain, s.clock).value[i].key)
  {
    var recs := Records(p.cfg, c.chain, s.clock).value;
    RecordsHaveChainKeys(p.cfg, c.chain, s.clock);
    assert KeysOf(recs)[i] == recs[i].key;
    ReplayWithin(p.cfg, p.known, s.log);
    RecordsFollowTemplate(p.cfg, p.known, c.chain, s.clock, i);
    RecordsUnexpired(p.cfg, c.chain, s.clock, i);
  }

  /**
    No false refusals: in every run, a client whose watched keys nobody touched
    goes on to commit exactly when the ideal ledger would accept its reservation
    at this very reading.
   */
  lemma {:induction false} RecheckDecidesExactly(p: Params, n: nat, clock: real, acts: seq<Action>, i: nat)
    requires ValidParams(p) && Run(p, n, clock, acts).Some?
    requires i < |Run(p, n, clock, acts).value.clients|
    requires var s := Run(p, n, clock, acts).value;
      var c := s.clients[i];
      c.phase.Reading? && |c.phase.got| == |c.phase.keys| && Unchanged(s, c.phase.keys, c.phase.seen)
    ensures var s := Run(p, n, clock, acts).value;
      var c := s.clients[i];
      && c.amount.Valid? && Replay(p.cfg, s.log).Some?
      && (RecheckStep(p, s, c).Ready?
          <==> Reserve(p.cfg, Replay(p.cfg, s.log).value, Reservation(c.chain, c.amount, s.clock)).Some?)
  {
    RunKeeps(p, n, clock, acts);
    var s := Run(p, n, clock, acts).value;
    assert ClientSound(p, s, Replay(p.cfg, s.log).value, s.clients[i]);
    UndisturbedRecheck(p, s, s.clients[i]);
  }

  lemma UndisturbedRecheck(p: Params, s: State, c: Client)
    requires ValidParams(p) && Inv(p, s) && ClientSound(p, s, Replay(p.cfg, s.log).value, c)
    requires c.phase.Reading? && |c.phase.got| == |c.phase.keys| && Unchanged(s, c.phase.keys, c.phase.seen)
    requires c.amount.Valid?
    ensures RecheckStep(p, s, c).Ready?
       <==> Reserve(p.cfg, Replay(p.cfg, s.log).value, Reservation(c.chain, c.amount, s.clock)).Some?
  {
    if Records(p.cfg, c.chain, s.clock).Ok? {
      var recs, book := Records(p.cfg, c.chain, s.clock).value, Replay(p.cfg, s.log).value;
      RecordsDistinct(p.cfg, c.chain, s.clock);
      UndisturbedReads(p, s, c, 0);
      forall j | 0 <= j < |recs| ensures c.phase.got[j] == Get(book, recs[j].key) {
        UndisturbedReads(p, s, c, j);
      }
      assert AllAccept(recs, c.phase.got, s.clock, Val(c.amount.d)) <==> AllPending(book, recs, s.clock, Val(c.amount.d));
    }
  }

  /** Lifetime spend per shared budget and per token stays within its ceilings in every run. */
  lemma {:induction false} NoOverspend(p: Params, n: nat, clock: real, acts: seq<Action>, k: Key)
    requires ValidParams(p) && Run(p, n, clock, acts).Some? && HasTemplate(p.cfg, p.known, k)
    ensures var log := Run(p, n, clock, acts).value.log;
      var t := Template(p.cfg, p.known, k);
      && WithinCount(Calls(p.cfg, log, k), t.calls)
      && (Calls(p.cfg, log, k) > 0 ==> Within(Spent(p.cfg, log, k), t.usd))
      && WithinCount(Minor(p.cfg, log, k), t.minorLimit)
      && (t.rate.Some? ==>
            forall start :: WindowCount(Times(p.cfg, log, k), start) <= t.rate.value)
  {
    RunKeeps(p, n, clock, acts);
    var log := Run(p, n, clock, acts).value.log;
    LifetimeCeiling(p.cfg, p.known, log, k);
    if Template(p.cfg, p.known, k).rate.Some? {
      forall start
        ensures WindowCount(Times(p.cfg, log, k), start) <= Template(p.cfg, p.known, k).rate.value
      {
        WindowRate(p.cfg, p.known, log, k, start);
      }
    }
  }

  // ---- All or nothing ----------------------------------------------------------------

  /** The step is client i's commit of a chain whose records are `recs`. */
  ghost predicate Commits(p: Params, s: State, s': State, i: nat, recs: seq<Record>) {
    && i < |s.clients| == |s'.clients| && s.clients[i].phase.Ready?
    && s'.clients[i].phase == Done(Accepted)
    && Records(p.cfg, s.clients[i].chain, s.clients[i].phase.now) == Ok(recs)
    && s'.log == s.log + [Reservation(s.clients[i].chain, s.clients[i].amount, s.clients[i].phase.now)]
    && (forall j :: 0 <= j < |recs| ==>
          j < |s.clients[i].phase.pending| && Stored(s'.db, recs[j].key) == Some(s.clients[i].phase.pending[j]))
    && (forall k :: k !in RecordKeys(recs) ==> Get(s'.db, k) == Get(s.db, k))
  }

  lemma CommitWrites(p: Params, s: State, i: nat, recs: seq<Record>)
    requires i < |s.clients| && s.clients[i].phase.Ready?
    requires Records(p.cfg, s.clients[i].chain, s.clients[i].phase.now) == Ok(recs)
    requires |recs| == |s.clients[i].phase.pending|
    ensures Commits(p, s, Commit(p, s, i, recs), i, recs)
  {
    var c := s.clients[i];
    RecordsDistinct(p.cfg, c.chain, c.phase.now);
    WriteEffect(s.db, recs, Cells(s, recs, c.phase.pending, c.phase.now));
  }

  /** A step writes all records of one accepted chain, removes one due key, or leaves the store alone. */
  lemma StepWritesAllOrNothing(p: Params, s: State, a: Action)
    requires Apply(p, s, a).Some?
    ensures var s' := Apply(p, s, a).value;
      || (s'.db == s.db && s'.log == s.log)
      || (a.Expire? && Due(s, a.key) && s'.db == s.db - {a.key} && s'.log == s.log)
      || (a.Exec? && exists recs :: Commits(p, s, s', a.client, recs))
  {
    var s' := Apply(p, s, a).value;
    if a.Exec? && s'.log != s.log {
      var c := s.clients[a.client];
      CommitWrites(p, s, a.client, Records(p.cfg, c.chain, c.phase.now).value);
    }
  }

  /**
    A call ends within maxRetries attempts, has committed exactly once if it was
    accepted, and has written nothing if it was rejected or ran out of retries.
   */
  lemma {:induction false} CallsEndWithinRetries(p: Params, n: nat, clock: real, acts: seq<Action>, i: nat)
    requires ValidParams(p) && Run(p, n, clock, acts).Some?
    requires i < |Run(p, n, clock, acts).value.clients|
    ensures var c := Run(p, n, clock, acts).value.clients[i];
      && c.attempts <= p.maxRetries
      && (Active(c.phase) ==> c.attempts < p.maxRetries)
      && c.writes == (if c.phase == Done(Accepted) then 1 else 0)
  {
    RunKeeps(p, n, clock, acts);
  }

  // ---- Bounded interference -------------------------------------------------------------

  /** Some watched key changed or expired: the pending EXEC of this client would abort. */
  ghost predicate Dirty(s: State, c: Client) {
    Watching(c.phase) && !Unchanged(s, c.phase.keys, c.phase.seen)
  }

  ghost function DirtySet(s: State): set<nat> {
    set i: nat | i < |s.clients| && Dirty(s, s.clients[i])
  }

  ghost function Indices(n: nat): (ids: set<nat>)
    ensures |ids| == n
    ensures forall i: nat :: i in ids <==> i < n
  {
    if n == 0 then {} else Indices(n - 1) + {n - 1}
  }

  lemma SubsetSize(a: set<nat>, b: set<nat>)
    requires a <= b
    ensures |a| <= |b|
  {
    assert b == a + (b - a);
    assert a !! (b - a);
    assert |b| == |a| + |b - a|;
  }

  /** Every commit disturbs at most n - 1 other clients, every expiry at most n. */
  function Bound(n: nat, commits: nat, expiries: nat): int {
    (n - 1) * commits + n * expiries
  }

  ghost predicate InterferenceBound(s: State) {
    s.aborts + |DirtySet(s)| <= Bound(|s.clients|, |s.log|, s.expiries)
  }

  /** Only a commit or an expiry makes a watching client dirty. */
  lemma QuietDirty(s: State, s': State, i: nat)
    requires s.version == s'.version && i < |s.clients| == |s'.clients|
    requires s'.clients == s.clients[i := s'.clients[i]]
    requires Dirty(s', s'.clients[i]) ==> Dirty(s, s.clients[i])
    ensures DirtySet(s') <= DirtySet(s)
  {
    forall j | j in DirtySet(s') ensures j in DirtySet(s) {
      if j != i { assert s'.clients[j] == s.clients[j]; }
    }
  }

  lemma AllDirtyAtMost(s: State)
    ensures |DirtySet(s)| <= |s.clients|
    ensures forall i: nat :: i < |s.clients| && !Dirty(s, s.clients[i]) ==> |DirtySet(s)| <= |s.clients| - 1
  {
    var all := Indices(|s.clients|);
    SubsetSize(DirtySet(s), all);
    forall i: nat | i < |s.clients| && !Dirty(s, s.clients[i])
      ensures |DirtySet(s)| <= |s.clients| - 1
    {
      SubsetSize(DirtySet(s), all - {i});
    }
  }

  lemma ExpireInterference(p: Params, s: State, k: Key)
    requires InterferenceBound(s) && Apply(p, s, Expire(k)).Some?
    ensures InterferenceBound(Apply(p, s, Expire(k)).value)
  {
    var s' := Apply(p, s, Expire(k)).value;
    AllDirtyAtMost(s');
    assert |s.clients| * (s.expiries + 1) == |s.clients| * s.expiries + |s.clients|;
  }

  lemma CommitInterference(p: Params, s: State, i: nat, recs: seq<Record>)
    requires InterferenceBound(s) && i < |s.clients| && s.clients[i].phase.Ready?
    requires |recs| == |s.clients[i].phase.pending|
    ensures InterferenceBound(Commit(p, s, i, recs))
  {
    var s' := Commit(p, s, i, recs);
    assert !Dirty(s', s'.clients[i]);
    AllDirtyAtMost(s');
    var m := |s.clients| - 1;
    assert m * (|s.log| + 1) == m * |s.log| + m;
  }

  lemma AbortInterference(p: Params, s: State, i: nat)
    requires InterferenceBound(s) && i < |s.clients| && Dirty(s, s.clients[i])
    ensures InterferenceBound(Abort(p, s, i))
  {
    var s' := Abort(p, s, i);
    assert !Dirty(s', s'.clients[i]);
    QuietDirty(s, s', i);
    assert i in DirtySet(s) && i !in DirtySet(s');
    SubsetSize(DirtySet(s'), DirtySet(s) - {i});
  }

  lemma QuietInterference(p: Params, s: State, a: Action)
    requires InterferenceBound(s) && Apply(p, s, a).Some?
    requires a.Call? || a.Begin? || a.Watch? || a.Read? || a.Recheck?
    ensures InterferenceBound(Apply(p, s, a).value)
  {
    var s' := Apply(p, s, a).value;
    QuietDirty(s, s', a.client);
    SubsetSize(DirtySet(s'), DirtySet(s));
  }

  lemma StepInterference(p: Params, s: State, a: Action)
    requires InterferenceBound(s) && Apply(p, s, a).Some?
    ensures InterferenceBound(Apply(p, s, a).value)
  {
    match a
    case Tick(time) =>
      assert DirtySet(s.(clock := time)) == DirtySet(s);
    case Expire(k) => ExpireInterference(p, s, k);
    case Exec(i) =>
      var c := s.clients[i];
      if Unchanged(s, c.phase.keys, c.phase.seen) {
        CommitInterference(p, s, i, Records(p.cfg, c.chain, c.phase.now).value);
      } else {
        AbortInterference(p, s, i);
      }
    case _ => QuietInterference(p, s, a);
  }

  lemma NobodyDirtyAtFirst(n: nat, clock: real)
    ensures InterferenceBound(Initial<Entry>(n, clock))
  {
    var s := Initial<Entry>(n, clock);
    assert DirtySet(s) == {};
    assert Bound(n, 0, 0) == 0;
  }

  lemma {:induction false} InterferenceOfRun(p: Params, n: nat, clock: real, acts: seq<Action>)
    requires Run(p, n, clock, acts).Some?
    ensures |Run(p, n, clock, acts).value.clients| == n && InterferenceBound(Run(p, n, clock, acts).value)
  {
    if acts == [] {
      NobodyDirtyAtFirst(n, clock);
    } else {
      InterferenceOfRun(p, n, clock, acts[..|acts| - 1]);
      StepInterference(p, Run(p, n, clock, acts[..|acts| - 1]).value, acts[|acts| - 1]);
    }
  }

  /** Aborted attempts are at most (n - 1) times the commits plus n times the key expiries. */
  lemma {:induction false} BoundedInterference(p: Params, n: nat, clock: real, acts: seq<Action>)
    requires Run(p, n, clock, acts).Some?
    ensures var s := Run(p, n, clock, acts).value;
      s.aborts <= (n - 1) * |s.log| + n * s.expiries
  {
    InterferenceOfRun(p, n, clock, acts);
  }
}

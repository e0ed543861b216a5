/**
  How a ledger call over Redis ends: left alone it is decided as the ideal ledger
  decides it, a conflict is retried while attempts are left, and it is refused
  only for a reason.
 */
module RedisCalls {
  import opened Wrappers
  import opened TokenClaims
  import opened Decimals
  import opened Ledger
  import opened RedisProtocol
  import opened RedisLedger
  import opened RedisLedgerProof
  import opened RedisLedgerTheorems
  import opened RedisProgress
  import opened Iteration

  // ---- A call left alone --------------------------------------------------------------------

  /** The next step of the client's call with nobody else acting: begin, watch, a read, re-check or exec. */
  function Advance(p: Params, i: nat): State -> Option<State> {
    (s: State) => if i < |s.clients| && Active(s.clients[i].phase) then Apply(p, s, NextStep(s.clients[i], i)) else None
  }

  lemma Advances(p: Params, i: nat, s: State)
    requires i < |s.clients|
    ensures Active(s.clients[i].phase) ==> Advance(p, i)(s) == Apply(p, s, NextStep(s.clients[i], i))
    ensures !Active(s.clients[i].phase) ==> Advance(p, i)(s).None?
  {
  }

  lemma PutTwice(s: State, i: nat, c: Client, d: Client)
    requires i < |s.clients|
    ensures Put(Put(s, i, c), i, d) == Put(s, i, d) && Put(s, i, c).clients[i] == c
  {
    assert s.clients[i := c][i := d] == s.clients[i := d];
  }

  function ReadsOf(s: State, keys: seq<Key>): (got: seq<Option<Entry>>)
    ensures |got| == |keys|
  {
    seq(|keys|, j requires 0 <= j < |keys| => Stored(s.db, keys[j]))
  }

  /** The client of a call on this chain, in the given phase of its first attempt. */
  function InPhase(chain: seq<Claims>, amount: Amount, phase: Phase): Client {
    Client(chain, amount, 0, 0, phase)
  }

  /** The client has begun, watched and read the first j keys. */
  function HasRead(s: State, i: nat, chain: seq<Claims>, amount: Amount, keys: seq<Key>, j: nat): State
    requires i < |s.clients| && j <= |keys|
  {
    Put(s, i, InPhase(chain, amount, Reading(keys, Versions(s, keys), ReadsOf(s, keys[..j]))))
  }

  lemma {:induction false} ReadsEveryKey(f: State -> Option<State>, s: State, i: nat, chain: seq<Claims>, amount: Amount,
                                         keys: seq<Key>, j: nat, k: nat)
    requires i < |s.clients| && j <= |keys| && k >= |keys| - j
    requires forall m :: j <= m < |keys| ==>
      f(HasRead(s, i, chain, amount, keys, m)) == Some(HasRead(s, i, chain, amount, keys, m + 1))
    ensures Iterate(f, HasRead(s, i, chain, amount, keys, j), k)
         == Iterate(f, HasRead(s, i, chain, amount, keys, |keys|), k - (|keys| - j))
    decreases |keys| - j
  {
    if j < |keys| {
      IterateOnce(f, HasRead(s, i, chain, amount, keys, j), HasRead(s, i, chain, amount, keys, j + 1), k);
      ReadsEveryKey(f, s, i, chain, amount, keys, j + 1, k - 1);
    }
  }

  lemma OneRead(p: Params, s: State, i: nat, chain: seq<Claims>, amount: Amount, keys: seq<Key>, j: nat)
    requires i < |s.clients| && NoneDue(s, keys) && j < |keys|
    ensures Advance(p, i)(HasRead(s, i, chain, amount, keys, j)) == Some(HasRead(s, i, chain, amount, keys, j + 1))
  {
    var c, d := HasRead(s, i, chain, amount, keys, j).clients[i], HasRead(s, i, chain, amount, keys, j + 1).clients[i];
    PutTwice(s, i, c, d);
    assert ReadsOf(s, keys[..j + 1]) == ReadsOf(s, keys[..j]) + [Stored(s.db, keys[j])];
    assert !Due(s, keys[j]);
    assert Due(Put(s, i, c), keys[j]) == Due(s, keys[j]);
    Advances(p, i, HasRead(s, i, chain, amount, keys, j));
  }

  /** The client has begun, watched and read everything. */
  function AllRead(s: State, i: nat, chain: seq<Claims>, amount: Amount, keys: seq<Key>): State
    requires i < |s.clients|
  {
    HasRead(s, i, chain, amount, keys, |keys|)
  }

  lemma DrivesToAllRead(p: Params, s: State, i: nat, chain: seq<Claims>, amount: Amount, keys: seq<Key>, k: nat)
    requires i < |s.clients| && Records(p.cfg, chain, s.clock).Ok? && keys == KeysOf(Records(p.cfg, chain, s.clock).value)
    requires NoneDue(s, keys) && k >= |keys| + 2
    ensures Iterate(Advance(p, i), Put(s, i, InPhase(chain, amount, Starting)), k)
         == Iterate(Advance(p, i), AllRead(s, i, chain, amount, keys), k - 2 - |keys|)
  {
    Begins(p, s, i, chain, amount);
    Watches(p, s, i, chain, amount, keys);
    forall m | 0 <= m < |keys|
      ensures Advance(p, i)(HasRead(s, i, chain, amount, keys, m)) == Some(HasRead(s, i, chain, amount, keys, m + 1))
    {
      OneRead(p, s, i, chain, amount, keys, m);
    }
    StepsChain(Advance(p, i), s, i, chain, amount, keys, k);
  }

  lemma StepsChain(f: State -> Option<State>, s: State, i: nat, chain: seq<Claims>, amount: Amount, keys: seq<Key>, k: nat)
    requires i < |s.clients| && k >= |keys| + 2
    requires f(Put(s, i, InPhase(chain, amount, Starting))) == Some(Put(s, i, InPhase(chain, amount, Named(keys))))
    requires f(Put(s, i, InPhase(chain, amount, Named(keys)))) == Some(HasRead(s, i, chain, amount, keys, 0))
    requires forall m :: 0 <= m < |keys| ==>
      f(HasRead(s, i, chain, amount, keys, m)) == Some(HasRead(s, i, chain, amount, keys, m + 1))
    ensures Iterate(f, Put(s, i, InPhase(chain, amount, Starting)), k)
         == Iterate(f, AllRead(s, i, chain, amount, keys), k - 2 - |keys|)
  {
    IterateOnce(f, Put(s, i, InPhase(chain, amount, Starting)), Put(s, i, InPhase(chain, amount, Named(keys))), k);
    IterateOnce(f, Put(s, i, InPhase(chain, amount, Named(keys))), HasRead(s, i, chain, amount, keys, 0), k - 1);
    ReadsEveryKey(f, s, i, chain, amount, keys, 0, k - 2);
  }

  lemma Begins(p: Params, s: State, i: nat, chain: seq<Claims>, amount: Amount)
    requires i < |s.clients|
    ensures Advance(p, i)(Put(s, i, InPhase(chain, amount, Starting))) ==
      match Records(p.cfg, chain, s.clock)
      case Err(_) => Some(Put(s, i, InPhase(chain, amount, Done(Rejected))))
      case Ok(recs) => Some(Put(s, i, InPhase(chain, amount, Named(KeysOf(recs)))))
  {
    PutTwice(s, i, InPhase(chain, amount, Starting), InPhase(chain, amount, Done(Rejected)));
    if Records(p.cfg, chain, s.clock).Ok? {
      PutTwice(s, i, InPhase(chain, amount, Starting),
               InPhase(chain, amount, Named(KeysOf(Records(p.cfg, chain, s.clock).value))));
    }
    Advances(p, i, Put(s, i, InPhase(chain, amount, Starting)));
  }

  lemma Watches(p: Params, s: State, i: nat, chain: seq<Claims>, amount: Amount, keys: seq<Key>)
    requires i < |s.clients| && NoneDue(s, keys)
    ensures Advance(p, i)(Put(s, i, InPhase(chain, amount, Named(keys)))) == Some(HasRead(s, i, chain, amount, keys, 0))
  {
    var c := InPhase(chain, amount, Named(keys));
    PutTwice(s, i, c, InPhase(chain, amount, Reading(keys, Versions(s, keys), [])));
    PutKeepsKeys(s, i, c, keys);
    assert ReadsOf(s, keys[..0]) == [];
    Advances(p, i, Put(s, i, c));
  }

  lemma PutKeepsKeys(s: State, i: nat, c: Client, keys: seq<Key>)
    requires i < |s.clients|
    ensures NoneDue(Put(s, i, c), keys) <==> NoneDue(s, keys)
    ensures Versions(Put(s, i, c), keys) == Versions(s, keys)
  {
    assert forall k :: Due(Put(s, i, c), k) <==> Due(s, k);
    assert forall k :: Version(Put(s, i, c), k) == Version(s, k);
  }

  lemma AllReadIsSound(p: Params, s: State, i: nat, chain: seq<Claims>, amount: Amount)
    requires ValidParams(p) && Inv(p, s) && i < |s.clients| && amount.Valid? && FromKnown(p.known, chain)
    requires Records(p.cfg, chain, s.clock).Ok?
    ensures var keys := KeysOf(Records(p.cfg, chain, s.clock).value);
      Inv(p, AllRead(s, i, chain, amount, keys))
  {
    var keys := KeysOf(Records(p.cfg, chain, s.clock).value);
    RecordsHaveChainKeys(p.cfg, chain, s.clock);
    QuietKeeps(p, s, AllRead(s, i, chain, amount, keys), i);
  }

  lemma AllReadIsUnchanged(s: State, i: nat, chain: seq<Claims>, amount: Amount, keys: seq<Key>)
    requires i < |s.clients|
    ensures Unchanged(AllRead(s, i, chain, amount, keys), keys, Versions(s, keys))
  {
  }

  /** The ledger that forgets nothing would accept the reservation after this history. */
  ghost predicate IdealAccepts(cfg: Config, log: seq<Reservation>, r: Reservation) {
    Replay(cfg, log).Some? && Reserve(cfg, Replay(cfg, log).value, r).Some?
  }

  /**
    The call is over as the ideal ledger decides it: accepted and its reservation
    logged, or refused with nothing logged.
   */
  ghost predicate DecidedIdeally(p: Params, s: State, t: State, i: nat, r: Reservation) {
    && i < |t.clients|
    && t.clients[i].phase == Done(if IdealAccepts(p.cfg, s.log, r) then Accepted else Rejected)
    && t.log == if IdealAccepts(p.cfg, s.log, r) then s.log + [r] else s.log
  }

  /** From there the re-check decides, and an accepted client commits. */
  lemma AllReadDecides(p: Params, s: State, i: nat, chain: seq<Claims>, amount: Amount, keys: seq<Key>, k: nat)
    requires ValidParams(p) && Inv(p, s) && i < |s.clients| && amount.Valid? && FromKnown(p.known, chain)
    requires Records(p.cfg, chain, s.clock).Ok? && keys == KeysOf(Records(p.cfg, chain, s.clock).value)
    requires NoneDue(s, keys) && k >= 2
    ensures var t := Iterate(Advance(p, i), AllRead(s, i, chain, amount, keys), k);
      DecidedIdeally(p, s, t, i, Reservation(chain, amount, s.clock))
  {
    var read := AllRead(s, i, chain, amount, keys);
    assert keys[..|keys|] == keys;
    AllReadIsSound(p, s, i, chain, amount);
    AllReadIsUnchanged(s, i, chain, amount, keys);
    PutKeepsKeys(s, i, read.clients[i], keys);
    FullyReadDecides(p, read, i, k);
  }

  lemma FullyReadDecides(p: Params, s: State, i: nat, k: nat)
    requires ValidParams(p) && Inv(p, s) && i < |s.clients| && s.clients[i].phase.Reading? && s.clients[i].amount.Valid?
    requires |s.clients[i].phase.got| == |s.clients[i].phase.keys| && k >= 2
    requires Unchanged(s, s.clients[i].phase.keys, s.clients[i].phase.seen) && NoneDue(s, s.clients[i].phase.keys)
    ensures var r := Reservation(s.clients[i].chain, s.clients[i].amount, s.clock);
      DecidedIdeally(p, s, Iterate(Advance(p, i), s, k), i, r)
  {
    var d := s.clients[i].(phase := RecheckStep(p, s, s.clients[i]));
    RechecksIdeally(p, s, i);
    if d.phase.Ready? {
      CheckedCommits(p, s, i, d);
      ExecAdvances(p, Put(s, i, d), i);
      Finished(p, ExecStep(p, Put(s, i, d), i).value, i);
      TwoThenEnd(Advance(p, i), s, Put(s, i, d), ExecStep(p, Put(s, i, d), i).value, k);
    } else {
      Finished(p, Put(s, i, d), i);
      IterateOnce(Advance(p, i), s, Put(s, i, d), k);
      IterateEnds(Advance(p, i), Put(s, i, d), k - 1);
    }
  }

  lemma Finished(p: Params, s: State, i: nat)
    requires i < |s.clients| && s.clients[i].phase.Done?
    ensures Advance(p, i)(s).None?
  {
    Advances(p, i, s);
  }

  lemma ExecAdvances(p: Params, s: State, i: nat)
    requires i < |s.clients| && s.clients[i].phase.Ready?
    ensures Advance(p, i)(s) == ExecStep(p, s, i)
  {
    Advances(p, i, s);
  }

  lemma RechecksIdeally(p: Params, s: State, i: nat)
    requires ValidParams(p) && Inv(p, s) && i < |s.clients| && s.clients[i].phase.Reading? && s.clients[i].amount.Valid?
    requires |s.clients[i].phase.got| == |s.clients[i].phase.keys|
    requires Unchanged(s, s.clients[i].phase.keys, s.clients[i].phase.seen)
    ensures var c := s.clients[i];
      && Rechecks(s, Recheck(i))
      && Advance(p, i)(s) == Some(Put(s, i, c.(phase := RecheckStep(p, s, c))))
      && (RecheckStep(p, s, c).Ready? || RecheckStep(p, s, c) == Done(Rejected))
      && (RecheckStep(p, s, c).Ready?
          <==> Reserve(p.cfg, Replay(p.cfg, s.log).value, Reservation(c.chain, c.amount, s.clock)).Some?)
      && (RecheckStep(p, s, c).Ready? ==> RecheckStep(p, s, c).now == s.clock)
  {
    var c := s.clients[i];
    assert ClientSound(p, s, Replay(p.cfg, s.log).value, c);
    UndisturbedRecheck(p, s, c);
    Advances(p, i, s);
  }

  lemma CheckedCanExec(p: Params, s: State, i: nat, d: Client)
    requires ValidParams(p) && Inv(p, s) && Rechecks(s, Recheck(i))
    requires d == s.clients[i].(phase := RecheckStep(p, s, s.clients[i])) && d.phase.Ready?
    requires NoneDue(Put(s, i, d), d.phase.keys)
    ensures ExecStep(p, Put(s, i, d), i).Some?
  {
    StepKeeps(p, s, Recheck(i));
    ReadyCanExec(p, Put(s, i, d), i);
  }

  lemma ReadyKeepsKeys(p: Params, s: State, c: Client)
    requires c.phase.Reading? && c.amount.Valid? && RecheckStep(p, s, c).Ready?
    ensures RecheckStep(p, s, c).keys == c.phase.keys && RecheckStep(p, s, c).seen == c.phase.seen
  {
  }

  /** After a re-check that found room, an undisturbed EXEC commits. */
  lemma CheckedCommits(p: Params, s: State, i: nat, d: Client)
    requires ValidParams(p) && Inv(p, s) && Rechecks(s, Recheck(i))
    requires d == s.clients[i].(phase := RecheckStep(p, s, s.clients[i])) && d.phase.Ready?
    requires Unchanged(s, s.clients[i].phase.keys, s.clients[i].phase.seen) && NoneDue(s, s.clients[i].phase.keys)
    ensures ExecStep(p, Put(s, i, d), i).Some?
    ensures var t := ExecStep(p, Put(s, i, d), i).value;
      && |t.clients| == |s.clients| && t.clients[i].phase == Done(Accepted)
      && t.log == s.log + [Reservation(d.chain, d.amount, d.phase.now)]
  {
    ReadyKeepsKeys(p, s, s.clients[i]);
    PutKeepsKeys(s, i, d, d.phase.keys);
    PutKeepsUnchanged(s, i, d, d.phase.keys, d.phase.seen);
    CheckedCanExec(p, s, i, d);
    ExecCommits(p, Put(s, i, d), i);
  }

  lemma PutKeepsUnchanged(s: State, i: nat, c: Client, keys: seq<Key>, seen: seq<nat>)
    requires i < |s.clients| && Unchanged(s, keys, seen)
    ensures Unchanged(Put(s, i, c), keys, seen)
  {
    assert forall k :: Version(Put(s, i, c), k) == Version(s, k);
  }

  lemma ExecCommits(p: Params, s: State, i: nat)
    requires i < |s.clients| && s.clients[i].phase.Ready? && Unchanged(s, s.clients[i].phase.keys, s.clients[i].phase.seen)
    requires ExecStep(p, s, i).Some?
    ensures var t := ExecStep(p, s, i).value;
      && |t.clients| == |s.clients| && t.clients[i].phase == Done(Accepted)
      && t.log == s.log + [Reservation(s.clients[i].chain, s.clients[i].amount, s.clients[i].phase.now)]
  {
  }

  /**
    Left alone, a call is decided as the ideal ledger decides it: in every run, an
    idle client that starts a call while no key of its chain is due ends accepted,
    with its reservation committed, exactly when the ideal ledger would accept it
    at that reading; otherwise it ends refused and nothing is written.
   */
  lemma {:induction false} AloneDecides(p: Params, n: nat, clock: real, acts: seq<Action>, i: nat,
                                        chain: seq<Claims>, amount: Amount)
    requires ValidParams(p) && Run(p, n, clock, acts).Some? && i < |Run(p, n, clock, acts).value.clients|
    requires var s := Run(p, n, clock, acts).value;
      && (s.clients[i].phase.Idle? || s.clients[i].phase.Done?)
      && FromKnown(p.known, chain) && (chain != [] ==> NoneDue(s, ChainKeys(chain)))
    ensures var s := Run(p, n, clock, acts).value;
      var r := Reservation(chain, amount, s.clock);
      var started := Apply(p, s, Call(i, chain, amount));
      && Replay(p.cfg, s.log).Some? && started.Some? && i < |started.value.clients|
      && DecidedIdeally(p, s, Iterate(Advance(p, i), started.value, |chain| + 5), i, r)
  {
    RunKeeps(p, n, clock, acts);
    var s := Run(p, n, clock, acts).value;
    AloneDecidesFrom(p, s, i, chain, amount);
  }

  lemma AloneDecidesFrom(p: Params, s: State, i: nat, chain: seq<Claims>, amount: Amount)
    requires ValidParams(p) && Inv(p, s) && i < |s.clients| && (s.clients[i].phase.Idle? || s.clients[i].phase.Done?)
    requires FromKnown(p.known, chain) && (chain != [] ==> NoneDue(s, ChainKeys(chain)))
    ensures var r := Reservation(chain, amount, s.clock);
      var started := Apply(p, s, Call(i, chain, amount));
      && started.Some? && i < |started.value.clients|
      && DecidedIdeally(p, s, Iterate(Advance(p, i), started.value, |chain| + 5), i, r)
  {
    CallStarts(p, s, i, chain, amount);
    if amount.Valid? {
      if Records(p.cfg, chain, s.clock).Ok? {
        RecordsHaveChainKeys(p.cfg, chain, s.clock);
        ChargeableDecides(p, s, i, chain, amount, KeysOf(Records(p.cfg, chain, s.clock).value), |chain| + 5);
      } else {
        UnchargeableEnds(p, s, i, chain, amount, |chain| + 5);
      }
    } else {
      var refused := Put(s, i, InPhase(chain, amount, Done(Rejected)));
      Advances(p, i, refused);
      IterateEnds(Advance(p, i), refused, |chain| + 5);
    }
  }

  /** A client makes one call at a time. */
  lemma CallStartsExactly(p: Params, s: State, i: nat, chain: seq<Claims>, amount: Amount)
    ensures Apply(p, s, Call(i, chain, amount)).Some?
       <==> i < |s.clients| && !Active(s.clients[i].phase) && FromKnown(p.known, chain)
  {
  }

  lemma CallStarts(p: Params, s: State, i: nat, chain: seq<Claims>, amount: Amount)
    requires i < |s.clients| && (s.clients[i].phase.Idle? || s.clients[i].phase.Done?) && FromKnown(p.known, chain)
    ensures Apply(p, s, Call(i, chain, amount))
         == Some(Put(s, i, InPhase(chain, amount, if amount.Valid? then Starting else Done(Rejected))))
  {
  }

  /** Records that can be charged, at a moment when none of their keys is due. */
  ghost predicate CanBeCharged(p: Params, s: State, i: nat, chain: seq<Claims>, amount: Amount, keys: seq<Key>) {
    && ValidParams(p) && Inv(p, s) && i < |s.clients| && amount.Valid? && FromKnown(p.known, chain)
    && Records(p.cfg, chain, s.clock).Ok? && keys == KeysOf(Records(p.cfg, chain, s.clock).value)
    && NoneDue(s, keys)
  }

  /** From the start of a call its outcome is that from where everything is read. */
  ghost predicate StartLeadsTo(p: Params, s: State, i: nat, chain: seq<Claims>, amount: Amount, keys: seq<Key>, k: nat)
    requires i < |s.clients| && k >= |keys| + 2
  {
    Iterate(Advance(p, i), Put(s, i, InPhase(chain, amount, Starting)), k)
    == Iterate(Advance(p, i), AllRead(s, i, chain, amount, keys), k - 2 - |keys|)
  }

  lemma ChargeableStarts(p: Params, s: State, i: nat, chain: seq<Claims>, amount: Amount, keys: seq<Key>, k: nat)
    requires CanBeCharged(p, s, i, chain, amount, keys) && k >= |keys| + 4
    ensures StartLeadsTo(p, s, i, chain, amount, keys, k)
  {
    DrivesToAllRead(p, s, i, chain, amount, keys, k);
  }

  lemma ChargeableEnds(p: Params, s: State, i: nat, chain: seq<Claims>, amount: Amount, keys: seq<Key>, k: nat)
    requires CanBeCharged(p, s, i, chain, amount, keys) && k >= 2
    ensures DecidedIdeally(p, s, Iterate(Advance(p, i), AllRead(s, i, chain, amount, keys), k), i,
                           Reservation(chain, amount, s.clock))
  {
    AllReadDecides(p, s, i, chain, amount, keys, k);
  }

  lemma ChargeableDecides(p: Params, s: State, i: nat, chain: seq<Claims>, amount: Amount, keys: seq<Key>, k: nat)
    requires CanBeCharged(p, s, i, chain, amount, keys) && k >= |keys| + 4
    ensures DecidedIdeally(p, s, Iterate(Advance(p, i), Put(s, i, InPhase(chain, amount, Starting)), k), i,
                           Reservation(chain, amount, s.clock))
  {
    ChargeableStarts(p, s, i, chain, amount, keys, k);
    ChargeableEnds(p, s, i, chain, amount, keys, k - 2 - |keys|);
    SameOutcome(p, s, i, Reservation(chain, amount, s.clock),
                Iterate(Advance(p, i), Put(s, i, InPhase(chain, amount, Starting)), k),
                Iterate(Advance(p, i), AllRead(s, i, chain, amount, keys), k - 2 - |keys|));
  }

  lemma SameOutcome(p: Params, s: State, i: nat, r: Reservation, x: State, y: State)
    requires x == y && DecidedIdeally(p, s, y, i, r)
    ensures DecidedIdeally(p, s, x, i, r)
  {
  }

  lemma UnchargeableEnds(p: Params, s: State, i: nat, chain: seq<Claims>, amount: Amount, k: nat)
    requires i < |s.clients| && Records(p.cfg, chain, s.clock).Err? && k >= 1
    ensures Iterate(Advance(p, i), Put(s, i, InPhase(chain, amount, Starting)), k)
         == Put(s, i, InPhase(chain, amount, Done(Rejected)))
  {
    var refused := Put(s, i, InPhase(chain, amount, Done(Rejected)));
    Begins(p, s, i, chain, amount);
    IterateOnce(Advance(p, i), Put(s, i, InPhase(chain, amount, Starting)), refused, k);
    Advances(p, i, refused);
    IterateEnds(Advance(p, i), refused, k - 1);
  }

  // ---- Conflicts --------------------------------------------------------------------------------

  /** A conflict with attempts left is retried: the client starts over and can begin. */
  lemma ConflictIsRetried(p: Params, s: State, i: nat)
    requires i < |s.clients| && s.clients[i].phase.Ready? && NoneDue(s, s.clients[i].phase.keys)
    requires !Unchanged(s, s.clients[i].phase.keys, s.clients[i].phase.seen) && s.clients[i].attempts + 1 < p.maxRetries
    ensures var t := Apply(p, s, Exec(i));
      && t.Some? && t.value.log == s.log && t.value.db == s.db && |t.value.clients| == |s.clients|
      && t.value.clients[i].chain == s.clients[i].chain && t.value.clients[i].amount == s.clients[i].amount
      && t.value.clients[i].attempts == s.clients[i].attempts + 1 && t.value.aborts == s.aborts + 1
      && Apply(p, t.value, Begin(i)).Some?
  {
  }

  /** The conflict of the last attempt ends the call, and is counted like any other. */
  lemma LastConflictEnds(p: Params, s: State, i: nat)
    requires i < |s.clients| && s.clients[i].phase.Ready? && NoneDue(s, s.clients[i].phase.keys)
    requires !Unchanged(s, s.clients[i].phase.keys, s.clients[i].phase.seen) && s.clients[i].attempts + 1 >= p.maxRetries
    ensures var t := Apply(p, s, Exec(i));
      && t.Some? && t.value.log == s.log && t.value.db == s.db && |t.value.clients| == |s.clients|
      && t.value.clients[i].phase == Done(Exhausted)
      && t.value.clients[i].attempts == s.clients[i].attempts + 1 && t.value.aborts == s.aborts + 1
  {
  }

  /** A commit sets every record's key to live for the TTL from the server's present millisecond on. */
  lemma CommitSetsDeadlines(p: Params, s: State, i: nat, j: nat)
    requires i < |s.clients| && s.clients[i].phase.Ready? && NoneDue(s, s.clients[i].phase.keys)
    requires Unchanged(s, s.clients[i].phase.keys, s.clients[i].phase.seen)
    requires Records(p.cfg, s.clients[i].chain, s.clients[i].phase.now).Ok?
    requires var recs := Records(p.cfg, s.clients[i].chain, s.clients[i].phase.now).value;
      j < |recs| == |s.clients[i].phase.pending|
    ensures var rec := Records(p.cfg, s.clients[i].chain, s.clients[i].phase.now).value[j];
      var t := Apply(p, s, Exec(i));
      && t.Some? && rec.key in t.value.db
      && t.value.db[rec.key].deadline == (s.clock * 1000.0).Floor + TtlMillis(rec.expiry, s.clients[i].phase.now)
  {
    var c := s.clients[i];
    var recs := Records(p.cfg, c.chain, c.phase.now).value;
    RecordsDistinct(p.cfg, c.chain, c.phase.now);
    WriteEffect(s.db, recs, Cells(s, recs, c.phase.pending, c.phase.now));
  }

  ghost predicate ExhaustedAfterAll(p: Params, s: State) {
    forall i :: 0 <= i < |s.clients| && s.clients[i].phase == Done(Exhausted) ==> s.clients[i].attempts == p.maxRetries
  }

  lemma StepExhausts(p: Params, s: State, a: Action)
    requires Inv(p, s) && ExhaustedAfterAll(p, s) && Apply(p, s, a).Some?
    ensures ExhaustedAfterAll(p, Apply(p, s, a).value)
  {
    if a.Exec? {
      assert ClientSound(p, s, Replay(p.cfg, s.log).value, s.clients[a.client]);
    }
  }

  /** A call gives up only after max_retries aborted attempts. */
  lemma {:induction false} GivesUpAfterMaxRetries(p: Params, n: nat, clock: real, acts: seq<Action>)
    requires ValidParams(p) && Run(p, n, clock, acts).Some?
    ensures ExhaustedAfterAll(p, Run(p, n, clock, acts).value)
  {
    if acts != [] {
      var before := Run(p, n, clock, acts[..|acts| - 1]).value;
      GivesUpAfterMaxRetries(p, n, clock, acts[..|acts| - 1]);
      RunKeeps(p, n, clock, acts[..|acts| - 1]);
      StepExhausts(p, before, acts[|acts| - 1]);
    }
  }

  // ---- Refusals ------------------------------------------------------------------------------------

  /** At this reading some limit refuses one of the records, given what the client read. */
  ghost predicate LimitRefuses(cfg: Config, c: Client, now: real)
    requires c.phase.Reading? && c.amount.Valid?
  {
    && Records(cfg, c.chain, now).Ok?
    && exists j :: 0 <= j < |Records(cfg, c.chain, now).value| && j < |c.phase.got|
         && Pending(Records(cfg, c.chain, now).value[j], c.phase.got[j], now, Val(c.amount.d)).None?
  }

  /** Why a step may refuse a call: the amount, a chain that cannot be charged, or a limit. */
  ghost predicate HasReason(p: Params, s: State, a: Action, i: nat)
    requires i < |s.clients|
  {
    var c := s.clients[i];
    || (a.Call? && a.amount.Invalid?)
    || (a.Begin? && Records(p.cfg, c.chain, s.clock).Err?)
    || (a.Recheck? && c.phase.Reading? && c.amount.Valid?
        && (Records(p.cfg, c.chain, s.clock).Err? || LimitRefuses(p.cfg, c, s.clock)))
  }

  lemma StepRefusesWithReason(p: Params, s: State, a: Action, i: nat)
    requires ValidParams(p) && Inv(p, s) && i < |s.clients| && Apply(p, s, a).Some?
    ensures |Apply(p, s, a).value.clients| == |s.clients|
    ensures Apply(p, s, a).value.clients[i].phase == Done(Rejected) && s.clients[i].phase != Done(Rejected) ==>
      !a.Tick? && !a.Expire? && a.client == i && HasReason(p, s, a, i)
  {
    if a.Recheck? && a.client == i {
      var c := s.clients[i];
      assert ClientSound(p, s, Replay(p.cfg, s.log).value, c);
      if Records(p.cfg, c.chain, s.clock).Ok? { RecordsHaveChainKeys(p.cfg, c.chain, s.clock); }
    }
  }

  /** In every run a call is refused only for an invalid amount, a chain that cannot be charged, or a limit. */
  lemma {:induction false} RefusedWithReason(p: Params, n: nat, clock: real, acts: seq<Action>, a: Action, i: nat)
    requires ValidParams(p) && Run(p, n, clock, acts).Some? && i < |Run(p, n, clock, acts).value.clients|
    requires Run(p, n, clock, acts + [a]).Some? && Run(p, n, clock, acts).value.clients[i].phase != Done(Rejected)
    ensures |Run(p, n, clock, acts + [a]).value.clients| == |Run(p, n, clock, acts).value.clients|
    ensures Run(p, n, clock, acts + [a]).value.clients[i].phase == Done(Rejected) ==>
      !a.Tick? && !a.Expire? && a.client == i && HasReason(p, Run(p, n, clock, acts).value, a, i)
  {
    assert (acts + [a])[..|acts|] == acts;
    RunKeeps(p, n, clock, acts);
    StepRefusesWithReason(p, Run(p, n, clock, acts).value, a, i);
  }

  // ---- Time to live ----------------------------------------------------------------------------------

  /** The TTL is the remaining life in milliseconds, rounded up, and at least one. */
  lemma TtlExactly(expiry: int, now: real)
    ensures var ttl, life := TtlMillis(expiry, now), (expiry as real - now) * 1000.0;
      && ttl >= 1 && ttl as real >= life
      && (ttl > 1 ==> (ttl - 1) as real < life)
  {
    var life := (expiry as real - now) * 1000.0;
    assert (-life).Floor as real <= -life < (-life).Floor as real + 1.0;
  }

  /** A key can be removed exactly from the millisecond of its deadline on. */
  lemma RemovedFromItsDeadline(p: Params, s: State, k: Key)
    ensures Apply(p, s, Expire(k)).Some? <==> k in s.db && s.clock * 1000.0 >= s.db[k].deadline as real
    ensures Apply(p, s, Expire(k)).Some? ==>
      var t := Apply(p, s, Expire(k)).value;
      t.db == s.db - {k} && Version(t, k) == Version(s, k) + 1 && t.expiries == s.expiries + 1
  {
    var ms := s.clock * 1000.0;
    assert ms.Floor as real <= ms < ms.Floor as real + 1.0;
  }
}

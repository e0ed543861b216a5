/**
  The WATCH / GET / re-check / MULTI-EXEC protocol over entries of any kind.

  Any number of clients run reservations against one server whose keys expire.
  Each client step and each server step is one action; a run is any sequence of
  enabled actions, so every interleaving is covered. How a client computes new
  entries at the re-check is left to the ledger that uses the protocol.
 */
module RedisProtocol {
  import opened Wrappers
  import opened TokenClaims
  import opened Ledger

  // `known` is the claims each token id stands for; rules are shared by all verifiers.
  datatype Params = Params(cfg: Config, known: Known, maxRetries: nat)

  // A stored entry and the server time, in milliseconds, at which its key expires.
  datatype CellOf<E> = Cell(entry: E, deadline: int)

  datatype Outcome = Accepted | Rejected | Exhausted

  datatype PhaseOf<E> =
    | Idle
    | Starting
    | Named(keys: seq<Key>)
    | Reading(keys: seq<Key>, seen: seq<nat>, got: seq<Option<E>>)
    | Ready(keys: seq<Key>, seen: seq<nat>, got: seq<Option<E>>, now: real, pending: seq<E>)
    | Done(outcome: Outcome)

  // `attempts` counts aborted attempts of the current call, `writes` its commits.
  datatype ClientOf<E> = Client(chain: seq<Claims>, amount: Amount, attempts: nat, writes: nat, phase: PhaseOf<E>)

  // `version` counts the changes to each key: EXEC aborts when a watched count moved.
  datatype StateOf<E> = State(
    clock: real, db: map<Key, CellOf<E>>, version: map<Key, nat>, clients: seq<ClientOf<E>>,
    log: seq<Reservation>, expiries: nat, aborts: nat)

  datatype Action =
    | Tick(time: real)
    | Expire(key: Key)
    | Call(client: nat, chain: seq<Claims>, amount: Amount)
    | Begin(client: nat)
    | Watch(client: nat)
    | Read(client: nat)
    | Recheck(client: nat)
    | Exec(client: nat)

  // ---- Server ----------------------------------------------------------------

  function Millis(t: real): int { (t * 1000.0).Floor }

  function Ceil(x: real): int { -((-x).Floor) }

  /** The PX argument: the remaining life, rounded up to a whole millisecond. */
  function TtlMillis(expiry: int, now: real): int {
    var ttl := Ceil((expiry as real - now) * 1000.0);
    if ttl < 1 then 1 else ttl
  }

  function Version<E>(s: StateOf<E>, k: Key): nat {
    if k in s.version then s.version[k] else 0
  }

  function Bump(version: map<Key, nat>, keys: set<Key>): map<Key, nat> {
    map k | k in version.Keys + keys ::
      (if k in version then version[k] else 0) + (if k in keys then 1 else 0)
  }

  predicate Due<E>(s: StateOf<E>, k: Key) {
    k in s.db && Millis(s.clock) >= s.db[k].deadline
  }

  /** The server removes a due key no later than the first command that touches it. */
  predicate NoneDue<E>(s: StateOf<E>, keys: seq<Key>) {
    forall i :: 0 <= i < |keys| ==> !Due(s, keys[i])
  }

  function Stored<E>(db: map<Key, CellOf<E>>, k: Key): Option<E> {
    if k in db then Some(db[k].entry) else None
  }

  // ---- Client ----------------------------------------------------------------

  function Versions<E>(s: StateOf<E>, keys: seq<Key>): seq<nat> {
    seq(|keys|, i requires 0 <= i < |keys| => Version(s, keys[i]))
  }

  predicate Unchanged<E>(s: StateOf<E>, keys: seq<Key>, seen: seq<nat>) {
    |seen| == |keys| && forall i :: 0 <= i < |keys| ==> seen[i] == Version(s, keys[i])
  }

  function Cells<E>(s: StateOf<E>, recs: seq<Record>, pending: seq<E>, now: real): seq<CellOf<E>>
    requires |recs| == |pending|
  {
    seq(|recs|, i requires 0 <= i < |recs| =>
      Cell(pending[i], Millis(s.clock) + TtlMillis(recs[i].expiry, now)))
  }

  function Put<E>(s: StateOf<E>, i: nat, c: ClientOf<E>): StateOf<E>
    requires i < |s.clients|
  {
    s.(clients := s.clients[i := c])
  }

  function BeginStep<E>(p: Params, s: StateOf<E>, c: ClientOf<E>): PhaseOf<E> {
    match Records(p.cfg, c.chain, s.clock)
    case Err(_) => Done(Rejected)
    case Ok(recs) => Named(KeysOf(recs))
  }

  /** GET of the next key. */
  function ReadStep<E>(s: StateOf<E>, phase: PhaseOf<E>): PhaseOf<E>
    requires phase.Reading? && |phase.got| < |phase.keys|
  {
    Reading(phase.keys, phase.seen, phase.got + [Stored(s.db, phase.keys[|phase.got|])])
  }

  function Commit<E>(p: Params, s: StateOf<E>, i: nat, recs: seq<Record>): StateOf<E>
    requires i < |s.clients| && s.clients[i].phase.Ready?
    requires |recs| == |s.clients[i].phase.pending|
  {
    var c := s.clients[i];
    var ready := c.phase;
    State(
      s.clock,
      Write(s.db, recs, Cells(s, recs, ready.pending, ready.now)),
      Bump(s.version, RecordKeys(recs)),
      s.clients[i := c.(writes := c.writes + 1, phase := Done(Accepted))],
      s.log + [Reservation(c.chain, c.amount, ready.now)],
      s.expiries, s.aborts)
  }

  function Abort<E>(p: Params, s: StateOf<E>, i: nat): StateOf<E>
    requires i < |s.clients|
  {
    var c := s.clients[i];
    var next := if c.attempts + 1 >= p.maxRetries then Done(Exhausted) else Starting;
    Put(s, i, c.(attempts := c.attempts + 1, phase := next)).(aborts := s.aborts + 1)
  }

  function ExecStep<E>(p: Params, s: StateOf<E>, i: nat): Option<StateOf<E>>
    requires i < |s.clients| && s.clients[i].phase.Ready?
  {
    var c := s.clients[i];
    if !NoneDue(s, c.phase.keys) then None
    else if !Unchanged(s, c.phase.keys, c.phase.seen) then Some(Abort(p, s, i))
    else
      match Records(p.cfg, c.chain, c.phase.now)
      case Err(_) => None
      case Ok(recs) => if |recs| != |c.phase.pending| then None else Some(Commit(p, s, i, recs))
  }

  function ClientStep<E>(p: Params, s: StateOf<E>, a: Action): Option<StateOf<E>>
    requires !a.Tick? && !a.Expire? && a.client < |s.clients|
  {
    var i := a.client;
    var c := s.clients[i];
    match a
    case Call(_, chain, amount) =>
      if (c.phase.Done? || c.phase.Idle?) && FromKnown(p.known, chain)
      then Some(Put(s, i, Client(chain, amount, 0, 0, if amount.Valid? then Starting else Done(Rejected))))
      else None
    case Begin(_) =>
      if c.phase.Starting? then Some(Put(s, i, c.(phase := BeginStep(p, s, c)))) else None
    case Watch(_) =>
      if c.phase.Named? && NoneDue(s, c.phase.keys)
      then Some(Put(s, i, c.(phase := Reading(c.phase.keys, Versions(s, c.phase.keys), []))))
      else None
    case Read(_) =>
      if c.phase.Reading? && |c.phase.got| < |c.phase.keys| && !Due(s, c.phase.keys[|c.phase.got|])
      then Some(Put(s, i, c.(phase := ReadStep(s, c.phase))))
      else None
    case Exec(_) =>
      if c.phase.Ready? then ExecStep(p, s, i) else None
    case _ => None
  }

  /** A client that has read all its keys and re-checks, if this action is that. */
  predicate Rechecks<E>(s: StateOf<E>, a: Action) {
    && a.Recheck? && a.client < |s.clients|
    && s.clients[a.client].phase.Reading? && s.clients[a.client].amount.Valid?
    && |s.clients[a.client].phase.got| == |s.clients[a.client].phase.keys|
  }

  /** Every action but the re-check; None when it is not enabled. */
  function CommonStep<E>(p: Params, s: StateOf<E>, a: Action): Option<StateOf<E>> {
    match a
    case Tick(time) => if time >= s.clock then Some(s.(clock := time)) else None
    case Expire(k) =>
      if Due(s, k)
      then Some(s.(db := s.db - {k}, version := Bump(s.version, {k}), expiries := s.expiries + 1))
      else None
    case _ => if a.client < |s.clients| then ClientStep(p, s, a) else None
  }

  function Initial<E>(n: nat, clock: real): StateOf<E> {
    State(clock, map[], map[], seq(n, _ => Client([], Invalid, 0, 0, Idle)), [], 0, 0)
  }
}

/**
  Single-use approvals bound to an exact resource revision and payload, as a
  state machine over any interleaving of approve, invalidate and authorize.

  The store may be the in-memory one, whose consume is one atomic step, or the
  Redis one, whose consume watches the resource key and deletes it in a
  transaction. Keys may vanish at any time, which covers every expiry.
 */
module Approvals {
  import opened Wrappers
  import opened JsonValues
  import opened CanonicalJson

  const CONSUME_ATTEMPTS: nat := 64

  // The digest stands for the SHA-256 of the canonical payload text.
  datatype Approval = Approval(id: Str, resource: Str, revision: Str, digest: Str, expiresAt: int)

  // What the caller of authorize presents.
  datatype Request = Request(id: Str, resource: Str, revision: Str, digest: Str)

  function Pins(a: Approval): Request { Request(a.id, a.resource, a.revision, a.digest) }

  /** Floats and unsafe integers have no digest. */
  function RequestDigest(payload: Json): Option<Str> {
    if Portable(payload) then Some(Canonical(payload)) else None
  }

  datatype Event = Approved(a: Approval) | Invalidated(r: Str) | Consumed(q: Request, at: real)

  // `held` is the approval the client looked up, `seen` the count it saw at WATCH, `at` the
  // clock reading of its last expiry check.
  datatype Phase =
    | Idle
    | Asked
    | Found(held: Approval)
    | Unexpired(held: Approval)
    | Matched(held: Approval)
    | Consuming(held: Approval)
    | Watching(held: Approval, seen: nat)
    | Ready(held: Approval, seen: nat, at: real)
    | Finished(ok: bool)

  datatype Client = Client(request: Request, attempts: nat, phase: Phase)

  // `version` counts the changes to each resource key: EXEC aborts when it moved since WATCH.
  datatype State = State(
    clock: real, records: map<Str, Approval>, active: map<Str, Str>, version: map<Str, nat>,
    clients: seq<Client>, log: seq<Event>)

  datatype Action =
    | Tick(time: real)
    | Forget(ids: set<Str>, resources: set<Str>)
    | Approve(a: Approval)
    | Invalidate(resource: Str)
    | Ask(client: nat, request: Request)
    | Lookup(client: nat)
    | CheckExpiry(client: nat)
    | CheckActive(client: nat)
    | VerifyToken(client: nat, ok: bool)
    | ConsumeInMemory(client: nat)
    | Watch(client: nat)
    | Read(client: nat)
    | Exec(client: nat)

  function Version(s: State, r: Str): nat { if r in s.version then s.version[r] else 0 }

  function ActiveId(s: State, r: Str): Option<Str> { if r in s.active then Some(s.active[r]) else None }

  /** The counts after the given keys changed. */
  function Bump(version: map<Str, nat>, changed: set<Str>): map<Str, nat> {
    map r | r in version.Keys + changed ::
      (if r in version then version[r] else 0) + (if r in changed then 1 else 0)
  }

  function Drop(s: State, resources: set<Str>): State {
    s.(active := s.active - resources, version := Bump(s.version, resources * s.active.Keys))
  }

  // ---- The store in memory: what put and consume do to it --------------------------------

  datatype Store = Store(records: map<Str, Approval>, active: map<Str, Str>)

  function StoreOf(s: State): Store { Store(s.records, s.active) }

  /** Records that have not expired, and active entries whose record is still there. */
  function Purged(store: Store, now: real): Store {
    var live := map id | id in store.records && store.records[id].expiresAt as real > now :: store.records[id];
    Store(live, map r | r in store.active && store.active[r] in live :: store.active[r])
  }

  function AfterPut(store: Store, a: Approval, now: real): Store {
    var kept := Purged(store, now);
    Store(kept.records[a.id := a], kept.active[a.resource := a.id])
  }

  /** Whether the approval is consumed, and the store afterwards. */
  function AfterConsume(store: Store, a: Approval, now: real): (bool, Store) {
    var ok := a.expiresAt as real > now && a.resource in store.active && store.active[a.resource] == a.id;
    (ok, if ok then store.(active := store.active - {a.resource}) else store)
  }

  // ---- Steps -----------------------------------------------------------------------------------

  function Set(s: State, c: nat, client: Client): State
    requires c < |s.clients|
  {
    s.(clients := s.clients[c := client])
  }

  function MoveTo(s: State, c: nat, phase: Phase): State
    requires c < |s.clients|
  {
    Set(s, c, s.clients[c].(phase := phase))
  }

  ghost predicate Fresh(log: seq<Event>, id: Str) {
    forall i :: 0 <= i < |log| && log[i].Approved? ==> log[i].a.id != id
  }

  /** The state after one step, or None when the step cannot happen. */
  ghost function Next(s: State, a: Action): Option<State> {
    match a
    case Tick(time) => if s.clock <= time then Some(s.(clock := time)) else None
    case Forget(ids, resources) => Some(Drop(s.(records := s.records - ids), resources))
    // Ids come from a generator that never repeats one.
    case Approve(approval) => if Fresh(s.log, approval.id) then Some(Put(s, approval)) else None
    case Invalidate(resource) => Some(Drop(s, {resource}).(log := s.log + [Invalidated(resource)]))
    case _ => if a.client < |s.clients| then ClientStep(s, a.client, a) else None
  }

  function Put(s: State, approval: Approval): State {
    s.(records := s.records[approval.id := approval],
       active := s.active[approval.resource := approval.id],
       version := Bump(s.version, {approval.resource}),
       log := s.log + [Approved(approval)])
  }

  function ClientStep(s: State, c: nat, a: Action): Option<State>
    requires c < |s.clients|
  {
    var client := s.clients[c];
    match (a, client.phase)
    case (Ask(_, request), Idle) => Some(Set(s, c, Client(request, 0, Asked)))
    case (Ask(_, request), Finished(_)) => Some(Set(s, c, Client(request, 0, Asked)))
    case (Lookup(_), Asked) =>
      var id := client.request.id;
      Some(MoveTo(s, c, if id in s.records then Found(s.records[id]) else Finished(false)))
    case (CheckExpiry(_), Found(held)) =>
      Some(MoveTo(s, c, if held.expiresAt as real <= s.clock then Finished(false) else Unexpired(held)))
    case (CheckActive(_), Unexpired(held)) =>
      var same := ActiveId(s, held.resource) == Some(held.id) && client.request == Pins(held);
      Some(MoveTo(s, c, if same then Matched(held) else Finished(false)))
    case (VerifyToken(_, ok), Matched(held)) =>
      Some(MoveTo(s, c, if ok then Consuming(held) else Finished(false)))
    case (ConsumeInMemory(_), Consuming(held)) =>
      if held.expiresAt as real <= s.clock || ActiveId(s, held.resource) != Some(held.id)
      then Some(MoveTo(s, c, Finished(false)))
      else Some(Take(s, c, held, s.clock))
    case (Watch(_), Consuming(held)) => Some(MoveTo(s, c, Watching(held, Version(s, held.resource))))
    case (Read(_), Watching(held, seen)) =>
      var stale := ActiveId(s, held.resource) != Some(held.id) || held.expiresAt as real <= s.clock;
      Some(MoveTo(s, c, if stale then Finished(false) else Ready(held, seen, s.clock)))
    case (Exec(_), Ready(held, seen, at)) =>
      if seen == Version(s, held.resource) then Some(Take(s, c, held, at))
      else if client.attempts + 1 < CONSUME_ATTEMPTS
      then Some(Set(s, c, client.(attempts := client.attempts + 1, phase := Consuming(held))))
      else Some(MoveTo(s, c, Finished(false)))
    case _ => None
  }

  /** The active entry is deleted and the authorize succeeds. */
  function Take(s: State, c: nat, held: Approval, at: real): State
    requires c < |s.clients|
  {
    MoveTo(Drop(s, {held.resource}), c, Finished(true)).(log := s.log + [Consumed(s.clients[c].request, at)])
  }

  function Initial(n: nat): State {
    State(0.0, map[], map[], map[], seq(n, i => Client(Request([], [], [], []), 0, Idle)), [])
  }

  /** The state after a run of n clients, or None when some step was not possible. */
  ghost function Run(n: nat, actions: seq<Action>): Option<State> {
    if actions == [] then Some(Initial(n))
    else
      var before := Run(n, actions[..|actions| - 1]);
      if before.None? then None else Next(before.value, actions[|actions| - 1])
  }

  // ---- The invariant ---------------------------------------------------------------------

  predicate Touches(e: Event, r: Str) {
    match e
    case Approved(a) => a.resource == r
    case Invalidated(x) => x == r
    case Consumed(q, _) => q.resource == r
  }

  /** The latest event on the resource. */
  function LastTouch(log: seq<Event>, r: Str): Option<Event> {
    if log == [] then None
    else if Touches(log[|log| - 1], r) then Some(log[|log| - 1])
    else LastTouch(log[..|log| - 1], r)
  }

  ghost predicate UniqueIds(log: seq<Event>) {
    forall i, j :: 0 <= i < j < |log| && log[i].Approved? && log[j].Approved? ==> log[i].a.id != log[j].a.id
  }

  /** The resource is held by this approval and nothing happened to it since. */
  ghost predicate Standing(log: seq<Event>, r: Str, id: Str) {
    LastTouch(log, r).Some? && LastTouch(log, r).value.Approved? && LastTouch(log, r).value.a.id == id
  }

  ghost predicate StoreSound(s: State) {
    && (forall id :: id in s.records ==> Approved(s.records[id]) in s.log)
    && (forall r :: r in s.active ==> Standing(s.log, r, s.active[r]))
  }

  ghost predicate ClientSound(s: State, client: Client) {
    client.attempts < CONSUME_ATTEMPTS &&
    match client.phase
    case Found(held) => Approved(held) in s.log
    case Unexpired(held) => Approved(held) in s.log
    case Matched(held) => Approved(held) in s.log && client.request == Pins(held)
    case Consuming(held) => Approved(held) in s.log && client.request == Pins(held)
    case Watching(held, seen) =>
      Approved(held) in s.log && client.request == Pins(held) && seen <= Version(s, held.resource)
    case Ready(held, seen, at) =>
      && at < held.expiresAt as real
      && Approved(held) in s.log && client.request == Pins(held) && seen <= Version(s, held.resource)
      && (seen == Version(s, held.resource) ==> ActiveId(s, held.resource) == Some(held.id))
    case _ => true
  }

  /** A success at position j used an approval that was standing, and matched it exactly. */
  ghost predicate UsedStanding(log: seq<Event>, j: nat)
    requires j < |log| && log[j].Consumed?
  {
    var q := log[j].q;
    var last := LastTouch(log[..j], q.resource);
    last.Some? && last.value.Approved? && Pins(last.value.a) == q && log[j].at < last.value.a.expiresAt as real
  }

  ghost predicate LogSound(log: seq<Event>) {
    UniqueIds(log) && forall j :: 0 <= j < |log| && log[j].Consumed? ==> UsedStanding(log, j)
  }

  ghost predicate Inv(s: State) {
    LogSound(s.log) && StoreSound(s) && forall c :: 0 <= c < |s.clients| ==> ClientSound(s, s.clients[c])
  }

  lemma LogExtends(log: seq<Event>, e: Event)
    requires LogSound(log)
    requires e.Approved? ==> Fresh(log, e.a.id)
    requires e.Consumed? ==>
      var last := LastTouch(log, e.q.resource);
      last.Some? && last.value.Approved? && Pins(last.value.a) == e.q && e.at < last.value.a.expiresAt as real
    ensures LogSound(log + [e])
  {
    var log' := log + [e];
    forall j | 0 <= j < |log'| && log'[j].Consumed? ensures UsedStanding(log', j) {
      assert log'[..j] == log[..j];
      if j == |log| { assert log[..j] == log; }
    }
  }

  lemma LastTouchExtends(log: seq<Event>, e: Event, r: Str)
    ensures LastTouch(log + [e], r) == if Touches(e, r) then Some(e) else LastTouch(log, r)
  {
    assert (log + [e])[..|log|] == log;
  }

  lemma {:induction false} LastTouchInLog(log: seq<Event>, r: Str)
    ensures LastTouch(log, r).Some? ==> LastTouch(log, r).value in log && Touches(LastTouch(log, r).value, r)
  {
    if log != [] { LastTouchInLog(log[..|log| - 1], r); }
  }

  /** An approval that is active and was really given is the one standing. */
  lemma StandingIsHeld(s: State, held: Approval)
    requires Inv(s) && Approved(held) in s.log && ActiveId(s, held.resource) == Some(held.id)
    ensures LastTouch(s.log, held.resource) == Some(Approved(held))
  {
    LastTouchInLog(s.log, held.resource);
    var last := LastTouch(s.log, held.resource).value;
    var i :| 0 <= i < |s.log| && s.log[i] == last;
    var j :| 0 <= j < |s.log| && s.log[j] == Approved(held);
    assert i == j;
  }

  /** A client keeps its knowledge while counts only grow and unmoved keys keep their value. */
  ghost predicate Progress(s: State, t: State) {
    && (forall e :: e in s.log ==> e in t.log)
    && (forall r :: Version(s, r) <= Version(t, r))
    && (forall r :: Version(s, r) == Version(t, r) ==> ActiveId(s, r) == ActiveId(t, r))
  }

  lemma ClientStaysSound(s: State, t: State, client: Client)
    requires ClientSound(s, client) && Progress(s, t)
    ensures ClientSound(t, client)
  {
  }

  lemma PutKeeps(s: State, approval: Approval)
    requires Inv(s) && Fresh(s.log, approval.id)
    ensures Inv(Put(s, approval))
  {
    var t := Put(s, approval);
    LogExtends(s.log, Approved(approval));
    assert forall e :: e in s.log ==> e in t.log;
    assert t.log[|s.log|] == Approved(approval);
    forall r | r in t.active ensures Standing(t.log, r, t.active[r]) {
      LastTouchExtends(s.log, Approved(approval), r);
    }
    forall c | 0 <= c < |t.clients| ensures ClientSound(t, t.clients[c]) {
      ClientStaysSound(s, t, s.clients[c]);
    }
  }

  lemma ForgetKeeps(s: State, ids: set<Str>, resources: set<Str>)
    requires Inv(s)
    ensures Inv(Drop(s.(records := s.records - ids), resources))
  {
    var t := Drop(s.(records := s.records - ids), resources);
    forall c | 0 <= c < |t.clients| ensures ClientSound(t, t.clients[c]) {
      ClientStaysSound(s, t, s.clients[c]);
    }
  }

  /** A resource is dropped and an event on it logged. */
  lemma EndKeeps(s: State, e: Event, r: Str)
    requires Inv(s) && !e.Approved? && Touches(e, r) && LogSound(s.log + [e])
    ensures Inv(Drop(s, {r}).(log := s.log + [e]))
  {
    var t := Drop(s, {r}).(log := s.log + [e]);
    assert forall x :: x in s.log ==> x in t.log;
    forall x | x in t.active ensures Standing(t.log, x, t.active[x]) {
      LastTouchExtends(s.log, e, x);
      assert x != r;
    }
    forall c | 0 <= c < |t.clients| ensures ClientSound(t, t.clients[c]) {
      ClientStaysSound(s, t, s.clients[c]);
    }
  }

  lemma SetKeeps(s: State, c: nat, client: Client)
    requires Inv(s) && c < |s.clients| && ClientSound(s, client)
    ensures Inv(Set(s, c, client))
  {
    var t := Set(s, c, client);
    forall d | 0 <= d < |t.clients| ensures ClientSound(t, t.clients[d]) {
      ClientStaysSound(s, t, if d == c then client else s.clients[d]);
    }
  }

  lemma TakeKeeps(s: State, c: nat, held: Approval, at: real)
    requires Inv(s) && c < |s.clients| && at < held.expiresAt as real
    requires Approved(held) in s.log && s.clients[c].request == Pins(held)
    requires ActiveId(s, held.resource) == Some(held.id)
    ensures Inv(Take(s, c, held, at))
  {
    var e := Consumed(s.clients[c].request, at);
    StandingIsHeld(s, held);
    LogExtends(s.log, e);
    EndKeeps(s, e, held.resource);
    var t := Drop(s, {held.resource}).(log := s.log + [e]);
    SetKeeps(t, c, s.clients[c].(phase := Finished(true)));
    assert Take(s, c, held, at) == Set(t, c, s.clients[c].(phase := Finished(true)));
  }

  lemma ClientStepKeeps(s: State, c: nat, a: Action)
    requires Inv(s) && c < |s.clients| && ClientStep(s, c, a).Some?
    ensures Inv(ClientStep(s, c, a).value)
  {
    var client := s.clients[c];
    var t := ClientStep(s, c, a).value;
    assert ClientSound(s, client);
    if t.log != s.log {
      TakeKeeps(s, c, client.phase.held, if a.Exec? then client.phase.at else s.clock);
    } else {
      SetKeeps(s, c, t.clients[c]);
    }
  }

  lemma StepKeeps(s: State, a: Action)
    requires Inv(s) && Next(s, a).Some?
    ensures Inv(Next(s, a).value)
  {
    match a
    case Tick(time) =>
      forall c | 0 <= c < |s.clients| ensures ClientSound(s.(clock := time), s.clients[c]) {
        ClientStaysSound(s, s.(clock := time), s.clients[c]);
      }
    case Forget(ids, resources) => ForgetKeeps(s, ids, resources);
    case Approve(approval) => PutKeeps(s, approval);
    case Invalidate(resource) =>
      LogExtends(s.log, Invalidated(resource));
      EndKeeps(s, Invalidated(resource), resource);
    case _ => ClientStepKeeps(s, a.client, a);
  }

  lemma {:induction false} RunKeeps(n: nat, actions: seq<Action>)
    requires Run(n, actions).Some?
    ensures Inv(Run(n, actions).value)
  {
    if actions != [] {
      RunKeeps(n, actions[..|actions| - 1]);
      StepKeeps(Run(n, actions[..|actions| - 1]).value, actions[|actions| - 1]);
    }
  }
}

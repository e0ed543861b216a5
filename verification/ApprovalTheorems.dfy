/** What holds of approvals in every interleaving, and the in-memory store itself. */
module ApprovalTheorems {
  import opened Wrappers
  import opened JsonValues
  import opened CanonicalProof
  import opened JsonReader
  import opened JsonRoundTrip
  import opened Approvals

  /** Event i is the latest on the resource. */
  ghost predicate LatestAt(log: seq<Event>, i: nat, r: Str)
    requires i < |log|
  {
    Touches(log[i], r) && forall k :: i < k < |log| ==> !Touches(log[k], r)
  }

  lemma {:induction false} LastTouchAt(log: seq<Event>, r: Str) returns (i: nat)
    requires LastTouch(log, r).Some?
    ensures i < |log| && log[i] == LastTouch(log, r).value && LatestAt(log, i, r)
  {
    var n := |log| - 1;
    if Touches(log[n], r) {
      i := n;
    } else {
      i := LastTouchAt(log[..n], r);
      forall k | i < k < |log| ensures !Touches(log[k], r) {
        if k < n { assert log[..n][k] == log[k]; }
      }
    }
  }

  /**
    Every successful authorize carried exactly the resource, revision and digest
    of an approval given earlier, its last expiry check came before the expiry,
    and between the two nothing happened to the resource: no newer approval, no
    invalidation and no other success.
   */
  lemma {:induction false} SuccessWasApproved(n: nat, actions: seq<Action>, j: nat) returns (i: nat)
    requires Run(n, actions).Some?
    requires j < |Run(n, actions).value.log| && Run(n, actions).value.log[j].Consumed?
    ensures var log := Run(n, actions).value.log;
      && i < j && log[i].Approved? && Pins(log[i].a) == log[j].q && log[j].at < log[i].a.expiresAt as real
      && forall k :: i < k < j ==> !Touches(log[k], log[i].a.resource)
  {
    var log := Run(n, actions).value.log;
    RunKeeps(n, actions);
    assert UsedStanding(log, j);
    i := LastTouchAt(log[..j], log[j].q.resource);
    assert log[..j][i] == log[i];
    forall k | i < k < j ensures !Touches(log[k], log[i].a.resource) {
      assert log[..j][k] == log[k];
    }
  }

  /**
    Once anything else happened to its resource, an approval yields no success:
    it was superseded, invalidated or already used.
   */
  lemma {:induction false} EndedApprovalIsDead(n: nat, actions: seq<Action>, i: nat, k: nat, j: nat)
    requires Run(n, actions).Some? && i < k < j < |Run(n, actions).value.log|
    requires var log := Run(n, actions).value.log;
      log[i].Approved? && Touches(log[k], log[i].a.resource) && log[j].Consumed?
    ensures Run(n, actions).value.log[j].q.id != Run(n, actions).value.log[i].a.id
  {
    var log := Run(n, actions).value.log;
    RunKeeps(n, actions);
    var used := SuccessWasApproved(n, actions, j);
    assert log[used].a.id == log[i].a.id ==> used == i;
  }

  /** An approval id yields at most one successful authorize. */
  lemma {:induction false} SingleUse(n: nat, actions: seq<Action>, j: nat, k: nat)
    requires Run(n, actions).Some? && j < k < |Run(n, actions).value.log|
    requires Run(n, actions).value.log[j].Consumed? && Run(n, actions).value.log[k].Consumed?
    ensures Run(n, actions).value.log[j].q.id != Run(n, actions).value.log[k].q.id
  {
    var i := SuccessWasApproved(n, actions, j);
    EndedApprovalIsDead(n, actions, i, j, k);
  }

  /** A client reports success only in a step that logs its request as consumed. */
  lemma SuccessIsLogged(s: State, a: Action, c: nat)
    requires Next(s, a).Some? && c < |s.clients|
    requires s.clients[c].phase != Finished(true)
    ensures |Next(s, a).value.clients| == |s.clients|
    ensures Next(s, a).value.clients[c].phase == Finished(true)
        ==> exists at :: Next(s, a).value.log == s.log + [Consumed(s.clients[c].request, at)]
  {
    var t := Next(s, a).value;
    if t.clients[c].phase == Finished(true) {
      var at := if a.Exec? then s.clients[c].phase.at else s.clock;
      assert t.log == s.log + [Consumed(s.clients[c].request, at)];
    }
  }

  /** A consume gives up after at most 64 attempts. */
  lemma {:induction false} ConsumeEndsWithinAttempts(n: nat, actions: seq<Action>, c: nat)
    requires Run(n, actions).Some? && c < |Run(n, actions).value.clients|
    ensures Run(n, actions).value.clients[c].attempts + 1 <= CONSUME_ATTEMPTS
  {
    RunKeeps(n, actions);
    assert ClientSound(Run(n, actions).value, Run(n, actions).value.clients[c]);
  }

  /** Left alone, a client that holds the active, unexpired approval does get it. */
  lemma UncontendedConsumeSucceeds(s: State, c: nat)
    requires c < |s.clients| && s.clients[c].phase.Consuming?
    requires var held := s.clients[c].phase.held;
      ActiveId(s, held.resource) == Some(held.id) && s.clock < held.expiresAt as real
    ensures var watched := Next(s, Watch(c));
      && watched.Some?
      && var read := Next(watched.value, Read(c));
      && read.Some?
      && var done := Next(read.value, Exec(c));
      && done.Some? && done.value.clients[c].phase == Finished(true)
      && ActiveId(done.value, s.clients[c].phase.held.resource) == None
  {
  }

  /** Equal digests mean equal payloads, so a success was made with the approved payload. */
  lemma DigestIdentifiesPayload(approved: Json, presented: Json)
    requires WellFormed(approved) && WellFormed(presented)
    requires RequestDigest(approved).Some? && RequestDigest(presented).Some?
    ensures RequestDigest(approved) == RequestDigest(presented) <==> JsonEqual(approved, presented)
  {
    CanonicalInjective(approved, presented);
  }

  /** Null, booleans and strings have a digest, floats and unsafe integers do not, and containers if all they contain has. */
  lemma DigestExists(payload: Json)
    ensures RequestDigest(payload).Some? <==>
      match payload
      case Int(n) => -9007199254740991 <= n <= 9007199254740991
      case Float(_) => false
      case Arr(items) => forall i :: 0 <= i < |items| ==> RequestDigest(items[i]).Some?
      case Obj(members) => forall m :: m in members ==> RequestDigest(m.value).Some?
      case _ => true
  {
  }

  /** The digest stands for the JSON text of the payload: read back, it is an equal value. */
  lemma DigestIsPayload(payload: Json) returns (w: Json)
    requires WellFormed(payload) && RequestDigest(payload).Some?
    ensures ReadValue(RequestDigest(payload).value) == Got(w, []) && JsonEqual(payload, w) && InKeyOrder(w)
  {
    w := CanonicalRoundTrip(payload);
  }

  // ---- The in-memory store -----------------------------------------------------------------

  class InMemoryApprovalStore {
    var records: map<Str, Approval>
    var active: map<Str, Str>

    constructor ()
      ensures Contents() == Store(map[], map[])
    {
      records, active := map[], map[];
    }

    function Contents(): Store
      reads this
    {
      Store(records, active)
    }

    /** Drops what has expired, then makes the approval the active one of its resource. */
    method PutApproval(a: Approval, now: real)
      modifies this
      ensures Contents() == AfterPut(old(Contents()), a, now)
    {
      records := map id | id in records && records[id].expiresAt as real > now :: records[id];
      active := map r | r in active && active[r] in records :: active[r];
      records := records[a.id := a];
      active := active[a.resource := a.id];
    }

    method Get(id: Str) returns (found: Option<Approval>)
      ensures found == if id in records then Some(records[id]) else None
    {
      if id in records { return Some(records[id]); }
      return None;
    }

    method IsActive(a: Approval) returns (yes: bool)
      ensures yes <==> a.resource in active && active[a.resource] == a.id
    {
      yes := a.resource in active && active[a.resource] == a.id;
    }

    method InvalidateResource(resource: Str)
      modifies this
      ensures records == old(records) && active == old(active) - {resource}
    {
      active := active - {resource};
    }

    method Consume(a: Approval, now: real) returns (ok: bool)
      modifies this
      ensures (ok, Contents()) == AfterConsume(old(Contents()), a, now)
    {
      if a.expiresAt as real <= now || a.resource !in active || active[a.resource] != a.id {
        return false;
      }
      active := active - {a.resource};
      return true;
    }
  }

  /** The in-memory put is two steps of the machine: forget what the purge drops, then approve. */
  lemma PutIsTwoSteps(s: State, a: Approval)
    requires Fresh(s.log, a.id)
    ensures var kept := Purged(StoreOf(s), s.clock);
      var forgotten := Next(s, Forget(s.records.Keys - kept.records.Keys, s.active.Keys - kept.active.Keys));
      && forgotten.Some? && Next(forgotten.value, Approve(a)).Some?
      && StoreOf(Next(forgotten.value, Approve(a)).value) == AfterPut(StoreOf(s), a, s.clock)
  {
    var kept := Purged(StoreOf(s), s.clock);
    assert s.records - (s.records.Keys - kept.records.Keys) == kept.records;
    assert s.active - (s.active.Keys - kept.active.Keys) == kept.active;
  }

  /** The in-memory consume is one step of the machine. */
  lemma ConsumeIsOneStep(s: State, c: nat)
    requires c < |s.clients| && s.clients[c].phase.Consuming?
    ensures var t := Next(s, ConsumeInMemory(c));
      && t.Some?
      && t.value.clients[c].phase.Finished?
      && (t.value.clients[c].phase.ok, StoreOf(t.value)) == AfterConsume(StoreOf(s), s.clients[c].phase.held, s.clock)
  {
  }
}

/** How an authorize of an approval ends when nobody else acts, and when a consume is retried. */
module ApprovalCalls {
  import opened Wrappers
  import opened Approvals
  import opened Iteration

  /** The client's next step, with this verdict of the token check and this kind of store. */
  ghost function NextStep(phase: Phase, c: nat, verdict: bool, inMemory: bool): Option<Action> {
    match phase
    case Asked => Some(Lookup(c))
    case Found(_) => Some(CheckExpiry(c))
    case Unexpired(_) => Some(CheckActive(c))
    case Matched(_) => Some(VerifyToken(c, verdict))
    case Consuming(_) => Some(if inMemory then ConsumeInMemory(c) else Watch(c))
    case Watching(_, _) => Some(Read(c))
    case Ready(_, _, _) => Some(Exec(c))
    case _ => None
  }

  ghost function Advance(c: nat, verdict: bool, inMemory: bool): State -> Option<State> {
    (s: State) =>
      if c < |s.clients| && NextStep(s.clients[c].phase, c, verdict, inMemory).Some?
      then Next(s, NextStep(s.clients[c].phase, c, verdict, inMemory).value)
      else None
  }

  /** The client of the request in the given phase, everything else as in s. */
  function At(s: State, c: nat, request: Request, phase: Phase): State
    requires c < |s.clients|
  {
    Set(s, c, Client(request, 0, phase))
  }

  lemma SetTwice(s: State, c: nat, x: Client, y: Client)
    requires c < |s.clients|
    ensures Set(Set(s, c, x), c, y) == Set(s, c, y)
  {
    assert s.clients[c := x][c := y] == s.clients[c := y];
  }

  /** There is a live record for the id, active on its resource, pinning exactly what is presented. */
  predicate Grantable(s: State, request: Request) {
    && request.id in s.records
    && var a := s.records[request.id];
       && s.clock < a.expiresAt as real
       && a.resource in s.active && s.active[a.resource] == a.id
       && request == Request(a.id, a.resource, a.revision, a.digest)
  }

  // ---- One step at a time ----------------------------------------------------------------------

  lemma LooksUp(s: State, c: nat, q: Request, verdict: bool, inMemory: bool)
    requires c < |s.clients|
    ensures Advance(c, verdict, inMemory)(At(s, c, q, Asked))
         == Some(At(s, c, q, if q.id in s.records then Found(s.records[q.id]) else Finished(false)))
  {
    SetTwice(s, c, Client(q, 0, Asked), Client(q, 0, if q.id in s.records then Found(s.records[q.id]) else Finished(false)));
  }

  lemma ChecksExpiry(s: State, c: nat, q: Request, a: Approval, verdict: bool, inMemory: bool)
    requires c < |s.clients|
    ensures Advance(c, verdict, inMemory)(At(s, c, q, Found(a)))
         == Some(At(s, c, q, if s.clock < a.expiresAt as real then Unexpired(a) else Finished(false)))
  {
    SetTwice(s, c, Client(q, 0, Found(a)), Client(q, 0, if s.clock < a.expiresAt as real then Unexpired(a) else Finished(false)));
  }

  lemma ChecksActive(s: State, c: nat, q: Request, a: Approval, verdict: bool, inMemory: bool)
    requires c < |s.clients|
    ensures var fits := a.resource in s.active && s.active[a.resource] == a.id
                        && q == Request(a.id, a.resource, a.revision, a.digest);
      Advance(c, verdict, inMemory)(At(s, c, q, Unexpired(a)))
      == Some(At(s, c, q, if fits then Matched(a) else Finished(false)))
  {
    var fits := a.resource in s.active && s.active[a.resource] == a.id && q == Request(a.id, a.resource, a.revision, a.digest);
    SetTwice(s, c, Client(q, 0, Unexpired(a)), Client(q, 0, if fits then Matched(a) else Finished(false)));
  }

  lemma ChecksToken(s: State, c: nat, q: Request, a: Approval, verdict: bool, inMemory: bool)
    requires c < |s.clients|
    ensures Advance(c, verdict, inMemory)(At(s, c, q, Matched(a)))
         == Some(At(s, c, q, if verdict then Consuming(a) else Finished(false)))
  {
    SetTwice(s, c, Client(q, 0, Matched(a)), Client(q, 0, if verdict then Consuming(a) else Finished(false)));
  }

  /** The store without the active entry of the request's resource, the client done, the success logged. */
  function Consumes(s: State, c: nat, q: Request): State
    requires c < |s.clients|
  {
    At(s, c, q, Finished(true)).(
      active := s.active - {q.resource},
      version := Bump(s.version, {q.resource} * s.active.Keys),
      log := s.log + [Consumed(q, s.clock)])
  }

  lemma TakesInMemory(s: State, c: nat, q: Request, a: Approval, verdict: bool)
    requires c < |s.clients| && Grantable(s, q) && a == s.records[q.id]
    ensures Advance(c, verdict, true)(At(s, c, q, Consuming(a))) == Some(Consumes(s, c, q))
  {
    SetTwice(s, c, Client(q, 0, Consuming(a)), Client(q, 0, Finished(true)));
  }

  lemma Watches(s: State, c: nat, q: Request, a: Approval, verdict: bool)
    requires c < |s.clients|
    ensures Advance(c, verdict, false)(At(s, c, q, Consuming(a))) == Some(At(s, c, q, Watching(a, Version(s, a.resource))))
  {
    SetTwice(s, c, Client(q, 0, Consuming(a)), Client(q, 0, Watching(a, Version(s, a.resource))));
  }

  lemma Reads(s: State, c: nat, q: Request, a: Approval, seen: nat, verdict: bool)
    requires c < |s.clients| && Grantable(s, q) && a == s.records[q.id]
    ensures Advance(c, verdict, false)(At(s, c, q, Watching(a, seen))) == Some(At(s, c, q, Ready(a, seen, s.clock)))
  {
    SetTwice(s, c, Client(q, 0, Watching(a, seen)), Client(q, 0, Ready(a, seen, s.clock)));
  }

  lemma Execs(s: State, c: nat, q: Request, a: Approval, verdict: bool)
    requires c < |s.clients| && q.resource == a.resource
    ensures Advance(c, verdict, false)(At(s, c, q, Ready(a, Version(s, a.resource), s.clock))) == Some(Consumes(s, c, q))
  {
    SetTwice(s, c, Client(q, 0, Ready(a, Version(s, a.resource), s.clock)), Client(q, 0, Finished(true)));
  }

  lemma FinishedStays(s: State, c: nat, verdict: bool, inMemory: bool, k: nat)
    requires c < |s.clients| && s.clients[c].phase.Finished?
    ensures Iterate(Advance(c, verdict, inMemory), s, k) == s
  {
    IterateEnds(Advance(c, verdict, inMemory), s, k);
  }

  // ---- The whole authorize -----------------------------------------------------------------------

  lemma ConsumesAlone(s: State, c: nat, q: Request, verdict: bool, inMemory: bool, k: nat)
    requires c < |s.clients| && Grantable(s, q) && k >= 3
    ensures Iterate(Advance(c, verdict, inMemory), At(s, c, q, Consuming(s.records[q.id])), k) == Consumes(s, c, q)
  {
    var f, a, t := Advance(c, verdict, inMemory), s.records[q.id], Consumes(s, c, q);
    var seen := Version(s, a.resource);
    if inMemory {
      TakesInMemory(s, c, q, a, verdict);
      IterateOnce(f, At(s, c, q, Consuming(a)), t, k);
      FinishedStays(t, c, verdict, inMemory, k - 1);
    } else {
      Watches(s, c, q, a, verdict);
      Reads(s, c, q, a, seen, verdict);
      Execs(s, c, q, a, verdict);
      IterateOnce(f, At(s, c, q, Consuming(a)), At(s, c, q, Watching(a, seen)), k);
      IterateOnce(f, At(s, c, q, Watching(a, seen)), At(s, c, q, Ready(a, seen, s.clock)), k - 1);
      IterateOnce(f, At(s, c, q, Ready(a, seen, s.clock)), t, k - 2);
      FinishedStays(t, c, verdict, inMemory, k - 3);
    }
  }

  lemma RefusedAt(s: State, c: nat, q: Request, verdict: bool, inMemory: bool, phase: Phase, k: nat)
    requires c < |s.clients| && k >= 1
    requires Advance(c, verdict, inMemory)(At(s, c, q, phase)) == Some(At(s, c, q, Finished(false)))
    ensures Iterate(Advance(c, verdict, inMemory), At(s, c, q, phase), k) == At(s, c, q, Finished(false))
  {
    IterateOnce(Advance(c, verdict, inMemory), At(s, c, q, phase), At(s, c, q, Finished(false)), k);
    FinishedStays(At(s, c, q, Finished(false)), c, verdict, inMemory, k - 1);
  }

  /** Where an authorize that is let through or refused ends. */
  function Outcome(s: State, c: nat, q: Request, granted: bool): State
    requires c < |s.clients|
  {
    if granted then Consumes(s, c, q) else At(s, c, q, Finished(false))
  }

  lemma FromMatched(s: State, c: nat, q: Request, verdict: bool, inMemory: bool, k: nat)
    requires c < |s.clients| && Grantable(s, q) && k >= 4
    ensures Iterate(Advance(c, verdict, inMemory), At(s, c, q, Matched(s.records[q.id])), k) == Outcome(s, c, q, verdict)
  {
    var a := s.records[q.id];
    ChecksToken(s, c, q, a, verdict, inMemory);
    if verdict {
      IterateOnce(Advance(c, verdict, inMemory), At(s, c, q, Matched(a)), At(s, c, q, Consuming(a)), k);
      ConsumesAlone(s, c, q, verdict, inMemory, k - 1);
    } else {
      RefusedAt(s, c, q, verdict, inMemory, Matched(a), k);
    }
  }

  lemma FromUnexpired(s: State, c: nat, q: Request, verdict: bool, inMemory: bool, k: nat)
    requires c < |s.clients| && q.id in s.records && s.clock < s.records[q.id].expiresAt as real && k >= 5
    ensures Iterate(Advance(c, verdict, inMemory), At(s, c, q, Unexpired(s.records[q.id])), k)
         == Outcome(s, c, q, Grantable(s, q) && verdict)
  {
    var a := s.records[q.id];
    ChecksActive(s, c, q, a, verdict, inMemory);
    if Grantable(s, q) {
      IterateOnce(Advance(c, verdict, inMemory), At(s, c, q, Unexpired(a)), At(s, c, q, Matched(a)), k);
      FromMatched(s, c, q, verdict, inMemory, k - 1);
    } else {
      RefusedAt(s, c, q, verdict, inMemory, Unexpired(a), k);
    }
  }

  lemma FromFound(s: State, c: nat, q: Request, verdict: bool, inMemory: bool, k: nat)
    requires c < |s.clients| && q.id in s.records && k >= 6
    ensures Iterate(Advance(c, verdict, inMemory), At(s, c, q, Found(s.records[q.id])), k)
         == Outcome(s, c, q, Grantable(s, q) && verdict)
  {
    var a := s.records[q.id];
    ChecksExpiry(s, c, q, a, verdict, inMemory);
    if s.clock < a.expiresAt as real {
      IterateOnce(Advance(c, verdict, inMemory), At(s, c, q, Found(a)), At(s, c, q, Unexpired(a)), k);
      FromUnexpired(s, c, q, verdict, inMemory, k - 1);
    } else {
      RefusedAt(s, c, q, verdict, inMemory, Found(a), k);
    }
  }

  /**
    Left alone, an authorize succeeds exactly when the id has a live record that
    is active on its resource and pins exactly the presented request, and the
    token is accepted; it then consumes the approval, and otherwise changes
    nothing. This holds in memory and through Redis.
   */
  lemma AuthorizeAlone(s: State, c: nat, q: Request, verdict: bool, inMemory: bool)
    requires c < |s.clients| && (s.clients[c].phase.Idle? || s.clients[c].phase.Finished?)
    ensures var asked := Next(s, Ask(c, q));
      && asked.Some?
      && Iterate(Advance(c, verdict, inMemory), asked.value, 7)
         == Outcome(s, c, q, Grantable(s, q) && verdict)
  {
    LooksUp(s, c, q, verdict, inMemory);
    if q.id in s.records {
      IterateOnce(Advance(c, verdict, inMemory), At(s, c, q, Asked), At(s, c, q, Found(s.records[q.id])), 7);
      FromFound(s, c, q, verdict, inMemory, 6);
    } else {
      RefusedAt(s, c, q, verdict, inMemory, Asked, 7);
    }
  }

  // ---- Conflicts -------------------------------------------------------------------------------------

  /**
    A consume whose resource changed since WATCH starts over, 64 attempts in all;
    only the last one gives up.
   */
  lemma ConsumeIsRetried(s: State, c: nat)
    requires c < |s.clients| && s.clients[c].phase.Ready?
    requires s.clients[c].phase.seen != Version(s, s.clients[c].phase.held.resource)
    ensures var client := s.clients[c];
      var t := Next(s, Exec(c));
      && t.Some? && t.value.log == s.log && t.value.active == s.active && |t.value.clients| == |s.clients|
      && t.value.clients[c] ==
           (if client.attempts < 63
            then Client(client.request, client.attempts + 1, Consuming(client.phase.held))
            else Client(client.request, client.attempts, Finished(false)))
  {
  }
}

/** A ledger call over Redis is never stuck and takes a bounded number of its own steps. */
module RedisProgress {
  import opened Ledger
  import opened RedisProtocol
  import opened RedisLedger
  import opened RedisLedgerProof

  /** A step of this client's call, after the call itself. */
  predicate StepOf(a: Action, i: nat) {
    !a.Tick? && !a.Expire? && !a.Call? && a.client == i
  }

  // ---- Never stuck -----------------------------------------------------------------------

  /** The keys the next command of the client touches. */
  function TouchedKeys(phase: Phase): seq<Key> {
    if phase.Named? || phase.Reading? || phase.Ready? then phase.keys else []
  }

  function NextStep(c: Client, i: nat): Action
    requires Active(c.phase)
  {
    match c.phase
    case Starting => Begin(i)
    case Named(_) => Watch(i)
    case Reading(keys, _, got) => if |got| < |keys| then Read(i) else Recheck(i)
    case Ready(_, _, _, _, _) => Exec(i)
  }

  lemma ReadyCanExec(p: Params, s: State, i: nat)
    requires Inv(p, s) && i < |s.clients| && s.clients[i].phase.Ready? && NoneDue(s, s.clients[i].phase.keys)
    ensures ExecStep(p, s, i).Some?
  {
    var c := s.clients[i];
    assert ClientSound(p, s, Replay(p.cfg, s.log).value, c);
    assert ReadySound(p, s, Replay(p.cfg, s.log).value, c);
  }

  /** What the invariant says about a call in progress, as far as its next step needs it. */
  ghost predicate CanGoOn(p: Params, s: State, i: nat) {
    && i < |s.clients| && s.clients[i].amount.Valid?
    && (s.clients[i].phase.Reading? ==> |s.clients[i].phase.got| <= |s.clients[i].phase.keys|)
    && (s.clients[i].phase.Ready? && NoneDue(s, s.clients[i].phase.keys) ==> ExecStep(p, s, i).Some?)
  }

  lemma InvCanGoOn(p: Params, s: State, i: nat)
    requires Inv(p, s) && i < |s.clients| && Active(s.clients[i].phase)
    ensures CanGoOn(p, s, i)
  {
    var c := s.clients[i];
    assert ClientSound(p, s, Replay(p.cfg, s.log).value, c);
    if c.phase.Ready? && NoneDue(s, c.phase.keys) { ReadyCanExec(p, s, i); }
  }

  lemma NextStepEnabled(p: Params, s: State, i: nat)
    requires CanGoOn(p, s, i) && Active(s.clients[i].phase) && NoneDue(s, TouchedKeys(s.clients[i].phase))
    ensures Apply(p, s, NextStep(s.clients[i], i)).Some? && StepOf(NextStep(s.clients[i], i), i)
  {
  }

  /**
    In every run a call in progress can go on: either its client has an enabled
    step, or a key that it touches is due and the server can remove that key.
   */
  lemma {:induction false} NeverStuck(p: Params, n: nat, clock: real, acts: seq<Action>, i: nat) returns (a: Action)
    requires ValidParams(p) && Run(p, n, clock, acts).Some?
    requires i < |Run(p, n, clock, acts).value.clients| && Active(Run(p, n, clock, acts).value.clients[i].phase)
    ensures var s := Run(p, n, clock, acts).value;
      && Apply(p, s, a).Some?
      && (if NoneDue(s, TouchedKeys(s.clients[i].phase)) then StepOf(a, i)
          else a.Expire? && a.key in TouchedKeys(s.clients[i].phase) && a.key !in Apply(p, s, a).value.db)
  {
    RunKeeps(p, n, clock, acts);
    var s := Run(p, n, clock, acts).value;
    var keys := TouchedKeys(s.clients[i].phase);
    if NoneDue(s, keys) {
      InvCanGoOn(p, s, i);
      NextStepEnabled(p, s, i);
      a := NextStep(s.clients[i], i);
    } else {
      var j :| 0 <= j < |keys| && Due(s, keys[j]);
      a := Expire(keys[j]);
    }
  }

  // ---- A bound on the steps of a call -------------------------------------------------------

  /** More than the steps of one attempt: begin, watch, a read per key, re-check and exec. */
  function Width(c: Client): nat { |c.chain| + 5 }

  /** How far the current attempt has come. */
  function Position(phase: Phase): nat {
    match phase
    case Named(_) => 1
    case Reading(_, _, got) => 2 + |got|
    case Ready(keys, _, _, _, _) => 3 + |keys|
    case _ => 0
  }

  /** An upper bound on the steps the client still takes in this call. */
  function Remaining(p: Params, c: Client): int {
    if Active(c.phase) then (p.maxRetries - c.attempts) * Width(c) - Position(c.phase) else 0
  }

  lemma PositionInside(p: Params, s: State, book: Book, c: Client)
    requires ClientSound(p, s, book, c) && Active(c.phase)
    ensures Position(c.phase) < Width(c) && Remaining(p, c) >= 1
  {
    if c.phase.Named? || Watching(c.phase) {
      assert |ChainKeys(c.chain)| <= |c.chain| + 1;
    }
    var left := p.maxRetries - c.attempts;
    assert left * Width(c) == (left - 1) * Width(c) + Width(c);
    assert (left - 1) * Width(c) >= 0;
  }

  /** A step ends the call, aborts the attempt, or moves it forward. */
  predicate Moves(c: Client, c': Client) {
    && c'.chain == c.chain && Active(c.phase)
    && (Active(c'.phase) ==>
          if c'.phase.Starting? then c'.attempts == c.attempts + 1
          else c'.attempts == c.attempts && Position(c'.phase) > Position(c.phase))
  }

  lemma MovesCost(p: Params, c: Client, c': Client)
    requires Moves(c, c') && Position(c.phase) < Width(c) && Remaining(p, c) >= 1
    ensures Remaining(p, c') < Remaining(p, c)
  {
    var left := p.maxRetries - c.attempts;
    assert (left - 1) * Width(c) == left * Width(c) - Width(c);
  }

  /** Every step of the call uses up some of what remains. */
  lemma OwnStepDecreases(p: Params, s: State, a: Action, i: nat)
    requires ValidParams(p) && Inv(p, s) && i < |s.clients| && StepOf(a, i) && Apply(p, s, a).Some?
    ensures var s' := Apply(p, s, a).value;
      && |s'.clients| == |s.clients| && s'.clients[i].chain == s.clients[i].chain
      && 0 <= Remaining(p, s'.clients[i]) < Remaining(p, s.clients[i])
  {
    var s' := Apply(p, s, a).value;
    RemainingPositive(p, s, i);
    StepKeeps(p, s, a);
    StepMoves(p, s, a, i);
    RemainingPositive(p, s', i);
    MovesCost(p, s.clients[i], s'.clients[i]);
  }

  lemma RemainingPositive(p: Params, s: State, i: nat)
    requires Inv(p, s) && i < |s.clients|
    ensures if Active(s.clients[i].phase) then Remaining(p, s.clients[i]) >= 1 && Position(s.clients[i].phase) < Width(s.clients[i])
            else Remaining(p, s.clients[i]) == 0
  {
    var book := Replay(p.cfg, s.log).value;
    assert ClientSound(p, s, book, s.clients[i]);
    if Active(s.clients[i].phase) { PositionInside(p, s, book, s.clients[i]); }
  }

  lemma StepMoves(p: Params, s: State, a: Action, i: nat)
    requires i < |s.clients| && StepOf(a, i) && Apply(p, s, a).Some?
    ensures var s' := Apply(p, s, a).value;
      |s'.clients| == |s.clients| && Moves(s.clients[i], s'.clients[i])
  {
  }

  /** Nobody else touches the client. */
  lemma OtherStepsKeep(p: Params, s: State, a: Action, i: nat)
    requires i < |s.clients| && Apply(p, s, a).Some?
    requires a.Tick? || a.Expire? || a.client != i
    ensures |Apply(p, s, a).value.clients| == |s.clients| && Apply(p, s, a).value.clients[i] == s.clients[i]
  {
  }

  /** The steps client i has taken since it last started a call. */
  function StepsSinceCall(acts: seq<Action>, i: nat): nat {
    if acts == [] then 0
    else
      var a, before := acts[|acts| - 1], StepsSinceCall(acts[..|acts| - 1], i);
      if StepOf(a, i) then before + 1 else if a.Call? && a.client == i then 0 else before
  }

  ghost predicate WithinBound(p: Params, steps: nat, c: Client) {
    Remaining(p, c) >= 0 && steps + Remaining(p, c) <= p.maxRetries * Width(c)
  }

  lemma NewCallWithinBound(p: Params, c: Client)
    requires c.attempts == 0 && (c.phase.Starting? || c.phase.Done?)
    ensures WithinBound(p, 0, c)
  {
    assert p.maxRetries * Width(c) >= 0;
  }

  lemma {:induction false} StepsWithinBound(p: Params, n: nat, clock: real, acts: seq<Action>, i: nat)
    requires ValidParams(p) && Run(p, n, clock, acts).Some? && i < n
    ensures |Run(p, n, clock, acts).value.clients| == n
    ensures WithinBound(p, StepsSinceCall(acts, i), Run(p, n, clock, acts).value.clients[i])
  {
    if acts == [] {
      assert p.maxRetries * Width(Initial(n, clock).clients[i]) >= 0;
    } else {
      var a, before := acts[|acts| - 1], Run(p, n, clock, acts[..|acts| - 1]).value;
      StepsWithinBound(p, n, clock, acts[..|acts| - 1], i);
      RunKeeps(p, n, clock, acts[..|acts| - 1]);
      if StepOf(a, i) {
        OwnStepDecreases(p, before, a, i);
      } else if a.Call? && a.client == i {
        NewCallWithinBound(p, Apply(p, before, a).value.clients[i]);
      } else {
        OtherStepsKeep(p, before, a, i);
      }
    }
  }

  /** Whatever the other clients and the server do, a call takes at most max_retries * (|chain| + 5) own steps. */
  lemma {:induction false} CallStepsBounded(p: Params, n: nat, clock: real, acts: seq<Action>, i: nat)
    requires ValidParams(p) && Run(p, n, clock, acts).Some? && i < n
    ensures |Run(p, n, clock, acts).value.clients| == n
    ensures StepsSinceCall(acts, i) <= p.maxRetries * (|Run(p, n, clock, acts).value.clients[i].chain| + 5)
  {
    StepsWithinBound(p, n, clock, acts, i);
  }
}

/**
  The Redis ledger: the protocol with entries whose totals are numbers. Ledgers
  that store totals as text are related to it.
 */
module RedisLedger {
  import opened Wrappers
  import opened Decimals
  import opened Ledger
  import opened RedisProtocol

  type Cell = CellOf<Entry>
  type Phase = PhaseOf<Entry>
  type Client = ClientOf<Entry>
  type State = StateOf<Entry>

  predicate AllAccept(recs: seq<Record>, got: seq<Option<Entry>>, now: real, amount: real)
    requires |recs| == |got|
  {
    forall i :: 0 <= i < |recs| ==> Pending(recs[i], got[i], now, amount).Some?
  }

  function Computed(recs: seq<Record>, got: seq<Option<Entry>>, now: real, amount: real): seq<Entry>
    requires |recs| == |got| && AllAccept(recs, got, now, amount)
  {
    seq(|recs|, i requires 0 <= i < |recs| => Pending(recs[i], got[i], now, amount).value)
  }

  /** The second clock reading: records and limits are checked again after the reads. */
  function RecheckStep(p: Params, s: State, c: Client): Phase
    requires c.phase.Reading? && c.amount.Valid?
  {
    match Records(p.cfg, c.chain, s.clock)
    case Err(_) => Done(Rejected)
    case Ok(recs) =>
      var got, amount := c.phase.got, Val(c.amount.d);
      if |recs| != |got| then Done(Rejected)
      else if !AllAccept(recs, got, s.clock, amount) then Done(Rejected)
      else Ready(c.phase.keys, c.phase.seen, got, s.clock, Computed(recs, got, s.clock, amount))
  }

  /** One action; None when it is not enabled. */
  function Apply(p: Params, s: State, a: Action): Option<State> {
    if a.Recheck? then
      if Rechecks(s, a)
      then Some(Put(s, a.client, s.clients[a.client].(phase := RecheckStep(p, s, s.clients[a.client]))))
      else None
    else CommonStep(p, s, a)
  }

  /** The state after a run of actions from an empty server with n clients. */
  function Run(p: Params, n: nat, clock: real, acts: seq<Action>): Option<State> {
    if acts == [] then Some(Initial(n, clock))
    else
      match Run(p, n, clock, acts[..|acts| - 1])
      case None => None
      case Some(s) => Apply(p, s, acts[|acts| - 1])
  }
}

/** The protocol is blind to what entries are: translating every entry commutes with its steps. */
module RedisTranslation {
  import opened Wrappers
  import opened Maps
  import opened Ledger
  import opened RedisProtocol

  function TranslateOption<E, F>(f: E -> F, e: Option<E>): Option<F> {
    if e.Some? then Some(f(e.value)) else None
  }

  function TranslateReads<E, F>(f: E -> F, got: seq<Option<E>>): (out: seq<Option<F>>)
    ensures |out| == |got|
    ensures forall i :: 0 <= i < |got| ==> out[i] == TranslateOption(f, got[i])
  {
    seq(|got|, i requires 0 <= i < |got| => TranslateOption(f, got[i]))
  }

  function TranslateEntries<E, F>(f: E -> F, es: seq<E>): (out: seq<F>)
    ensures |out| == |es|
    ensures forall i :: 0 <= i < |es| ==> out[i] == f(es[i])
  {
    seq(|es|, i requires 0 <= i < |es| => f(es[i]))
  }

  function TranslateCell<E, F>(f: E -> F, cell: CellOf<E>): CellOf<F> { Cell(f(cell.entry), cell.deadline) }

  function TranslateCells<E, F>(f: E -> F, cells: seq<CellOf<E>>): (out: seq<CellOf<F>>)
    ensures |out| == |cells|
    ensures forall i :: 0 <= i < |cells| ==> out[i] == TranslateCell(f, cells[i])
  {
    seq(|cells|, i requires 0 <= i < |cells| => TranslateCell(f, cells[i]))
  }

  function TranslateDb<E, F>(f: E -> F, db: map<Key, CellOf<E>>): map<Key, CellOf<F>> {
    map k | k in db :: TranslateCell(f, db[k])
  }

  function TranslatePhase<E, F>(f: E -> F, phase: PhaseOf<E>): PhaseOf<F> {
    match phase
    case Idle => Idle
    case Starting => Starting
    case Named(keys) => Named(keys)
    case Reading(keys, seen, got) => Reading(keys, seen, TranslateReads(f, got))
    case Ready(keys, seen, got, now, pending) =>
      Ready(keys, seen, TranslateReads(f, got), now, TranslateEntries(f, pending))
    case Done(outcome) => Done(outcome)
  }

  function TranslateClient<E, F>(f: E -> F, c: ClientOf<E>): ClientOf<F> {
    Client(c.chain, c.amount, c.attempts, c.writes, TranslatePhase(f, c.phase))
  }

  function TranslateClients<E, F>(f: E -> F, cs: seq<ClientOf<E>>): (out: seq<ClientOf<F>>)
    ensures |out| == |cs|
    ensures forall i :: 0 <= i < |cs| ==> out[i] == TranslateClient(f, cs[i])
  {
    seq(|cs|, i requires 0 <= i < |cs| => TranslateClient(f, cs[i]))
  }

  function Translate<E, F>(f: E -> F, s: StateOf<E>): StateOf<F> {
    State(s.clock, TranslateDb(f, s.db), s.version, TranslateClients(f, s.clients), s.log, s.expiries, s.aborts)
  }

  // ---- Pieces --------------------------------------------------------------------------------

  lemma PutTranslates<E, F>(f: E -> F, s: StateOf<E>, i: nat, c: ClientOf<E>)
    requires i < |s.clients|
    ensures Translate(f, Put(s, i, c)) == Put(Translate(f, s), i, TranslateClient(f, c))
  {
  }

  lemma ReadTranslates<E, F>(f: E -> F, s: StateOf<E>, phase: PhaseOf<E>)
    requires phase.Reading? && |phase.got| < |phase.keys|
    ensures TranslatePhase(f, ReadStep(s, phase)) == ReadStep(Translate(f, s), TranslatePhase(f, phase))
  {
    var k := phase.keys[|phase.got|];
    assert TranslateOption(f, Stored(s.db, k)) == Stored(Translate(f, s).db, k);
    assert TranslateReads(f, phase.got + [Stored(s.db, k)])
        == TranslateReads(f, phase.got) + [TranslateOption(f, Stored(s.db, k))];
  }

  lemma CellsTranslate<E, F>(f: E -> F, s: StateOf<E>, recs: seq<Record>, pending: seq<E>, now: real)
    requires |recs| == |pending|
    ensures TranslateCells(f, Cells(s, recs, pending, now)) == Cells(Translate(f, s), recs, TranslateEntries(f, pending), now)
  {
  }

  lemma {:induction false} AssignTranslates<E, F>(f: E -> F, db: map<Key, CellOf<E>>, ks: seq<Key>, cells: seq<CellOf<E>>)
    requires |ks| == |cells|
    ensures TranslateDb(f, Assign(db, ks, cells)) == Assign(TranslateDb(f, db), ks, TranslateCells(f, cells))
  {
    if ks != [] {
      var n := |ks| - 1;
      AssignTranslates(f, db, ks[..n], cells[..n]);
      assert TranslateCells(f, cells)[..n] == TranslateCells(f, cells[..n]);
    }
  }

  lemma CommitTranslates<E, F>(f: E -> F, p: Params, s: StateOf<E>, i: nat, recs: seq<Record>)
    requires i < |s.clients| && s.clients[i].phase.Ready? && |recs| == |s.clients[i].phase.pending|
    ensures Translate(f, Commit(p, s, i, recs)) == Commit(p, Translate(f, s), i, recs)
  {
    var c := s.clients[i];
    CellsTranslate(f, s, recs, c.phase.pending, c.phase.now);
    AssignTranslates(f, s.db, KeysOf(recs), Cells(s, recs, c.phase.pending, c.phase.now));
    PutTranslates(f, s, i, c.(writes := c.writes + 1, phase := Done(Accepted)));
  }

  lemma AbortTranslates<E, F>(f: E -> F, p: Params, s: StateOf<E>, i: nat)
    requires i < |s.clients|
    ensures Translate(f, Abort(p, s, i)) == Abort(p, Translate(f, s), i)
  {
    var c := s.clients[i];
    PutTranslates(f, s, i, c.(attempts := c.attempts + 1, phase := if c.attempts + 1 >= p.maxRetries then Done(Exhausted) else Starting));
  }

  lemma ExecTranslates<E, F>(f: E -> F, p: Params, s: StateOf<E>, i: nat)
    requires i < |s.clients| && s.clients[i].phase.Ready?
    ensures ExecStep(p, Translate(f, s), i) == match ExecStep(p, s, i) { case None => None case Some(t) => Some(Translate(f, t)) }
  {
    var c := s.clients[i];
    assert NoneDue(Translate(f, s), c.phase.keys) <==> NoneDue(s, c.phase.keys) by {
      assert forall k :: Due(Translate(f, s), k) <==> Due(s, k);
    }
    assert Unchanged(Translate(f, s), c.phase.keys, c.phase.seen) <==> Unchanged(s, c.phase.keys, c.phase.seen) by {
      assert forall k :: Version(Translate(f, s), k) == Version(s, k);
    }
    AbortTranslates(f, p, s, i);
    if Records(p.cfg, c.chain, c.phase.now).Ok? && |Records(p.cfg, c.chain, c.phase.now).value| == |c.phase.pending| {
      CommitTranslates(f, p, s, i, Records(p.cfg, c.chain, c.phase.now).value);
    }
  }

  lemma ExpireTranslates<E, F>(f: E -> F, p: Params, s: StateOf<E>, k: Key)
    ensures CommonStep(p, Translate(f, s), Expire(k))
         == match CommonStep(p, s, Expire(k)) { case None => None case Some(t) => Some(Translate(f, t)) }
  {
    assert TranslateDb(f, s.db - {k}) == TranslateDb(f, s.db) - {k};
  }

  lemma QuietTranslates<E, F>(f: E -> F, p: Params, s: StateOf<E>, a: Action)
    requires a.Call? || a.Begin? || a.Watch? || a.Read?
    requires a.client < |s.clients|
    ensures ClientStep(p, Translate(f, s), a) == match ClientStep(p, s, a) { case None => None case Some(t) => Some(Translate(f, t)) }
  {
    var i := a.client;
    var c := s.clients[i];
    assert forall k :: Due(Translate(f, s), k) <==> Due(s, k);
    assert forall k :: Version(Translate(f, s), k) == Version(s, k);
    match a {
      case Call(_, chain, amount) =>
        PutTranslates(f, s, i, Client(chain, amount, 0, 0, if amount.Valid? then Starting else Done(Rejected)));
      case Begin(_) => PutTranslates(f, s, i, c.(phase := BeginStep(p, s, c)));
      case Watch(_) =>
        if c.phase.Named? {
          assert NoneDue(Translate(f, s), c.phase.keys) <==> NoneDue(s, c.phase.keys);
          assert Versions(Translate(f, s), c.phase.keys) == Versions(s, c.phase.keys);
          PutTranslates(f, s, i, c.(phase := Reading(c.phase.keys, Versions(s, c.phase.keys), [])));
        }
      case Read(_) =>
        if c.phase.Reading? && |c.phase.got| < |c.phase.keys| {
          ReadTranslates(f, s, c.phase);
          PutTranslates(f, s, i, c.(phase := ReadStep(s, c.phase)));
        }
      case _ =>
    }
  }

  /** Every step but the re-check does the same before and after translation. */
  lemma StepTranslates<E, F>(f: E -> F, p: Params, s: StateOf<E>, a: Action)
    requires !a.Recheck?
    ensures CommonStep(p, Translate(f, s), a)
         == match CommonStep(p, s, a) { case None => None case Some(t) => Some(Translate(f, t)) }
  {
    if a.Expire? {
      ExpireTranslates(f, p, s, a.key);
    } else if a.Exec? {
      if a.client < |s.clients| && s.clients[a.client].phase.Ready? { ExecTranslates(f, p, s, a.client); }
    } else if !a.Tick? {
      if a.client < |s.clients| { QuietTranslates(f, p, s, a); }
    }
  }

  lemma InitialTranslates<E, F>(f: E -> F, n: nat, clock: real)
    ensures Translate(f, Initial<E>(n, clock)) == Initial<F>(n, clock)
  {
  }
}

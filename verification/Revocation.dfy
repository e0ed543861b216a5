/** Token revocation with automatic expiry, purged on every call. */
module Revocation {
  import opened JsonValues
  import opened TokenClaims

  type Revoked = map<Str, int>

  function PurgeRevoked(revoked: Revoked, now: real): Revoked {
    map j | j in revoked && revoked[j] as real > now :: revoked[j]
  }

  function AfterRevoke(revoked: Revoked, jti: Str, expiresAt: int, now: real): Revoked {
    var kept := PurgeRevoked(revoked, now);
    var retainedUntil := expiresAt + RETENTION_AFTER_EXP_SECONDS;
    var previous := if jti in kept then kept[jti] else 0;
    if retainedUntil as real <= now then kept
    else kept[jti := if previous > retainedUntil then previous else retainedUntil]
  }

  predicate IsRevoked(revoked: Revoked, jti: Str, now: real) {
    jti in PurgeRevoked(revoked, now)
  }

  // ---- Runs of the store --------------------------------------------------------------

  // Every operation reads the clock once.
  datatype StoreOp = Revoke(jti: Str, expiresAt: int, now: real) | Lookup(jti: Str, now: real)

  function StoreAfter(ops: seq<StoreOp>): Revoked {
    if ops == [] then map[]
    else
      var before := StoreAfter(ops[..|ops| - 1]);
      match ops[|ops| - 1]
      case Revoke(jti, expiresAt, now) => AfterRevoke(before, jti, expiresAt, now)
      case Lookup(_, now) => PurgeRevoked(before, now)
  }

  ghost predicate OpsOrdered(ops: seq<StoreOp>) {
    forall i, j :: 0 <= i <= j < |ops| ==> ops[i].now <= ops[j].now
  }

  ghost predicate DoneBy(ops: seq<StoreOp>, now: real) {
    forall i :: 0 <= i < |ops| ==> ops[i].now <= now
  }

  /** The operation revokes the id for a period that is not over at `now`. */
  predicate Reaches(op: StoreOp, jti: Str, now: real) {
    op.Revoke? && op.jti == jti && now < (op.expiresAt + RETENTION_AFTER_EXP_SECONDS) as real
  }

  ghost predicate RevokedInHistory(ops: seq<StoreOp>, jti: Str, now: real) {
    exists i :: 0 <= i < |ops| && Reaches(ops[i], jti, now)
  }

  lemma HistoryStep(ops: seq<StoreOp>, jti: Str, now: real)
    requires ops != []
    ensures RevokedInHistory(ops, jti, now)
       <==> RevokedInHistory(ops[..|ops| - 1], jti, now) || Reaches(ops[|ops| - 1], jti, now)
  {
    var n := |ops| - 1;
    if i :| 0 <= i < |ops| && Reaches(ops[i], jti, now) && i < n {
      assert Reaches(ops[..n][i], jti, now);
    }
    if i :| 0 <= i < n && Reaches(ops[..n][i], jti, now) {
      assert Reaches(ops[i], jti, now);
    }
  }

  /**
    Purging never loses a revocation and never invents one: at any later reading
    the store knows an id exactly when some revocation of it still has retention
    left. Only the second half needs the clock to be past the epoch.
   */
  lemma {:induction false} RetentionExact(ops: seq<StoreOp>, jti: Str, now: real)
    requires OpsOrdered(ops) && DoneBy(ops, now)
    ensures RevokedInHistory(ops, jti, now) ==> IsRevoked(StoreAfter(ops), jti, now)
    ensures now >= 0.0 ==> (IsRevoked(StoreAfter(ops), jti, now) ==> RevokedInHistory(ops, jti, now))
  {
    if ops != [] {
      RetentionExact(ops[..|ops| - 1], jti, now);
      HistoryStep(ops, jti, now);
    }
  }

  // ---- The store object -----------------------------------------------------------------

  class InMemoryRevocationStore {
    var revoked: Revoked

    constructor ()
      ensures revoked == StoreAfter([])
    {
      revoked := map[];
    }

    method PurgeExpired(now: real)
      modifies this
      ensures revoked == PurgeRevoked(old(revoked), now)
    {
      var expired := set j | j in revoked && revoked[j] as real <= now;
      ghost var all := expired;
      while expired != {}
        invariant expired <= all
        invariant revoked == old(revoked) - (all - expired)
      {
        var jti :| jti in expired;
        revoked := revoked - {jti};
        expired := expired - {jti};
      }
    }

    method RevokeToken(jti: Str, expiresAt: int, now: real)
      modifies this
      ensures revoked == AfterRevoke(old(revoked), jti, expiresAt, now)
    {
      var retainedUntil := expiresAt + RETENTION_AFTER_EXP_SECONDS;
      PurgeExpired(now);
      if retainedUntil as real <= now { return; }
      var previous := if jti in revoked then revoked[jti] else 0;
      revoked := revoked[jti := if previous > retainedUntil then previous else retainedUntil];
    }

    method LookupToken(jti: Str, now: real) returns (found: bool)
      modifies this
      ensures found == IsRevoked(old(revoked), jti, now)
      ensures revoked == PurgeRevoked(old(revoked), now)
    {
      PurgeExpired(now);
      found := jti in revoked;
    }
  }
}

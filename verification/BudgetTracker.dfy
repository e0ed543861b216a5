/** The single-process ledger of task and agent budgets, with totals kept as decimal text. */
module BudgetTracker {
  import opened Wrappers
  import opened TokenClaims
  import opened Decimals
  import opened DecimalText
  import opened Maps
  import opened Ledger
  import opened MemoryTrackers

  // How a runtime reads a stored total and prints a new one.
  datatype Codec = Codec(read: string -> Dec, show: Dec -> string)

  ghost predicate Exact(codec: Codec) {
    Val(codec.read("0")) == 0.0 && forall d :: Val(codec.read(codec.show(d))) == Val(d)
  }

  function ReadTotal(text: string): Dec {
    if IsNumeral(text) then Parse(text) else Zero
  }

  const PythonCodec: Codec := Codec(ReadTotal, PythonText)

  /** Decimal(str(...)) and _decimal_text lose nothing. */
  lemma {:induction false} PythonCodecExact()
    ensures Exact(PythonCodec)
  {
    DigitsAreNumeral("0");
    assert ParseNat("0") == 0;
    forall d ensures Val(PythonCodec.read(PythonCodec.show(d))) == Val(d) {
      PythonTextExact(d);
    }
  }

  datatype StoredEntry = StoredEntry(calls: nat, usd: string, minor: nat, stamps: seq<real>, expiry: int)

  /** The entry with its total as a number. */
  function Meaning(codec: Codec, e: StoredEntry): Entry {
    Entry(e.calls, Val(codec.read(e.usd)), e.minor, e.stamps, e.expiry)
  }

  function BookOf(codec: Codec, entries: map<Key, StoredEntry>): Book {
    map k | k in entries :: Meaning(codec, entries[k])
  }

  /** _pending on stored entries: the total is read from text, summed exactly and printed. */
  function StoredPending(codec: Codec, rec: Record, current: Option<StoredEntry>, now: real, amount: Dec)
    : Option<StoredEntry>
  {
    var base := if current.Some? then current.value else StoredEntry(0, "0", 0, [], 0);
    var calls := base.calls + 1;
    var total := Add(codec.read(base.usd), amount);
    var minor := base.minor + rec.minor;
    var recent := Recent(base.stamps, now - 60.0);
    if Exceeds(calls, rec.calls) then None
    else if rec.usd.Some? && Val(total) > rec.usd.value then None
    else if Exceeds(|recent| + 1, rec.rate) then None
    else if Exceeds(minor, rec.minorLimit) then None
    else Some(StoredEntry(calls, codec.show(total), minor, if rec.rate.Some? then recent + [now] else [], rec.expiry))
  }

  function MeaningOf(codec: Codec, current: Option<StoredEntry>): Option<Entry> {
    if current.Some? then Some(Meaning(codec, current.value)) else None
  }

  /** Storing totals as text changes no decision and no value. */
  lemma StoredPendingExact(codec: Codec, rec: Record, current: Option<StoredEntry>, now: real, amount: Dec)
    requires Exact(codec)
    ensures MeaningOf(codec, StoredPending(codec, rec, current, now, amount))
         == Pending(rec, MeaningOf(codec, current), now, Val(amount))
  {
    AddExact(codec.read(if current.Some? then current.value.usd else "0"), amount);
  }

  function Meanings(codec: Codec, entries: seq<StoredEntry>): (es: seq<Entry>)
    ensures |es| == |entries|
  {
    seq(|entries|, i requires 0 <= i < |entries| => Meaning(codec, entries[i]))
  }

  lemma {:induction false} AssignMeans(codec: Codec, entries: map<Key, StoredEntry>, ks: seq<Key>, vs: seq<StoredEntry>)
    requires |ks| == |vs|
    ensures BookOf(codec, Assign(entries, ks, vs)) == Assign(BookOf(codec, entries), ks, Meanings(codec, vs))
  {
    if ks != [] {
      var n := |ks| - 1;
      AssignMeans(codec, entries, ks[..n], vs[..n]);
      assert Meanings(codec, vs)[..n] == Meanings(codec, vs[..n]);
    }
  }

  class BudgetUsageTracker {
    const cfg: Config
    const codec: Codec
    var entries: map<Key, StoredEntry>

    constructor (cfg: Config, codec: Codec)
      ensures this.cfg == cfg && this.codec == codec && entries == map[]
    {
      this.cfg := cfg;
      this.codec := codec;
      entries := map[];
    }

    ghost function Contents(): Book
      reads this
    {
      BookOf(codec, entries)
    }

    /** _records: the token records in chain order, then the shared budget. */
    method RecordsFor(chain: seq<Claims>, now: real) returns (result: Result<seq<Record>, Refusal>)
      ensures result == Records(cfg, chain, now)
    {
      if chain == [] || !DistinctIds(chain) {
        return Err(Denied);
      }
      var records := [];
      for i := 0 to |chain|
        invariant records == TokenRecords(chain)[..i]
        invariant forall j :: 0 <= j < i ==> !(now >= ExpiryOf(chain[j]) as real)
      {
        if now >= ExpiryOf(chain[i]) as real {
          return Err(TokenExpired);
        }
        records := records + [TokenRecord(chain[i])];
      }
      assert records == TokenRecords(chain);
      assert !AnyExpired(chain, now);
      match BudgetRecords(cfg, chain, now) {
        case Err(e) => return Err(e);
        case Ok(budget) => return Ok(records + budget);
      }
    }

    /** The new entry of every record, or not allowed when one limit refuses. */
    method PendingEntries(records: seq<Record>, now: real, amount: Dec)
      returns (pending: seq<StoredEntry>, allowed: bool)
      requires Exact(codec)
      ensures allowed <==> AllPending(Contents(), records, now, Val(amount))
      ensures allowed ==> Meanings(codec, pending) == Charged(Contents(), records, now, Val(amount))
    {
      pending := [];
      for i := 0 to |records|
        invariant |pending| == i
        invariant forall j :: 0 <= j < i ==>
          Pending(records[j], Get(Contents(), records[j].key), now, Val(amount)) == Some(Meaning(codec, pending[j]))
      {
        var current := Get(entries, records[i].key);
        StoredPendingExact(codec, records[i], current, now, amount);
        assert MeaningOf(codec, current) == Get(Contents(), records[i].key);
        var entry := StoredPending(codec, records[i], current, now, amount);
        if entry.None? {
          return pending, false;
        }
        pending := pending + [entry.value];
      }
      return pending, true;
    }

    /** Charge every record of the chain at one clock reading, or change nothing. */
    method CheckAndRecordChain(chain: seq<Claims>, amount: Amount, now: real) returns (ok: bool)
      requires Exact(codec)
      modifies this
      ensures ok <==> BudgetReserve(cfg, old(Contents()), Reservation(chain, amount, now)).Some?
      ensures ok ==> Contents() == BudgetReserve(cfg, old(Contents()), Reservation(chain, amount, now)).value
      ensures !ok ==> entries == old(entries)
    {
      if amount.Invalid? {
        return false;
      }
      var result := RecordsFor(chain, now);
      if result.Err? {
        return false;
      }
      var records := result.value;
      var pending, allowed := PendingEntries(records, now, amount.d);
      if !allowed {
        return false;
      }
      var purged := map k | k in entries && entries[k].expiry as real > now :: entries[k];
      assert BookOf(codec, purged) == PurgeBook(Contents(), now);
      AssignMeans(codec, purged, KeysOf(records), pending);
      entries := Assign(purged, KeysOf(records), pending);
      return true;
    }

    method CheckAndRecord(claims: Claims, amount: Amount, now: real) returns (ok: bool)
      requires Exact(codec)
      modifies this
      ensures ok <==> BudgetReserve(cfg, old(Contents()), Reservation([claims], amount, now)).Some?
      ensures ok ==> Contents() == BudgetReserve(cfg, old(Contents()), Reservation([claims], amount, now)).value
      ensures !ok ==> entries == old(entries)
    {
      ok := CheckAndRecordChain([claims], amount, now);
    }
  }
}

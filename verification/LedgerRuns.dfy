/**
  What holds of whole runs of the ideal ledger: conservation, lifetime
  ceilings and the sliding-window rate.
 */
module LedgerRuns {
  import opened Wrappers
  import opened TokenClaims
  import opened Decimals
  import opened Ledger

  // ---- Counting the accepted reservations that name a key ---------------------

  /** The record with this key that the reservation charges, if it charges one. */
  function ChargeOn(cfg: Config, r: Reservation, k: Key): Option<Record> {
    match Records(cfg, r.chain, r.now)
    case Err(_) => None
    case Ok(recs) => FindRecord(recs, k)
  }

  function FindRecord(recs: seq<Record>, k: Key): (f: Option<Record>)
    ensures f.Some? <==> k in RecordKeys(recs)
    ensures f.Some? ==> f.value in recs && f.value.key == k
  {
    if recs == [] then None
    else if recs[0].key == k then Some(recs[0])
    else
      assert RecordKeys(recs) == RecordKeys(recs[1..]) + {recs[0].key} by { KeysOfTail(recs); }
      FindRecord(recs[1..], k)
  }

  lemma KeysOfTail(recs: seq<Record>)
    requires recs != []
    ensures RecordKeys(recs) == RecordKeys(recs[1..]) + {recs[0].key}
  {
    forall k | k in RecordKeys(recs) ensures k in RecordKeys(recs[1..]) + {recs[0].key} {
      var i :| 0 <= i < |recs| && recs[i].key == k;
      if i > 0 { assert recs[1..][i - 1] == recs[i]; }
    }
    forall k | k in RecordKeys(recs[1..]) ensures k in RecordKeys(recs) {
      var i :| 0 <= i < |recs[1..]| && recs[1..][i].key == k;
      assert recs[i + 1] == recs[1..][i];
    }
  }

  function AmountOf(r: Reservation): real {
    if r.amount.Valid? then Val(r.amount.d) else 0.0
  }

  function Calls(cfg: Config, log: seq<Reservation>, k: Key): nat {
    if log == [] then 0
    else
      var n := |log| - 1;
      Calls(cfg, log[..n], k) + if ChargeOn(cfg, log[n], k).Some? then 1 else 0
  }

  function Spent(cfg: Config, log: seq<Reservation>, k: Key): real {
    if log == [] then 0.0
    else
      var n := |log| - 1;
      Spent(cfg, log[..n], k) + if ChargeOn(cfg, log[n], k).Some? then AmountOf(log[n]) else 0.0
  }

  function Minor(cfg: Config, log: seq<Reservation>, k: Key): nat {
    if log == [] then 0
    else
      var n := |log| - 1;
      var c := ChargeOn(cfg, log[n], k);
      Minor(cfg, log[..n], k) + if c.Some? then c.value.minor else 0
  }

  /** The clock readings of the reservations that name the key, in order. */
  function Times(cfg: Config, log: seq<Reservation>, k: Key): seq<real> {
    if log == [] then []
    else
      var n := |log| - 1;
      Times(cfg, log[..n], k) + NewTime(cfg, log[n], k)
  }

  // ---- One reservation, seen from one key ------------------------------------

  /** A reservation changes exactly the entries it names, each by one charge. */
  lemma ReserveAtKey(cfg: Config, book: Book, r: Reservation, k: Key)
    requires Reserve(cfg, book, r).Some?
    ensures var book' := Reserve(cfg, book, r).value;
      match ChargeOn(cfg, r, k)
      case None => Get(book', k) == Get(book, k)
      case Some(rec) => k in book' && Pending(rec, Get(book, k), r.now, AmountOf(r)) == Some(book'[k])
  {
    var recs := Records(cfg, r.chain, r.now).value;
    RecordsDistinct(cfg, r.chain, r.now);
    WriteEffect(book, recs, Charged(book, recs, r.now, AmountOf(r)));
    if ChargeOn(cfg, r, k).Some? {
      var rec := ChargeOn(cfg, r, k).value;
      var i :| 0 <= i < |recs| && recs[i] == rec;
      assert recs[i].key == k;
    }
  }

  lemma ReplayPrefix(cfg: Config, log: seq<Reservation>)
    requires Replay(cfg, log).Some? && log != []
    ensures Replay(cfg, log[..|log| - 1]).Some?
    ensures Reserve(cfg, Replay(cfg, log[..|log| - 1]).value, log[|log| - 1]) == Replay(cfg, log)
  {
  }

  // ---- Conservation -----------------------------------------------------------

  /** The entry holds these totals; a missing entry holds none. */
  ghost predicate Holds(e: Option<Entry>, calls: nat, usd: real, minor: nat) {
    match e
    case Some(entry) => calls > 0 && entry.calls == calls && entry.usd == usd && entry.minor == minor
    case None => calls == 0 && usd == 0.0 && minor == 0
  }

  lemma HoldsAfterCharge(rec: Record, before: Option<Entry>, after: Entry, now: real, amount: real,
                         calls: nat, usd: real, minor: nat)
    requires Pending(rec, before, now, amount) == Some(after) && Holds(before, calls, usd, minor)
    ensures Holds(Some(after), calls + 1, usd + amount, minor + rec.minor)
  {
  }

  lemma {:induction false} TotalsOfRun(cfg: Config, log: seq<Reservation>, k: Key)
    requires Replay(cfg, log).Some?
    ensures Holds(Get(Replay(cfg, log).value, k), Calls(cfg, log, k), Spent(cfg, log, k), Minor(cfg, log, k))
  {
    if log != [] {
      var n := |log| - 1;
      var r, before := log[n], log[..n];
      ReplayPrefix(cfg, log);
      TotalsOfRun(cfg, before, k);
      ReserveAtKey(cfg, Replay(cfg, before).value, r, k);
      if ChargeOn(cfg, r, k).Some? {
        HoldsAfterCharge(ChargeOn(cfg, r, k).value, Get(Replay(cfg, before).value, k), Replay(cfg, log).value[k], r.now,
                         AmountOf(r), Calls(cfg, before, k), Spent(cfg, before, k), Minor(cfg, before, k));
      }
    }
  }

  /**
    Every entry equals the sum and the count of all accepted reservations that
    named it: no charge is lost, duplicated or leaked to another record.
   */
  lemma {:induction false} Conservation(cfg: Config, log: seq<Reservation>, k: Key)
    requires Replay(cfg, log).Some?
    ensures var book := Replay(cfg, log).value;
      && (k in book <==> Calls(cfg, log, k) > 0)
      && (k in book ==>
            && book[k].calls == Calls(cfg, log, k)
            && book[k].usd == Spent(cfg, log, k)
            && book[k].minor == Minor(cfg, log, k))
      && (k !in book ==> Spent(cfg, log, k) == 0.0 && Minor(cfg, log, k) == 0)
  {
    TotalsOfRun(cfg, log, k);
  }

  // ---- Lifetime ceilings -------------------------------------------------------

  ghost predicate WithinCount(n: nat, limit: Option<nat>) {
    limit.Some? ==> n <= limit.value
  }

  /** An entry respects the limits of its key. */
  ghost predicate EntryWithin(e: Entry, t: Record) {
    && WithinCount(e.calls, t.calls)
    && Within(e.usd, t.usd)
    && WithinCount(e.minor, t.minorLimit)
    && WithinCount(|e.stamps|, t.rate)
    && e.expiry == t.expiry
  }

  ghost predicate BookWithin(cfg: Config, known: Known, book: Book) {
    forall k :: k in book ==> HasTemplate(cfg, known, k) && EntryWithin(book[k], Template(cfg, known, k))
  }

  lemma ReserveWithin(cfg: Config, known: Known, book: Book, r: Reservation)
    requires ValidConfig(cfg) && FromKnown(known, r.chain) && BookWithin(cfg, known, book)
    requires Reserve(cfg, book, r).Some?
    ensures BookWithin(cfg, known, Reserve(cfg, book, r).value)
  {
    var book' := Reserve(cfg, book, r).value;
    forall k | k in book'
      ensures HasTemplate(cfg, known, k) && EntryWithin(book'[k], Template(cfg, known, k))
    {
      ReserveAtKey(cfg, book, r, k);
      if ChargeOn(cfg, r, k).Some? {
        var recs := Records(cfg, r.chain, r.now).value;
        var i :| 0 <= i < |recs| && recs[i] == ChargeOn(cfg, r, k).value;
        RecordsFollowTemplate(cfg, known, r.chain, r.now, i);
      } else {
        assert k in book && book'[k] == book[k];
      }
    }
  }

  lemma {:induction false} ReplayWithin(cfg: Config, known: Known, log: seq<Reservation>)
    requires ValidConfig(cfg) && LogFromKnown(known, log) && Replay(cfg, log).Some?
    ensures BookWithin(cfg, known, Replay(cfg, log).value)
  {
    if log != [] {
      var n := |log| - 1;
      ReplayPrefix(cfg, log);
      ReplayWithin(cfg, known, log[..n]);
      assert FromKnown(known, log[n].chain);
      ReserveWithin(cfg, known, Replay(cfg, log[..n]).value, log[n]);
    }
  }

  /**
    Over a whole run no record is ever charged past its allowance: the number of
    accepted calls, the exact sum of amounts and the sum of minor units all stay
    within the limits of the key, however many fresh or delegated tokens are used.
   */
  lemma {:induction false} LifetimeCeiling(cfg: Config, known: Known, log: seq<Reservation>, k: Key)
    requires ValidConfig(cfg) && LogFromKnown(known, log) && Replay(cfg, log).Some?
    requires HasTemplate(cfg, known, k)
    ensures var t := Template(cfg, known, k);
      && WithinCount(Calls(cfg, log, k), t.calls)
      && (Calls(cfg, log, k) > 0 ==> Within(Spent(cfg, log, k), t.usd))
      && WithinCount(Minor(cfg, log, k), t.minorLimit)
  {
    Conservation(cfg, log, k);
    ReplayWithin(cfg, known, log);
  }

  // ---- The sliding window -------------------------------------------------------

  function CountFrom(ts: seq<real>, lo: real): nat {
    if ts == [] then 0
    else CountFrom(ts[..|ts| - 1], lo) + if ts[|ts| - 1] >= lo then 1 else 0
  }

  function CountWithin(ts: seq<real>, lo: real, hi: real): nat {
    if ts == [] then 0
    else CountWithin(ts[..|ts| - 1], lo, hi) + if lo <= ts[|ts| - 1] <= hi then 1 else 0
  }

  /** Acceptances in the closed window of sixty seconds from `start`. */
  function WindowCount(ts: seq<real>, start: real): nat {
    CountWithin(ts, start, start + 60.0)
  }

  ghost predicate Ascending(ts: seq<real>) {
    forall i, j :: 0 <= i <= j < |ts| ==> ts[i] <= ts[j]
  }

  lemma {:induction false} CountFromConcat(a: seq<real>, b: seq<real>, lo: real)
    ensures CountFrom(a + b, lo) == CountFrom(a, lo) + CountFrom(b, lo)
  {
    if b == [] {
      assert a + b == a;
    } else {
      var n := |b| - 1;
      assert (a + b)[..|a + b| - 1] == a + b[..n];
      CountFromConcat(a, b[..n], lo);
    }
  }

  lemma {:induction false} CountFromRecent(ts: seq<real>, cutoff: real, lo: real)
    requires cutoff <= lo
    ensures CountFrom(Recent(ts, cutoff), lo) == CountFrom(ts, lo)
  {
    if ts != [] {
      CountFromRecent(ts[1..], cutoff, lo);
      var head := if ts[0] >= cutoff then [ts[0]] else [];
      CountFromConcat(head, Recent(ts[1..], cutoff), lo);
      CountFromConcat([ts[0]], ts[1..], lo);
      assert [ts[0]] + ts[1..] == ts;
    }
  }

  lemma {:induction false} CountFromAtMostLength(ts: seq<real>, lo: real)
    ensures CountFrom(ts, lo) <= |ts|
  {
    if ts != [] { CountFromAtMostLength(ts[..|ts| - 1], lo); }
  }

  lemma {:induction false} CountBelowCeiling(ts: seq<real>, lo: real, hi: real)
    requires forall i :: 0 <= i < |ts| ==> ts[i] <= hi
    ensures CountWithin(ts, lo, hi) == CountFrom(ts, lo)
  {
    if ts != [] { CountBelowCeiling(ts[..|ts| - 1], lo, hi); }
  }

  /** The stored stamps still hold every acceptance of the last sixty seconds. */
  ghost predicate StampsComplete(stamps: seq<real>, times: seq<real>) {
    times != [] ==>
      forall lo :: lo >= times[|times| - 1] - 60.0 ==> CountFrom(stamps, lo) == CountFrom(times, lo)
  }

  lemma StampsStayComplete(stamps: seq<real>, times: seq<real>, now: real)
    requires StampsComplete(stamps, times) && Ascending(times + [now])
    requires times == [] ==> stamps == []
    ensures StampsComplete(Recent(stamps, now - 60.0) + [now], times + [now])
  {
    var stamps', times' := Recent(stamps, now - 60.0) + [now], times + [now];
    forall lo | lo >= now - 60.0 ensures CountFrom(stamps', lo) == CountFrom(times', lo) {
      CountFromConcat(Recent(stamps, now - 60.0), [now], lo);
      CountFromConcat(times, [now], lo);
      CountFromRecent(stamps, now - 60.0, lo);
      if times != [] {
        assert times'[|times| - 1] <= times'[|times|];
        assert times[|times| - 1] <= now;
      }
    }
  }

  ghost predicate HasRate(cfg: Config, known: Known, k: Key) {
    HasTemplate(cfg, known, k) && Template(cfg, known, k).rate.Some?
  }

  /** The clock reading a reservation adds to the times of a key, if it names the key. */
  function NewTime(cfg: Config, r: Reservation, k: Key): seq<real> {
    if ChargeOn(cfg, r, k).Some? then [r.now] else []
  }

  ghost predicate Stamped(e: Option<Entry>, times: seq<real>) {
    if e.Some? then times != [] && StampsComplete(e.value.stamps, times) else times == []
  }

  lemma StampsAfterCharge(rec: Record, before: Option<Entry>, after: Entry, now: real, amount: real, times: seq<real>)
    requires Pending(rec, before, now, amount) == Some(after) && rec.rate.Some?
    requires Stamped(before, times) && Ascending(times + [now])
    ensures Stamped(Some(after), times + [now])
  {
    StampsStayComplete(if before.Some? then before.value.stamps else [], times, now);
  }

  lemma {:induction false} StampsOfRun(cfg: Config, known: Known, log: seq<Reservation>, k: Key)
    requires ValidConfig(cfg) && LogFromKnown(known, log) && Replay(cfg, log).Some?
    requires HasRate(cfg, known, k) && Ascending(Times(cfg, log, k))
    ensures Stamped(Get(Replay(cfg, log).value, k), Times(cfg, log, k))
  {
    if log != [] {
      var n := |log| - 1;
      ReplayPrefix(cfg, log);
      var times := Times(cfg, log[..n], k);
      assert times == Times(cfg, log, k)[..|times|];
      StampsOfRun(cfg, known, log[..n], k);
      StampsAfterReserve(cfg, known, Replay(cfg, log[..n]).value, log[n], k, times);
    }
  }

  lemma StampsAfterReserve(cfg: Config, known: Known, book: Book, r: Reservation, k: Key, times: seq<real>)
    requires ValidConfig(cfg) && FromKnown(known, r.chain) && Reserve(cfg, book, r).Some?
    requires HasRate(cfg, known, k) && Ascending(times + NewTime(cfg, r, k)) && Stamped(Get(book, k), times)
    ensures Stamped(Get(Reserve(cfg, book, r).value, k), times + NewTime(cfg, r, k))
  {
    ReserveAtKey(cfg, book, r, k);
    if ChargeOn(cfg, r, k).Some? {
      ChargeHasRate(cfg, known, r, k);
      StampsAfterCharge(ChargeOn(cfg, r, k).value, Get(book, k), Reserve(cfg, book, r).value[k], r.now, AmountOf(r), times);
    } else {
      assert times + [] == times;
    }
  }

  lemma ChargeHasRate(cfg: Config, known: Known, r: Reservation, k: Key)
    requires ValidConfig(cfg) && FromKnown(known, r.chain)
    requires HasTemplate(cfg, known, k) && ChargeOn(cfg, r, k).Some?
    ensures ChargeOn(cfg, r, k).value.rate == Template(cfg, known, k).rate
  {
    var recs := Records(cfg, r.chain, r.now).value;
    var i :| 0 <= i < |recs| && recs[i] == ChargeOn(cfg, r, k).value;
    RecordsFollowTemplate(cfg, known, r.chain, r.now, i);
  }

  ghost predicate RateHeld(times: seq<real>, rate: nat, start: real) {
    times != [] && start >= times[|times| - 1] - 60.0 ==> CountFrom(times, start) <= rate
  }

  /** At an acceptance, everything accepted in the last sixty seconds fits the rate. */
  lemma RateAtLast(cfg: Config, known: Known, log: seq<Reservation>, k: Key, start: real)
    requires ValidConfig(cfg) && LogFromKnown(known, log) && Replay(cfg, log).Some?
    requires HasRate(cfg, known, k) && Ascending(Times(cfg, log, k))
    ensures RateHeld(Times(cfg, log, k), Template(cfg, known, k).rate.value, start)
  {
    StampsOfRun(cfg, known, log, k);
    ReplayWithin(cfg, known, log);
    if k in Replay(cfg, log).value {
      CountFromAtMostLength(Replay(cfg, log).value[k].stamps, start);
    }
  }

  lemma RateExtends(earlier: seq<real>, more: seq<real>, rate: nat, start: real)
    requires |more| <= 1 && Ascending(earlier + more)
    requires RateHeld(earlier + more, rate, start)
    requires CountWithin(earlier, start, start + 60.0) <= rate
    ensures CountWithin(earlier + more, start, start + 60.0) <= rate
  {
    var times := earlier + more;
    if more == [] {
      assert times == earlier;
    } else {
      assert times[..|times| - 1] == earlier;
      if start <= times[|times| - 1] <= start + 60.0 {
        CountBelowCeiling(times, start, start + 60.0);
      }
    }
  }

  lemma {:induction false} RateOfTimes(cfg: Config, known: Known, log: seq<Reservation>, k: Key, start: real)
    requires ValidConfig(cfg) && LogFromKnown(known, log) && Replay(cfg, log).Some?
    requires HasRate(cfg, known, k) && Ascending(Times(cfg, log, k))
    ensures CountWithin(Times(cfg, log, k), start, start + 60.0) <= Template(cfg, known, k).rate.value
  {
    if log != [] {
      var n := |log| - 1;
      var earlier := Times(cfg, log[..n], k);
      ReplayPrefix(cfg, log);
      assert earlier == Times(cfg, log, k)[..|earlier|];
      RateOfTimes(cfg, known, log[..n], k, start);
      RateAtLast(cfg, known, log, k, start);
      RateExtends(earlier, NewTime(cfg, log[n], k), Template(cfg, known, k).rate.value, start);
    }
  }

  /** Any closed window of sixty seconds holds at most rate_limit_per_min acceptances. */
  lemma {:induction false} WindowRate(cfg: Config, known: Known, log: seq<Reservation>, k: Key, start: real)
    requires ValidConfig(cfg) && LogFromKnown(known, log) && Replay(cfg, log).Some?
    requires HasRate(cfg, known, k) && Ascending(Times(cfg, log, k))
    ensures WindowCount(Times(cfg, log, k), start) <= Template(cfg, known, k).rate.value
  {
    RateOfTimes(cfg, known, log, k, start);
  }

  lemma {:induction false} NothingDropped(stamps: seq<real>, cutoff: real)
    requires forall i :: 0 <= i < |stamps| ==> cutoff <= stamps[i]
    ensures Recent(stamps, cutoff) == stamps
  {
    if stamps != [] {
      NothingDropped(stamps[1..], cutoff);
      assert stamps == [stamps[0]] + stamps[1..];
    }
  }

  ghost predicate WithinMinute(times: seq<real>, start: real) {
    forall i :: 0 <= i < |times| ==> start <= times[i] <= start + 60.0
  }

  function StampsOf(e: Option<Entry>): seq<real> { if e.Some? then e.value.stamps else [] }

  lemma StampAppended(rec: Record, before: Option<Entry>, after: Entry, now: real, amount: real, start: real)
    requires Pending(rec, before, now, amount) == Some(after) && rec.rate.Some?
    requires WithinMinute(StampsOf(before), start) && start <= now <= start + 60.0
    ensures after.stamps == StampsOf(before) + [now]
  {
    NothingDropped(StampsOf(before), now - 60.0);
  }

  lemma StampAdded(cfg: Config, known: Known, book: Book, r: Reservation, k: Key, times: seq<real>, start: real)
    requires ValidConfig(cfg) && FromKnown(known, r.chain) && Reserve(cfg, book, r).Some? && HasRate(cfg, known, k)
    requires StampsOf(Get(book, k)) == times && WithinMinute(times, start) && WithinMinute(NewTime(cfg, r, k), start)
    ensures StampsOf(Get(Reserve(cfg, book, r).value, k)) == times + NewTime(cfg, r, k)
  {
    ReserveAtKey(cfg, book, r, k);
    if ChargeOn(cfg, r, k).Some? {
      ChargeHasRate(cfg, known, r, k);
      assert NewTime(cfg, r, k)[0] == r.now;
      StampAppended(ChargeOn(cfg, r, k).value, Get(book, k), Reserve(cfg, book, r).value[k], r.now, AmountOf(r), start);
    } else {
      assert times + [] == times;
    }
  }

  /** When all acceptances of a token fit in sixty seconds, its stored stamps are all of them. */
  lemma {:induction false} NoStampDropped(cfg: Config, known: Known, log: seq<Reservation>, k: Key, start: real)
    requires ValidConfig(cfg) && LogFromKnown(known, log) && Replay(cfg, log).Some?
    requires HasRate(cfg, known, k) && WithinMinute(Times(cfg, log, k), start)
    ensures StampsOf(Get(Replay(cfg, log).value, k)) == Times(cfg, log, k)
  {
    if log != [] {
      var n := |log| - 1;
      ReplayPrefix(cfg, log);
      var times, more := Times(cfg, log[..n], k), NewTime(cfg, log[n], k);
      assert Times(cfg, log, k) == times + more;
      assert forall i :: 0 <= i < |times| ==> times[i] == (times + more)[i];
      assert forall i :: 0 <= i < |more| ==> more[i] == (times + more)[|times| + i];
      NoStampDropped(cfg, known, log[..n], k, start);
      assert FromKnown(known, log[n].chain);
      StampAdded(cfg, known, Replay(cfg, log[..n]).value, log[n], k, times, start);
    }
  }

  /**
    When all acceptances of a token fit in sixty seconds, as they do for a
    verified token, no stamp is ever dropped: the rate limit is a lifetime cap.
   */
  lemma {:induction false} RateIsLifetimeCap(cfg: Config, known: Known, log: seq<Reservation>, k: Key, start: real)
    requires ValidConfig(cfg) && LogFromKnown(known, log) && Replay(cfg, log).Some?
    requires HasRate(cfg, known, k) && WithinMinute(Times(cfg, log, k), start)
    ensures StampsOf(Get(Replay(cfg, log).value, k)) == Times(cfg, log, k)
    ensures Calls(cfg, log, k) <= Template(cfg, known, k).rate.value
  {
    NoStampDropped(cfg, known, log, k, start);
    ReplayWithin(cfg, known, log);
    TimesCountCalls(cfg, log, k);
  }

  lemma {:induction false} TimesCountCalls(cfg: Config, log: seq<Reservation>, k: Key)
    ensures |Times(cfg, log, k)| == Calls(cfg, log, k)
  {
    if log != [] { TimesCountCalls(cfg, log[..|log| - 1], k); }
  }
}

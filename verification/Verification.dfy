/**
 The verification-code store (common/verification.go): codes under purpose + key, valid for a
 number of minutes, with expired entries collected when the map grows. Times are nanoseconds.
 */
module Verification {
  import opened Wrappers

  const MAX_SIZE := 10
  const SECOND := 1_000_000_000

  datatype Entry = Entry(code: string, at: int)

  type Codes = map<string, Entry>

  /** Whole seconds of a duration, truncated toward zero. */
  function Seconds(d: int): int {
    if d >= 0 then d / SECOND else -((-d) / SECOND)
  }

  predicate Expired(e: Entry, now: int, minutes: int) {
    Seconds(now - e.at) >= minutes * 60
  }

  function Collected(codes: Codes, now: int, minutes: int): Codes {
    map k | k in codes && !Expired(codes[k], now, minutes) :: codes[k]
  }

  function Registered(codes: Codes, slot: string, code: string, at: int, gcAt: int, minutes: int): Codes {
    var added := codes[slot := Entry(code, at)];
    if |added| > MAX_SIZE then Collected(added, gcAt, minutes) else added
  }

  predicate Matches(codes: Codes, slot: string, code: string, now: int, minutes: int) {
    slot in codes && !Expired(codes[slot], now, minutes) && code == codes[slot].code
  }

  class CodeStore {
    var codes: Codes
    const minutes: int

    constructor (minutes: int)
      ensures this.minutes == minutes && codes == map[]
    {
      this.minutes := minutes;
      codes := map[];
    }

    /** Lines 35-45; the collector reads the clock again. */
    method Register(key: string, code: string, purpose: string, at: int, gcAt: int)
      modifies this
      ensures codes == Registered(old(codes), purpose + key, code, at, gcAt, minutes)
    {
      codes := codes[purpose + key := Entry(code, at)];
      if |codes| > MAX_SIZE { RemoveExpired(gcAt); }
    }

    /** Lines 47-56. */
    method Verify(key: string, code: string, purpose: string, now: int) returns (ok: bool)
      ensures ok == Matches(codes, purpose + key, code, now, minutes)
    {
      if purpose + key !in codes || Seconds(now - codes[purpose + key].at) >= minutes * 60 {
        return false;
      }
      return code == codes[purpose + key].code;
    }

    /** Lines 58-62. */
    method Delete(key: string, purpose: string)
      modifies this
      ensures codes == old(codes) - {purpose + key}
    {
      codes := codes - {purpose + key};
    }

    /** Lines 65-72. */
    method RemoveExpired(now: int)
      modifies this
      ensures codes == Collected(old(codes), now, minutes)
    {
      var keys := codes.Keys;
      while keys != {}
        invariant codes.Keys <= old(codes).Keys && keys <= codes.Keys
        invariant forall k :: k in codes ==> codes[k] == old(codes)[k]
        invariant forall k :: k in old(codes) && k !in keys ==> (k in codes <==> !Expired(old(codes)[k], now, minutes))
        decreases keys
      {
        var key :| key in keys;
        keys := keys - {key};
        if Expired(codes[key], now, minutes) {
          codes := map k | k in codes && k != key :: codes[k];
        }
      }
    }
  }

  // ---------- runs ----------

  datatype Event = Put(slot: string, code: string, at: int, gcAt: int) | Drop(slot: string, at: int, gcAt: int)

  function Run(events: seq<Event>, minutes: int): Codes {
    if events == [] then map[]
    else
      var codes := Run(events[..|events| - 1], minutes);
      match events[|events| - 1]
      case Put(slot, code, at, gcAt) => Registered(codes, slot, code, at, gcAt, minutes)
      case Drop(slot, _, _) => codes - {slot}
  }

  /** The latest register or delete of a slot; a delete leaves nothing. */
  function Latest(events: seq<Event>, slot: string): Option<Entry> {
    if events == [] then None
    else
      var e := events[|events| - 1];
      if e.slot != slot then Latest(events[..|events| - 1], slot)
      else if e.Put? then Some(Entry(e.code, e.at)) else None
  }

  /** The clock does not go back. */
  ghost predicate Timely(events: seq<Event>, now: int) {
    && (forall i :: 0 <= i < |events| ==> events[i].at <= events[i].gcAt <= now)
    && (forall i, j :: 0 <= i < j < |events| ==> events[i].gcAt <= events[j].at)
  }

  /** The map holds the latest entry, or that entry has expired. */
  ghost predicate Faithful(codes: Codes, latest: Option<Entry>, slot: string, now: int, minutes: int) {
    && (slot in codes ==> latest == Some(codes[slot]))
    && (slot !in codes && latest.Some? ==> Expired(latest.value, now, minutes))
    && (latest.Some? ==> latest.value.at <= now)
  }

  lemma StaysExpired(e: Entry, t: int, now: int, minutes: int)
    requires e.at <= t <= now && Expired(e, t, minutes)
    ensures Expired(e, now, minutes)
  {
  }

  lemma {:induction false} RunFaithful(events: seq<Event>, slot: string, now: int, minutes: int)
    requires Timely(events, now)
    ensures Faithful(Run(events, minutes), Latest(events, slot), slot, now, minutes)
  {
    if events != [] {
      var front, e := events[..|events| - 1], events[|events| - 1];
      RunFaithful(front, slot, e.at, minutes);
      EventFaithful(Run(front, minutes), Latest(front, slot), e, slot, minutes);
      LaterFaithful(Run(events, minutes), Latest(events, slot), slot, e.gcAt, now, minutes);
    }
  }

  lemma LaterFaithful(codes: Codes, latest: Option<Entry>, slot: string, t: int, now: int, minutes: int)
    requires Faithful(codes, latest, slot, t, minutes) && t <= now
    ensures Faithful(codes, latest, slot, now, minutes)
  {
    if slot !in codes && latest.Some? { StaysExpired(latest.value, t, now, minutes); }
  }

  lemma EventFaithful(codes: Codes, latest: Option<Entry>, e: Event, slot: string, minutes: int)
    requires Faithful(codes, latest, slot, e.at, minutes) && e.at <= e.gcAt
    ensures var codes' := if e.Put? then Registered(codes, e.slot, e.code, e.at, e.gcAt, minutes) else codes - {e.slot};
            var latest' := if e.slot != slot then latest else if e.Put? then Some(Entry(e.code, e.at)) else None;
            Faithful(codes', latest', slot, e.gcAt, minutes)
  {
    if slot !in codes && latest.Some? { StaysExpired(latest.value, e.at, e.gcAt, minutes); }
  }

  /** Whole minutes against nanoseconds: not expired means younger than the validity period. */
  lemma ExpiryIsAge(e: Entry, now: int, minutes: int)
    requires e.at <= now
    ensures Expired(e, now, minutes) <==> now - e.at >= minutes * 60 * SECOND
  {
  }

  /** A code is accepted exactly when the latest register or delete of its slot registered that
      very code, less than the validity period ago: collection is never observable. */
  lemma VerifyIsLatest(events: seq<Event>, slot: string, code: string, now: int, minutes: int)
    requires Timely(events, now)
    ensures Matches(Run(events, minutes), slot, code, now, minutes) <==>
            (exists at :: Latest(events, slot) == Some(Entry(code, at)) && now - at < minutes * 60 * SECOND)
  {
    RunFaithful(events, slot, now, minutes);
    var latest := Latest(events, slot);
    if latest.Some? {
      ExpiryIsAge(latest.value, now, minutes);
      assert latest == Some(Entry(latest.value.code, latest.value.at));
    }
  }

  /** After every run that ends with a registration there are at most ten codes, or none of them
      had expired when the collector looked. */
  lemma TenOrFresh(events: seq<Event>, minutes: int, slot: string)
    requires events != [] && events[|events| - 1].Put? && Timely(events, events[|events| - 1].gcAt)
    ensures var codes, now := Run(events, minutes), events[|events| - 1].gcAt;
            |codes| <= 10 || (slot in codes ==> now - codes[slot].at < minutes * 60 * SECOND)
  {
    var codes, now := Run(events, minutes), events[|events| - 1].gcAt;
    RunFaithful(events, slot, now, minutes);
    if slot in codes { ExpiryIsAge(codes[slot], now, minutes); }
  }

  /** Purposes of one length keep their slots apart; the two purposes in use are one letter. */
  lemma PurposesDoNotCollide(p: string, k: string, q: string, l: string)
    requires |p| == |q| && p + k == q + l
    ensures p == q && k == l
  {
    assert (p + k)[..|p|] == p && (q + l)[..|q|] == q;
    assert (p + k)[|p|..] == k && (q + l)[|q|..] == l;
  }
}

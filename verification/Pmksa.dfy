/** The PMKSA cache (src/wifi/pmksa.rs): a bounded, expiring, evicting list. */
module Pmksa {
  import opened Wire

  const SECOND: nat := 1_000_000_000
  const PMK_LIFETIME: nat := 43200 * SECOND
  const PMK_REAUTH: nat := 43200 * 70 / 100 * SECOND
  const MAX_ENTRIES: nat := 32

  /** An SSID, a BSSID and an AKM. */
  datatype Key = Key(ssid: string, bssid: bytes, security: nat)

  /** What the handshake needs of a PMKSA. */
  datatype Secret = Secret(pmkid: bytes, pmk: bytes, micAlg: nat)

  datatype Entry = Entry(key: Key, secret: Secret, expires: nat, reauthAt: nat)

  /** `PmksaEntry::new` at `now`. */
  function NewEntry(key: Key, secret: Secret, now: nat): (e: Entry) {
    Entry(key, secret, now + PMK_LIFETIME, now + PMK_REAUTH)
  }

  // ---------------------------------------------------------------- functions

  function Unexpired(es: seq<Entry>, now: nat): (r: seq<Entry>) {
    if es == [] then []
    else Unexpired(es[..|es| - 1], now) + (if es[|es| - 1].expires > now then [es[|es| - 1]] else [])
  }

  function FindKey(es: seq<Entry>, key: Key): (i: nat)
    ensures i <= |es|
    ensures i < |es| ==> es[i].key == key
    ensures forall j | 0 <= j < i :: es[j].key != key
  {
    if es == [] || es[0].key == key then 0 else 1 + FindKey(es[1..], key)
  }

  /** The first entry of the key on the asked side of its reauthentication threshold. */
  function FindSide(es: seq<Entry>, key: Key, now: nat, past: bool): (r: Option<Entry>) {
    if es == [] then None
    else if es[0].key == key && past == (now >= es[0].reauthAt) then Some(es[0])
    else FindSide(es[1..], key, now, past)
  }

  function SwapRemove(es: seq<Entry>, i: nat): (r: seq<Entry>)
    requires i < |es|
    ensures |r| == |es| - 1
  {
    es[i := es[|es| - 1]][..|es| - 1]
  }

  /** The first entry that expires soonest. */
  function Oldest(es: seq<Entry>): (i: nat)
    requires es != []
    ensures i < |es|
  {
    if |es| == 1 then 0
    else
      var best := Oldest(es[..|es| - 1]);
      if es[|es| - 1].expires < es[best].expires then |es| - 1 else best
  }

  function Inserted(es: seq<Entry>, e: Entry, now: nat): (r: seq<Entry>) {
    var live := Unexpired(es, now);
    var i := FindKey(live, e.key);
    if i < |live| then live[i := e]
    else if |live| == MAX_ENTRIES then SwapRemove(live, Oldest(live)) + [e]
    else live + [e]
  }

  function Removed(es: seq<Entry>, key: Key): (r: seq<Entry>) {
    var i := FindKey(es, key);
    if i < |es| then SwapRemove(es, i) else es
  }

  function OfSsid(es: seq<Entry>, ssid: string, matching: bool): (r: seq<Entry>) {
    if es == [] then []
    else OfSsid(es[..|es| - 1], ssid, matching) + (if (es[|es| - 1].key.ssid == ssid) == matching then [es[|es| - 1]] else [])
  }

  // -------------------------------------------------------------------- class

  class PmksaCache {
    var entries: seq<Entry>

    constructor ()
      ensures entries == []
    {
      entries := [];
    }

    method RemoveExpired(now: nat)
      modifies this
      ensures entries == Unexpired(old(entries), now)
    {
      var all := entries;
      var kept: seq<Entry> := [];
      for i := 0 to |all|
        invariant kept == Unexpired(all[..i], now) && entries == old(entries)
      {
        assert all[..i + 1][..i] == all[..i];
        if all[i].expires > now {
          kept := kept + [all[i]];
        }
      }
      assert all[..|all|] == all;
      entries := kept;
    }

    /** The place of the key, found from the front. */
    method Position(key: Key) returns (i: nat)
      ensures i == FindKey(entries, key)
    {
      i := 0;
      while i < |entries| && entries[i].key != key
        invariant i <= |entries| && FindKey(entries, key) == i + FindKey(entries[i..], key)
      {
        assert entries[i..][1..] == entries[i + 1..];
        i := i + 1;
      }
    }

    /** Index of the entry that expires soonest. */
    method FindOldest() returns (oldest: nat)
      requires entries != []
      ensures oldest == Oldest(entries)
    {
      oldest := 0;
      for i := 1 to |entries|
        invariant oldest == Oldest(entries[..i]) && oldest < i
      {
        assert entries[..i + 1][..i] == entries[..i];
        if entries[i].expires < entries[oldest].expires {
          oldest := i;
        }
      }
      assert entries[..|entries|] == entries;
    }

    method Insert(e: Entry, now: nat)
      modifies this
      ensures entries == Inserted(old(entries), e, now)
    {
      RemoveExpired(now);
      var slot := Position(e.key);
      if slot < |entries| {
        entries := entries[slot := e];
        return;
      }
      if |entries| == MAX_ENTRIES {
        var oldest := FindOldest();
        entries := SwapRemove(entries, oldest);
      }
      entries := entries + [e];
    }

    method FindOnSide(key: Key, now: nat, past: bool) returns (r: Option<Entry>)
      ensures r == FindSide(entries, key, now, past)
    {
      var i := 0;
      while i < |entries|
        invariant i <= |entries| && FindSide(entries, key, now, past) == FindSide(entries[i..], key, now, past)
      {
        assert entries[i..][1..] == entries[i + 1..];
        if entries[i].key == key && past == (now >= entries[i].reauthAt) {
          return Some(entries[i]);
        }
        i := i + 1;
      }
      return None;
    }

    /** The clock is read twice: to drop expired entries, and for the threshold. */
    method Lookup(key: Key, purge: nat, now: nat) returns (r: Option<Entry>)
      modifies this
      ensures entries == Unexpired(old(entries), purge) && r == FindSide(entries, key, now, false)
    {
      RemoveExpired(purge);
      r := FindOnSide(key, now, false);
    }

    /** The clock is read twice: to drop expired entries, and for the threshold. */
    method LookupPastReauth(key: Key, purge: nat, now: nat) returns (r: Option<Entry>)
      modifies this
      ensures entries == Unexpired(old(entries), purge) && r == FindSide(entries, key, now, true)
    {
      RemoveExpired(purge);
      r := FindOnSide(key, now, true);
    }

    method Contains(key: Key, now: nat) returns (r: bool)
      modifies this
      ensures entries == Unexpired(old(entries), now) && r == (FindKey(entries, key) < |entries|)
    {
      RemoveExpired(now);
      var i := Position(key);
      r := i < |entries|;
    }

    method Invalidate(key: Key) returns (r: Option<Entry>)
      modifies this
      ensures entries == Removed(old(entries), key)
      ensures var i := FindKey(old(entries), key); r == if i < |old(entries)| then Some(old(entries)[i]) else None
    {
      var i := Position(key);
      if i == |entries| {
        return None;
      }
      r := Some(entries[i]);
      entries := SwapRemove(entries, i);
    }

    method RemoveSsid(ssid: string) returns (removed: seq<Entry>)
      modifies this
      ensures entries == OfSsid(old(entries), ssid, false) && removed == OfSsid(old(entries), ssid, true)
    {
      var all := entries;
      var kept: seq<Entry> := [];
      removed := [];
      for i := 0 to |all|
        invariant kept == OfSsid(all[..i], ssid, false) && removed == OfSsid(all[..i], ssid, true)
      {
        assert all[..i + 1][..i] == all[..i];
        if all[i].key.ssid == ssid {
          removed := removed + [all[i]];
        } else {
          kept := kept + [all[i]];
        }
      }
      assert all[..|all|] == all;
      entries := kept;
    }
  }
}

/** The in-memory verdict cache (internal/store/memory/memory.go). */
module ResultCache {
  import opened Common
  import opened Verdicts

  /** A stored verdict; None never expires. */
  datatype Entry = Entry(verdict: Verdict, expiresAt: Option<int>)

  predicate Expired(e: Entry, now: int) {
    e.expiresAt.Some? && now > e.expiresAt.value
  }

  function Stamped(v: Verdict, ttl: int, now: int): Entry {
    Entry(v, if ttl > 0 then Some(now + ttl) else None)
  }

  function Hit(items: map<string, Entry>, key: string, now: int): Option<Verdict> {
    if key in items && !Expired(items[key], now) then Some(items[key].verdict) else None
  }

  /** The second, write-locked half of an expired lookup: drop the entry unless it was replaced. */
  function Dropped(items: map<string, Entry>, key: string, expiresAt: Option<int>): map<string, Entry> {
    if key in items && items[key].expiresAt == expiresAt then items - {key} else items
  }

  function Looked(items: map<string, Entry>, key: string, now: int): map<string, Entry> {
    if key in items && Expired(items[key], now) then items - {key} else items
  }

  /** A verdict is good for its time to live after it was stored and no longer, or for good without one. */
  predicate GoodFor(items: map<string, Entry>, key: string, v: Verdict, ttl: int, now: int, later: int) {
    Hit(items, key, later) == if ttl <= 0 || later <= now + ttl then Some(v) else None
  }

  class ResultStore {
    var items: map<string, Entry>

    constructor ()
      ensures items == map[]
    {
      items := map[];
    }

    method Get(key: string, now: int) returns (v: Option<Verdict>)
      modifies this
      ensures v == Hit(old(items), key, now)
      ensures items == Looked(old(items), key, now)
    {
      if key !in items {
        return None;
      }
      var e := items[key];
      if e.expiresAt.Some? && now > e.expiresAt.value {
        if key in items && items[key].expiresAt == e.expiresAt {
          items := items - {key};
        }
        return None;
      }
      return Some(e.verdict);
    }

    method Put(key: string, v: Verdict, ttl: int, now: int)
      modifies this
      ensures items == old(items)[key := Stamped(v, ttl, now)]
      ensures forall later :: GoodFor(items, key, v, ttl, now, later)
    {
      var e := Entry(v, None);
      if ttl > 0 {
        e := e.(expiresAt := Some(now + ttl));
      }
      items := items[key := e];
    }
  }
}

/** The in-memory cache of the agent. */
module MemCache {
  import opened Wrappers

  datatype Response = Response(expires: string, headers: map<string, seq<string>>)

  /** A response together with the key it may be cached under. */
  datatype Entry = Entry(key: string, response: Response)

  type Contents = map<string, Entry>

  /** Parsing of expiry timestamps, which only some strings pass. */
  type ExpiryParser = string -> Option<int>

  predicate Cachable(e: Entry) { e.key != "" && e.response.expires != "" }

  function Stored(m: Contents, e: Entry): Contents { if Cachable(e) then m[e.key := e] else m }

  function Fetched(m: Contents, key: string): Option<Response> {
    if key in m then Some(m[key].response) else None
  }

  /** Entries sit under their own key and could be stored. */
  ghost predicate WellFormed(m: Contents) { forall k :: k in m ==> m[k].key == k && Cachable(m[k]) }

  /** The expiry parses and has not passed. */
  predicate LivesAt(parse: ExpiryParser, e: Entry, now: int) {
    parse(e.response.expires).Some? && now <= parse(e.response.expires).value
  }

  /** What a prune removes when it comes to an entry at time `now`. */
  predicate Expired(parse: ExpiryParser, e: Entry, now: int) {
    match parse(e.response.expires)
    case None => true
    case Some(t) => t < now
  }

  /** What a prune that ran from `t0` to `t1` may do: survivors parse and were unexpired at the start,
      removed entries were unparsable or expired at the end, nothing else changes. */
  ghost predicate PrunedBetween(parse: ExpiryParser, m: Contents, m': Contents, t0: int, t1: int) {
    && (forall k :: k in m' ==> k in m && m'[k] == m[k] && LivesAt(parse, m[k], t0))
    && (forall k :: k in m && k !in m' ==> !LivesAt(parse, m[k], t1))
  }

  /** The wall clock; it never runs backwards. */
  class Clock {
    var now: int

    method Read() returns (t: int)
      modifies this
      ensures t == now && old(now) <= now
    {
      assert now <= now;
      t :| now <= t;
      now := t;
    }
  }

  class MemCache {
    var cache: Contents
    const parse: ExpiryParser

    constructor (parse: ExpiryParser)
      ensures cache == map[] && this.parse == parse
    {
      cache := map[];
      this.parse := parse;
    }

    method Retrieve(key: string) returns (r: Option<Response>)
      ensures r == Fetched(cache, key)
    {
      if key in cache {
        return Some(cache[key].response);
      }
      return None;
    }

    method Store(e: Entry)
      modifies this
      ensures cache == Stored(old(cache), e)
    {
      if |e.key| == 0 || |e.response.expires| == 0 { return; }
      cache := cache[e.key := e];
    }

    /** Reads the clock once per parsable entry. */
    method Prune(clock: Clock) returns (ghost t0: int, ghost t1: int)
      modifies this, clock
      ensures t0 == old(clock.now) <= clock.now == t1
      ensures PrunedBetween(parse, old(cache), cache, t0, t1)
    {
      t0 := clock.now;
      var keys := cache.Keys;
      while keys != {}
        invariant keys <= cache.Keys
        invariant t0 <= clock.now
        invariant forall k :: k in cache ==> k in old(cache) && cache[k] == old(cache)[k]
        invariant forall k :: k in cache && k !in keys ==> LivesAt(parse, cache[k], t0)
        invariant forall k :: k in old(cache) && k !in cache ==> !LivesAt(parse, old(cache)[k], clock.now)
        decreases keys
      {
        var key :| key in keys;
        keys := keys - {key};
        var expires := parse(cache[key].response.expires);
        if expires.None? {
          cache := cache - {key};
          continue;
        }
        var now := clock.Read();
        if expires.value < now {
          cache := cache - {key};
        }
      }
      t1 := clock.now;
    }
  }

  lemma StoredIsWellFormed(m: Contents, e: Entry)
    requires WellFormed(m)
    ensures WellFormed(Stored(m, e)) && (Cachable(e) ==> Fetched(Stored(m, e), e.key) == Some(e.response))
    ensures forall k :: k != e.key ==> Fetched(Stored(m, e), k) == Fetched(m, k)
  {
  }
}

/** Sequential histories of one atomic map with stores, lookups and prunes. */
module CacheHistory {
  import opened Wrappers
  import opened MemCache

  datatype Event =
    | Get(key: string, found: Option<Response>)
    | Put(entry: Entry)
    | Pruned(removed: set<string>, t0: int, t1: int)

  function Effect(m: Contents, e: Event): Contents {
    match e
    case Get(_, _) => m
    case Put(entry) => Stored(m, entry)
    case Pruned(removed, _, _) => m - removed
  }

  /** The map after a history. */
  function View(log: seq<Event>): Contents {
    if log == [] then map[] else Effect(View(log[..|log| - 1]), log[|log| - 1])
  }

  /** What the atomic map allows as the next event. */
  ghost predicate Allowed(parse: ExpiryParser, m: Contents, e: Event) {
    match e
    case Get(k, found) => found == Fetched(m, k)
    case Put(entry) => Cachable(entry)
    case Pruned(removed, t0, t1) => t0 <= t1 && PrunedBetween(parse, m, m - removed, t0, t1)
  }

  ghost predicate Legal(parse: ExpiryParser, log: seq<Event>) {
    forall i :: 0 <= i < |log| ==> Allowed(parse, View(log[..i]), log[i])
  }

  lemma LegalSnoc(parse: ExpiryParser, log: seq<Event>, e: Event)
    requires Legal(parse, log) && Allowed(parse, View(log), e)
    ensures Legal(parse, log + [e])
  {
    forall i | 0 <= i < |log| + 1 ensures Allowed(parse, View((log + [e])[..i]), (log + [e])[i]) {
      if i < |log| {
        assert (log + [e])[..i] == log[..i];
      } else {
        assert (log + [e])[..i] == log;
      }
    }
  }

  lemma ViewSnoc(log: seq<Event>, e: Event)
    ensures View(log + [e]) == Effect(View(log), e)
  {
    assert (log + [e])[..|log|] == log;
  }

  lemma {:induction false} ViewIsWellFormed(log: seq<Event>)
    ensures WellFormed(View(log))
  {
    if log != [] {
      ViewIsWellFormed(log[..|log| - 1]);
    }
  }

  /** The event takes the entry for `k` out of force. */
  predicate Supersedes(e: Event, k: string) {
    (e.Put? && Cachable(e.entry) && e.entry.key == k) || (e.Pruned? && k in e.removed)
  }

  /** Event `i` is the latest store for `k`, not removed by a prune since. */
  predicate LatestStore(log: seq<Event>, i: nat, k: string) {
    && i < |log| && log[i].Put? && Cachable(log[i].entry) && log[i].entry.key == k
    && forall j :: i < j < |log| ==> !Supersedes(log[j], k)
  }

  lemma {:induction false} ViewHoldsLatestStore(log: seq<Event>, i: nat, k: string)
    requires LatestStore(log, i, k)
    ensures k in View(log) && View(log)[k] == log[i].entry
  {
    if i < |log| - 1 {
      assert !Supersedes(log[|log| - 1], k);
      ViewHoldsLatestStore(log[..|log| - 1], i, k);
    }
  }

  lemma {:induction false} ViewHasLatestStore(log: seq<Event>, k: string) returns (i: nat)
    requires k in View(log)
    ensures LatestStore(log, i, k)
  {
    var n := |log| - 1;
    if Supersedes(log[n], k) {
      i := n;
    } else {
      i := ViewHasLatestStore(log[..n], k);
    }
  }

  /** Every lookup of a legal history returns the latest preceding store for its key that no prune
      removed, and misses exactly when there is none. */
  lemma LookupsReturnLatestStore(parse: ExpiryParser, log: seq<Event>, g: nat)
    requires Legal(parse, log) && g < |log| && log[g].Get?
    ensures forall i: nat :: LatestStore(log[..g], i, log[g].key) ==> log[g].found == Some(log[i].entry.response)
    ensures log[g].found == None <==> forall i: nat :: !LatestStore(log[..g], i, log[g].key)
  {
    var k := log[g].key;
    assert Allowed(parse, View(log[..g]), log[g]);
    forall i: nat | LatestStore(log[..g], i, k) ensures log[g].found == Some(log[i].entry.response) {
      ViewHoldsLatestStore(log[..g], i, k);
    }
    if k in View(log[..g]) {
      var i := ViewHasLatestStore(log[..g], k);
    }
  }

  /** A response handed out after a completed prune was stored after that prune, or was unexpired when
      it began. */
  lemma LookupsAreFresh(parse: ExpiryParser, log: seq<Event>, p: nat, g: nat, i: nat)
    requires Legal(parse, log) && p < g < |log| && log[p].Pruned? && log[g].Get?
    requires LatestStore(log[..g], i, log[g].key)
    ensures i > p || LivesAt(parse, log[i].entry, log[p].t0)
  {
    var k := log[g].key;
    if i < p {
      assert Allowed(parse, View(log[..p]), log[p]);
      forall j | i < j < p ensures !Supersedes(log[..p][j], k) { assert log[..p][j] == log[..g][j]; }
      ViewHoldsLatestStore(log[..p], i, k);
      assert !Supersedes(log[..g][p], k);
      assert k in View(log[..p]) - log[p].removed;
    }
  }
}

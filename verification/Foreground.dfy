/** The client process: retrieve from the cache, else resolve, print and store. */
module Foreground {
  import opened Wrappers
  import opened Text
  import opened MemCache
  import opened Protocol
  import opened OciKeys
  import CacheSystem

  /** One client against an agent nobody else uses. `get` is the resolver; a `None` result is fatal, and so
      is a failing store, while a failing retrieve counts as a miss. */
  method Run(cache: SocketCache, clock: Clock, uri: Option<Url>, get: Option<Url> -> Option<Response>,
             retrieving: Link, storing: Link)
    returns (printed: Option<Response>, fatal: bool)
    requires WellFormed(cache.conn.store.cache)
    modifies cache.conn, cache.conn.store, clock
    ensures WellFormed(cache.conn.store.cache)
    ensures var m, key := old(cache.conn.store.cache), CacheKey(uri);
      if retrieving.Whole? && key in m then
        printed == Some(m[key].response) && !fatal && cache.conn.store.cache == m
      else if get(uri).None? then
        printed == None && fatal && cache.conn.store.cache == m
      else
        var e := Entry(key, get(uri).value);
        && printed == get(uri) && (fatal <==> Cachable(e) && !storing.Whole?)
        && cache.conn.store.cache == if storing.RequestLost? then m else Stored(m, e)
  {
    var key := CacheKey(uri);
    var cached := cache.Retrieve(key, clock, retrieving);
    if cached.Hit? { return Some(cached.response), false; }
    var resolved := get(uri);
    if resolved.None? { return None, true; }
    var stored := cache.Store(Entry(key, resolved.value), clock, storing);
    return resolved, stored.Error?;
  }

  /******* Many clients over one shared cache *******/

  /** What a resolver asked a registry for, and what it got. */
  datatype Exchange = Exchange(registry: string, scope: string, response: Response)

  datatype Client =
    | Started(uri: Option<Url>)                           // next: retrieve
    | Asked(uri: Option<Url>, call: nat)                  // waits for the answer of its retrieve
    | Missed(uri: Option<Url>)                            // next: Get
    | Resolved(uri: Option<Url>, response: Response)      // printed; next: store
    | Finished                                            // its store may still be under way

  /** A line on a client's standard output. `known` is the number of exchanges so far. */
  datatype Line = Line(client: nat, uri: Option<Url>, response: Response, cached: bool, known: nat)

  /** The clients over the agent, its cache and the connections to it; client `c` uses connection `c`.
      `exchanges` and `output` are history. */
  datatype System = System(agent: CacheSystem.System, clients: map<nat, Client>,
                           exchanges: seq<Exchange>, output: seq<Line>)

  const START := System(CacheSystem.START, map[], [], [])

  datatype Step =
    | Launch(c: nat, uri: Option<Url>)
    | Ask(c: nat)
    | Hear(c: nat)
    | Get(c: nat, response: Response)       // `response` is the registry's choice
    | Put(c: nat)
    | Abort(c: nat)                         // any fatal error
    | Background(a: CacheSystem.Step)       // the agent, its prunes, the clock, breaking connections

  /** The answer of a resolver for an endpoint that needs no authentication. */
  const NOTHING := Response("", map[])

  function RetrieveOf(uri: Option<Url>): CacheSystem.Op { CacheSystem.Retrieve(CacheKey(uri)) }

  function StoreOf(uri: Option<Url>, response: Response): CacheSystem.Op {
    CacheSystem.Store(Entry(CacheKey(uri), response))
  }

  predicate Enabled(s: System, a: Step) {
    match a
    case Launch(c, _) => c !in s.clients && CacheSystem.Enabled(s.agent, CacheSystem.Connect(c))
    case Ask(c) =>
      && c in s.clients && s.clients[c].Started?
      && CacheSystem.Enabled(s.agent, CacheSystem.Invoke(c, RetrieveOf(s.clients[c].uri)))
    case Hear(c) =>
      && c in s.clients && s.clients[c].Asked?
      && s.clients[c].call < |s.agent.calls| && s.agent.calls[s.clients[c].call].outcome.Some?
    case Get(c, _) => c in s.clients && s.clients[c].Missed? && !DeriveRepository(s.clients[c].uri).Invalid?
    case Put(c) =>
      && c in s.clients && s.clients[c].Resolved?
      && CacheSystem.Enabled(s.agent, CacheSystem.Invoke(c, StoreOf(s.clients[c].uri, s.clients[c].response)))
    case Abort(c) => c in s.clients
    case Background(b) => !b.Connect? && !b.Invoke? && CacheSystem.Enabled(s.agent, b)
  }

  function Do(parse: ExpiryParser, s: System, a: Step): System
    requires Enabled(s, a)
  {
    match a
    case Launch(c, uri) =>
      s.(clients := s.clients[c := Started(uri)], agent := CacheSystem.Do(parse, s.agent, CacheSystem.Connect(c)))
    case Ask(c) =>
      var uri := s.clients[c].uri;
      s.(clients := s.clients[c := Asked(uri, |s.agent.calls|)],
         agent := CacheSystem.Do(parse, s.agent, CacheSystem.Invoke(c, RetrieveOf(uri))))
    case Hear(c) => DoHear(s, c)
    case Get(c, response) => DoGet(s, c, response)
    case Put(c) =>
      var x := s.clients[c];
      s.(clients := s.clients[c := Finished],
         agent := CacheSystem.Do(parse, s.agent, CacheSystem.Invoke(c, StoreOf(x.uri, x.response))))
    case Abort(c) => s.(clients := s.clients[c := Finished])
    case Background(b) => s.(agent := CacheSystem.Do(parse, s.agent, b))
  }

  /** A hit is printed; a miss and a failure both lead to the resolver. */
  function DoHear(s: System, c: nat): System
    requires Enabled(s, Hear(c))
  {
    var uri := s.clients[c].uri;
    match s.agent.calls[s.clients[c].call].outcome.value.answer
    case Hit(r) => s.(clients := s.clients[c := Finished], output := s.output + [Line(c, uri, r, true, |s.exchanges|)])
    case _ => s.(clients := s.clients[c := Missed(uri)])
  }

  function DoGet(s: System, c: nat, response: Response): System
    requires Enabled(s, Get(c, response))
  {
    var uri := s.clients[c].uri;
    match DeriveRepository(uri)
    case Repository(registry, name) =>
      s.(clients := s.clients[c := Resolved(uri, response)],
         exchanges := s.exchanges + [Exchange(registry, Scope(name), response)],
         output := s.output + [Line(c, uri, response, false, |s.exchanges| + 1)])
    case _ =>
      s.(clients := s.clients[c := Resolved(uri, NOTHING)],
         output := s.output + [Line(c, uri, NOTHING, false, |s.exchanges|)])
  }

  predicate IsRun(parse: ExpiryParser, s: System, run: seq<Step>)
    decreases |run|
  {
    run == [] || (Enabled(s, run[0]) && IsRun(parse, Do(parse, s, run[0]), run[1..]))
  }

  function After(parse: ExpiryParser, s: System, run: seq<Step>): System
    requires IsRun(parse, s, run)
    decreases |run|
  {
    if run == [] then s else After(parse, Do(parse, s, run[0]), run[1..])
  }

  ghost predicate Reachable(parse: ExpiryParser, s: System) {
    exists run: seq<Step> :: IsRun(parse, START, run) && After(parse, START, run) == s
  }

  /** An exchange with the registry `uri` names, for the scope it asks for, gave this response. */
  predicate CameFrom(e: Exchange, uri: Option<Url>, response: Response) {
    match DeriveRepository(uri)
    case Repository(registry, name) => e == Exchange(registry, Scope(name), response)
    case _ => false
  }

  ghost predicate Obtained(exchanges: seq<Exchange>, n: nat, uri: Option<Url>, response: Response) {
    exists i :: 0 <= i < n && i < |exchanges| && CameFrom(exchanges[i], uri, response)
  }

  /** What a call stores under the key of a URI was obtained for that URI. */
  ghost predicate OpInv(exchanges: seq<Exchange>, op: CacheSystem.Op) {
    op.Store? && op.entry.key != "" ==>
      forall uri :: CacheKey(uri) == op.entry.key ==> Obtained(exchanges, |exchanges|, uri, op.entry.response)
  }

  ghost predicate ClientInv(exchanges: seq<Exchange>, calls: seq<CacheSystem.Call>, x: Client) {
    match x
    case Asked(uri, n) => n < |calls| && calls[n].op == RetrieveOf(uri)
    case Resolved(uri, r) => CacheKey(uri) != "" ==> Obtained(exchanges, |exchanges|, uri, r)
    case _ => true
  }

  /** A cached line was obtained for its URI before; any other line is the latest exchange for its URI, or
      says nothing for an endpoint that needs no authentication. */
  ghost predicate LineInv(exchanges: seq<Exchange>, line: Line) {
    && line.known <= |exchanges|
    && (if line.cached then Obtained(exchanges, line.known, line.uri, line.response)
        else match DeriveRepository(line.uri)
             case Repository(_, _) => line.known > 0 && CameFrom(exchanges[line.known - 1], line.uri, line.response)
             case Ignored => line.response == Response("", map[])
             case Invalid => false)
  }

  ghost predicate Inv(parse: ExpiryParser, s: System) {
    && CacheSystem.Inv(parse, s.agent)
    && (forall n :: 0 <= n < |s.agent.calls| ==> OpInv(s.exchanges, s.agent.calls[n].op))
    && (forall c :: c in s.clients ==> ClientInv(s.exchanges, s.agent.calls, s.clients[c]))
    && (forall i :: 0 <= i < |s.output| ==> LineInv(s.exchanges, s.output[i]))
  }

  lemma ObtainedGrows(xs: seq<Exchange>, ys: seq<Exchange>, n: nat, m: nat, uri: Option<Url>, r: Response)
    requires Obtained(xs, n, uri, r) && n <= m
    ensures Obtained(xs + ys, m, uri, r)
  {
    var i :| 0 <= i < n && i < |xs| && CameFrom(xs[i], uri, r);
    assert (xs + ys)[i] == xs[i];
  }

  /** Two URIs with the same non-empty key share their exchanges. */
  lemma SameKeySameExchange(u: Option<Url>, v: Option<Url>, e: Exchange, r: Response)
    requires CacheKey(u) == CacheKey(v) != "" && CameFrom(e, u, r)
    ensures CameFrom(e, v, r)
  {
    CacheKeysAreSound(u, v);
  }

  /** What a client stores is right for every URI with its key. */
  lemma StoreIsJustified(exchanges: seq<Exchange>, uri: Option<Url>, r: Response)
    requires CacheKey(uri) != "" ==> Obtained(exchanges, |exchanges|, uri, r)
    ensures OpInv(exchanges, StoreOf(uri, r))
  {
    if CacheKey(uri) != "" {
      var i :| 0 <= i < |exchanges| && CameFrom(exchanges[i], uri, r);
      forall v | CacheKey(v) == CacheKey(uri) ensures Obtained(exchanges, |exchanges|, v, r) {
        SameKeySameExchange(uri, v, exchanges[i], r);
      }
    }
  }

  /** A hit was obtained for the URI that asked. */
  lemma HitIsJustified(parse: ExpiryParser, s: System, c: nat)
    requires Inv(parse, s) && Enabled(s, Hear(c))
    requires s.agent.calls[s.clients[c].call].outcome.value.answer.Hit?
    ensures Obtained(s.exchanges, |s.exchanges|, s.clients[c].uri,
                     s.agent.calls[s.clients[c].call].outcome.value.answer.response)
  {
    var n := s.clients[c].call;
    assert ClientInv(s.exchanges, s.agent.calls, s.clients[c]);
    assert CacheSystem.CallInv(s.agent.log, s.agent.calls[n]);
    var m := CacheSystem.HitsComeFromStores(parse, s.agent, n);
    assert OpInv(s.exchanges, s.agent.calls[m].op);
  }

  /** The agent's own steps keep the operations of the calls made so far. */
  lemma AgentKeeps(parse: ExpiryParser, s: System, b: CacheSystem.Step)
    requires Inv(parse, s) && CacheSystem.Enabled(s.agent, b) && (b.Invoke? ==> OpInv(s.exchanges, b.op))
    ensures var agent := CacheSystem.Do(parse, s.agent, b);
      && Inv(parse, s.(agent := agent))
      && (b.Invoke? ==> |agent.calls| == |s.agent.calls| + 1 && agent.calls[|s.agent.calls|].op == b.op)
  {
    var agent := CacheSystem.Do(parse, s.agent, b);
    CacheSystem.InvStep(parse, s.agent, b);
    CacheSystem.LaterStep(parse, s.agent, b);
    CallsGrowByInvoke(parse, s.agent, b);
    forall n | 0 <= n < |agent.calls| ensures OpInv(s.exchanges, agent.calls[n].op) {
      if n < |s.agent.calls| { assert OpInv(s.exchanges, s.agent.calls[n].op); }
    }
    forall c | c in s.clients ensures ClientInv(s.exchanges, agent.calls, s.clients[c]) {
      assert ClientInv(s.exchanges, s.agent.calls, s.clients[c]);
    }
  }

  lemma CallsGrowByInvoke(parse: ExpiryParser, s: CacheSystem.System, b: CacheSystem.Step)
    requires CacheSystem.Enabled(s, b)
    ensures var t := CacheSystem.Do(parse, s, b);
      if b.Invoke? then |t.calls| == |s.calls| + 1 && t.calls[|s.calls|].op == b.op else |t.calls| == |s.calls|
  {
  }

  /** Changing one client's state. */
  lemma ClientKeeps(parse: ExpiryParser, s: System, c: nat, x: Client)
    requires Inv(parse, s) && ClientInv(s.exchanges, s.agent.calls, x)
    ensures Inv(parse, s.(clients := s.clients[c := x]))
  {
  }

  /** One more exchange. */
  lemma ExchangeKeeps(parse: ExpiryParser, s: System, e: Exchange)
    requires Inv(parse, s)
    ensures Inv(parse, s.(exchanges := s.exchanges + [e]))
  {
    var xs := s.exchanges + [e];
    forall n | 0 <= n < |s.agent.calls| ensures OpInv(xs, s.agent.calls[n].op) {
      OpKept(s.exchanges, e, s.agent.calls[n].op);
    }
    forall c | c in s.clients ensures ClientInv(xs, s.agent.calls, s.clients[c]) {
      var x := s.clients[c];
      assert ClientInv(s.exchanges, s.agent.calls, x);
      if x.Resolved? && CacheKey(x.uri) != "" {
        ObtainedGrows(s.exchanges, [e], |s.exchanges|, |xs|, x.uri, x.response);
      }
    }
    forall i | 0 <= i < |s.output| ensures LineInv(xs, s.output[i]) {
      var l := s.output[i];
      assert LineInv(s.exchanges, l);
      if l.cached { ObtainedGrows(s.exchanges, [e], l.known, l.known, l.uri, l.response); }
      else if l.known > 0 { assert xs[l.known - 1] == s.exchanges[l.known - 1]; }
    }
  }

  lemma OpKept(xs: seq<Exchange>, e: Exchange, op: CacheSystem.Op)
    requires OpInv(xs, op)
    ensures OpInv(xs + [e], op)
  {
    if op.Store? && op.entry.key != "" {
      forall uri | CacheKey(uri) == op.entry.key ensures Obtained(xs + [e], |xs + [e]|, uri, op.entry.response) {
        ObtainedGrows(xs, [e], |xs|, |xs + [e]|, uri, op.entry.response);
      }
    }
  }

  lemma PrintKeeps(parse: ExpiryParser, s: System, line: Line)
    requires Inv(parse, s) && LineInv(s.exchanges, line)
    ensures Inv(parse, s.(output := s.output + [line]))
  {
  }

  lemma GetKeeps(parse: ExpiryParser, s: System, c: nat, response: Response)
    requires Inv(parse, s) && Enabled(s, Get(c, response))
    ensures Inv(parse, DoGet(s, c, response))
  {
    var uri := s.clients[c].uri;
    var d := DeriveRepository(uri);
    if d.Repository? {
      var e := Exchange(d.registry, Scope(d.repository), response);
      ExchangeKeeps(parse, s, e);
      var t := s.(exchanges := s.exchanges + [e]);
      assert CameFrom(t.exchanges[|s.exchanges|], uri, response);
      ClientKeeps(parse, t, c, Resolved(uri, response));
      PrintKeeps(parse, t.(clients := t.clients[c := Resolved(uri, response)]),
                 Line(c, uri, response, false, |s.exchanges| + 1));
    } else {
      ClientKeeps(parse, s, c, Resolved(uri, NOTHING));
      PrintKeeps(parse, s.(clients := s.clients[c := Resolved(uri, NOTHING)]),
                 Line(c, uri, NOTHING, false, |s.exchanges|));
    }
  }

  lemma HearKeeps(parse: ExpiryParser, s: System, c: nat)
    requires Inv(parse, s) && Enabled(s, Hear(c))
    ensures Inv(parse, DoHear(s, c))
  {
    var uri := s.clients[c].uri;
    var answer := s.agent.calls[s.clients[c].call].outcome.value.answer;
    if answer.Hit? {
      HitIsJustified(parse, s, c);
      ClientKeeps(parse, s, c, Finished);
      PrintKeeps(parse, s.(clients := s.clients[c := Finished]), Line(c, uri, answer.response, true, |s.exchanges|));
    } else {
      ClientKeeps(parse, s, c, Missed(uri));
    }
  }

  lemma InvStep(parse: ExpiryParser, s: System, a: Step)
    requires Inv(parse, s) && Enabled(s, a)
    ensures Inv(parse, Do(parse, s, a))
  {
    match a
    case Launch(c, uri) =>
      AgentKeeps(parse, s, CacheSystem.Connect(c));
      ClientKeeps(parse, s.(agent := CacheSystem.Do(parse, s.agent, CacheSystem.Connect(c))), c, Started(uri));
    case Ask(c) =>
      var uri := s.clients[c].uri;
      var b := CacheSystem.Invoke(c, RetrieveOf(uri));
      AgentKeeps(parse, s, b);
      ClientKeeps(parse, s.(agent := CacheSystem.Do(parse, s.agent, b)), c, Asked(uri, |s.agent.calls|));
    case Hear(c) => HearKeeps(parse, s, c);
    case Get(c, response) => GetKeeps(parse, s, c, response);
    case Put(c) =>
      var x := s.clients[c];
      assert ClientInv(s.exchanges, s.agent.calls, x);
      StoreIsJustified(s.exchanges, x.uri, x.response);
      var b := CacheSystem.Invoke(c, StoreOf(x.uri, x.response));
      AgentKeeps(parse, s, b);
      ClientKeeps(parse, s.(agent := CacheSystem.Do(parse, s.agent, b)), c, Finished);
    case Abort(c) => ClientKeeps(parse, s, c, Finished);
    case Background(b) => AgentKeeps(parse, s, b);
  }

  lemma {:induction false} InvRun(parse: ExpiryParser, s: System, run: seq<Step>)
    requires Inv(parse, s) && IsRun(parse, s, run)
    ensures Inv(parse, After(parse, s, run))
    decreases |run|
  {
    if run != [] {
      InvStep(parse, s, run[0]);
      InvRun(parse, Do(parse, s, run[0]), run[1..]);
    }
  }

  /** In every run of any number of clients over the agent's cache, with their calls and the prunes
      interleaved in any way and connections breaking at any time, a response printed from the cache came
      from an earlier exchange with the same registry for the same scope. */
  lemma CachedResponsesAreForTheSameScope(parse: ExpiryParser, s: System, n: nat)
    requires Reachable(parse, s) && n < |s.output| && s.output[n].cached
    ensures var line := s.output[n];
      exists i :: 0 <= i < line.known && i < |s.exchanges| && CameFrom(s.exchanges[i], line.uri, line.response)
  {
    InvReachable(parse, s);
    assert LineInv(s.exchanges, s.output[n]);
  }

  /** Every other line prints what the client has just got for its own URI. */
  lemma OtherResponsesAreFresh(parse: ExpiryParser, s: System, n: nat)
    requires Reachable(parse, s) && n < |s.output| && !s.output[n].cached
    ensures var line := s.output[n];
      match DeriveRepository(line.uri)
      case Repository(_, _) =>
        0 < line.known <= |s.exchanges| && CameFrom(s.exchanges[line.known - 1], line.uri, line.response)
      case Ignored => line.response == Response("", map[])
      case Invalid => false
  {
    InvReachable(parse, s);
    assert LineInv(s.exchanges, s.output[n]);
  }

  /** The lines a client has printed. */
  function Printed(output: seq<Line>, c: nat): nat {
    if output == [] then 0 else Printed(output[..|output| - 1], c) + (if output[|output| - 1].client == c then 1 else 0)
  }

  predicate HasPrinted(s: System, c: nat) { c in s.clients && (s.clients[c].Resolved? || s.clients[c].Finished?) }

  lemma PrintedSnoc(output: seq<Line>, line: Line, c: nat)
    ensures Printed(output + [line], c) == Printed(output, c) + (if line.client == c then 1 else 0)
  {
    assert (output + [line])[..|output|] == output;
  }

  /** What a step prints, and for whom. */
  lemma PrintingStep(parse: ExpiryParser, s: System, a: Step, c: nat)
    requires Enabled(s, a)
    ensures var t := Do(parse, s, a);
      && Printed(t.output, c) - Printed(s.output, c) ==
           (if a != Abort(c) && !HasPrinted(s, c) && HasPrinted(t, c) then 1 else 0)
      && (HasPrinted(s, c) ==> HasPrinted(t, c))
  {
    var t := Do(parse, s, a);
    if |t.output| > |s.output| { PrintedSnoc(s.output, t.output[|s.output|], c); }
  }

  /** Every client prints at most once, and in a run that does not abort it exactly once by the time it stores
      or is done, whatever became of its calls to the agent. */
  lemma {:induction false} PrintsOnce(parse: ExpiryParser, s: System, run: seq<Step>, c: nat)
    requires IsRun(parse, s, run)
    requires Printed(s.output, c) == (if HasPrinted(s, c) then 1 else 0)
    ensures var t := After(parse, s, run);
      && Printed(t.output, c) <= (if HasPrinted(t, c) then 1 else 0)
      && (Abort(c) !in run ==> Printed(t.output, c) == (if HasPrinted(t, c) then 1 else 0))
    decreases |run|
  {
    if run != [] {
      var a := run[0];
      PrintingStep(parse, s, a, c);
      var t := Do(parse, s, a);
      if a == Abort(c) { NoneAfterFinish(parse, t, run[1..], c); } else { PrintsOnce(parse, t, run[1..], c); }
    }
  }

  lemma {:induction false} NoneAfterFinish(parse: ExpiryParser, s: System, run: seq<Step>, c: nat)
    requires IsRun(parse, s, run) && HasPrinted(s, c)
    ensures HasPrinted(After(parse, s, run), c) && Printed(After(parse, s, run).output, c) == Printed(s.output, c)
    decreases |run|
  {
    if run != [] {
      PrintingStep(parse, s, run[0], c);
      NoneAfterFinish(parse, Do(parse, s, run[0]), run[1..], c);
    }
  }

  lemma InvReachable(parse: ExpiryParser, s: System)
    requires Reachable(parse, s)
    ensures Inv(parse, s)
  {
    var run :| IsRun(parse, START, run) && After(parse, START, run) == s;
    InvRun(parse, START, run);
  }
}

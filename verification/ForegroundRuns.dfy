/** A client that nobody disturbs behaves as the sequential client of `Foreground.Run`. */
module ForegroundRuns {
  import opened Wrappers
  import opened Text
  import opened MemCache
  import opened Protocol
  import opened OciKeys
  import opened Foreground
  import CacheHistory
  import CacheSystem

  lemma {:induction false} RunConcat(parse: ExpiryParser, s: System, run: seq<Step>, more: seq<Step>)
    requires IsRun(parse, s, run) && IsRun(parse, After(parse, s, run), more)
    ensures IsRun(parse, s, run + more) && After(parse, s, run + more) == After(parse, After(parse, s, run), more)
    decreases |run|
  {
    if run == [] {
      assert run + more == more;
    } else {
      RunConcat(parse, Do(parse, s, run[0]), run[1..], more);
      assert (run + more)[1..] == run[1..] + more;
    }
  }

  lemma RunOne(parse: ExpiryParser, s: System, a: Step)
    requires Enabled(s, a)
    ensures IsRun(parse, s, [a]) && After(parse, s, [a]) == Do(parse, s, a)
  {
    assert [a][1..] == [];
  }

  /** Client `c` has just called the agent for `op`, over a connection in order, and no prune is going on. */
  ghost predicate Calling(s: System, c: nat, op: CacheSystem.Op) {
    && s.agent.mutex.Free? && c in s.agent.conns && s.agent.conns[c].phase.Requested?
    && s.agent.conns[c].phase.call == |s.agent.calls| - 1
    && |s.agent.calls| > 0 && s.agent.calls[|s.agent.calls| - 1].op == op
  }

  /** Everything but the agent's calls, connections and history. */
  predicate Same(s: System, t: System) {
    t.clients == s.clients && t.exchanges == s.exchanges && t.output == s.output
  }

  lemma ExecuteCall(parse: ExpiryParser, s: System, c: nat, op: CacheSystem.Op) returns (t: System)
    requires CacheSystem.Inv(parse, s.agent) && Calling(s, c, op)
    ensures Enabled(s, Background(CacheSystem.Execute(c))) && t == Do(parse, s, Background(CacheSystem.Execute(c)))
    ensures CacheSystem.Inv(parse, t.agent) && Same(s, t) && t.agent.mutex.Free?
    ensures t.agent.cache == (if op.Store? then Stored(s.agent.cache, op.entry) else s.agent.cache)
    ensures |t.agent.calls| == |s.agent.calls| && t.agent.calls[|s.agent.calls| - 1].op == op
    ensures c in t.agent.conns && t.agent.conns[c].phase.Replied? && t.agent.conns[c].phase.call == |s.agent.calls| - 1
    ensures CacheSystem.AnswerOf(op, t.agent.conns[c].phase.reply) ==
              if op.Store? then Accepted
              else match Fetched(s.agent.cache, op.key) case None => NoEntry case Some(r) => Hit(r)
  {
    t := Do(parse, s, Background(CacheSystem.Execute(c)));
    var x := s.agent.conns[c];
    assert CacheSystem.PhaseInv(s.agent.log, s.agent.calls, x.phase);
    CacheSystem.ExecuteIsOneEvent(s.agent.cache, x.req, op);
    CacheSystem.InvStep(parse, s.agent, CacheSystem.Execute(c));
  }

  lemma ReturnCall(parse: ExpiryParser, s: System, c: nat, n: nat) returns (t: System)
    requires CacheSystem.Inv(parse, s.agent) && c in s.agent.conns && s.agent.conns[c].phase.Replied?
    requires s.agent.conns[c].phase.call == n < |s.agent.calls|
    ensures Enabled(s, Background(CacheSystem.Return(c))) && t == Do(parse, s, Background(CacheSystem.Return(c)))
    ensures CacheSystem.Inv(parse, t.agent) && Same(s, t) && t.agent.mutex == s.agent.mutex && t.agent.cache == s.agent.cache
    ensures c in t.agent.conns && t.agent.conns[c].phase.Idle? && |t.agent.calls| == |s.agent.calls|
    ensures t.agent.calls[n].outcome.Some?
    ensures t.agent.calls[n].outcome.value.answer == CacheSystem.AnswerOf(s.agent.calls[n].op, s.agent.conns[c].phase.reply)
  {
    t := Do(parse, s, Background(CacheSystem.Return(c)));
    CacheSystem.InvStep(parse, s.agent, CacheSystem.Return(c));
  }

  /** A call runs to its end: its effect on the cache and its answer are those of the agent's map. */
  lemma CompleteCall(parse: ExpiryParser, s: System, c: nat, op: CacheSystem.Op) returns (run: seq<Step>, t: System)
    requires CacheSystem.Inv(parse, s.agent) && Calling(s, c, op)
    ensures IsRun(parse, s, run) && t == After(parse, s, run)
    ensures CacheSystem.Inv(parse, t.agent) && Same(s, t) && t.agent.mutex.Free?
    ensures c in t.agent.conns && t.agent.conns[c].phase.Idle? && |t.agent.calls| == |s.agent.calls|
    ensures t.agent.cache == (if op.Store? then Stored(s.agent.cache, op.entry) else s.agent.cache)
    ensures t.agent.calls[|s.agent.calls| - 1].outcome.Some?
    ensures t.agent.calls[|s.agent.calls| - 1].outcome.value.answer ==
              if op.Store? then Accepted
              else match Fetched(s.agent.cache, op.key) case None => NoEntry case Some(r) => Hit(r)
  {
    var a, b := Background(CacheSystem.Execute(c)), Background(CacheSystem.Return(c));
    var u := ExecuteCall(parse, s, c, op);
    t := ReturnCall(parse, u, c, |s.agent.calls| - 1);
    RunOne(parse, s, a);
    RunOne(parse, u, b);
    RunConcat(parse, s, [a], [b]);
    run := [a] + [b];
  }

  lemma CacheIsWellFormed(parse: ExpiryParser, s: CacheSystem.System)
    requires CacheSystem.Inv(parse, s)
    ensures WellFormed(s.cache)
  {
    CacheHistory.ViewIsWellFormed(s.log);
  }

  /** The answer of the agent's map. */
  function AnswerFrom(m: Contents, op: CacheSystem.Op): Answer {
    if op.Store? then Accepted else match Fetched(m, op.key) case None => NoEntry case Some(r) => Hit(r)
  }

  /** A step by which client `c` calls the agent for `op`. */
  predicate Invokes(s: System, c: nat, a: Step, op: CacheSystem.Op) {
    && Enabled(s, a) && c in s.agent.conns && s.agent.conns[c].phase.Idle?
    && ((a == Ask(c) && op == RetrieveOf(s.clients[c].uri))
        || (a == Put(c) && op == StoreOf(s.clients[c].uri, s.clients[c].response)))
  }

  lemma InvokeSends(parse: ExpiryParser, s: System, c: nat, a: Step, op: CacheSystem.Op)
    requires CacheSystem.Inv(parse, s.agent) && s.agent.mutex.Free? && Invokes(s, c, a, op) && CacheSystem.Sendable(op)
    ensures var u := Do(parse, s, a);
      CacheSystem.Inv(parse, u.agent) && Calling(u, c, op) && |u.agent.calls| == |s.agent.calls| + 1 && u.agent.cache == s.agent.cache
  {
    CacheSystem.InvStep(parse, s.agent, CacheSystem.Invoke(c, op));
  }

  lemma InvokeFilters(parse: ExpiryParser, s: System, c: nat, a: Step, op: CacheSystem.Op)
    requires CacheSystem.Inv(parse, s.agent) && s.agent.mutex.Free? && Invokes(s, c, a, op) && !CacheSystem.Sendable(op)
    ensures var u := Do(parse, s, a);
      && CacheSystem.Inv(parse, u.agent) && u.agent.conns == s.agent.conns && u.agent.mutex == s.agent.mutex
      && u.agent.cache == s.agent.cache && |u.agent.calls| == |s.agent.calls| + 1
      && u.agent.calls[|s.agent.calls|].outcome.Some?
      && u.agent.calls[|s.agent.calls|].outcome.value.answer == AnswerFrom(s.agent.cache, op)
      && (op.Store? ==> Stored(s.agent.cache, op.entry) == s.agent.cache)
  {
    CacheSystem.InvStep(parse, s.agent, CacheSystem.Invoke(c, op));
    CacheIsWellFormed(parse, s.agent);
  }

  /** The client calls the agent and gets its answer. */
  lemma Call(parse: ExpiryParser, s: System, c: nat, a: Step, op: CacheSystem.Op) returns (run: seq<Step>, t: System)
    requires CacheSystem.Inv(parse, s.agent) && s.agent.mutex.Free? && Invokes(s, c, a, op)
    ensures IsRun(parse, s, run) && t == After(parse, s, run)
    ensures CacheSystem.Inv(parse, t.agent) && Same(Do(parse, s, a), t) && t.agent.mutex.Free?
    ensures c in t.agent.conns && t.agent.conns[c].phase.Idle?
    ensures t.agent.cache == (if op.Store? then Stored(s.agent.cache, op.entry) else s.agent.cache)
    ensures |t.agent.calls| == |s.agent.calls| + 1 && t.agent.calls[|s.agent.calls|].outcome.Some?
    ensures t.agent.calls[|s.agent.calls|].outcome.value.answer == AnswerFrom(s.agent.cache, op)
  {
    var u := Do(parse, s, a);
    RunOne(parse, s, a);
    if CacheSystem.Sendable(op) {
      InvokeSends(parse, s, c, a, op);
      var rest;
      rest, t := CompleteCall(parse, u, c, op);
      RunConcat(parse, s, [a], rest);
      run := [a] + rest;
    } else {
      InvokeFilters(parse, s, c, a, op);
      run, t := [a], u;
    }
  }

  lemma LaunchAlone(parse: ExpiryParser, s: System, c: nat, uri: Option<Url>) returns (t: System)
    requires CacheSystem.Inv(parse, s.agent) && c !in s.clients && c !in s.agent.conns
    ensures Enabled(s, Launch(c, uri)) && t == Do(parse, s, Launch(c, uri))
    ensures CacheSystem.Inv(parse, t.agent) && t.agent.mutex == s.agent.mutex && t.agent.cache == s.agent.cache
    ensures Invokes(t, c, Ask(c), RetrieveOf(uri)) && t.clients == s.clients[c := Started(uri)]
    ensures t.exchanges == s.exchanges && t.output == s.output
  {
    t := Do(parse, s, Launch(c, uri));
    CacheSystem.InvStep(parse, s.agent, CacheSystem.Connect(c));
  }

  lemma AskAlone(parse: ExpiryParser, s: System, c: nat, uri: Option<Url>) returns (run: seq<Step>, t: System)
    requires CacheSystem.Inv(parse, s.agent) && s.agent.mutex.Free? && Invokes(s, c, Ask(c), RetrieveOf(uri))
    requires s.clients[c] == Started(uri)
    ensures IsRun(parse, s, run) && t == After(parse, s, run)
    ensures CacheSystem.Inv(parse, t.agent) && t.agent.mutex.Free? && t.agent.cache == s.agent.cache
    ensures c in t.agent.conns && t.agent.conns[c].phase.Idle? && t.exchanges == s.exchanges && t.output == s.output
    ensures Enabled(t, Hear(c)) && t.clients == s.clients[c := t.clients[c]] && t.clients[c].uri == uri
    ensures t.agent.calls[t.clients[c].call].outcome.value.answer == AnswerFrom(s.agent.cache, RetrieveOf(uri))
  {
    run, t := Call(parse, s, c, Ask(c), RetrieveOf(uri));
  }

  lemma HearAlone(parse: ExpiryParser, s: System, c: nat, uri: Option<Url>) returns (t: System)
    requires Enabled(s, Hear(c)) && s.clients[c].uri == uri
    requires s.agent.calls[s.clients[c].call].outcome.value.answer == AnswerFrom(s.agent.cache, RetrieveOf(uri))
    ensures t == Do(parse, s, Hear(c)) && t.agent == s.agent && t.exchanges == s.exchanges
    ensures match Fetched(s.agent.cache, CacheKey(uri))
      case Some(r) => t.clients == s.clients[c := Finished] && t.output == s.output + [Line(c, uri, r, true, |s.exchanges|)]
      case None => t.clients == s.clients[c := Missed(uri)] && t.output == s.output
  {
    t := Do(parse, s, Hear(c));
  }

  /** The client has asked and its answer is there. */
  ghost predicate Answered(parse: ExpiryParser, s: System, t: System, c: nat, uri: Option<Url>) {
    && CacheSystem.Inv(parse, t.agent) && t.agent.mutex.Free? && t.agent.cache == s.agent.cache
    && c in t.agent.conns && t.agent.conns[c].phase.Idle? && t.exchanges == s.exchanges && t.output == s.output
    && Enabled(t, Hear(c)) && t.clients == s.clients[c := t.clients[c]] && t.clients[c].uri == uri
    && t.agent.calls[t.clients[c].call].outcome.value.answer == AnswerFrom(s.agent.cache, RetrieveOf(uri))
  }

  lemma LaunchAndAsk(parse: ExpiryParser, s: System, c: nat, uri: Option<Url>) returns (run: seq<Step>, t: System)
    requires CacheSystem.Inv(parse, s.agent) && s.agent.mutex.Free? && c !in s.clients && c !in s.agent.conns
    ensures IsRun(parse, s, run) && t == After(parse, s, run) && Answered(parse, s, t, c, uri)
  {
    var launched := LaunchAlone(parse, s, c, uri);
    RunOne(parse, s, Launch(c, uri));
    var call;
    call, t := AskAlone(parse, launched, c, uri);
    run := [Launch(c, uri)];
    RunConcat(parse, s, run, call);
    run := run + call;
  }

  /** A client starts, asks and hears: it prints what the cache has for its key and is done, or it has missed. */
  lemma RetrieveAlone(parse: ExpiryParser, s: System, c: nat, uri: Option<Url>) returns (run: seq<Step>, t: System)
    requires CacheSystem.Inv(parse, s.agent) && s.agent.mutex.Free? && c !in s.clients && c !in s.agent.conns
    ensures IsRun(parse, s, run) && t == After(parse, s, run)
    ensures CacheSystem.Inv(parse, t.agent) && t.agent.mutex.Free? && t.agent.cache == s.agent.cache
    ensures c in t.agent.conns && t.agent.conns[c].phase.Idle? && t.exchanges == s.exchanges
    ensures match Fetched(s.agent.cache, CacheKey(uri))
      case Some(r) => t.clients == s.clients[c := Finished] && t.output == s.output + [Line(c, uri, r, true, |s.exchanges|)]
      case None => t.clients == s.clients[c := Missed(uri)] && t.output == s.output
  {
    var asked;
    run, asked := LaunchAndAsk(parse, s, c, uri);
    t := HearAlone(parse, asked, c, uri);
    RunOne(parse, asked, Hear(c));
    RunConcat(parse, s, run, [Hear(c)]);
    run := run + [Hear(c)];
  }

  lemma GetFromRegistry(parse: ExpiryParser, s: System, c: nat, got: Response)
    requires Enabled(s, Get(c, got)) && DeriveRepository(s.clients[c].uri).Repository?
    ensures var t, uri := Do(parse, s, Get(c, got)), s.clients[c].uri;
      && t.agent == s.agent && t.clients == s.clients[c := Resolved(uri, got)]
      && t.output == s.output + [Line(c, uri, got, false, |t.exchanges|)]
      && |t.exchanges| == |s.exchanges| + 1 && s.exchanges <= t.exchanges && CameFrom(t.exchanges[|s.exchanges|], uri, got)
  {
  }

  lemma GetNothing(parse: ExpiryParser, s: System, c: nat, got: Response)
    requires Enabled(s, Get(c, got)) && DeriveRepository(s.clients[c].uri).Ignored?
    ensures var t, uri := Do(parse, s, Get(c, got)), s.clients[c].uri;
      && t.agent == s.agent && t.clients == s.clients[c := Resolved(uri, NOTHING)]
      && t.output == s.output + [Line(c, uri, NOTHING, false, |t.exchanges|)] && t.exchanges == s.exchanges
  {
  }

  lemma PutAlone(parse: ExpiryParser, s: System, c: nat, uri: Option<Url>, r: Response) returns (run: seq<Step>, t: System)
    requires CacheSystem.Inv(parse, s.agent) && s.agent.mutex.Free? && c in s.clients && s.clients[c] == Resolved(uri, r)
    requires c in s.agent.conns && s.agent.conns[c].phase.Idle?
    ensures IsRun(parse, s, run) && t == After(parse, s, run)
    ensures t.agent.cache == Stored(s.agent.cache, Entry(CacheKey(uri), r)) && t.output == s.output && t.exchanges == s.exchanges
  {
    run, t := Call(parse, s, c, Put(c), StoreOf(uri, r));
  }

  /** What a client that resolves by itself leaves behind. */
  predicate ResolvedAlone(s: System, t: System, c: nat, uri: Option<Url>, got: Response) {
    var r := if DeriveRepository(uri).Repository? then got else Response("", map[]);
    && t.output == s.output + [Line(c, uri, r, false, |t.exchanges|)]
    && t.agent.cache == Stored(s.agent.cache, Entry(CacheKey(uri), r))
    && (if DeriveRepository(uri).Repository?
        then |t.exchanges| == |s.exchanges| + 1 && s.exchanges <= t.exchanges && CameFrom(t.exchanges[|s.exchanges|], uri, got)
        else t.exchanges == s.exchanges)
  }

  /** After a miss the client resolves, prints and stores. */
  lemma ResolveAlone(parse: ExpiryParser, s: System, c: nat, got: Response) returns (run: seq<Step>)
    requires CacheSystem.Inv(parse, s.agent) && s.agent.mutex.Free?
    requires c in s.clients && s.clients[c].Missed? && !DeriveRepository(s.clients[c].uri).Invalid?
    requires c in s.agent.conns && s.agent.conns[c].phase.Idle?
    ensures IsRun(parse, s, run) && ResolvedAlone(s, After(parse, s, run), c, s.clients[c].uri, got)
  {
    var uri := s.clients[c].uri;
    var u := Do(parse, s, Get(c, got));
    RunOne(parse, s, Get(c, got));
    var r := if DeriveRepository(uri).Repository? then got else NOTHING;
    if DeriveRepository(uri).Repository? { GetFromRegistry(parse, s, c, got); } else { GetNothing(parse, s, c, got); }
    var put, t := PutAlone(parse, u, c, uri, r);
    RunConcat(parse, s, [Get(c, got)], put);
    run := [Get(c, got)] + put;
  }

  /** From every reachable state without a prune in progress, a new client that nobody disturbs prints the
      cached response for its key and asks no registry, or else prints and stores what the registry it
      asked has given. */
  lemma UndisturbedClient(parse: ExpiryParser, s: System, c: nat, uri: Option<Url>, got: Response)
    returns (run: seq<Step>)
    requires Reachable(parse, s) && s.agent.mutex.Free? && c !in s.clients && c !in s.agent.conns
    requires !DeriveRepository(uri).Invalid?
    ensures IsRun(parse, s, run)
    ensures var t, m, key := After(parse, s, run), s.agent.cache, CacheKey(uri);
      if key in m then
        && t.output == s.output + [Line(c, uri, m[key].response, true, |s.exchanges|)]
        && t.exchanges == s.exchanges && t.agent.cache == m
      else ResolvedAlone(s, t, c, uri, got)
  {
    InvReachable(parse, s);
    var t;
    run, t := RetrieveAlone(parse, s, c, uri);
    if CacheKey(uri) !in s.agent.cache {
      var more := ResolveAlone(parse, t, c, got);
      RunConcat(parse, s, run, more);
      run := run + more;
    }
  }
}

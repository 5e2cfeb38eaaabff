/** Any number of clients, each with a connection to the agent, over one mutex-protected cache.

    A call of a client is three steps: it sends its request, the agent's handler executes it, the client
    reads the reply. Steps of different clients interleave freely, and a connection may break at any time:
    the call in progress then fails, while the agent may still execute its request. A prune holds the write
    lock over many steps, one per entry, while the clock runs on. */
module CacheSystem {
  import opened Wrappers
  import opened MemCache
  import opened Protocol
  import opened CacheHistory

  datatype Op = Retrieve(key: string) | Store(entry: Entry)

  /** `call` is the number of the call in progress. */
  datatype Phase =
    | Idle
    | Requested(call: nat, msg: Message)
    | Replied(call: nat, reply: Reply)
    | Abandoned(call: nat, msg: Message)   // broken, and the request still under way
    | Closed

  /** A connection with the agent's reused request record for it. */
  datatype Conn = Conn(req: Request, phase: Phase)

  datatype Mutex = Free | Pruning(todo: set<string>, removed: set<string>, t0: int)

  datatype Outcome = Outcome(answer: Answer, returned: nat)

  /** A call over connection `conn`. `invoked` and `returned` are lengths of the log; `index` is the call's own event, absent as
      long as the agent has not executed it. */
  datatype Call = Call(conn: nat, op: Op, invoked: nat, index: Option<nat>, outcome: Option<Outcome>)

  /** `calls` is in the order of invocation. The log and what a call records besides its operation are
      history; no step depends on them. */
  datatype System = System(cache: Contents, mutex: Mutex, now: int, conns: map<nat, Conn>,
                           log: seq<Event>, calls: seq<Call>)

  const START := System(map[], Free, 0, map[], [], [])

  datatype Step =
    | Connect(c: nat) | Invoke(c: nat, op: Op) | Execute(c: nat) | Return(c: nat) | Break(c: nat)
    | PruneStart | PruneKey(k: string) | PruneFinish | Tick(d: nat)

  /** The calls that reach the agent. */
  predicate Sendable(op: Op) {
    match op
    case Retrieve(k) => k != ""
    case Store(e) => Cachable(e)
  }

  function MessageOf(op: Op): Message {
    match op
    case Retrieve(k) => RetrieveMessage(k)
    case Store(e) => StoreMessage(e)
  }

  function FilteredAnswer(op: Op): Answer { if op.Retrieve? then NoEntry else Accepted }

  function AnswerOf(op: Op, reply: Reply): Answer {
    if op.Retrieve? then AnswerRetrieve(reply) else AnswerStore(reply)
  }

  /** What a request does to the history. */
  function EventsOf(m: Contents, req: Request): seq<Event> {
    if req.verb == RETRIEVE && AsKey(req.payload).Some? then
      [Get(AsKey(req.payload).value, Fetched(m, AsKey(req.payload).value))]
    else if req.verb == STORE && AsEntry(req.payload).Some? && Cachable(AsEntry(req.payload).value) then
      [Put(AsEntry(req.payload).value)]
    else []
  }

  /** The connection of a call in progress; a call on a broken connection fails at once. */
  predicate Busy(p: Phase) { p.Requested? || p.Replied? }

  predicate Enabled(s: System, a: Step) {
    match a
    case Connect(c) => c !in s.conns
    case Invoke(c, _) => c in s.conns && !Busy(s.conns[c].phase)
    case Execute(c) =>
      && c in s.conns && (s.conns[c].phase.Requested? || s.conns[c].phase.Abandoned?)
      && s.conns[c].phase.call < |s.calls| && s.mutex.Free?
    case Return(c) => c in s.conns && s.conns[c].phase.Replied? && s.conns[c].phase.call < |s.calls|
    case Break(c) => c in s.conns && (Busy(s.conns[c].phase) ==> s.conns[c].phase.call < |s.calls|)
    case PruneStart => s.mutex.Free?
    case PruneKey(k) => s.mutex.Pruning? && k in s.mutex.todo && k in s.cache
    case PruneFinish => s.mutex.Pruning? && s.mutex.todo == {}
    case Tick(_) => true
  }

  function Returned(s: System, n: nat, answer: Answer): seq<Call>
    requires n < |s.calls|
  {
    s.calls[n := s.calls[n].(outcome := Some(Outcome(answer, |s.log|)))]
  }

  function Phased(s: System, c: nat, p: Phase): map<nat, Conn>
    requires c in s.conns
  {
    s.conns[c := s.conns[c].(phase := p)]
  }

  function Do(parse: ExpiryParser, s: System, a: Step): System
    requires Enabled(s, a)
  {
    match a
    case Connect(c) => s.(conns := s.conns[c := Conn(EMPTY, Idle)])
    case Invoke(c, op) => DoInvoke(s, c, op)
    case Execute(c) => DoExecute(s, c)
    case Return(c) =>
      var x := s.conns[c].phase;
      s.(conns := Phased(s, c, Idle), calls := Returned(s, x.call, AnswerOf(s.calls[x.call].op, x.reply)))
    case Break(c) => DoBreak(s, c)
    case PruneStart => s.(mutex := Pruning(s.cache.Keys, {}, s.now))
    case PruneKey(k) =>
      if Expired(parse, s.cache[k], s.now) then
        s.(cache := s.cache - {k},
           mutex := Pruning(s.mutex.todo - {k}, s.mutex.removed + {k}, s.mutex.t0))
      else
        s.(mutex := s.mutex.(todo := s.mutex.todo - {k}))
    case PruneFinish => s.(mutex := Free, log := s.log + [Pruned(s.mutex.removed, s.mutex.t0, s.now)])
    case Tick(d) => s.(now := s.now + d)
  }

  function DoInvoke(s: System, c: nat, op: Op): System
    requires Enabled(s, Invoke(c, op))
  {
    if !Sendable(op) then
      s.(calls := s.calls + [Call(c, op, |s.log|, None, Some(Outcome(FilteredAnswer(op), |s.log|)))])
    else if !s.conns[c].phase.Idle? then
      s.(calls := s.calls + [Call(c, op, |s.log|, None, Some(Outcome(Error, |s.log|)))])
    else
      s.(conns := Phased(s, c, Requested(|s.calls|, MessageOf(op))),
         calls := s.calls + [Call(c, op, |s.log|, None, None)])
  }

  function DoExecute(s: System, c: nat): System
    requires Enabled(s, Execute(c))
  {
    var x := s.conns[c];
    var req := Merge(x.req, x.phase.msg);
    var (m, reply) := Handle(s.cache, req, s.cache);
    s.(cache := m, log := s.log + EventsOf(s.cache, req),
       conns := s.conns[c := Conn(req, if x.phase.Requested? then Replied(x.phase.call, reply) else Closed)],
       calls := s.calls[x.phase.call := s.calls[x.phase.call].(index := Some(|s.log|))])
  }

  function DoBreak(s: System, c: nat): System
    requires Enabled(s, Break(c))
  {
    match s.conns[c].phase
    case Requested(n, msg) => s.(conns := Phased(s, c, Abandoned(n, msg)), calls := Returned(s, n, Error))
    case Replied(n, _) => s.(conns := Phased(s, c, Closed), calls := Returned(s, n, Error))
    case Abandoned(_, _) => s
    case _ => s.(conns := Phased(s, c, Closed))
  }

  predicate IsRun(parse: ExpiryParser, s: System, run: seq<Step>)
    decreases |run|
  {
    run == [] || (Enabled(s, run[0]) && IsRun(parse, Do(parse, s, run[0]), run[1..]))
  }

  function After(parse: ExpiryParser, s: System, run: seq<Step>): System
    requires IsRun(parse, s, run)
    decreases |run|
  {
    if run == [] then s else After(parse, Do(parse, s, run[0]), run[1..])
  }

  ghost predicate Reachable(parse: ExpiryParser, s: System) {
    exists run: seq<Step> :: IsRun(parse, START, run) && After(parse, START, run) == s
  }

  /******* The invariant *******/

  /** The event is one a call of this kind leaves. */
  predicate IsEventOf(op: Op, e: Event) {
    match op
    case Retrieve(k) => e.Get? && e.key == k
    case Store(entry) => e == Put(entry)
  }

  /** The answer is the one the event stands for. */
  predicate EventFits(op: Op, answer: Answer, e: Event) {
    && IsEventOf(op, e)
    && answer == if e.Put? then Accepted else if e.Get? && e.found.Some? then Hit(e.found.value) else NoEntry
  }

  /** A returned call got the answer of its event, which the agent had executed by then, or it failed. */
  predicate AnswerOk(log: seq<Event>, op: Op, index: Option<nat>, o: Outcome) {
    if !Sendable(op) then o.answer == FilteredAnswer(op)
    else o.answer.Error? || (index.Some? && index.value < o.returned <= |log| && EventFits(op, o.answer, log[index.value]))
  }

  predicate CallInv(log: seq<Event>, c: Call) {
    && c.invoked <= |log|
    && (c.index.Some? ==> Sendable(c.op) && c.invoked <= c.index.value < |log| && IsEventOf(c.op, log[c.index.value]))
    && (c.outcome.Some? ==> c.invoked <= c.outcome.value.returned <= |log| && AnswerOk(log, c.op, c.index, c.outcome.value))
  }

  /** What the phase of a connection says about its call in progress. */
  predicate PhaseInv(log: seq<Event>, calls: seq<Call>, p: Phase) {
    match p
    case Requested(n, msg) =>
      && n < |calls| && Sendable(calls[n].op) && msg == MessageOf(calls[n].op)
      && calls[n].index.None? && calls[n].outcome.None?
    case Abandoned(n, msg) =>
      && n < |calls| && Sendable(calls[n].op) && msg == MessageOf(calls[n].op)
      && calls[n].index.None?
    case Replied(n, reply) =>
      && n < |calls| && Sendable(calls[n].op) && calls[n].outcome.None?
      && calls[n].index.Some? && calls[n].index.value < |log|
      && EventFits(calls[n].op, AnswerOf(calls[n].op, reply), log[calls[n].index.value])
    case _ => true
  }

  predicate HasCall(p: Phase) { p.Requested? || p.Replied? || p.Abandoned? }

  ghost predicate CallsInv(s: System) {
    && (forall n :: 0 <= n < |s.calls| ==> CallInv(s.log, s.calls[n]))
    && (forall c :: c in s.conns ==> PhaseInv(s.log, s.calls, s.conns[c].phase))
    && (forall c, d :: c in s.conns && d in s.conns && c != d ==> Apart(s.conns[c].phase, s.conns[d].phase))
  }

  /** Two connections are never about the same call. */
  predicate Apart(p: Phase, q: Phase) { HasCall(p) && HasCall(q) ==> p.call != q.call }

  ghost predicate Owns(s: System, n: nat, i: nat) { n < |s.calls| && s.calls[n].index == Some(i) }

  /** Every lookup and store of the history is the event of exactly one call. */
  ghost predicate EventsInv(s: System) {
    && (forall m: nat, n: nat, i: nat :: Owns(s, m, i) && Owns(s, n, i) ==> m == n)
    && (forall i: nat :: i < |s.log| && !s.log[i].Pruned? ==> exists n: nat :: Owns(s, n, i))
  }

  /** The cache is the map the history describes, up to what a prune in progress has already removed. */
  ghost predicate CacheInv(parse: ExpiryParser, s: System) {
    var m := View(s.log);
    && Legal(parse, s.log)
    && match s.mutex
       case Free => s.cache == m
       case Pruning(todo, removed, t0) =>
         && s.cache == m - removed && t0 <= s.now && todo <= s.cache.Keys && removed <= m.Keys
         && (forall k :: k in removed ==> !LivesAt(parse, m[k], s.now))
         && (forall k :: k in s.cache && k !in todo ==> LivesAt(parse, m[k], t0))
  }

  /** The history event of a call the agent is about to execute. */
  function CallEvent(m: Contents, op: Op): Event {
    if op.Retrieve? then Get(op.key, Fetched(m, op.key)) else Put(op.entry)
  }

  lemma ExecuteIsOneEvent(m: Contents, req: Request, op: Op)
    requires Sendable(op)
    ensures EventsOf(m, Merge(req, MessageOf(op))) == [CallEvent(m, op)]
    ensures Handle(m, Merge(req, MessageOf(op)), m).0 == Effect(m, CallEvent(m, op))
    ensures EventFits(op, AnswerOf(op, Handle(m, Merge(req, MessageOf(op)), m).1), CallEvent(m, op))
  {
  }

  lemma CacheKeptByExecute(parse: ExpiryParser, s: System, c: nat)
    requires CacheInv(parse, s) && CallsInv(s) && Enabled(s, Execute(c))
    ensures CacheInv(parse, Do(parse, s, Execute(c)))
  {
    var x := s.conns[c];
    assert PhaseInv(s.log, s.calls, x.phase);
    var op := s.calls[x.phase.call].op;
    var e := CallEvent(s.cache, op);
    ExecuteIsOneEvent(s.cache, x.req, op);
    LegalSnoc(parse, s.log, e);
    ViewSnoc(s.log, e);
  }

  lemma CacheKeptByPrune(parse: ExpiryParser, s: System, a: Step)
    requires CacheInv(parse, s) && Enabled(s, a) && (a.PruneStart? || a.PruneKey? || a.PruneFinish? || a.Tick?)
    ensures CacheInv(parse, Do(parse, s, a))
  {
    if a.PruneFinish? {
      var e := Pruned(s.mutex.removed, s.mutex.t0, s.now);
      LegalSnoc(parse, s.log, e);
      ViewSnoc(s.log, e);
    }
  }

  lemma CacheKept(parse: ExpiryParser, s: System, a: Step)
    requires CacheInv(parse, s) && CallsInv(s) && Enabled(s, a)
    ensures CacheInv(parse, Do(parse, s, a))
  {
    if a.Execute? { CacheKeptByExecute(parse, s, a.c); }
    else if a.PruneStart? || a.PruneKey? || a.PruneFinish? || a.Tick? { CacheKeptByPrune(parse, s, a); }
  }

  /** A new call is told apart from those in progress. */
  lemma CallsKeptByInvoke(s: System, c: nat, op: Op)
    requires CallsInv(s) && Enabled(s, Invoke(c, op))
    ensures CallsInv(DoInvoke(s, c, op))
  {
    var t := DoInvoke(s, c, op);
    forall d | d in t.conns ensures PhaseInv(t.log, t.calls, t.conns[d].phase) {
      assert PhaseInv(s.log, s.calls, s.conns[d].phase);
    }
    forall d, e | d in t.conns && e in t.conns && d != e ensures Apart(t.conns[d].phase, t.conns[e].phase) {
      assert PhaseInv(s.log, s.calls, s.conns[d].phase) && PhaseInv(s.log, s.calls, s.conns[e].phase);
      assert Apart(s.conns[d].phase, s.conns[e].phase);
    }
  }

  /** Changing the one call a connection is about leaves the other connections as they are. */
  lemma OthersKept(s: System, t: System, c: nat, n: nat)
    requires CallsInv(s) && c in s.conns && HasCall(s.conns[c].phase) && n == s.conns[c].phase.call < |s.calls|
    requires s.log <= t.log && |t.calls| == |s.calls| && t.calls == s.calls[n := t.calls[n]]
    requires t.conns.Keys == s.conns.Keys && forall d :: d in s.conns && d != c ==> t.conns[d] == s.conns[d]
    requires CallInv(t.log, t.calls[n]) && PhaseInv(t.log, t.calls, t.conns[c].phase)
    requires HasCall(t.conns[c].phase) ==> t.conns[c].phase.call == n
    ensures CallsInv(t)
  {
    forall m | 0 <= m < |t.calls| ensures CallInv(t.log, t.calls[m]) { assert CallInv(s.log, s.calls[m]); }
    forall d | d in t.conns ensures PhaseInv(t.log, t.calls, t.conns[d].phase) {
      if d != c {
        assert PhaseInv(s.log, s.calls, s.conns[d].phase);
        assert Apart(s.conns[d].phase, s.conns[c].phase);
      }
    }
    forall d, e | d in t.conns && e in t.conns && d != e ensures Apart(t.conns[d].phase, t.conns[e].phase) {
      assert Apart(s.conns[d].phase, s.conns[e].phase);
    }
  }

  lemma CallsKeptByExecute(s: System, c: nat)
    requires CallsInv(s) && Enabled(s, Execute(c))
    ensures CallsInv(DoExecute(s, c))
  {
    var x := s.conns[c];
    var n := x.phase.call;
    assert PhaseInv(s.log, s.calls, x.phase) && CallInv(s.log, s.calls[n]);
    ExecuteIsOneEvent(s.cache, x.req, s.calls[n].op);
    OthersKept(s, DoExecute(s, c), c, n);
  }

  lemma CallsKeptByReturn(parse: ExpiryParser, s: System, c: nat)
    requires CallsInv(s) && Enabled(s, Return(c))
    ensures CallsInv(Do(parse, s, Return(c)))
  {
    var n := s.conns[c].phase.call;
    assert PhaseInv(s.log, s.calls, s.conns[c].phase) && CallInv(s.log, s.calls[n]);
    OthersKept(s, Do(parse, s, Return(c)), c, n);
  }

  lemma CallsKeptByBreak(s: System, c: nat)
    requires CallsInv(s) && Enabled(s, Break(c))
    ensures CallsInv(DoBreak(s, c))
  {
    if Busy(s.conns[c].phase) {
      var n := s.conns[c].phase.call;
      assert PhaseInv(s.log, s.calls, s.conns[c].phase) && CallInv(s.log, s.calls[n]);
      OthersKept(s, DoBreak(s, c), c, n);
    } else {
      var t := DoBreak(s, c);
      forall d | d in t.conns ensures PhaseInv(t.log, t.calls, t.conns[d].phase) {
        assert PhaseInv(s.log, s.calls, s.conns[d].phase);
      }
      forall d, e | d in t.conns && e in t.conns && d != e ensures Apart(t.conns[d].phase, t.conns[e].phase) {
        assert Apart(s.conns[d].phase, s.conns[e].phase);
      }
    }
  }

  lemma CallsKeptByOther(parse: ExpiryParser, s: System, a: Step)
    requires CallsInv(s) && Enabled(s, a) && !a.Invoke? && !a.Execute? && !a.Return? && !a.Break?
    ensures CallsInv(Do(parse, s, a))
  {
    var t := Do(parse, s, a);
    assert s.log <= t.log;
    forall n | 0 <= n < |t.calls| ensures CallInv(t.log, t.calls[n]) { assert CallInv(s.log, s.calls[n]); }
    forall d | d in t.conns ensures PhaseInv(t.log, t.calls, t.conns[d].phase) {
      if d in s.conns { assert PhaseInv(s.log, s.calls, s.conns[d].phase); }
    }
    forall d, e | d in t.conns && e in t.conns && d != e ensures Apart(t.conns[d].phase, t.conns[e].phase) {
      if d in s.conns && e in s.conns { assert Apart(s.conns[d].phase, s.conns[e].phase); }
    }
  }

  lemma CallsKept(parse: ExpiryParser, s: System, a: Step)
    requires CallsInv(s) && Enabled(s, a)
    ensures CallsInv(Do(parse, s, a))
  {
    if a.Invoke? { CallsKeptByInvoke(s, a.c, a.op); }
    else if a.Execute? { CallsKeptByExecute(s, a.c); }
    else if a.Return? { CallsKeptByReturn(parse, s, a.c); }
    else if a.Break? { CallsKeptByBreak(s, a.c); }
    else { CallsKeptByOther(parse, s, a); }
  }

  /** Calls keep their events. */
  lemma OwnersStay(parse: ExpiryParser, s: System, a: Step)
    requires CallsInv(s) && Enabled(s, a) && !a.Execute?
    ensures var t := Do(parse, s, a);
      && s.log <= t.log && (forall i :: |s.log| <= i < |t.log| ==> t.log[i].Pruned?)
      && forall n: nat, i: nat :: Owns(t, n, i) <==> Owns(s, n, i)
  {
  }

  lemma EventsKeptByExecute(s: System, c: nat)
    requires CallsInv(s) && EventsInv(s) && Enabled(s, Execute(c))
    ensures EventsInv(DoExecute(s, c))
  {
    var x, t := s.conns[c], DoExecute(s, c);
    var n := x.phase.call;
    assert PhaseInv(s.log, s.calls, x.phase);
    ExecuteIsOneEvent(s.cache, x.req, s.calls[n].op);
    assert Owns(t, n, |s.log|);
    forall m: nat, i: nat | Owns(t, m, i)
      ensures if m == n then i == |s.log| else Owns(s, m, i) && i < |s.log|
    {
      if m != n { assert CallInv(s.log, s.calls[m]); }
    }
    forall i: nat | i < |t.log| && !t.log[i].Pruned? ensures exists m: nat :: Owns(t, m, i) {
      if i < |s.log| {
        var m: nat :| Owns(s, m, i);
        assert Owns(t, m, i);
      }
    }
  }

  lemma EventsKept(parse: ExpiryParser, s: System, a: Step)
    requires CallsInv(s) && EventsInv(s) && Enabled(s, a)
    ensures EventsInv(Do(parse, s, a))
  {
    if a.Execute? {
      EventsKeptByExecute(s, a.c);
    } else {
      OwnersStay(parse, s, a);
      var t := Do(parse, s, a);
      forall i: nat | i < |t.log| && !t.log[i].Pruned? ensures exists n: nat :: Owns(t, n, i) {
        var n: nat :| Owns(s, n, i);
        assert Owns(t, n, i);
      }
    }
  }

  ghost predicate Inv(parse: ExpiryParser, s: System) { CacheInv(parse, s) && CallsInv(s) && EventsInv(s) }

  lemma InvStep(parse: ExpiryParser, s: System, a: Step)
    requires Inv(parse, s) && Enabled(s, a)
    ensures Inv(parse, Do(parse, s, a))
  {
    CacheKept(parse, s, a);
    CallsKept(parse, s, a);
    EventsKept(parse, s, a);
  }

  lemma {:induction false} InvRun(parse: ExpiryParser, s: System, run: seq<Step>)
    requires Inv(parse, s) && IsRun(parse, s, run)
    ensures Inv(parse, After(parse, s, run))
    decreases |run|
  {
    if run != [] {
      InvStep(parse, s, run[0]);
      InvRun(parse, Do(parse, s, run[0]), run[1..]);
    }
  }

  lemma InvReachable(parse: ExpiryParser, s: System)
    requires Reachable(parse, s)
    ensures Inv(parse, s)
  {
    var run :| IsRun(parse, START, run) && After(parse, START, run) == s;
    InvRun(parse, START, run);
  }

  /******* Refinement of one atomic map *******/

  /** The atomic map gives this answer at any time and is left as it is. */
  ghost predicate AnswersThroughout(log: seq<Event>, op: Op, answer: Answer) {
    forall p :: 0 <= p <= |log| ==>
      match op
      case Retrieve(k) => answer == NoEntry && Fetched(View(log[..p]), k) == None
      case Store(e) => answer == Accepted && Stored(View(log[..p]), e) == View(log[..p])
  }

  /** What became of a call. */
  ghost predicate CallMeans(log: seq<Event>, c: Call) {
    && (c.index.Some? ==> c.invoked <= c.index.value < |log| && IsEventOf(c.op, log[c.index.value]))
    && (c.outcome.Some? && !c.outcome.value.answer.Error? ==>
          if c.index.Some?
          then c.index.value < c.outcome.value.returned <= |log|
               && EventFits(c.op, c.outcome.value.answer, log[c.index.value])
          else AnswersThroughout(log, c.op, c.outcome.value.answer))
  }

  /** Linearizability: the log is a legal history of one atomic map, and its lookups and stores are in
      one-to-one correspondence with the calls the agent executed. The event of a call comes after its
      invocation and, if the call returned without failing, before its return and carries its answer; a
      call that returned without an event was answered by the client as the atomic map answers at any
      time. A failed call has at most one event as well. */
  lemma Linearizable(parse: ExpiryParser, s: System)
    requires Reachable(parse, s)
    ensures Legal(parse, s.log)
    ensures forall i: nat :: i < |s.log| && !s.log[i].Pruned? ==> exists n: nat :: Owns(s, n, i)
    ensures forall m: nat, n: nat, i: nat :: Owns(s, m, i) && Owns(s, n, i) ==> m == n
    ensures forall n :: 0 <= n < |s.calls| ==> CallMeans(s.log, s.calls[n])
  {
    InvReachable(parse, s);
    forall n | 0 <= n < |s.calls| ensures CallMeans(s.log, s.calls[n]) {
      assert CallInv(s.log, s.calls[n]);
      if !Sendable(s.calls[n].op) { FilteredMeans(s.log, s.calls[n].op); }
    }
  }

  lemma FilteredMeans(log: seq<Event>, op: Op)
    requires !Sendable(op)
    ensures AnswersThroughout(log, op, FilteredAnswer(op))
  {
    forall p | 0 <= p <= |log| ensures WellFormed(View(log[..p])) { ViewIsWellFormed(log[..p]); }
  }

  predicate Succeeded(c: Call) { c.index.Some? && c.outcome.Some? && !c.outcome.value.answer.Error? }

  /** What the steps after a state leave as it was: calls that succeeded, and the order of invocation. */
  lemma {:induction false} LaterSteps(parse: ExpiryParser, s: System, run: seq<Step>)
    requires Inv(parse, s) && IsRun(parse, s, run)
    ensures var t := After(parse, s, run);
      && |s.log| <= |t.log| && |s.calls| <= |t.calls|
      && (forall n :: 0 <= n < |s.calls| && Succeeded(s.calls[n]) ==> t.calls[n] == s.calls[n])
      && forall n :: |s.calls| <= n < |t.calls| ==> |s.log| <= t.calls[n].invoked
    decreases |run|
  {
    if run != [] {
      var r := Do(parse, s, run[0]);
      LaterStep(parse, s, run[0]);
      InvStep(parse, s, run[0]);
      LaterSteps(parse, r, run[1..]);
      InvokedStays(parse, r, run[1..]);
    }
  }

  lemma LaterStep(parse: ExpiryParser, s: System, a: Step)
    requires CallsInv(s) && Enabled(s, a)
    ensures var t := Do(parse, s, a);
      && |s.log| <= |t.log| && |s.calls| <= |t.calls|
      && (forall n :: 0 <= n < |s.calls| && Succeeded(s.calls[n]) ==> t.calls[n] == s.calls[n])
      && (forall n :: 0 <= n < |s.calls| ==> t.calls[n].invoked == s.calls[n].invoked && t.calls[n].op == s.calls[n].op)
      && forall n :: |s.calls| <= n < |t.calls| ==> |s.log| <= t.calls[n].invoked
  {
    if a.Execute? || a.Return? || a.Break? { assert PhaseInv(s.log, s.calls, s.conns[a.c].phase); }
  }

  lemma {:induction false} InvokedStays(parse: ExpiryParser, s: System, run: seq<Step>)
    requires Inv(parse, s) && IsRun(parse, s, run)
    ensures var t := After(parse, s, run);
      |s.calls| <= |t.calls| && forall n :: 0 <= n < |s.calls| ==> t.calls[n].invoked == s.calls[n].invoked
    decreases |run|
  {
    if run != [] {
      LaterStep(parse, s, run[0]);
      InvStep(parse, s, run[0]);
      InvokedStays(parse, Do(parse, s, run[0]), run[1..]);
    }
  }

  /** Calls take effect in real-time order: if a call has succeeded at some point of a run, every call
      invoked after that point that the agent executes has its event after it. */
  lemma RealTimeOrder(parse: ExpiryParser, s: System, run: seq<Step>, a: nat, b: nat)
    requires Reachable(parse, s) && IsRun(parse, s, run)
    requires a < |s.calls| && Succeeded(s.calls[a])
    requires |s.calls| <= b < |After(parse, s, run).calls| && After(parse, s, run).calls[b].index.Some?
    ensures var t := After(parse, s, run);
      a < |t.calls| && t.calls[a] == s.calls[a] && t.calls[a].index.value < t.calls[b].index.value
  {
    InvReachable(parse, s);
    LaterSteps(parse, s, run);
    InvRun(parse, s, run);
    var t := After(parse, s, run);
    assert CallInv(s.log, s.calls[a]) && CallInv(t.log, t.calls[b]);
  }

  /** Each retrieve returns the response of the latest store for its key that was executed before it and
      not removed by a prune; it misses exactly when there is none. */
  lemma RetrieveReturnsLatestStore(parse: ExpiryParser, s: System, n: nat)
    requires Inv(parse, s) && n < |s.calls| && s.calls[n].op.Retrieve? && Succeeded(s.calls[n])
    ensures var c := s.calls[n]; var g := c.index.value;
      && g < |s.log|
      && (forall i: nat :: LatestStore(s.log[..g], i, c.op.key) ==> c.outcome.value.answer == Hit(s.log[i].entry.response))
      && (c.outcome.value.answer == NoEntry <==> forall i: nat :: !LatestStore(s.log[..g], i, c.op.key))
  {
    assert CallInv(s.log, s.calls[n]);
    LookupsReturnLatestStore(parse, s.log, s.calls[n].index.value);
  }

  /** A hit is the response of an executed store call for the same key. */
  lemma HitsComeFromStores(parse: ExpiryParser, s: System, n: nat) returns (m: nat)
    requires Inv(parse, s) && n < |s.calls| && s.calls[n].op.Retrieve? && s.calls[n].outcome.Some?
    requires s.calls[n].outcome.value.answer.Hit?
    ensures m < |s.calls| && s.calls[m].op.Store? && s.calls[m].op.entry.key == s.calls[n].op.key
    ensures s.calls[m].op.entry.response == s.calls[n].outcome.value.answer.response
    ensures s.calls[m].index.Some? && s.calls[n].index.Some? && s.calls[m].index.value < s.calls[n].index.value
  {
    assert CallInv(s.log, s.calls[n]);
    RetrieveReturnsLatestStore(parse, s, n);
    var g := s.calls[n].index.value;
    var i: nat :| LatestStore(s.log[..g], i, s.calls[n].op.key);
    assert s.log[..g][i] == s.log[i];
    m :| Owns(s, m, i);
    assert CallInv(s.log, s.calls[m]);
  }

  /** No response that was expired when a completed prune began is handed out after that prune. */
  lemma RetrieveIsFresh(parse: ExpiryParser, s: System, n: nat, p: nat)
    requires Reachable(parse, s) && n < |s.calls| && s.calls[n].op.Retrieve? && Succeeded(s.calls[n])
    requires s.calls[n].outcome.value.answer.Hit?
    requires p < s.calls[n].index.value && p < |s.log| && s.log[p].Pruned?
    ensures exists i: nat ::
      && s.calls[n].index.value <= |s.log| && LatestStore(s.log[..s.calls[n].index.value], i, s.calls[n].op.key)
      && s.log[i].entry.response == s.calls[n].outcome.value.answer.response
      && (i > p || LivesAt(parse, s.log[i].entry, s.log[p].t0))
  {
    InvReachable(parse, s);
    RetrieveReturnsLatestStore(parse, s, n);
    assert CallInv(s.log, s.calls[n]);
    var g := s.calls[n].index.value;
    var i: nat :| LatestStore(s.log[..g], i, s.calls[n].op.key);
    LookupsAreFresh(parse, s.log, p, g, i);
    assert s.log[..g][i] == s.log[i];
  }
}

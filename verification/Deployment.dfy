/** Any number of agent processes that share one lock file and one socket path. Each process goes
    through the start-up of `NewCachingAgent` and then runs the agent of module `Agent`. The
    operating system drops the lock of a process that ends, and closing a listener unlinks its path. */
module Deployment {
  import opened Wrappers
  import Agent
  import AgentSafety
  import AgentShutdown

  type Pid = nat

  datatype Proc =
    | Opening                       // about to lock the opened lock file
    | Locked                        // next: remove a left-over socket
    | Cleared                       // next: listen
    | Failing(holding: bool)        // start-up returned an error, the process is about to exit
    | Serving(agent: Agent.State)   // Serve, then cleanup
    | Gone

  /** `lock` is the holder of the exclusive lock, `socket` the process whose listener the socket path
      was bound by. */
  datatype World = World(lock: Option<Pid>, socket: Option<Pid>, procs: map<Pid, Proc>)

  const START := World(None, None, map[])

  datatype Event =
    | Launch(p: Pid) | TryLock(p: Pid) | SetupFails(p: Pid)
    | ClearSocket(p: Pid) | ClearFails(p: Pid) | Bind(p: Pid, cfg: Agent.Config) | BindFails(p: Pid)
    | Run(p: Pid, a: Agent.Action) | Exit(p: Pid) | Crash(p: Pid)

  predicate Enabled(w: World, e: Event) {
    if e.Launch? then e.p !in w.procs else
      && e.p in w.procs
      && var x := w.procs[e.p];
         match e
         case Launch(_) => false
         case TryLock(_) => x.Opening?
         case SetupFails(_) => x.Opening? || x.Locked?
         case ClearSocket(_) => x.Locked?
         case ClearFails(_) => x.Locked?
         case Bind(_, _) => x.Cleared? && w.socket.None?
         case BindFails(_) => x.Cleared?
         case Run(_, a) => x.Serving? && Agent.Enabled(x.agent, a)
         case Exit(_) => x.Failing? || (x.Serving? && x.agent.main.Released?)
         case Crash(_) => !x.Gone?
  }

  function At(w: World, p: Pid, x: Proc): World { w.(procs := w.procs[p := x]) }

  function Dropped(lock: Option<Pid>, p: Pid): Option<Pid> { if lock == Some(p) then None else lock }

  predicate ClosesListener(x: Proc, a: Agent.Action) { x.Serving? && a.MainStep? && x.agent.main.CloseListener? }
  predicate ReleasesLock(x: Proc, a: Agent.Action) { x.Serving? && a.MainStep? && x.agent.main.ReleaseLock? }

  function Do(w: World, e: Event): World
    requires Enabled(w, e)
  {
    match e
    case Launch(p) => At(w, p, Opening)
    case TryLock(p) => if w.lock.None? then At(w, p, Locked).(lock := Some(p)) else At(w, p, Failing(false))
    case SetupFails(p) => At(w, p, Failing(w.procs[p].Locked?))
    case ClearSocket(p) => At(w, p, Cleared).(socket := None)
    case ClearFails(p) => At(w, p, Cleared)
    case Bind(p, cfg) => At(w, p, Serving(Agent.Init(cfg))).(socket := Some(p))
    case BindFails(p) => At(w, p, Failing(true))
    case Run(p, a) =>
      var x := w.procs[p];
      At(w, p, Serving(Agent.Do(x.agent, a)))
        .(socket := if ClosesListener(x, a) then None else w.socket,
          lock := if ReleasesLock(x, a) then Dropped(w.lock, p) else w.lock)
    case Exit(p) => At(w, p, Gone).(lock := Dropped(w.lock, p))
    case Crash(p) => At(w, p, Gone).(lock := Dropped(w.lock, p))
  }

  predicate IsRun(w: World, run: seq<Event>)
    decreases |run|
  {
    run == [] || (Enabled(w, run[0]) && IsRun(Do(w, run[0]), run[1..]))
  }

  function After(w: World, run: seq<Event>): World
    requires IsRun(w, run)
    decreases |run|
  {
    if run == [] then w else After(Do(w, run[0]), run[1..])
  }

  lemma {:induction false} RunConcat(w: World, run: seq<Event>, more: seq<Event>)
    requires IsRun(w, run) && IsRun(After(w, run), more)
    ensures IsRun(w, run + more) && After(w, run + more) == After(After(w, run), more)
    decreases |run|
  {
    if run == [] {
      assert run + more == more;
    } else {
      RunConcat(Do(w, run[0]), run[1..], more);
      assert (run + more)[1..] == run[1..] + more;
    }
  }

  lemma Extend(w: World, run: seq<Event>, e: Event) returns (longer: seq<Event>, v: World)
    requires IsRun(w, run) && Enabled(After(w, run), e)
    ensures longer == run + [e] && IsRun(w, longer) && v == Do(After(w, run), e) == After(w, longer)
  {
    assert [e][1..] == [];
    RunConcat(w, run, [e]);
    longer, v := run + [e], Do(After(w, run), e);
  }

  ghost predicate Reachable(w: World) {
    exists run: seq<Event> :: IsRun(START, run) && After(START, run) == w
  }

  /******* The invariant *******/

  /** Between acquiring and releasing the lock. */
  predicate Holds(x: Proc) {
    x.Locked? || x.Cleared? || (x.Failing? && x.holding) || (x.Serving? && !x.agent.main.Released?)
  }

  ghost predicate ProcInv(w: World, p: Pid, x: Proc) {
    && (Holds(x) <==> w.lock == Some(p))
    && (x.Serving? ==>
          && AgentSafety.Inv(x.agent)
          && (x.agent.listening ==> w.socket == Some(p))
          && (Holds(x) && !x.agent.listening ==> w.socket == None))
    && (w.socket == Some(p) ==> x.Gone? || (x.Serving? && x.agent.listening))
  }

  ghost predicate Inv(w: World) {
    && (forall p :: p in w.procs ==> ProcInv(w, p, w.procs[p]))
    && (w.lock.Some? ==> w.lock.value in w.procs)
    && (w.socket.Some? ==> w.socket.value in w.procs)
  }

  lemma InvStarting(w: World, e: Event)
    requires Inv(w) && Enabled(w, e) && (e.Launch? || e.TryLock? || e.SetupFails? || e.ClearSocket? || e.ClearFails?)
    ensures Inv(Do(w, e))
  {
  }

  lemma InvBinding(w: World, e: Event)
    requires Inv(w) && Enabled(w, e) && (e.Bind? || e.BindFails?)
    ensures Inv(Do(w, e))
  {
    if e.Bind? { AgentSafety.InvInit(e.cfg); }
  }

  lemma InvEnding(w: World, e: Event)
    requires Inv(w) && Enabled(w, e) && (e.Exit? || e.Crash?)
    ensures Inv(Do(w, e))
  {
  }

  /** An agent step keeps what ties the agent to the lock and the path. */
  lemma InvAgentStep(w: World, p: Pid, a: Agent.Action)
    requires Inv(w) && Enabled(w, Run(p, a))
    ensures Inv(Do(w, Run(p, a)))
  {
    var s := w.procs[p].agent;
    assert ProcInv(w, p, w.procs[p]);
    AgentSafety.InvStep(s, a);
    ListenerFrame(s, a);
    var v := Do(w, Run(p, a));
    assert ProcInv(v, p, v.procs[p]);
    forall q | q in v.procs && q != p ensures ProcInv(v, q, v.procs[q]) { assert ProcInv(w, q, w.procs[q]); }
  }

  lemma ListenerFrame(s: Agent.State, a: Agent.Action)
    requires Agent.Enabled(s, a)
    ensures var t := Agent.Do(s, a);
      && t.listening == (s.listening && !(a.MainStep? && s.main.CloseListener?))
      && (t.main.Released? <==> s.main.Released? || (a.MainStep? && s.main.ReleaseLock?))
  {
  }

  lemma InvStep(w: World, e: Event)
    requires Inv(w) && Enabled(w, e)
    ensures Inv(Do(w, e))
  {
    match e
    case Run(p, a) => InvAgentStep(w, p, a);
    case Bind(_, _) => InvBinding(w, e);
    case BindFails(_) => InvBinding(w, e);
    case Exit(_) => InvEnding(w, e);
    case Crash(_) => InvEnding(w, e);
    case _ => InvStarting(w, e);
  }

  lemma {:induction false} InvRun(w: World, run: seq<Event>)
    requires Inv(w) && IsRun(w, run)
    ensures Inv(After(w, run))
    decreases |run|
  {
    if run != [] {
      InvStep(w, run[0]);
      InvRun(Do(w, run[0]), run[1..]);
    }
  }

  lemma InvReachable(w: World)
    requires Reachable(w)
    ensures Inv(w)
  {
    var run :| IsRun(START, run) && After(START, run) == w;
    InvRun(START, run);
  }

  /******* Guarantees over all runs *******/

  /** At most one process is between lock acquisition and lock release. */
  lemma MutualExclusion(w: World, p: Pid, q: Pid)
    requires Reachable(w) && p in w.procs && q in w.procs && Holds(w.procs[p]) && Holds(w.procs[q])
    ensures p == q && w.lock == Some(p)
  {
    InvReachable(w);
    assert ProcInv(w, p, w.procs[p]) && ProcInv(w, q, w.procs[q]);
  }

  /** Only the lock holder removes, binds or unlinks the socket path. */
  lemma OnlyTheHolderTouchesTheSocket(w: World, e: Event)
    requires Reachable(w) && Enabled(w, e)
    requires Do(w, e).socket != w.socket
    ensures w.lock == Some(e.p)
  {
    InvReachable(w);
    assert ProcInv(w, e.p, w.procs[e.p]);
  }

  /** A closing agent finds its own socket at the path and still holds the lock, so it never unlinks
      the socket of a successor. */
  lemma ClosingUnlinksItsOwnSocket(w: World, p: Pid, a: Agent.Action)
    requires Reachable(w) && Enabled(w, Run(p, a)) && ClosesListener(w.procs[p], a)
    ensures w.socket == Some(p) && w.lock == Some(p)
    ensures Do(w, Run(p, a)).socket == None && Do(w, Run(p, a)).lock == Some(p)
  {
    InvReachable(w);
    assert ProcInv(w, p, w.procs[p]);
  }

  /** The lock is released by an agent whose listener is closed and whose goroutines are all done. */
  lemma ReleaseComesLast(w: World, p: Pid, a: Agent.Action)
    requires Reachable(w) && Enabled(w, Run(p, a)) && ReleasesLock(w.procs[p], a)
    ensures w.lock == Some(p) && w.socket == None && Do(w, Run(p, a)).lock == None
    ensures !w.procs[p].agent.listening && Agent.Live(w.procs[p].agent) == 0
  {
    InvReachable(w);
    assert ProcInv(w, p, w.procs[p]);
  }

  /** A client that dials the path reaches the lock holder, or a dead process. */
  lemma DialReachesTheHolder(w: World)
    requires Reachable(w) && w.socket.Some?
    ensures var p := w.socket.value;
      && p in w.procs
      && (w.procs[p].Gone? || (w.lock == Some(p) && w.procs[p].Serving? && w.procs[p].agent.listening))
  {
    InvReachable(w);
    var p := w.socket.value;
    assert ProcInv(w, p, w.procs[p]);
  }

  /** While an agent listens, no other process changes the path or takes the lock. */
  lemma ListeningIsUndisturbed(w: World, p: Pid, e: Event)
    requires Reachable(w) && p in w.procs && w.procs[p].Serving? && w.procs[p].agent.listening
    requires Enabled(w, e) && e.p != p
    ensures Do(w, e).socket == Some(p) && Do(w, e).lock == Some(p) && Do(w, e).procs[p] == w.procs[p]
  {
    InvReachable(w);
    assert ProcInv(w, p, w.procs[p]);
    if e.p in w.procs { assert ProcInv(w, e.p, w.procs[e.p]); }
  }

  /** An attempt to lock gets the lock exactly when nobody holds it, and takes it from nobody. */
  lemma TryLockIff(w: World, p: Pid)
    requires Reachable(w) && Enabled(w, TryLock(p))
    ensures var v := Do(w, TryLock(p));
      && (v.lock == Some(p) <==> w.lock == None) && (Holds(v.procs[p]) <==> w.lock == None)
      && (w.lock.Some? ==> v.lock == w.lock && v.procs[p].Failing?)
  {
    InvReachable(w);
    assert ProcInv(w, p, w.procs[p]);
  }

  /** Whenever nobody holds the lock, any fresh process can start and serve, whatever earlier agents left
      at the socket path. */
  lemma FreshProcessServes(w: World, p: Pid, cfg: Agent.Config) returns (run: seq<Event>)
    requires Reachable(w) && w.lock == None && p !in w.procs
    ensures IsRun(w, run) && (forall i :: 0 <= i < |run| ==> run[i].p == p)
    ensures var v := After(w, run);
      && v.lock == Some(p) && v.socket == Some(p) && p in v.procs && v.procs[p] == Serving(Agent.Init(cfg))
      && forall q :: q in w.procs ==> q in v.procs && v.procs[q] == w.procs[q]
  {
    var v;
    run, v := Extend(w, [], Launch(p));
    run, v := Extend(w, run, TryLock(p));
    run, v := Extend(w, run, ClearSocket(p));
    run, v := Extend(w, run, Bind(p, cfg));
  }

  /** A crash frees the lock and leaves the socket where it is. */
  lemma CrashFreesTheLock(w: World, p: Pid)
    requires Reachable(w) && Enabled(w, Crash(p))
    ensures var v := Do(w, Crash(p));
      && v.lock != Some(p) && (Holds(w.procs[p]) ==> v.lock == None) && v.socket == w.socket
      && forall q :: q in w.procs && q != p ==> v.procs[q] == w.procs[q]
  {
    InvReachable(w);
    assert ProcInv(w, p, w.procs[p]);
  }

  /** Whether the removal of a left-over socket fails is not asked: with the path free the agent binds all
      the same, and with a socket left there it gives up and releases the lock. */
  lemma FailedRemovalIff(w: World, p: Pid, cfg: Agent.Config)
    requires Reachable(w) && Enabled(w, ClearFails(p))
    ensures var v := Do(w, ClearFails(p));
      && v.lock == Some(p) && v.socket == w.socket
      && (Enabled(v, Bind(p, cfg)) <==> w.socket == None)
      && Enabled(v, BindFails(p)) && Enabled(Do(v, BindFails(p)), Exit(p))
      && Do(Do(v, BindFails(p)), Exit(p)).lock == None
  {
    InvReachable(w);
    assert ProcInv(w, p, w.procs[p]);
  }

  /** The left-over socket of a dead agent never keeps a successor from listening, provided its
      removal succeeds. */
  lemma SuccessorCanBind(w: World, p: Pid, cfg: Agent.Config)
    requires Reachable(w) && p in w.procs && w.procs[p].Locked?
    ensures Enabled(w, ClearSocket(p)) && Enabled(Do(w, ClearSocket(p)), Bind(p, cfg))
    ensures var v := Do(Do(w, ClearSocket(p)), Bind(p, cfg)); v.socket == Some(p) && v.lock == Some(p)
  {
    InvReachable(w);
    assert ProcInv(w, p, w.procs[p]);
  }

  /** An agent whose accept goroutine is stuck keeps the lock for ever, unless it is killed: no other
      process ever gets past its attempt to lock, and nobody listens. */
  lemma {:induction false} StuckAgentBlocksSuccessors(w: World, p: Pid, run: seq<Event>)
    requires Inv(w) && p in w.procs && w.procs[p].Serving? && AgentShutdown.AcceptStuck(w.procs[p].agent)
    requires IsRun(w, run) && Crash(p) !in run
    ensures var v := After(w, run);
      && v.lock == Some(p) && v.socket == None
      && forall q :: q in v.procs && q != p ==> !Holds(v.procs[q])
    decreases |run|
  {
    if run == [] {
      assert ProcInv(w, p, w.procs[p]);
      forall q | q in w.procs && q != p ensures !Holds(w.procs[q]) { assert ProcInv(w, q, w.procs[q]); }
    } else {
      var e := run[0];
      InvStep(w, e);
      if e.p == p {
        assert e.Run?;
        AgentShutdown.StuckForEver(w.procs[p].agent, [e.a]);
        assert [e.a][1..] == [];
      }
      StuckAgentBlocksSuccessors(Do(w, e), p, run[1..]);
    }
  }
}

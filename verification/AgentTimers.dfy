/** How far ahead the idle timer can be set, and exactly when it is left behind by a shutdown. */
module AgentTimers {
  import opened Wrappers
  import opened Agent
  import opened AgentSafety
  import opened AgentShutdown

  /** The longest the idle goroutine can be kept waiting. */
  function Patience(cfg: Config): nat { if cfg.idle > 0 then cfg.idle else 0 }

  /** A pending Reset carries one of the two values `idleTimeout` ever has. */
  predicate ReadOk(cfg: Config, h: HandlerPc) { h.ResetIdleTimer? ==> h.d == cfg.idle || h.d == FORCED }

  ghost predicate Bounded(s: State) {
    && (s.idleTimer.Some? ==> s.idleTimer.value <= s.now + Patience(s.cfg))
    && (s.idleTimeout == s.cfg.idle || s.idleTimeout == FORCED)
    && forall i :: 0 <= i < |s.handlers| ==> ReadOk(s.cfg, s.handlers[i])
  }

  lemma BoundedShutdown(s: State, pc: ShutdownPc, g: Goroutine)
    requires Bounded(s)
    ensures Bounded(DoShutdown(s, pc, g)) && DoShutdown(s, pc, g).handlers == s.handlers
  {
  }

  lemma BoundedAt(s: State, i: nat, h: HandlerPc)
    requires Bounded(s) && i < |s.handlers| && ReadOk(s.cfg, h)
    ensures Bounded(At(s, i, h))
  {
  }

  lemma BoundedReset(s: State, d: int)
    requires Bounded(s) && (d == s.cfg.idle || d == FORCED)
    ensures Bounded(s.(idleTimer := Some(s.now + d)))
  {
  }

  lemma BoundedHandler(s: State, i: nat)
    requires Bounded(s) && Enabled(s, HandlerStep(i))
    ensures Bounded(Do(s, HandlerStep(i)))
  {
    var h := s.handlers[i];
    assert ReadOk(s.cfg, h);
    if h.HandlerShutdown? {
      BoundedShutdown(s, h.pc, Handler(i));
      BoundedAt(DoShutdown(s, h.pc, Handler(i)), i, Do(s, HandlerStep(i)).handlers[i]);
    } else if h.ReadTimeout? && s.cfg.split {
      BoundedAt(s, i, ResetIdleTimer(h.m, s.idleTimeout));
    } else if h.ReadTimeout? {
      BoundedReset(s, s.idleTimeout);
      BoundedAt(s.(idleTimer := Some(s.now + s.idleTimeout)), i, Dispatch(h.m));
    } else if h.ResetIdleTimer? {
      BoundedReset(s, h.d);
      BoundedAt(s.(idleTimer := Some(s.now + h.d)), i, Dispatch(h.m));
    } else {
      BoundedAt(s, i, Do(s, HandlerStep(i)).handlers[i]);
    }
  }

  lemma BoundedTimers(s: State, a: Action)
    requires Bounded(s) && Enabled(s, a) && (a.IdleStep? || a.PruneStep?)
    ensures Bounded(Do(s, a))
  {
    if a.IdleStep? && s.idle.IdleShutdown? { BoundedShutdown(s, s.idle.pc, IdleGoroutine); }
  }

  lemma BoundedOther(s: State, a: Action)
    requires Bounded(s) && Enabled(s, a) && !a.HandlerStep? && !a.IdleStep? && !a.PruneStep?
    ensures Bounded(Do(s, a))
  {
  }

  lemma BoundedStep(s: State, a: Action)
    requires Bounded(s) && Enabled(s, a)
    ensures Bounded(Do(s, a))
  {
    if a.HandlerStep? { BoundedHandler(s, a.i); }
    else if a.IdleStep? || a.PruneStep? { BoundedTimers(s, a); }
    else { BoundedOther(s, a); }
  }

  lemma {:induction false} BoundedRun(s: State, run: seq<Action>)
    requires Bounded(s) && IsRun(s, run)
    ensures Bounded(After(s, run))
    decreases |run|
  {
    if run != [] {
      BoundedStep(s, run[0]);
      BoundedRun(Do(s, run[0]), run[1..]);
    }
  }

  lemma BoundedReachable(s: State)
    requires Reachable(s)
    ensures Bounded(s)
  {
    var cfg, run :| IsRun(Init(cfg), run) && After(Init(cfg), run) == s;
    BoundedRun(Init(cfg), run);
  }

  /** Once the shutdown has reset the idle timer, the idle goroutine can be left waiting only by a split
      re-arm with a positive configured timeout, and for no longer than that timeout. */
  lemma IdleWakeup(s: State)
    requires Reachable(s) && s.progress >= 3
    ensures IdleStranded(s) ==>
              s.cfg.split && s.cfg.idle > 0 && s.idleTimer.Some? && s.idleTimer.value <= s.now + s.cfg.idle
  {
    InvReachable(s);
    BoundedReachable(s);
  }

  /******* Which step strands the idle goroutine *******/

  /** Handler `i` has read a positive timeout and is about to pass it to Reset. */
  predicate Rearms(s: State, i: nat) {
    i < |s.handlers| && s.handlers[i].ResetIdleTimer? && s.handlers[i].d > 0
  }

  ghost predicate Disarmed(s: State) { forall i: nat :: !Rearms(s, i) }

  lemma StrandedByHandler(s: State, i: nat)
    requires Inv(s) && s.progress >= 3 && !IdleStranded(s) && Enabled(s, HandlerStep(i))
    ensures IdleStranded(Do(s, HandlerStep(i))) <==> s.idle.IdleRecv? && Rearms(s, i)
    ensures !s.idle.IdleRecv? ==> !Do(s, HandlerStep(i)).idle.IdleRecv?
  {
    assert HandlerOk(s.winner, s.progress, s.cfg.split, i, s.handlers[i]);
  }

  /** After the shutdown's Reset, the one step that strands the idle goroutine is the Reset of a handler
      that read the timeout before the shutdown wrote it. */
  lemma StrandedBy(s: State, a: Action)
    requires Inv(s) && s.progress >= 3 && !IdleStranded(s) && Enabled(s, a)
    ensures IdleStranded(Do(s, a)) <==> s.idle.IdleRecv? && a.HandlerStep? && Rearms(s, a.i)
    ensures !s.idle.IdleRecv? ==> !Do(s, a).idle.IdleRecv?
  {
    if a.HandlerStep? { StrandedByHandler(s, a.i); }
  }

  /** Reads after the shutdown's write yield the forced value, so no re-arm comes up later. */
  lemma HandlerReadsForced(s: State, i: nat)
    requires Inv(s) && s.progress >= 2 && Enabled(s, HandlerStep(i))
    ensures var t := Do(s, HandlerStep(i)); |t.handlers| == |s.handlers| && !Rearms(t, i)
    ensures forall j: nat :: j < |s.handlers| && j != i ==> Do(s, HandlerStep(i)).handlers[j] == s.handlers[j]
  {
  }

  lemma DisarmedHandler(s: State, i: nat)
    requires Inv(s) && s.progress >= 2 && Disarmed(s) && Enabled(s, HandlerStep(i))
    ensures Disarmed(Do(s, HandlerStep(i)))
  {
    HandlerReadsForced(s, i);
    forall j: nat ensures !Rearms(Do(s, HandlerStep(i)), j) { assert !Rearms(s, j); }
  }

  lemma DisarmedOther(s: State, a: Action)
    requires Inv(s) && s.progress >= 2 && Disarmed(s) && Enabled(s, a) && !a.HandlerStep?
    ensures Disarmed(Do(s, a))
  {
    var t := Do(s, a);
    forall j: nat ensures !Rearms(t, j) { assert !Rearms(s, j); }
  }

  lemma ProgressGrows(s: State, a: Action)
    requires Inv(s) && Enabled(s, a)
    ensures s.progress <= Do(s, a).progress
  {
    if a.HandlerStep? { assert HandlerOk(s.winner, s.progress, s.cfg.split, a.i, s.handlers[a.i]); }
  }

  /** The idle goroutine is past its receive, or nothing can re-arm its timer any more. */
  ghost predicate Awake(s: State) {
    s.progress >= 3 && !IdleStranded(s) && (s.idle.IdleRecv? ==> Disarmed(s))
  }

  lemma AwakeStep(s: State, a: Action)
    requires Inv(s) && Awake(s) && Enabled(s, a)
    ensures Awake(Do(s, a))
  {
    ProgressGrows(s, a);
    StrandedBy(s, a);
    if s.idle.IdleRecv? {
      if a.HandlerStep? { DisarmedHandler(s, a.i); } else { DisarmedOther(s, a); }
    }
  }

  lemma {:induction false} AwakeRun(s: State, run: seq<Action>)
    requires Inv(s) && Awake(s) && IsRun(s, run)
    ensures Awake(After(s, run))
    decreases |run|
  {
    if run != [] {
      AwakeStep(s, run[0]);
      InvStep(s, run[0]);
      AwakeRun(Do(s, run[0]), run[1..]);
    }
  }

  /** The run ends with the idle goroutine stranded. */
  ghost predicate Strands(s: State, run: seq<Action>) { IsRun(s, run) && IdleStranded(After(s, run)) }

  /** From a state after the shutdown's Reset, some run strands the idle goroutine exactly when it already
      is stranded, or still waits while a handler is about to re-arm its timer. */
  lemma CanStrandIff(s: State)
    requires Inv(s) && s.progress >= 3
    ensures (exists run: seq<Action> :: Strands(s, run))
       <==> IdleStranded(s) || (s.idle.IdleRecv? && exists i: nat :: Rearms(s, i))
  {
    if IdleStranded(s) {
      assert Strands(s, []);
    } else if s.idle.IdleRecv? && exists i: nat :: Rearms(s, i) {
      var i: nat :| Rearms(s, i);
      StrandedBy(s, HandlerStep(i));
      RunOne(s, HandlerStep(i));
      assert Strands(s, [HandlerStep(i)]);
    } else {
      forall run: seq<Action> | IsRun(s, run) ensures !Strands(s, run) { AwakeRun(s, run); }
    }
  }
}

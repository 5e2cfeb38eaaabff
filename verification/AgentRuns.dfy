/** Runs for every configuration that admits them: an idle shutdown, a scheduled prune, and two that end
    badly, with a connection handed over too late and with a re-armed idle timer. */
module AgentRuns {
  import opened Wrappers
  import opened Agent
  import opened AgentSafety
  import opened AgentShutdown
  import opened AgentTimers

  lemma Go(s: State, a: Action) returns (t: State)
    requires Reachable(s) && Enabled(s, a)
    ensures Reachable(t) && t == Do(s, a)
  {
    var cfg, run :| IsRun(Init(cfg), run) && After(Init(cfg), run) == s;
    RunOne(s, a);
    RunConcat(Init(cfg), run, [a]);
    t := Do(s, a);
  }

  /** The agent serves: all three goroutines started, nothing received yet. */
  function Serving(cfg: Config): State {
    Init(cfg).(idleTimer := Some(cfg.idle), pruneTimer := Some(0), wg := 3,
               main := Select, accept := Accepting, idle := IdleRecv, prune := PruneLoop)
  }

  lemma Boot(cfg: Config)
    ensures Reachable(Serving(cfg))
  {
    assert IsRun(Init(cfg), []) && After(Init(cfg), []) == Init(cfg);
    var s1 := Go(Init(cfg), MainStep);
    var s2 := Go(s1, MainStep);
    var s3 := Go(s2, MainStep);
    var s4 := Go(s3, MainStep);
    var s5 := Go(s4, MainStep);
    var s6 := Go(s5, MainStep);
    var s7 := Go(s6, MainStep);
  }

  /** One more client is connected. */
  function Accepted(s: State): State { s.(handlers := s.handlers + [Decode], wg := s.wg + 1) }

  lemma Accept(s: State)
    requires Reachable(s) && s.main.Select? && s.accept.Accepting? && s.listening
    ensures Reachable(Accepted(s))
  {
    var s1 := Go(s, Connect);
    var s2 := Go(s1, ReceiveConn);
    var s3 := Go(s2, MainStep);
    var s4 := Go(s3, MainStep);
  }

  /** Handler `i` has run `handleShutdown` to its end. */
  function ShutDown(s: State, i: nat): State
    requires i < |s.handlers|
  {
    s.(started := true, idleTimeout := FORCED, pruneInterval := FORCED, idleTimer := Some(s.now + FORCED),
       pruneTimer := Some(s.now + FORCED), closes := s.closes + 1, winner := Some(Handler(i)), progress := 6,
       handlers := s.handlers[i := Respond])
  }

  lemma RunShutdown(s: State, i: nat)
    requires Reachable(s) && !s.started && i < |s.handlers| && s.handlers[i] == Dispatch(Shutdown)
    ensures Reachable(ShutDown(s, i))
  {
    var t := Go(s, HandlerStep(i));
    t := Go(t, HandlerStep(i));
    assert t.handlers == s.handlers[i := HandlerShutdown(WriteIdle)];
    var u := ForceIdle(t, i);
    FinishShutdown(u, i);
    assert u.handlers[i := Respond] == s.handlers[i := Respond];
  }

  lemma ForceIdle(s: State, i: nat) returns (t: State)
    requires Reachable(s) && i < |s.handlers| && s.handlers[i] == HandlerShutdown(WriteIdle)
    ensures Reachable(t)
    ensures t == s.(idleTimeout := FORCED, idleTimer := Some(s.now + FORCED), progress := 3,
                    handlers := s.handlers[i := HandlerShutdown(WritePrune)])
  {
    t := Go(s, HandlerStep(i));
    t := Go(t, HandlerStep(i));
    assert t.handlers == s.handlers[i := HandlerShutdown(WritePrune)];
  }

  lemma FinishShutdown(s: State, i: nat)
    requires Reachable(s) && i < |s.handlers| && s.handlers[i] == HandlerShutdown(WritePrune)
    ensures Reachable(s.(pruneInterval := FORCED, pruneTimer := Some(s.now + FORCED), closes := s.closes + 1,
                         progress := 6, handlers := s.handlers[i := Respond]))
  {
    var t := Go(s, HandlerStep(i));
    t := Go(t, HandlerStep(i));
    t := Go(t, HandlerStep(i));
    assert t.handlers == s.handlers[i := Respond];
  }

  lemma Request(s: State, i: nat, m: Method) returns (t: State)
    requires Reachable(s) && i < |s.handlers| && s.handlers[i].Decode?
    ensures Reachable(t) && t == s.(handlers := s.handlers[i := Dispatch(m)], idleTimer := Some(s.now + s.idleTimeout))
  {
    var u := Go(s, Deliver(i, m));
    assert u == s.(handlers := s.handlers[i := ReadTimeout(m)]);
    t := ReadAndReset(u, i, m);
    assert t.handlers == s.handlers[i := Dispatch(m)];
  }

  lemma ReadAndReset(s: State, i: nat, m: Method) returns (t: State)
    requires Reachable(s) && i < |s.handlers| && s.handlers[i] == ReadTimeout(m)
    ensures Reachable(t) && t == s.(handlers := s.handlers[i := Dispatch(m)], idleTimer := Some(s.now + s.idleTimeout))
  {
    t := Go(s, HandlerStep(i));
    if s.cfg.split {
      t := Go(t, HandlerStep(i));
      assert t.handlers == s.handlers[i := Dispatch(m)];
    }
  }

  /** For every configuration some run leaves the accept goroutine stuck: a client connects after
      the channel is closed and before the main goroutine has left its loop. */
  lemma AcceptCanGetStuck(cfg: Config) returns (s: State)
    ensures Reachable(s) && s.cfg == cfg && s.closes == 1 && AcceptStuck(s)
  {
    Boot(cfg);
    s := Serving(cfg);
    Accept(s);
    s := Request(Accepted(s), 0, Shutdown);
    RunShutdown(s, 0);
    s := Go(ShutDown(s, 0), Connect);
    s := Go(s, ReceiveShutdown);
    s := Go(s, MainStep);
  }

  /** With the read and the Reset of `handleConn` split, a request that arrived before the shutdown
      re-arms the idle timer with the configured timeout after the shutdown has forced it. */
  lemma IdleTimerCanBeRearmed(cfg: Config) returns (s: State)
    requires cfg.split && cfg.idle > 0
    ensures Reachable(s) && s.cfg == cfg && s.closes == 1
    ensures StrandedForNow(s) && s.idleTimer == Some(s.now + cfg.idle)
  {
    s := TwoClients(cfg);
    s := Go(s, Deliver(0, Retrieve));
    s := Go(s, HandlerStep(0));
    assert s.handlers == [ResetIdleTimer(Retrieve, cfg.idle), Decode];
    s := Request(s, 1, Shutdown);
    RunShutdown(s, 1);
    s := Go(ShutDown(s, 1), HandlerStep(0));
    assert s.handlers == [Dispatch(Retrieve), Respond];
  }

  lemma TwoClients(cfg: Config) returns (s: State)
    ensures Reachable(s) && s == Serving(cfg).(handlers := [Decode, Decode], wg := 5)
  {
    Boot(cfg);
    s := Serving(cfg);
    Accept(s);
    s := Accepted(s);
    Accept(s);
    s := Accepted(s);
  }

  /** Left alone for its timeout, an agent whose timeout is not negative shuts itself down. */
  lemma IdleTimeoutShutsDown(cfg: Config) returns (s: State)
    requires cfg.idle >= 0
    ensures Reachable(s) && s.cfg == cfg && s.winner == Some(IdleGoroutine) && s.closes == 1 && s.now == cfg.idle
  {
    Boot(cfg);
    s := Go(Serving(cfg), Tick(cfg.idle));
    s := Go(s, IdleStep);
    s := Go(s, IdleStep);
    s := Go(s, IdleStep);
    s := Go(s, IdleStep);
    s := FinishIdleShutdown(s);
  }

  lemma FinishIdleShutdown(s: State) returns (t: State)
    requires Reachable(s) && s.idle == IdleShutdown(WriteIdle)
    ensures Reachable(t) && t.cfg == s.cfg && t.winner == s.winner && t.closes == s.closes + 1 && t.now == s.now
  {
    t := Go(s, IdleStep);
    t := Go(t, IdleStep);
    t := Go(t, IdleStep);
    t := Go(t, IdleStep);
    t := Go(t, IdleStep);
  }

  /** An agent whose prune interval is not negative prunes as soon as it serves. */
  lemma FirstPrune(cfg: Config) returns (s: State)
    requires cfg.prune >= 0
    ensures Reachable(s) && s.cfg == cfg && s.prune.Pruning? && s.now == 0
  {
    Boot(cfg);
    s := Go(Serving(cfg), PruneStep);
    s := Go(s, PruneStep);
    s := Go(s, PruneStep);
    s := Go(s, PruneStep);
  }

  predicate PendingReset(h: HandlerPc) { h.ReadTimeout? || h.ResetIdleTimer? }

  /** The idle goroutine waits for the clock and no handler is about to reset its timer. */
  ghost predicate StrandedForNow(s: State) {
    && IdleStranded(s) && s.progress == 6
    && forall i :: 0 <= i < |s.handlers| ==> !PendingReset(s.handlers[i])
  }

  /** With the split read, and only with it and a positive timeout, some shutdown strands the idle
      goroutine. */
  lemma IdleWakeupIff(cfg: Config)
    ensures (forall s :: Reachable(s) && s.cfg == cfg && s.progress >= 3 ==> !IdleStranded(s))
       <==> !cfg.split || cfg.idle <= 0
  {
    if cfg.split && cfg.idle > 0 {
      var s := IdleTimerCanBeRearmed(cfg);
      assert Reachable(s) && s.cfg == cfg && s.progress >= 3 && IdleStranded(s);
    } else {
      forall s | Reachable(s) && s.cfg == cfg && s.progress >= 3 ensures !IdleStranded(s) { IdleWakeup(s); }
    }
  }

  predicate Delivers(run: seq<Action>) { exists i :: 0 <= i < |run| && run[i].Deliver? }

  lemma {:induction false} ClockRuns(s: State, run: seq<Action>)
    requires IsRun(s, run)
    ensures s.now <= After(s, run).now
    decreases |run|
  {
    if run != [] { ClockRuns(Do(s, run[0]), run[1..]); }
  }

  /** Until the clock reaches the re-armed timer, a stranded idle goroutine keeps `Serve` from returning,
      whatever the agent and its environment do, as long as no client sends a request that resets it. */
  lemma {:induction false} StrandedDelays(s: State, run: seq<Action>)
    requires Inv(s) && StrandedForNow(s) && IsRun(s, run) && !Delivers(run)
    requires s.idleTimer.Some? && After(s, run).now < s.idleTimer.value
    ensures StrandedForNow(After(s, run)) && !After(s, run).main.Released?
    decreases |run|
  {
    if run == [] {
      assert s.idle.IdleRecv?;
    } else {
      var a := run[0];
      assert !a.Deliver?;
      assert forall i :: 0 <= i < |run[1..]| ==> run[1..][i] == run[i + 1];
      ClockRuns(Do(s, a), run[1..]);
      StrandedStep(s, a);
      InvStep(s, a);
      StrandedDelays(Do(s, a), run[1..]);
    }
  }

  lemma StrandedStep(s: State, a: Action)
    requires Inv(s) && StrandedForNow(s) && !a.Deliver? && Enabled(s, a)
    requires s.idleTimer.Some? && Do(s, a).now < s.idleTimer.value
    ensures StrandedForNow(Do(s, a)) && Do(s, a).idleTimer == s.idleTimer
  {
    if a.HandlerStep? { StrandedHandler(s, a.i); }
    else if a.PruneStep? { StrandedPrune(s); }
  }

  lemma StrandedPrune(s: State)
    requires StrandedForNow(s) && Enabled(s, PruneStep)
    ensures StrandedForNow(Do(s, PruneStep)) && Do(s, PruneStep).idleTimer == s.idleTimer
  {
  }

  lemma StrandedHandler(s: State, i: nat)
    requires Inv(s) && StrandedForNow(s) && Enabled(s, HandlerStep(i))
    ensures StrandedForNow(Do(s, HandlerStep(i))) && Do(s, HandlerStep(i)).idleTimer == s.idleTimer
  {
    assert HandlerOk(s.winner, s.progress, s.cfg.split, i, s.handlers[i]);
    assert !PendingReset(s.handlers[i]);
  }
}

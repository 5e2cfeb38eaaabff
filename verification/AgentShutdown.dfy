/** What the agent guarantees about its shutdown, over all runs. */
module AgentShutdown {
  import opened Wrappers
  import opened Agent
  import opened AgentSafety

  /******* Safety *******/

  /** In every reachable state: the channel is closed at most once, the wait count is the number of
      live goroutines (plus the one being started), the lock is released only when none is live. */
  lemma ReachableIsSafe(s: State)
    requires Reachable(s)
    ensures s.closes <= 1
    ensures s.wg == Live(s) + Starting(s)
    ensures s.main.Released? ==> Live(s) == 0 && s.wg == 0 && !s.listening
    ensures forall i :: 0 <= i < |s.handlers| && s.main.Released? ==> s.handlers[i].HandlerDone?
  {
    InvReachable(s);
    if s.main.Released? {
      forall i | 0 <= i < |s.handlers| ensures s.handlers[i].HandlerDone? {
        NoneLive(s.handlers, i);
      }
    }
  }

  lemma {:induction false} NoneLive(hs: seq<HandlerPc>, i: nat)
    requires LiveHandlers(hs) == 0 && i < |hs|
    ensures hs[i].HandlerDone?
  {
    if i > 0 { NoneLive(hs[1..], i - 1); }
  }

  predicate Waiting(m: MainPc) { m.WaitServe? || m.WaitCleanup? || m.ReleaseLock? || m.Released? }

  predicate NothingAdded(s: State, t: State) {
    t.wg <= s.wg && |t.handlers| == |s.handlers| && Waiting(t.main)
  }

  lemma HandlersAddNothing(s: State, i: nat)
    requires Enabled(s, HandlerStep(i)) && Waiting(s.main)
    ensures NothingAdded(s, Do(s, HandlerStep(i)))
  {
  }

  lemma TimersAddNothing(s: State, a: Action)
    requires Enabled(s, a) && (a.IdleStep? || a.PruneStep?) && Waiting(s.main)
    ensures NothingAdded(s, Do(s, a))
  {
  }

  /** Once the main goroutine waits, no step adds to the wait group or starts a goroutine. */
  lemma NoAddWhileWaiting(s: State, a: Action)
    requires Enabled(s, a) && Waiting(s.main)
    ensures Do(s, a).wg <= s.wg && |Do(s, a).handlers| == |s.handlers| && Waiting(Do(s, a).main)
  {
    if a.HandlerStep? { HandlersAddNothing(s, a.i); }
    else if a.IdleStep? || a.PruneStep? { TimersAddNothing(s, a); }
    else { OthersAddNothing(s, a); }
  }

  lemma OthersAddNothing(s: State, a: Action)
    requires Enabled(s, a) && !a.HandlerStep? && !a.IdleStep? && !a.PruneStep? && Waiting(s.main)
    ensures NothingAdded(s, Do(s, a))
  {
  }

  /** A negative idle timeout never makes the idle goroutine shut the agent down, and a negative
      prune interval never starts a scheduled prune. */
  lemma NegativeDurationsDisable(s: State)
    requires Reachable(s)
    ensures s.cfg.idle < 0 ==> s.winner != Some(IdleGoroutine) && !s.idle.IdleShutdown?
    ensures s.cfg.prune < 0 ==> !s.prune.Pruning?
  {
    InvReachable(s);
  }

  /******* No lost wake-up *******/

  /** Blocked on a timer that the clock has not reached. */
  predicate IdleStranded(s: State) { s.idle.IdleRecv? && !Ready(s.idleTimer, s.now) }

  /** Once the shutdown has reset the prune timer the prune goroutine is never left waiting. */
  lemma PruneWakeup(s: State)
    requires Reachable(s) && s.progress >= 5 && s.prune.PruneRecv?
    ensures Enabled(s, PruneStep)
  {
    InvReachable(s);
  }

  /******* Quiescence *******/

  ghost predicate Quiescent(s: State) { forall a :: Internal(a) ==> !Enabled(s, a) }

  predicate WaitsOnClient(h: HandlerPc) { h.Decode? || h.Respond? || h.RespondBad? }

  predicate AcceptStuck(s: State) { s.accept.Sending? && s.main.WaitServe? }

  /** Every goroutine is finished or blocked for good, as far as the agent itself is concerned. */
  predicate AllBlocked(s: State) {
    && s.prune.PruneDone?
    && (s.idle.IdleDone? || IdleStranded(s))
    && (s.accept.AcceptDone? || s.accept.Sending?)
    && forall i :: 0 <= i < |s.handlers| ==> s.handlers[i].HandlerDone? || WaitsOnClient(s.handlers[i])
  }

  /** The exact quiescent states of a shutdown: the lock is released, or `Serve` waits for a
      goroutine that is blocked on its client, on the vanished receiver, or on a re-armed timer. */
  lemma QuiescentIff(s: State)
    requires Reachable(s) && s.started
    ensures Quiescent(s) <==>
              s.main.Released? || (s.main.WaitServe? && s.closes == 1 && s.wg > 0 && AllBlocked(s))
  {
    InvReachable(s);
    if Quiescent(s) { QuiescentOnlyIf(s); }
    if s.main.Released? { ReachableIsSafe(s); }
  }

  lemma WinnerCanStep(s: State) returns (a: Action)
    requires Inv(s) && 1 <= s.progress < 6
    ensures (a.IdleStep? || a.HandlerStep?) && Enabled(s, a)
  {
    assert WinnerAt(s);
    a := match s.winner.value case IdleGoroutine => IdleStep case Handler(i) => HandlerStep(i);
  }

  lemma QuiescentOnlyIf(s: State)
    requires Inv(s) && s.started && Quiescent(s)
    ensures s.main.Released? || (s.main.WaitServe? && s.closes == 1 && s.wg > 0 && AllBlocked(s))
  {
    assert !Enabled(s, MainStep) && !Enabled(s, ReceiveShutdown) && !Enabled(s, AcceptStep);
    assert !Enabled(s, IdleStep) && !Enabled(s, PruneStep);
    assert forall i: nat :: !Enabled(s, HandlerStep(i));
    if s.progress < 6 {
      var a := WinnerCanStep(s);
      assert false;
    }
    forall i: nat | i < |s.handlers|
      ensures s.handlers[i].HandlerDone? || WaitsOnClient(s.handlers[i])
    {
      assert !Enabled(s, HandlerStep(i));
    }
  }

  /** Which goroutine holds `Serve` up. */
  lemma QuiescentCases(s: State)
    requires Reachable(s) && s.started && Quiescent(s)
    ensures || (s.main.Released? && s.wg == 0)
            || (exists i :: 0 <= i < |s.handlers| && WaitsOnClient(s.handlers[i]))
            || AcceptStuck(s)
            || (s.cfg.split && IdleStranded(s))
  {
    QuiescentIff(s);
    InvReachable(s);
    if !s.main.Released? && !AcceptStuck(s) && !IdleStranded(s) {
      assert LiveHandlers(s.handlers) > 0;
      var i := SomeLive(s.handlers);
    }
  }

  lemma {:induction false} SomeLive(hs: seq<HandlerPc>) returns (i: nat)
    requires LiveHandlers(hs) > 0
    ensures i < |hs| && LiveHandler(hs[i])
  {
    if LiveHandler(hs[0]) { i := 0; } else { i := SomeLive(hs[1..]); i := i + 1; }
  }

  /** A stuck accept goroutine is stuck for ever: no step, of the agent or of its environment, lets
      `Serve` return or the lock go. */
  lemma {:induction false} StuckForEver(s: State, run: seq<Action>)
    requires Inv(s) && AcceptStuck(s) && IsRun(s, run)
    ensures AcceptStuck(After(s, run)) && !After(s, run).main.Released?
    decreases |run|
  {
    if run != [] {
      InvStep(s, run[0]);
      assert s.wg > 0;
      StuckForEver(Do(s, run[0]), run[1..]);
    }
  }
}

/** When the agent prunes its cache by itself. */
module AgentPruning {
  import opened Wrappers
  import opened Agent
  import opened AgentSafety
  import opened AgentTimers
  import opened AgentService

  /******* Every tick prunes *******/

  /** Between receiving a tick and pruning. */
  predicate PruneDue(p: PrunePc) { p.CheckInterval? || p.CheckStopped? }

  lemma DueStep(s: State, a: Action)
    requires Inv(s) && s.cfg.prune >= 0 && PruneDue(s.prune) && Enabled(s, a)
    ensures var t := Do(s, a); PruneDue(t.prune) || t.prune.Pruning? || t.started
  {
    StepFrame(s, a);
  }

  /** With an interval that is not negative, a tick received before the shutdown is followed by a prune
      before anything else the prune goroutine does. */
  lemma {:induction false} TicksPrune(s: State, run: seq<Action>) returns (before: seq<Action>)
    requires Inv(s) && s.cfg.prune >= 0 && PruneDue(s.prune) && IsRun(s, run)
    requires !PruneDue(After(s, run).prune) && !After(s, run).started
    ensures before <= run && IsRun(s, before) && After(s, before).prune.Pruning?
    decreases |run|
  {
    var a := run[0];
    var t := Do(s, a);
    InvStep(s, a);
    StepFrame(s, a);
    DueStep(s, a);
    if t.started { StartedStays(t, run[1..]); }
    if t.prune.Pruning? {
      before := [a];
      RunOne(s, a);
    } else {
      var rest := TicksPrune(t, run[1..]);
      before := [a] + rest;
      assert before[1..] == rest;
    }
  }

  /** The prune goroutine only ends after a shutdown has started. */
  ghost predicate PruneServed(s: State) { s.prune.PruneExit? || s.prune.PruneDone? ==> s.started }

  lemma PruneServedStep(s: State, a: Action)
    requires Inv(s) && PruneServed(s) && Enabled(s, a)
    ensures PruneServed(Do(s, a))
  {
    StepFrame(s, a);
    if a.PruneStep? { PruneServedByPrune(s); }
  }

  lemma PruneServedByPrune(s: State)
    requires PruneServed(s) && Enabled(s, PruneStep)
    ensures PruneServed(Do(s, PruneStep))
  {
  }

  lemma {:induction false} PruneServedRun(s: State, run: seq<Action>)
    requires Inv(s) && PruneServed(s) && IsRun(s, run)
    ensures PruneServed(After(s, run))
    decreases |run|
  {
    if run != [] {
      PruneServedStep(s, run[0]);
      InvStep(s, run[0]);
      PruneServedRun(Do(s, run[0]), run[1..]);
    }
  }

  lemma PruneExitMeansShutdown(s: State)
    requires Reachable(s) && (s.prune.PruneExit? || s.prune.PruneDone?)
    ensures s.started
  {
    var cfg, run :| IsRun(Init(cfg), run) && After(Init(cfg), run) == s;
    InvInit(cfg);
    PruneServedRun(Init(cfg), run);
  }

  /** The prune goroutine waits no longer than the interval for its next tick. */
  lemma PruneComesUp(s: State, d: nat)
    requires Reachable(s) && s.prune.PruneRecv? && d >= Period(s.cfg)
    ensures Enabled(Do(s, Tick(d)), PruneStep)
  {
    InvReachable(s);
    PacedReachable(s);
  }

  function Period(cfg: Config): nat { if cfg.prune > 0 then cfg.prune else 0 }

  /** How far ahead the prune timer can be set. */
  ghost predicate Paced(s: State) {
    && (s.pruneTimer.Some? ==> s.pruneTimer.value <= s.now + Period(s.cfg))
    && (s.pruneInterval == s.cfg.prune || s.pruneInterval == FORCED)
    && (s.prune.ResetPruneTimer? ==> s.prune.d == s.cfg.prune || s.prune.d == FORCED)
  }

  lemma PacedByShutdown(s: State, pc: ShutdownPc, g: Goroutine)
    requires Paced(s)
    ensures Paced(DoShutdown(s, pc, g)) && DoShutdown(s, pc, g).prune == s.prune
  {
  }

  lemma PacedByHandler(s: State, i: nat)
    requires Paced(s) && Enabled(s, HandlerStep(i))
    ensures Paced(Do(s, HandlerStep(i)))
  {
    if s.handlers[i].HandlerShutdown? { PacedByShutdown(s, s.handlers[i].pc, Handler(i)); }
  }

  lemma PacedByIdle(s: State)
    requires Paced(s) && Enabled(s, IdleStep)
    ensures Paced(Do(s, IdleStep))
  {
    if s.idle.IdleShutdown? { PacedByShutdown(s, s.idle.pc, IdleGoroutine); }
  }

  lemma PacedByPrune(s: State)
    requires Paced(s) && Enabled(s, PruneStep)
    ensures Paced(Do(s, PruneStep))
  {
  }

  lemma PacedStep(s: State, a: Action)
    requires Paced(s) && Enabled(s, a)
    ensures Paced(Do(s, a))
  {
    if a.HandlerStep? { PacedByHandler(s, a.i); }
    else if a.IdleStep? { PacedByIdle(s); }
    else if a.PruneStep? { PacedByPrune(s); }
    else { PacedByRest(s, a); }
  }

  lemma PacedByRest(s: State, a: Action)
    requires Paced(s) && Enabled(s, a) && !a.HandlerStep? && !a.IdleStep? && !a.PruneStep?
    ensures Paced(Do(s, a))
  {
  }

  lemma {:induction false} PacedRun(s: State, run: seq<Action>)
    requires Paced(s) && IsRun(s, run)
    ensures Paced(After(s, run))
    decreases |run|
  {
    if run != [] {
      PacedStep(s, run[0]);
      PacedRun(Do(s, run[0]), run[1..]);
    }
  }

  lemma PacedReachable(s: State)
    requires Reachable(s)
    ensures Paced(s)
  {
    var cfg, run :| IsRun(Init(cfg), run) && After(Init(cfg), run) == s;
    PacedRun(Init(cfg), run);
  }

  /******* Prunes are an interval apart *******/

  /** The prune goroutine does not prune before time `due`; what the shutdown forces does not prune. */
  ghost predicate NoPruneBefore(s: State, due: int) {
    && due <= s.now + s.cfg.prune && !BeforePrune(s.main)
    && match s.prune
       case Pruning => due <= s.now
       case CheckStopped => due <= s.now
       case CheckInterval => due <= s.now || s.progress >= 4
       case ResetPruneTimer(d) => d == s.cfg.prune || s.progress >= 4
       case PruneLoop => s.progress < 4 ==> s.pruneTimer.Some? && due <= s.pruneTimer.value
       case PruneRecv => s.progress < 4 ==> s.pruneTimer.Some? && due <= s.pruneTimer.value
       case _ => true
  }

  lemma NoPruneByHandler(s: State, i: nat, due: int)
    requires Inv(s) && NoPruneBefore(s, due) && Enabled(s, HandlerStep(i))
    ensures NoPruneBefore(Do(s, HandlerStep(i)), due)
  {
    if s.handlers[i].HandlerShutdown? { NoPruneByShutdown(s, i, due); } else { NoPruneByRequest(s, i, due); }
  }

  lemma NoPruneByShutdown(s: State, i: nat, due: int)
    requires Inv(s) && NoPruneBefore(s, due) && i < |s.handlers| && s.handlers[i].HandlerShutdown?
    ensures NoPruneBefore(Do(s, HandlerStep(i)), due)
  {
    assert HandlerOk(s.winner, s.progress, s.cfg.split, i, s.handlers[i]);
  }

  lemma NoPruneByRequest(s: State, i: nat, due: int)
    requires NoPruneBefore(s, due) && Enabled(s, HandlerStep(i)) && !s.handlers[i].HandlerShutdown?
    ensures NoPruneBefore(Do(s, HandlerStep(i)), due)
  {
  }

  lemma NoPruneByIdle(s: State, due: int)
    requires Inv(s) && NoPruneBefore(s, due) && Enabled(s, IdleStep)
    ensures NoPruneBefore(Do(s, IdleStep), due)
  {
    ProgressGrows(s, IdleStep);
  }

  lemma NoPruneByPrune(s: State, due: int)
    requires Inv(s) && NoPruneBefore(s, due) && Enabled(s, PruneStep)
    ensures NoPruneBefore(Do(s, PruneStep), due)
  {
  }

  lemma NoPruneByRest(s: State, a: Action, due: int)
    requires Inv(s) && NoPruneBefore(s, due) && Enabled(s, a) && !a.HandlerStep? && !a.IdleStep? && !a.PruneStep?
    ensures NoPruneBefore(Do(s, a), due)
  {
  }

  lemma {:induction false} NoPruneRun(s: State, run: seq<Action>, due: int)
    requires Inv(s) && NoPruneBefore(s, due) && IsRun(s, run)
    ensures NoPruneBefore(After(s, run), due)
    decreases |run|
  {
    if run != [] {
      var a := run[0];
      if a.HandlerStep? { NoPruneByHandler(s, a.i, due); }
      else if a.IdleStep? { NoPruneByIdle(s, due); }
      else if a.PruneStep? { NoPruneByPrune(s, due); }
      else { NoPruneByRest(s, a, due); }
      InvStep(s, a);
      NoPruneRun(Do(s, a), run[1..], due);
    }
  }

  /** A scheduled prune starts no earlier than the interval after the end of the one before, whatever
      happens in between, a shutdown included. */
  lemma PrunesAreSpaced(s: State, run: seq<Action>)
    requires Reachable(s) && s.prune.ReadInterval? && IsRun(s, run) && After(s, run).prune.Pruning?
    ensures s.now + s.cfg.prune <= After(s, run).now
  {
    InvReachable(s);
    NoPruneRun(s, run, s.now + s.cfg.prune);
  }

  lemma NoPruneStarts(s: State, a: Action)
    requires Inv(s) && s.started && !s.prune.Pruning? && Enabled(s, a)
    ensures Do(s, a).started && !Do(s, a).prune.Pruning?
  {
    StepFrame(s, a);
    if a.PruneStep? { NoPruneStartsByPrune(s); }
  }

  lemma NoPruneStartsByPrune(s: State)
    requires s.started && !s.prune.Pruning? && Enabled(s, PruneStep)
    ensures !Do(s, PruneStep).prune.Pruning?
  {
  }

  /** Once a shutdown has started no scheduled prune starts. */
  lemma {:induction false} NoPruneAfterShutdown(s: State, run: seq<Action>)
    requires Inv(s) && s.started && !s.prune.Pruning? && IsRun(s, run)
    ensures !After(s, run).prune.Pruning?
    decreases |run|
  {
    if run != [] {
      NoPruneStarts(s, run[0]);
      InvStep(s, run[0]);
      NoPruneAfterShutdown(Do(s, run[0]), run[1..]);
    }
  }
}

/** What every step of the agent keeps. */
module AgentSafety {
  import opened Wrappers
  import opened Agent

  function Index(pc: ShutdownPc): nat {
    match pc
    case Cas => 0
    case WriteIdle => 1
    case ResetIdle => 2
    case WritePrune => 3
    case ResetPrune => 4
    case CloseChan => 5
  }

  predicate Closing(m: MainPc) {
    m.CloseListener? || m.WaitServe? || m.WaitCleanup? || m.ReleaseLock? || m.Released?
  }

  /** The main goroutine has not yet started the accept, the idle, the prune goroutine. */
  predicate BeforeAccept(m: MainPc) { m.NewTimers? || m.AddAccept? || m.GoAccept? }
  predicate BeforeIdle(m: MainPc) { BeforeAccept(m) || m.AddIdle? || m.GoIdle? }
  predicate BeforePrune(m: MainPc) { BeforeIdle(m) || m.AddPrune? || m.GoPrune? }

  /** The shutdown runs its six statements in order, in one goroutine, once. */
  ghost predicate ShutdownInv(s: State) {
    && s.progress <= 6
    && (s.started <==> s.progress >= 1) && (s.winner.Some? <==> s.started)
    && s.closes == (if s.progress == 6 then 1 else 0)
    && s.idleTimeout == (if s.progress >= 2 then FORCED else s.cfg.idle)
    && s.pruneInterval == (if s.progress >= 4 then FORCED else s.cfg.prune)
    && (1 <= s.progress < 6 ==> WinnerAt(s))
    && (s.idle.IdleShutdown? && !s.idle.pc.Cas? ==>
          s.winner == Some(IdleGoroutine) && s.progress == Index(s.idle.pc))
    && forall i :: 0 <= i < |s.handlers| ==> HandlerOk(s.winner, s.progress, s.cfg.split, i, s.handlers[i])
  }

  /** A handler past the compare-and-swap is the winner; only a split read leaves a pending Reset. */
  ghost predicate HandlerOk(winner: Option<Goroutine>, progress: nat, split: bool, i: nat, h: HandlerPc) {
    && (h.HandlerShutdown? && !h.pc.Cas? ==> winner == Some(Handler(i)) && progress == Index(h.pc))
    && (h.ResetIdleTimer? ==> split)
  }

  /** The winner stands at the statement that comes next. */
  ghost predicate WinnerAt(s: State) {
    && s.winner.Some?
    && match s.winner.value
       case IdleGoroutine => s.idle.IdleShutdown? && Index(s.idle.pc) == s.progress
       case Handler(i) =>
         i < |s.handlers| && s.handlers[i].HandlerShutdown? && Index(s.handlers[i].pc) == s.progress
  }

  /** Which goroutines exist at which point of `Serve`, and how it ends. */
  ghost predicate LifeInv(s: State) {
    && (s.accept.AcceptUnborn? <==> BeforeAccept(s.main))
    && (s.idle.IdleUnborn? <==> BeforeIdle(s.main))
    && (s.prune.PruneUnborn? <==> BeforePrune(s.main))
    && (BeforeIdle(s.main) ==> s.progress == 0)
    && (BeforePrune(s.main) ==> s.handlers == [])
    && (Closing(s.main) ==> s.progress == 6)
    && (s.listening <==> !Closing(s.main) || s.main.CloseListener?)
    && (s.main.WaitCleanup? || s.main.ReleaseLock? || s.main.Released? ==> Live(s) == 0)
  }

  /** No wake-up of a timer goroutine is lost, up to a split re-arm of the idle timer. */
  ghost predicate TimerInv(s: State) {
    && (s.idle.IdleRecv? || (s.idle.IdleUnborn? && !s.main.NewTimers?) ==> s.idleTimer.Some?)
    && (s.prune.PruneRecv? || s.prune.PruneLoop? ==> s.pruneTimer.Some?)
    && (s.prune.PruneUnborn? && !s.main.NewTimers? ==> s.pruneTimer.Some?)
    && (s.progress >= 5 && s.prune.PruneRecv? ==> Ready(s.pruneTimer, s.now))
    && (s.progress >= 3 && s.idle.IdleRecv? && !s.cfg.split ==> Ready(s.idleTimer, s.now))
  }

  /** Negative durations switch the timers' effects off. */
  ghost predicate NegativeInv(s: State) {
    && (s.cfg.idle < 0 ==> !s.idle.CheckStarted? && !s.idle.IdleShutdown? && s.winner != Some(IdleGoroutine))
    && (s.cfg.prune < 0 ==> !s.prune.CheckStopped? && !s.prune.Pruning?)
  }

  ghost predicate Control(s: State) { ShutdownInv(s) && NegativeInv(s) }

  ghost predicate Clockwork(s: State) { LifeInv(s) && TimerInv(s) && s.wg == Live(s) + Starting(s) }

  ghost predicate Inv(s: State) { Control(s) && Clockwork(s) }

  lemma {:induction false} LiveHandlersAt(hs: seq<HandlerPc>, i: nat, h: HandlerPc)
    requires i < |hs|
    ensures LiveHandlers(hs[i := h]) + (if LiveHandler(hs[i]) then 1 else 0)
         == LiveHandlers(hs) + (if LiveHandler(h) then 1 else 0)
  {
    if i == 0 {
      assert hs[0 := h][1..] == hs[1..];
    } else {
      LiveHandlersAt(hs[1..], i - 1, h);
      assert hs[i := h][1..] == hs[1..][i - 1 := h];
    }
  }

  lemma {:induction false} LiveHandlersSnoc(hs: seq<HandlerPc>, h: HandlerPc)
    ensures LiveHandlers(hs + [h]) == LiveHandlers(hs) + (if LiveHandler(h) then 1 else 0)
  {
    if hs != [] {
      LiveHandlersSnoc(hs[1..], h);
      assert (hs + [h])[1..] == hs[1..] + [h];
    }
  }

  lemma InvInit(cfg: Config)
    ensures Inv(Init(cfg))
  {
  }


  lemma ControlOther(s: State, a: Action)
    requires Inv(s) && Enabled(s, a)
    requires a.Tick? || a.Connect? || a.AcceptFails? || a.AcceptStep? || a.ReceiveConn? || a.ReceiveShutdown?
    ensures Control(Do(s, a))
  {
  }

  lemma ClockworkOther(s: State, a: Action)
    requires Inv(s) && Enabled(s, a)
    requires a.Tick? || a.Connect? || a.AcceptFails? || a.AcceptStep? || a.ReceiveConn? || a.ReceiveShutdown?
    ensures Clockwork(Do(s, a))
  {
  }

  lemma ControlClient(s: State, a: Action)
    requires Inv(s) && Enabled(s, a)
    requires a.Deliver? || a.DeliverBad? || a.Hangup? || a.Written?
    ensures Control(Do(s, a))
  {
  }

  lemma ClockworkClient(s: State, a: Action)
    requires Inv(s) && Enabled(s, a)
    requires a.Deliver? || a.DeliverBad? || a.Hangup? || a.Written?
    ensures Clockwork(Do(s, a))
  {
    LiveHandlersAt(s.handlers, a.i, Do(s, a).handlers[a.i]);
  }

  lemma ControlMain(s: State)
    requires Inv(s) && Enabled(s, MainStep)
    ensures Control(Do(s, MainStep))
  {
  }

  lemma ClockworkStarting(s: State)
    requires Inv(s) && Enabled(s, MainStep) && BeforePrune(s.main)
    ensures Clockwork(Do(s, MainStep))
  {
  }

  lemma ClockworkMain(s: State)
    requires Inv(s) && Enabled(s, MainStep) && !BeforePrune(s.main)
    ensures Clockwork(Do(s, MainStep))
  {
    LiveHandlersSnoc(s.handlers, Decode);
  }

  lemma ControlIdle(s: State)
    requires Inv(s) && Enabled(s, IdleStep) && !s.idle.IdleShutdown?
    ensures Control(Do(s, IdleStep))
  {
  }

  lemma ClockworkIdle(s: State)
    requires Inv(s) && Enabled(s, IdleStep) && !s.idle.IdleShutdown?
    ensures Clockwork(Do(s, IdleStep))
  {
  }

  lemma ControlIdleCas(s: State)
    requires Inv(s) && s.idle == IdleShutdown(Cas)
    ensures Control(Do(s, IdleStep))
  {
  }

  lemma ControlIdleShutdown(s: State)
    requires Inv(s) && s.idle.IdleShutdown? && !s.idle.pc.Cas?
    ensures Control(Do(s, IdleStep))
  {
  }

  lemma ClockworkIdleCas(s: State)
    requires Inv(s) && s.idle == IdleShutdown(Cas)
    ensures Clockwork(Do(s, IdleStep))
  {
  }

  lemma LifeIdleShutdown(s: State)
    requires Inv(s) && s.idle.IdleShutdown? && !s.idle.pc.Cas?
    ensures LifeInv(Do(s, IdleStep)) && Do(s, IdleStep).wg == Live(Do(s, IdleStep)) + Starting(Do(s, IdleStep))
  {
  }

  lemma TimerIdleShutdown(s: State)
    requires Inv(s) && s.idle.IdleShutdown? && !s.idle.pc.Cas?
    ensures TimerInv(Do(s, IdleStep))
  {
  }

  lemma ControlPrune(s: State)
    requires Inv(s) && Enabled(s, PruneStep)
    ensures Control(Do(s, PruneStep))
  {
  }

  lemma ClockworkPrune(s: State)
    requires Inv(s) && Enabled(s, PruneStep)
    ensures Clockwork(Do(s, PruneStep))
  {
  }

  lemma ControlHandlerReads(s: State, i: nat)
    requires Inv(s) && i < |s.handlers| && s.handlers[i].ReadTimeout?
    ensures Control(Do(s, HandlerStep(i)))
  {
  }

  lemma ControlHandlerResets(s: State, i: nat)
    requires Inv(s) && i < |s.handlers| && s.handlers[i].ResetIdleTimer?
    ensures Control(Do(s, HandlerStep(i)))
  {
  }

  lemma ClockworkHandlerReads(s: State, i: nat)
    requires Inv(s) && i < |s.handlers| && s.handlers[i].ReadTimeout?
    ensures Clockwork(Do(s, HandlerStep(i)))
  {
    LiveHandlersAt(s.handlers, i, Do(s, HandlerStep(i)).handlers[i]);
  }

  lemma ClockworkHandlerResets(s: State, i: nat)
    requires Inv(s) && i < |s.handlers| && s.handlers[i].ResetIdleTimer?
    ensures Clockwork(Do(s, HandlerStep(i)))
  {
    LiveHandlersAt(s.handlers, i, Do(s, HandlerStep(i)).handlers[i]);
  }

  lemma ControlHandlerOther(s: State, i: nat)
    requires Inv(s) && i < |s.handlers| && (s.handlers[i].Dispatch? || s.handlers[i].HandlerExit?)
    ensures Control(Do(s, HandlerStep(i)))
  {
  }

  lemma ClockworkHandlerOther(s: State, i: nat)
    requires Inv(s) && i < |s.handlers| && (s.handlers[i].Dispatch? || s.handlers[i].HandlerExit?)
    ensures Clockwork(Do(s, HandlerStep(i)))
  {
    LiveHandlersAt(s.handlers, i, Do(s, HandlerStep(i)).handlers[i]);
  }

  lemma ControlHandlerCas(s: State, i: nat)
    requires Inv(s) && i < |s.handlers| && s.handlers[i] == HandlerShutdown(Cas)
    ensures Control(Do(s, HandlerStep(i)))
  {
  }

  lemma ControlHandlerShutdown(s: State, i: nat)
    requires Inv(s) && i < |s.handlers| && s.handlers[i].HandlerShutdown? && !s.handlers[i].pc.Cas?
    ensures Control(Do(s, HandlerStep(i)))
  {
  }

  lemma ClockworkHandlerCas(s: State, i: nat)
    requires Inv(s) && i < |s.handlers| && s.handlers[i] == HandlerShutdown(Cas)
    ensures Clockwork(Do(s, HandlerStep(i)))
  {
    LiveHandlersAt(s.handlers, i, Do(s, HandlerStep(i)).handlers[i]);
  }

  lemma ClockworkHandlerShutdown(s: State, i: nat)
    requires Inv(s) && i < |s.handlers| && s.handlers[i].HandlerShutdown? && !s.handlers[i].pc.Cas?
    ensures Clockwork(Do(s, HandlerStep(i)))
  {
    LiveHandlersAt(s.handlers, i, Do(s, HandlerStep(i)).handlers[i]);
  }

  /** Every step keeps the invariant. */
  lemma InvStep(s: State, a: Action)
    requires Inv(s) && Enabled(s, a)
    ensures Inv(Do(s, a))
  {
    match a
    case MainStep =>
      ControlMain(s);
      if BeforePrune(s.main) { ClockworkStarting(s); } else { ClockworkMain(s); }
    case PruneStep => ControlPrune(s); ClockworkPrune(s);
    case IdleStep =>
      match s.idle {
        case IdleShutdown(Cas) => ControlIdleCas(s); ClockworkIdleCas(s);
        case IdleShutdown(_) => ControlIdleShutdown(s); LifeIdleShutdown(s); TimerIdleShutdown(s);
        case _ => ControlIdle(s); ClockworkIdle(s);
      }
    case HandlerStep(i) =>
      match s.handlers[i] {
        case HandlerShutdown(Cas) => ControlHandlerCas(s, i); ClockworkHandlerCas(s, i);
        case HandlerShutdown(_) => ControlHandlerShutdown(s, i); ClockworkHandlerShutdown(s, i);
        case ReadTimeout(_) => ControlHandlerReads(s, i); ClockworkHandlerReads(s, i);
        case ResetIdleTimer(_, _) => ControlHandlerResets(s, i); ClockworkHandlerResets(s, i);
        case _ => ControlHandlerOther(s, i); ClockworkHandlerOther(s, i);
      }
    case _ =>
      if a.Deliver? || a.DeliverBad? || a.Hangup? || a.Written? { ControlClient(s, a); ClockworkClient(s, a); }
      else { ControlOther(s, a); ClockworkOther(s, a); }
  }

  lemma {:induction false} InvRun(s: State, run: seq<Action>)
    requires Inv(s) && IsRun(s, run)
    ensures Inv(After(s, run))
    decreases |run|
  {
    if run != [] {
      InvStep(s, run[0]);
      InvRun(Do(s, run[0]), run[1..]);
    }
  }

  lemma InvReachable(s: State)
    requires Reachable(s)
    ensures Inv(s)
  {
    var cfg, run :| IsRun(Init(cfg), run) && After(Init(cfg), run) == s;
    InvInit(cfg);
    InvRun(Init(cfg), run);
  }
}

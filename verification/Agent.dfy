/** The caching agent as interleaved atomic steps of its goroutines, sequentially consistent.

    One agent runs a main goroutine (`Serve` followed by `cleanup`), an accept goroutine, an
    idle-timer goroutine, a prune goroutine and one handler per accepted connection. They share
    an atomic flag, two resettable timers, two durations, a channel that is closed on shutdown and
    a wait group. What a request reads from or writes to the cache does not matter here. */
module Agent {
  import opened Wrappers

  /** The duration both timers are forced to on shutdown: minus one microsecond, in nanoseconds. */
  const FORCED: int := -1000

  /** A timer channel without stale ticks: `None` once its tick was received and until a Reset. */
  type Timer = Option<int>

  predicate Ready(t: Timer, now: int) { t.Some? && t.value <= now }

  datatype Method = Retrieve | Store | Prune | Shutdown | Unknown

  /** The next statement of `handleShutdown`. */
  datatype ShutdownPc = Cas | WriteIdle | ResetIdle | WritePrune | ResetPrune | CloseChan

  datatype MainPc =
    | NewTimers | AddAccept | GoAccept | AddIdle | GoIdle | AddPrune | GoPrune
    | Select | AddConn | GoConn
    | CloseListener | WaitServe   // deferred calls of Serve
    | WaitCleanup | ReleaseLock   // Serve has returned, cleanup runs
    | Released

  datatype AcceptPc = AcceptUnborn | Accepting | Sending | AcceptExit | AcceptDone

  datatype IdlePc =
    | IdleUnborn | IdleRecv | CheckTimeout | CheckStarted
    | IdleShutdown(pc: ShutdownPc) | IdleExit | IdleDone

  datatype PrunePc =
    | PruneUnborn | PruneLoop | PruneRecv | CheckInterval | CheckStopped | Pruning
    | ReadInterval | ResetPruneTimer(d: int) | PruneExit | PruneDone

  datatype HandlerPc =
    | Decode                               // blocked in reading the client's next request
    | ReadTimeout(m: Method)               // evaluates a.idleTimeout ...
    | ResetIdleTimer(m: Method, d: int)    // ... and passes it to Reset
    | Dispatch(m: Method)
    | HandlerShutdown(pc: ShutdownPc)
    | Respond                              // blocked in writing the response
    | RespondBad                           // writes the error response, then returns
    | HandlerExit | HandlerDone

  /** `split` tells whether reading `idleTimeout` and calling Reset in `handleConn` are two steps. */
  datatype Config = Config(idle: int, prune: int, split: bool)

  datatype Goroutine = IdleGoroutine | Handler(i: nat)

  /** `winner` and `progress` are history: who won the compare-and-swap of `handleShutdown`, and
      how many of its six statements have been executed. No step depends on them. */
  datatype State = State(
    cfg: Config, now: int,
    started: bool, idleTimeout: int, pruneInterval: int, idleTimer: Timer, pruneTimer: Timer,
    closes: nat, wg: int, listening: bool,
    main: MainPc, accept: AcceptPc, idle: IdlePc, prune: PrunePc, handlers: seq<HandlerPc>,
    winner: Option<Goroutine>, progress: nat)

  function Init(cfg: Config): State {
    State(cfg, 0, false, cfg.idle, cfg.prune, None, None, 0, 0, true,
          NewTimers, AcceptUnborn, IdleUnborn, PruneUnborn, [], None, 0)
  }

  datatype Action =
    // the environment: the clock, clients and the operating system
    | Tick(d: nat) | Connect | AcceptFails
    | Deliver(i: nat, m: Method) | DeliverBad(i: nat) | Hangup(i: nat) | Written(i: nat)
    // the agent itself
    | MainStep | ReceiveConn | ReceiveShutdown | AcceptStep | IdleStep | PruneStep | HandlerStep(i: nat)

  predicate Internal(a: Action) {
    a.MainStep? || a.ReceiveConn? || a.ReceiveShutdown? || a.AcceptStep? || a.IdleStep? || a.PruneStep?
    || a.HandlerStep?
  }

  /** The agent's own steps, and the clients finishing: a client takes its response, or hangs up. */
  predicate Helpful(a: Action) { Internal(a) || a.Hangup? || a.Written? }

  predicate HandlerCanStep(h: HandlerPc) {
    h.ReadTimeout? || h.ResetIdleTimer? || h.Dispatch? || h.HandlerShutdown? || h.HandlerExit?
  }

  predicate Enabled(s: State, a: Action) {
    match a
    case Tick(_) => true
    case Connect => s.accept.Accepting? && s.listening
    case AcceptFails => s.accept.Accepting?
    case Deliver(i, _) => i < |s.handlers| && s.handlers[i].Decode?
    case DeliverBad(i) => i < |s.handlers| && s.handlers[i].Decode?
    case Hangup(i) => i < |s.handlers| && s.handlers[i].Decode?
    case Written(i) => i < |s.handlers| && (s.handlers[i].Respond? || s.handlers[i].RespondBad?)
    case MainStep =>
      match s.main {
        case Select => false
        case WaitServe => s.wg == 0
        case WaitCleanup => s.wg == 0
        case Released => false
        case _ => true
      }
    case ReceiveConn => s.main.Select? && s.accept.Sending?
    case ReceiveShutdown => s.main.Select? && s.closes > 0
    case AcceptStep => (s.accept.Accepting? && !s.listening) || s.accept.AcceptExit?
    case IdleStep =>
      match s.idle {
        case IdleUnborn => false
        case IdleRecv => Ready(s.idleTimer, s.now)
        case IdleDone => false
        case _ => true
      }
    case PruneStep =>
      match s.prune {
        case PruneUnborn => false
        case PruneRecv => Ready(s.pruneTimer, s.now)
        case PruneDone => false
        case _ => true
      }
    case HandlerStep(i) => i < |s.handlers| && HandlerCanStep(s.handlers[i])
  }

  function Do(s: State, a: Action): State
    requires Enabled(s, a)
  {
    match a
    case Tick(d) => s.(now := s.now + d)
    case Connect => s.(accept := Sending)
    case AcceptFails => s.(accept := AcceptExit)
    case Deliver(i, m) => At(s, i, ReadTimeout(m))
    case DeliverBad(i) => At(s, i, RespondBad)
    case Hangup(i) => At(s, i, HandlerExit)
    case Written(i) => At(s, i, if s.handlers[i].Respond? then Decode else HandlerExit)
    case MainStep => DoMain(s)
    case ReceiveConn => s.(main := AddConn, accept := Accepting)
    case ReceiveShutdown => s.(main := CloseListener)
    case AcceptStep =>
      if s.accept.AcceptExit? then s.(accept := AcceptDone, wg := s.wg - 1) else s.(accept := AcceptExit)
    case IdleStep => DoIdle(s)
    case PruneStep => DoPrune(s)
    case HandlerStep(i) => DoHandler(s, i)
  }

  function At(s: State, i: nat, h: HandlerPc): State
    requires i < |s.handlers|
  {
    s.(handlers := s.handlers[i := h])
  }

  function DoMain(s: State): State
    requires Enabled(s, MainStep)
  {
    match s.main
    case NewTimers => s.(idleTimer := Some(s.now + s.idleTimeout), pruneTimer := Some(s.now), main := AddAccept)
    case AddAccept => s.(wg := s.wg + 1, main := GoAccept)
    case GoAccept => s.(accept := Accepting, main := AddIdle)
    case AddIdle => s.(wg := s.wg + 1, main := GoIdle)
    case GoIdle => s.(idle := IdleRecv, main := AddPrune)
    case AddPrune => s.(wg := s.wg + 1, main := GoPrune)
    case GoPrune => s.(prune := PruneLoop, main := Select)
    case AddConn => s.(wg := s.wg + 1, main := GoConn)
    case GoConn => s.(handlers := s.handlers + [Decode], main := Select)
    case CloseListener => s.(listening := false, main := WaitServe)
    case WaitServe => s.(main := WaitCleanup)
    case WaitCleanup => s.(main := ReleaseLock)
    case ReleaseLock => s.(main := Released)
  }

  function DoIdle(s: State): State
    requires Enabled(s, IdleStep)
  {
    match s.idle
    case IdleRecv => s.(idleTimer := None, idle := CheckTimeout)
    case CheckTimeout => s.(idle := if s.idleTimeout >= 0 then CheckStarted else IdleExit)
    case CheckStarted => s.(idle := if s.started then IdleExit else IdleShutdown(Cas))
    case IdleShutdown(pc) =>
      var t := DoShutdown(s, pc, IdleGoroutine);
      if ShutdownReturns(s, pc) then t.(idle := IdleExit) else t.(idle := IdleShutdown(NextPc(pc)))
    case IdleExit => s.(idle := IdleDone, wg := s.wg - 1)
  }

  function DoPrune(s: State): State
    requires Enabled(s, PruneStep)
  {
    match s.prune
    case PruneLoop => s.(prune := if s.started then PruneExit else PruneRecv)
    case PruneRecv => s.(pruneTimer := None, prune := CheckInterval)
    case CheckInterval => s.(prune := if s.pruneInterval >= 0 then CheckStopped else ReadInterval)
    case CheckStopped => s.(prune := if s.started then ReadInterval else Pruning)
    case Pruning => s.(prune := ReadInterval)
    case ReadInterval => s.(prune := ResetPruneTimer(s.pruneInterval))
    case ResetPruneTimer(d) => s.(pruneTimer := Some(s.now + d), prune := PruneLoop)
    case PruneExit => s.(prune := PruneDone, wg := s.wg - 1)
  }

  function DoHandler(s: State, i: nat): State
    requires Enabled(s, HandlerStep(i))
  {
    match s.handlers[i]
    case ReadTimeout(m) =>
      if s.cfg.split then At(s, i, ResetIdleTimer(m, s.idleTimeout))
      else At(s.(idleTimer := Some(s.now + s.idleTimeout)), i, Dispatch(m))
    case ResetIdleTimer(m, d) => At(s.(idleTimer := Some(s.now + d)), i, Dispatch(m))
    case Dispatch(m) => At(s, i, if m.Shutdown? then HandlerShutdown(Cas) else Respond)
    case HandlerShutdown(pc) =>
      At(DoShutdown(s, pc, Handler(i)), i, if ShutdownReturns(s, pc) then Respond else HandlerShutdown(NextPc(pc)))
    case HandlerExit => At(s, i, HandlerDone).(wg := s.wg - 1)
  }

  /** One statement of `handleShutdown`. */
  function DoShutdown(s: State, pc: ShutdownPc, g: Goroutine): State {
    match pc
    case Cas => if s.started then s else s.(started := true, winner := Some(g), progress := 1)
    case WriteIdle => s.(idleTimeout := FORCED, progress := 2)
    case ResetIdle => s.(idleTimer := Some(s.now + s.idleTimeout), progress := 3)
    case WritePrune => s.(pruneInterval := FORCED, progress := 4)
    case ResetPrune => s.(pruneTimer := Some(s.now + s.pruneInterval), progress := 5)
    case CloseChan => s.(closes := s.closes + 1, progress := 6)
  }

  predicate ShutdownReturns(s: State, pc: ShutdownPc) { (pc.Cas? && s.started) || pc.CloseChan? }

  function NextPc(pc: ShutdownPc): ShutdownPc {
    match pc
    case Cas => WriteIdle
    case WriteIdle => ResetIdle
    case ResetIdle => WritePrune
    case WritePrune => ResetPrune
    case ResetPrune => CloseChan
    case CloseChan => CloseChan
  }

  /******* Runs *******/

  predicate IsRun(s: State, run: seq<Action>)
    decreases |run|
  {
    run == [] || (Enabled(s, run[0]) && IsRun(Do(s, run[0]), run[1..]))
  }

  function After(s: State, run: seq<Action>): State
    requires IsRun(s, run)
    decreases |run|
  {
    if run == [] then s else After(Do(s, run[0]), run[1..])
  }

  lemma {:induction false} RunConcat(s: State, run: seq<Action>, more: seq<Action>)
    requires IsRun(s, run) && IsRun(After(s, run), more)
    ensures IsRun(s, run + more) && After(s, run + more) == After(After(s, run), more)
    decreases |run|
  {
    if run == [] {
      assert run + more == more;
    } else {
      RunConcat(Do(s, run[0]), run[1..], more);
      assert (run + more)[1..] == run[1..] + more;
    }
  }

  lemma RunOne(s: State, a: Action)
    requires Enabled(s, a)
    ensures IsRun(s, [a]) && After(s, [a]) == Do(s, a)
  {
    assert [a][1..] == [];
  }

  ghost predicate Reachable(s: State) {
    exists cfg: Config, run: seq<Action> :: IsRun(Init(cfg), run) && After(Init(cfg), run) == s
  }

  /******* Counting live goroutines *******/

  predicate LiveHandler(h: HandlerPc) { !h.HandlerDone? }

  function LiveHandlers(hs: seq<HandlerPc>): nat {
    if hs == [] then 0 else (if LiveHandler(hs[0]) then 1 else 0) + LiveHandlers(hs[1..])
  }

  function Live(s: State): nat {
    (if s.accept.AcceptUnborn? || s.accept.AcceptDone? then 0 else 1)
    + (if s.idle.IdleUnborn? || s.idle.IdleDone? then 0 else 1)
    + (if s.prune.PruneUnborn? || s.prune.PruneDone? then 0 else 1)
    + LiveHandlers(s.handlers)
  }

  /** Goroutines already added to the wait group whose `go` statement comes next. */
  function Starting(s: State): nat {
    if s.main.GoAccept? || s.main.GoIdle? || s.main.GoPrune? || s.main.GoConn? then 1 else 0
  }
}

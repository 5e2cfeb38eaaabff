/** Once a shutdown has started, the agent and its finishing clients can take only boundedly many
    steps, and `Serve` returns exactly when no connection is caught in the hand-over. */
module AgentProgress {
  import opened Agent
  import opened AgentSafety
  import opened AgentShutdown
  import opened AgentTimers

  /******* Ranking *******/

  function MainRank(m: MainPc): nat {
    match m
    case NewTimers => 15
    case AddAccept => 14
    case GoAccept => 13
    case AddIdle => 12
    case GoIdle => 11
    case AddPrune => 10
    case AddConn => 9
    case GoPrune => 8
    case GoConn => 8
    case Select => 5
    case CloseListener => 4
    case WaitServe => 3
    case WaitCleanup => 2
    case ReleaseLock => 1
    case Released => 0
  }

  function AcceptRank(a: AcceptPc): nat {
    match a
    case Sending => 7
    case Accepting => 2
    case AcceptExit => 1
    case _ => 0
  }

  function ShutdownRank(pc: ShutdownPc): nat { if pc.Cas? then 4 else 10 - Index(pc) }

  function IdleRank(i: IdlePc): nat {
    match i
    case IdleRecv => 7
    case CheckTimeout => 6
    case CheckStarted => 5
    case IdleShutdown(pc) => ShutdownRank(pc)
    case IdleExit => 1
    case _ => 0
  }

  function PruneRank(p: PrunePc): nat {
    match p
    case PruneRecv => 8
    case CheckInterval => 7
    case CheckStopped => 6
    case Pruning => 5
    case ReadInterval => 4
    case ResetPruneTimer(_) => 3
    case PruneLoop => 2
    case PruneExit => 1
    case _ => 0
  }

  function HandlerRank(h: HandlerPc): nat {
    match h
    case ReadTimeout(_) => 7
    case ResetIdleTimer(_, _) => 6
    case Dispatch(_) => 5
    case HandlerShutdown(pc) => ShutdownRank(pc)
    case Respond => 3
    case RespondBad => 2
    case Decode => 2
    case HandlerExit => 1
    case HandlerDone => 0
  }

  function HandlersRank(hs: seq<HandlerPc>): nat {
    if hs == [] then 0 else HandlerRank(hs[0]) + HandlersRank(hs[1..])
  }

  function Rank(s: State): nat {
    MainRank(s.main) + AcceptRank(s.accept) + IdleRank(s.idle) + PruneRank(s.prune) + HandlersRank(s.handlers)
  }

  lemma {:induction false} HandlersRankAt(hs: seq<HandlerPc>, i: nat, h: HandlerPc)
    requires i < |hs|
    ensures HandlersRank(hs[i := h]) + HandlerRank(hs[i]) == HandlersRank(hs) + HandlerRank(h)
  {
    if i == 0 {
      assert hs[0 := h][1..] == hs[1..];
    } else {
      HandlersRankAt(hs[1..], i - 1, h);
      assert hs[i := h][1..] == hs[1..][i - 1 := h];
    }
  }

  lemma {:induction false} HandlersRankSnoc(hs: seq<HandlerPc>, h: HandlerPc)
    ensures HandlersRank(hs + [h]) == HandlersRank(hs) + HandlerRank(h)
  {
    if hs != [] {
      HandlersRankSnoc(hs[1..], h);
      assert (hs + [h])[1..] == hs[1..] + [h];
    }
  }

  /** What a helpful step cannot undo. */
  predicate Keeps(s: State, t: State) {
    t.started && t.cfg == s.cfg && (!s.accept.Sending? ==> !t.accept.Sending?)
  }

  /** A step that moves one handler and leaves the other goroutines where they are. */
  predicate MovesHandler(s: State, t: State, i: nat) {
    && i < |s.handlers| && i < |t.handlers| && t.handlers == s.handlers[i := t.handlers[i]]
    && HandlerRank(t.handlers[i]) < HandlerRank(s.handlers[i])
    && t.main == s.main && t.accept == s.accept && t.idle == s.idle && t.prune == s.prune
    && t.started && t.cfg == s.cfg
  }

  lemma ClientMoves(s: State, a: Action)
    requires s.started && Enabled(s, a) && (a.Hangup? || a.Written?)
    ensures MovesHandler(s, Do(s, a), a.i)
  {
  }

  lemma HandlerMoves(s: State, i: nat)
    requires s.started && Enabled(s, HandlerStep(i))
    ensures MovesHandler(s, Do(s, HandlerStep(i)), i)
  {
    if s.handlers[i].HandlerShutdown? { HandlerShutdownMoves(s, i); }
  }

  lemma HandlerShutdownMoves(s: State, i: nat)
    requires s.started && i < |s.handlers| && s.handlers[i].HandlerShutdown?
    ensures MovesHandler(s, Do(s, HandlerStep(i)), i)
  {
  }

  lemma RankFallsMain(s: State, a: Action)
    requires s.started && !BeforeIdle(s.main) && Enabled(s, a)
    requires a.MainStep? || a.ReceiveConn? || a.ReceiveShutdown? || a.AcceptStep?
    ensures Rank(Do(s, a)) < Rank(s) && Keeps(s, Do(s, a))
  {
    HandlersRankSnoc(s.handlers, Decode);
  }

  lemma RankFallsIdle(s: State)
    requires s.started && Enabled(s, IdleStep)
    ensures Rank(Do(s, IdleStep)) < Rank(s) && Keeps(s, Do(s, IdleStep))
  {
  }

  lemma RankFallsPrune(s: State)
    requires s.started && Enabled(s, PruneStep)
    ensures Rank(Do(s, PruneStep)) < Rank(s) && Keeps(s, Do(s, PruneStep))
  {
  }

  /** Every helpful step after the start of a shutdown lowers the rank. */
  lemma RankFalls(s: State, a: Action)
    requires Inv(s) && s.started && Helpful(a) && Enabled(s, a)
    ensures Rank(Do(s, a)) < Rank(s) && Keeps(s, Do(s, a))
  {
    var t := Do(s, a);
    if a.Hangup? || a.Written? || a.HandlerStep? {
      if a.HandlerStep? { HandlerMoves(s, a.i); } else { ClientMoves(s, a); }
      HandlersRankAt(s.handlers, a.i, t.handlers[a.i]);
    } else if a.IdleStep? {
      RankFallsIdle(s);
    } else if a.PruneStep? {
      RankFallsPrune(s);
    } else {
      RankFallsMain(s, a);
    }
  }

  /** What the rest of the environment can do to the rank. */
  predicate Arrival(a: Action) { a.Deliver? || a.Connect? }

  lemma ArrivalsRaise(s: State, a: Action)
    requires s.started && !Helpful(a) && Enabled(s, a)
    ensures Rank(Do(s, a)) <= Rank(s) + (if Arrival(a) then 5 else 0)
    ensures Do(s, a).started && Do(s, a).cfg == s.cfg
    ensures !a.Connect? && !s.accept.Sending? ==> !Do(s, a).accept.Sending?
  {
    if a.Deliver? || a.DeliverBad? { HandlersRankAt(s.handlers, a.i, Do(s, a).handlers[a.i]); }
  }

  /******* Runs *******/

  function HelpfulSteps(run: seq<Action>): nat {
    if run == [] then 0 else (if Helpful(run[0]) then 1 else 0) + HelpfulSteps(run[1..])
  }

  function Arrivals(run: seq<Action>): nat {
    if run == [] then 0 else (if Arrival(run[0]) then 1 else 0) + Arrivals(run[1..])
  }

  ghost predicate HelpfulRun(s: State, run: seq<Action>) {
    IsRun(s, run) && forall i :: 0 <= i < |run| ==> Helpful(run[i])
  }

  ghost predicate Settled(s: State) { forall a :: Helpful(a) ==> !Enabled(s, a) }

  /** In any run whatsoever from the start of a shutdown, the agent and its finishing clients take at most
      as many steps as the rank says, and five more for each request and each connection that arrives. */
  lemma {:induction false} ShutdownRunsAreBounded(s: State, run: seq<Action>)
    requires Inv(s) && s.started && IsRun(s, run)
    ensures HelpfulSteps(run) + Rank(After(s, run)) <= Rank(s) + 5 * Arrivals(run)
    ensures Inv(After(s, run)) && After(s, run).started && After(s, run).cfg == s.cfg
    ensures Connect !in run && !s.accept.Sending? ==> !After(s, run).accept.Sending?
    decreases |run|
  {
    if run != [] {
      var a := run[0];
      if Helpful(a) { RankFalls(s, a); } else { ArrivalsRaise(s, a); }
      InvStep(s, a);
      ShutdownRunsAreBounded(Do(s, a), run[1..]);
    }
  }

  lemma ClientCanFinish(s: State, i: nat) returns (a: Action)
    requires i < |s.handlers| && WaitsOnClient(s.handlers[i])
    ensures Helpful(a) && Enabled(s, a)
  {
    a := if s.handlers[i].Decode? then Hangup(i) else Written(i);
  }

  /** Where a shutdown ends up once the clients are gone. */
  lemma SettledCases(s: State)
    requires Inv(s) && s.started && Settled(s)
    ensures (s.main.Released? && s.wg == 0) || AcceptStuck(s) || (s.cfg.split && IdleStranded(s))
    ensures s.progress == 6 && s.prune.PruneDone? && (s.idle.IdleDone? || IdleStranded(s))
    ensures Disarmed(s)
  {
    forall a | Internal(a) ensures !Enabled(s, a) { assert Helpful(a); }
    QuiescentOnlyIf(s);
    if s.main.WaitServe? && !AcceptStuck(s) && !IdleStranded(s) {
      var i := SomeLive(s.handlers);
      var a := ClientCanFinish(s, i);
      assert false;
    }
    forall i: nat ensures !Rearms(s, i) {
      assert Helpful(HandlerStep(i)) && !Enabled(s, HandlerStep(i));
    }
  }

  /** Once the configured timeout has passed, nothing re-armed keeps a settled shutdown from releasing. */
  lemma SettledAfterTimeout(s: State, d: nat)
    requires Inv(s) && Bounded(s) && s.started && Settled(Do(s, Tick(d))) && d >= Patience(s.cfg)
    ensures var t := Do(s, Tick(d)); (t.main.Released? && t.wg == 0) || AcceptStuck(t)
    ensures Awake(Do(s, Tick(d)))
  {
    InvStep(s, Tick(d));
    SettledCases(Do(s, Tick(d)));
  }

  /** From a shutdown with no connection in hand-over, as long as none is accepted any more: the run is
      bounded; where it settles `Serve` has returned and the lock is released, unless a split re-arm
      strands the idle goroutine; and where it stays settled for the configured timeout `Serve` has
      returned in any case. */
  lemma ServeReturns(s: State, run: seq<Action>)
    requires Reachable(s) && s.started && !s.accept.Sending?
    requires IsRun(s, run) && Connect !in run
    ensures HelpfulSteps(run) <= Rank(s) + 5 * Arrivals(run)
    ensures var t := After(s, run);
      && (Settled(t) ==> (t.main.Released? && t.wg == 0) || (s.cfg.split && s.cfg.idle > 0 && IdleStranded(t)))
      && forall d: nat :: d >= Patience(s.cfg) && Settled(Do(t, Tick(d))) ==> t.main.Released? && t.wg == 0
  {
    InvReachable(s);
    BoundedReachable(s);
    ShutdownRunsAreBounded(s, run);
    BoundedRun(s, run);
    var t := After(s, run);
    if Settled(t) { SettledCases(t); }
    forall d: nat | d >= Patience(s.cfg) && Settled(Do(t, Tick(d))) ensures t.main.Released? && t.wg == 0 {
      SettledAfterTimeout(t, d);
    }
  }

  /** A re-armed idle timer delays the return of `Serve` by no more than the configured timeout: once it
      has passed, every run that settles has released the lock. */
  lemma ServeReturnsAfterTimeout(s: State, d: nat, run: seq<Action>)
    requires Reachable(s) && s.started && !s.accept.Sending? && Settled(s) && d >= Patience(s.cfg)
    requires IsRun(Do(s, Tick(d)), run) && Connect !in run
    ensures var t := After(Do(s, Tick(d)), run);
      !IdleStranded(t) && (Settled(t) ==> t.main.Released? && t.wg == 0)
  {
    InvReachable(s);
    BoundedReachable(s);
    SettledCases(s);
    var u := Do(s, Tick(d));
    InvStep(s, Tick(d));
    forall i: nat ensures !Rearms(u, i) { assert !Rearms(s, i); }
    AwakeRun(u, run);
    ShutdownRunsAreBounded(u, run);
    if Settled(After(u, run)) { SettledCases(After(u, run)); }
  }

  /** A settled state can be reached from every state of a shutdown. */
  lemma {:induction false} CanSettle(s: State) returns (run: seq<Action>)
    requires Inv(s) && s.started
    ensures HelpfulRun(s, run) && Settled(After(s, run))
    decreases Rank(s)
  {
    if Settled(s) {
      run := [];
    } else {
      var a :| Helpful(a) && Enabled(s, a);
      RankFalls(s, a);
      InvStep(s, a);
      var rest := CanSettle(Do(s, a));
      run := [a] + rest;
      assert run[1..] == rest;
      assert forall i :: 1 <= i < |run| ==> run[i] == rest[i - 1];
    }
  }
}

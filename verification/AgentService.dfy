/** What the agent does for its clients and by itself, over all runs: when it shuts down and when it does
    not, when it prunes, and how long a connection lasts. */
module AgentService {
  import opened Wrappers
  import opened Agent
  import opened AgentSafety
  import opened AgentShutdown
  import opened AgentTimers

  /******* The idle timeout shuts the agent down *******/

  ghost predicate IdleServed(s: State) {
    s.cfg.idle >= 0 && (s.idle.IdleExit? || s.idle.IdleDone?) ==> s.started
  }

  /** What a step leaves alone besides the goroutine that takes it. */
  predicate Frame(s: State, t: State, a: Action) {
    && t.cfg == s.cfg && s.now <= t.now
    && (s.started ==> t.started) && (s.winner.Some? ==> t.winner == s.winner)
    && (!a.IdleStep? && !a.MainStep? ==> t.idle == s.idle)
    && (!a.PruneStep? && !a.MainStep? ==> t.prune == s.prune)
  }

  lemma HandlerFrame(s: State, i: nat)
    requires Inv(s) && Enabled(s, HandlerStep(i))
    ensures Frame(s, Do(s, HandlerStep(i)), HandlerStep(i))
  {
  }

  lemma IdleFrame(s: State)
    requires Inv(s) && Enabled(s, IdleStep)
    ensures Frame(s, Do(s, IdleStep), IdleStep)
  {
  }

  lemma StepFrame(s: State, a: Action)
    requires Inv(s) && Enabled(s, a)
    ensures Frame(s, Do(s, a), a)
  {
    if a.HandlerStep? { HandlerFrame(s, a.i); } else if a.IdleStep? { IdleFrame(s); }
  }

  lemma IdleServedByIdle(s: State)
    requires Inv(s) && IdleServed(s) && Enabled(s, IdleStep)
    ensures IdleServed(Do(s, IdleStep))
  {
  }

  lemma IdleServedByMain(s: State)
    requires Inv(s) && IdleServed(s) && Enabled(s, MainStep)
    ensures IdleServed(Do(s, MainStep))
  {
  }

  lemma IdleServedStep(s: State, a: Action)
    requires Inv(s) && IdleServed(s) && Enabled(s, a)
    ensures IdleServed(Do(s, a))
  {
    StepFrame(s, a);
    if a.IdleStep? { IdleServedByIdle(s); } else if a.MainStep? { IdleServedByMain(s); }
  }

  lemma {:induction false} IdleServedRun(s: State, run: seq<Action>)
    requires Inv(s) && IdleServed(s) && IsRun(s, run)
    ensures IdleServed(After(s, run))
    decreases |run|
  {
    if run != [] {
      IdleServedStep(s, run[0]);
      InvStep(s, run[0]);
      IdleServedRun(Do(s, run[0]), run[1..]);
    }
  }

  /** With a timeout that is not negative the idle goroutine never ends without a shutdown. */
  lemma IdleExitMeansShutdown(s: State)
    requires Reachable(s) && s.cfg.idle >= 0 && (s.idle.IdleExit? || s.idle.IdleDone?)
    ensures s.started
  {
    var cfg, run :| IsRun(Init(cfg), run) && After(Init(cfg), run) == s;
    InvInit(cfg);
    IdleServedRun(Init(cfg), run);
  }

  /** An agent with such a timeout does not come to rest without a shutdown: left alone for the timeout
      it has either started one or still has a step to take. */
  lemma IdleAgentShutsDown(s: State, d: nat)
    requires Reachable(s) && s.cfg.idle >= 0 && d >= s.cfg.idle && Quiescent(Do(s, Tick(d)))
    ensures s.started
  {
    InvReachable(s);
    BoundedReachable(s);
    var t := Do(s, Tick(d));
    assert !Enabled(t, MainStep) && !Enabled(t, IdleStep);
    if s.idle.IdleDone? { IdleExitMeansShutdown(s); }
  }

  /******* and not before it has passed *******/

  /** A pending Reset carries the configured timeout as long as the shutdown has not overwritten it. */
  ghost predicate ReadsConfigured(s: State) {
    s.progress < 2 ==> forall i :: 0 <= i < |s.handlers| ==> s.handlers[i].ResetIdleTimer? ==> s.handlers[i].d == s.cfg.idle
  }

  /** The idle goroutine does not get past its timer before time `due` unless a shutdown has started. */
  ghost predicate NotBefore(s: State, due: int) {
    && due <= s.now + s.cfg.idle
    && (!s.started ==>
          && (s.idle.IdleRecv? || (s.idle.IdleUnborn? && !s.main.NewTimers?) ==> s.idleTimer.Some? && due <= s.idleTimer.value)
          && (s.idle.CheckTimeout? || s.idle.CheckStarted? || s.idle.IdleShutdown? ==> due <= s.now))
    && (s.winner == Some(IdleGoroutine) ==> due <= s.now)
  }

  lemma ReadsConfiguredByHandler(s: State, i: nat)
    requires Inv(s) && ReadsConfigured(s) && Enabled(s, HandlerStep(i))
    ensures ReadsConfigured(Do(s, HandlerStep(i)))
  {
    ProgressGrows(s, HandlerStep(i));
  }

  lemma ReadsConfiguredStep(s: State, a: Action)
    requires Inv(s) && ReadsConfigured(s) && Enabled(s, a)
    ensures ReadsConfigured(Do(s, a))
  {
    if a.HandlerStep? { ReadsConfiguredByHandler(s, a.i); } else { ReadsConfiguredByOther(s, a); }
  }

  lemma ReadsConfiguredByOther(s: State, a: Action)
    requires Inv(s) && ReadsConfigured(s) && Enabled(s, a) && !a.HandlerStep?
    ensures ReadsConfigured(Do(s, a))
  {
    ProgressGrows(s, a);
  }

  lemma {:induction false} ReadsConfiguredRun(s: State, run: seq<Action>)
    requires Inv(s) && ReadsConfigured(s) && IsRun(s, run)
    ensures ReadsConfigured(After(s, run))
    decreases |run|
  {
    if run != [] {
      ReadsConfiguredStep(s, run[0]);
      InvStep(s, run[0]);
      ReadsConfiguredRun(Do(s, run[0]), run[1..]);
    }
  }

  lemma NotBeforeByHandler(s: State, i: nat, due: int)
    requires Inv(s) && ReadsConfigured(s) && NotBefore(s, due) && Enabled(s, HandlerStep(i))
    ensures NotBefore(Do(s, HandlerStep(i)), due)
  {
  }

  lemma NotBeforeByIdle(s: State, due: int)
    requires Inv(s) && NotBefore(s, due) && Enabled(s, IdleStep)
    ensures NotBefore(Do(s, IdleStep), due)
  {
  }

  lemma NotBeforeByOther(s: State, a: Action, due: int)
    requires Inv(s) && NotBefore(s, due) && Enabled(s, a) && !a.HandlerStep? && !a.IdleStep?
    ensures NotBefore(Do(s, a), due)
  {
    if a.MainStep? { NotBeforeByMain(s, due); } else { StepFrame(s, a); }
  }

  lemma NotBeforeByMain(s: State, due: int)
    requires Inv(s) && NotBefore(s, due) && Enabled(s, MainStep)
    ensures NotBefore(Do(s, MainStep), due)
  {
  }

  lemma {:induction false} NotBeforeRun(s: State, run: seq<Action>, due: int)
    requires Inv(s) && ReadsConfigured(s) && NotBefore(s, due) && IsRun(s, run)
    ensures NotBefore(After(s, run), due)
    decreases |run|
  {
    if run != [] {
      var a := run[0];
      if a.HandlerStep? { NotBeforeByHandler(s, a.i, due); }
      else if a.IdleStep? { NotBeforeByIdle(s, due); }
      else { NotBeforeByOther(s, a, due); }
      ReadsConfiguredStep(s, a);
      InvStep(s, a);
      NotBeforeRun(Do(s, a), run[1..], due);
    }
  }

  /** The step by which a handler restarts the idle timer for a request. */
  predicate Restarts(s: State, i: nat) {
    i < |s.handlers| && (s.handlers[i].ResetIdleTimer? || (s.handlers[i].ReadTimeout? && !s.cfg.split))
  }

  /** Every request keeps the agent alive for the whole timeout: if the idle goroutine was waiting when a
      handler restarted its timer, it does not shut the agent down before the timeout has passed since. */
  lemma RequestKeepsAlive(s: State, i: nat, run: seq<Action>)
    requires Reachable(s) && !s.started && s.idle.IdleRecv? && Restarts(s, i)
    requires IsRun(Do(s, HandlerStep(i)), run)
    ensures var t := After(Do(s, HandlerStep(i)), run);
      t.winner == Some(IdleGoroutine) ==> s.now + s.cfg.idle <= t.now
  {
    InvReachable(s);
    ReadsConfiguredReachable(s);
    ReadsConfiguredStep(s, HandlerStep(i));
    InvStep(s, HandlerStep(i));
    NotBeforeRun(Do(s, HandlerStep(i)), run, s.now + s.cfg.idle);
  }

  /** Nor does an idle shutdown come before the timeout has passed since the start. */
  lemma StartKeepsAlive(cfg: Config, run: seq<Action>)
    requires IsRun(Init(cfg), run)
    ensures var t := After(Init(cfg), run); t.winner == Some(IdleGoroutine) ==> cfg.idle <= t.now
  {
    InvInit(cfg);
    NotBeforeRun(Init(cfg), run, cfg.idle);
  }

  lemma ReadsConfiguredReachable(s: State)
    requires Reachable(s)
    ensures ReadsConfigured(s)
  {
    var cfg, run :| IsRun(Init(cfg), run) && After(Init(cfg), run) == s;
    InvInit(cfg);
    ReadsConfiguredRun(Init(cfg), run);
  }

  /******* Shutdown requests *******/

  /** A handler that has a shutdown request and has not yet reached its compare-and-swap. */
  predicate Asked(h: HandlerPc) {
    h == ReadTimeout(Shutdown) || (h.ResetIdleTimer? && h.m.Shutdown?) || h == Dispatch(Shutdown) || h == HandlerShutdown(Cas)
  }

  lemma AskedReachesCas(s: State, i: nat)
    requires Enabled(s, HandlerStep(i)) && Asked(s.handlers[i]) && !s.handlers[i].HandlerShutdown?
    ensures var t := Do(s, HandlerStep(i)); i < |t.handlers| && Asked(t.handlers[i])
  {
  }

  lemma CasStarts(s: State, i: nat)
    requires i < |s.handlers| && s.handlers[i] == HandlerShutdown(Cas)
    ensures Do(s, HandlerStep(i)).started && |Do(s, HandlerStep(i)).handlers| == |s.handlers|
  {
  }

  lemma OtherHandlersKept(s: State, i: nat, j: nat)
    requires Enabled(s, HandlerStep(j)) && i < |s.handlers| && i != j
    ensures |Do(s, HandlerStep(j)).handlers| == |s.handlers| && Do(s, HandlerStep(j)).handlers[i] == s.handlers[i]
  {
  }

  lemma AskedByHandler(s: State, i: nat, j: nat)
    requires i < |s.handlers| && Asked(s.handlers[i]) && Enabled(s, HandlerStep(j))
    ensures var t := Do(s, HandlerStep(j)); i < |t.handlers| && (Asked(t.handlers[i]) || t.started)
  {
    if i != j { OtherHandlersKept(s, i, j); }
    else if s.handlers[i].HandlerShutdown? { CasStarts(s, i); }
    else { AskedReachesCas(s, i); }
  }

  lemma AskedByOther(s: State, i: nat, a: Action)
    requires Inv(s) && i < |s.handlers| && Asked(s.handlers[i]) && Enabled(s, a) && !a.HandlerStep?
    ensures i < |Do(s, a).handlers| && Asked(Do(s, a).handlers[i])
  {
  }

  lemma {:induction false} StartedStays(s: State, run: seq<Action>)
    requires Inv(s) && s.started && IsRun(s, run)
    ensures After(s, run).started
    decreases |run|
  {
    if run != [] {
      StepFrame(s, run[0]);
      InvStep(s, run[0]);
      StartedStays(Do(s, run[0]), run[1..]);
    }
  }

  /** A shutdown request is carried out: by the time its handler has moved on, a shutdown has started. */
  lemma {:induction false} ShutdownRequestsAreServed(s: State, i: nat, run: seq<Action>)
    requires Inv(s) && i < |s.handlers| && Asked(s.handlers[i]) && IsRun(s, run)
    ensures i < |After(s, run).handlers|
    ensures Asked(After(s, run).handlers[i]) || After(s, run).started
    decreases |run|
  {
    if run != [] {
      var a := run[0];
      var t := Do(s, a);
      if a.HandlerStep? { AskedByHandler(s, i, a.i); } else { AskedByOther(s, i, a); }
      InvStep(s, a);
      if Asked(t.handlers[i]) {
        ShutdownRequestsAreServed(t, i, run[1..]);
      } else {
        StartedStays(t, run[1..]);
        HandlersStay(t, run[1..]);
      }
    }
  }

  lemma {:induction false} HandlersStay(s: State, run: seq<Action>)
    requires IsRun(s, run)
    ensures |s.handlers| <= |After(s, run).handlers|
    decreases |run|
  {
    if run != [] {
      HandlersOnlyGrow(s, run[0]);
      HandlersStay(Do(s, run[0]), run[1..]);
    }
  }

  lemma HandlersOnlyGrow(s: State, a: Action)
    requires Enabled(s, a)
    ensures |s.handlers| <= |Do(s, a).handlers|
  {
  }

  /** Nobody has asked: no handler has, or carries out, a shutdown request. */
  ghost predicate Unasked(s: State) {
    && (forall i :: 0 <= i < |s.handlers| ==> !Asked(s.handlers[i]) && !s.handlers[i].HandlerShutdown?)
    && (s.winner.Some? ==> s.winner == Some(IdleGoroutine))
  }

  lemma UnaskedByHandler(s: State, i: nat)
    requires Inv(s) && Unasked(s) && Enabled(s, HandlerStep(i))
    ensures Unasked(Do(s, HandlerStep(i)))
  {
    assert !Asked(s.handlers[i]);
  }

  lemma UnaskedByOther(s: State, a: Action)
    requires Inv(s) && Unasked(s) && Enabled(s, a) && !a.HandlerStep? && !(a.Deliver? && a.m.Shutdown?)
    ensures Unasked(Do(s, a))
  {
    if a.IdleStep? { UnaskedByIdle(s); } else if a.MainStep? { UnaskedByMain(s); } else { UnaskedByRest(s, a); }
  }

  lemma UnaskedByIdle(s: State)
    requires Inv(s) && Unasked(s) && Enabled(s, IdleStep)
    ensures Unasked(Do(s, IdleStep))
  {
  }

  lemma UnaskedByMain(s: State)
    requires Inv(s) && Unasked(s) && Enabled(s, MainStep)
    ensures Unasked(Do(s, MainStep))
  {
  }

  lemma UnaskedByRest(s: State, a: Action)
    requires Inv(s) && Unasked(s) && Enabled(s, a) && !(a.Deliver? && a.m.Shutdown?)
    requires !a.HandlerStep? && !a.IdleStep? && !a.MainStep?
    ensures Unasked(Do(s, a))
  {
  }

  predicate AsksShutdown(run: seq<Action>) { exists i :: 0 <= i < |run| && run[i].Deliver? && run[i].m.Shutdown? }

  lemma {:induction false} UnaskedRun(s: State, run: seq<Action>)
    requires Inv(s) && Unasked(s) && IsRun(s, run) && !AsksShutdown(run)
    ensures Unasked(After(s, run))
    decreases |run|
  {
    if run != [] {
      var a := run[0];
      assert !(a.Deliver? && a.m.Shutdown?);
      assert forall i :: 0 <= i < |run[1..]| ==> run[1..][i] == run[i + 1];
      if a.HandlerStep? { UnaskedByHandler(s, a.i); } else { UnaskedByOther(s, a); }
      InvStep(s, a);
      UnaskedRun(Do(s, a), run[1..]);
    }
  }

  /** Only a shutdown request or the idle timeout shuts the agent down; with a negative timeout an agent
      that is not asked runs on. */
  lemma OnlyAskedOrIdle(cfg: Config, run: seq<Action>)
    requires IsRun(Init(cfg), run) && !AsksShutdown(run)
    ensures var t := After(Init(cfg), run);
      t.started ==> t.winner == Some(IdleGoroutine) && cfg.idle >= 0
  {
    InvInit(cfg);
    UnaskedRun(Init(cfg), run);
    InvRun(Init(cfg), run);
    CfgStays(Init(cfg), run);
  }

  lemma {:induction false} CfgStays(s: State, run: seq<Action>)
    requires Inv(s) && IsRun(s, run)
    ensures After(s, run).cfg == s.cfg
    decreases |run|
  {
    if run != [] {
      StepFrame(s, run[0]);
      InvStep(s, run[0]);
      CfgStays(Do(s, run[0]), run[1..]);
    }
  }

  /******* Connections *******/

  function Connects(run: seq<Action>): nat {
    if run == [] then 0 else (if run[0].Connect? then 1 else 0) + Connects(run[1..])
  }

  /** Connections accepted so far: one in hand-over, one about to get its handler, and the handled ones. */
  function Accepted(s: State): nat {
    (if s.accept.Sending? then 1 else 0) + (if s.main.AddConn? || s.main.GoConn? then 1 else 0) + |s.handlers|
  }

  lemma AcceptedByHandler(s: State, i: nat)
    requires Enabled(s, HandlerStep(i))
    ensures Accepted(Do(s, HandlerStep(i))) == Accepted(s)
  {
  }

  lemma AcceptedByTimers(s: State, a: Action)
    requires Enabled(s, a) && (a.IdleStep? || a.PruneStep?)
    ensures Accepted(Do(s, a)) == Accepted(s)
  {
  }

  lemma AcceptedByRest(s: State, a: Action)
    requires Inv(s) && Enabled(s, a) && !a.HandlerStep? && !a.IdleStep? && !a.PruneStep?
    ensures Accepted(Do(s, a)) == Accepted(s) + (if a.Connect? then 1 else 0)
  {
  }

  /** No connection is lost: each one accepted is in hand-over, about to get its handler, or has it. */
  lemma {:induction false} ConnectionsAreKept(s: State, run: seq<Action>)
    requires Inv(s) && IsRun(s, run)
    ensures Accepted(After(s, run)) == Accepted(s) + Connects(run)
    decreases |run|
  {
    if run != [] {
      var a := run[0];
      if a.HandlerStep? { AcceptedByHandler(s, a.i); }
      else if a.IdleStep? || a.PruneStep? { AcceptedByTimers(s, a); }
      else { AcceptedByRest(s, a); }
      InvStep(s, a);
      ConnectionsAreKept(Do(s, a), run[1..]);
    }
  }

  predicate Open(h: HandlerPc) { !h.RespondBad? && !h.HandlerExit? && !h.HandlerDone? }

  predicate Ends(run: seq<Action>, i: nat) { exists k :: 0 <= k < |run| && (run[k] == Hangup(i) || run[k] == DeliverBad(i)) }

  lemma OpenByHandler(s: State, i: nat, j: nat)
    requires i < |s.handlers| && Open(s.handlers[i]) && Enabled(s, HandlerStep(j))
    ensures var t := Do(s, HandlerStep(j)); i < |t.handlers| && Open(t.handlers[i])
  {
  }

  lemma OpenByOther(s: State, i: nat, a: Action)
    requires i < |s.handlers| && Open(s.handlers[i]) && Enabled(s, a) && !a.HandlerStep?
    requires a != Hangup(i) && a != DeliverBad(i)
    ensures i < |Do(s, a).handlers| && Open(Do(s, a).handlers[i])
  {
  }

  /** A connection lasts until its client hangs up or sends a malformed message, whatever else happens. */
  lemma {:induction false} ConnectionsLast(s: State, i: nat, run: seq<Action>)
    requires i < |s.handlers| && Open(s.handlers[i]) && IsRun(s, run) && !Ends(run, i)
    ensures i < |After(s, run).handlers| && Open(After(s, run).handlers[i])
    decreases |run|
  {
    if run != [] {
      var a := run[0];
      assert a != Hangup(i) && a != DeliverBad(i);
      assert forall k :: 0 <= k < |run[1..]| ==> run[1..][k] == run[k + 1];
      if a.HandlerStep? { OpenByHandler(s, i, a.i); } else { OpenByOther(s, i, a); }
      ConnectionsLast(Do(s, a), i, run[1..]);
    }
  }

  /** A handler with a request it has not answered yet. */
  predicate Serving(h: HandlerPc) {
    h.ReadTimeout? || h.ResetIdleTimer? || h.Dispatch? || h.HandlerShutdown? || h.Respond?
  }

  lemma ServingByHandler(s: State, i: nat, j: nat)
    requires i < |s.handlers| && Serving(s.handlers[i]) && Enabled(s, HandlerStep(j))
    ensures var t := Do(s, HandlerStep(j)); i < |t.handlers| && Serving(t.handlers[i])
  {
  }

  lemma ServingByOther(s: State, i: nat, a: Action)
    requires i < |s.handlers| && Serving(s.handlers[i]) && Enabled(s, a) && !a.HandlerStep? && a != Written(i)
    ensures i < |Do(s, a).handlers| && Serving(Do(s, a).handlers[i])
  {
  }

  /** Every request is answered: a handler that has one reads no other and does not end before its client
      has taken the response. */
  lemma {:induction false} RequestsAreAnswered(s: State, i: nat, run: seq<Action>)
    requires i < |s.handlers| && Serving(s.handlers[i]) && IsRun(s, run) && Written(i) !in run
    ensures i < |After(s, run).handlers| && Serving(After(s, run).handlers[i])
    decreases |run|
  {
    if run != [] {
      var a := run[0];
      if a.HandlerStep? { ServingByHandler(s, i, a.i); } else { ServingByOther(s, i, a); }
      RequestsAreAnswered(Do(s, a), i, run[1..]);
    }
  }

  predicate Attended(h: HandlerPc) { !h.HandlerExit? && !h.HandlerDone? }

  lemma AttendedByHandler(s: State, i: nat, j: nat)
    requires i < |s.handlers| && Attended(s.handlers[i]) && Enabled(s, HandlerStep(j))
    ensures var t := Do(s, HandlerStep(j)); i < |t.handlers| && Attended(t.handlers[i])
  {
  }

  lemma AttendedByOther(s: State, i: nat, a: Action)
    requires i < |s.handlers| && Attended(s.handlers[i]) && Enabled(s, a) && !a.HandlerStep?
    requires a != Hangup(i) && a != Written(i)
    ensures i < |Do(s, a).handlers| && Attended(Do(s, a).handlers[i])
  {
  }

  /** No handler leaves in silence: unless its client hangs up it ends only after a response, be it the one
      to a malformed message. */
  lemma {:induction false} NoSilentEnd(s: State, i: nat, run: seq<Action>)
    requires i < |s.handlers| && Attended(s.handlers[i]) && IsRun(s, run) && Hangup(i) !in run && Written(i) !in run
    ensures i < |After(s, run).handlers| && Attended(After(s, run).handlers[i])
    decreases |run|
  {
    if run != [] {
      var a := run[0];
      if a.HandlerStep? { AttendedByHandler(s, i, a.i); } else { AttendedByOther(s, i, a); }
      NoSilentEnd(Do(s, a), i, run[1..]);
    }
  }

  predicate AcceptsNoMore(s: State) { s.accept.AcceptExit? || s.accept.AcceptDone? }

  lemma AcceptEnds(s: State, a: Action)
    requires Inv(s) && Enabled(s, a) && (AcceptsNoMore(s) || a.AcceptFails?)
    ensures AcceptsNoMore(Do(s, a))
  {
    if a.HandlerStep? { AcceptOfHandler(s, a.i); } else if a.IdleStep? { AcceptOfIdle(s); }
  }

  lemma AcceptOfHandler(s: State, i: nat)
    requires Enabled(s, HandlerStep(i))
    ensures Do(s, HandlerStep(i)).accept == s.accept
  {
  }

  lemma AcceptOfIdle(s: State)
    requires Enabled(s, IdleStep)
    ensures Do(s, IdleStep).accept == s.accept
  {
  }

  /** After a failing accept no connection is handed over any more. */
  lemma {:induction false} NoConnectionAfterFailure(s: State, run: seq<Action>)
    requires Inv(s) && IsRun(s, run) && (AcceptsNoMore(s) || AcceptFails in run)
    ensures AcceptsNoMore(After(s, run))
    decreases |run|
  {
    if run != [] {
      InvStep(s, run[0]);
      if AcceptsNoMore(s) || run[0].AcceptFails? { AcceptEnds(s, run[0]); }
      NoConnectionAfterFailure(Do(s, run[0]), run[1..]);
    }
  }
}

/** Exactly when a shutdown completes. */
module AgentLiveness {
  import opened Agent
  import opened AgentSafety
  import opened AgentShutdown
  import opened AgentTimers
  import opened AgentProgress

  /******* Getting stuck *******/

  /** A step towards a stuck accept goroutine. */
  lemma TowardsStuck(s: State) returns (a: Action)
    requires Inv(s) && s.started && s.accept.Sending? && !AcceptStuck(s)
    ensures Helpful(a) && Enabled(s, a) && Do(s, a).accept.Sending?
  {
    if s.progress < 6 {
      a := WinnerCanStep(s);
    } else if s.main.Select? {
      a := ReceiveShutdown;
    } else {
      a := MainStep;
    }
  }

  /** A connection in hand-over can always be left with nobody to receive it. */
  lemma {:induction false} GetStuck(s: State) returns (run: seq<Action>)
    requires Inv(s) && s.started && s.accept.Sending?
    ensures HelpfulRun(s, run) && AcceptStuck(After(s, run))
    decreases Rank(s)
  {
    if AcceptStuck(s) {
      run := [];
    } else {
      var a := TowardsStuck(s);
      RankFalls(s, a);
      InvStep(s, a);
      var rest := GetStuck(Do(s, a));
      run := [a] + rest;
      assert run[1..] == rest;
      assert forall i :: 1 <= i < |run| ==> run[i] == rest[i - 1];
    }
  }

  /** The run leaves the accept goroutine stuck. */
  ghost predicate Sticks(s: State, run: seq<Action>) { IsRun(s, run) && AcceptStuck(After(s, run)) }

  /** A connection is in hand-over, or one can still be accepted. */
  predicate CanHandOver(s: State) { s.accept.Sending? || (s.accept.Accepting? && s.listening) }

  lemma HandOverIsOver(s: State, a: Action)
    requires Inv(s) && s.started && !CanHandOver(s) && Enabled(s, a)
    ensures !CanHandOver(Do(s, a)) && Do(s, a).started
  {
    if Helpful(a) { RankFalls(s, a); } else { ArrivalsRaise(s, a); }
    AcceptFrame(s, a);
  }

  lemma AcceptFrame(s: State, a: Action)
    requires Enabled(s, a) && !BeforeIdle(s.main)
    ensures Do(s, a).listening ==> s.listening
    ensures Do(s, a).accept.Accepting? ==> s.accept.Accepting? || s.accept.Sending?
  {
  }

  lemma {:induction false} HandOverStaysOver(s: State, run: seq<Action>)
    requires Inv(s) && s.started && !CanHandOver(s) && IsRun(s, run)
    ensures !CanHandOver(After(s, run))
    decreases |run|
  {
    if run != [] {
      HandOverIsOver(s, run[0]);
      InvStep(s, run[0]);
      HandOverStaysOver(Do(s, run[0]), run[1..]);
    }
  }

  lemma HelpfulRunsConnectNobody(s: State, run: seq<Action>)
    requires HelpfulRun(s, run)
    ensures Connect !in run
  {
  }

  /** The accept goroutine can get stuck exactly when a connection is in hand-over, if no more are accepted;
      otherwise exactly when one is in hand-over or the listener still takes one. */
  lemma CanGetStuckIff(s: State)
    requires Reachable(s) && s.started
    ensures (exists run: seq<Action> :: Sticks(s, run) && Connect !in run) <==> s.accept.Sending?
    ensures (exists run: seq<Action> :: Sticks(s, run)) <==> CanHandOver(s)
  {
    InvReachable(s);
    if s.accept.Sending? {
      var run := GetStuck(s);
      HelpfulRunsConnectNobody(s, run);
      assert Sticks(s, run);
    } else {
      forall run: seq<Action> | IsRun(s, run) && Connect !in run ensures !Sticks(s, run) {
        ShutdownRunsAreBounded(s, run);
      }
      if CanHandOver(s) {
        var run := StuckAfterConnect(s);
        assert Sticks(s, run);
      } else {
        forall run: seq<Action> | IsRun(s, run) ensures !Sticks(s, run) { HandOverStaysOver(s, run); }
      }
    }
  }

  lemma StuckAfterConnect(s: State) returns (run: seq<Action>)
    requires Inv(s) && s.started && s.accept.Accepting? && s.listening
    ensures IsRun(s, run) && AcceptStuck(After(s, run))
  {
    InvStep(s, Connect);
    var rest := GetStuck(Do(s, Connect));
    RunOne(s, Connect);
    RunConcat(s, [Connect], rest);
    run := [Connect] + rest;
  }

  /******* Coming to rest *******/

  /** No step of the agent or of a finishing client is enabled, however long the clock runs on. */
  ghost predicate AtRest(s: State) { forall d: nat :: Settled(Do(s, Tick(d))) }

  lemma SettledIsAtRest(s: State)
    requires Inv(s) && s.started && Settled(s) && s.idle.IdleDone?
    ensures AtRest(s)
  {
    SettledCases(s);
    forall d: nat, a | Helpful(a) ensures !Enabled(Do(s, Tick(d)), a) { assert !Enabled(s, a); }
  }

  lemma RestIsReached(s: State) returns (run: seq<Action>)
    requires Inv(s) && Bounded(s) && s.started
    ensures IsRun(s, run) && Connect !in run && AtRest(After(s, run))
  {
    var settle := CanSettle(s);
    ShutdownRunsAreBounded(s, settle);
    BoundedRun(s, settle);
    var t := After(s, settle);
    var again := RestAfterTimeout(t);
    RunConcat(s, settle, again);
    HelpfulRunsConnectNobody(s, settle);
    run := settle + again;
  }

  /** Waiting out the configured timeout wakes a stranded idle goroutine for good. */
  lemma RestAfterTimeout(s: State) returns (run: seq<Action>)
    requires Inv(s) && Bounded(s) && s.started && Settled(s)
    ensures IsRun(s, run) && Connect !in run && AtRest(After(s, run))
  {
    SettledCases(s);
    var wait := Tick(Patience(s.cfg));
    var u := Do(s, wait);
    InvStep(s, wait);
    forall i: nat ensures !Rearms(u, i) { assert !Rearms(s, i); }
    var rest := CanSettle(u);
    AwakeRun(u, rest);
    ShutdownRunsAreBounded(u, rest);
    SettledCases(After(u, rest));
    SettledIsAtRest(After(u, rest));
    RunOne(s, wait);
    RunConcat(s, [wait], rest);
    HelpfulRunsConnectNobody(u, rest);
    run := [wait] + rest;
  }

  /** A stuck accept goroutine can be left as the end of the run. */
  lemma StuckAtRest(s: State, run: seq<Action>) returns (longer: seq<Action>)
    requires Inv(s) && Bounded(s) && s.started && Sticks(s, run)
    ensures IsRun(s, longer) && AtRest(After(s, longer)) && !After(s, longer).main.Released?
    ensures Connect !in run ==> Connect !in longer
  {
    ShutdownRunsAreBounded(s, run);
    BoundedRun(s, run);
    var more := RestIsReached(After(s, run));
    StuckForEver(After(s, run), more);
    RunConcat(s, run, more);
    longer := run + more;
  }

  lemma RestIsRelease(s: State)
    requires Inv(s) && Bounded(s) && s.started && AtRest(s) && !s.accept.Sending?
    ensures s.main.Released? && s.wg == 0
  {
    var d := Patience(s.cfg);
    assert Settled(Do(s, Tick(d)));
    SettledAfterTimeout(s, d);
  }

  ghost predicate AlwaysReturns(s: State, connects: bool) {
    forall run: seq<Action> :: IsRun(s, run) && (!connects ==> Connect !in run) && AtRest(After(s, run)) ==>
      After(s, run).main.Released?
  }

  /** Every run of a shutdown that comes to rest has returned from `Serve` and released the lock, exactly
      when no connection is in hand-over (if no more are accepted) or none can be any more (in general).
      This holds for any configuration, with the split read as without, and in every run the clock and
      the clients may do as they like. */
  lemma ServeReturnsIff(s: State)
    requires Reachable(s) && s.started
    ensures AlwaysReturns(s, false) <==> !s.accept.Sending?
    ensures AlwaysReturns(s, true) <==> !CanHandOver(s)
  {
    InvReachable(s);
    BoundedReachable(s);
    CanGetStuckIff(s);
    if s.accept.Sending? {
      var run: seq<Action> :| Sticks(s, run) && Connect !in run;
      var longer := StuckAtRest(s, run);
    }
    if CanHandOver(s) {
      var run: seq<Action> :| Sticks(s, run);
      var longer := StuckAtRest(s, run);
    }
    forall run: seq<Action> | IsRun(s, run) && AtRest(After(s, run)) && !After(s, run).accept.Sending?
      ensures After(s, run).main.Released?
    {
      ShutdownRunsAreBounded(s, run);
      BoundedRun(s, run);
      RestIsRelease(After(s, run));
    }
    forall run: seq<Action> | IsRun(s, run) && !s.accept.Sending? && Connect !in run
      ensures !After(s, run).accept.Sending?
    {
      ShutdownRunsAreBounded(s, run);
    }
    forall run: seq<Action> | IsRun(s, run) && !CanHandOver(s) ensures !After(s, run).accept.Sending? {
      HandOverStaysOver(s, run);
    }
  }
}

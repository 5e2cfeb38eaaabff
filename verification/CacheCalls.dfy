/** When calls to the agent's cache fail, and that none is stuck. */
module CacheCalls {
  import opened MemCache
  import opened Protocol
  import opened CacheSystem

  /******* When calls fail *******/

  predicate Broken(p: Phase) { p.Abandoned? || p.Closed? }

  /** Failed calls are those of broken connections; a call in progress is its own connection's. */
  ghost predicate FailuresInv(s: System) {
    && (forall n :: 0 <= n < |s.calls| ==> s.calls[n].conn in s.conns)
    && (forall n :: 0 <= n < |s.calls| && Failed(s.calls[n]) ==> Broken(s.conns[s.calls[n].conn].phase))
    && (forall c :: c in s.conns ==> OwnCall(s, c))
  }

  predicate Failed(c: Call) { c.outcome.Some? && c.outcome.value.answer.Error? }

  ghost predicate OwnCall(s: System, c: nat)
    requires c in s.conns
  {
    var p := s.conns[c].phase;
    HasCall(p) ==> p.call < |s.calls| && s.calls[p.call].conn == c
  }

  /** A broken connection stays broken, and only a break breaks it. */
  lemma BreaksLast(parse: ExpiryParser, s: System, a: Step, c: nat)
    requires Enabled(s, a) && c in s.conns
    ensures var t := Do(parse, s, a);
      c in t.conns && (Broken(t.conns[c].phase) <==> Broken(s.conns[c].phase) || a == Break(c))
  {
  }

  /** A call that returns in a step fails exactly when it needed the agent and its connection is broken. */
  lemma CallFailsIff(parse: ExpiryParser, s: System, a: Step, n: nat)
    requires CallsInv(s) && FailuresInv(s) && Enabled(s, a) && n < |Do(parse, s, a).calls|
    requires n < |s.calls| ==> s.calls[n].outcome.None?
    requires Do(parse, s, a).calls[n].outcome.Some?
    ensures var t := Do(parse, s, a); var c := t.calls[n];
      c.conn in t.conns && (Failed(c) <==> Sendable(c.op) && Broken(t.conns[c.conn].phase))
  {
    if a.Return? || a.Break? {
      assert PhaseInv(s.log, s.calls, s.conns[a.c].phase) && OwnCall(s, a.c);
      FilterIsNoFailure(s.calls[n].op);
    }
    if a.Invoke? { FilterIsNoFailure(a.op); }
  }

  lemma FilterIsNoFailure(op: Op)
    ensures !FilteredAnswer(op).Error?
  {
  }

  lemma OldCallsKept(parse: ExpiryParser, s: System, a: Step, n: nat)
    requires CallsInv(s) && Enabled(s, a) && n < |s.calls|
    ensures var t := Do(parse, s, a);
      && n < |t.calls| && t.calls[n].conn == s.calls[n].conn && t.calls[n].op == s.calls[n].op
      && (s.calls[n].outcome.Some? ==>
            t.calls[n].outcome == s.calls[n].outcome || (Failed(s.calls[n]) && Failed(t.calls[n])))
  {
    if a.Execute? || a.Return? || a.Break? { assert PhaseInv(s.log, s.calls, s.conns[a.c].phase); }
  }

  lemma OwnCallKept(parse: ExpiryParser, s: System, a: Step, c: nat)
    requires CallsInv(s) && FailuresInv(s) && Enabled(s, a) && c in Do(parse, s, a).conns
    ensures OwnCall(Do(parse, s, a), c)
  {
    if c in s.conns {
      assert OwnCall(s, c);
      if HasCall(s.conns[c].phase) { OldCallsKept(parse, s, a, s.conns[c].phase.call); }
    }
  }

  lemma NewCallsConn(parse: ExpiryParser, s: System, a: Step, n: nat)
    requires Enabled(s, a) && |s.calls| <= n < |Do(parse, s, a).calls|
    ensures Do(parse, s, a).calls[n].conn in s.conns
  {
  }

  lemma FailuresKept(parse: ExpiryParser, s: System, a: Step)
    requires CallsInv(s) && FailuresInv(s) && Enabled(s, a)
    ensures FailuresInv(Do(parse, s, a))
  {
    var t := Do(parse, s, a);
    forall n | 0 <= n < |t.calls|
      ensures t.calls[n].conn in t.conns && (Failed(t.calls[n]) ==> Broken(t.conns[t.calls[n].conn].phase))
    {
      if n < |s.calls| { OldCallsKept(parse, s, a, n); } else { NewCallsConn(parse, s, a, n); }
      BreaksLast(parse, s, a, t.calls[n].conn);
      if t.calls[n].outcome.Some? && (n < |s.calls| ==> s.calls[n].outcome.None?) { CallFailsIff(parse, s, a, n); }
    }
    forall c | c in t.conns ensures OwnCall(t, c) { OwnCallKept(parse, s, a, c); }
  }

  lemma {:induction false} FailuresRun(parse: ExpiryParser, s: System, run: seq<Step>)
    requires Inv(parse, s) && FailuresInv(s) && IsRun(parse, s, run)
    ensures FailuresInv(After(parse, s, run))
    decreases |run|
  {
    if run != [] {
      FailuresKept(parse, s, run[0]);
      InvStep(parse, s, run[0]);
      FailuresRun(parse, Do(parse, s, run[0]), run[1..]);
    }
  }

  lemma {:induction false} BreaksRun(parse: ExpiryParser, s: System, run: seq<Step>, c: nat)
    requires IsRun(parse, s, run) && c in After(parse, s, run).conns && Broken(After(parse, s, run).conns[c].phase)
    requires c in s.conns ==> !Broken(s.conns[c].phase)
    ensures Break(c) in run
    decreases |run|
  {
    var t := Do(parse, s, run[0]);
    if c in s.conns { BreaksLast(parse, s, run[0], c); } else { ConnectsUnbroken(parse, s, run[0], c); }
    if run[0] != Break(c) { BreaksRun(parse, t, run[1..], c); }
  }

  lemma ConnectsUnbroken(parse: ExpiryParser, s: System, a: Step, c: nat)
    requires Enabled(s, a) && c !in s.conns
    ensures c in Do(parse, s, a).conns ==> !Broken(Do(parse, s, a).conns[c].phase)
  {
  }

  /** A call fails only if its own connection broke before: at any point of any run, the connection of a
      failed call has been broken in the run so far. In particular no call fails in a run without breaks. */
  lemma OnlyBreaksFailCalls(parse: ExpiryParser, run: seq<Step>, n: nat)
    requires IsRun(parse, START, run) && n < |After(parse, START, run).calls|
    requires Failed(After(parse, START, run).calls[n])
    ensures Break(After(parse, START, run).calls[n].conn) in run
  {
    FailuresRun(parse, START, run);
    BreaksRun(parse, START, run, After(parse, START, run).calls[n].conn);
  }

  /** A call that failed may still take effect: the agent can execute a request whose connection has
      broken, and the call stays failed. */
  lemma FailedCallsMayTakeEffect(parse: ExpiryParser, s: System, c: nat)
    requires Inv(parse, s) && FailuresInv(s) && s.mutex.Free? && c in s.conns && s.conns[c].phase.Abandoned?
    ensures Enabled(s, Execute(c))
    ensures var t, n := Do(parse, s, Execute(c)), s.conns[c].phase.call;
      && n < |t.calls| && Owns(t, n, |s.log|) && t.calls[n].outcome == s.calls[n].outcome
      && t.cache == (if t.calls[n].op.Store? then Stored(s.cache, t.calls[n].op.entry) else s.cache)
  {
    assert PhaseInv(s.log, s.calls, s.conns[c].phase);
    ExecuteIsOneEvent(s.cache, s.conns[c].req, s.calls[s.conns[c].phase.call].op);
  }

  /******* Every call can complete *******/

  lemma {:induction false} RunConcat(parse: ExpiryParser, s: System, run: seq<Step>, more: seq<Step>)
    requires IsRun(parse, s, run) && IsRun(parse, After(parse, s, run), more)
    ensures IsRun(parse, s, run + more) && After(parse, s, run + more) == After(parse, After(parse, s, run), more)
    decreases |run|
  {
    if run == [] {
      assert run + more == more;
    } else {
      RunConcat(parse, Do(parse, s, run[0]), run[1..], more);
      assert (run + more)[1..] == run[1..] + more;
    }
  }

  lemma RunOne(parse: ExpiryParser, s: System, a: Step)
    requires Enabled(s, a)
    ensures IsRun(parse, s, [a]) && After(parse, s, [a]) == Do(parse, s, a)
  {
    assert [a][1..] == [];
  }

  predicate PruneSteps(run: seq<Step>) { forall i :: 0 <= i < |run| ==> run[i].PruneKey? || run[i].PruneFinish? }

  /** A prune in progress can be finished without anybody else. */
  lemma {:induction false} PruneEnds(parse: ExpiryParser, s: System) returns (run: seq<Step>)
    requires Inv(parse, s) && s.mutex.Pruning?
    ensures IsRun(parse, s, run) && PruneSteps(run)
    ensures var t := After(parse, s, run); t.mutex.Free? && t.conns == s.conns && t.calls == s.calls
    decreases |s.mutex.todo|
  {
    if s.mutex.todo == {} {
      run := [PruneFinish];
      RunOne(parse, s, PruneFinish);
    } else {
      var k :| k in s.mutex.todo;
      var t := Do(parse, s, PruneKey(k));
      InvStep(parse, s, PruneKey(k));
      assert t.mutex.todo < s.mutex.todo;
      SmallerSet(t.mutex.todo, s.mutex.todo);
      var rest := PruneEnds(parse, t);
      run := [PruneKey(k)] + rest;
      assert run[1..] == rest;
    }
  }

  lemma SmallerSet(a: set<string>, b: set<string>)
    requires a < b
    ensures |a| < |b|
  {
    assert b == a + (b - a);
    assert b - a != {};
  }

  lemma CanExecute(parse: ExpiryParser, s: System, c: nat)
    requires Inv(parse, s) && s.mutex.Free? && c in s.conns && s.conns[c].phase.Requested?
    ensures Enabled(s, Execute(c))
    ensures var t := Do(parse, s, Execute(c));
      c in t.conns && t.conns[c].phase.Replied? && t.conns[c].phase.call == s.conns[c].phase.call
  {
    assert PhaseInv(s.log, s.calls, s.conns[c].phase);
  }

  lemma CanReturn(parse: ExpiryParser, s: System, c: nat) returns (run: seq<Step>)
    requires Inv(parse, s) && c in s.conns && s.conns[c].phase.Replied?
    ensures var n := s.conns[c].phase.call;
      IsRun(parse, s, run) && n < |After(parse, s, run).calls| && Succeeded(After(parse, s, run).calls[n])
  {
    assert PhaseInv(s.log, s.calls, s.conns[c].phase);
    run := [Return(c)];
    RunOne(parse, s, Return(c));
  }

  lemma CanExecuteAndReturn(parse: ExpiryParser, s: System, c: nat) returns (run: seq<Step>)
    requires Inv(parse, s) && s.mutex.Free? && c in s.conns && s.conns[c].phase.Requested?
    ensures var n := s.conns[c].phase.call;
      IsRun(parse, s, run) && n < |After(parse, s, run).calls| && Succeeded(After(parse, s, run).calls[n])
  {
    CanExecute(parse, s, c);
    InvStep(parse, s, Execute(c));
    var rest := CanReturn(parse, Do(parse, s, Execute(c)), c);
    RunOne(parse, s, Execute(c));
    RunConcat(parse, s, [Execute(c)], rest);
    run := [Execute(c)] + rest;
  }

  /** No call is stuck: from every reachable state each call in progress can be executed and answered. */
  lemma CallsCanReturn(parse: ExpiryParser, s: System, c: nat) returns (run: seq<Step>)
    requires Inv(parse, s) && c in s.conns && Busy(s.conns[c].phase)
    ensures var n := s.conns[c].phase.call;
      IsRun(parse, s, run) && n < |After(parse, s, run).calls| && Succeeded(After(parse, s, run).calls[n])
  {
    if s.conns[c].phase.Replied? {
      run := CanReturn(parse, s, c);
    } else if s.mutex.Free? {
      run := CanExecuteAndReturn(parse, s, c);
    } else {
      var front := PruneEnds(parse, s);
      InvRun(parse, s, front);
      var rest := CanExecuteAndReturn(parse, After(parse, s, front), c);
      RunConcat(parse, s, front, rest);
      run := front + rest;
    }
  }
}

/**
 What a finished `stop` and a finished `serve_in_current_thread` have achieved
 (plugin/http_server.py, class Server). ServerProtocol has the machine and what never happens;
 this is what has happened by the time a call returns.
 */
module ServerCompletion {
  import opened Prelude
  import opened ServerProtocol

  /** The part of the invariant that this needs: nothing about the order of the history. */
  ghost predicate Placed(a: State) {
    MainMatches(a) && forall t: Thread :: StopMatches(a, t)
  }

  lemma PlacedHolds(run: seq<State>, i: nat)
    requires IsRun(run) && i < |run|
    ensures Placed(run[i])
  {
    InvHolds(run, i);
  }

  lemma LogGrows(a: State, b: State)
    requires Step(a, b)
    ensures forall e :: e in a.log ==> e in b.log
  {
    if !MainStep(a, b) {
      var t: Thread :| StopStep(a, t, b);
    }
  }

  /** Nobody moves another stopper on. */
  lemma OthersStay(a: State, b: State, t: Thread, u: Thread)
    requires StopStep(a, u, b) && u != t
    ensures b.Pc(t) == a.Pc(t)
  {}

  // ----- no socket is lost -----

  predicate Carries(a: State, t: Thread, s: Socket) {
    Carried(a.Pc(t)) == Some(s)
  }

  /** Every socket that was bound is in `_server`, or in the hands of a stopper, or closed. */
  ghost predicate Accounted(a: State) {
    forall s: Socket :: Bound(s) in a.log ==>
      a.server == Some(s) || Closed(s) in a.log || exists t: Thread :: Carries(a, t, s)
  }

  lemma CarriedStays(a: State, b: State, t: Thread, s: Socket)
    requires Step(a, b) && Carries(a, t, s)
    ensures Carries(b, t, s) || Closed(s) in b.log
  {
    if !MainStep(a, b) {
      var u: Thread :| StopStep(a, u, b);
      if u != t {
        OthersStay(a, b, t, u);
      }
    }
  }

  lemma TakenOrKept(a: State, b: State, s: Socket)
    requires Placed(a) && Step(a, b) && a.server == Some(s)
    ensures b.server == Some(s) || exists t: Thread :: Carries(b, t, s)
  {
    if !MainStep(a, b) {
      var u: Thread :| StopStep(a, u, b);
      assert StopMatches(a, u);
      if a.Pc(u).Took? {
        assert Carries(b, u, s);
      }
    }
  }

  lemma BoundByStep(a: State, b: State, s: Socket)
    requires Step(a, b) && Bound(s) in b.log && Bound(s) !in a.log
    ensures b.server == Some(s)
  {
    forall t: Thread ensures StopStep(a, t, b) && Bound(s) in b.log ==> Bound(s) in a.log {}
  }

  lemma AccountedStep(a: State, b: State)
    requires Placed(a) && Step(a, b) && Accounted(a)
    ensures Accounted(b)
  {
    LogGrows(a, b);
    forall s: Socket | Bound(s) in b.log
      ensures b.server == Some(s) || Closed(s) in b.log || exists t: Thread :: Carries(b, t, s)
    {
      if Bound(s) !in a.log {
        BoundByStep(a, b, s);
      } else if a.server == Some(s) {
        TakenOrKept(a, b, s);
      } else if t: Thread :| Carries(a, t, s) {
        CarriedStays(a, b, t, s);
      }
    }
  }

  /** In every run, no bound socket is ever lost. */
  lemma {:induction false} NoSocketIsLost(run: seq<State>, i: nat)
    requires IsRun(run) && i < |run|
    ensures Accounted(run[i])
  {
    if i > 0 {
      NoSocketIsLost(run, i - 1);
      PlacedHolds(run, i - 1);
      assert StepAt(run, i);
      AccountedStep(run[i - 1], run[i]);
    }
  }

  // ----- a stop that returns has closed the socket -----

  /** The thread is about to take this socket, or has it, or has closed it. */
  predicate Sees(a: State, t: Thread, s: Socket) {
    (a.Pc(t).Entered? && a.server == Some(s)) || Carries(a, t, s) || Closed(s) in a.log
  }

  lemma SeesStep(a: State, b: State, t: Thread, s: Socket)
    requires Placed(a) && Step(a, b) && Sees(a, t, s)
    ensures Sees(b, t, s)
  {
    LogGrows(a, b);
    if Carries(a, t, s) {
      CarriedStays(a, b, t, s);
    } else if Closed(s) !in a.log {
      assert StopMatches(a, t);
      if !MainStep(a, b) {
        var u: Thread :| StopStep(a, u, b);
        assert StopMatches(a, u);
      }
    }
  }

  lemma {:induction false} SeesOverRuns(run: seq<State>, i: nat, j: nat, t: Thread, s: Socket)
    requires IsRun(run) && i <= j < |run| && Sees(run[i], t, s)
    ensures Sees(run[j], t, s)
  {
    if i < j {
      SeesOverRuns(run, i, j - 1, t, s);
      PlacedHolds(run, j - 1);
      assert StepAt(run, j);
      SeesStep(run[j - 1], run[j], t, s);
    }
  }

  /**
   A `stop` that finds a socket in `_server`, whether or not a loop serves it, has closed it by the
   time it returns; and so has a `stop` that holds the socket at any moment.
   */
  lemma StopCloses(run: seq<State>, i: nat, j: nat, t: Thread, s: Socket)
    requires IsRun(run) && i <= j < |run|
    requires (run[i].Pc(t).Entered? && run[i].server == Some(s)) || Carries(run[i], t, s)
    requires run[j].Pc(t).Idle?
    ensures Closed(s) in run[j].log && run[j].server != Some(s)
  {
    SeesOverRuns(run, i, j, t, s);
    InvHolds(run, j);
  }

  // ----- when a stop shuts the loop down first -----

  /** `shutdown` has been called only by a stopper that still holds the socket, or closed it. */
  ghost predicate ShutMatches(a: State) {
    forall s: Socket :: ShutdownCalled(s) in a.log ==>
      Closed(s) in a.log || exists t: Thread :: a.Pc(t) == Waiting(s) || a.Pc(t) == Closing(s)
  }

  lemma ShutByStep(a: State, b: State, s: Socket)
    requires Step(a, b) && ShutdownCalled(s) in b.log && ShutdownCalled(s) !in a.log
    ensures exists t: Thread :: a.Pc(t) == Shutting(s) && b.Pc(t) == Waiting(s)
  {
    if !MainStep(a, b) {
      var u: Thread :| StopStep(a, u, b);
      assert a.Pc(u) == Shutting(s) && b.Pc(u) == Waiting(s);
    }
  }

  lemma ShutHolderStays(a: State, b: State, t: Thread, s: Socket)
    requires Step(a, b) && (a.Pc(t) == Waiting(s) || a.Pc(t) == Closing(s))
    ensures b.Pc(t) == Waiting(s) || b.Pc(t) == Closing(s) || Closed(s) in b.log
  {
    if !MainStep(a, b) {
      var u: Thread :| StopStep(a, u, b);
      if u != t {
        OthersStay(a, b, t, u);
      }
    }
  }

  lemma ShutStep(a: State, b: State)
    requires Step(a, b) && ShutMatches(a)
    ensures ShutMatches(b)
  {
    LogGrows(a, b);
    forall s: Socket | ShutdownCalled(s) in b.log
      ensures Closed(s) in b.log || exists t: Thread :: b.Pc(t) == Waiting(s) || b.Pc(t) == Closing(s)
    {
      if ShutdownCalled(s) !in a.log {
        ShutByStep(a, b, s);
      } else if t: Thread :| a.Pc(t) == Waiting(s) || a.Pc(t) == Closing(s) {
        ShutHolderStays(a, b, t, s);
      }
    }
  }

  lemma {:induction false} ShutHolds(run: seq<State>, i: nat)
    requires IsRun(run) && i < |run|
    ensures ShutMatches(run[i])
  {
    if i > 0 {
      ShutHolds(run, i - 1);
      assert StepAt(run, i);
      ShutStep(run[i - 1], run[i]);
    }
  }

  /** The stopper went past `shutdown`, or is about to call it. */
  predicate GoesThroughShutdown(a: State, t: Thread, s: Socket) {
    ShutdownCalled(s) in a.log || (a.Pc(t) == Shutting(s) && Closed(s) !in a.log)
  }

  /** It went around. */
  predicate GoesAround(a: State, t: Thread, s: Socket) {
    ShutdownCalled(s) !in a.log && (a.Pc(t) == Closing(s) || Closed(s) in a.log)
  }

  lemma ThroughStep(a: State, b: State, t: Thread, s: Socket)
    requires Placed(a) && Step(a, b) && GoesThroughShutdown(a, t, s)
    ensures GoesThroughShutdown(b, t, s)
  {
    LogGrows(a, b);
    if ShutdownCalled(s) !in a.log {
      assert StopMatches(a, t);
      if !MainStep(a, b) {
        var u: Thread :| StopStep(a, u, b);
        assert StopMatches(a, u);
      }
    }
  }

  lemma AroundStep(a: State, b: State, t: Thread, s: Socket)
    requires Placed(a) && Step(a, b) && GoesAround(a, t, s)
    ensures GoesAround(b, t, s)
  {
    LogGrows(a, b);
    assert StopMatches(a, t);
    if !MainStep(a, b) {
      var u: Thread :| StopStep(a, u, b);
      assert StopMatches(a, u);
    }
  }

  /** The step past the test of `_serving`: what it read decides the way. */
  lemma GuardStep(a: State, b: State, t: Thread, s: Socket)
    requires Placed(a) && ShutMatches(a) && Step(a, b) && a.Pc(t) == Cleared(s) && b.Pc(t) != a.Pc(t)
    ensures if a.serving then GoesThroughShutdown(b, t, s) else GoesAround(b, t, s)
  {
    assert StopMatches(a, t);
    var u: Thread :| StopStep(a, u, b);
    assert u == t;
    forall u: Thread ensures a.Pc(u) != Waiting(s) && a.Pc(u) != Closing(s) {
      assert StopMatches(a, u);
    }
  }

  lemma {:induction false} ThroughOverRuns(run: seq<State>, i: nat, j: nat, t: Thread, s: Socket)
    requires IsRun(run) && i <= j < |run| && GoesThroughShutdown(run[i], t, s)
    ensures GoesThroughShutdown(run[j], t, s)
  {
    if i < j {
      ThroughOverRuns(run, i, j - 1, t, s);
      PlacedHolds(run, j - 1);
      assert StepAt(run, j);
      ThroughStep(run[j - 1], run[j], t, s);
    }
  }

  lemma {:induction false} AroundOverRuns(run: seq<State>, i: nat, j: nat, t: Thread, s: Socket)
    requires IsRun(run) && i <= j < |run| && GoesAround(run[i], t, s)
    ensures GoesAround(run[j], t, s)
  {
    if i < j {
      AroundOverRuns(run, i, j - 1, t, s);
      PlacedHolds(run, j - 1);
      assert StepAt(run, j);
      AroundStep(run[j - 1], run[j], t, s);
    }
  }

  /**
   When the socket is closed, `shutdown` was called on it, and by `Safety` before the close, exactly
   if `_serving` was set when the stopper tested it.
   */
  lemma ShutdownExactlyWhenServing(run: seq<State>, i: nat, j: nat, t: Thread, s: Socket)
    requires IsRun(run) && i < j < |run|
    requires run[i].Pc(t) == Cleared(s) && run[i + 1].Pc(t) != Cleared(s)
    requires Closed(s) in run[j].log
    ensures ShutdownCalled(s) in run[j].log <==> run[i].serving
  {
    PlacedHolds(run, i);
    ShutHolds(run, i);
    assert StepAt(run, i + 1);
    GuardStep(run[i], run[i + 1], t, s);
    if run[i].serving {
      ThroughOverRuns(run, i + 1, j, t, s);
    } else {
      AroundOverRuns(run, i + 1, j, t, s);
    }
    PlacedHolds(run, j);
    assert StopMatches(run[j], t);
  }

  // ----- a shutdown is heard -----

  /** The loop on a socket that a stopper waits for has been asked to end, until it ends. */
  ghost predicate AskedFor(a: State) {
    forall t: Thread :: a.Pc(t).Waiting? && RunningOn(a.main) == Some(a.Pc(t).s) && !a.main.LoopSignal? ==>
      a.Pc(t).s in a.requested
  }

  lemma AskedForStep(a: State, b: State)
    requires Placed(a) && Step(a, b) && AskedFor(a)
    ensures AskedFor(b)
  {
    forall t: Thread | b.Pc(t).Waiting? && RunningOn(b.main) == Some(b.Pc(t).s) && !b.main.LoopSignal?
      ensures b.Pc(t).s in b.requested
    {
      assert StopMatches(a, t);
      if !MainStep(a, b) {
        var u: Thread :| StopStep(a, u, b);
      }
    }
  }

  lemma {:induction false} AskedForHolds(run: seq<State>, i: nat)
    requires IsRun(run) && i < |run|
    ensures AskedFor(run[i])
  {
    if i > 0 {
      AskedForHolds(run, i - 1);
      PlacedHolds(run, i - 1);
      assert StepAt(run, i);
      AskedForStep(run[i - 1], run[i]);
    }
  }

  /** While a stopper waits for the loop, the loop goes on with nothing: its next step leaves it. */
  lemma LoopHearsShutdown(run: seq<State>, i: nat, t: Thread, s: Socket, b: State)
    requires IsRun(run) && i < |run| && run[i].Pc(t) == Waiting(s)
    requires run[i].main == Looping(s) && MainStep(run[i], b)
    ensures b.main == LoopFinally(s)
  {
    AskedForHolds(run, i);
  }

  // ----- a serve that returns has served -----

  /** The loop runs on the socket of `_server`, if there is one, and has run when it is over. */
  ghost predicate ServeMatches(a: State) {
    && (RunningOn(a.main).Some? && a.server.Some? ==> a.server == RunningOn(a.main))
    && ((a.main.ServeUnflag? || a.main.Finished?) && a.server.Some? ==>
          LoopEntered(a.server.value) in a.log && LoopLeft(a.server.value) in a.log)
  }

  lemma ServeStep(a: State, b: State)
    requires Placed(a) && Step(a, b) && ServeMatches(a)
    ensures ServeMatches(b)
  {
    LogGrows(a, b);
    if !MainStep(a, b) {
      var u: Thread :| StopStep(a, u, b);
    }
  }

  lemma {:induction false} ServeHolds(run: seq<State>, i: nat)
    requires IsRun(run) && i < |run|
    ensures ServeMatches(run[i])
  {
    if i > 0 {
      ServeHolds(run, i - 1);
      PlacedHolds(run, i - 1);
      assert StepAt(run, i);
      ServeStep(run[i - 1], run[i]);
    }
  }

  /** A call that returns with its socket still in `_server` has entered the loop on it and left it. */
  lemma ServesUnlessStopped(run: seq<State>, i: nat)
    requires IsRun(run) && i < |run| && run[i].main.Finished? && run[i].server.Some?
    ensures LoopEntered(run[i].server.value) in run[i].log && LoopLeft(run[i].server.value) in run[i].log
  {
    ServeHolds(run, i);
  }
}

/**
 The in-IDA server's start/stop protocol (plugin/http_server.py, class Server).

 One serving thread runs `bind` any number of times and `serve_in_current_thread` once;
 any number of other threads run `stop`. A run is a sequence of states in which every
 step is one read or one write of a shared field. The two sides synchronise through two
 flags only: the serving thread writes `_serving` and then reads `_server`, a stopper
 writes `_server` and then reads `_serving`.

 What the threads do to sockets is recorded in a history, and the safety property
 `Safe` is stated on that history alone.
 */
module ServerProtocol {
  import opened Prelude

  type Socket = nat
  type Thread = nat

  datatype Event =
    | Bound(s: Socket)
    | ServingSet
    | LoopEntered(s: Socket)
    | LoopLeft(s: Socket)
    | ShutdownCalled(s: Socket)
    | Closed(s: Socket)

  /** Where the serving thread is. The constructor names the next access it makes. */
  datatype MainPc =
    | Ready                          // outside the class: may call bind, or serve
    | BindCreate(serve: bool)        // bind saw `_server is None`
    | ServeCheck                     // the `_server is None` test after bind
    | ServeFlag                      // `_serving = True`
    | ServeRead                      // evaluates `self._server`
    | LoopStart(s: Socket)           // inside serve_forever: clears its "is shut down" event
    | Looping(s: Socket)             // polls the shutdown request, handles requests
    | LoopFinally(s: Socket)         // resets the shutdown request
    | LoopSignal(s: Socket)          // sets the "is shut down" event
    | ServeUnflag                    // `_serving = False`
    | Finished

  /** Where a thread calling `stop` is. */
  datatype StopPc =
    | Idle
    | Entered                        // holds `_stop_lock`, reads `_server`
    | Took(s: Socket)                // `self._server = None`
    | Cleared(s: Socket)             // reads `_serving`
    | Shutting(s: Socket)            // `srv.shutdown()`: sets the shutdown request
    | Waiting(s: Socket)             // ... and waits for the "is shut down" event
    | Closing(s: Socket)             // `srv.server_close()`
    | Releasing                      // leaves the `with` block

  datatype State = State(
    server: Option<Socket>,          // `_server`
    serving: bool,                   // `_serving`
    lock: Option<Thread>,            // holder of `_stop_lock`
    next: Socket,                    // sockets below `next` have been created
    requested: set<Socket>,          // sockets whose shutdown request is set
    isDown: set<Socket>,             // sockets whose "is shut down" event is set
    main: MainPc,
    stops: map<Thread, StopPc>,
    log: seq<Event>) {

    function Pc(t: Thread): StopPc {
      if t in stops then stops[t] else Idle
    }
  }

  const INITIAL := State(None, false, None, 0, {}, {}, Ready, map[], [])

  /** The socket `serve_forever` is running on. */
  function RunningOn(pc: MainPc): Option<Socket> {
    match pc
    case LoopStart(s) => Some(s)
    case Looping(s) => Some(s)
    case LoopFinally(s) => Some(s)
    case LoopSignal(s) => Some(s)
    case _ => None
  }

  /** The socket a stopper has taken out of `_server` and not yet closed. */
  function Carried(pc: StopPc): Option<Socket> {
    match pc
    case Took(s) => Some(s)
    case Cleared(s) => Some(s)
    case Shutting(s) => Some(s)
    case Waiting(s) => Some(s)
    case Closing(s) => Some(s)
    case _ => None
  }

  // ----- the steps -----

  predicate MainStep(a: State, b: State) {
    match a.main
    case Ready =>
      || b == a.(main := if a.server.None? then BindCreate(false) else Ready)
      || b == a.(main := if a.server.None? then BindCreate(true) else ServeCheck)
    case BindCreate(serve) =>
      || b == a.(server := Some(a.next), next := a.next + 1, log := a.log + [Bound(a.next)],
                 main := if serve then ServeCheck else Ready)
      || b == a.(server := None, main := if serve then Finished else Ready)   // OSError
    case ServeCheck =>
      b == a.(main := if a.server.None? then Finished else ServeFlag)
    case ServeFlag =>
      b == a.(serving := true, log := a.log + [ServingSet], main := ServeRead)
    case ServeRead =>
      if a.server.None? then
        b == a.(main := ServeUnflag)   // the AttributeError is swallowed
      else
        b == a.(main := LoopStart(a.server.value), log := a.log + [LoopEntered(a.server.value)])
    case LoopStart(s) =>
      b == a.(isDown := a.isDown - {s}, main := Looping(s))
    case Looping(s) =>
      || (s !in a.requested && b == a)       // handled a request or timed out
      || b == a.(main := LoopFinally(s))     // saw the request, or crashed
    case LoopFinally(s) =>
      b == a.(requested := a.requested - {s}, main := LoopSignal(s))
    case LoopSignal(s) =>
      b == a.(isDown := a.isDown + {s}, log := a.log + [LoopLeft(s)], main := ServeUnflag)
    case ServeUnflag =>
      b == a.(serving := false, main := Finished)
    case Finished =>
      b == a
  }

  predicate StopStep(a: State, t: Thread, b: State) {
    match a.Pc(t)
    case Idle =>
      a.lock.None? && b == a.(lock := Some(t), stops := a.stops[t := Entered])
    case Entered =>
      b == a.(stops := a.stops[t := if a.server.None? then Releasing else Took(a.server.value)])
    case Took(s) =>
      b == a.(server := None, stops := a.stops[t := Cleared(s)])
    case Cleared(s) =>
      b == a.(stops := a.stops[t := if a.serving then Shutting(s) else Closing(s)])
    case Shutting(s) =>
      b == a.(requested := a.requested + {s}, log := a.log + [ShutdownCalled(s)],
              stops := a.stops[t := Waiting(s)])
    case Waiting(s) =>
      s in a.isDown && b == a.(stops := a.stops[t := Closing(s)])
    case Closing(s) =>
      b == a.(log := a.log + [Closed(s)], stops := a.stops[t := Releasing])
    case Releasing =>
      b == a.(lock := None, stops := a.stops[t := Idle])
  }

  ghost predicate Step(a: State, b: State) {
    MainStep(a, b) || exists t: Thread :: StopStep(a, t, b)
  }

  /** State `i` follows the one before. */
  ghost predicate StepAt(run: seq<State>, i: nat)
    requires 0 < i < |run|
  {
    Step(run[i - 1], run[i])
  }

  ghost predicate IsRun(run: seq<State>) {
    && |run| > 0
    && run[0] == INITIAL
    && forall i :: 0 < i < |run| ==> StepAt(run, i)
  }

  // ----- the property, on histories -----

  ghost predicate ClosedOnce(log: seq<Event>) {
    forall i, j :: 0 <= i < j < |log| && log[i].Closed? ==> log[j] != log[i]
  }

  /** No close while the loop runs: an entered loop is left before its socket is closed. */
  ghost predicate ClosedAfterLoop(log: seq<Event>) {
    forall i, j :: 0 <= i < j < |log| && log[i].LoopEntered? && log[j] == Closed(log[i].s) ==>
      LoopLeft(log[i].s) in log[i..j]
  }

  ghost predicate NeverEntersClosed(log: seq<Event>) {
    forall i, j :: 0 <= i < j < |log| && log[i].Closed? ==> log[j] != LoopEntered(log[i].s)
  }

  ghost predicate ShutdownAfterServing(log: seq<Event>) {
    forall j :: 0 <= j < |log| && log[j].ShutdownCalled? ==> ServingSet in log[..j]
  }

  ghost predicate ShutsOnlyOpen(log: seq<Event>) {
    forall i, j :: 0 <= i < j < |log| && log[i].Closed? ==> log[j] != ShutdownCalled(log[i].s)
  }

  ghost predicate ClosesOnlyBound(log: seq<Event>) {
    forall j :: 0 <= j < |log| && log[j].Closed? ==> Bound(log[j].s) in log[..j]
  }

  ghost predicate Safe(log: seq<Event>) {
    && ClosedOnce(log)
    && ClosedAfterLoop(log)
    && NeverEntersClosed(log)
    && ShutdownAfterServing(log)
    && ShutsOnlyOpen(log)
    && ClosesOnlyBound(log)
  }

  // ----- the invariant -----

  ghost predicate LogMatches(a: State) {
    && (forall s: Socket :: s < a.next ==> Bound(s) in a.log)
    && (forall s: Socket :: Closed(s) in a.log ==> s < a.next && a.server != Some(s))
    && (forall s: Socket :: LoopLeft(s) in a.log ==> a.main.ServeUnflag? || a.main.Finished?)
    && (a.serving ==> ServingSet in a.log)
  }

  /** Every loop entered is still running or has been left since. */
  ghost predicate LoopsMatch(log: seq<Event>, running: Option<Socket>) {
    forall i :: 0 <= i < |log| && log[i].LoopEntered? ==>
      running == Some(log[i].s) || LoopLeft(log[i].s) in log[i..]
  }

  ghost predicate MainMatches(a: State) {
    && (a.main.BindCreate? ==> a.server.None?)
    && (a.serving <==> a.main.ServeRead? || a.main.ServeUnflag? || RunningOn(a.main).Some?)
    && (RunningOn(a.main).Some? ==>
          var s := RunningOn(a.main).value;
          s < a.next && Closed(s) !in a.log && s !in a.isDown && LoopEntered(s) in a.log)
    && (a.isDown != {} ==> a.main.ServeUnflag? || a.main.Finished?)
  }

  ghost predicate StopMatches(a: State, t: Thread) {
    var pc := a.Pc(t);
    && (pc != Idle ==> a.lock == Some(t))
    && (Carried(pc).Some? ==>
          var s := Carried(pc).value;
          && s < a.next && Closed(s) !in a.log
          && (pc.Took? <==> a.server == Some(s))
          && (pc.Shutting? || pc.Waiting? ==> ServingSet in a.log)
          && (pc.Closing? ==> RunningOn(a.main) != Some(s)))
  }

  ghost predicate Inv(a: State) {
    && (a.server.Some? ==> a.server.value < a.next)
    && LogMatches(a)
    && LoopsMatch(a.log, RunningOn(a.main))
    && MainMatches(a)
    && (forall t: Thread :: StopMatches(a, t))
    && Safe(a.log)
  }

  // ----- every run -----

  lemma SafeExtends(log: seq<Event>, e: Event)
    requires Safe(log)
    requires e.Closed? ==> e !in log && Bound(e.s) in log
    requires e.Closed? ==>
               forall i :: 0 <= i < |log| && log[i] == LoopEntered(e.s) ==> LoopLeft(e.s) in log[i..]
    requires e.LoopEntered? ==> Closed(e.s) !in log
    requires e.ShutdownCalled? ==> ServingSet in log && Closed(e.s) !in log
    ensures Safe(log + [e])
  {
    var l := log + [e];
    forall i, j | 0 <= i <= j <= |log| ensures l[i..j] == log[i..j] {}
    forall j | 0 <= j <= |log| ensures l[..j] == log[..j] {}
    assert log[..|log|] == log;
    forall i | 0 <= i <= |log| ensures log[i..|log|] == log[i..] {}
  }

  lemma LoopsExtend(log: seq<Event>, running: Option<Socket>, e: Event, running': Option<Socket>)
    requires LoopsMatch(log, running)
    requires match e
             case LoopEntered(s) => running.None? && running' == Some(s)
             case LoopLeft(s) => running == Some(s) && running'.None?
             case _ => running' == running
    ensures LoopsMatch(log + [e], running')
  {
    forall i | 0 <= i <= |log| ensures (log + [e])[i..] == log[i..] + [e] {}
  }

  /** The parts of a step that concern the history. */
  lemma MainHistoryKeeps(a: State, b: State)
    requires Inv(a) && MainStep(a, b)
    ensures LoopsMatch(b.log, RunningOn(b.main)) && Safe(b.log)
  {
    if b.log != a.log {
      var e := b.log[|a.log|];
      assert b.log == a.log + [e];
      assert e.LoopEntered? ==> Closed(e.s) !in a.log;
      LoopsExtend(a.log, RunningOn(a.main), e, RunningOn(b.main));
      SafeExtends(a.log, e);
    }
  }

  lemma StopHistoryKeeps(a: State, t: Thread, b: State)
    requires Inv(a) && StopStep(a, t, b)
    ensures LoopsMatch(b.log, RunningOn(b.main)) && Safe(b.log)
  {
    assert StopMatches(a, t);
    if b.log != a.log {
      var e := b.log[|a.log|];
      assert b.log == a.log + [e];
      LoopsExtend(a.log, RunningOn(a.main), e, RunningOn(b.main));
      SafeExtends(a.log, e);
    }
  }

  lemma MainStepKeepsLog(a: State, b: State)
    requires (a.server.Some? ==> a.server.value < a.next) && LogMatches(a) && MainMatches(a) && MainStep(a, b)
    ensures (b.server.Some? ==> b.server.value < b.next) && LogMatches(b)
  {
    assert b.log == a.log || b.log == a.log + [b.log[|a.log|]];
  }

  lemma MainStepKeepsMain(a: State, b: State)
    requires (a.server.Some? ==> a.server.value < a.next) && LogMatches(a) && MainMatches(a) && MainStep(a, b)
    ensures MainMatches(b)
  {
    assert a.main.ServeRead? && a.server.Some? ==> Closed(a.server.value) !in a.log;
  }

  lemma MainStepKeepsStops(a: State, b: State, t: Thread)
    requires Inv(a) && MainStep(a, b)
    ensures StopMatches(b, t)
  {
    assert StopMatches(a, t);
  }

  lemma StopStepKeeps(a: State, t: Thread, b: State)
    requires Inv(a) && StopStep(a, t, b)
    ensures (b.server.Some? ==> b.server.value < b.next) && LogMatches(b) && MainMatches(b)
  {
    assert StopMatches(a, t);
  }

  lemma StopStepKeepsStops(a: State, t: Thread, b: State, u: Thread)
    requires Inv(a) && StopStep(a, t, b)
    ensures StopMatches(b, u)
  {
    assert StopMatches(a, t) && StopMatches(a, u);
  }

  lemma StepKeepsInv(a: State, b: State)
    requires Inv(a) && Step(a, b)
    ensures Inv(b)
  {
    if MainStep(a, b) {
      MainHistoryKeeps(a, b);
      MainStepKeepsLog(a, b);
      MainStepKeepsMain(a, b);
      forall t: Thread ensures StopMatches(b, t) {
        MainStepKeepsStops(a, b, t);
      }
    } else {
      var t: Thread :| StopStep(a, t, b);
      StopHistoryKeeps(a, t, b);
      StopStepKeeps(a, t, b);
      forall u: Thread ensures StopMatches(b, u) {
        StopStepKeepsStops(a, t, b, u);
      }
    }
  }

  lemma {:induction false} InvHolds(run: seq<State>, i: nat)
    requires IsRun(run) && i < |run|
    ensures Inv(run[i])
  {
    if i > 0 {
      InvHolds(run, i - 1);
      assert StepAt(run, i);
      StepKeepsInv(run[i - 1], run[i]);
    }
  }

  /** In every interleaving the history is safe. */
  lemma Safety(run: seq<State>, i: nat)
    requires IsRun(run) && i < |run|
    ensures Safe(run[i].log)
  {
    InvHolds(run, i);
  }

  /** `_stop_lock` admits one stopper at a time. */
  lemma StoppersExclude(run: seq<State>, i: nat, t: Thread, u: Thread)
    requires IsRun(run) && i < |run|
    requires run[i].Pc(t) != Idle && run[i].Pc(u) != Idle
    ensures t == u
  {
    InvHolds(run, i);
    assert StopMatches(run[i], t) && StopMatches(run[i], u);
  }

  // ----- when a stop blocks forever -----

  /** `t` waits for a loop that is not running on its socket and has not been. */
  predicate Stuck(a: State, t: Thread) {
    a.Pc(t).Waiting? && a.Pc(t).s !in a.isDown && RunningOn(a.main) != Some(a.Pc(t).s)
  }

  /** A stuck stopper has the lock, all others are idle, and its socket is out of everybody's reach. */
  ghost predicate WaitsAlone(a: State, t: Thread) {
    && Stuck(a, t) && a.lock == Some(t)
    && a.Pc(t).s < a.next && a.server != Some(a.Pc(t).s)
    && forall u: Thread :: u != t ==> a.Pc(u) == Idle
  }

  lemma StuckAlone(a: State, t: Thread)
    requires Inv(a) && Stuck(a, t)
    ensures WaitsAlone(a, t)
  {
    assert StopMatches(a, t);
    forall u: Thread | u != t ensures a.Pc(u) == Idle {
      assert StopMatches(a, u);
    }
  }

  lemma StuckStep(a: State, b: State, t: Thread)
    requires WaitsAlone(a, t) && Step(a, b)
    ensures WaitsAlone(b, t) && b.Pc(t) == a.Pc(t)
  {
    forall u: Thread ensures !StopStep(a, u, b) {
      assert a.Pc(u) == if u == t then a.Pc(t) else Idle;
    }
    forall u: Thread ensures b.Pc(u) == a.Pc(u) {
      assert b.stops == a.stops;
    }
  }

  /** Once stuck, a stopper waits in every later state of the run, and no other `stop` gets past the lock. */
  lemma {:induction false} StuckForever(run: seq<State>, i: nat, j: nat, t: Thread)
    requires IsRun(run) && i <= j < |run| && Stuck(run[i], t)
    ensures WaitsAlone(run[j], t) && run[j].Pc(t) == run[i].Pc(t)
  {
    if i < j {
      StuckForever(run, i, j - 1, t);
      assert StepAt(run, j);
      StuckStep(run[j - 1], run[j], t);
    } else {
      InvHolds(run, i);
      StuckAlone(run[i], t);
    }
  }

  /** A loop runs on the socket, or has run on it to its end. */
  predicate HasLoop(a: State, s: Socket) {
    RunningOn(a.main) == Some(s) || s in a.isDown
  }

  /** Once a socket is out of `_server`, no loop on it can begin, and none is forgotten. */
  lemma LoopFate(a: State, b: State, s: Socket)
    requires s < a.next && a.server != Some(s)
    requires Step(a, b)
    ensures s < b.next && b.server != Some(s) && (HasLoop(b, s) <==> HasLoop(a, s))
  {
    if !MainStep(a, b) {
      var t: Thread :| StopStep(a, t, b);
      assert b.main == a.main && b.isDown == a.isDown;
    }
  }

  lemma {:induction false} LoopFateOverRuns(run: seq<State>, i: nat, j: nat, s: Socket)
    requires IsRun(run) && i <= j < |run|
    requires s < run[i].next && run[i].server != Some(s)
    ensures s < run[j].next && run[j].server != Some(s) && (HasLoop(run[j], s) <==> HasLoop(run[i], s))
  {
    if i < j {
      LoopFateOverRuns(run, i, j - 1, s);
      assert StepAt(run, j);
      LoopFate(run[j - 1], run[j], s);
    }
  }

  /**
   What the guard `if self._serving` decides, whatever happens in between: a stopper that passes
   it and comes to wait is stuck exactly if, at the guard, no loop ran on its socket nor had run.
   */
  lemma GuardDecides(run: seq<State>, i: nat, j: nat, t: Thread)
    requires IsRun(run) && i <= j < |run|
    requires run[i].Pc(t).Cleared? && run[i].serving
    requires run[j].Pc(t) == Waiting(run[i].Pc(t).s)
    ensures Stuck(run[j], t) <==> !HasLoop(run[i], run[i].Pc(t).s)
  {
    InvHolds(run, i);
    assert StopMatches(run[i], t);
    LoopFateOverRuns(run, i, j, run[i].Pc(t).s);
  }

  /** The steps of the serving thread that release a stopper waiting for the running loop. */
  function WindDown(a: State): (r: seq<State>)
    ensures |r| >= 1 && r[0] == a
  {
    match a.main
    case LoopStart(s) => [a] + WindDownLooping(a.(isDown := a.isDown - {s}, main := Looping(s)))
    case Looping(s) => WindDownLooping(a)
    case LoopFinally(s) => WindDownFinally(a)
    case LoopSignal(s) => [a, Signalled(a, s)]
    case _ => [a]
  }

  function WindDownLooping(a: State): (r: seq<State>)
    requires a.main.Looping?
    ensures |r| >= 1 && r[0] == a
  {
    [a] + WindDownFinally(a.(main := LoopFinally(a.main.s)))
  }

  function WindDownFinally(a: State): (r: seq<State>)
    requires a.main.LoopFinally?
    ensures |r| >= 1 && r[0] == a
  {
    var b := a.(requested := a.requested - {a.main.s}, main := LoopSignal(a.main.s));
    [a, b, Signalled(b, a.main.s)]
  }

  function Signalled(a: State, s: Socket): State {
    a.(isDown := a.isDown + {s}, log := a.log + [LoopLeft(s)], main := ServeUnflag)
  }

  /** A waiting stopper that is not stuck is released by the serving thread on its own. */
  lemma UnstuckCanFinish(a: State, t: Thread)
    requires Inv(a) && a.Pc(t).Waiting? && !Stuck(a, t)
    ensures var r := WindDown(a);
      && (forall i :: 0 < i < |r| ==> MainStep(r[i - 1], r[i]))
      && r[|r| - 1].Pc(t) == a.Pc(t)
      && a.Pc(t).s in r[|r| - 1].isDown
  {
    assert StopMatches(a, t);
  }

  /** A run that gets stuck: the stop lands between `_serving = True` and the read of `_server`. */
  lemma StuckIsReachable() returns (run: seq<State>)
    ensures IsRun(run) && Stuck(run[|run| - 1], 0)
  {
    var a := INITIAL;
    var b := a.(main := BindCreate(true));
    var c := b.(server := Some(0), next := 1, log := [Bound(0)], main := ServeCheck);
    var d := c.(main := ServeFlag);
    var e := d.(lock := Some(0), stops := map[0 := Entered]);
    var f := e.(stops := map[0 := Took(0)]);
    var g := f.(server := None, stops := map[0 := Cleared(0)]);
    var h := g.(serving := true, log := [Bound(0), ServingSet], main := ServeRead);
    var k := h.(stops := map[0 := Shutting(0)]);
    var l := k.(requested := {0}, log := [Bound(0), ServingSet, ShutdownCalled(0)], stops := map[0 := Waiting(0)]);
    assert MainStep(a, b) && MainStep(b, c) && MainStep(c, d);
    assert StopStep(d, 0, e) && StopStep(e, 0, f) && StopStep(f, 0, g);
    assert MainStep(g, h);
    assert StopStep(h, 0, k) && StopStep(k, 0, l);
    run := [a, b, c, d, e, f, g, h, k, l];
  }
}

/**
 Which `open` is answered how (spawner/core.py, Spawner.open). SpawnProtocol has the machine; this
 ties every answer in the history to the call that gave it.
 */
module SpawnAnswers {
  import opened Prelude
  import opened SpawnProtocol

  /** From state `i` to state `j` thread `t` is inside one call, begun for `id` with `fresh=anew`. */
  ghost predicate InCall(run: seq<State>, i: nat, j: nat, t: Thread, id: Id, anew: bool) {
    && i <= j < |run| && run[i].Pc(t) == Locking(id, anew)
    && forall m :: i <= m <= j ==> !run[m].Pc(t).Idle?
  }

  /** The step from state `m` is one of thread `t`. */
  predicate Moves(run: seq<State>, m: nat, t: Thread) {
    m + 1 < |run| && run[m + 1].Pc(t) != run[m].Pc(t)
  }

  /** The step from `a` to `b` adds the event. */
  predicate Adds(a: State, b: State, e: Event) {
    |a.log| <= |b.log| && e in b.log[|a.log|..]
  }

  predicate IsAnswer(e: Event) {
    e.Reused? || e.Refused?
  }

  // ----- one step -----

  /** What a thread still has to do in its call; it never goes back. */
  function Stage(pc: OpenPc): nat {
    match pc
    case Idle => 4
    case Leaving(_, _) => 3
    case Spawning(_, _) => 1
    case Awaiting(_, _, _) => 2
    case Polling(_, _, _) => 2
    case Recording(_, _, _, _) => 2
    case Reaping(_, _, _) => 2
    case _ => 0
  }

  /** It is still the same call, and a new one begins with its arguments. */
  predicate Continues(before: OpenPc, after: OpenPc) {
    && (!before.Idle? && !after.Idle? ==>
          && after.id == before.id && Stage(before) <= Stage(after)
          && (Stage(after) == 0 ==> Stage(before) == 0 && after.anew == before.anew))
    && (before.Idle? && !after.Idle? ==> after.Locking?)
  }

  /** What an event says of the thread that adds it. */
  predicate Fits(a: State, t: Thread, b: State, e: Event) {
    && (IsAnswer(e) ==>
          && a.Pc(t).Checking? && a.Pc(t).anew == e.Refused? && a.Pc(t).id == e.id
          && a.Get(e.id) == Some(e.pid) && b.Pc(t).Leaving?)
    && (e.Spawned? ==> a.Pc(t).Spawning? && a.Pc(t).id == e.id && b.Pc(t).Awaiting?)
  }

  /** A step of thread `t`, seen from outside. */
  ghost predicate Summary(a: State, t: Thread, b: State) {
    && b.threads == a.threads[t := b.Pc(t)]
    && Continues(a.Pc(t), b.Pc(t))
    && forall e :: Adds(a, b, e) ==> Fits(a, t, b, e)
  }

  lemma LookSummary(a: State, t: Thread, b: State)
    requires Begin(a, t, b) || FindLock(a, t, b) || MakeLock(a, t, b)
    ensures Summary(a, t, b)
  {
    assert b.log == a.log;
  }

  lemma HoldSummary(a: State, t: Thread, b: State)
    requires TakeLock(a, t, b) || Leave(a, t, b)
    ensures Summary(a, t, b)
  {
    assert b.log == a.log;
  }

  lemma SilentCheckSummary(a: State, t: Thread, b: State)
    requires FindNone(a, t, b) || SpawnFails(a, t, b)
    ensures Summary(a, t, b)
  {
    assert b.log == a.log;
  }

  lemma SilentWaitSummary(a: State, t: Thread, b: State)
    requires SeeNothing(a, t, b) || MissDeadline(a, t, b)
    ensures Summary(a, t, b)
  {
    assert b.log == a.log;
  }

  lemma SilentEndSummary(a: State, t: Thread, b: State)
    requires Poll(a, t, b) || Record(a, t, b)
    ensures Summary(a, t, b)
  {
    assert b.log == a.log;
  }

  lemma CheckStepSummary(a: State, t: Thread, b: State)
    requires FindLive(a, t, b) || Spawn(a, t, b)
    ensures Summary(a, t, b)
  {
    assert b.log[|a.log|..] == [b.log[|a.log|]];
  }

  lemma SeeSidecarSummary(a: State, t: Thread, b: State)
    requires SeeSidecar(a, t, b)
    ensures Summary(a, t, b)
  {
    assert b.log[|a.log|..] == [b.log[|a.log|]];
  }

  lemma ReapSummary(a: State, t: Thread, b: State)
    requires Reap(a, t, b)
    ensures Summary(a, t, b)
  {
    assert b.threads == a.threads[t := b.Pc(t)];
    assert forall e :: e in b.log[|a.log|..] ==> e.Ended? || e.Failed?;
  }

  lemma OpenStepSummary(a: State, t: Thread, b: State)
    requires OpenStep(a, t, b)
    ensures Summary(a, t, b)
  {
    if TakeLock(a, t, b) || Leave(a, t, b) {
      HoldSummary(a, t, b);
    } else if LockStep(a, t, b) {
      LookSummary(a, t, b);
    } else if FindLive(a, t, b) || Spawn(a, t, b) {
      CheckStepSummary(a, t, b);
    } else if CheckStep(a, t, b) {
      SilentCheckSummary(a, t, b);
    } else if SeeSidecar(a, t, b) {
      SeeSidecarSummary(a, t, b);
    } else if Reap(a, t, b) {
      ReapSummary(a, t, b);
    } else if Poll(a, t, b) || Record(a, t, b) {
      SilentEndSummary(a, t, b);
    } else {
      SilentWaitSummary(a, t, b);
    }
  }

  /** The other steps move no thread and give no answer. */
  ghost predicate Quiet(a: State, b: State) {
    b.threads == a.threads && forall e :: Adds(a, b, e) ==> !IsAnswer(e)
  }

  lemma ChildStepQuiet(a: State, p: Pid, b: State)
    requires ChildStep(a, p, b)
    ensures Quiet(a, b)
  {}

  lemma StepSummary(a: State, b: State)
    requires Step(a, b)
    ensures Quiet(a, b) || exists t: Thread :: OpenStep(a, t, b) && Summary(a, t, b)
  {
    if t: Thread :| OpenStep(a, t, b) {
      OpenStepSummary(a, t, b);
    } else if p: Pid :| ChildStep(a, p, b) {
      ChildStepQuiet(a, p, b);
    }
  }

  /** Only its own steps move a thread. */
  lemma MovesAreOwn(a: State, b: State, t: Thread)
    requires Step(a, b) && b.Pc(t) != a.Pc(t)
    ensures OpenStep(a, t, b) && Summary(a, t, b)
  {
    StepSummary(a, b);
  }

  // ----- one thread over a run -----

  /** Where one thread is, state by state. */
  ghost predicate Path(pcs: seq<OpenPc>) {
    forall i :: 0 < i < |pcs| ==> Continues(pcs[i - 1], pcs[i])
  }

  function PathOf(run: seq<State>, t: Thread): (r: seq<OpenPc>)
    ensures |r| == |run| && forall i :: 0 <= i < |run| ==> r[i] == run[i].Pc(t)
  {
    seq(|run|, i requires 0 <= i < |run| => run[i].Pc(t))
  }

  lemma StepContinues(a: State, b: State, t: Thread)
    requires Step(a, b)
    ensures Continues(a.Pc(t), b.Pc(t))
  {
    if b.Pc(t) != a.Pc(t) {
      MovesAreOwn(a, b, t);
    }
  }

  lemma RunsArePaths(run: seq<State>, t: Thread)
    requires IsRun(run)
    ensures Path(PathOf(run, t))
  {
    forall i | 0 < i < |run| ensures Continues(PathOf(run, t)[i - 1], PathOf(run, t)[i]) {
      assert StepAt(run, i);
      StepContinues(run[i - 1], run[i], t);
    }
  }

  ghost predicate Inside(pcs: seq<OpenPc>, i: nat, j: nat) {
    i <= j < |pcs| && forall m :: i <= m <= j ==> !pcs[m].Idle?
  }

  lemma {:induction false} PathKeeps(pcs: seq<OpenPc>, i: nat, j: nat)
    requires Path(pcs) && Inside(pcs, i, j)
    ensures pcs[j].id == pcs[i].id && Stage(pcs[i]) <= Stage(pcs[j])
    ensures Stage(pcs[j]) == 0 ==> Stage(pcs[i]) == 0 && pcs[j].anew == pcs[i].anew
  {
    if i < j {
      PathKeeps(pcs, i, j - 1);
    }
  }

  lemma {:induction false} PathBegan(pcs: seq<OpenPc>, j: nat) returns (i: nat)
    requires Path(pcs) && j < |pcs| && pcs[0].Idle? && !pcs[j].Idle?
    ensures Inside(pcs, i, j) && pcs[i].Locking?
  {
    if pcs[j - 1].Idle? {
      i := j;
    } else {
      i := PathBegan(pcs, j - 1);
    }
  }

  lemma CallIsInside(run: seq<State>, i: nat, j: nat, t: Thread, id: Id, anew: bool)
    requires IsRun(run) && InCall(run, i, j, t, id, anew)
    ensures Path(PathOf(run, t)) && Inside(PathOf(run, t), i, j)
    ensures run[j].Pc(t).id == id && (Stage(run[j].Pc(t)) == 0 ==> run[j].Pc(t).anew == anew)
  {
    RunsArePaths(run, t);
    PathKeeps(PathOf(run, t), i, j);
  }

  // ----- whole calls -----

  /**
   Every answer in the history is that of a call for its id: a reuse, of one that began without
   `fresh`, a refusal, of one that began with it. It names the child that serves the session then.
   */
  lemma AnswersFitTheirCalls(run: seq<State>, m: nat, e: Event) returns (i: nat, t: Thread)
    requires IsRun(run) && NoLiveRemoval(run) && m + 1 < |run|
    requires Adds(run[m], run[m + 1], e) && IsAnswer(e)
    ensures InCall(run, i, m, t, e.id, e.Refused?) && Moves(run, m, t)
    ensures Serving(run[m].children, e.pid, e.id)
  {
    assert StepAt(run, m + 1);
    StepSummary(run[m], run[m + 1]);
    t :| OpenStep(run[m], t, run[m + 1]) && Summary(run[m], t, run[m + 1]);
    assert Fits(run[m], t, run[m + 1], e);
    RunsArePaths(run, t);
    i := PathBegan(PathOf(run, t), m);
    PathKeeps(PathOf(run, t), i, m);
    FoundIsServing(run, m, e.id);
  }

  lemma FoundIsServing(run: seq<State>, m: nat, id: Id)
    requires IsRun(run) && NoLiveRemoval(run) && m < |run| && run[m].Get(id).Some?
    ensures Serving(run[m].children, run[m].Get(id).value, id)
  {
    InvHolds(run, m);
  }

  /** So a call that began without `fresh` never refuses, and one that began with it never reuses. */
  lemma CallsAnswerAsAsked(run: seq<State>, i: nat, m: nat, t: Thread, id: Id, anew: bool, e: Event)
    requires IsRun(run) && InCall(run, i, m, t, id, anew) && Moves(run, m, t)
    requires Adds(run[m], run[m + 1], e) && IsAnswer(e)
    ensures e.Refused? == anew && e.id == id
  {
    CallIsInside(run, i, m, t, id, anew);
    assert StepAt(run, m + 1);
    MovesAreOwn(run[m], run[m + 1], t);
    assert Fits(run[m], t, run[m + 1], e);
  }

  lemma MoveFits(run: seq<State>, m: nat, t: Thread, e: Event)
    requires IsRun(run) && Moves(run, m, t) && Adds(run[m], run[m + 1], e)
    ensures Fits(run[m], t, run[m + 1], e)
  {
    assert StepAt(run, m + 1);
    MovesAreOwn(run[m], run[m + 1], t);
  }

  /** A call that has answered so, or will, spawns nothing. */
  lemma AnsweredCallsSpawnNothing(run: seq<State>, i: nat, j: nat, t: Thread, id: Id, anew: bool,
                                  m: nat, e: Event, n: nat, f: Event)
    requires IsRun(run) && InCall(run, i, j, t, id, anew)
    requires i <= m < j && Moves(run, m, t) && Adds(run[m], run[m + 1], e) && IsAnswer(e)
    requires i <= n < j && Moves(run, n, t) && Adds(run[n], run[n + 1], f)
    ensures !f.Spawned?
  {
    var pcs := PathOf(run, t);
    CallIsInside(run, i, j, t, id, anew);
    MoveFits(run, m, t, e);
    MoveFits(run, n, t, f);
    StagesExclude(pcs, i, j, m, n);
  }

  lemma StagesExclude(pcs: seq<OpenPc>, i: nat, j: nat, m: nat, n: nat)
    requires Path(pcs) && Inside(pcs, i, j) && i <= m < j && i <= n < j
    requires pcs[m].Checking? && pcs[m + 1].Leaving?
    ensures !(pcs[n].Spawning? && pcs[n + 1].Awaiting?)
  {
    if n < m {
      PathKeeps(pcs, n + 1, m);
    } else if m < n {
      PathKeeps(pcs, m + 1, n);
    }
  }

  /**
   A call that finds the session live spawns nothing, and answers with the process it found, unless
   the check raises.
   */
  lemma LiveSessionIsAnswered(run: seq<State>, i: nat, m: nat, t: Thread, id: Id, anew: bool)
    requires IsRun(run) && InCall(run, i, m, t, id, anew) && Moves(run, m, t)
    requires run[m].Pc(t).Checking? && run[m].Get(id).Some?
    ensures run[m + 1].log == run[m].log
            || run[m + 1].log == run[m].log + [if anew then Refused(id, run[m].Get(id).value)
                                               else Reused(id, run[m].Get(id).value)]
    ensures run[m + 1].children == run[m].children && run[m + 1].store == run[m].store && run[m + 1].Pc(t).Leaving?
  {
    CallIsInside(run, i, m, t, id, anew);
    assert StepAt(run, m + 1);
    MovesAreOwn(run[m], run[m + 1], t);
    CheckFindsLive(run[m], t, run[m + 1]);
  }

  // ----- how a call that has spawned ends -----

  /** A wait is given up early exactly if the process has exited. */
  lemma PollEndsExactly(run: seq<State>, m: nat, t: Thread)
    requires IsRun(run) && Moves(run, m, t) && run[m].Pc(t).Polling?
    ensures run[m + 1].Pc(t).Reaping? <==> !run[m].Alive(run[m].Pc(t).pid)
    ensures run[m + 1].Pc(t).Awaiting? <==> run[m].Alive(run[m].Pc(t).pid)
  {
    assert StepAt(run, m + 1);
    MovesAreOwn(run[m], run[m + 1], t);
    PollOnly(run[m], t, run[m + 1]);
  }

  lemma PollOnly(a: State, t: Thread, b: State)
    requires OpenStep(a, t, b) && a.Pc(t).Polling?
    ensures Poll(a, t, b)
  {}

  /** The call works on its child, or has told how that went: with a handle, or with a failure. */
  ghost predicate Accounts(a: State, pc: OpenPc, id: Id, p: Pid) {
    match pc
    case Awaiting(_, _, q) => q == p
    case Polling(_, _, q) => q == p
    case Reaping(_, _, q) => q == p
    case Recording(_, _, q, seen) => q == p && seen == p && Ready(id, p) in a.log
    case Leaving(_, _) => (Ready(id, p) in a.log && p in a.handles) || Failed(id, p) in a.log
    case _ => false
  }

  /** Histories and handles only grow. */
  ghost predicate Grows(a: State, b: State) {
    (forall e :: e in a.log ==> e in b.log) && a.handles.Keys <= b.handles.Keys
  }

  lemma LockStepGrows(a: State, t: Thread, b: State)
    requires LockStep(a, t, b)
    ensures Grows(a, b)
  {}

  lemma CheckStepGrows(a: State, t: Thread, b: State)
    requires CheckStep(a, t, b)
    ensures Grows(a, b)
  {}

  lemma WaitStepGrows(a: State, t: Thread, b: State)
    requires WaitStep(a, t, b)
    ensures Grows(a, b)
  {}

  lemma ChildStepGrows(a: State, p: Pid, b: State)
    requires ChildStep(a, p, b)
    ensures Grows(a, b)
  {}

  lemma StepGrows(a: State, b: State)
    requires Step(a, b)
    ensures Grows(a, b)
  {
    if t: Thread :| OpenStep(a, t, b) {
      if LockStep(a, t, b) {
        LockStepGrows(a, t, b);
      } else if CheckStep(a, t, b) {
        CheckStepGrows(a, t, b);
      } else {
        WaitStepGrows(a, t, b);
      }
    } else if p: Pid :| ChildStep(a, p, b) {
      ChildStepGrows(a, p, b);
    }
  }

  /** A thread that waits sees no sidecar but its own child's. */
  predicate SeesOwn(a: State, pc: OpenPc, p: Pid) {
    pc.Awaiting? && a.Get(pc.id).Some? ==> a.Get(pc.id).value == p
  }

  lemma WaitsOnly(a: State, t: Thread, b: State)
    requires OpenStep(a, t, b) && Stage(a.Pc(t)) >= 2 && !a.Pc(t).Idle? && !b.Pc(t).Idle?
    ensures WaitStep(a, t, b)
  {}

  lemma WaitStepAccounts(a: State, t: Thread, b: State, id: Id, p: Pid)
    requires SeeNothing(a, t, b) || MissDeadline(a, t, b) || Poll(a, t, b) || Reap(a, t, b)
    requires Accounts(a, a.Pc(t), id, p) && a.Pc(t).id == id
    ensures Accounts(b, b.Pc(t), id, p)
  {}

  lemma SuccessAccounts(a: State, t: Thread, b: State, id: Id, p: Pid)
    requires SeeSidecar(a, t, b) || Record(a, t, b)
    requires Accounts(a, a.Pc(t), id, p) && a.Pc(t).id == id && SeesOwn(a, a.Pc(t), p)
    ensures Accounts(b, b.Pc(t), id, p)
  {}

  lemma AccountsStep(a: State, b: State, t: Thread, id: Id, p: Pid)
    requires Step(a, b) && Accounts(a, a.Pc(t), id, p) && SeesOwn(a, a.Pc(t), p)
    requires a.Pc(t).id == id && !b.Pc(t).Idle?
    ensures Accounts(b, b.Pc(t), id, p)
  {
    if b.Pc(t) == a.Pc(t) {
      StepGrows(a, b);
    } else {
      MovesAreOwn(a, b, t);
      WaitsOnly(a, t, b);
      if SeeSidecar(a, t, b) || Record(a, t, b) {
        SuccessAccounts(a, t, b, id, p);
      } else {
        WaitStepAccounts(a, t, b, id, p);
      }
    }
  }

  lemma AccountsRunStep(run: seq<State>, m: nat, t: Thread, id: Id, p: Pid)
    requires IsRun(run) && NoLiveRemoval(run) && m + 1 < |run|
    requires Accounts(run[m], run[m].Pc(t), id, p) && run[m].Pc(t).id == id && !run[m + 1].Pc(t).Idle?
    ensures Accounts(run[m + 1], run[m + 1].Pc(t), id, p)
  {
    if run[m].Pc(t).Awaiting? && run[m].Get(id).Some? {
      InvHolds(run, m);
      OpenSeesOwnChild(run[m], t);
    }
    assert StepAt(run, m + 1);
    AccountsStep(run[m], run[m + 1], t, id, p);
  }

  lemma RecordsAgree(run: seq<State>, j: nat, id: Id, p: Pid)
    requires IsRun(run) && NoLiveRemoval(run) && j < |run|
    ensures Failed(id, p) in run[j].log ==>
              !run[j].Alive(p) && p !in run[j].handles && Ready(id, p) !in run[j].log
    ensures p in run[j].handles ==> run[j].handles[p] == p
  {
    InvHolds(run, j);
  }

  lemma CallStepAccounts(run: seq<State>, i: nat, m: nat, t: Thread, id: Id, anew: bool, p: Pid)
    requires IsRun(run) && NoLiveRemoval(run) && InCall(run, i, m, t, id, anew)
    requires m + 1 < |run| && !run[m + 1].Pc(t).Idle? && Accounts(run[m], run[m].Pc(t), id, p)
    ensures Accounts(run[m + 1], run[m + 1].Pc(t), id, p)
  {
    CallIsInside(run, i, m, t, id, anew);
    AccountsRunStep(run, m, t, id, p);
  }

  lemma {:induction false} CallAccounts(run: seq<State>, i: nat, n: nat, j: nat, t: Thread, id: Id, anew: bool, p: Pid)
    requires IsRun(run) && NoLiveRemoval(run) && InCall(run, i, j, t, id, anew)
    requires i <= n <= j && Accounts(run[n], run[n].Pc(t), id, p)
    ensures Accounts(run[j], run[j].Pc(t), id, p)
  {
    if n < j {
      CallAccounts(run, i, n, j - 1, t, id, anew, p);
      CallStepAccounts(run, i, j - 1, t, id, anew, p);
    }
  }

  lemma SpawnInRun(run: seq<State>, n: nat, t: Thread, id: Id, p: Pid)
    requires IsRun(run) && Moves(run, n, t) && Adds(run[n], run[n + 1], Spawned(id, p))
    ensures Accounts(run[n + 1], run[n + 1].Pc(t), id, p)
  {
    MoveFits(run, n, t, Spawned(id, p));
    assert StepAt(run, n + 1);
    MovesAreOwn(run[n], run[n + 1], t);
    SpawnStarts(run[n], t, run[n + 1], id, p);
  }

  /**
   A call that spawned a child and comes to leave has told how it went: the child is ready and its
   handle is recorded, or the open failed, and then the child is dead and has no handle.
   */
  lemma SpawnedCallsTellTheEnd(run: seq<State>, i: nat, n: nat, j: nat, t: Thread, id: Id, anew: bool, p: Pid)
    requires IsRun(run) && NoLiveRemoval(run) && InCall(run, i, j, t, id, anew)
    requires i <= n < j && Moves(run, n, t) && Adds(run[n], run[n + 1], Spawned(id, p))
    requires run[j].Pc(t).Leaving?
    ensures if Failed(id, p) in run[j].log then !run[j].Alive(p) && p !in run[j].handles && Ready(id, p) !in run[j].log
            else Ready(id, p) in run[j].log && p in run[j].handles && run[j].handles[p] == p
  {
    SpawnInRun(run, n, t, id, p);
    CallAccounts(run, i, n + 1, j, t, id, anew, p);
    RecordsAgree(run, j, id, p);
  }

  lemma SpawnStarts(a: State, t: Thread, b: State, id: Id, p: Pid)
    requires OpenStep(a, t, b) && Adds(a, b, Spawned(id, p)) && a.Pc(t).Spawning?
    ensures Accounts(b, b.Pc(t), id, p)
  {}

  lemma CheckFindsLive(a: State, t: Thread, b: State)
    requires OpenStep(a, t, b) && a.Pc(t).Checking? && a.Get(a.Pc(t).id).Some?
    ensures FindLive(a, t, b) || SpawnFails(a, t, b)
  {}
}

/**
 Opening sessions (spawner/core.py, Spawner.open; plugin/headless_bootstrap.py, main).

 Any number of threads run `open` on one spawner while the children they spawn publish
 and remove their sidecars. `session.get` is one step, as are a sidecar write and a
 sidecar removal; everything else interleaves freely. Polling deadlines may pass at any
 moment. A process id names one child for ever.

 A child serves its session until it takes its sidecar down or dies. The bootstrap's
 teardown runs twice (once in `finally`, once from `atexit`) and removes the sidecar by
 session id both times, so the second removal may hit a sidecar that is there by then.
 */
module SpawnProtocol {
  import opened Prelude

  type Id = nat     // session ids are only compared
  type Thread = nat
  type Pid = nat
  type Lock = nat

  datatype Phase = Booting | Published | Withdrawn | Dead

  datatype Child = Child(id: Id, phase: Phase, opener: Thread)

  datatype Event =
    | Spawned(id: Id, pid: Pid)
    | Ready(id: Id, pid: Pid)        // an open that answers with `reused=False`
    | Reused(id: Id, pid: Pid)       // an open that answers with `reused=True`
    | Refused(id: Id, pid: Pid)      // `fresh=True` against a live session
    | Failed(id: Id, pid: Pid)       // an open that spawned `pid` and raised
    | Ended(id: Id, pid: Pid)        // the child stopped serving

  datatype OpenPc =
    | Idle
    | Locking(id: Id, anew: bool)                 // `_spawn_lock(id)`
    | Blocked(id: Id, anew: bool, l: Lock)        // enters the `with` block
    | Checking(id: Id, anew: bool, l: Lock)       // `session.get`
    | Spawning(id: Id, l: Lock)                    // `Popen`
    | Awaiting(id: Id, l: Lock, pid: Pid)          // `session.get` in `_await_sidecar`
    | Polling(id: Id, l: Lock, pid: Pid)           // `proc.poll()`
    | Recording(id: Id, l: Lock, pid: Pid, seen: Pid)   // `_handles[info.pid] = proc`
    | Reaping(id: Id, l: Lock, pid: Pid)           // `_best_effort_reap`
    | Leaving(id: Id, l: Lock)                     // leaves the `with` block

  datatype State = State(
    lockOf: map<Id, Lock>,           // `_spawn_locks`
    nextLock: Lock,
    holder: map<Lock, Thread>,
    threads: map<Thread, OpenPc>,
    handles: map<Pid, Pid>,          // `_handles`: recorded pid -> the process behind the handle
    children: map<Pid, Child>,
    nextPid: Pid,
    store: map<Id, Pid>,             // sidecar files, by the id in their name
    log: seq<Event>) {

    function Pc(t: Thread): OpenPc {
      if t in threads then threads[t] else Idle
    }

    predicate Alive(p: Pid) {
      p in children && children[p].phase != Dead
    }

    /** `session.get(id)`: the live pid in the sidecar. A stale sidecar is deleted, see `Collected`. */
    function Get(id: Id): Option<Pid> {
      if id in store && Alive(store[id]) then Some(store[id]) else None
    }

    function Collected(id: Id): map<Id, Pid> {
      if id in store && !Alive(store[id]) then store - {id} else store
    }
  }

  /** Spawned for `id`, and neither dead nor withdrawn. */
  predicate Serving(children: map<Pid, Child>, p: Pid, id: Id) {
    p in children && children[p].id == id && (children[p].phase == Booting || children[p].phase == Published)
  }

  const INITIAL := State(map[], 0, map[], map[], map[], map[], 1, map[], [])

  // ----- the steps -----

  function At(a: State, t: Thread, pc: OpenPc): State {
    a.(threads := a.threads[t := pc])
  }

  function Ending(a: State, p: Pid, phase: Phase): State
    requires p in a.children
  {
    var c := a.children[p];
    a.(children := a.children[p := c.(phase := phase)],
       log := if c.phase == Booting || c.phase == Published then a.log + [Ended(c.id, p)] else a.log)
  }

  /** A new call of `open`. */
  predicate Begin(a: State, t: Thread, b: State) {
    a.Pc(t).Idle? && b.Pc(t).Locking? && b == At(a, t, b.Pc(t))
  }

  /** `_spawn_lock(id)`: the lock of the id, which is never evicted. */
  predicate FindLock(a: State, t: Thread, b: State) {
    && a.Pc(t).Locking? && a.Pc(t).id in a.lockOf
    && b == At(a, t, Blocked(a.Pc(t).id, a.Pc(t).anew, a.lockOf[a.Pc(t).id]))
  }

  /** `_spawn_lock(id)` on first use. */
  predicate MakeLock(a: State, t: Thread, b: State) {
    && a.Pc(t).Locking? && a.Pc(t).id !in a.lockOf
    && b == At(a, t, Blocked(a.Pc(t).id, a.Pc(t).anew, a.nextLock))
            .(lockOf := a.lockOf[a.Pc(t).id := a.nextLock], nextLock := a.nextLock + 1)
  }

  predicate TakeLock(a: State, t: Thread, b: State) {
    && a.Pc(t).Blocked? && a.Pc(t).l !in a.holder
    && b == At(a, t, Checking(a.Pc(t).id, a.Pc(t).anew, a.Pc(t).l)).(holder := a.holder[a.Pc(t).l := t])
  }

  /** `session.get` found a live session: reuse it, or refuse a fresh analysis. */
  predicate FindLive(a: State, t: Thread, b: State) {
    && a.Pc(t).Checking? && a.Get(a.Pc(t).id).Some?
    && var id, p := a.Pc(t).id, a.Get(a.Pc(t).id).value;
       b == At(a, t, Leaving(id, a.Pc(t).l))
            .(log := a.log + [if a.Pc(t).anew then Refused(id, p) else Reused(id, p)])
  }

  predicate FindNone(a: State, t: Thread, b: State) {
    && a.Pc(t).Checking? && a.Get(a.Pc(t).id).None?
    && b == At(a, t, Spawning(a.Pc(t).id, a.Pc(t).l)).(store := a.Collected(a.Pc(t).id))
  }

  /** `session.get` raised, no idat was found, or `Popen` raised. */
  predicate SpawnFails(a: State, t: Thread, b: State) {
    (a.Pc(t).Checking? || a.Pc(t).Spawning?) && b == At(a, t, Leaving(a.Pc(t).id, a.Pc(t).l))
  }

  predicate Spawn(a: State, t: Thread, b: State) {
    && a.Pc(t).Spawning?
    && b == At(a, t, Awaiting(a.Pc(t).id, a.Pc(t).l, a.nextPid))
            .(children := a.children[a.nextPid := Child(a.Pc(t).id, Booting, t)], nextPid := a.nextPid + 1,
              log := a.log + [Spawned(a.Pc(t).id, a.nextPid)])
  }

  /** The loop of `_await_sidecar`: `session.get` finds the sidecar. */
  predicate SeeSidecar(a: State, t: Thread, b: State) {
    && a.Pc(t).Awaiting? && a.Get(a.Pc(t).id).Some?
    && var pc, p := a.Pc(t), a.Get(a.Pc(t).id).value;
       b == At(a, t, Recording(pc.id, pc.l, pc.pid, p)).(log := a.log + [Ready(pc.id, p)])
  }

  predicate SeeNothing(a: State, t: Thread, b: State) {
    && a.Pc(t).Awaiting? && a.Get(a.Pc(t).id).None?
    && b == At(a, t, Polling(a.Pc(t).id, a.Pc(t).l, a.Pc(t).pid)).(store := a.Collected(a.Pc(t).id))
  }

  /** The deadline passed, or `session.get` raised. */
  predicate MissDeadline(a: State, t: Thread, b: State) {
    a.Pc(t).Awaiting? && b == At(a, t, Reaping(a.Pc(t).id, a.Pc(t).l, a.Pc(t).pid))
  }

  /** `proc.poll()`: an early exit ends the wait. */
  predicate Poll(a: State, t: Thread, b: State) {
    && a.Pc(t).Polling?
    && var pc := a.Pc(t);
       b == At(a, t, if a.Alive(pc.pid) then Awaiting(pc.id, pc.l, pc.pid) else Reaping(pc.id, pc.l, pc.pid))
  }

  predicate Record(a: State, t: Thread, b: State) {
    && a.Pc(t).Recording?
    && b == At(a, t, Leaving(a.Pc(t).id, a.Pc(t).l)).(handles := a.handles[a.Pc(t).seen := a.Pc(t).pid])
  }

  /** `_best_effort_reap`, with a kill that takes effect. */
  predicate Reap(a: State, t: Thread, b: State) {
    && a.Pc(t).Reaping? && a.Pc(t).pid in a.children
    && var pc := a.Pc(t);
       var k := Ending(a, pc.pid, Dead);
       b == At(k, t, Leaving(pc.id, pc.l)).(log := k.log + [Failed(pc.id, pc.pid)])
  }

  predicate Leave(a: State, t: Thread, b: State) {
    a.Pc(t).Leaving? && b == At(a, t, Idle).(holder := a.holder - {a.Pc(t).l})
  }

  predicate LockStep(a: State, t: Thread, b: State) {
    Begin(a, t, b) || FindLock(a, t, b) || MakeLock(a, t, b) || TakeLock(a, t, b) || Leave(a, t, b)
  }

  predicate CheckStep(a: State, t: Thread, b: State) {
    FindLive(a, t, b) || FindNone(a, t, b) || SpawnFails(a, t, b) || Spawn(a, t, b)
  }

  predicate WaitStep(a: State, t: Thread, b: State) {
    || SeeSidecar(a, t, b) || SeeNothing(a, t, b) || MissDeadline(a, t, b)
    || Poll(a, t, b) || Record(a, t, b) || Reap(a, t, b)
  }

  predicate OpenStep(a: State, t: Thread, b: State) {
    LockStep(a, t, b) || CheckStep(a, t, b) || WaitStep(a, t, b)
  }

  predicate Publish(a: State, p: Pid, b: State) {
    && p in a.children && a.children[p].phase == Booting
    && b == a.(children := a.children[p := a.children[p].(phase := Published)],
               store := a.store[a.children[p].id := p])
  }

  /** The first run of `_cleanup`. */
  predicate Withdraw(a: State, p: Pid, b: State) {
    && p in a.children && a.children[p].phase == Published
    && b == Ending(a, p, Withdrawn).(store := a.store - {a.children[p].id})
  }

  /** The second run of `_cleanup`: it removes whatever sidecar bears the id by now. */
  predicate RemoveAgain(a: State, p: Pid, b: State) {
    && p in a.children && a.children[p].phase == Withdrawn
    && b == a.(store := a.store - {a.children[p].id})
  }

  predicate Die(a: State, p: Pid, b: State) {
    a.Alive(p) && b == Ending(a, p, Dead)
  }

  predicate ChildStep(a: State, p: Pid, b: State) {
    Publish(a, p, b) || Withdraw(a, p, b) || Die(a, p, b) || RemoveAgain(a, p, b)
  }

  /** Any reader of the store deletes a sidecar whose process is gone. */
  predicate Collect(a: State, id: Id, b: State) {
    b == a.(store := a.Collected(id))
  }

  ghost predicate Step(a: State, b: State) {
    || (exists t: Thread :: OpenStep(a, t, b))
    || (exists p: Pid :: ChildStep(a, p, b))
    || (exists id: Id :: Collect(a, id, b))
  }

  /** State `i` follows the one before. */
  ghost predicate StepAt(run: seq<State>, i: nat)
    requires 0 < i < |run|
  {
    Step(run[i - 1], run[i])
  }

  ghost predicate IsRun(run: seq<State>) {
    && |run| > 0
    && run[0] == INITIAL
    && forall i :: 0 < i < |run| ==> StepAt(run, i)
  }

  /** This step is no second removal that hits the sidecar of a running child. */
  ghost predicate SparesLive(a: State, b: State) {
    forall p: Pid :: RemoveAgain(a, p, b) ==> a.Get(a.children[p].id).None?
  }

  ghost predicate SparesLiveAt(run: seq<State>, i: nat)
    requires 0 < i < |run|
  {
    SparesLive(run[i - 1], run[i])
  }

  /** Every second removal of the run finds its sidecar gone, or the process of it dead. */
  ghost predicate NoLiveRemoval(run: seq<State>) {
    forall i :: 0 < i < |run| ==> SparesLiveAt(run, i)
  }

  // ----- the properties -----

  /** The thread is between the liveness check and the end of the locked block, for `id`. */
  predicate InsideFor(pc: OpenPc, id: Id) {
    !pc.Idle? && !pc.Locking? && !pc.Blocked? && pc.id == id
  }

  ghost predicate OneThreadInside(a: State) {
    forall t: Thread, u: Thread, id: Id :: InsideFor(a.Pc(t), id) && InsideFor(a.Pc(u), id) ==> t == u
  }

  ghost predicate OneServingChild(children: map<Pid, Child>) {
    forall p: Pid, q: Pid, id: Id :: Serving(children, p, id) && Serving(children, q, id) ==> p == q
  }

  /** Between two opens of a session that answer `reused=False`, the first child stopped serving. */
  ghost predicate ReadyOnce(log: seq<Event>) {
    forall i, j :: 0 <= i < j < |log| && log[i].Ready? && log[j].Ready? && log[j].id == log[i].id ==>
      log[j].pid != log[i].pid && Ended(log[i].id, log[i].pid) in log[i..j]
  }

  /** Handles are the opens that succeeded: keyed by their own process, none for a failed open. */
  ghost predicate HandlesMatch(a: State) {
    && (forall p :: p in a.handles ==> a.handles[p] == p && p in a.children && Ready(a.children[p].id, p) in a.log)
    && (forall id: Id, p: Pid :: Failed(id, p) in a.log ==> p !in a.handles && !a.Alive(p))
  }

  /** A child that has published is what `session.get` finds. */
  ghost predicate PublishedAreFound(a: State) {
    forall p: Pid :: p in a.children && a.children[p].phase == Published ==> a.Get(a.children[p].id) == Some(p)
  }

  ghost predicate Good(a: State) {
    && OneThreadInside(a) && OneServingChild(a.children) && ReadyOnce(a.log) && HandlesMatch(a)
    && PublishedAreFound(a)
  }

  // ----- the invariant -----

  ghost predicate LocksMatch(a: State) {
    && (forall id :: id in a.lockOf ==> a.lockOf[id] < a.nextLock)
    && (forall i, j :: i in a.lockOf && j in a.lockOf && a.lockOf[i] == a.lockOf[j] ==> i == j)
  }

  ghost predicate Unserved(children: map<Pid, Child>, id: Id) {
    forall p: Pid :: !Serving(children, p, id)
  }

  ghost predicate ServedOnlyBy(children: map<Pid, Child>, id: Id, p: Pid) {
    forall q: Pid :: Serving(children, q, id) ==> q == p
  }

  ghost predicate HoldsLock(a: State, t: Thread) {
    var pc := a.Pc(t);
    && (!pc.Idle? && !pc.Locking? ==> pc.id in a.lockOf && a.lockOf[pc.id] == pc.l)
    && (!pc.Idle? && !pc.Locking? && !pc.Blocked? ==> pc.l in a.holder && a.holder[pc.l] == t)
  }

  ghost predicate ThreadMatches(a: State, t: Thread) {
    var pc := a.Pc(t);
    && (pc.Spawning? ==> Unserved(a.children, pc.id))
    && (pc.Awaiting? || pc.Polling? || pc.Reaping? ==>
          && pc.pid in a.children && a.children[pc.pid].id == pc.id
          && Ready(pc.id, pc.pid) !in a.log && Failed(pc.id, pc.pid) !in a.log
          && pc.pid !in a.handles
          && ServedOnlyBy(a.children, pc.id, pc.pid))
    && (pc.Recording? ==>
          && pc.seen == pc.pid && pc.pid in a.children && a.children[pc.pid].id == pc.id
          && Ready(pc.id, pc.pid) in a.log && Failed(pc.id, pc.pid) !in a.log)
  }

  ghost predicate ChildMatches(a: State, p: Pid) {
    p in a.children ==>
      var c := a.children[p];
      && p < a.nextPid && c.id in a.lockOf
      && (c.phase == Booting ==>
            var pc := a.Pc(c.opener);
            (pc.Awaiting? || pc.Polling? || pc.Reaping?) && pc.id == c.id && pc.pid == p)
      && (c.phase == Published ==> c.id in a.store && a.store[c.id] == p)
  }

  ghost predicate StoreMatches(a: State) {
    forall id :: id in a.store ==>
      var p := a.store[id];
      p in a.children && a.children[p].id == id && (a.children[p].phase == Published || a.children[p].phase == Dead)
  }

  ghost predicate LogMatches(a: State) {
    && (forall id: Id, p: Pid :: Ready(id, p) in a.log || Failed(id, p) in a.log ==>
          p in a.children && a.children[p].id == id && !(Ready(id, p) in a.log && Failed(id, p) in a.log))
  }

  ghost predicate EndsMatch(children: map<Pid, Child>, log: seq<Event>) {
    forall i :: 0 <= i < |log| && log[i].Ready? ==>
      Serving(children, log[i].pid, log[i].id) || Ended(log[i].id, log[i].pid) in log[i..]
  }

  ghost predicate Inv(a: State) {
    && LocksMatch(a)
    && (forall t: Thread :: HoldsLock(a, t))
    && (forall t: Thread :: ThreadMatches(a, t))
    && (forall p: Pid :: ChildMatches(a, p))
    && StoreMatches(a)
    && LogMatches(a)
    && EndsMatch(a.children, a.log)
    && OneServingChild(a.children)
    && ReadyOnce(a.log)
    && HandlesMatch(a)
  }

  // ----- every run -----

  lemma ReadyOnceExtends(children: map<Pid, Child>, log: seq<Event>, e: Event)
    requires EndsMatch(children, log) && ReadyOnce(log)
    requires e.Ready? ==> Serving(children, e.pid, e.id) && OneServingChild(children) && e !in log
    ensures ReadyOnce(log + [e])
  {
    var l := log + [e];
    forall i, j | 0 <= i <= j <= |log| ensures l[i..j] == log[i..j] {}
    forall i | 0 <= i <= |log| ensures log[i..|log|] == log[i..] {}
  }

  lemma EndsExtend(children: map<Pid, Child>, log: seq<Event>, e: Event, children': map<Pid, Child>)
    requires EndsMatch(children, log)
    requires e.Ready? ==> Serving(children', e.pid, e.id)
    requires forall p: Pid, id: Id :: Serving(children, p, id) ==> Serving(children', p, id) || e == Ended(id, p)
    ensures EndsMatch(children', log + [e])
  {
    forall i | 0 <= i <= |log| ensures (log + [e])[i..] == log[i..] + [e] {}
  }

  lemma EndingKeepsHistory(a: State, p: Pid, phase: Phase)
    requires EndsMatch(a.children, a.log) && ReadyOnce(a.log) && OneServingChild(a.children)
    requires p in a.children && (phase == Dead || phase == Withdrawn)
    ensures var k := Ending(a, p, phase);
      && (forall q: Pid, id: Id :: Serving(k.children, q, id) <==> Serving(a.children, q, id) && q != p)
      && EndsMatch(k.children, k.log) && ReadyOnce(k.log) && OneServingChild(k.children)
  {
    var k := Ending(a, p, phase);
    forall q: Pid, id: Id ensures Serving(k.children, q, id) <==> Serving(a.children, q, id) && q != p {}
    if k.log != a.log {
      EndsExtend(a.children, a.log, Ended(a.children[p].id, p), k.children);
      ReadyOnceExtends(a.children, a.log, Ended(a.children[p].id, p));
    }
  }

  /** Mutual exclusion: every thread working for one id holds the one lock of that id. */
  lemma InsideIsExclusive(a: State, t: Thread, u: Thread, id: Id)
    requires HoldsLock(a, t) && HoldsLock(a, u) && InsideFor(a.Pc(t), id) && InsideFor(a.Pc(u), id)
    ensures t == u
  {}

  /** What the liveness check and the lock together establish: the id has no serving child. */
  lemma CheckedUnserved(a: State, t: Thread)
    requires Inv(a) && a.Pc(t).Checking? && a.Get(a.Pc(t).id).None?
    ensures Unserved(a.children, a.Pc(t).id)
  {
    var id := a.Pc(t).id;
    forall p: Pid ensures !Serving(a.children, p, id) {
      if Serving(a.children, p, id) {
        assert ChildMatches(a, p) && HoldsLock(a, t);
        if a.children[p].phase == Booting {
          assert HoldsLock(a, a.children[p].opener);
          InsideIsExclusive(a, t, a.children[p].opener, id);
        }
      }
    }
  }

  /** What a successful open has seen is the very process it spawned. */
  lemma OpenSeesOwnChild(a: State, t: Thread)
    requires Inv(a) && a.Pc(t).Awaiting? && a.Get(a.Pc(t).id).Some?
    ensures a.Get(a.Pc(t).id).value == a.Pc(t).pid && a.children[a.Pc(t).pid].phase == Published
  {
    assert ThreadMatches(a, t);
    assert Serving(a.children, a.Get(a.Pc(t).id).value, a.Pc(t).id);
  }

  /** The thread still waits for the child it waited for, if it waited for one. */
  predicate KeepsWaiting(before: OpenPc, after: OpenPc) {
    before.Awaiting? || before.Polling? || before.Reaping? ==>
      (after.Awaiting? || after.Polling? || after.Reaping?) && after.id == before.id && after.pid == before.pid
  }

  /** A step that only moves a thread on, and perhaps takes or frees its lock, leaves all others alone. */
  lemma MoveKeeps(a: State, t: Thread, b: State)
    requires Inv(a) && b == At(a, t, b.Pc(t)).(holder := b.holder)
    requires forall u: Thread :: u != t && HoldsLock(a, u) ==> HoldsLock(b, u)
    requires HoldsLock(b, t) && ThreadMatches(b, t) && KeepsWaiting(a.Pc(t), b.Pc(t))
    ensures Inv(b)
  {
    forall u: Thread ensures HoldsLock(b, u) && ThreadMatches(b, u) {
      assert HoldsLock(a, u) && ThreadMatches(a, u);
    }
    forall p: Pid ensures ChildMatches(b, p) {
      assert ChildMatches(a, p);
    }
  }

  lemma CollectKeeps(a: State, id: Id, b: State)
    requires Inv(a) && Collect(a, id, b)
    ensures Inv(b)
  {
    forall u: Thread ensures HoldsLock(b, u) && ThreadMatches(b, u) {
      assert HoldsLock(a, u) && ThreadMatches(a, u);
    }
    forall q: Pid ensures ChildMatches(b, q) {
      assert ChildMatches(a, q);
    }
  }

  /** The steps that do nothing else. */
  lemma MovingStepKeeps(a: State, t: Thread, b: State)
    requires Inv(a)
    requires Begin(a, t, b) || FindLock(a, t, b) || TakeLock(a, t, b) || SpawnFails(a, t, b)
             || MissDeadline(a, t, b) || Poll(a, t, b) || Leave(a, t, b)
    ensures Inv(b)
  {
    assert HoldsLock(a, t) && ThreadMatches(a, t);
    MoveKeeps(a, t, b);
  }

  lemma MakeLockThread(a: State, t: Thread, b: State, u: Thread)
    requires MakeLock(a, t, b) && LocksMatch(a)
    requires HoldsLock(a, t) && ThreadMatches(a, t) && HoldsLock(a, u) && ThreadMatches(a, u)
    ensures LocksMatch(b) && HoldsLock(b, u) && ThreadMatches(b, u)
  {}

  lemma MakeLockKeeps(a: State, t: Thread, b: State)
    requires Inv(a) && MakeLock(a, t, b)
    ensures Inv(b)
  {
    assert HoldsLock(a, t) && ThreadMatches(a, t);
    forall u: Thread ensures HoldsLock(b, u) && ThreadMatches(b, u) {
      assert HoldsLock(a, u) && ThreadMatches(a, u);
      MakeLockThread(a, t, b, u);
    }
    MakeLockThread(a, t, b, t);
    forall p: Pid ensures ChildMatches(b, p) {
      assert ChildMatches(a, p);
    }
  }

  lemma FindLiveThread(a: State, t: Thread, b: State, u: Thread)
    requires FindLive(a, t, b)
    requires HoldsLock(a, t) && ThreadMatches(a, t) && HoldsLock(a, u) && ThreadMatches(a, u)
    ensures HoldsLock(b, u) && ThreadMatches(b, u)
  {}

  lemma FindLiveHistory(a: State, t: Thread, b: State)
    requires EndsMatch(a.children, a.log) && ReadyOnce(a.log) && LogMatches(a) && HandlesMatch(a)
    requires FindLive(a, t, b)
    ensures EndsMatch(b.children, b.log) && ReadyOnce(b.log) && LogMatches(b) && HandlesMatch(b)
  {
    ReadyOnceExtends(a.children, a.log, b.log[|a.log|]);
    EndsExtend(a.children, a.log, b.log[|a.log|], b.children);
  }

  lemma FindLiveKeeps(a: State, t: Thread, b: State)
    requires Inv(a) && FindLive(a, t, b)
    ensures Inv(b)
  {
    assert HoldsLock(a, t) && ThreadMatches(a, t);
    FindLiveHistory(a, t, b);
    forall u: Thread ensures HoldsLock(b, u) && ThreadMatches(b, u) {
      assert HoldsLock(a, u) && ThreadMatches(a, u);
      FindLiveThread(a, t, b, u);
    }
    forall p: Pid ensures ChildMatches(b, p) {
      assert ChildMatches(a, p);
    }
  }

  lemma FindNoneKeeps(a: State, t: Thread, b: State)
    requires Inv(a) && FindNone(a, t, b)
    ensures Inv(b)
  {
    var swept := a.(store := a.Collected(a.Pc(t).id));
    CollectKeeps(a, a.Pc(t).id, swept);
    CheckedUnserved(a, t);
    assert HoldsLock(a, t);
    MoveKeeps(swept, t, b);
  }

  lemma SpawnThread(a: State, t: Thread, b: State, u: Thread)
    requires Spawn(a, t, b) && ChildMatches(a, a.nextPid) && LogMatches(a) && HandlesMatch(a)
    requires HoldsLock(a, t) && ThreadMatches(a, t) && HoldsLock(a, u) && ThreadMatches(a, u)
    requires forall p: Pid, i: Id :: Serving(b.children, p, i) ==>
               Serving(a.children, p, i) || (p == a.nextPid && i == a.Pc(t).id)
    ensures HoldsLock(b, u) && ThreadMatches(b, u)
  {}

  lemma SpawnKeeps(a: State, t: Thread, b: State)
    requires Inv(a) && Spawn(a, t, b)
    ensures Inv(b)
  {
    var id := a.Pc(t).id;
    assert HoldsLock(a, t) && ThreadMatches(a, t) && ChildMatches(a, a.nextPid);
    forall p: Pid, i: Id
      ensures Serving(b.children, p, i) <==> Serving(a.children, p, i) || (p == a.nextPid && i == id) {}
    ReadyOnceExtends(a.children, a.log, b.log[|a.log|]);
    EndsExtend(a.children, a.log, b.log[|a.log|], b.children);
    forall u: Thread ensures HoldsLock(b, u) {
      assert HoldsLock(a, u);
    }
    forall u: Thread ensures ThreadMatches(b, u) {
      assert HoldsLock(a, u) && ThreadMatches(a, u);
      SpawnThread(a, t, b, u);
    }
    forall p: Pid ensures ChildMatches(b, p) {
      assert ChildMatches(a, p);
    }
  }

  lemma SeeSidecarThread(a: State, t: Thread, b: State, u: Thread)
    requires SeeSidecar(a, t, b)
    requires a.Get(a.Pc(t).id).value == a.Pc(t).pid && LogMatches(a)
    requires HoldsLock(a, t) && ThreadMatches(a, t) && HoldsLock(a, u) && ThreadMatches(a, u)
    ensures HoldsLock(b, u) && ThreadMatches(b, u)
  {}

  lemma SeeSidecarKeeps(a: State, t: Thread, b: State)
    requires Inv(a) && SeeSidecar(a, t, b)
    ensures Inv(b)
  {
    assert HoldsLock(a, t) && ThreadMatches(a, t);
    OpenSeesOwnChild(a, t);
    ReadyOnceExtends(a.children, a.log, b.log[|a.log|]);
    EndsExtend(a.children, a.log, b.log[|a.log|], b.children);
    forall u: Thread ensures HoldsLock(b, u) && ThreadMatches(b, u) {
      assert HoldsLock(a, u) && ThreadMatches(a, u);
      SeeSidecarThread(a, t, b, u);
    }
    forall p: Pid ensures ChildMatches(b, p) {
      assert ChildMatches(a, p);
    }
  }

  lemma SeeNothingKeeps(a: State, t: Thread, b: State)
    requires Inv(a) && SeeNothing(a, t, b)
    ensures Inv(b)
  {
    var swept := a.(store := a.Collected(a.Pc(t).id));
    CollectKeeps(a, a.Pc(t).id, swept);
    assert HoldsLock(a, t) && ThreadMatches(a, t);
    MoveKeeps(swept, t, b);
  }

  lemma RecordThread(a: State, t: Thread, b: State, u: Thread)
    requires Record(a, t, b)
    requires HoldsLock(a, t) && ThreadMatches(a, t) && HoldsLock(a, u) && ThreadMatches(a, u)
    ensures HoldsLock(b, u) && ThreadMatches(b, u)
  {}

  lemma RecordKeeps(a: State, t: Thread, b: State)
    requires Inv(a) && Record(a, t, b)
    ensures Inv(b)
  {
    assert HoldsLock(a, t) && ThreadMatches(a, t);
    forall u: Thread ensures HoldsLock(b, u) && ThreadMatches(b, u) {
      assert HoldsLock(a, u) && ThreadMatches(a, u);
      RecordThread(a, t, b, u);
    }
    forall p: Pid ensures ChildMatches(b, p) {
      assert ChildMatches(a, p);
    }
  }

  lemma ReapThread(a: State, t: Thread, b: State, u: Thread)
    requires Reap(a, t, b) && LogMatches(a)
    requires HoldsLock(a, t) && ThreadMatches(a, t) && HoldsLock(a, u) && ThreadMatches(a, u)
    requires forall q: Pid, id: Id :: Serving(b.children, q, id) ==> Serving(a.children, q, id)
    ensures HoldsLock(b, u) && ThreadMatches(b, u)
  {}

  lemma ReapHistory(a: State, t: Thread, b: State)
    requires EndsMatch(a.children, a.log) && ReadyOnce(a.log) && OneServingChild(a.children) && Reap(a, t, b)
    ensures EndsMatch(b.children, b.log) && ReadyOnce(b.log) && OneServingChild(b.children)
    ensures forall q: Pid, id: Id :: Serving(b.children, q, id) ==> Serving(a.children, q, id)
  {
    var pc := a.Pc(t);
    var k := Ending(a, pc.pid, Dead);
    EndingKeepsHistory(a, pc.pid, Dead);
    ReadyOnceExtends(k.children, k.log, Failed(pc.id, pc.pid));
    EndsExtend(k.children, k.log, Failed(pc.id, pc.pid), b.children);
  }

  lemma ReapRecords(a: State, t: Thread, b: State)
    requires StoreMatches(a) && LogMatches(a) && HandlesMatch(a) && ThreadMatches(a, t) && Reap(a, t, b)
    ensures StoreMatches(b) && LogMatches(b) && HandlesMatch(b)
  {}

  lemma ReapKeeps(a: State, t: Thread, b: State)
    requires Inv(a) && Reap(a, t, b)
    ensures Inv(b)
  {
    assert HoldsLock(a, t) && ThreadMatches(a, t);
    ReapHistory(a, t, b);
    ReapRecords(a, t, b);
    forall u: Thread ensures HoldsLock(b, u) && ThreadMatches(b, u) {
      assert HoldsLock(a, u) && ThreadMatches(a, u);
      ReapThread(a, t, b, u);
    }
    forall p: Pid ensures ChildMatches(b, p) {
      assert ChildMatches(a, p);
    }
  }

  lemma PublishThread(a: State, p: Pid, b: State, u: Thread)
    requires Publish(a, p, b) && HoldsLock(a, u) && ThreadMatches(a, u)
    requires forall q: Pid, id: Id :: Serving(b.children, q, id) ==> Serving(a.children, q, id)
    ensures HoldsLock(b, u) && ThreadMatches(b, u)
  {}

  lemma PublishKeeps(a: State, p: Pid, b: State)
    requires Inv(a) && Publish(a, p, b)
    ensures Inv(b)
  {
    assert ChildMatches(a, p);
    forall q: Pid, id: Id ensures Serving(b.children, q, id) <==> Serving(a.children, q, id) {}
    assert Serving(a.children, p, a.children[p].id);
    forall u: Thread ensures HoldsLock(b, u) && ThreadMatches(b, u) {
      assert HoldsLock(a, u) && ThreadMatches(a, u);
      PublishThread(a, p, b, u);
    }
    forall q: Pid ensures ChildMatches(b, q) {
      assert ChildMatches(a, q);
      assert q in a.children && a.children[q].phase == Published ==> Serving(a.children, q, a.children[q].id);
    }
  }

  lemma WithdrawThread(a: State, p: Pid, b: State, u: Thread)
    requires Withdraw(a, p, b) && HoldsLock(a, u) && ThreadMatches(a, u)
    requires forall q: Pid, id: Id :: Serving(b.children, q, id) ==> Serving(a.children, q, id)
    ensures HoldsLock(b, u) && ThreadMatches(b, u)
  {}

  lemma WithdrawKeeps(a: State, p: Pid, b: State)
    requires Inv(a) && Withdraw(a, p, b)
    ensures Inv(b)
  {
    EndingKeepsHistory(a, p, Withdrawn);
    assert ChildMatches(a, p);
    forall u: Thread ensures HoldsLock(b, u) && ThreadMatches(b, u) {
      assert HoldsLock(a, u) && ThreadMatches(a, u);
      WithdrawThread(a, p, b, u);
    }
    forall q: Pid ensures ChildMatches(b, q) {
      assert ChildMatches(a, q);
    }
  }

  lemma DieThread(a: State, p: Pid, b: State, u: Thread)
    requires Die(a, p, b) && HoldsLock(a, u) && ThreadMatches(a, u)
    requires forall q: Pid, id: Id :: Serving(b.children, q, id) ==> Serving(a.children, q, id)
    ensures HoldsLock(b, u) && ThreadMatches(b, u)
  {}

  lemma DieTables(a: State, p: Pid, b: State)
    requires LocksMatch(a) && StoreMatches(a) && LogMatches(a) && HandlesMatch(a) && ChildMatches(a, p)
    requires Die(a, p, b)
    ensures LocksMatch(b) && StoreMatches(b) && LogMatches(b) && HandlesMatch(b)
  {}

  lemma DieKeeps(a: State, p: Pid, b: State)
    requires Inv(a) && Die(a, p, b)
    ensures Inv(b)
  {
    EndingKeepsHistory(a, p, Dead);
    assert ChildMatches(a, p);
    DieTables(a, p, b);
    forall u: Thread ensures HoldsLock(b, u) && ThreadMatches(b, u) {
      assert HoldsLock(a, u) && ThreadMatches(a, u);
      DieThread(a, p, b, u);
    }
    forall q: Pid ensures ChildMatches(b, q) {
      assert ChildMatches(a, q);
    }
  }

  lemma OpenStepKeeps(a: State, t: Thread, b: State)
    requires Inv(a) && OpenStep(a, t, b)
    ensures Inv(b)
  {
    if MakeLock(a, t, b) { MakeLockKeeps(a, t, b); }
    else if FindLive(a, t, b) { FindLiveKeeps(a, t, b); }
    else if FindNone(a, t, b) { FindNoneKeeps(a, t, b); }
    else if Spawn(a, t, b) { SpawnKeeps(a, t, b); }
    else if SeeSidecar(a, t, b) { SeeSidecarKeeps(a, t, b); }
    else if SeeNothing(a, t, b) { SeeNothingKeeps(a, t, b); }
    else if Record(a, t, b) { RecordKeeps(a, t, b); }
    else if Reap(a, t, b) { ReapKeeps(a, t, b); }
    else { MovingStepKeeps(a, t, b); }
  }

  /** The second removal keeps everything exactly when it does not hit the sidecar of a running child. */
  lemma SecondRemovalExactly(a: State, p: Pid, b: State)
    requires Inv(a) && RemoveAgain(a, p, b)
    ensures Inv(b) <==> a.Get(a.children[p].id).None?
    ensures Good(b) <==> a.Get(a.children[p].id).None?
  {
    var id := a.children[p].id;
    if a.Get(id).None? {
      assert Collect(a, id, b);
      CollectKeeps(a, id, b);
      InvIsGood(b);
    } else {
      var q := a.store[id];
      assert a.children[q].phase == Published && a.children[q].id == id;
      assert !ChildMatches(b, q);
      assert b.Get(id).None?;
    }
  }

  lemma StepKeeps(a: State, b: State)
    requires Inv(a) && Step(a, b) && SparesLive(a, b)
    ensures Inv(b)
  {
    if t: Thread :| OpenStep(a, t, b) {
      OpenStepKeeps(a, t, b);
    } else if p: Pid :| ChildStep(a, p, b) {
      if Publish(a, p, b) {
        PublishKeeps(a, p, b);
      } else if Withdraw(a, p, b) {
        WithdrawKeeps(a, p, b);
      } else if Die(a, p, b) {
        DieKeeps(a, p, b);
      } else {
        SecondRemovalExactly(a, p, b);
      }
    } else {
      var id: Id :| Collect(a, id, b);
      CollectKeeps(a, id, b);
    }
  }

  lemma InvIsGood(a: State)
    requires Inv(a)
    ensures Good(a)
  {
    forall t: Thread, u: Thread, id: Id | InsideFor(a.Pc(t), id) && InsideFor(a.Pc(u), id) ensures t == u {
      InsideIsExclusive(a, t, u, id);
    }
    forall p: Pid | p in a.children && a.children[p].phase == Published
      ensures a.Get(a.children[p].id) == Some(p)
    {
      assert ChildMatches(a, p);
    }
  }

  lemma {:induction false} InvHolds(run: seq<State>, i: nat)
    requires IsRun(run) && NoLiveRemoval(run) && i < |run|
    ensures Inv(run[i])
  {
    if i > 0 {
      InvHolds(run, i - 1);
      assert StepAt(run, i) && SparesLiveAt(run, i);
      StepKeeps(run[i - 1], run[i]);
    }
  }

  /** In every interleaving whose second removals spare running children. */
  lemma OpensAreSafe(run: seq<State>, i: nat)
    requires IsRun(run) && NoLiveRemoval(run) && i < |run|
    ensures Good(run[i])
  {
    InvHolds(run, i);
    InvIsGood(run[i]);
  }

  /** When children leave the store only by dying, at most one child per id is alive. */
  lemma AtMostOneAlive(run: seq<State>, i: nat, p: Pid, q: Pid)
    requires IsRun(run) && NoLiveRemoval(run) && i < |run|
    requires forall r: Pid :: r in run[i].children ==> run[i].children[r].phase != Withdrawn
    requires run[i].Alive(p) && run[i].Alive(q) && run[i].children[p].id == run[i].children[q].id
    ensures p == q
  {
    InvHolds(run, i);
    assert Serving(run[i].children, p, run[i].children[p].id) && Serving(run[i].children, q, run[i].children[p].id);
  }

  // ----- when a child removes a sidecar that is not its own -----

  ghost predicate Reaches(a: State, b: State) {
    exists path: seq<State> ::
      && |path| > 0 && path[0] == a && path[|path| - 1] == b
      && forall i :: 0 < i < |path| ==> StepAt(path, i)
  }

  lemma ReachesSelf(a: State)
    ensures Reaches(a, a)
  {
    assert [a][0] == a;
  }

  lemma ReachesNext(a: State, b: State, c: State)
    requires Reaches(a, b) && Step(b, c)
    ensures Reaches(a, c)
  {
    var path: seq<State> :|
      && |path| > 0 && path[0] == a && path[|path| - 1] == b
      && forall i :: 0 < i < |path| ==> StepAt(path, i);
    var longer := path + [c];
    assert longer[0] == a && longer[|longer| - 1] == c;
    forall i | 0 < i < |longer| ensures StepAt(longer, i) {
      assert i < |path| ==> StepAt(path, i);
    }
  }

  lemma ReachesOpen(a: State, b: State, t: Thread, c: State)
    requires Reaches(a, b) && OpenStep(b, t, c)
    ensures Reaches(a, c)
  {
    ReachesNext(a, b, c);
  }

  lemma ReachesChild(a: State, b: State, p: Pid, c: State)
    requires Reaches(a, b) && ChildStep(b, p, c)
    ensures Reaches(a, c)
  {
    ReachesNext(a, b, c);
  }

  /** The thread is idle, the session is not live and its lock is free. */
  predicate Rested(a: State, t: Thread, id: Id) {
    && a.Pc(t).Idle? && a.Get(id).None?
    && id in a.lockOf && a.lockOf[id] !in a.holder
  }

  /** From rest, `open` can take the lock. */
  lemma OpenLocks(start: State, a: State, t: Thread, id: Id) returns (b: State)
    requires Reaches(start, a) && Rested(a, t, id)
    ensures Reaches(start, b)
    ensures var l := a.lockOf[id];
      b == a.(threads := a.threads[t := Checking(id, false, l)], holder := a.holder[l := t])
  {
    var l := a.lockOf[id];
    var s1 := At(a, t, Locking(id, false));
    assert Begin(a, t, s1);
    ReachesOpen(start, a, t, s1);
    var s2 := At(s1, t, Blocked(id, false, l));
    assert FindLock(s1, t, s2);
    ReachesOpen(start, s1, t, s2);
    b := At(s2, t, Checking(id, false, l)).(holder := s2.holder[l := t]);
    assert TakeLock(s2, t, b);
    ReachesOpen(start, s2, t, b);
    assert b.threads == a.threads[t := Checking(id, false, l)];
  }

  /** ... pass the liveness check, */
  lemma OpenChecks(start: State, a: State, t: Thread, id: Id) returns (b: State)
    requires Reaches(start, a) && Rested(a, t, id)
    ensures Reaches(start, b)
    ensures var l := a.lockOf[id];
      b == a.(threads := a.threads[t := Spawning(id, l)], holder := a.holder[l := t], store := a.Collected(id))
  {
    var l := a.lockOf[id];
    var s3 := OpenLocks(start, a, t, id);
    b := At(s3, t, Spawning(id, l)).(store := s3.Collected(id));
    assert FindNone(s3, t, b);
    ReachesOpen(start, s3, t, b);
    assert b.threads == a.threads[t := Spawning(id, l)];
  }

  /** ... spawn a child for the session, */
  lemma OpenAwaits(start: State, a: State, t: Thread, id: Id) returns (b: State)
    requires Reaches(start, a) && Rested(a, t, id)
    ensures Reaches(start, b)
    ensures b.Pc(t) == Awaiting(id, a.lockOf[id], a.nextPid) && b.store == a.store - {id} && b.lockOf == a.lockOf
    ensures b.holder == a.holder[a.lockOf[id] := t] && b.nextPid == a.nextPid + 1
    ensures b.children == a.children[a.nextPid := Child(id, Booting, t)]
  {
    var s4 := OpenChecks(start, a, t, id);
    b := At(s4, t, Awaiting(id, a.lockOf[id], a.nextPid))
          .(children := s4.children[a.nextPid := Child(id, Booting, t)], nextPid := a.nextPid + 1,
            log := s4.log + [Spawned(id, a.nextPid)]);
    assert Spawn(s4, t, b);
    ReachesOpen(start, s4, t, b);
  }

  /**
   From any state of the invariant: once a second removal has hit the sidecar of a running child
   whose lock is free, the next `open` of the session spawns a second child beside it.
   */
  lemma LiveRemovalIsHarmful(a: State, p: Pid, b: State, t: Thread)
    requires Inv(a) && RemoveAgain(a, p, b) && a.Get(a.children[p].id).Some?
    requires a.Pc(t).Idle? && (a.children[p].id in a.lockOf ==> a.lockOf[a.children[p].id] !in a.holder)
    ensures exists c: State :: Reaches(b, c) && !OneServingChild(c.children)
  {
    var id := a.children[p].id;
    var q := a.store[id];
    assert ChildMatches(a, p) && ChildMatches(a, q);
    ReachesSelf(b);
    var c := OpenAwaits(b, b, t, id);
    assert Serving(c.children, q, id) && Serving(c.children, a.nextPid, id);
  }

  /** ... and wait until it has published. */
  lemma OpenPublishes(start: State, a: State, t: Thread, id: Id) returns (b: State)
    requires Reaches(start, a) && Rested(a, t, id)
    ensures Reaches(start, b)
    ensures b.Pc(t) == Awaiting(id, a.lockOf[id], a.nextPid) && b.store == a.store[id := a.nextPid]
    ensures b.lockOf == a.lockOf && b.holder == a.holder[a.lockOf[id] := t] && b.nextPid == a.nextPid + 1
    ensures b.children == a.children[a.nextPid := Child(id, Published, t)]
  {
    var p := a.nextPid;
    var s5 := OpenAwaits(start, a, t, id);
    b := s5.(children := s5.children[p := Child(id, Published, t)], store := s5.store[id := p]);
    assert Publish(s5, p, b);
    ReachesChild(start, s5, p, b);
  }

  /** A whole `open` that answers `reused=False`. */
  lemma OpenSucceeds(start: State, a: State, t: Thread, id: Id) returns (b: State)
    requires Reaches(start, a) && Rested(a, t, id)
    ensures Reaches(start, b)
    ensures b.Pc(t).Idle? && a.lockOf[id] !in b.holder && b.lockOf == a.lockOf && b.nextPid == a.nextPid + 1
    ensures b.children == a.children[a.nextPid := Child(id, Published, t)] && b.store == a.store[id := a.nextPid]
  {
    var p, l := a.nextPid, a.lockOf[id];
    var s6 := OpenPublishes(start, a, t, id);
    var s7 := At(s6, t, Recording(id, l, p, p)).(log := s6.log + [Ready(id, p)]);
    assert SeeSidecar(s6, t, s7);
    ReachesOpen(start, s6, t, s7);
    var s8 := At(s7, t, Leaving(id, l)).(handles := s7.handles[p := p]);
    assert Record(s7, t, s8);
    ReachesOpen(start, s7, t, s8);
    b := At(s8, t, Idle).(holder := s8.holder - {l});
    assert Leave(s8, t, b);
    ReachesOpen(start, s8, t, b);
  }

  /** The first `open` of all, up to the point where the lock of session 0 exists. */
  lemma LockExists() returns (b: State)
    ensures Reaches(INITIAL, b) && Rested(b, 0, 0) && b.children == map[] && b.nextPid == 1
  {
    ReachesSelf(INITIAL);
    var s1 := At(INITIAL, 0, Locking(0, false));
    ReachesOpen(INITIAL, INITIAL, 0, s1);
    var s2 := At(s1, 0, Blocked(0, false, 0)).(lockOf := map[0 := 0], nextLock := 1);
    ReachesOpen(INITIAL, s1, 0, s2);
    var s3 := At(s2, 0, Checking(0, false, 0)).(holder := map[0 := 0]);
    ReachesOpen(INITIAL, s2, 0, s3);
    var s4 := At(s3, 0, Spawning(0, 0)).(store := s3.Collected(0));
    ReachesOpen(INITIAL, s3, 0, s4);
    var s5 := At(s4, 0, Leaving(0, 0));
    ReachesOpen(INITIAL, s4, 0, s5);
    b := At(s5, 0, Idle).(holder := s5.holder - {0});
    ReachesOpen(INITIAL, s5, 0, b);
  }

  /**
   Such a removal can come about: child 1 withdraws, session 0 is opened again as child 2, the
   second teardown of child 1 deletes the sidecar of child 2, and a third open spawns child 3.
   */
  lemma SecondRemovalBreaksIt()
    ensures exists run: seq<State> :: IsRun(run) && !OneServingChild(run[|run| - 1].children)
  {
    var a := LockExists();
    var b := OpenSucceeds(INITIAL, a, 0, 0);
    var c := Ending(b, 1, Withdrawn).(store := b.store - {0});
    ReachesChild(INITIAL, b, 1, c);
    var d := OpenSucceeds(INITIAL, c, 0, 0);
    var e := d.(store := d.store - {0});
    assert RemoveAgain(d, 1, e);
    ReachesChild(INITIAL, d, 1, e);
    var f := OpenAwaits(INITIAL, e, 0, 0);
    assert Serving(f.children, 2, 0) && Serving(f.children, 3, 0);
    var run: seq<State> :|
      && |run| > 0 && run[0] == INITIAL && run[|run| - 1] == f
      && forall i :: 0 < i < |run| ==> StepAt(run, i);
    assert IsRun(run);
  }
}

/**
 Closing sessions (spawner/core.py, Spawner.close; spawner/kill_switch.py;
 session_control.py).

 `Spawner` carries the parts of the host that a close reads and writes: the sidecar
 files, the processes that answer the liveness probe, the kill-switch sentinels and the
 monotonic clock. `Elapse` lets everybody else act in between: children may exit, crash
 or ignore the request, readers collect stale sidecars, sidecars may become unreadable and
 readable again, and sessions outside `closing` may come and go at will. A session in
 `closing` is not opened again meanwhile.
 */
module CloseProtocol {
  import opened Prelude

  type Id = string
  type Pid = int

  /** What a close does to the host, in order. */
  datatype Effect =
    | TouchSentinel(id: Id)
    | Terminate(pid: Pid)
    | HardKill(pid: Pid)
    | RemoveSidecar(id: Id)
    | RemoveSentinel(id: Id)
    | Reap(pid: Pid)

  /** `Unreadable` is whatever `session.get` raises on a sidecar it cannot read. */
  datatype CloseError = NoLiveSession(id: Id) | Unreadable(id: Id)

  datatype CloseOutcome = CloseOutcome(id: Id, closed: bool, graceful: Option<bool>, error: Option<CloseError>)

  /** The request to shut down. */
  function Request(posix: bool, id: Id, pid: Pid): seq<Effect> {
    [TouchSentinel(id)] + if posix then [Terminate(pid)] else []
  }

  /** The whole course of one close, by how it ended. */
  function Course(posix: bool, id: Id, pid: Pid, graceful: bool): seq<Effect> {
    Request(posix, id, pid)
    + (if graceful then [] else [HardKill(pid), RemoveSidecar(id)])
    + [RemoveSentinel(id), Reap(pid)]
  }

  /** The child is asked to stop before anything else: by its sentinel, and by a signal exactly on POSIX. */
  predicate Asked(posix: bool, id: Id, pid: Pid, did: seq<Effect>) {
    && |did| > 0 && did[0] == TouchSentinel(id)
    && (Terminate(pid) in did <==> posix)
    && (posix ==> |did| > 1 && did[1] == Terminate(pid))
  }

  /** It is killed, and its sidecar removed, exactly if `forced`. */
  predicate Forced(id: Id, pid: Pid, did: seq<Effect>, forced: bool) {
    (HardKill(pid) in did <==> forced) && (RemoveSidecar(id) in did <==> forced)
  }

  /** Last of all the sentinel is removed and the child reaped. */
  predicate Tidied(id: Id, pid: Pid, did: seq<Effect>) {
    |did| > 1 && did[|did| - 2] == RemoveSentinel(id) && did[|did| - 1] == Reap(pid)
  }

  /** What was done since `before`: asked to stop first, killed only if `forced`, and tidied up after if `ended`. */
  predicate Proper(posix: bool, id: Id, pid: Pid, before: seq<Effect>, after: seq<Effect>, forced: bool, ended: bool) {
    && before <= after
    && var did := after[|before|..];
       Asked(posix, id, pid, did) && Forced(id, pid, did, forced) && (ended ==> Tidied(id, pid, did))
  }

  lemma CourseIsProper(posix: bool, id: Id, pid: Pid, graceful: bool)
    ensures var did := Course(posix, id, pid, graceful);
      Asked(posix, id, pid, did) && Forced(id, pid, did, !graceful) && Tidied(id, pid, did)
    ensures var did := Request(posix, id, pid); Asked(posix, id, pid, did) && Forced(id, pid, did, false)
  {}

  lemma ProperSince(posix: bool, id: Id, pid: Pid, before: seq<Effect>, did: seq<Effect>, forced: bool, ended: bool)
    requires Asked(posix, id, pid, did) && Forced(id, pid, did, forced) && (ended ==> Tidied(id, pid, did))
    ensures Proper(posix, id, pid, before, before + did, forced, ended)
  {
    assert (before + did)[|before|..] == did;
  }

  lemma CourseEnds(posix: bool, id: Id, pid: Pid)
    ensures Request(posix, id, pid) + [RemoveSentinel(id)] + [Reap(pid)] == Course(posix, id, pid, true)
    ensures Request(posix, id, pid) + [HardKill(pid), RemoveSidecar(id), RemoveSentinel(id), Reap(pid)]
         == Course(posix, id, pid, false)
  {}

  /** What closing one target of a batch did, by its outcome and the pid its sidecar recorded. */
  predicate Accounts(posix: bool, o: CloseOutcome, did: seq<Effect>, pids: map<Id, Pid>) {
    if o.closed then
      o.graceful.Some? && o.error.None? && o.id in pids && did == Course(posix, o.id, pids[o.id], o.graceful.value)
    else
      && o.graceful.None? && o.error.Some? && o.error.value.id == o.id
      && (did == [] || (o.error.value.Unreadable? && o.id in pids && did == Request(posix, o.id, pids[o.id])))
  }

  /** What a batch did. */
  function Flatten(courses: seq<seq<Effect>>): seq<Effect> {
    if |courses| == 0 then [] else Flatten(courses[..|courses| - 1]) + courses[|courses| - 1]
  }

  lemma FlattenExtend(courses: seq<seq<Effect>>, more: seq<Effect>)
    ensures Flatten(courses + [more]) == Flatten(courses) + more
  {
    assert (courses + [more])[..|courses|] == courses;
  }

  lemma Associates(a: seq<Effect>, b: seq<Effect>, c: seq<Effect>)
    ensures (a + b) + c == a + (b + c)
  {}

  /** No session being closed came to life: its sidecar and process can only have gone. */
  ghost predicate Shrunk(closing: set<Id>, files: map<Id, Pid>, procs: set<Pid>,
                         files': map<Id, Pid>, procs': set<Pid>)
  {
    && (forall id :: id in closing && id in files' ==> id in files && files'[id] == files[id])
    && (forall id :: id in closing && id in files' && files'[id] in procs' ==> files[id] in procs)
  }

  lemma ShrunkComposes(closing: set<Id>, f0: map<Id, Pid>, p0: set<Pid>, f1: map<Id, Pid>, p1: set<Pid>,
                       f2: map<Id, Pid>, p2: set<Pid>)
    requires Shrunk(closing, f0, p0, f1, p1) && Shrunk(closing, f1, p1, f2, p2)
    ensures Shrunk(closing, f0, p0, f2, p2)
  {}

  /** What `close_sessions` records: a target that fails is reported, whatever it raised. */
  function OutcomeOf(id: Id, r: Result<bool, CloseError>): CloseOutcome {
    match r
    case Ok(graceful) => CloseOutcome(id, true, Some(graceful), None)
    case Err(e) => CloseOutcome(id, false, None, Some(e))
  }

  class Spawner {
    const posix: bool
    const mayTouch: bool             // the host lets sentinels be created,
    const mayUnlink: bool            // files be deleted
    const mayKill: bool              // and signals through to these processes
    const closing: set<Id>

    var store: map<Id, Pid>          // sidecar files: the pid they record
    var unreadable: set<Id>          // sidecars on which `session.get` raises
    var live: set<Pid>
    var sentinels: set<Id>
    var now: int
    var handles: set<Pid>            // `_handles`
    ghost var effects: seq<Effect>

    /** The recorded process of the session is alive. */
    predicate IsLive(id: Id)
      reads this
    {
      id in store && store[id] in live
    }

    /** Nobody else asks for a session being closed to stop. */
    twostate predicate NoSentinelBut(ids: set<Id>)
      reads this
    {
      forall k :: k in closing && k in sentinels && k !in ids ==> k in old(sentinels)
    }

    /** Time passes and the rest of the world moves. */
    method Elapse()
      modifies this`store, this`unreadable, this`live, this`sentinels, this`now
      ensures Shrunk(closing, old(store), old(live), store, live) && now > old(now) && NoSentinelBut({})
    {
      var tick :| tick > 0;
      var files: map<Id, Pid>, marks: set<Id>, gone: set<Id>, odd: set<Id> := *, *, *, *;
      var procs: set<Pid>, dead: set<Pid> := *, *;
      store := Drifted(store, gone, files);
      unreadable := odd;
      live := (live - dead) + (procs - Recorded(store));
      sentinels := (sentinels - gone) + (marks - closing);
      now := now + tick;
      forall id | id in closing && id in store && store[id] in live ensures old(store)[id] in old(live) {
        assert store[id] in Recorded(store);
      }
    }

    /** Files of sessions being closed can only go; the others are arbitrary. */
    function Drifted(before: map<Id, Pid>, gone: set<Id>, files: map<Id, Pid>): (after: map<Id, Pid>)
      ensures forall id :: id in closing && id in after ==> id in before && after[id] == before[id]
    {
      (before - gone) + (files - closing)
    }

    /** The processes of the sessions being closed. */
    function Recorded(files: map<Id, Pid>): (pids: set<Pid>)
      ensures forall id :: id in closing && id in files ==> files[id] in pids
    {
      set id | id in closing && id in files :: files[id]
    }

    /** `session.get`: raises on an unreadable sidecar, and deletes one whose process is gone. */
    method Get(id: Id) returns (r: Result<Option<Pid>, CloseError>)
      modifies this`store
      ensures id in unreadable ==> r == Err(Unreadable(id)) && store == old(store)
      ensures id !in unreadable ==>
                && r == Ok(if old(IsLive(id)) then Some(old(store)[id]) else None)
                && store == if !old(IsLive(id)) && mayUnlink then old(store) - {id} else old(store)
    {
      if id in unreadable {
        return Err(Unreadable(id));
      }
      if IsLive(id) {
        return Ok(Some(store[id]));
      }
      if mayUnlink {
        store := store - {id};
      }
      return Ok(None);
    }

    /** `kill_switch.request_shutdown`. */
    method RequestShutdown(id: Id)
      modifies this`sentinels, this`effects
      ensures sentinels == if mayTouch then old(sentinels) + {id} else old(sentinels)
      ensures effects == old(effects) + [TouchSentinel(id)]
    {
      if mayTouch {
        sentinels := sentinels + {id};
      }
      effects := effects + [TouchSentinel(id)];
    }

    /** `kill_switch.cleanup`. */
    method CleanupSentinel(id: Id)
      modifies this`sentinels, this`effects
      ensures sentinels == if mayUnlink then old(sentinels) - {id} else old(sentinels)
      ensures effects == old(effects) + [RemoveSentinel(id)]
    {
      if mayUnlink {
        sentinels := sentinels - {id};
      }
      effects := effects + [RemoveSentinel(id)];
    }

    /** `_reap`: drops the handle; its wait is bounded and cannot fail. */
    method ReapChild(pid: Pid)
      modifies this`handles, this`effects
      ensures handles == old(handles) - {pid} && effects == old(effects) + [Reap(pid)]
    {
      handles := handles - {pid};
      effects := effects + [Reap(pid)];
    }

    method Close(id: Id, timeout: int) returns (r: Result<bool, CloseError>)
      requires id in closing
      modifies this
      // refused when the sidecar cannot be read, and otherwise exactly when the session is not live
      ensures id in old(unreadable) ==> r == Err(Unreadable(id))
      ensures id !in old(unreadable) ==> (r == Err(NoLiveSession(id)) <==> !old(IsLive(id)))
      ensures r.Err? ==> r.error.id == id && handles == old(handles)
      // success is the whole course: no kill on the graceful way, not graceful only past the deadline
      ensures r.Ok? ==> old(IsLive(id))
      ensures r.Ok? ==> effects == old(effects) + Course(posix, id, old(store)[id], r.value)
      ensures r.Ok? ==> handles == old(handles) - {old(store)[id]}
      ensures r.Ok? && !r.value ==> now >= old(now) + timeout
      ensures r.Ok? && mayUnlink ==> id !in sentinels
      // failure has no effect at all, or a poll could not read the sidecar and only the request is out
      ensures r.Err? ==> (effects == old(effects) && NoSentinelBut({}))
                         || (r.error.Unreadable? && old(IsLive(id))
                             && effects == old(effects) + Request(posix, id, old(store)[id]))
      // in either case the child was asked to stop first, killed only in the end, and then tidied up after
      ensures r.Ok? ==> Proper(posix, id, old(store)[id], old(effects), effects, !r.value, true)
      ensures r.Err? && effects != old(effects) ==>
                id in old(store) && Proper(posix, id, old(store)[id], old(effects), effects, false, false)
      // the session is gone, unless it cannot be read or the host refused both the kill and the removal
      ensures IsLive(id) ==> r == Err(Unreadable(id)) || (r == Ok(false) && !mayKill && !mayUnlink)
      ensures Shrunk(closing, old(store), old(live), store, live) && NoSentinelBut({id})
    {
      var info := Get(id);
      if info.Err? {
        return Err(info.error);
      }
      if info.value.None? {
        return Err(NoLiveSession(id));
      }
      var pid := info.value.value;
      Elapse();
      ghost var did;
      r, did := Shutdown(id, pid, timeout);
      if r.Ok? {
        CourseIsProper(posix, id, pid, r.value);
      } else {
        CourseIsProper(posix, id, pid, true);
      }
      ProperSince(posix, id, pid, old(effects), did, r == Ok(false), r.Ok?);
    }

    /** The request: the sentinel, and on POSIX a signal. */
    method AskToStop(id: Id, pid: Pid)
      modifies this`sentinels, this`effects
      ensures sentinels == if mayTouch then old(sentinels) + {id} else old(sentinels)
      ensures effects == old(effects) + Request(posix, id, pid) && Asked(posix, id, pid, Request(posix, id, pid))
    {
      RequestShutdown(id);
      if posix {
        effects := effects + [Terminate(pid)];
      }
      CourseIsProper(posix, id, pid, true);
    }

    /** Everything from the request on, for a session found live. */
    method Shutdown(id: Id, pid: Pid, timeout: int) returns (r: Result<bool, CloseError>, ghost did: seq<Effect>)
      requires id in closing && (id in store ==> store[id] == pid)
      modifies this
      ensures effects == old(effects) + did
      ensures did == if r.Ok? then Course(posix, id, pid, r.value) else Request(posix, id, pid)
      ensures handles == if r.Ok? then old(handles) - {pid} else old(handles)
      ensures r == Ok(false) ==> now >= old(now) + timeout
      ensures r.Err? ==> r.error == Unreadable(id)
      ensures r.Ok? && mayUnlink ==> id !in sentinels
      ensures IsLive(id) ==> r.Err? || (r == Ok(false) && !mayKill && !mayUnlink)
      ensures Shrunk(closing, old(store), old(live), store, live) && NoSentinelBut({id})
    {
      AskToStop(id, pid);
      did := Request(posix, id, pid);
      CourseEnds(posix, id, pid);
      var deadline := now + timeout;
      var gone := AwaitExit(id, deadline, pid, old(effects), did);
      if gone.Err? {
        return Err(gone.error), did;
      }
      if gone.value {
        CleanupSentinel(id);
        ReapChild(pid);
        Associates(old(effects), did, [RemoveSentinel(id)]);
        Associates(old(effects), did + [RemoveSentinel(id)], [Reap(pid)]);
        return Ok(true), did + [RemoveSentinel(id)] + [Reap(pid)];
      }
      Escalate(id, pid);
      Associates(old(effects), did, [HardKill(pid), RemoveSidecar(id), RemoveSentinel(id), Reap(pid)]);
      return Ok(false), did + [HardKill(pid), RemoveSidecar(id), RemoveSentinel(id), Reap(pid)];
    }

    /**
     The polling loop, once the child has been asked to stop: until a poll misses the session or
     raises, or the deadline passes.
     */
    method AwaitExit(id: Id, deadline: int, ghost pid: Pid, ghost before: seq<Effect>, ghost asked: seq<Effect>)
      returns (gone: Result<bool, CloseError>)
      requires id in closing
      requires effects == before + asked && Asked(posix, id, pid, asked)
      modifies this`store, this`unreadable, this`live, this`sentinels, this`now
      ensures gone == Ok(true) ==> !IsLive(id)
      ensures gone == Ok(false) ==> now >= deadline
      ensures gone.Err? ==> gone.error == Unreadable(id) && id in unreadable
      ensures now >= old(now) && Shrunk(closing, old(store), old(live), store, live) && NoSentinelBut({})
    {
      while now < deadline
        invariant now >= old(now) && Shrunk(closing, old(store), old(live), store, live) && NoSentinelBut({})
        decreases deadline - now
      {
        var polled := Get(id);
        if polled.Err? {
          return Err(polled.error);
        }
        if polled.value.None? {
          return Ok(true);
        }
        Elapse();
      }
      return Ok(false);
    }

    /** The way out once the deadline has passed. */
    method Escalate(id: Id, pid: Pid)
      requires id in closing && (id in store ==> store[id] == pid)
      modifies this
      ensures IsLive(id) ==> !mayKill && !mayUnlink
      ensures mayUnlink ==> id !in sentinels && id !in store
      ensures effects == old(effects) + [HardKill(pid), RemoveSidecar(id), RemoveSentinel(id), Reap(pid)]
      ensures handles == old(handles) - {pid} && now >= old(now)
      ensures Shrunk(closing, old(store), old(live), store, live) && NoSentinelBut({})
    {
      effects := effects + [HardKill(pid)];
      if mayKill {
        live := live - {pid};
      }
      Elapse();
      effects := effects + [RemoveSidecar(id)];
      if mayUnlink {
        store := store - {id};
      }
      Elapse();
      CleanupSentinel(id);
      ReapChild(pid);
    }

    /** One iteration of `close_sessions`, whose pids were recorded in `files` when the batch began. */
    method CloseNext(id: Id, timeout: int, ghost files: map<Id, Pid>, ghost procs: set<Pid>)
      returns (o: CloseOutcome, ghost did: seq<Effect>)
      requires id in closing && Shrunk(closing, files, procs, store, live)
      modifies this
      ensures o.id == id && Accounts(posix, o, did, files) && effects == old(effects) + did
      ensures id !in old(unreadable) ==> (o.error == Some(NoLiveSession(id)) <==> !old(IsLive(id)))
      ensures handles == old(handles) - ClosedPid(o, files)
      ensures o.closed && mayUnlink ==> id !in sentinels
      ensures !old(IsLive(id)) ==> NoSentinelBut({})
      ensures NoSentinelBut({id})
      ensures (mayKill || mayUnlink) && IsLive(id) ==> o.error == Some(Unreadable(id))
      ensures Shrunk(closing, files, procs, store, live) && Shrunk(closing, old(store), old(live), store, live)
    {
      ghost var files', procs' := store, live;
      var r := Close(id, timeout);
      o := OutcomeOf(id, r);
      did := if r.Ok? then Course(posix, id, files'[id], r.value)
             else if effects == old(effects) then [] else Request(posix, id, files'[id]);
      ShrunkComposes(closing, files, procs, files', procs', store, live);
    }

    /** `close_sessions`: one outcome per target, in order, whatever the others raise. */
    method CloseSessions(ids: seq<Id>, timeout: int)
      returns (outcomes: seq<CloseOutcome>, ghost courses: seq<seq<Effect>>)
      requires forall id :: id in ids ==> id in closing
      modifies this
      ensures |outcomes| == |courses| == |ids|
      ensures forall i :: 0 <= i < |ids| ==> outcomes[i].id == ids[i]
      // the host sees the courses of the targets in order and nothing about any other session
      ensures forall i :: 0 <= i < |ids| ==> Accounts(posix, outcomes[i], courses[i], old(store))
      ensures effects == old(effects) + Flatten(courses)
      // every closed target was asked to stop first, and killed only if it did not go gracefully
      ensures forall i :: 0 <= i < |ids| && outcomes[i].closed ==>
                && ids[i] in old(store) && outcomes[i].graceful.Some?
                && Asked(posix, ids[i], old(store)[ids[i]], courses[i])
                && Forced(ids[i], old(store)[ids[i]], courses[i], !outcomes[i].graceful.value)
                && Tidied(ids[i], old(store)[ids[i]], courses[i])
      // exactly the handles of closed targets are dropped, and their sentinels are gone
      ensures handles == old(handles) - ClosedPids(outcomes, old(store))
      ensures mayUnlink ==> forall i :: 0 <= i < |ids| && outcomes[i].closed ==> ids[i] !in sentinels
      // afterwards no target is live whose sidecar could be read
      ensures mayKill || mayUnlink ==> forall i :: 0 <= i < |ids| && IsLive(ids[i]) ==>
                outcomes[i].error == Some(Unreadable(ids[i]))
      ensures Shrunk(closing, old(store), old(live), store, live)
    {
      outcomes, courses := [], [];
      ghost var files, procs, did, held := store, live, effects, handles;
      for i := 0 to |ids|
        invariant |outcomes| == |courses| == i
        invariant Told(posix, outcomes, courses, ids, files)
        invariant effects == did + Flatten(courses)
        invariant handles == held - ClosedPids(outcomes, files)
        invariant mayKill || mayUnlink ==> NoneLeft(outcomes, store, live)
        invariant mayUnlink ==> Unmarked(outcomes, sentinels)
        invariant Shrunk(closing, files, procs, store, live)
      {
        ghost var before, told, files', procs', marks := outcomes, courses, store, live, sentinels;
        var o, more := CloseNext(ids[i], timeout, files, procs);
        outcomes, courses := outcomes + [o], courses + [more];
        ToldExtends(posix, before, told, o, more, ids, files);
        FlattenExtend(told, more);
        Associates(did, Flatten(told), more);
        ClosedPidsExtend(before, o, files);
        if mayKill || mayUnlink {
          NoneLeftExtends(closing, before, files', procs', o, store, live);
        }
        if mayUnlink {
          UnmarkedExtends(closing, before, marks, files', procs', o, sentinels);
        }
      }
      forall i | 0 <= i < |ids| && outcomes[i].closed
        ensures Asked(posix, ids[i], files[ids[i]], courses[i])
        ensures Forced(ids[i], files[ids[i]], courses[i], !outcomes[i].graceful.value)
        ensures Tidied(ids[i], files[ids[i]], courses[i])
      {
        CourseIsProper(posix, ids[i], files[ids[i]], outcomes[i].graceful.value);
      }
    }
  }

  // ----- what a batch keeps from one target to the next -----

  ghost predicate Told(posix: bool, outcomes: seq<CloseOutcome>, courses: seq<seq<Effect>>, ids: seq<Id>,
                       files: map<Id, Pid>)
  {
    && |outcomes| == |courses| <= |ids|
    && forall i :: 0 <= i < |outcomes| ==> outcomes[i].id == ids[i] && Accounts(posix, outcomes[i], courses[i], files)
  }

  lemma ToldExtends(posix: bool, outcomes: seq<CloseOutcome>, courses: seq<seq<Effect>>, o: CloseOutcome,
                    more: seq<Effect>, ids: seq<Id>, files: map<Id, Pid>)
    requires Told(posix, outcomes, courses, ids, files) && |outcomes| < |ids|
    requires o.id == ids[|outcomes|] && Accounts(posix, o, more, files)
    ensures Told(posix, outcomes + [o], courses + [more], ids, files)
  {}

  /** The process that closing this target was about. */
  function ClosedPid(o: CloseOutcome, files: map<Id, Pid>): set<Pid> {
    if o.closed && o.id in files then {files[o.id]} else {}
  }

  function ClosedPids(outcomes: seq<CloseOutcome>, files: map<Id, Pid>): set<Pid> {
    set o | o in outcomes && o.closed && o.id in files :: files[o.id]
  }

  lemma ClosedPidsExtend(outcomes: seq<CloseOutcome>, o: CloseOutcome, files: map<Id, Pid>)
    ensures ClosedPids(outcomes + [o], files) == ClosedPids(outcomes, files) + ClosedPid(o, files)
  {}

  /** The targets whose process still runs are those whose sidecar could not be read. */
  ghost predicate NoneLeft(outcomes: seq<CloseOutcome>, files: map<Id, Pid>, procs: set<Pid>) {
    forall o :: o in outcomes && o.id in files && files[o.id] in procs ==>
      !o.closed && o.error == Some(Unreadable(o.id))
  }

  lemma NoneLeftExtends(closing: set<Id>, outcomes: seq<CloseOutcome>, files: map<Id, Pid>, procs: set<Pid>,
                        o: CloseOutcome, files': map<Id, Pid>, procs': set<Pid>)
    requires NoneLeft(outcomes, files, procs) && Shrunk(closing, files, procs, files', procs')
    requires forall p :: p in outcomes ==> p.id in closing
    requires NoneLeft([o], files', procs')
    ensures NoneLeft(outcomes + [o], files', procs')
  {
    forall p | p in outcomes + [o] && p.id in files' && files'[p.id] in procs'
      ensures !p.closed && p.error == Some(Unreadable(p.id))
    {
      assert p in outcomes || p in [o];
    }
  }

  ghost predicate Unmarked(outcomes: seq<CloseOutcome>, sentinels: set<Id>) {
    forall o :: o in outcomes && o.closed ==> o.id !in sentinels
  }

  /** A target closed before is not live, so that naming it again sets no sentinel. */
  lemma UnmarkedExtends(closing: set<Id>, outcomes: seq<CloseOutcome>, marks: set<Id>, files: map<Id, Pid>,
                        procs: set<Pid>, o: CloseOutcome, marks': set<Id>)
    requires Unmarked(outcomes, marks) && NoneLeft(outcomes, files, procs)
    requires forall p :: p in outcomes ==> p.id in closing
    requires forall k :: k in closing && k in marks' && k != o.id ==> k in marks
    requires !(o.id in files && files[o.id] in procs) && o.id in marks' && o.id in closing ==> o.id in marks
    requires o.closed ==> o.id !in marks'
    ensures Unmarked(outcomes + [o], marks')
  {
    forall p | p in outcomes + [o] && p.closed ensures p.id !in marks' {
      assert p in outcomes || p == o;
    }
  }

  // ----- what a batch does concerns its targets only -----

  /** The effect concerns this session or the process its sidecar recorded. */
  predicate Concerns(e: Effect, id: Id, pid: Pid) {
    match e
    case TouchSentinel(i) => i == id
    case RemoveSidecar(i) => i == id
    case RemoveSentinel(i) => i == id
    case Terminate(p) => p == pid
    case HardKill(p) => p == pid
    case Reap(p) => p == pid
  }

  /** The effect is part of closing this target: a hard kill only if it was closed, and not gracefully. */
  predicate Explains(posix: bool, o: CloseOutcome, pids: map<Id, Pid>, e: Effect) {
    && o.id in pids && Concerns(e, o.id, pids[o.id])
    && (e.HardKill? || e.RemoveSidecar? ==> o.graceful == Some(false))
    && (e.RemoveSentinel? || e.Reap? ==> o.closed)
    && (e.Terminate? ==> posix)
  }

  lemma CourseIsLocal(posix: bool, o: CloseOutcome, did: seq<Effect>, pids: map<Id, Pid>, e: Effect)
    requires Accounts(posix, o, did, pids) && e in did
    ensures Explains(posix, o, pids, e)
  {}

  /** Every effect of a batch is part of closing one of its targets. */
  lemma {:induction false} CoursesAreLocal(posix: bool, outcomes: seq<CloseOutcome>, courses: seq<seq<Effect>>,
                                           pids: map<Id, Pid>, e: Effect)
    requires |outcomes| == |courses| && e in Flatten(courses)
    requires forall i :: 0 <= i < |outcomes| ==> Accounts(posix, outcomes[i], courses[i], pids)
    ensures exists i :: 0 <= i < |outcomes| && e in courses[i] && Explains(posix, outcomes[i], pids, e)
  {
    var n := |outcomes| - 1;
    if e in courses[n] {
      CourseIsLocal(posix, outcomes[n], courses[n], pids, e);
    } else {
      CoursesAreLocal(posix, outcomes[..n], courses[..n], pids, e);
      var i :| 0 <= i < n && e in courses[..n][i] && Explains(posix, outcomes[..n][i], pids, e);
      assert outcomes[i] == outcomes[..n][i] && courses[i] == courses[..n][i];
    }
  }

  // ----- choosing the targets (session_control.py, resolve_targets) -----

  /** The elements of `s` in order of first appearance. */
  function FirstSeen(s: seq<Id>): (r: seq<Id>)
    ensures forall id :: id in r <==> id in s
  {
    if |s| == 0 then []
    else
      var r := FirstSeen(s[..|s| - 1]);
      if s[|s| - 1] in s[..|s| - 1] then r else r + [s[|s| - 1]]
  }

  /** `k` is where `id` appears first. */
  predicate AppearsAt(s: seq<Id>, id: Id, k: nat) {
    k < |s| && s[k] == id && id !in s[..k]
  }

  /** No duplicates are left, and the order is that of first appearance. */
  lemma {:induction false} FirstSeenInOrder(s: seq<Id>, i: nat, j: nat, k: nat, l: nat)
    requires i < j < |FirstSeen(s)|
    requires AppearsAt(s, FirstSeen(s)[i], k) && AppearsAt(s, FirstSeen(s)[j], l)
    ensures k < l
  {
    var n := |s| - 1;
    var r := FirstSeen(s[..n]);
    if j < |r| {
      assert r[i] in s[..n] && r[j] in s[..n];
      assert k < n && l < n && s[..n][..k] == s[..k] && s[..n][..l] == s[..l];
      FirstSeenInOrder(s[..n], i, j, k, l);
    } else {
      assert r[i] in s[..n];
      assert FirstSeen(s)[j] == s[n] && s[n] !in s[..n];
    }
  }

  lemma {:induction false} FirstSeenIsIdempotent(s: seq<Id>)
    ensures FirstSeen(FirstSeen(s)) == FirstSeen(s)
  {
    if |s| > 0 {
      var n := |s| - 1;
      FirstSeenIsIdempotent(s[..n]);
      var r := FirstSeen(s[..n]);
      assert (r + [s[n]])[..|r|] == r;
    }
  }

  method ResolveTargets(ids: seq<Id>, paths: seq<string>, idOf: string -> Id) returns (ordered: seq<Id>)
    ensures ordered == FirstSeen(ids + seq(|paths|, i requires 0 <= i < |paths| => idOf(paths[i])))
  {
    var candidates := ids + seq(|paths|, i requires 0 <= i < |paths| => idOf(paths[i]));
    ordered := [];
    var seen: set<Id> := {};
    for i := 0 to |candidates|
      invariant seen == set id | id in candidates[..i]
      invariant ordered == FirstSeen(candidates[..i])
    {
      assert candidates[..i + 1][..i] == candidates[..i];
      if candidates[i] !in seen {
        seen := seen + {candidates[i]};
        ordered := ordered + [candidates[i]];
      }
    }
    assert candidates[..|candidates|] == candidates;
  }
}

/**
 The re-entrancy guard of the calls that run on IDA's main thread (plugin/ida_sync.py).

 A body is a finite decision tree: it returns, raises, tests what it has learnt so far, or makes a
 sync call and goes on according to how that call ends.
 */
module SyncGuard {
  import opened Prelude

  datatype Safety = SafeNone | SafeRead | SafeWrite

  datatype Failure = Raised(code: int) | InvalidSafety(name: string) | Nested(name: string, active: string)

  datatype Outcome = Value(value: int) | Exception(failure: Failure)

  /** `got` is how the calls made so far have ended; everything a body does may depend on it. */
  datatype Body =
    | Return(value: seq<Outcome> -> int)
    | Raise(failure: seq<Outcome> -> Failure)
    | Test(condition: seq<Outcome> -> bool, yes: Body, no: Body)
    | Sync(name: string, safety: Safety, inner: Body, returned: Body, raised: Body)

  datatype Event = Enter(name: string) | Exit(name: string) | Refuse(name: string, active: string)

  predicate Valid(safety: Safety) {
    safety.SafeRead? || safety.SafeWrite?
  }

  // ----- what a guarded run does -----

  /** The outcome and the events of a body run while `active` holds the slot. */
  function Guarded(b: Body, got: seq<Outcome>, active: Option<string>): (r: (Outcome, seq<Event>))
    decreases b
  {
    match b
    case Return(value) => (Value(value(got)), [])
    case Raise(failure) => (Exception(failure(got)), [])
    case Test(condition, yes, no) => Guarded(if condition(got) then yes else no, got, active)
    case Sync(name, safety, inner, returned, raised) =>
      var (o, events) :=
        if !Valid(safety) then (Exception(InvalidSafety(name)), [])
        else if active.Some? then (Exception(Nested(name, active.value)), [Refuse(name, active.value)])
        else
          var (o, during) := Guarded(inner, got, Some(name));
          (o, [Enter(name)] + during + [Exit(name)]);
      var (last, after) := Guarded(if o.Value? then returned else raised, got + [o], active);
      (last, events + after)
  }

  // ----- the slot, read off the events -----

  /**
   The slot after these events, or `None` for a sequence the guard must rule out: a body entered
   while another holds the slot, left while it does not hold it, or refused for the wrong holder.
   */
  function Scan(events: seq<Event>, active: Option<string>): Option<Option<string>>
    decreases |events|
  {
    if |events| == 0 then Some(active)
    else
      match events[0]
      case Enter(name) => if active.None? then Scan(events[1..], Some(name)) else None
      case Exit(name) => if active == Some(name) then Scan(events[1..], None) else None
      case Refuse(_, holder) => if active == Some(holder) then Scan(events[1..], active) else None
  }

  lemma {:induction false} ScanConcat(a: seq<Event>, b: seq<Event>, active: Option<string>)
    requires Scan(a, active).Some?
    ensures Scan(a + b, active) == Scan(b, Scan(a, active).value)
    decreases |a|
  {
    if |a| == 0 {
      assert a + b == b;
    } else {
      assert (a + b)[1..] == a[1..] + b;
      var next := match a[0] case Enter(name) => Some(name) case Exit(_) => None case Refuse(_, _) => active;
      ScanConcat(a[1..], b, next);
    }
  }

  /** Sync bodies run only when the slot is empty, never one inside another, and the slot is put back. */
  lemma {:induction false} GuardedRunsNeverNest(b: Body, got: seq<Outcome>, active: Option<string>)
    ensures Scan(Guarded(b, got, active).1, active) == Some(active)
    decreases b, 0
  {
    match b
    case Return(_) =>
    case Raise(_) =>
    case Test(condition, yes, no) => GuardedRunsNeverNest(if condition(got) then yes else no, got, active);
    case Sync(name, safety, inner, returned, raised) =>
      var o, events := SyncEvents(name, safety, inner, got, active);
      var last := if o.Value? then returned else raised;
      GuardedRunsNeverNest(last, got + [o], active);
      ScanConcat(events, Guarded(last, got + [o], active).1, active);
  }

  /** The same for one call. */
  lemma SyncEvents(name: string, safety: Safety, inner: Body, got: seq<Outcome>, active: Option<string>)
    returns (o: Outcome, events: seq<Event>)
    ensures Scan(events, active) == Some(active)
    ensures safety == SafeNone ==> o == Exception(InvalidSafety(name)) && events == []
    ensures (safety == SafeRead || safety == SafeWrite) && active.Some? ==>
              o == Exception(Nested(name, active.value)) && events == [Refuse(name, active.value)]
    ensures (safety == SafeRead || safety == SafeWrite) && active.None? ==>
              o == Guarded(inner, got, Some(name)).0
              && events == [Enter(name)] + Guarded(inner, got, Some(name)).1 + [Exit(name)]
    decreases inner, 1
  {
    if !Valid(safety) {
      return Exception(InvalidSafety(name)), [];
    }
    if active.Some? {
      return Exception(Nested(name, active.value)), [Refuse(name, active.value)];
    }
    var during := Guarded(inner, got, Some(name)).1;
    GuardedRunsNeverNest(inner, got, Some(name));
    ScanConcat(during, [Exit(name)], Some(name));
    assert ([Enter(name)] + during + [Exit(name)])[1..] == during + [Exit(name)];
    assert [Exit(name)][1..] == [];
    return Guarded(inner, got, Some(name)).0, [Enter(name)] + during + [Exit(name)];
  }

  // ----- the guard is invisible to programs that do not nest -----

  /** The same body without any guard, and whether one sync body then ran inside another. */
  function Unguarded(b: Body, got: seq<Outcome>, inside: bool): (r: (Outcome, bool))
    decreases b
  {
    match b
    case Return(value) => (Value(value(got)), false)
    case Raise(failure) => (Exception(failure(got)), false)
    case Test(condition, yes, no) => Unguarded(if condition(got) then yes else no, got, inside)
    case Sync(name, safety, inner, returned, raised) =>
      var (o, nests) :=
        if !Valid(safety) then (Exception(InvalidSafety(name)), false)
        else
          var (o, deeper) := Unguarded(inner, got, true);
          (o, inside || deeper);
      var (last, later) := Unguarded(if o.Value? then returned else raised, got + [o], inside);
      (last, nests || later)
  }

  predicate Refuses(events: seq<Event>) {
    exists i :: 0 <= i < |events| && events[i].Refuse?
  }

  lemma RefusesConcat(a: seq<Event>, b: seq<Event>)
    ensures Refuses(a + b) <==> Refuses(a) || Refuses(b)
  {
    forall i | 0 <= i < |a| && a[i].Refuse?
      ensures Refuses(a + b)
    {
      assert (a + b)[i] == a[i];
    }
    forall i | 0 <= i < |b| && b[i].Refuse?
      ensures Refuses(a + b)
    {
      assert (a + b)[|a| + i] == b[i];
    }
  }

  /** A call is refused exactly in the runs that would nest, and all others end as if there were no guard. */
  lemma {:induction false} RefusesExactlyNesting(b: Body, got: seq<Outcome>, active: Option<string>)
    ensures Refuses(Guarded(b, got, active).1) <==> Unguarded(b, got, active.Some?).1
    ensures !Unguarded(b, got, active.Some?).1 ==> Guarded(b, got, active).0 == Unguarded(b, got, active.Some?).0
    decreases b
  {
    match b
    case Return(_) =>
    case Raise(_) =>
    case Test(condition, yes, no) => RefusesExactlyNesting(if condition(got) then yes else no, got, active);
    case Sync(name, safety, inner, returned, raised) =>
      var o, events := SyncEvents(name, safety, inner, got, active);
      var last := if o.Value? then returned else raised;
      if Valid(safety) && active.None? {
        var during := Guarded(inner, got, Some(name)).1;
        RefusesExactlyNesting(inner, got, Some(name));
        RefusesConcat([Enter(name)] + during, [Exit(name)]);
        RefusesConcat([Enter(name)], during);
      }
      RefusesExactlyNesting(last, got + [o], active);
      RefusesConcat(events, Guarded(last, got + [o], active).1);
      if Valid(safety) && active.Some? {
        assert events[0].Refuse?;
      }
  }

  // ----- the guard itself -----

  class Guard {
    /** The `ContextVar` slot of the main thread. */
    var active: Option<string>
    ghost var events: seq<Event>

    constructor ()
      ensures active == None && events == []
    {
      active, events := None, [];
    }

    /** `_sync_call`: the runner's outcome is carried over to the caller. */
    method SyncCall(name: string, safety: Safety, inner: Body, got: seq<Outcome>) returns (o: Outcome)
      modifies this
      ensures active == old(active)
      ensures safety == SafeNone ==> o == Exception(InvalidSafety(name)) && events == old(events)
      ensures (safety == SafeRead || safety == SafeWrite) && active.Some? ==>
                && o == Exception(Nested(name, active.value))
                && events == old(events) + [Refuse(name, active.value)]
      ensures (safety == SafeRead || safety == SafeWrite) && active.None? ==>
                && o == Guarded(inner, got, Some(name)).0
                && events == old(events) + ([Enter(name)] + Guarded(inner, got, Some(name)).1 + [Exit(name)])
      decreases inner, 1
    {
      if !Valid(safety) {
        return Exception(InvalidSafety(name));
      }
      if active.Some? {
        events := events + [Refuse(name, active.value)];
        return Exception(Nested(name, active.value));
      }
      var token := active;
      active := Some(name);
      events := events + [Enter(name)];
      o := RunBody(inner, got);
      active := token;
      events := events + [Exit(name)];
    }

    method RunBody(b: Body, got: seq<Outcome>) returns (o: Outcome)
      modifies this
      ensures active == old(active)
      ensures o == Guarded(b, got, active).0
      ensures events == old(events) + Guarded(b, got, active).1
      decreases b, 0
    {
      match b {
        case Return(value) => o := Value(value(got));
        case Raise(failure) => o := Exception(failure(got));
        case Test(condition, yes, no) =>
          if condition(got) {
            o := RunBody(yes, got);
          } else {
            o := RunBody(no, got);
          }
        case Sync(name, safety, inner, returned, raised) =>
          var inside := SyncCall(name, safety, inner, got);
          if inside.Value? {
            o := RunBody(returned, got + [inside]);
          } else {
            o := RunBody(raised, got + [inside]);
          }
      }
    }
  }
}

/**
 SessionRegistry.resolve under concurrency (session_registry.py).

 Any number of threads resolve and invalidate while sidecars come and go between any two
 steps. `list_all`, `get` and each block under the registry's lock are one step. The
 states of the store since the beginning are kept in `past`, newest last.
 */
module ConcurrentResolve {
  import opened Prelude

  type Id = string
  type Thread = nat

  datatype Endpoint = Endpoint(host: string, port: int)

  type Live = map<Id, Endpoint>

  datatype Client = Client(serial: nat, endpoint: Endpoint)

  datatype Answer =
    | Found(client: Client)
    | NotFound(id: Option<Id>)
    | Ambiguous(ids: seq<Id>)

  /** `begun` is the newest store state when the call began, `seen` the one a step has read. */
  datatype Pc =
    | Idle
    | Listing(begun: nat)
    | Getting(id: Id, begun: nat, sole: Option<nat>)
    | Caching(id: Id, info: Endpoint, begun: nat, sole: Option<nat>, seen: nat)
    | Evicting(id: Id, begun: nat, sole: Option<nat>, seen: nat)
    | Done(asked: Option<Id>, answer: Answer, begun: nat, sole: Option<nat>, seen: nat)

  datatype State = State(past: seq<Live>, clients: map<Id, Client>, serial: nat, threads: map<Thread, Pc>) {
    function Pc(t: Thread): Pc {
      if t in threads then threads[t] else Idle
    }

    function Now(): nat
      requires |past| > 0
    {
      |past| - 1
    }
  }

  function At(a: State, t: Thread, pc: Pc): State {
    a.(threads := a.threads[t := pc])
  }

  /** `list_all`: every live session once, in some order. */
  ghost predicate Lists(ids: seq<Id>, live: Live) {
    && (forall i, j :: 0 <= i < j < |ids| ==> ids[i] != ids[j])
    && (forall id :: id in ids <==> id in live)
  }

  // ----- the steps -----

  /** `list_all` or `get` raises, and the exception leaves `resolve`. */
  predicate Raises(a: State, t: Thread, b: State) {
    (a.Pc(t).Listing? || a.Pc(t).Getting?) && b == At(a, t, Idle)
  }

  ghost predicate ThreadStep(a: State, t: Thread, b: State)
    requires |a.past| > 0
  {
    Raises(a, t, b) || Proceeds(a, t, b)
  }

  ghost predicate Proceeds(a: State, t: Thread, b: State)
    requires |a.past| > 0
  {
    var live := a.past[a.Now()];
    match a.Pc(t)
    case Idle =>
      || b == At(a, t, Listing(a.Now()))
      || exists id: Id :: b == At(a, t, Getting(id, a.Now(), None))
    case Listing(begun) =>
      exists ids: seq<Id> :: Lists(ids, live) &&
        b == At(a, t, if |ids| == 0 then Done(None, NotFound(None), begun, None, a.Now())
                      else if |ids| > 1 then Done(None, Ambiguous(ids), begun, None, a.Now())
                      else Getting(ids[0], begun, Some(a.Now())))
    case Getting(id, begun, sole) =>
      b == At(a, t, if id in live then Caching(id, live[id], begun, sole, a.Now())
                    else Evicting(id, begun, sole, a.Now()))
    case Caching(id, info, begun, sole, seen) =>
      var asked := if sole.Some? then None else Some(id);
      if id in a.clients && a.clients[id].endpoint == info then
        b == At(a, t, Done(asked, Found(a.clients[id]), begun, sole, seen))
      else
        var client := Client(a.serial, info);
        b == At(a, t, Done(asked, Found(client), begun, sole, seen))
             .(clients := a.clients[id := client], serial := a.serial + 1)
    case Evicting(id, begun, sole, seen) =>
      b == At(a, t, Done(if sole.Some? then None else Some(id), NotFound(Some(id)), begun, sole, seen))
           .(clients := a.clients - {id})
    case Done(_, _, _, _, _) =>
      b == At(a, t, Idle)
  }

  ghost predicate Step(a: State, b: State)
    requires |a.past| > 0
  {
    || (exists t: Thread :: ThreadStep(a, t, b))
    || (exists live: Live :: b == a.(past := a.past + [live]))          // the store changes
    || (exists id: Id :: b == a.(clients := a.clients - {id}))          // invalidate
  }

  ghost predicate IsRun(run: seq<State>) {
    && |run| > 0
    && (exists live: Live :: run[0] == State([live], map[], 0, map[]))
    && (forall i :: 0 <= i < |run| ==> |run[i].past| > 0)
    && (forall i :: 0 < i < |run| ==> Step(run[i - 1], run[i]))
  }

  // ----- the property -----

  /** A store state between the beginning of the call and now in which `id` had this endpoint. */
  ghost predicate WasLive(past: seq<Live>, begun: nat, id: Id, endpoint: Endpoint) {
    exists k :: begun <= k < |past| && id in past[k] && past[k][id] == endpoint
  }

  ghost predicate WasMissing(past: seq<Live>, begun: nat, id: Id) {
    exists k :: begun <= k < |past| && id !in past[k]
  }

  /** Every answer reflects the store as it was at some moment of the call. */
  ghost predicate Justified(past: seq<Live>, asked: Option<Id>, answer: Answer, begun: nat) {
    match answer
    case Found(client) =>
      exists id: Id :: WasLive(past, begun, id, client.endpoint) &&
        (if asked.Some? then asked.value == id
         else exists k :: begun <= k < |past| && past[k].Keys == {id})
    case NotFound(Some(id)) =>
      WasMissing(past, begun, id) &&
        (if asked.Some? then asked.value == id
         else exists k :: begun <= k < |past| && past[k].Keys == {id})
    case NotFound(None) =>
      asked.None? && exists k :: begun <= k < |past| && past[k] == map[]
    case Ambiguous(ids) =>
      asked.None? && |ids| > 1 && exists k :: begun <= k < |past| && Lists(ids, past[k])
  }

  // ----- the invariant -----

  /** The sole listed session, when the caller gave none. */
  ghost predicate SoleMatches(past: seq<Live>, id: Id, begun: nat, sole: Option<nat>) {
    sole.Some? ==> begun <= sole.value < |past| && past[sole.value].Keys == {id}
  }

  ghost predicate PcMatches(past: seq<Live>, pc: Pc) {
    match pc
    case Idle => true
    case Listing(begun) => begun < |past|
    case Getting(id, begun, sole) => begun < |past| && SoleMatches(past, id, begun, sole)
    case Caching(id, info, begun, sole, seen) =>
      && begun <= seen < |past| && SoleMatches(past, id, begun, sole)
      && id in past[seen] && past[seen][id] == info
    case Evicting(id, begun, sole, seen) =>
      begun <= seen < |past| && SoleMatches(past, id, begun, sole) && id !in past[seen]
    case Done(asked, answer, begun, sole, seen) =>
      Justified(past, asked, answer, begun)
  }

  ghost predicate Inv(a: State) {
    && |a.past| > 0
    && (forall t: Thread :: PcMatches(a.past, a.Pc(t)))
    && ClientsMatch(a)
  }

  /** No two sessions share a client object. */
  ghost predicate ClientsMatch(a: State) {
    && (forall id :: id in a.clients ==> a.clients[id].serial < a.serial)
    && (forall id, k :: id in a.clients && k in a.clients && id != k ==> a.clients[id].serial != a.clients[k].serial)
  }

  lemma SingleKey(ids: seq<Id>, live: Live)
    requires Lists(ids, live) && |ids| == 1
    ensures live.Keys == {ids[0]}
  {
    assert ids[0] in live;
    forall id | id in live ensures id == ids[0] {
      assert id in ids;
    }
  }

  lemma ListingKeeps(a: State, t: Thread, b: State)
    requires |a.past| > 0 && a.Pc(t).Listing? && PcMatches(a.past, a.Pc(t)) && Proceeds(a, t, b)
    ensures PcMatches(b.past, b.Pc(t))
  {
    var begun := a.Pc(t).begun;
    var ids: seq<Id> :| Lists(ids, a.past[a.Now()]) &&
      b == At(a, t, if |ids| == 0 then Done(None, NotFound(None), begun, None, a.Now())
                    else if |ids| > 1 then Done(None, Ambiguous(ids), begun, None, a.Now())
                    else Getting(ids[0], begun, Some(a.Now())));
    if |ids| == 1 {
      SingleKey(ids, a.past[a.Now()]);
    } else if |ids| == 0 {
      assert forall id :: id in a.past[a.Now()] ==> id in ids;
      assert a.past[a.Now()] == map[];
    }
  }

  lemma ThreadStepKeeps(a: State, t: Thread, b: State)
    requires Inv(a) && ThreadStep(a, t, b)
    ensures PcMatches(b.past, b.Pc(t))
  {
    assert PcMatches(a.past, a.Pc(t));
    if Raises(a, t, b) {
      return;
    }
    match a.Pc(t)
    case Idle =>
    case Listing(begun) =>
      ListingKeeps(a, t, b);
    case Getting(id, begun, sole) =>
    case Caching(id, info, begun, sole, seen) =>
      assert WasLive(a.past, begun, id, info);
      assert sole.Some? ==> a.past[sole.value].Keys == {id};
    case Evicting(id, begun, sole, seen) =>
      assert WasMissing(a.past, begun, id);
      assert sole.Some? ==> a.past[sole.value].Keys == {id};
    case Done(_, _, _, _, _) =>
  }

  lemma StoreStepKeeps(past: seq<Live>, live: Live, pc: Pc)
    requires PcMatches(past, pc)
    ensures PcMatches(past + [live], pc)
  {
    var longer := past + [live];
    assert forall k :: 0 <= k < |past| ==> longer[k] == past[k];
    if pc.Done? {
      JustifiedStays(past, live, pc.asked, pc.answer, pc.begun);
    }
  }

  lemma JustifiedStays(past: seq<Live>, live: Live, asked: Option<Id>, answer: Answer, begun: nat)
    requires Justified(past, asked, answer, begun)
    ensures Justified(past + [live], asked, answer, begun)
  {
    var longer := past + [live];
    assert forall k :: 0 <= k < |past| ==> longer[k] == past[k];
    match answer
    case Found(client) =>
      var id: Id :| WasLive(past, begun, id, client.endpoint) &&
        (if asked.Some? then asked.value == id
         else exists k :: begun <= k < |past| && past[k].Keys == {id});
      assert WasLive(longer, begun, id, client.endpoint);
      if asked.None? {
        var k :| begun <= k < |past| && past[k].Keys == {id};
        assert longer[k].Keys == {id};
      }
    case NotFound(Some(id)) =>
      assert WasMissing(longer, begun, id);
      if asked.None? {
        var k :| begun <= k < |past| && past[k].Keys == {id};
        assert longer[k].Keys == {id};
      }
    case NotFound(None) =>
      var k :| begun <= k < |past| && past[k] == map[];
      assert longer[k] == map[];
    case Ambiguous(ids) =>
      var k :| begun <= k < |past| && Lists(ids, past[k]);
      assert Lists(ids, longer[k]);
  }

  /** A step of one thread leaves the store and the other threads alone. */
  lemma ThreadStepFrame(a: State, t: Thread, b: State)
    requires |a.past| > 0 && ThreadStep(a, t, b)
    ensures b.past == a.past && forall u: Thread :: u != t ==> b.Pc(u) == a.Pc(u)
  {}

  lemma ThreadStepClients(a: State, t: Thread, b: State)
    requires |a.past| > 0 && ThreadStep(a, t, b) && ClientsMatch(a)
    ensures ClientsMatch(b)
  {}

  lemma StepKeeps(a: State, b: State)
    requires Inv(a) && Step(a, b)
    ensures Inv(b)
  {
    if t: Thread :| ThreadStep(a, t, b) {
      ThreadStepKeeps(a, t, b);
      ThreadStepFrame(a, t, b);
      ThreadStepClients(a, t, b);
    } else if live: Live :| b == a.(past := a.past + [live]) {
      forall u: Thread ensures PcMatches(b.past, b.Pc(u)) {
        StoreStepKeeps(a.past, live, a.Pc(u));
      }
    } else {
      var id: Id :| b == a.(clients := a.clients - {id});
      assert forall u: Thread :: b.Pc(u) == a.Pc(u);
    }
  }

  /** An answer leaves its mark on the cache: the client found is there, and a session missed is not. */
  lemma AnswersLeaveTheirMark(a: State, t: Thread, b: State)
    requires |a.past| > 0 && ThreadStep(a, t, b) && b.Pc(t).Done? && !a.Pc(t).Done?
    ensures match b.Pc(t).answer
            case Found(client) => exists id :: id in b.clients && b.clients[id] == client
                                               && (id in a.clients && a.clients[id].endpoint == client.endpoint ==>
                                                     client == a.clients[id])
            case NotFound(Some(id)) => id !in b.clients
            case _ => b.clients == a.clients
  {
    if a.Pc(t).Caching? {
      assert a.Pc(t).id in b.clients;
    }
  }

  lemma {:induction false} InvHolds(run: seq<State>, i: nat)
    requires IsRun(run) && i < |run|
    ensures Inv(run[i])
  {
    if i > 0 {
      InvHolds(run, i - 1);
      StepKeeps(run[i - 1], run[i]);
    }
  }

  /** In every interleaving, every answer was true of the store at a moment of its own call. */
  lemma AnswersAreJustified(run: seq<State>, i: nat, t: Thread)
    requires IsRun(run) && i < |run| && run[i].Pc(t).Done?
    ensures var pc := run[i].Pc(t);
      Justified(run[i].past, pc.asked, pc.answer, pc.begun)
  {
    InvHolds(run, i);
    assert PcMatches(run[i].past, run[i].Pc(t));
  }
}

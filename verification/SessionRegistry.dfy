/**
 The proxy's directory of clients (session_registry.py, SessionRegistry).

 `SessionRegistry` is the class, used by one thread: `Replay` runs any program of calls
 and says exactly when two of them hand out the same client object. ConcurrentResolve has
 the same code under interleaving.
 */
module SessionRegistry {
  import opened Prelude
  import opened Client
  import Json
  import Wire
  import Framing

  datatype Endpoint = Endpoint(host: string, port: int)

  /** The live sessions on disk, as `session.get` reports them. */
  type Live = map<string, Endpoint>

  datatype ResolutionError =
    | NotFound(id: Option<string>)
    | Ambiguous(ids: seq<string>)

  /** A call: resolving an id while the store is `live`, or invalidating an id. */
  datatype Op = Ask(id: string, live: Live) | Drop(id: string)

  predicate Answered(ops: seq<Op>, i: nat)
    requires i < |ops|
  {
    ops[i].Ask? && ops[i].id in ops[i].live
  }

  /** Call `k` leaves the session of call `i` alone. */
  predicate Calm(ops: seq<Op>, i: nat, k: nat)
    requires i < |ops| && k < |ops| && Answered(ops, i)
  {
    ops[k].id == ops[i].id ==>
      ops[k].Ask? && ops[i].id in ops[k].live && ops[k].live[ops[i].id] == ops[i].live[ops[i].id]
  }

  /** Between calls `i` and `j` nothing took the session away, moved it, or invalidated its client. */
  predicate Undisturbed(ops: seq<Op>, i: nat, j: nat)
    requires i < |ops| && Answered(ops, i)
  {
    forall k :: i < k < j && k < |ops| ==> Calm(ops, i, k)
  }

  /** The session a call is for; none when it gives no id and there is not exactly one session. */
  function Target(id: Option<string>, listed: seq<string>): Option<string> {
    if id.Some? then id else if |listed| == 1 then Some(listed[0]) else None
  }

  class SessionRegistry {
    var clients: map<string, IDARpcClient>

    constructor ()
      ensures clients == map[]
    {
      clients := map[];
    }

    method GetClient(id: string, live: Live) returns (r: Result<IDARpcClient, ResolutionError>)
      modifies this
      ensures r.Ok? <==> id in live
      ensures r.Err? ==> r.error == NotFound(Some(id)) && clients == old(clients) - {id}
      ensures r.Ok? ==> Endpoint(r.value.host, r.value.port) == live[id] && clients == old(clients)[id := r.value]
      ensures r.Ok? ==>
                if id in old(clients) && Endpoint(old(clients)[id].host, old(clients)[id].port) == live[id]
                then r.value == old(clients)[id]
                else fresh(r.value) && r.value.counter == 1
    {
      if id !in live {
        clients := clients - {id};
        return Err(NotFound(Some(id)));
      }
      if id in clients && clients[id].host == live[id].host && clients[id].port == live[id].port {
        return Ok(clients[id]);
      }
      var client := new IDARpcClient(live[id].host, live[id].port);
      clients := clients[id := client];
      return Ok(client);
    }

    /** Without an id the sole session of `list_all` is meant; `live` is the store when `get` runs after that. */
    method Resolve(id: Option<string>, listed: seq<string>, live: Live)
      returns (r: Result<IDARpcClient, ResolutionError>)
      modifies this
      // an id that is given is meant, and without one the sole session that is listed
      ensures id.Some? ==> (r.Ok? <==> id.value in live) && (r.Err? ==> r.error == NotFound(id))
      ensures id.None? && |listed| == 0 ==> r == Err(NotFound(None))
      ensures id.None? && |listed| == 1 ==>
                (r.Ok? <==> listed[0] in live) && (r.Err? ==> r.error == NotFound(Some(listed[0])))
      ensures id.None? && |listed| > 1 ==> r == Err(Ambiguous(listed))
      ensures var target := Target(id, listed);
        && (r.Ok? <==> target.Some? && target.value in live)
        && (target.None? ==> r.Err? && clients == old(clients)
                             && r.error == if |listed| == 0 then NotFound(None) else Ambiguous(listed))
        && (r.Err? && target.Some? ==> r.error == NotFound(target) && clients == old(clients) - {target.value})
        && (r.Ok? ==>
              && Endpoint(r.value.host, r.value.port) == live[target.value]
              && clients == old(clients)[target.value := r.value]
              && if target.value in old(clients)
                    && Endpoint(old(clients)[target.value].host, old(clients)[target.value].port) == live[target.value]
                 then r.value == old(clients)[target.value]
                 else fresh(r.value) && r.value.counter == 1)
    {
      if id.Some? {
        r := GetClient(id.value, live);
      } else if |listed| == 0 {
        r := Err(NotFound(None));
      } else if |listed| > 1 {
        r := Err(Ambiguous(listed));
      } else {
        r := GetClient(listed[0], live);
      }
    }

    method Invalidate(id: string)
      modifies this
      ensures clients == old(clients) - {id}
    {
      clients := clients - {id};
    }

    /**
     The hook of `make_dispatch`: a tool call goes to the session meant and gives what that
     session's own dispatch gives. `served` is the registry behind each endpoint.
     */
    method Dispatch(name: string, params: Json.Json, id: Option<string>, listed: seq<string>, live: Live,
                    served: Endpoint -> Wire.App, codec: Framing.Codec)
      returns (r: Result<Wire.ClientOutcome, ResolutionError>, ghost requestId: int)
      requires Framing.Lossless(codec) && Json.Machine(params) && forall e :: Wire.MachineTools(served(e))
      modifies this, clients.Values
      ensures id.None? && |listed| == 0 ==> r == Err(NotFound(None))
      ensures id.None? && |listed| > 1 ==> r == Err(Ambiguous(listed))
      ensures id.Some? || |listed| == 1 ==>
                var k := if id.Some? then id.value else listed[0];
                r == if k in live then Ok(RemoteOutcome(served(live[k]), codec, name, params, requestId))
                     else Err(NotFound(Some(k)))
      ensures var target := Target(id, listed);
        && (r.Ok? <==> target.Some? && target.value in live)
        && (r.Ok? ==> r.value == RemoteOutcome(served(live[target.value]), codec, name, params, requestId))
        && (r.Err? && target.Some? ==> r.error == NotFound(target))
        && (r.Err? && target.None? ==> r.error == if |listed| == 0 then NotFound(None) else Ambiguous(listed))
    {
      var client := Resolve(id, listed, live);
      if client.Err? {
        return Err(client.error), 0;
      }
      requestId := client.value.counter;
      var outcome := client.value.Call(served(Endpoint(client.value.host, client.value.port)), codec, name, params);
      r := Ok(outcome);
    }

    /**
     Any program of calls on a new registry, each client used once per answer. Two answers
     are the same object exactly when they are for one session that was undisturbed in
     between, and the request ids drawn from one object never repeat.
     */
    method Replay(ops: seq<Op>) returns (answers: seq<Option<IDARpcClient>>, requestIds: seq<int>)
      requires clients == map[]
      modifies this
      ensures |answers| == |requestIds| == |ops|
      ensures forall i :: 0 <= i < |ops| ==> (answers[i].Some? <==> Answered(ops, i))
      ensures forall i :: 0 <= i < |ops| && answers[i].Some? ==>
                Answered(ops, i) && Endpoint(answers[i].value.host, answers[i].value.port) == ops[i].live[ops[i].id]
      ensures forall i, j :: 0 <= i < j < |ops| && answers[i].Some? && answers[j].Some? ==>
                && Answered(ops, i)
                && (answers[i] == answers[j] <==> ops[i].id == ops[j].id && Undisturbed(ops, i, j + 1))
      ensures forall i, j :: 0 <= i < j < |ops| && answers[i].Some? && answers[i] == answers[j] ==>
                requestIds[i] < requestIds[j]
    {
      answers, requestIds := [], [];
      for n := 0 to |ops|
        invariant |requestIds| == n && Ties(ops, answers, clients, n)
        invariant forall i :: 0 <= i < n && answers[i].Some? ==>
                    && Endpoint(answers[i].value.host, answers[i].value.port) == ops[i].live[ops[i].id]
                    && fresh(answers[i].value) && requestIds[i] < answers[i].value.counter
        invariant forall id :: id in clients ==> fresh(clients[id])
        invariant forall i, j :: 0 <= i < j < n && answers[i].Some? && answers[i] == answers[j] ==>
                    requestIds[i] < requestIds[j]
      {
        ghost var before := clients;
        var answer, requestId := Perform(ops[n]);
        TiesExtend(ops, answers, before, answer, clients, n);
        answers, requestIds := answers + [answer], requestIds + [requestId];
      }
    }

    /** One call, and one use of the client it answers with. */
    method Perform(op: Op) returns (answer: Option<IDARpcClient>, requestId: int)
      modifies this, clients.Values
      ensures answer.Some? <==> op.Ask? && op.id in op.live
      ensures answer.None? ==> clients == old(clients) - {op.id}
      ensures answer.Some? ==>
                && clients == old(clients)[op.id := answer.value]
                && Endpoint(answer.value.host, answer.value.port) == op.live[op.id]
                && answer.value.counter == requestId + 1
                && if op.id in old(clients)
                      && Endpoint(old(clients)[op.id].host, old(clients)[op.id].port) == op.live[op.id]
                   then answer.value == old(clients)[op.id] && requestId == old(answer.value.counter)
                   else fresh(answer.value)
      ensures forall c: IDARpcClient :: c in old(clients).Values && Some(c) != answer ==> c.counter == old(c.counter)
    {
      match op {
        case Drop(id) =>
          Invalidate(id);
          answer, requestId := None, 0;
        case Ask(id, live) =>
          var r := GetClient(id, live);
          answer, requestId := None, 0;
          if r.Ok? {
            requestId := r.value.NextId();
            answer := Some(r.value);
          }
      }
    }
  }

  lemma UndisturbedStep(ops: seq<Op>, i: nat, n: nat)
    requires i < n < |ops| && Answered(ops, i)
    ensures Undisturbed(ops, i, n + 1) <==> Undisturbed(ops, i, n) && Calm(ops, i, n)
  {}

  /** How the answers of the first `n` calls and the cache are tied together. */
  ghost predicate Ties(ops: seq<Op>, answers: seq<Option<IDARpcClient>>, clients: map<string, IDARpcClient>, n: nat) {
    && |answers| == n <= |ops|
    && (forall i :: 0 <= i < n ==> (answers[i].Some? <==> Answered(ops, i)))
    && (forall id, k :: id in clients && k in clients && clients[id] == clients[k] ==> id == k)
    && (forall i, id :: 0 <= i < n && answers[i].Some? && id in clients ==>
          (answers[i].value == clients[id] <==> id == ops[i].id && Undisturbed(ops, i, n)))
    && (forall i :: 0 <= i < n && answers[i].Some? && Undisturbed(ops, i, n) ==> ops[i].id in clients)
    && (forall i, j :: 0 <= i < j < n && answers[i].Some? && answers[j].Some? ==>
          (answers[i] == answers[j] <==> ops[i].id == ops[j].id && Undisturbed(ops, i, j + 1)))
  }

  /** What one call does to the cache, as `Perform` promises it. */
  ghost predicate Serves(op: Op, answers: seq<Option<IDARpcClient>>, clients: map<string, IDARpcClient>,
                         answer: Option<IDARpcClient>, clients': map<string, IDARpcClient>) {
    && (answer.Some? <==> op.Ask? && op.id in op.live)
    && clients' == (if answer.Some? then clients[op.id := answer.value] else clients - {op.id})
    && (answer.Some? ==>
          if op.id in clients && Endpoint(clients[op.id].host, clients[op.id].port) == op.live[op.id]
          then answer.value == clients[op.id]
          else answer !in answers && answer.value !in clients.Values)
  }

  lemma TiesExtend(ops: seq<Op>, answers: seq<Option<IDARpcClient>>, clients: map<string, IDARpcClient>,
                   answer: Option<IDARpcClient>, clients': map<string, IDARpcClient>, n: nat)
    requires n < |ops| && Ties(ops, answers, clients, n)
    requires forall i :: 0 <= i < n && answers[i].Some? ==>
               Endpoint(answers[i].value.host, answers[i].value.port) == ops[i].live[ops[i].id]
    requires Serves(ops[n], answers, clients, answer, clients')
    ensures Ties(ops, answers + [answer], clients', n + 1)
  {
    forall i: nat | i < n && Answered(ops, i)
      ensures Undisturbed(ops, i, n + 1) <==> Undisturbed(ops, i, n) && Calm(ops, i, n)
    {
      UndisturbedStep(ops, i, n);
    }
    forall i | 0 <= i < n && answers[i].Some? ensures answers[i] in answers {}
  }
}

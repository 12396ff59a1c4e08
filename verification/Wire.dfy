/**
 JSON-RPC 2.0 messages and the request handler (plugin/jsonrpc.py; the second half of
 JSONRPCRequestHandler.do_POST in plugin/http_server.py; the end of IDARpcClient.call).

 The main result: what a caller gets over the wire is what the registry's own dispatch
 gives, with exceptions turned into error codes and nothing else changed.
 */
module Wire {
  import opened Prelude
  import opened Json
  import opened Registry

  const VERSION := JStr("2.0")
  const INTERNAL_MESSAGE := "Internal error (please report a bug)"

  /** `dict.get(key)`. */
  function Field(fields: map<string, Json>, key: string): Json {
    if key in fields then fields[key] else JNull
  }

  // ----- building messages -----

  function MakeRequest(name: string, params: Json, id: int): Json {
    JObj(map["jsonrpc" := VERSION, "method" := JStr(name), "params" := params, "id" := JInt(id)])
  }

  function MakeErrorObject(code: int, message: string, data: Json): Json {
    var error := map["code" := JInt(code), "message" := JStr(message)];
    JObj(if data.JNull? then error else error["data" := data])
  }

  function MakeSuccessResponse(value: Json, id: Json): Json {
    JObj(map["jsonrpc" := VERSION, "id" := id, "result" := value])
  }

  function MakeErrorResponse(code: int, message: string, id: Json, data: Json): Json {
    var response := map["jsonrpc" := VERSION, "error" := MakeErrorObject(code, message, data)];
    JObj(if id.JNull? then response else response["id" := id])
  }

  // ----- the server side -----

  function ValidateEnvelope(payload: Json): Result<map<string, Json>, Exn> {
    match payload
    case JObj(fields) =>
      if Field(fields, "jsonrpc") != VERSION then
        Err(RpcExn(INVALID_REQUEST, "Invalid JSON-RPC version", Plain(JNull)))
      else if "method" !in fields then
        Err(RpcExn(INVALID_REQUEST, "Method not specified", Plain(JNull)))
      else Ok(fields)
    case _ => Err(RpcExn(INVALID_REQUEST, "Invalid Request", Plain(JNull)))
  }

  /** The registry behind a server. */
  datatype App = App(env: Env, methods: map<string, Tool>, nullable: set<string>) {
    function Dispatch(name: string, params: Json): ToolOutcome {
      Registry.Dispatch(env, methods, nullable, name, params)
    }
  }

  /** `dispatch` with whatever the envelope holds as its method: lists and objects are unhashable. */
  function DispatchAny(app: App, name: Json, params: Json): ToolOutcome {
    match name
    case JStr(s) => app.Dispatch(s, params)
    case JList(_) => Raised(OtherExn)
    case JObj(_) => Raised(OtherExn)
    case _ => Raised(NotFound(app.env.show(name)))
  }

  /** A response, or an exception that leaves the handler before anything is sent. */
  datatype Reply = Sent(response: Json) | NoReply

  /** The `try` block around `dispatch`: `json.dumps` can refuse a result, or the data of an error. */
  function Answer(o: ToolOutcome, id: Json): Reply {
    match o
    case Returned(Plain(v)) => Sent(MakeSuccessResponse(v, id))
    case Returned(Opaque) => Sent(MakeErrorResponse(INTERNAL_ERROR, INTERNAL_MESSAGE, id, JNull))
    case Raised(RpcExn(code, message, Plain(data))) => Sent(MakeErrorResponse(code, message, id, data))
    case Raised(RpcExn(code, message, Opaque)) => NoReply
    case Raised(IdaExn(message, kind)) =>
      Sent(MakeErrorResponse(IDA_ERROR, message, id, JObj(map["kind" := JStr(kind)])))
    case Raised(OtherExn) => Sent(MakeErrorResponse(INTERNAL_ERROR, INTERNAL_MESSAGE, id, JNull))
  }

  function RequestId(request: Json): Json {
    if request.JObj? then Field(request.fields, "id") else JNull
  }

  function Perform(app: App, request: Json): ToolOutcome {
    match ValidateEnvelope(request)
    case Ok(fields) =>
      DispatchAny(app, fields["method"], if "params" in fields then fields["params"] else JObj(map[]))
    case Err(exn) => Raised(exn)
  }

  function HandleRequest(app: App, request: Json): Reply {
    Answer(Perform(app, request), RequestId(request))
  }

  // ----- the client side -----

  datatype ClientOutcome =
    | Success(value: Json)
    | Remote(code: int, message: string, data: Json)   // RemoteJSONRPCError
    | Malformed                                        // ValueError
    | Transport                                        // IDARpcTransportError

  function ParseResponse(env: Env, payload: Json): ClientOutcome {
    if !payload.JObj? || Field(payload.fields, "jsonrpc") != VERSION then Malformed
    else if "error" in payload.fields then
      var err := payload.fields["error"];
      if !err.JObj? then Malformed
      else
        var code := if "code" in err.fields then AsInt(env, err.fields["code"]) else Some(INTERNAL_ERROR);
        if code.None? then Malformed
        else Remote(code.value,
                    if "message" in err.fields then AsText(env, err.fields["message"]) else "",
                    Field(err.fields, "data"))
    else if "result" !in payload.fields then Malformed
    else Success(payload.fields["result"])
  }

  function AsInt(env: Env, v: Json): Option<int> {
    if v.JInt? then Some(v.n) else env.toInt(v)
  }

  function AsText(env: Env, v: Json): string {
    if v.JStr? then v.s else env.show(v)
  }

  function Receive(env: Env, reply: Reply): ClientOutcome {
    match reply
    case Sent(response) => ParseResponse(env, response)
    case NoReply => Transport
  }

  // ----- the wire behaves like a local call -----

  /** How a local outcome appears to a remote caller. */
  function Seen(o: ToolOutcome): ClientOutcome {
    match o
    case Returned(Plain(v)) => Success(v)
    case Returned(Opaque) => Remote(INTERNAL_ERROR, INTERNAL_MESSAGE, JNull)
    case Raised(RpcExn(code, message, Plain(data))) => Remote(code, message, data)
    case Raised(RpcExn(code, message, Opaque)) => Transport
    case Raised(IdaExn(message, kind)) => Remote(IDA_ERROR, message, JObj(map["kind" := JStr(kind)]))
    case Raised(OtherExn) => Remote(INTERNAL_ERROR, INTERNAL_MESSAGE, JNull)
  }

  lemma SuccessRoundTrip(env: Env, v: Json, id: Json)
    ensures ParseResponse(env, MakeSuccessResponse(v, id)) == Success(v)
  {
    var fields := MakeSuccessResponse(v, id).fields;
    assert "jsonrpc" in fields && "result" in fields && "error" !in fields;
  }

  lemma ErrorRoundTrip(env: Env, code: int, message: string, id: Json, data: Json)
    ensures ParseResponse(env, MakeErrorResponse(code, message, id, data)) == Remote(code, message, data)
  {
    var fields := MakeErrorResponse(code, message, id, data).fields;
    assert "jsonrpc" in fields && "error" in fields && fields["error"] == MakeErrorObject(code, message, data);
    var err := fields["error"].fields;
    assert "code" in err && "message" in err && ("data" in err <==> !data.JNull?);
  }

  lemma AnswerRoundTrip(env: Env, o: ToolOutcome, id: Json)
    ensures Receive(env, Answer(o, id)) == Seen(o)
  {
    match o
    case Returned(Plain(v)) => SuccessRoundTrip(env, v, id);
    case Returned(Opaque) => ErrorRoundTrip(env, INTERNAL_ERROR, INTERNAL_MESSAGE, id, JNull);
    case Raised(RpcExn(code, message, Plain(data))) => ErrorRoundTrip(env, code, message, id, data);
    case Raised(RpcExn(code, message, Opaque)) =>
    case Raised(IdaExn(message, kind)) => ErrorRoundTrip(env, IDA_ERROR, message, id, JObj(map["kind" := JStr(kind)]));
    case Raised(OtherExn) => ErrorRoundTrip(env, INTERNAL_ERROR, INTERNAL_MESSAGE, id, JNull);
  }

  /** A remote call is a local call, for every method, parameters and request id. */
  lemma WireRefinesDispatch(app: App, name: string, params: Json, id: int)
    ensures Receive(app.env, HandleRequest(app, MakeRequest(name, params, id))) == Seen(app.Dispatch(name, params))
  {
    var request := MakeRequest(name, params, id);
    assert "jsonrpc" in request.fields && "method" in request.fields && "params" in request.fields;
    assert Perform(app, request) == app.Dispatch(name, params);
    AnswerRoundTrip(app.env, app.Dispatch(name, params), RequestId(request));
  }

  /** What the client makes of any payload, field by field. */
  lemma ParsesExactly(env: Env, payload: Json)
    ensures var r := ParseResponse(env, payload);
      if !payload.JObj? || "jsonrpc" !in payload.fields || payload.fields["jsonrpc"] != JStr("2.0") then r == Malformed
      else if "error" in payload.fields then
        var e := payload.fields["error"];
        if !e.JObj? then r == Malformed
        else if "code" !in e.fields then r.Remote? && r.code == -32603
        else if e.fields["code"].JInt? then
          && r.Remote? && r.code == e.fields["code"].n
          && ("message" !in e.fields ==> r.message == "")
          && ("message" in e.fields && e.fields["message"].JStr? ==> r.message == e.fields["message"].s)
          && r.data == if "data" in e.fields then e.fields["data"] else JNull
        else (r == Malformed <==> env.toInt(e.fields["code"]).None?)
      else if "result" in payload.fields then r == Success(payload.fields["result"])
      else r == Malformed
  {}

  // ----- every envelope -----

  /** A Request object (section 4 of the JSON-RPC 2.0 specification), as far as the handler looks. */
  predicate IsEnvelope(request: Json) {
    && request.JObj? && "jsonrpc" in request.fields && request.fields["jsonrpc"] == JStr("2.0")
    && "method" in request.fields
  }

  predicate HasErrorCode(reply: Reply, code: int) {
    && reply.Sent? && reply.response.JObj? && "error" in reply.response.fields
    && reply.response.fields["error"].JObj? && "code" in reply.response.fields["error"].fields
    && reply.response.fields["error"].fields["code"] == JInt(code)
  }

  lemma ErrorHasCode(code: int, message: string, id: Json, data: Json)
    ensures HasErrorCode(Sent(MakeErrorResponse(code, message, id, data)), code)
  {
    var e := MakeErrorObject(code, message, data);
    assert "code" in e.fields && e.fields["code"] == JInt(code);
    var r := MakeErrorResponse(code, message, id, data);
    assert "error" in r.fields && r.fields["error"] == e;
  }

  /** Everything that is no envelope is an invalid request, and nothing is dispatched. */
  lemma OthersAreInvalid(app: App, request: Json)
    requires !IsEnvelope(request)
    ensures HasErrorCode(HandleRequest(app, request), -32600) && Perform(app, request).Raised?
  {
    match Perform(app, request)
    case Raised(RpcExn(code, message, Plain(data))) => ErrorHasCode(code, message, RequestId(request), data);
  }

  /** The params of an envelope; without any, an empty object. */
  function ParamsOf(request: Json): Json
    requires request.JObj?
  {
    if "params" in request.fields then request.fields["params"] else JObj(map[])
  }

  /** Every envelope that names its method is a local call, whatever else it holds. */
  lemma EnvelopesAreDispatched(app: App, request: Json, name: string)
    requires IsEnvelope(request) && request.fields["method"] == JStr(name)
    ensures Receive(app.env, HandleRequest(app, request)) == Seen(app.Dispatch(name, ParamsOf(request)))
    ensures "params" !in request.fields ==>
              HandleRequest(app, request)
              == HandleRequest(app, JObj(request.fields["params" := JObj(map[])]))
  {
    AnswerRoundTrip(app.env, app.Dispatch(name, ParamsOf(request)), RequestId(request));
  }

  /** A method that is no string is not found, and a list or an object is an internal error. */
  lemma OddMethodsFail(app: App, request: Json)
    requires IsEnvelope(request) && !request.fields["method"].JStr?
    ensures var name := request.fields["method"];
      HasErrorCode(HandleRequest(app, request), if name.JList? || name.JObj? then -32603 else -32601)
  {
    match Perform(app, request)
    case Raised(RpcExn(code, message, Plain(data))) => ErrorHasCode(code, message, RequestId(request), data);
    case Raised(OtherExn) => ErrorHasCode(INTERNAL_ERROR, INTERNAL_MESSAGE, RequestId(request), JNull);
  }

  /** What becomes of an exception, in numbers. */
  lemma ExceptionsInNumbers(message: string, kind: string)
    ensures Seen(Raised(IdaExn(message, kind))) == Remote(-32000, message, JObj(map["kind" := JStr(kind)]))
    ensures Seen(Raised(OtherExn)).Remote? && Seen(Raised(OtherExn)).code == -32603
    ensures Seen(Returned(Opaque)).Remote? && Seen(Returned(Opaque)).code == -32603
  {}

  /** What the client sends. */
  lemma RequestsAreEnvelopes(name: string, params: Json, id: int)
    ensures var request := MakeRequest(name, params, id);
      && IsEnvelope(request) && request.fields["method"] == JStr(name) && ParamsOf(request) == params
      && RequestId(request) == JInt(id) && request.fields.Keys == {"jsonrpc", "method", "params", "id"}
  {
    var fields := MakeRequest(name, params, id).fields;
    assert "jsonrpc" in fields && "method" in fields && "params" in fields && "id" in fields;
  }

  // ----- the shape of responses -----

  /** A Response object (sections 5 and 5.1 of the JSON-RPC 2.0 specification), its id aside. */
  predicate IsResponse(r: Json) {
    && r.JObj? && Field(r.fields, "jsonrpc") == JStr("2.0")
    && ("result" in r.fields <==> "error" !in r.fields)
    && ("error" in r.fields ==>
          var e := r.fields["error"];
          e.JObj? && Field(e.fields, "code").JInt? && Field(e.fields, "message").JStr?
          && e.fields.Keys <= {"code", "message", "data"})
    && r.fields.Keys <= {"jsonrpc", "result", "error", "id"}
  }

  /**
   Every request object gets a well-formed response that carries its id, notifications
   included; the id is left out exactly of errors that have none to give. Nothing is sent
   only when a tool raises an error whose data cannot be serialised.
   */
  lemma EveryRequestIsAnswered(app: App, request: Json)
    ensures var reply := HandleRequest(app, request);
      && (reply.NoReply? <==>
            var o := Perform(app, request); o.Raised? && o.exn.RpcExn? && o.exn.data.Opaque?)
      && (reply.Sent? ==>
            && IsResponse(reply.response)
            && var id := if request.JObj? && "id" in request.fields then request.fields["id"] else JNull;
               if id.JNull? && "error" in reply.response.fields then "id" !in reply.response.fields
               else "id" in reply.response.fields && reply.response.fields["id"] == id)
  {
    var id := RequestId(request);
    match Perform(app, request)
    case Returned(Plain(v)) =>
    case Returned(Opaque) => ErrorShape(INTERNAL_ERROR, INTERNAL_MESSAGE, id, JNull);
    case Raised(RpcExn(code, message, Plain(data))) => ErrorShape(code, message, id, data);
    case Raised(RpcExn(code, message, Opaque)) =>
    case Raised(IdaExn(message, kind)) => ErrorShape(IDA_ERROR, message, id, JObj(map["kind" := JStr(kind)]));
    case Raised(OtherExn) => ErrorShape(INTERNAL_ERROR, INTERNAL_MESSAGE, id, JNull);
  }

  lemma ErrorShape(code: int, message: string, id: Json, data: Json)
    ensures var r := MakeErrorResponse(code, message, id, data);
      IsResponse(r) && Field(r.fields, "id") == id && "error" in r.fields && ("id" in r.fields <==> !id.JNull?)
  {
    var e := MakeErrorObject(code, message, data);
    assert "code" in e.fields && "message" in e.fields;
  }

  // ----- values that a machine can hold -----

  ghost predicate MachineOutcome(o: ToolOutcome) {
    match o
    case Returned(Plain(v)) => Machine(v)
    case Raised(RpcExn(_, _, Plain(data))) => Machine(data)
    case _ => true
  }

  /** Whatever they are given, the tools produce values that a machine can hold. */
  ghost predicate MachineTools(app: App) {
    forall name, kwargs: Kwargs :: name in app.methods ==> MachineOutcome(app.methods[name].body(kwargs))
  }

  lemma DispatchIsMachine(app: App, name: string, params: Json)
    requires MachineTools(app)
    ensures MachineOutcome(app.Dispatch(name, params))
  {
    if name in app.methods {
      match BuildKwargs(app.env, app.methods[name].params, params)
      case Bound(kwargs) =>
        assert MachineOutcome(app.methods[name].body(kwargs));
      case Unbound(exn) =>
        UnboundIsMachine(app.env, app.methods[name].params, params);
    }
  }

  lemma UnboundIsMachine(env: Env, params: seq<Param>, args: Json)
    ensures BuildKwargs(env, params, args).Unbound? ==> MachineOutcome(Raised(BuildKwargs(env, params, args).exn))
  {
    if args.JObj? {
      UnboundEachIsMachine(env, params, args.fields);
    }
  }

  lemma {:induction false} UnboundEachIsMachine(env: Env, params: seq<Param>, args: Kwargs)
    ensures BindEach(env, params, args).Unbound? ==> MachineOutcome(Raised(BindEach(env, params, args).exn))
  {
    if |params| > 0 {
      UnboundEachIsMachine(env, params[1..], args);
    }
  }

  lemma RequestIsMachine(name: string, params: Json, id: int)
    requires Machine(params)
    ensures Machine(MakeRequest(name, params, id))
  {}

  lemma ErrorIsMachine(code: int, message: string, id: Json, data: Json)
    requires Machine(id) && Machine(data)
    ensures Machine(MakeErrorResponse(code, message, id, data))
  {
    var error := MakeErrorObject(code, message, data);
    assert forall k :: k in error.fields ==> error.fields[k] in {JInt(code), JStr(message), data};
    assert Machine(error);
  }

  lemma AnswerIsMachine(o: ToolOutcome, id: Json)
    requires MachineOutcome(o) && Machine(id)
    ensures Answer(o, id).Sent? ==> Machine(Answer(o, id).response)
  {
    match o
    case Returned(Plain(v)) =>
    case Returned(Opaque) => ErrorIsMachine(INTERNAL_ERROR, INTERNAL_MESSAGE, id, JNull);
    case Raised(RpcExn(code, message, Plain(data))) => ErrorIsMachine(code, message, id, data);
    case Raised(RpcExn(code, message, Opaque)) =>
    case Raised(IdaExn(message, kind)) => ErrorIsMachine(IDA_ERROR, message, id, JObj(map["kind" := JStr(kind)]));
    case Raised(OtherExn) => ErrorIsMachine(INTERNAL_ERROR, INTERNAL_MESSAGE, id, JNull);
  }

  /** The reply to a request built by the client, before it is encoded. */
  lemma ReplyIsMachine(app: App, name: string, params: Json, id: int)
    requires MachineTools(app)
    ensures var reply := HandleRequest(app, MakeRequest(name, params, id)); reply.Sent? ==> Machine(reply.response)
  {
    var request := MakeRequest(name, params, id);
    assert "jsonrpc" in request.fields && "method" in request.fields && "params" in request.fields;
    assert Perform(app, request) == app.Dispatch(name, params) && RequestId(request) == JInt(id);
    DispatchIsMachine(app, name, params);
    AnswerIsMachine(app.Dispatch(name, params), JInt(id));
  }
}

/**
 The proxy's client (client.py, IDARpcClient), down to the bytes: a call encodes its
 request, the server reads it off a connection of its own, and the reply comes back
 through the same codec.
 */
module Client {
  import opened Prelude
  import opened Json
  import opened Registry
  import opened Wire
  import opened Framing

  /** A dispatch as its remote caller sees it; a request over the body limit is refused without one. */
  function RemoteOutcome(app: App, codec: Codec, name: string, params: Json, id: int): ClientOutcome {
    var size := |codec.encode(MakeRequest(name, params, id))|;
    if size <= MAX_REQUEST_BYTES then Seen(app.Dispatch(name, params))
    else Remote(INVALID_REQUEST, TooLarge(app, size), JNull)
  }

  class IDARpcClient {
    const host: string
    const port: int
    var counter: int                 // the next request id

    constructor (host: string, port: int)
      ensures this.host == host && this.port == port && counter == 1
    {
      this.host, this.port, counter := host, port, 1;
    }

    method NextId() returns (id: int)
      modifies this`counter
      ensures id == old(counter) && counter == old(counter) + 1
    {
      id := counter;
      counter := counter + 1;
    }

    /**
     For every method and parameters whose request fits the body limit, a call gives what
     the registry's dispatch gives; a larger request is refused without being dispatched.
     */
    method Call(app: App, codec: Codec, name: string, params: Json) returns (r: ClientOutcome)
      requires Lossless(codec) && MachineTools(app) && Machine(params)
      modifies this`counter
      ensures counter == old(counter) + 1
      ensures r == RemoteOutcome(app, codec, name, params, old(counter))
    {
      var id := NextId();
      var request := MakeRequest(name, params, id);
      RequestIsMachine(name, params, id);
      var payload := codec.encode(request);
      assert codec.decode(payload) == Parsed(request) && |payload| > 0;
      var connection := new Connection(app, codec, payload);
      connection.DoPost(true, Value(|payload|));
      assert |payload| <= MAX_REQUEST_BYTES ==> connection.input[0..connection.pos] == payload;
      ReplyIsMachine(app, name, params, id);
      ErrorIsMachine(INVALID_REQUEST, TooLarge(app, |payload|), JNull, JNull);
      r := ReadReply(app, codec, connection.replies);
      if |payload| <= MAX_REQUEST_BYTES {
        WireRefinesDispatch(app, name, params, id);
      } else {
        ErrorRoundTrip(app.env, INVALID_REQUEST, TooLarge(app, |payload|), JNull, JNull);
      }
    }

    /** A connection closed without a reply is a transport error. */
    static method ReadReply(app: App, codec: Codec, replies: seq<Json>) returns (r: ClientOutcome)
      requires Lossless(codec) && |replies| <= 1 && (|replies| == 1 ==> Machine(replies[0]))
      ensures r == Receive(app.env, if |replies| == 1 then Sent(replies[0]) else NoReply)
    {
      if |replies| == 0 {
        return Transport;
      }
      var body := codec.encode(replies[0]);
      assert codec.decode(body) == Parsed(replies[0]);
      match codec.decode(body) {
        case Parsed(data) => r := ParseResponse(app.env, data);
        case BadJson => r := Transport;
        case Refused => r := Transport;
      }
    }
  }
}

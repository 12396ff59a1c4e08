/**
 Reading requests off a connection (plugin/http_server.py, JSONRPCRequestHandler:
 do_POST and _discard_unread_body).

 `input` is everything the peer sends and `pos` how much of it has been read. Headers are
 parsed by the HTTP library: a request arrives as its path check and its Content-Length,
 and its body follows on the stream.
 */
module Framing {
  import opened Prelude
  import opened Json
  import opened Registry
  import opened Wire

  type Byte = x: int | 0 <= x < 256

  const MAX_REQUEST_BYTES := 32 * 1024 * 1024
  const READ_DISCARD_CHUNK := 64 * 1024

  /** `Refused` is any exception but JSONDecodeError, as for bytes that are not text. */
  datatype Decoded = Parsed(json: Json) | BadJson | Refused

  /** `json.dumps(...).encode()` and `json.loads`. */
  datatype Codec = Codec(encode: Json -> seq<Byte>, decode: seq<Byte> -> Decoded)

  /** Encoding then decoding gives back every value that a machine can hold. */
  ghost predicate Lossless(codec: Codec) {
    forall j: Json :: Machine(j) ==> codec.decode(codec.encode(j)) == Parsed(j) && |codec.encode(j)| > 0
  }

  datatype Length = Missing | Unparseable | Value(n: int)

  function TooLarge(app: App, n: int): string {
    "Request body too large (" + app.env.show(JInt(n)) + " bytes; max " + app.env.show(JInt(MAX_REQUEST_BYTES)) + ")"
  }

  /** Refusals that never look at the body: the code and message sent instead. */
  function Refusal(app: App, pathOk: bool, length: Length): Option<(int, string)> {
    if !pathOk then Some((INVALID_ENDPOINT, "Invalid endpoint"))
    else
      match length
      case Missing => Some((INVALID_REQUEST, "Missing Content-Length header"))
      case Unparseable => Some((INVALID_REQUEST, "Invalid Content-Length header"))
      case Value(n) =>
        if n <= 0 then Some((PARSE_ERROR, "Parse error: missing request body"))
        else if n > MAX_REQUEST_BYTES then Some((INVALID_REQUEST, TooLarge(app, n)))
        else None
  }

  /** The refusals, in numbers: 32 MiB is the greatest length that is not refused. */
  lemma RefusalsExactly(app: App, pathOk: bool, length: Length)
    ensures Refusal(app, pathOk, length).None? <==> pathOk && length.Value? && 1 <= length.n <= 33_554_432
    ensures Refusal(app, pathOk, length).Some? ==>
              Refusal(app, pathOk, length).value.0 ==
              if !pathOk then -32098 else if length.Value? && length.n <= 0 then -32700 else -32600
  {}

  /** A body that is no JSON is a parse error, and one that is is handled. */
  lemma BodiesInNumbers(app: App, codec: Codec, n: int, body: seq<Byte>)
    requires 1 <= n <= 33_554_432
    ensures codec.decode(body).Parsed? ==>
              ReplyTo(app, codec, true, Value(n), body) == HandleRequest(app, codec.decode(body).json)
    ensures codec.decode(body).BadJson? ==> HasErrorCode(ReplyTo(app, codec, true, Value(n), body), -32700)
  {
    ErrorHasCode(PARSE_ERROR, "Parse error: invalid JSON", JNull, JNull);
  }

  function ReplyToBody(app: App, codec: Codec, body: seq<Byte>): Reply {
    match codec.decode(body)
    case Parsed(request) => HandleRequest(app, request)
    case BadJson => Sent(MakeErrorResponse(PARSE_ERROR, "Parse error: invalid JSON", JNull, JNull))
    case Refused => NoReply
  }

  function ReplyTo(app: App, codec: Codec, pathOk: bool, length: Length, body: seq<Byte>): Reply {
    match Refusal(app, pathOk, length)
    case Some((code, message)) => Sent(MakeErrorResponse(code, message, JNull, JNull))
    case None => ReplyToBody(app, codec, body)
  }

  /** Too long a body, or one of unknown length, is drained up to the cap before the reply. */
  predicate DrainsToCap(pathOk: bool, length: Length) {
    match length
    case Value(n) => n > MAX_REQUEST_BYTES
    case Unparseable => true
    case Missing => !pathOk
  }

  function Delivered(r: Reply): seq<Json> {
    if r.Sent? then [r.response] else []
  }

  class Connection {
    const app: App
    const codec: Codec
    const input: seq<Byte>
    var pos: nat
    var replies: seq<Json>

    ghost predicate Valid()
      reads this
    {
      pos <= |input|
    }

    constructor (app: App, codec: Codec, input: seq<Byte>)
      ensures Valid() && this.app == app && this.codec == codec && this.input == input
      ensures pos == 0 && replies == []
    {
      this.app, this.codec, this.input := app, codec, input;
      pos, replies := 0, [];
    }

    /** `rfile.read(k)`: all `k` bytes if they are there, else the end of the stream, or a timeout if one is set. */
    method Read(k: nat, timed: bool) returns (chunk: Option<seq<Byte>>)
      requires Valid()
      modifies this`pos
      ensures Valid() && old(pos) <= pos <= old(pos) + k
      ensures chunk.Some? ==> chunk.value == input[old(pos)..pos]
      ensures old(pos) + k <= |input| ==> chunk.Some? && pos == old(pos) + k
      ensures !timed ==> chunk.Some?
    {
      var ended: bool := *;
      if pos + k <= |input| {
        chunk := Some(input[pos..pos + k]);
        pos := pos + k;
      } else if timed && !ended {
        var lost :| 0 <= lost <= |input| - pos;
        chunk := None;
        pos := pos + lost;
      } else {
        chunk := Some(input[pos..]);
        pos := |input|;
      }
    }

    /** The drain loop: never more than the cap, and all of it when the peer has sent that much. */
    method DiscardUnreadBody(n: int)
      requires Valid()
      modifies this`pos
      ensures Valid()
      ensures n <= 0 ==> pos == old(pos)
      ensures n > 0 ==> old(pos) <= pos <= old(pos) + n && pos <= old(pos) + MAX_REQUEST_BYTES
      ensures n > 0 && old(pos) + n <= |input| && n <= MAX_REQUEST_BYTES ==> pos == old(pos) + n
      ensures n > MAX_REQUEST_BYTES && old(pos) + MAX_REQUEST_BYTES <= |input| ==> pos == old(pos) + MAX_REQUEST_BYTES
    {
      if n <= 0 {
        return;
      }
      var limit := if n < MAX_REQUEST_BYTES then n else MAX_REQUEST_BYTES;
      var remaining := limit;
      while remaining > 0
        invariant Valid() && 0 <= remaining <= limit
        invariant pos == old(pos) + limit - remaining
        decreases remaining
      {
        var chunk := Read(if READ_DISCARD_CHUNK < remaining then READ_DISCARD_CHUNK else remaining, true);
        if chunk.None? || |chunk.value| == 0 {
          break;
        }
        remaining := remaining - |chunk.value|;
      }
    }

    method SendError(code: int, message: string)
      modifies this`replies
      ensures replies == old(replies) + [MakeErrorResponse(code, message, JNull, JNull)]
    {
      replies := replies + [MakeErrorResponse(code, message, JNull, JNull)];
    }

    /**
     On every path at most one reply is sent, and it is the one the request calls for. A
     request with a body of a legal length leaves the stream exactly at its end.
     */
    method DoPost(pathOk: bool, length: Length)
      requires Valid()
      modifies this
      ensures Valid() && old(pos) <= pos <= old(pos) + MAX_REQUEST_BYTES
      ensures replies == old(replies) + Delivered(ReplyTo(app, codec, pathOk, length, input[old(pos)..pos]))
      ensures length.Value? && 1 <= length.n <= MAX_REQUEST_BYTES && old(pos) + length.n <= |input| ==>
                pos == old(pos) + length.n
      ensures length.Value? && length.n <= 0 ==> pos == old(pos)
      ensures DrainsToCap(pathOk, length) && old(pos) + MAX_REQUEST_BYTES <= |input| ==>
                pos == old(pos) + MAX_REQUEST_BYTES
      ensures length.Missing? && pathOk ==> pos == old(pos)
    {
      if !pathOk {
        if length.Value? {
          DiscardUnreadBody(length.n);
        } else {
          DiscardUnreadBody(MAX_REQUEST_BYTES);
        }
        SendError(INVALID_ENDPOINT, "Invalid endpoint");
        return;
      }
      match length {
        case Missing =>
          SendError(INVALID_REQUEST, "Missing Content-Length header");
        case Unparseable =>
          DiscardUnreadBody(MAX_REQUEST_BYTES);
          SendError(INVALID_REQUEST, "Invalid Content-Length header");
        case Value(n) =>
          if n <= 0 {
            SendError(PARSE_ERROR, "Parse error: missing request body");
          } else if n > MAX_REQUEST_BYTES {
            DiscardUnreadBody(n);
            SendError(INVALID_REQUEST, TooLarge(app, n));
          } else {
            var body := Read(n, false);
            match codec.decode(body.value) {
              case BadJson => SendError(PARSE_ERROR, "Parse error: invalid JSON");
              case Refused =>     // the exception leaves the handler
              case Parsed(request) =>
                var reply := HandleRequest(app, request);
                replies := replies + Delivered(reply);
            }
          }
      }
    }

    /** A request of a legal length that has been sent in full. */
    method DoSentPost(pathOk: bool, n: nat) returns (ghost answer: seq<Json>)
      requires Valid() && 1 <= n <= MAX_REQUEST_BYTES && pos + n <= |input|
      modifies this
      ensures Valid() && pos == old(pos) + n
      ensures replies == old(replies) + answer
      ensures answer == Delivered(ReplyTo(app, codec, pathOk, Value(n), input[old(pos)..pos]))
    {
      ghost var start := pos;
      DoPost(pathOk, Value(n));
      answer := Delivered(ReplyTo(app, codec, pathOk, Value(n), input[start..pos]));
    }

    /** The first `i` requests have been read and answered. */
    ghost predicate Served(posts: seq<Post>, start: nat, before: seq<Json>, i: nat)
      reads this
      requires i <= |posts|
    {
      Valid() && pos == start + Offset(posts, i) && replies == before + Replies(app, codec, posts, input, start, i)
    }

    method ServeNext(posts: seq<Post>, i: nat, ghost start: nat, ghost before: seq<Json>)
      requires i < |posts| && 1 <= posts[i].n <= MAX_REQUEST_BYTES
      requires start + Offset(posts, i + 1) <= |input| && Served(posts, start, before, i)
      modifies this
      ensures Served(posts, start, before, i + 1)
    {
      var answer := DoSentPost(posts[i].pathOk, posts[i].n);
      RepliesExtend(app, codec, posts, input, start, i, before, answer);
    }

    /** Successive calls of `do_POST` on one stream: each request is read from where the previous one ended. */
    method ServeAll(posts: seq<Post>)
      requires Valid() && pos + Offset(posts, |posts|) <= |input|
      requires forall i :: 0 <= i < |posts| ==> 1 <= posts[i].n <= MAX_REQUEST_BYTES
      modifies this
      ensures Valid() && pos == old(pos) + Offset(posts, |posts|)
      ensures replies == old(replies) + Replies(app, codec, posts, input, old(pos), |posts|)
    {
      ghost var start, before := pos, replies;
      for i := 0 to |posts|
        invariant Served(posts, start, before, i)
      {
        OffsetGrows(posts, i + 1, |posts|);
        ServeNext(posts, i, start, before);
      }
    }
  }

  // ----- the specification of a whole connection -----

  datatype Post = Post(pathOk: bool, n: nat)

  /** Where request `i` of a connection starts. */
  function Offset(posts: seq<Post>, i: nat): nat
    requires i <= |posts|
  {
    if i == 0 then 0 else Offset(posts, i - 1) + posts[i - 1].n
  }

  lemma Associates<T>(a: seq<T>, b: seq<T>, c: seq<T>)
    ensures (a + b) + c == a + (b + c)
  {}

  lemma {:induction false} OffsetGrows(posts: seq<Post>, i: nat, j: nat)
    requires i <= j <= |posts|
    ensures Offset(posts, i) <= Offset(posts, j)
  {
    if i < j {
      OffsetGrows(posts, i, j - 1);
    }
  }

  /** The bytes of request `i`, on a stream where the first request starts at `start`. */
  function Body(posts: seq<Post>, stream: seq<Byte>, start: nat, i: nat): seq<Byte>
    requires i < |posts|
  {
    if start + Offset(posts, i + 1) <= |stream| then stream[start + Offset(posts, i)..start + Offset(posts, i + 1)]
    else []
  }

  function Replies(app: App, codec: Codec, posts: seq<Post>, stream: seq<Byte>, start: nat, k: nat): seq<Json>
    requires k <= |posts|
  {
    if k == 0 then []
    else
      Replies(app, codec, posts, stream, start, k - 1)
      + Delivered(ReplyTo(app, codec, posts[k - 1].pathOk, Value(posts[k - 1].n), Body(posts, stream, start, k - 1)))
  }

  lemma RepliesExtend(app: App, codec: Codec, posts: seq<Post>, stream: seq<Byte>, start: nat, i: nat,
                      before: seq<Json>, answer: seq<Json>)
    requires i < |posts| && start + Offset(posts, i + 1) <= |stream|
    requires answer == Delivered(ReplyTo(app, codec, posts[i].pathOk, Value(posts[i].n),
                                         stream[start + Offset(posts, i)..start + Offset(posts, i + 1)]))
    ensures before + Replies(app, codec, posts, stream, start, i) + answer
         == before + Replies(app, codec, posts, stream, start, i + 1)
  {
    Associates(before, Replies(app, codec, posts, stream, start, i), answer);
  }

  /** One reply per request, in order, each to the request's own bytes. */
  lemma {:induction false} RepliesMatchRequests(app: App, codec: Codec, posts: seq<Post>, stream: seq<Byte>,
                                                start: nat, k: nat, i: nat)
    requires i < k <= |posts|
    requires forall j :: 0 <= j < k ==>
               ReplyTo(app, codec, posts[j].pathOk, Value(posts[j].n), Body(posts, stream, start, j)).Sent?
    ensures |Replies(app, codec, posts, stream, start, k)| == k
    ensures Sent(Replies(app, codec, posts, stream, start, k)[i])
         == ReplyTo(app, codec, posts[i].pathOk, Value(posts[i].n), Body(posts, stream, start, i))
  {
    if k > 1 {
      RepliesMatchRequests(app, codec, posts, stream, start, k - 1, if i < k - 1 then i else 0);
    }
  }
}

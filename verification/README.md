# Verification of ida-pro-mcp

A Dafny model of the parts of ida-pro-mcp that keep state across processes, threads and calls, and
of the conversions those parts rely on. `dafny verify dfyconfig.toml` checks everything.

## What is modelled

**Sessions.** `SpawnProtocol` is `Spawner.open` as a state machine: any number of threads with a
program counter each, the children they spawn, the sidecar files, the per-id locks and the handles.
`SpawnAnswers` ties each answer to the call that gave it.
`CloseProtocol` is `close` and `close_sessions` as methods on the host they act on, with everybody
else moving between any two of their steps. `SidecarStore` is the sidecar directory,
`SessionRegistry` the proxy's cache of clients used by one thread, and `ConcurrentResolve` the same
cache under interleaving.

**The server.** `ServerProtocol` is `Server.bind`, `serve_in_current_thread` and `stop` as a state
machine whose steps are single reads and writes of shared fields. Its safety property is stated on
the history of socket events alone; `ServerCompletion` says what a call has achieved
when it returns. `Framing` reads requests off a byte stream.

**The RPC pipeline.** `Coercion` interprets annotations, `Registry` binds parameters and dispatches,
`Wire` builds and parses messages, `Client` makes calls down to the bytes. `Conforms`, `Admits`, `Binds`
and `Seen` say independently what the code has to achieve. JSON text itself is a codec that loses no value
a machine can hold; `Serialisation` has one, so that the assumption can be met.

**Plugin state.** `NameCache` is the demangled-name cache with its hooks, `SyncGuard` the guard of
calls on IDA's main thread, over every tree of nested calls.

**Conversions and edits.** `Numerals` prints and parses integers, `NumberConversion` packs them,
`FrameEdits` guards stack frames, `Patching` assembles into memory. `Text`, `Json` and `Prelude`
hold what several modules share.

The two sides of a protocol that update shared fields step by step from several threads are relations
between states, because every interleaving counts; everything that one thread updates is a class.

## Where the code and its documentation part

- Unreadable sidecars are said to be dropped, but some raise out of `get` and `list_all`
  (plugin/session.py:232-243): text that is not UTF-8, text on which `json.loads` raises more than a
  JSONDecodeError, an infinite port or pid, an integer `created_at` too large for a float, and on POSIX a pid
  above 2^31 - 1. `SidecarStore.RaisesExactly` is the condition, `ReadersRaise` has inputs. A NaN
  `created_at` is accepted and leaves the listing in no order: `SidecarStore.SortedExactly`.
- A `stop` between lines 310 and 312 of plugin/http_server.py blocks forever, although `stop` is said
  to be safe from any thread: `ServerProtocol.StuckIsReachable`, and `GuardDecides` for the condition.
- The teardown is called idempotent, but it removes by session id. Run again by `atexit`, it can take
  away the sidecar of the next child: `SpawnProtocol.SecondRemovalBreaksIt`, and `SecondRemovalExactly`
  for the condition.
- `resolve_function_target` says that names always get the chance to win; an address inside a function
  wins before them: `NameCache.AddressBeatsName`, and `NameDecidesExactly` for the condition.
- A NaN passes every bound: `Coercion.NaNPassesBounds`, and `BoundsAcceptExactly` for the condition.
- A value that does not convert is said to be an invalid parameter. The OverflowError of `float(n)` for a huge
  `n` is not a `CoercionError` and reaches the client as -32603: `Registry.OverflowIsInternal`, and
  `BuildKwargsFails` for the condition.
- Addresses are said to default to hex, but bare digits with one zero in front of b or d do not:
  `Numerals.PaddedBareDigitsExactly`.
- A result that `json.dumps` refuses is answered with -32603; error data that it refuses is not
  answered at all: `Wire.EveryRequestIsAnswered`.
- Error replies to a request without id leave `id` out, and notifications are answered, both against
  sections 4.1 and 5 of the JSON-RPC 2.0 specification: `Wire.EveryRequestIsAnswered`.
- `format_padded_hex(0, 0)` has three characters, not two: `Numerals.PaddedRoundTrip`.

## Model

| member | source | states |
|---|---|---|
| ServerProtocol.Safety | src/ida_pro_mcp/plugin/http_server.py:276-342 | In every interleaving of one serving thread with any number of stoppers: a socket is closed at most once, only after it was bound and only after the loop on it was left; the loop is never entered on a closed socket; `shutdown` is called only after `_serving` was set. |
| ServerProtocol.StepKeepsInv | src/ida_pro_mcp/plugin/http_server.py:276-342 | Every single read or write of a shared field, by either side, keeps the invariant that ties flags, program counters and history together. |
| ServerProtocol.StoppersExclude | src/ida_pro_mcp/plugin/http_server.py:335-341 | At most one thread is inside the locked block of `stop`. |
| ServerProtocol.StuckForever | src/ida_pro_mcp/plugin/http_server.py:339-340 | A stopper that waits for a loop which is not running on its socket waits in every later state of the run, and no other `stop` call gets past the lock. |
| ServerProtocol.UnstuckCanFinish | src/ida_pro_mcp/plugin/http_server.py:310-316 | Any other waiting stopper is released by steps of the serving thread alone. |
| ServerProtocol.GuardDecides | src/ida_pro_mcp/plugin/http_server.py:339-341 | A stopper that passes the test of `_serving` and comes to wait is stuck exactly if, at that test, no loop ran on its socket nor had run on it, whatever happens in between. |
| ServerProtocol.StuckIsReachable | src/ida_pro_mcp/plugin/http_server.py:310-312 | A run that ends in such a stuck stopper: the stop lands between `_serving = True` and the read of `_server`. |
| ServerCompletion.NoSocketIsLost | src/ida_pro_mcp/plugin/http_server.py:276-342 | In every run each bound socket is in `_server`, in the hands of one stopper, or closed. |
| ServerCompletion.StopCloses | src/ida_pro_mcp/plugin/http_server.py:318-342 | A `stop` that finds a socket, or holds one at any moment, has closed it by the time it returns, whether or not a loop was serving it. |
| ServerCompletion.ShutdownExactlyWhenServing | src/ida_pro_mcp/plugin/http_server.py:339-341 | Once that socket is closed, `shutdown` was called on it, and before the close, exactly if `_serving` was set when the stopper tested it. |
| ServerCompletion.ServesUnlessStopped | src/ida_pro_mcp/plugin/http_server.py:298-316 | A serving call that returns with its socket still in `_server` has entered the loop on it and left it. |
| ServerCompletion.LoopHearsShutdown | src/ida_pro_mcp/plugin/http_server.py:310-316 | While a stopper waits for the loop, the next step of the serving thread leaves it. |
| SpawnProtocol.OpensAreSafe | src/ida_pro_mcp/spawner/core.py:178-249 | In every run of concurrent `open` calls and children whose second teardowns spare running children: one thread per id between liveness check and publication, one serving child per id, the earlier child stopped serving between two answers `reused=False`, every handle belongs to an open that succeeded, none to one that failed, and a published child is what `session.get` finds. |
| SpawnProtocol.SecondRemovalExactly | src/ida_pro_mcp/plugin/headless_bootstrap.py:170-184 | The second removal of a sidecar keeps the invariant, and the properties above, exactly when `session.get` finds no live session of that id before it. |
| SpawnProtocol.LiveRemovalIsHarmful | src/ida_pro_mcp/plugin/headless_bootstrap.py:170-184 | From every state of the invariant: when it hits the sidecar of a running child whose lock is free, the next `open` can spawn a second child beside it. |
| SpawnProtocol.AtMostOneAlive | src/ida_pro_mcp/spawner/core.py:178-249 | When children leave the store only by dying, at most one child per session is alive. |
| SpawnProtocol.InsideIsExclusive | src/ida_pro_mcp/spawner/core.py:298-313 | Threads inside the locked block for one id are one thread. |
| SpawnProtocol.CheckedUnserved | src/ida_pro_mcp/spawner/core.py:178-179 | Holding the lock, a failed liveness check means that no child serves the id, not even one still booting. |
| SpawnProtocol.OpenSeesOwnChild | src/ida_pro_mcp/spawner/core.py:369-385 | The sidecar that ends the wait of an `open` is that of the child it spawned. |
| SpawnProtocol.StepKeeps | src/ida_pro_mcp/spawner/core.py:149-249 | Every step of an opener, a child or a reader of the store keeps the invariant, second removals that spare running children included. |
| SpawnProtocol.MoveKeeps | src/ida_pro_mcp/spawner/core.py:149-249 | A step that only moves a thread on, or takes or frees its lock, keeps the invariant for all others. |
| SpawnProtocol.EndingKeepsHistory | src/ida_pro_mcp/plugin/headless_bootstrap.py:170-184 | A child that dies or withdraws ends exactly its own service, and the history stays in order. |
| SpawnProtocol.SecondRemovalBreaksIt | src/ida_pro_mcp/plugin/headless_bootstrap.py:283-341 | Such a removal can come about: a run from the beginning with two serving children of one session. |
| SpawnAnswers.AnswersFitTheirCalls | src/ida_pro_mcp/spawner/core.py:178-190 | Every answer is that of a call for its id: a reuse, of one begun without `fresh`, a refusal, of one begun with it; it names the child that serves the session at that moment. |
| SpawnAnswers.CallsAnswerAsAsked | src/ida_pro_mcp/spawner/core.py:178-190 | So a call begun without `fresh` never refuses, and one begun with it never reuses, whatever the others do. |
| SpawnAnswers.LiveSessionIsAnswered | src/ida_pro_mcp/spawner/core.py:178-190 | A call that finds the session live answers with the process found, unless the check raises; it spawns nothing and leaves the store alone. |
| SpawnAnswers.AnsweredCallsSpawnNothing | src/ida_pro_mcp/spawner/core.py:178-199 | A call that gives such an answer spawns no child, before it or after. |
| SpawnAnswers.SpawnedCallsTellTheEnd | src/ida_pro_mcp/spawner/core.py:199-249 | A call that spawned and comes to leave has told how it went: the child is ready and its handle kept, or the open failed, and then the child is dead, has no handle and was never ready. |
| SpawnAnswers.PollEndsExactly | src/ida_pro_mcp/spawner/core.py:369-385 | The wait ends early exactly if the process has exited. |
| CloseProtocol.Spawner.Close | src/ida_pro_mcp/spawner/core.py:251-294 | Refused when the sidecar cannot be read, and otherwise exactly when the session is not live. A close that goes through asked first: the sentinel, then the signal exactly on POSIX; hard kill and sidecar removal come exactly on the way that is not graceful, and only past the deadline; sentinel removal and reap come last. Failure has no effect, unless a poll could not read the sidecar, and then only the request is out. Afterwards the session is not live unless it could not be read or the host refuses both the kill and the removal. |
| CloseProtocol.Spawner.Shutdown | src/ida_pro_mcp/spawner/core.py:273-294 | Everything from the request on, for a session found live: exactly the request and the rest of the course, or the request alone if a poll raises. |
| CloseProtocol.Spawner.AskToStop | src/ida_pro_mcp/spawner/core.py:273-275 | The request comes first and is the sentinel, and the signal exactly on POSIX. |
| CloseProtocol.CourseIsProper | src/ida_pro_mcp/spawner/core.py:273-294 | Every course begins with the request, kills and removes the sidecar exactly when it is not graceful, and ends with the sentinel gone and the child reaped. |
| CloseProtocol.Spawner.AwaitExit | src/ida_pro_mcp/spawner/core.py:280-286 | The polling loop ends: with success only after a poll that missed the session, with failure only past the deadline, and by an exception only if the sidecar cannot be read. |
| CloseProtocol.Spawner.Escalate | src/ida_pro_mcp/spawner/core.py:288-294 | Hard kill, sidecar removal, sentinel removal and reap, in that order. |
| CloseProtocol.Spawner.Get | src/ida_pro_mcp/plugin/session.py:185-200 | Raises on an unreadable sidecar, finds exactly the live one, and deletes a stale one. |
| CloseProtocol.Spawner.CloseSessions | src/ida_pro_mcp/session_control.py:96-124 | One outcome per target, in order, whatever the others raise; the effects are the courses of the targets and nothing else; every closed target was asked before anything else, was killed exactly if it did not go gracefully, and was tidied up after; exactly the handles of closed targets are dropped and their sentinels are gone; no target is live afterwards whose sidecar could be read. |
| CloseProtocol.Spawner.CloseNext | src/ida_pro_mcp/session_control.py:113-123 | One target: any failure becomes its outcome; its own handle and no other is dropped, its sentinel is gone once it is closed, and a target that was not live sets none. |
| CloseProtocol.UnmarkedExtends | src/ida_pro_mcp/session_control.py:113-123 | A target named twice sets no sentinel again. |
| CloseProtocol.CoursesAreLocal | src/ida_pro_mcp/session_control.py:113-123 | Every effect of a batch is part of closing one of its targets; hard kills and removals only of targets that did not go gracefully, sentinel removals and reaps only of closed ones. |
| CloseProtocol.ResolveTargets | src/ida_pro_mcp/session_control.py:71-93 | The loop gives the candidates in order of first appearance. |
| CloseProtocol.FirstSeenInOrder | src/ida_pro_mcp/session_control.py:86-93 | No duplicates are left and the order is that of the first occurrences. |
| CloseProtocol.FirstSeenIsIdempotent | src/ida_pro_mcp/session_control.py:86-93 | A list without duplicates is left alone. |
| Coercion.CoerceAdmits | src/ida_pro_mcp/plugin/coerce.py:40-50 | Every result has the declared type, however deep, bounds included, where a NaN counts as within every bound. |
| Coercion.CoerceIsSound | src/ida_pro_mcp/plugin/coerce.py:40-50 | A result without a NaN conforms to the annotation. |
| Coercion.AdmitsIsConforms | src/ida_pro_mcp/plugin/coerce.py:197-207 | The two readings of bounds differ in NaNs only. |
| Coercion.CoerceIsIdentity | src/ida_pro_mcp/plugin/coerce.py:40-92 | A value comes out unchanged exactly when it has the declared type already, for annotations whose unions have one member besides `None`. |
| Coercion.CoerceIsIdempotent | src/ida_pro_mcp/plugin/coerce.py:40-92 | Converting twice is converting once, for the same annotations and every value. |
| Coercion.UnionTakesFirst | src/ida_pro_mcp/plugin/coerce.py:176-194 | A union of several members gives the answer of the first that does not reject, and rejects exactly when all do. |
| Coercion.UnionLeavesAlone | src/ida_pro_mcp/plugin/coerce.py:188-192 | A value that has the type of one member is left alone by a union of several exactly when no earlier member that answers changes it. |
| Coercion.UnionOfTwoConverts | src/ida_pro_mcp/plugin/coerce.py:188-192 | For instance "5" against `int | str` becomes 5. |
| Coercion.BoundsAcceptExactly | src/ida_pro_mcp/plugin/coerce.py:197-207 | Bounds let through exactly the values within them, and every NaN. |
| Coercion.BoundsOfReals | src/ida_pro_mcp/plugin/coerce.py:197-207 | A number is within bounds exactly if it is at least every `ge` and above every `gt`, in arithmetic. |
| Coercion.BoundsOfInfinities | src/ida_pro_mcp/plugin/coerce.py:197-207 | Positive infinity is within every bound, negative infinity only where there is none. |
| Coercion.BoundedIntegers | src/ida_pro_mcp/plugin/coerce.py:53-60 | Against an annotated `int`, an integer comes out unchanged exactly if it is at least every `ge` and above every `gt`, and is refused otherwise, so that 0 passes `ge=0` and not `gt=0`. |
| Coercion.BoundedFloats | src/ida_pro_mcp/plugin/coerce.py:53-60 | The same of floats, over the reals. |
| Coercion.BoundsNameTheFailure | src/ida_pro_mcp/plugin/coerce.py:203-207 | A refusal names a bound of the metadata that the number misses. |
| Coercion.TextConverts | src/ida_pro_mcp/plugin/coerce.py:95-151 | Text is a number exactly if the parser of Python takes it, a truth value exactly for the twelve words, and always itself as a string. |
| Coercion.OtherShapesAreRefused | src/ida_pro_mcp/plugin/coerce.py:95-151 | Null, lists and objects are no scalars, only strings are strings, only lists lists, only null `None`; `Any` takes everything. |
| Coercion.LiteralExactly | src/ida_pro_mcp/plugin/coerce.py:154-165 | A scalar that is no NaN is accepted by `Literal` exactly if it is one of the values listed. |
| Coercion.ListsItemByItem | src/ida_pro_mcp/plugin/coerce.py:168-173 | A list converts exactly if every item does, each by itself; otherwise the first item that does not decides. |
| Coercion.OptionalIsItsType | src/ida_pro_mcp/plugin/coerce.py:176-194 | `T | None`, in either order, takes null as it is and everything else as `T` does. |
| Coercion.NaNPassesBounds | src/ida_pro_mcp/plugin/coerce.py:197-207 | A NaN passes `ge=0` and does not conform. |
| Coercion.NumbersKeepTheirValue | src/ida_pro_mcp/plugin/coerce.py:95-143 | Between int, bool and float a conversion succeeds exactly when the number exists there, and keeps it; `float(n)` overflows exactly as Python does, and keeps n exactly when Python does. |
| Coercion.StripAnnotated | src/ida_pro_mcp/plugin/coerce.py:53-60 | The loop strips every layer and collects all metadata, outermost first. |
| Coercion.AdmitsStripped | src/ida_pro_mcp/plugin/coerce.py:53-60 | Having a layered type is having its base within all bounds. |
| Coercion.ItemsAdmit | src/ida_pro_mcp/plugin/coerce.py:168-173 | A converted list has as many items, each of the item type. |
| Registry.BuildKwargsBinds | src/ida_pro_mcp/plugin/registry.py:191-227 | Binding succeeds exactly for an object that names only parameters, gives all required ones and converts everywhere; the keys are the keys sent. |
| Registry.BuildKwargsFails | src/ida_pro_mcp/plugin/registry.py:191-261 | Every other outcome is that of the params object, of its keys, or of the first value in signature order that does not convert; it is an internal error exactly when that first value overflows a float. |
| Registry.OverflowIsInternal | src/ida_pro_mcp/plugin/registry.py:255-261 | An integer too large for a float parameter is not reported as invalid parameters. |
| Registry.BindEachBinds | src/ida_pro_mcp/plugin/registry.py:218-222 | The comprehension succeeds exactly when every value converts, and each argument is its own value converted to its own annotation. |
| Registry.BindEachFails | src/ida_pro_mcp/plugin/registry.py:218-222 | Otherwise it fails with the exception of the first value in signature order that does not convert. |
| Registry.KeysMatch | src/ida_pro_mcp/plugin/registry.py:205-217 | The two set differences are empty exactly when no key is extra and none is missing. |
| Registry.BoundValuesConform | src/ida_pro_mcp/plugin/registry.py:230-261 | A bound argument has the declared type of its parameter, and conforms to it if it holds no NaN. |
| Registry.DispatchOutcome | src/ida_pro_mcp/plugin/registry.py:172-189 | For every method and parameters: the code of the failure, -32603 exactly when the first value that does not convert overflows a float, or the outcome of the tool, with the marker for `None` exactly when the method is not nullable. |
| Registry.NullOrMarker | src/ida_pro_mcp/plugin/registry.py:122-189 | A tool whose result is null answers null exactly if its return annotation is a union with `None`; a tool without annotation, `-> None`, `-> Any` and every other one answers `{"ok": true}`; other results pass. |
| Registry.AllowsNullExactly | src/ida_pro_mcp/plugin/registry.py:122-128 | What is tested at registration is whether such a union is declared. |
| Registry.UntypedPassesThrough | src/ida_pro_mcp/plugin/registry.py:230-261 | A parameter of unknown type, or of type `Any`, gets the value as it was sent. |
| Registry.RPCRegistry.Call | src/ida_pro_mcp/plugin/registry.py:172-189 | The tool runs exactly when the method exists and the parameters bind, once, on the bound arguments; the caller then gets its outcome, null only where the return annotation declares it and `{"ok": true}` in its place elsewhere. |
| Registry.RPCRegistry.Register | src/ida_pro_mcp/plugin/registry.py:84-131 | Refused exactly for a duplicate, a parameter without wire form or an unresolved annotation; otherwise added, and nullable exactly if the return annotation is a union with `None`. |
| Wire.WireRefinesDispatch | src/ida_pro_mcp/plugin/http_server.py:193-216 | What a client parses out of the reply to its request is the outcome of a local dispatch, errors turned into code, message and data. |
| Wire.ReplyIsMachine | src/ida_pro_mcp/plugin/http_server.py:193-216 | The reply to a request of the client holds only values that a machine can hold, as its tools do. |
| Serialisation.LosslessCodecExists | src/ida_pro_mcp/client.py:61-85 | There is a codec that gives back every value that a machine can hold, so that what calls assume of `json.dumps` and `json.loads` can be met. |
| Serialisation.ValueReadsBack | src/ida_pro_mcp/client.py:61-85 | That codec reads back every value it wrote, nested lists and objects included. |
| Wire.EveryRequestIsAnswered | src/ida_pro_mcp/plugin/http_server.py:187-218 | Every JSON request gets one well-formed response with the id it carries, left out exactly of errors without one; no response only when the data of an error cannot be serialised. |
| Wire.OthersAreInvalid | src/ida_pro_mcp/plugin/http_server.py:193-200 | Whatever is no object, has another `jsonrpc` or no `method` is answered with -32600, and nothing is dispatched. |
| Wire.EnvelopesAreDispatched | src/ida_pro_mcp/plugin/http_server.py:193-198 | Every other request that names a method by a string is the local call, and one without `params` is the one with empty `params`. |
| Wire.OddMethodsFail | src/ida_pro_mcp/plugin/http_server.py:195-218 | A method name that is null, a number or a truth value is not found; a list or an object, which cannot be looked up, is an internal error. |
| Wire.ExceptionsInNumbers | src/ida_pro_mcp/plugin/http_server.py:199-218 | An IDA error is -32000 with its kind as data; any other exception, and a result that cannot be serialised, is -32603. |
| Wire.RequestsAreEnvelopes | src/ida_pro_mcp/plugin/jsonrpc.py:20-26 | What the client builds is such a request, with exactly its four fields. |
| Wire.ParsesExactly | src/ida_pro_mcp/plugin/jsonrpc.py:73-94 | What the client makes of every payload, field by field: the version, an error with its defaults, a result, and malformed otherwise. |
| Wire.SuccessRoundTrip | src/ida_pro_mcp/plugin/jsonrpc.py:36-37 | Parsing a success response gives the result. |
| Wire.ErrorRoundTrip | src/ida_pro_mcp/plugin/jsonrpc.py:29-94 | Parsing an error response gives code, message and data. |
| Wire.AnswerRoundTrip | src/ida_pro_mcp/plugin/http_server.py:195-214 | Every outcome of a tool survives the `try` block and the parser. |
| Wire.ErrorShape | src/ida_pro_mcp/plugin/jsonrpc.py:29-53 | An error response has the shape of section 5.1 of the JSON-RPC 2.0 specification; a null id is left out. |
| Framing.Connection.DiscardUnreadBody | src/ida_pro_mcp/plugin/http_server.py:86-114 | The drain loop ends, never reads beyond n or 32 MiB, and reads all of it when it was sent. |
| Framing.Connection.DoPost | src/ida_pro_mcp/plugin/http_server.py:138-218 | On every path at most one reply, the one the request calls for; a body of legal length is consumed exactly. |
| Framing.RefusalsExactly | src/ida_pro_mcp/plugin/http_server.py:138-185 | A request is refused exactly for another path, a length that is missing or no number, or one outside 1 to 33554432, with the code of each. |
| Framing.BodiesInNumbers | src/ida_pro_mcp/plugin/http_server.py:187-191 | A body that is not JSON is answered with -32700; one that is, is handled. |
| Framing.Connection.ServeAll | src/ida_pro_mcp/plugin/http_server.py:138-218 | In successive calls on one stream of fully sent requests each is read from where the one before ended, and the stream ends at the last. |
| Framing.RepliesMatchRequests | src/ida_pro_mcp/plugin/http_server.py:138-218 | One reply per request, in order, each to the bytes of its own request. |
| Client.IDARpcClient.Call | src/ida_pro_mcp/client.py:51-87 | With parameters and tools that deal in machine values, a call gives what dispatch gives whenever its request fits the body limit, and the size error otherwise; the id counter advances by one. |
| SidecarStore.SessionStore.ListAll | src/ida_pro_mcp/plugin/session.py:203-221 | In whatever order the directory is read: a permutation of exactly the live sidecars, sorted by creation time exactly when at most one is listed or none is a NaN, and exactly the other sidecars deleted; raises exactly when some sidecar does, and then nothing live is lost. |
| SidecarStore.SessionStore.Scan | src/ida_pro_mcp/plugin/session.py:211-219 | The loop: the live sidecars each once, and the others deleted. |
| SidecarStore.RaisesExactly | src/ida_pro_mcp/plugin/session.py:232-243 | A sidecar raises out of its readers exactly if it is not UTF-8, if `json.loads` raises anything else, if its record overflows, or if its pid does not fit the probe. |
| SidecarStore.EscapesExactly | src/ida_pro_mcp/plugin/session.py:133-143 | A record overflows exactly if what is evaluated before converts and the port or pid is infinite or the creation time an integer too large for a float. |
| SidecarStore.ReadersRaise | src/ida_pro_mcp/plugin/session.py:132-143 | Three files of valid JSON on which readers raise. |
| SidecarStore.OneSidecarHidesAll | src/ida_pro_mcp/plugin/session.py:203-221 | One such sidecar makes every listing of its directory raise. |
| SidecarStore.WrittenLoads | src/ida_pro_mcp/plugin/session.py:129-143 | What is written is what is read. |
| SidecarStore.WrittenIsFound | src/ida_pro_mcp/plugin/session.py:149-200 | A written session is found while its process runs. |
| SidecarStore.OnlyRunningAreFound | src/ida_pro_mcp/plugin/session.py:185-200 | What is found records a positive pid of a running process. |
| SidecarStore.OnlyRunningAreListed | src/ida_pro_mcp/plugin/session.py:203-221 | So does what is listed, each from a file ending in `.json`. |
| SidecarStore.DeadAreDropped | src/ida_pro_mcp/plugin/session.py:185-221 | A record of a process that does not run is not found, and a listing deletes it. |
| SidecarStore.MalformedAreDropped | src/ida_pro_mcp/plugin/session.py:203-243 | Neither is a file that is not JSON, no object or without port or pid. |
| SidecarStore.OthersStay | src/ida_pro_mcp/plugin/session.py:203-221 | Directories and files of another suffix stay as they are. |
| SidecarStore.TruncatedTowardsZero | src/ida_pro_mcp/plugin/session.py:132-143 | A fractional port or pid is cut towards zero. |
| SidecarStore.TruthValuesAreNumbers | src/ida_pro_mcp/plugin/session.py:132-142 | In a number field true and false are read as 1 and 0. |
| SidecarStore.TextIsParsed | src/ida_pro_mcp/plugin/session.py:132-142 | Text there is the number that Python parses, and breaks the record otherwise. |
| SidecarStore.GreatestPid | src/ida_pro_mcp/plugin/session.py:185-200 | On POSIX a pid raises exactly above 2147483647. |
| SidecarStore.SessionStore.Get | src/ida_pro_mcp/plugin/session.py:185-200 | Raises exactly when the file does, finds exactly the live sidecar of the id, and deletes only that of a dead process. |
| SidecarStore.SessionStore.Write | src/ida_pro_mcp/plugin/session.py:149-172 | Replaces the one file of the id, or changes nothing. |
| SidecarStore.SessionStore.Remove | src/ida_pro_mcp/plugin/session.py:175-182 | Removes the one file of the id; a missing file is no error. |
| SidecarStore.ListedExactlyWhenFound | src/ida_pro_mcp/plugin/session.py:185-221 | With file names that match ids, a session is listed exactly when `get` finds it, with the same record. |
| SidecarStore.SweepingIsIdempotent | src/ida_pro_mcp/plugin/session.py:203-221 | Listing again sweeps nothing more and lists the same. |
| SidecarStore.ListingsAgree | src/ida_pro_mcp/plugin/session.py:203-229 | Two listings of one directory have the same entries, whatever the order of reading. |
| SidecarStore.EnumeratesPermuted | src/ida_pro_mcp/plugin/session.py:220-221 | Sorting keeps an enumeration of the live sidecars. |
| SidecarStore.SortByCreation | src/ida_pro_mcp/plugin/session.py:220-221 | A permutation, sorted by `created_at` if none is a NaN. |
| SidecarStore.SortedAscends | src/ida_pro_mcp/plugin/session.py:220-221 | Sorted means that the times ascend, negative infinities first and positive ones last. |
| SidecarStore.SortedExactly | src/ida_pro_mcp/plugin/session.py:220-221 | With a NaN among several creation times no order is sorted. |
| SessionRegistry.SessionRegistry.Replay | src/ida_pro_mcp/session_registry.py:98-148 | In any program of calls two answers are the same object exactly when they are for one session that was not moved, gone or invalidated in between; ids drawn from one object never repeat. |
| SessionRegistry.SessionRegistry.GetClient | src/ida_pro_mcp/session_registry.py:135-148 | The cached client exactly if its endpoint is still right, a fresh one otherwise; a missing session is evicted. |
| SessionRegistry.SessionRegistry.Resolve | src/ida_pro_mcp/session_registry.py:98-114 | An id that is given is meant. Without one: not found if none is listed, the session if one is, and ambiguous, naming all, if several are. The client found has the endpoint on record, and is the cached one exactly if that has it too. |
| SessionRegistry.SessionRegistry.Invalidate | src/ida_pro_mcp/session_registry.py:128-131 | Drops the client of this id and no other. |
| SessionRegistry.SessionRegistry.Dispatch | src/ida_pro_mcp/session_registry.py:116-126 | A tool call goes to the session given, or to the only one listed, and gives what its own dispatch gives; with none listed it is not found, with several ambiguous. |
| SessionRegistry.TiesExtend | src/ida_pro_mcp/session_registry.py:135-148 | One more call keeps answers and cache tied as `Replay` needs. |
| ConcurrentResolve.AnswersAreJustified | src/ida_pro_mcp/session_registry.py:98-148 | In every interleaving with a changing store: the endpoint of a found client, and every not-found and ambiguous answer, was true of the store at a moment of that call; without an id, the session found or missed is the sole one listed during the call. |
| ConcurrentResolve.AnswersLeaveTheirMark | src/ida_pro_mcp/session_registry.py:135-148 | The client found is in the cache, and is the one that was there if its endpoint is still right; a session missed is evicted; the other answers leave the cache alone. |
| ConcurrentResolve.StepKeeps | src/ida_pro_mcp/session_registry.py:98-148 | Every step of a thread, the store or an invalidation keeps the invariant. |
| NameCache.AnnouncedRunsAgree | src/ida_pro_mcp/plugin/names.py:73-119 | After any run in which renames and switches are heard, and unheard changes only add names, every lookup gives its uncached answer. |
| NameCache.AnnouncedAnswers | src/ida_pro_mcp/plugin/names.py:73-119 | And so do all lookups made during the run. |
| NameCache.CacheHooks.Play | src/ida_pro_mcp/plugin/names.py:73-119 | Any run of events and lookups on the objects ends in the state, and gives the answers, of the run on values. |
| NameCache.HeardRunsStayCurrent | src/ida_pro_mcp/plugin/names.py:83-94 | Without unheard changes, a matching key means that the map is a rebuild of the open database. |
| NameCache.AnyRunAnswersFromItsDatabases | src/ida_pro_mcp/plugin/names.py:100-119 | Whatever is heard: "not found" only if a rebuild lacks the name too; otherwise the address is from a database of the run with the same path. |
| NameCache.UnheardChangeExactly | src/ida_pro_mcp/plugin/names.py:83-119 | After an unheard change within one file every name keeps its uncached answer exactly when each demangled name of before still has its address or is in the name table. |
| NameCache.UnheardRenameIsStale | src/ida_pro_mcp/plugin/names.py:109-111 | For instance an unheard rename is answered with the old address. |
| NameCache.UnheardSwitchIsNoticed | src/ida_pro_mcp/plugin/names.py:70-89 | After a switch to a database of another path that no hook heard, every name gets its uncached answer. |
| NameCache.MapIsKept | src/ida_pro_mcp/plugin/names.py:83-89 | Within one path the map is built once. |
| NameCache.UncachedInTurn | src/ida_pro_mcp/plugin/names.py:100-119 | The uncached answer: the name table first, then the last function of that demangled name, then not found. |
| NameCache.LooksHexExactly | src/ida_pro_mcp/plugin/names.py:146-148 | What is tried as an address: the prefixes 0x, 0o, 0b, 0d in either case, and hex digits throughout. |
| NameCache.BuildMapHoldsNames | src/ida_pro_mcp/plugin/names.py:73-81 | The built map holds exactly the non-empty demangled names. |
| NameCache.BuildMapKeepsLast | src/ida_pro_mcp/plugin/names.py:73-81 | Of several functions with one name it holds the last. |
| NameCache.DemangledNameCache.Build | src/ida_pro_mcp/plugin/names.py:73-81 | The loop computes that map. |
| NameCache.DemangledNameCache.Get | src/ida_pro_mcp/plugin/names.py:83-89 | Rebuilds exactly when the key differs. |
| NameCache.DemangledNameCache.LookupFunctionEaByName | src/ida_pro_mcp/plugin/names.py:100-119 | Name table, cached map, one rebuild, then not found; and the cache it leaves. |
| NameCache.DemangledNameCache.ResolveFunctionTarget | src/ida_pro_mcp/plugin/names.py:122-157 | Empty is an error; an address wins where a function lives; otherwise the lookup by name. |
| NameCache.PrintedFunctionResolves | src/ida_pro_mcp/plugin/names.py:142-154 | A printed address resolves to itself wherever a function lives, whatever the names are, and is looked up as a name elsewhere. |
| NameCache.NameDecidesExactly | src/ida_pro_mcp/plugin/names.py:142-157 | The lookup by name decides exactly when the text is no address inside a function, or the very address the name has. |
| NameCache.AddressBeatsName | src/ida_pro_mcp/plugin/names.py:146-154 | A function whose name is the bare hex digits of an address in another function is out of reach by name. |
| NameCache.AbcIsOutOfReach | src/ida_pro_mcp/plugin/names.py:146-154 | For instance a function called abc at 0x401000 when another covers 0xabc. |
| NameCache.PrintedAddressResolves | src/ida_pro_mcp/plugin/names.py:36-51 | A printed address resolves to itself exactly unless a symbol of that spelling lies elsewhere. |
| NameCache.TargetsInTurn | src/ida_pro_mcp/plugin/names.py:36-51 | For `resolve_name_or_address` a name comes before an address; blank text, and nothing else, is an empty target there and for `resolve_function_target`. |
| NameCache.CacheHooks.InvalidateAll | src/ida_pro_mcp/plugin/caches.py:29-35 | Every callback runs wherever failing ones stand; failures are counted in the log and none escapes. |
| NameCache.CacheHooks.Install | src/ida_pro_mcp/plugin/idb_hooks.py:24-45 | Idempotent; hooked only if the SDK accepts the listener. |
| NameCache.CacheHooks.Uninstall | src/ida_pro_mcp/plugin/idb_hooks.py:48-55 | Not hooked afterwards. |
| NameCache.HooksStay | src/ida_pro_mcp/plugin/idb_hooks.py:24-55 | Hooks are in place after an event exactly if they were and it does not remove them, or if it installs them and the SDK accepts. |
| NameCache.CacheHooks.OnRenamed | src/ida_pro_mcp/plugin/idb_hooks.py:37-39 | Empties the cache exactly while hooked. |
| NameCache.CacheHooks.OnClosebase | src/ida_pro_mcp/plugin/idb_hooks.py:33-35 | Empties the cache exactly while hooked. |
| SyncGuard.GuardedRunsNeverNest | src/ida_pro_mcp/plugin/ida_sync.py:94-113 | For every tree of nested calls and every exit: a sync body is entered only when the slot is empty, left by its holder, refused naming the holder, and the slot afterwards is the slot before. |
| SyncGuard.RefusesExactlyNesting | src/ida_pro_mcp/plugin/ida_sync.py:87-119 | A call is refused exactly in runs that would nest without the guard; all other runs end exactly as without it. |
| SyncGuard.SyncEvents | src/ida_pro_mcp/plugin/ida_sync.py:87-119 | One call: an invalid safety is refused before anything, a nested call inside the runner, and otherwise the caller gets the outcome of the body. |
| SyncGuard.Guard.SyncCall | src/ida_pro_mcp/plugin/ida_sync.py:87-119 | The slot is set and put back around the body; outcome and events are those above. |
| SyncGuard.Guard.RunBody | src/ida_pro_mcp/plugin/ida_sync.py:94-119 | Running a body by the slot gives exactly the specified outcome and events. |
| Numerals.EaRoundTrip | src/ida_pro_mcp/plugin/format.py:21-90 | `parse_ea(format_ea(n))` is n for every non-negative n and an error for negative ones. |
| Numerals.HexRoundTrip | src/ida_pro_mcp/plugin/format.py:12-104 | `parse_int(format_hex(n))` likewise. |
| Numerals.BareDigitsRoundTrip | src/ida_pro_mcp/plugin/format.py:52-90 | The digits alone, in either case, parse as the address. |
| Numerals.PaddedRoundTrip | src/ida_pro_mcp/plugin/format.py:37-90 | Padding parses back; the length is 2 + 2w exactly when w > 0 and the value fits w bytes. |
| Numerals.PaddedBareDigitsExactly | src/ida_pro_mcp/plugin/format.py:52-90 | Zero-padded bare digits parse as the number exactly unless a single zero stands before a first digit b or d. |
| Numerals.PaddedBareDigitsMislead | src/ida_pro_mcp/plugin/format.py:73-90 | For instance 0b1 and 0d16. |
| Numerals.DecimalRoundTrip | src/ida_pro_mcp/plugin/format.py:93-104 | `parse_int(str(n))` is n, and `int(text, 0)` reads both signs. |
| Numerals.LeadingZerosAreRefused | src/ida_pro_mcp/plugin/format.py:93-104 | Zeros in front of a decimal literal are refused, except of zero itself. |
| Numerals.DecimalAddress | src/ida_pro_mcp/plugin/format.py:73-90 | `parse_ea("0d" + str(n))` is n; without the prefix the digits are hexadecimal. |
| Numerals.PrefixPicksBase | src/ida_pro_mcp/plugin/format.py:73-104 | The prefixes 0x, 0o and 0b pick the base for numbers and addresses alike. |
| Numerals.PaddedNegative | src/ida_pro_mcp/plugin/format.py:37-49 | Padding a negative number keeps its sign behind the prefix and counts it in the width. |
| Numerals.PrintedCase | src/ida_pro_mcp/plugin/format.py:12-49 | Printed letters are lower case, and upper case in padded forms. |
| Numerals.BlankText | src/ida_pro_mcp/plugin/format.py:52-104 | Blank text is an error of its own for addresses, and no number. |
| Numerals.DigitsRoundTrip | src/ida_pro_mcp/plugin/format.py:12-18 | Printing and reading hex digits are inverse. |
| Numerals.DigitCount | src/ida_pro_mcp/plugin/format.py:37-49 | A number has at most k hex digits exactly when it is below 16 to the k. |
| NumberConversion.MinimumByteWidthIsLeast | src/ida_pro_mcp/number_conversion.py:12-18 | A number fits w bytes exactly when w is at least the inferred width, for every integer. |
| NumberConversion.BitLengthBound | src/ida_pro_mcp/number_conversion.py:16-18 | `bit_length` is at most k exactly below 2 to the k. |
| NumberConversion.EitherSignIsExact | src/ida_pro_mcp/number_conversion.py:31-44 | Packing succeeds exactly between -2^(8w-1) and 2^(8w), and the bytes decode to the number, or to the number plus 256^w. |
| NumberConversion.PackingIsModular | src/ida_pro_mcp/number_conversion.py:31-44 | The bytes decode to the number modulo 256^w. |
| NumberConversion.WiderExtends | src/ida_pro_mcp/number_conversion.py:31-44 | A wider size only zero-extends, or sign-extends a negative number. |
| NumberConversion.AsciiIgnoresSize | src/ida_pro_mcp/number_conversion.py:21-28 | The text before the trailing nulls does not depend on the size a non-negative number is shown at. |
| NumberConversion.PrintableAscii | src/ida_pro_mcp/number_conversion.py:21-28 | Text exactly when every byte before the trailing nulls is printable, and then those characters. |
| NumberConversion.AsciiIsPrintable | src/ida_pro_mcp/number_conversion.py:21-28 | The text holds characters from blank to tilde only, and there is none exactly for some byte outside them. |
| NumberConversion.OnlyNullsAreStripped | src/ida_pro_mcp/number_conversion.py:21-28 | What is stripped is all nulls at the end and nothing else. |
| NumberConversion.ConvertNumber | src/ida_pro_mcp/number_conversion.py:47-70 | The errors in their order, and otherwise the decimal, hexadecimal and binary forms, and bytes that decode to the value, dumped and shown as text; with an inferred size never too big. |
| NumberConversion.HexadecimalParsesBack | src/ida_pro_mcp/number_conversion.py:55-66 | The hexadecimal form parses back to the number, negative ones included. |
| NumberConversion.BinaryParsesBack | src/ida_pro_mcp/number_conversion.py:55-69 | So does the binary form. |
| NumberConversion.HexDumpReadsBack | src/ida_pro_mcp/number_conversion.py:67 | The dump, split at its spaces, is the bytes, two digits each. |
| FrameEdits.MutableIsBelowSpecial | src/ida_pro_mcp/plugin/tools/stack.py:88-135 | A member may change exactly when it is not special and ends before some special member begins; its deletion range then meets no special member and no argument. |
| FrameEdits.BoundaryIsGreatest | src/ida_pro_mcp/plugin/tools/stack.py:103-115 | The boundary is the greatest end of a special member, and zero without one. |
| FrameEdits.GreatestIsBoundary | src/ida_pro_mcp/plugin/tools/stack.py:103-115 | And no other number is. |
| FrameEdits.ArgsRegionStart | src/ida_pro_mcp/plugin/tools/stack.py:103-115 | The loop computes the boundary. |
| FrameEdits.ResolveFrameMember | src/ida_pro_mcp/plugin/tools/stack.py:72-85 | The first member of the name, or not found exactly when there is none. |
| FrameEdits.WithoutSpecialAllMutable | src/ida_pro_mcp/plugin/tools/stack.py:100-101 | Without a special member no member is refused. |
| FrameEdits.RefusalReasons | src/ida_pro_mcp/plugin/tools/stack.py:118-135 | The reason given: a special member is named so before anything else, an argument by where it begins. |
| FrameEdits.RangeIsOneMember | src/ida_pro_mcp/plugin/tools/stack.py:213-218 | Deleting the range of a member deletes that member alone. |
| FrameEdits.DeletionsKeepProtected | src/ida_pro_mcp/plugin/tools/stack.py:205-218 | No sequence of deletions changes the special members, the arguments, their order or the boundary. |
| FrameEdits.Frame.DeleteVariable | src/ida_pro_mcp/plugin/tools/stack.py:205-218 | The error in each case with the frame unchanged, or exactly the first member of the name deleted. |
| Patching.Memory.PatchAll | src/ida_pro_mcp/plugin/tools/patch.py:45-46 | On success all encodings lie one behind the other from the address on; on failure exactly the instructions before the failing one. |
| Patching.Memory.PatchAddressAssembles | src/ida_pro_mcp/plugin/tools/patch.py:36-47 | The errors before the loop, and the loop on the stripped non-blank pieces. |
| Patching.Memory.AssembleAndPatch | src/ida_pro_mcp/plugin/tools/patch.py:17-30 | One instruction: its error, or its bytes written at the address. |
| Patching.AssembledInPlace | src/ida_pro_mcp/plugin/tools/patch.py:45-46 | Each instruction was assembled for the address at which its bytes lie, and there are no gaps. |
| Patching.AssembledStops | src/ida_pro_mcp/plugin/tools/patch.py:17-46 | What stops a patch is the first instruction that does not assemble behind the others. |
| Patching.WrittenAt | src/ida_pro_mcp/plugin/tools/patch.py:24-25 | Only the addresses of the bytes change, and they hold them. |
| Patching.PatchesCompose | src/ida_pro_mcp/plugin/tools/patch.py:42-46 | Two lists that go through one behind the other are the one list joined by a semicolon. |
| Patching.PiecesConcat | src/ida_pro_mcp/plugin/tools/patch.py:42 | Joined lists hold the instructions of the one and then of the other. |
| Patching.OneInstruction | src/ida_pro_mcp/plugin/tools/patch.py:42 | A text without semicolons is one instruction, stripped, or none exactly if it is blank. |
| Patching.TwoInstructions | src/ida_pro_mcp/plugin/tools/patch.py:42 | "nop; ret" is the two instructions around the semicolon, without the blank. |
| Patching.NonEmptyKeeps | src/ida_pro_mcp/plugin/tools/patch.py:42 | Of the stripped pieces exactly the empty ones are dropped. |
| Text.StripExactly | src/ida_pro_mcp/plugin/tools/patch.py:42 | Stripped text is what lies between the first and the last character that is no whitespace, and empty exactly if all is. |
| Text.SplitJoins | src/ida_pro_mcp/plugin/tools/patch.py:42 | The pieces contain no separator and joined by it give the text back. |
| Text.JoinSplits | src/ida_pro_mcp/plugin/tools/patch.py:42 | Pieces without the separator, joined by it, are split into the same pieces. |

## Left out

- The IDA SDK: function lists, demangled names, the assembler, frame members and patching appear as
  values, functions or flags; what the SDK does inside is not part of this model.
- Sockets, HTTP headers, JSON text, pid probing, signals, `Popen`: they appear as a byte stream, a
  content length, a lossless codec, a set of live pids and steps of the children.
- What a tool does to the database: a tool is a function from its arguments to an outcome, and
  `RPCRegistry.calls` records that it ran.
- Pids name one process for ever, and a process that has exited but was not waited for counts as dead.
- Deadlock freedom of `Server.stop`, also when it is called on the serving thread itself: the code
  does not have it. One `serve_in_current_thread` call per server is assumed, as the bootstrap makes.
- A `close` that overlaps an `open` of the same id, and two proxies on one store: removal is by id, so
  the guarantees do not hold there. In `CloseProtocol` the ids being closed are not opened meanwhile.
- SpawnProtocol.OpensAreSafe: assumes that the kill on the failure path takes effect.
- SpawnProtocol.LiveRemovalIsHarmful: says nothing of a removal that hits while a thread holds the lock of
  the session; `SecondRemovalExactly` covers that case as far as the one step goes.
- `Server`, `Spawner.open` and the concurrent `resolve` are relations on values rather than classes,
  so that all interleavings are covered; aliasing of the lock objects is modelled by lock numbers.
- The temporary file of a sidecar write, which `list_all` can see, and unlinks that the file system
  refuses in `SidecarStore`: each store call is one step that succeeds.
- Which of two sidecars with equal `created_at` comes first in a listing, and which order a NaN leads to.
- Session id hashes, path normalisation, log tails, the deletion of database files for `fresh=True`,
  and the sweep of `%TEMP%` short paths: library or operating system behaviour.
- Numerals.EaRoundTrip: `int(text, base)` is modelled for ASCII digits without underscores.
- Coercion.CoerceIsSound: floats are reals with infinities and NaN; rounding is not modelled. Byte
  strings do not occur in JSON and are not values here.
- Coercion.CoerceIsIdentity: not stated for unions of two members besides `None`, where it is false
  (`UnionOfTwoConverts`); `UnionLeavesAlone` has the condition.
- A body that is not text, or on which `json.loads` raises anything but a JSONDecodeError, gets no reply
  (`Framing.ReplyToBody`); what `socketserver` then does is not part of this model.
- Client.IDARpcClient.Call: socket failures, non-200 answers and proxies in between are not modelled, and
  JSON text is a lossless codec on values whose floats are machine floats.
- SessionRegistry.SessionRegistry.GetClient: a `session.get` that raises leaves the cache alone and is not modelled
  there; in `ConcurrentResolve`, `SpawnProtocol` and `CloseProtocol` it is.
- NameCache.AnnouncedRunsAgree: `closebase` and the database that replaces the closed one are one step;
  a lookup made between the two is not modelled.
- FrameEdits.Frame.DeleteVariable: a deletion refused by the SDK leaves the frame as it was.
- Patching.Memory.PatchAddressAssembles: the assembler depends on address and text only.
- Listings, pagination, filters, command line, configuration, service installation and the schema
  translation for FastMCP would only add easy members.

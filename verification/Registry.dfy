/**
 The method registry and the dispatcher (plugin/registry.py, plugin/errors.py).

 A tool is its signature and what its body does with the keyword arguments it is given.
 `BuildKwargs` follows the code; `Binds` says independently when parameters bind.
 */
module Registry {
  import opened Prelude
  import opened Json
  import opened Coercion

  // plugin/errors.py, JSONRPCErrorCode
  const PARSE_ERROR := -32700
  const INVALID_REQUEST := -32600
  const METHOD_NOT_FOUND := -32601
  const INVALID_PARAMS := -32602
  const INTERNAL_ERROR := -32603
  const INVALID_ENDPOINT := -32098
  const IDA_ERROR := -32000

  /** A Python value a tool hands back: JSON, or something `json.dumps` refuses. */
  datatype PyValue = Plain(json: Json) | Opaque

  datatype Exn =
    | RpcExn(code: int, message: string, data: PyValue)   // JSONRPCError
    | IdaExn(message: string, kind: string)               // IDAError
    | OtherExn                                            // anything else

  datatype ToolOutcome = Returned(value: PyValue) | Raised(exn: Exn)

  type Kwargs = map<string, Json>

  datatype Kind = PositionalOnly | PositionalOrKeyword | VarPositional | KeywordOnly | VarKeyword

  /** A hint is an annotation, or a string that could not be resolved to one. */
  datatype Hint = Resolved(ann: Ann) | Unresolved

  datatype Param = Param(name: string, kind: Kind, hasDefault: bool, hint: Hint)

  datatype Tool = Tool(name: string, params: seq<Param>, result: Hint, body: Kwargs -> ToolOutcome)

  /** The library functions, and renderings used only inside messages. */
  datatype Env = Env(
    lib: Lib,
    reason: Reason -> string,
    names: set<string> -> string,
    show: Json -> string,            // str(value)
    toInt: Json -> Option<int>)      // int(value)

  const VOID_RESULT_MARKER := Plain(JObj(map["ok" := JBool(true)]))

  // ----- binding parameters -----

  function Names(params: seq<Param>): (r: set<string>)
    ensures forall i :: 0 <= i < |params| ==> params[i].name in r
    ensures forall n :: n in r ==> exists i :: 0 <= i < |params| && params[i].name == n
  {
    set i | 0 <= i < |params| :: params[i].name
  }

  function Required(params: seq<Param>): set<string> {
    set i | 0 <= i < |params| && !params[i].hasDefault :: params[i].name
  }

  datatype Bound = Bound(kwargs: Kwargs) | Unbound(exn: Exn)

  /** `_validate`: annotations that say nothing pass the value through, as `Coerce` does. */
  function Validate(env: Env, p: Param, v: Json): Outcome {
    match p.hint
    case Unresolved => Accept(v)
    case Resolved(a) => Coerce(env.lib, v, a)
  }

  function ValidationError(env: Env, p: Param, o: Outcome): Exn
    requires !o.Accept?
  {
    match o
    case Reject(reason) =>
      RpcExn(INVALID_PARAMS, "Invalid value for parameter '" + p.name + "': " + env.reason(reason), Plain(JNull))
    case Overflow => OtherExn
  }

  /** The dict comprehension over the signature: stops at the first value that does not convert. */
  function BindEach(env: Env, params: seq<Param>, args: Kwargs): Bound {
    if |params| == 0 then Bound(map[])
    else
      var p := params[0];
      if p.name !in args then BindEach(env, params[1..], args)
      else
        match Validate(env, p, args[p.name])
        case Accept(w) =>
          (match BindEach(env, params[1..], args)
           case Bound(rest) => Bound(map[p.name := w] + rest)
           case unbound => unbound)
        case failed => Unbound(ValidationError(env, p, failed))
  }

  function BuildKwargs(env: Env, params: seq<Param>, args: Json): Bound {
    match args
    case JObj(fields) =>
      if fields.Keys - Names(params) != {} then
        Unbound(RpcExn(INVALID_PARAMS,
                       "Invalid params: unexpected fields " + env.names(fields.Keys - Names(params)),
                       Plain(JNull)))
      else if Required(params) - fields.Keys != {} then
        Unbound(RpcExn(INVALID_PARAMS,
                       "Invalid params: missing required fields " + env.names(Required(params) - fields.Keys),
                       Plain(JNull)))
      else BindEach(env, params, fields)
    case _ => Unbound(RpcExn(INVALID_REQUEST, "Invalid Request: params must be an object", Plain(JNull)))
  }

  // ----- when parameters bind -----

  predicate DistinctNames(params: seq<Param>) {
    forall i, j :: 0 <= i < j < |params| ==> params[i].name != params[j].name
  }

  /** The object names parameters only, gives all required ones, and every value given converts. */
  predicate Binds(env: Env, params: seq<Param>, args: Json) {
    args.JObj? && KeysBind(params, args.fields) && ValuesConvert(env, params, args.fields)
  }

  predicate KeysBind(params: seq<Param>, args: Kwargs) {
    && (forall n :: n in args ==> exists i :: 0 <= i < |params| && params[i].name == n)
    && (forall i :: 0 <= i < |params| && !params[i].hasDefault ==> params[i].name in args)
  }

  predicate ValuesConvert(env: Env, params: seq<Param>, args: Kwargs) {
    forall i :: 0 <= i < |params| && params[i].name in args ==>
      Validate(env, params[i], args[params[i].name]).Accept?
  }

  /** The first parameter, in signature order, whose value does not convert. */
  predicate FirstFailure(env: Env, params: seq<Param>, args: Kwargs, i: nat) {
    && i < |params| && params[i].name in args && !Validate(env, params[i], args[params[i].name]).Accept?
    && ValuesConvert(env, params[..i], args)
  }

  /** That first failure is a number too large for a float. */
  predicate Overflows(env: Env, params: seq<Param>, args: Kwargs) {
    exists i: nat :: i < |params| && FirstFailure(env, params, args, i)
                     && Validate(env, params[i], args[params[i].name]).Overflow?
  }

  /** Why binding stops at parameter `i`. */
  ghost predicate FailsAt(env: Env, params: seq<Param>, args: Kwargs, i: nat, exn: Exn) {
    && FirstFailure(env, params, args, i)
    && exn == ValidationError(env, params[i], Validate(env, params[i], args[params[i].name]))
  }

  lemma {:induction false} BindEachFails(env: Env, params: seq<Param>, args: Kwargs)
    ensures var b := BindEach(env, params, args);
      b.Unbound? ==> exists i: nat :: FailsAt(env, params, args, i, b.exn)
  {
    if |params| > 0 && BindEach(env, params, args).Unbound? {
      var p, rest := params[0], params[1..];
      if p.name in args && !Validate(env, p, args[p.name]).Accept? {
        assert FailsAt(env, params, args, 0, BindEach(env, params, args).exn);
      } else {
        BindEachFails(env, rest, args);
        var exn := BindEach(env, rest, args).exn;
        var i: nat :| FailsAt(env, rest, args, i, exn);
        assert params[..i + 1] == [p] + rest[..i];
        assert FailsAt(env, params, args, i + 1, exn);
      }
    }
  }

  lemma ConvertsBefore(env: Env, params: seq<Param>, args: Kwargs, i: nat, j: nat)
    requires i < j <= |params| && ValuesConvert(env, params[..j], args)
    ensures params[i].name in args ==> Validate(env, params[i], args[params[i].name]).Accept?
  {
    assert params[..j][i] == params[i];
  }

  lemma FirstFailureIsOne(env: Env, params: seq<Param>, args: Kwargs, i: nat, j: nat)
    requires FirstFailure(env, params, args, i) && FirstFailure(env, params, args, j)
    ensures i == j
  {
    if i < j {
      ConvertsBefore(env, params, args, i, j);
    } else if j < i {
      ConvertsBefore(env, params, args, j, i);
    }
  }

  /** Only one parameter is the first to fail, so the exception says which: OtherExn exactly for an overflow. */
  lemma FailureIsUnique(env: Env, params: seq<Param>, args: Kwargs, i: nat, exn: Exn)
    requires FailsAt(env, params, args, i, exn)
    ensures exn == OtherExn <==> Overflows(env, params, args)
    ensures exn != OtherExn ==> exn.RpcExn? && exn.code == INVALID_PARAMS
  {
    if Overflows(env, params, args) {
      var j: nat :| j < |params| && FirstFailure(env, params, args, j)
                    && Validate(env, params[j], args[params[j].name]).Overflow?;
      FirstFailureIsOne(env, params, args, i, j);
    }
  }

  /** The arguments the tool receives: the keys sent, each value converted to its own annotation. */
  predicate BoundTo(env: Env, params: seq<Param>, args: Kwargs, kwargs: Kwargs) {
    && (forall n :: n in kwargs ==> n in args && exists i :: 0 <= i < |params| && params[i].name == n)
    && (forall i :: 0 <= i < |params| && params[i].name in args ==>
          params[i].name in kwargs
          && Validate(env, params[i], args[params[i].name]) == Accept(kwargs[params[i].name]))
  }

  lemma {:induction false} BindEachBinds(env: Env, params: seq<Param>, args: Kwargs)
    requires DistinctNames(params)
    ensures var b := BindEach(env, params, args);
      && (b.Bound? <==> ValuesConvert(env, params, args))
      && (b.Bound? ==> BoundTo(env, params, args, b.kwargs))
  {
    if |params| > 0 {
      var rest := params[1..];
      BindEachBinds(env, rest, args);
      assert params == [params[0]] + rest;
      assert forall i :: 0 <= i < |rest| ==> rest[i] == params[i + 1];
      assert ValuesConvert(env, params, args) <==>
        (params[0].name in args ==> Validate(env, params[0], args[params[0].name]).Accept?)
        && ValuesConvert(env, rest, args);
      var b, c := BindEach(env, params, args), BindEach(env, rest, args);
      if b.Bound? {
        forall n | n in b.kwargs ensures n in args && exists i :: 0 <= i < |params| && params[i].name == n {
          if n in c.kwargs {
            var i :| 0 <= i < |rest| && rest[i].name == n;
            assert params[i + 1].name == n;
          } else {
            assert params[0].name == n;
          }
        }
        forall i | 0 <= i < |params| && params[i].name in args
          ensures params[i].name in b.kwargs
          ensures Validate(env, params[i], args[params[i].name]) == Accept(b.kwargs[params[i].name])
        {
          if i > 0 {
            assert params[i] == rest[i - 1];
          }
        }
      }
    }
  }

  lemma KeysMatch(params: seq<Param>, fields: Kwargs)
    ensures fields.Keys - Names(params) == {} <==>
              forall n :: n in fields ==> exists i :: 0 <= i < |params| && params[i].name == n
    ensures Required(params) - fields.Keys == {} <==>
              forall i :: 0 <= i < |params| && !params[i].hasDefault ==> params[i].name in fields
    ensures fields.Keys - Names(params) == {} && Required(params) - fields.Keys == {} <==> KeysBind(params, fields)
  {
    if n :| n in fields.Keys - Names(params) {
      assert !exists i :: 0 <= i < |params| && params[i].name == n;
    } else {
      forall n | n in fields ensures n in Names(params) {
        assert n !in fields.Keys - Names(params);
      }
    }
    forall i | 0 <= i < |params| && !params[i].hasDefault && params[i].name !in fields
      ensures params[i].name in Required(params) - fields.Keys {}
  }

  /** Binding succeeds exactly when the parameters bind, and gives the converted values. */
  lemma BuildKwargsBinds(env: Env, params: seq<Param>, args: Json)
    requires DistinctNames(params)
    ensures var b := BuildKwargs(env, params, args);
      && (b.Bound? <==> Binds(env, params, args))
      && (b.Bound? ==> BoundTo(env, params, args.fields, b.kwargs) && b.kwargs.Keys == args.fields.Keys)
  {
    if args.JObj? {
      BindEachBinds(env, params, args.fields);
      KeysMatch(params, args.fields);
    }
  }

  /**
   Otherwise the failure is that of the params object, of its keys, or of the first value in
   signature order that does not convert. It is an internal error exactly when that first value
   is a number too large for a float.
   */
  lemma BuildKwargsFails(env: Env, params: seq<Param>, args: Json)
    requires BuildKwargs(env, params, args).Unbound?
    ensures var exn := BuildKwargs(env, params, args).exn;
      && (exn != OtherExn ==> exn.RpcExn? && exn.code == if args.JObj? then INVALID_PARAMS else INVALID_REQUEST)
      && (exn == OtherExn <==> args.JObj? && KeysBind(params, args.fields) && Overflows(env, params, args.fields))
      && (args.JObj? && KeysBind(params, args.fields) ==> exists i: nat :: FailsAt(env, params, args.fields, i, exn))
  {
    if args.JObj? {
      KeysMatch(params, args.fields);
      if KeysBind(params, args.fields) {
        var exn := BindEach(env, params, args.fields).exn;
        BindEachFails(env, params, args.fields);
        var i: nat :| FailsAt(env, params, args.fields, i, exn);
        FailureIsUnique(env, params, args.fields, i, exn);
      }
    }
  }

  /** An integer too large for a float parameter is not reported as invalid parameters. */
  lemma OverflowIsInternal(env: Env, name: string, n: int)
    requires env.lib.toFloat(n).None?
    ensures var params := [Param(name, PositionalOrKeyword, false, Resolved(FloatT))];
      BuildKwargs(env, params, JObj(map[name := JInt(n)])) == Unbound(OtherExn)
  {
    var params := [Param(name, PositionalOrKeyword, false, Resolved(FloatT))];
    var args := map[name := JInt(n)];
    assert params[0].name == name;
    KeysMatch(params, args);
    assert Strip(FloatT) == (FloatT, []);
    assert Validate(env, params[0], args[name]) == Overflow;
  }

  /** Where nothing is known of the type, or it is `Any`, the value passes untouched. */
  lemma UntypedPassesThrough(env: Env, p: Param, v: Json)
    requires p.hint == Unresolved || p.hint == Resolved(AnyT)
    ensures Validate(env, p, v) == Accept(v)
  {
    if p.hint.Resolved? {
      BareUnfolds(env.lib, v, AnyT);
    }
  }

  /** A bound argument has the type its parameter declares. */
  lemma BoundValuesConform(env: Env, params: seq<Param>, args: Kwargs, kwargs: Kwargs, i: nat)
    requires BoundTo(env, params, args, kwargs)
    requires i < |params| && params[i].name in args && params[i].hint.Resolved?
    ensures Admits(kwargs[params[i].name], params[i].hint.ann)
    ensures NaNFree(kwargs[params[i].name]) ==> Conforms(kwargs[params[i].name], params[i].hint.ann)
  {
    CoerceAdmits(env.lib, args[params[i].name], params[i].hint.ann);
    AdmitsIsConforms(kwargs[params[i].name], params[i].hint.ann);
  }

  // ----- dispatch -----

  /** The return annotation is a union that lists `None`. */
  predicate AllowsNull(t: Tool) {
    t.result.Resolved? && t.result.ann.UnionT? && NoneT in t.result.ann.members
  }

  /** The result is declared as a union that has `None` among its members. */
  ghost predicate DeclaresNull(t: Tool) {
    exists members: seq<Ann> :: t.result == Resolved(UnionT(members)) && NoneT in members
  }

  lemma AllowsNullExactly(t: Tool)
    ensures AllowsNull(t) <==> DeclaresNull(t)
  {
    if AllowsNull(t) {
      assert t.result == Resolved(UnionT(t.result.ann.members));
    }
  }

  /** What a caller gets when the tool gives `o`: null only where it is declared, and the marker elsewhere. */
  ghost predicate Forwards(t: Tool, o: ToolOutcome, answer: ToolOutcome) {
    if o != Returned(Plain(JNull)) then answer == o
    else if DeclaresNull(t) then answer == Returned(Plain(JNull))
    else answer == Returned(Plain(JObj(map["ok" := JBool(true)])))
  }

  /** `None` becomes the marker unless the method is registered as nullable. */
  function Substitute(o: ToolOutcome, nullable: bool): ToolOutcome {
    if o == Returned(Plain(JNull)) && !nullable then Returned(VOID_RESULT_MARKER) else o
  }

  function DispatchTool(env: Env, t: Tool, nullable: bool, params: Json): ToolOutcome {
    match BuildKwargs(env, t.params, params)
    case Bound(kwargs) => Substitute(t.body(kwargs), nullable)
    case Unbound(exn) => Raised(exn)
  }

  function NotFound(shown: string): Exn {
    RpcExn(METHOD_NOT_FOUND, "Method '" + shown + "' not found", Plain(JNull))
  }

  function Dispatch(env: Env, methods: map<string, Tool>, nullable: set<string>, name: string,
                    params: Json): ToolOutcome
  {
    if name !in methods then Raised(NotFound(name))
    else DispatchTool(env, methods[name], name in nullable, params)
  }

  class RPCRegistry {
    const env: Env
    var methods: map<string, Tool>
    var unsafe: set<string>
    var nullable: set<string>                       // `nullable_result`
    ghost var calls: seq<(string, Kwargs)>          // every run of a tool body

    ghost predicate Valid()
      reads this
    {
      && (forall n :: n in methods ==>
            && methods[n].name == n && DistinctNames(methods[n].params)
            && forall i :: 0 <= i < |methods[n].params| ==>
                 var p := methods[n].params[i];
                 (p.kind.PositionalOrKeyword? || p.kind.KeywordOnly?) && p.hint.Resolved?)
      && (forall n :: n in nullable <==> n in methods && DeclaresNull(methods[n]))
    }

    constructor (env: Env)
      ensures Valid() && this.env == env && methods == map[] && unsafe == {} && nullable == {} && calls == []
    {
      this.env := env;
      methods, unsafe, nullable, calls := map[], {}, {}, [];
    }

    /** Refused for a duplicate, a parameter with no wire form, or an annotation left unresolved. */
    predicate Registrable(t: Tool)
      reads this
    {
      && t.name !in methods
      && forall i :: 0 <= i < |t.params| ==>
           (t.params[i].kind.PositionalOrKeyword? || t.params[i].kind.KeywordOnly?) && t.params[i].hint.Resolved?
    }

    method Register(t: Tool) returns (ok: bool)
      requires Valid() && DistinctNames(t.params)
      modifies this
      ensures Valid() && ok == old(Registrable(t))
      ensures methods == if ok then old(methods)[t.name := t] else old(methods)
      ensures nullable == if ok && DeclaresNull(t) then old(nullable) + {t.name} else old(nullable)
      ensures unsafe == old(unsafe) && calls == old(calls)
    {
      if t.name in methods {
        return false;
      }
      for i := 0 to |t.params|
        invariant forall j :: 0 <= j < i ==> t.params[j].kind.PositionalOrKeyword? || t.params[j].kind.KeywordOnly?
      {
        if !(t.params[i].kind.PositionalOrKeyword? || t.params[i].kind.KeywordOnly?) {
          return false;
        }
      }
      if exists i :: 0 <= i < |t.params| && t.params[i].hint.Unresolved? {
        return false;
      }
      AllowsNullExactly(t);
      if AllowsNull(t) {
        nullable := nullable + {t.name};
      }
      methods := methods[t.name := t];
      return true;
    }

    method MarkUnsafe(name: string)
      modifies this`unsafe
      ensures unsafe == old(unsafe) + {name}
    {
      unsafe := unsafe + {name};
    }

    /**
     The tool runs exactly when the method exists and the parameters bind, once, on the
     bound arguments; in every other case the stated error comes back and nothing ran.
     */
    method Call(name: string, params: Json) returns (o: ToolOutcome)
      requires Valid()
      modifies this`calls
      ensures o == Dispatch(env, methods, nullable, name, params)
      ensures name in methods && Binds(env, methods[name].params, params) ==>
                && BuildKwargs(env, methods[name].params, params).Bound?
                && calls == old(calls) + [(name, BuildKwargs(env, methods[name].params, params).kwargs)]
                && Forwards(methods[name], methods[name].body(BuildKwargs(env, methods[name].params, params).kwargs), o)
      ensures !(name in methods && Binds(env, methods[name].params, params)) ==> calls == old(calls)
    {
      if name !in methods {
        return Raised(NotFound(name));
      }
      var t := methods[name];
      BuildKwargsBinds(env, t.params, params);
      match BuildKwargs(env, t.params, params)
      case Unbound(exn) =>
        return Raised(exn);
      case Bound(kwargs) =>
        calls := calls + [(name, kwargs)];
        o := t.body(kwargs);
        if o == Returned(Plain(JNull)) && name !in nullable {
          o := Returned(VOID_RESULT_MARKER);
        }
    }
  }

  /** A tool that gives `None` answers null if it is declared to, and the marker if it is not. */
  lemma NullOrMarker(env: Env, methods: map<string, Tool>, nullable: set<string>, name: string, params: Json)
    requires name in methods && DistinctNames(methods[name].params) && Binds(env, methods[name].params, params)
    requires name in nullable <==> DeclaresNull(methods[name])
    ensures BuildKwargs(env, methods[name].params, params).Bound?
    ensures Forwards(methods[name], methods[name].body(BuildKwargs(env, methods[name].params, params).kwargs),
                     Dispatch(env, methods, nullable, name, params))
  {
    BuildKwargsBinds(env, methods[name].params, params);
  }

  /** What a caller can tell from the outcome, for every method and every parameters. */
  lemma DispatchOutcome(env: Env, methods: map<string, Tool>, nullable: set<string>, name: string, params: Json)
    requires name in methods ==> DistinctNames(methods[name].params)
    ensures var o := Dispatch(env, methods, nullable, name, params);
      if name !in methods then o.Raised? && o.exn.RpcExn? && o.exn.code == -32601
      else if !params.JObj? then o.Raised? && o.exn.RpcExn? && o.exn.code == -32600
      else if !Binds(env, methods[name].params, params) then
        && o.Raised?
        && (o.exn == OtherExn <==>
              KeysBind(methods[name].params, params.fields) && Overflows(env, methods[name].params, params.fields))
        && (o.exn != OtherExn ==> o.exn.RpcExn? && o.exn.code == -32602)
      else exists kwargs: Kwargs ::
             && kwargs.Keys == params.fields.Keys && BoundTo(env, methods[name].params, params.fields, kwargs)
             && (o == methods[name].body(kwargs)
                 || (o == Returned(VOID_RESULT_MARKER) && name !in nullable
                     && methods[name].body(kwargs) == Returned(Plain(JNull))))
             && (o == Returned(Plain(JNull)) ==> name in nullable)
  {
    if name in methods {
      BuildKwargsBinds(env, methods[name].params, params);
      if BuildKwargs(env, methods[name].params, params).Unbound? {
        BuildKwargsFails(env, methods[name].params, params);
      }
    }
  }
}

/**
 The sidecar directory (plugin/session.py).

 The directory is a map from file names to what a reader finds in them. Each method is one
 call with no write in flight. The module promises that unreadable sidecars are dropped, but
 `_load` lets some exceptions through and so does the pid probe: these files raise out of
 every reader, and that is kept.
 */
module SidecarStore {
  import opened Prelude
  import opened Json
  import opened Coercion

  datatype SessionInfo = SessionInfo(
    sessionId: string, host: string, port: int, pid: int, idbPath: string, inputFile: string, createdAt: Float)

  /**
   What a file holds: bytes that are not UTF-8, text that is not JSON, text on which `json.loads`
   raises something else (an integer of too many digits, too deep a nesting), or a value.
   */
  datatype Content = NotText | NotJson | Refused | Holds(json: Json)

  datatype Entry = File(content: Content) | Directory

  type Files = map<string, Entry>

  /** `int`, `float` and `str` of the standard library, and the processes of the machine. */
  datatype Host = Host(lib: Lib, show: Json -> string, live: set<int>, posix: bool)

  const SUFFIX := ".json"
  const MAX_PID := 0x7FFF_FFFF   // of a C `pid_t`

  function FileName(id: string): string {
    id + SUFFIX
  }

  /** `child.suffix == ".json"`: a bare ".json" has no suffix. */
  predicate HasSuffix(name: string) {
    |name| > |SUFFIX| && name[|name| - |SUFFIX|..] == SUFFIX
  }

  predicate IsSidecar(files: Files, name: string) {
    name in files && files[name].File? && HasSuffix(name)
  }

  // ----- from JSON to a record -----

  /** A conversion: its value, an exception that `_load` catches, or one that it does not. */
  datatype Got<T> = Got(value: T) | Caught | Uncaught

  function Truncated(r: real): int {
    if r >= 0.0 then r.Floor else -((-r).Floor)
  }

  /** `int(value)`: an infinity is an OverflowError, a NaN a ValueError. */
  function ToInt(m: Host, v: Json): Got<int> {
    match v
    case JBool(b) => Got(if b then 1 else 0)
    case JInt(n) => Got(n)
    case JFloat(Finite(r)) => Got(Truncated(r))
    case JFloat(Infinite(_)) => Uncaught
    case JFloat(NaN) => Caught
    case JStr(s) => (match m.lib.parseInt(s) case Some(n) => Got(n) case None => Caught)
    case _ => Caught
  }

  /** `float(value)`: too large an integer is an OverflowError. */
  function ToFloat(m: Host, v: Json): Got<Float> {
    match v
    case JBool(b) => Got(Finite(if b then 1.0 else 0.0))
    case JInt(n) => (match m.lib.toFloat(n) case Some(f) => Got(f) case None => Uncaught)
    case JFloat(f) => Got(f)
    case JStr(s) => (match m.lib.parseFloat(s) case Some(f) => Got(f) case None => Caught)
    case _ => Caught
  }

  datatype Loaded = Info(info: SessionInfo) | Broken | Escapes

  /** `from_dict`, field by field in the order in which it evaluates them. */
  function FromDict(m: Host, v: Json): Loaded {
    if !v.JObj? || "session_id" !in v.fields || "host" !in v.fields || "port" !in v.fields then Broken
    else
      match ToInt(m, v.fields["port"])
      case Caught => Broken
      case Uncaught => Escapes
      case Got(port) =>
        if "pid" !in v.fields then Broken
        else
          match ToInt(m, v.fields["pid"])
          case Caught => Broken
          case Uncaught => Escapes
          case Got(pid) =>
            if "idb_path" !in v.fields || "input_file" !in v.fields || "created_at" !in v.fields then Broken
            else
              match ToFloat(m, v.fields["created_at"])
              case Caught => Broken
              case Uncaught => Escapes
              case Got(createdAt) =>
                Info(SessionInfo(m.show(v.fields["session_id"]), m.show(v.fields["host"]), port, pid,
                                 m.show(v.fields["idb_path"]), m.show(v.fields["input_file"]), createdAt))
  }

  /** `asdict`. */
  function ToDict(info: SessionInfo): Json {
    JObj(map["session_id" := JStr(info.sessionId), "host" := JStr(info.host), "port" := JInt(info.port),
             "pid" := JInt(info.pid), "idb_path" := JStr(info.idbPath), "input_file" := JStr(info.inputFile),
             "created_at" := JFloat(info.createdAt)])
  }

  /** `int` of a float is the integer nearest to it on the side of zero. */
  lemma TruncatedTowardsZero(m: Host, r: real)
    ensures ToInt(m, JFloat(Finite(r))).Got?
    ensures var n := ToInt(m, JFloat(Finite(r))).value as real;
      if r >= 0.0 then 0.0 <= n <= r < n + 1.0 else n - 1.0 < r <= n <= 0.0
  {}

  /** What is written is what is read. */
  lemma WrittenLoads(m: Host, info: SessionInfo)
    requires forall s: string :: m.show(JStr(s)) == s
    ensures FromDict(m, ToDict(info)) == Info(info)
  {
    var fields := ToDict(info).fields;
    assert fields["session_id"] == JStr(info.sessionId) && fields["host"] == JStr(info.host);
    assert fields["port"] == JInt(info.port) && fields["pid"] == JInt(info.pid);
    assert fields["idb_path"] == JStr(info.idbPath) && fields["input_file"] == JStr(info.inputFile);
    assert fields["created_at"] == JFloat(info.createdAt);
  }

  /** A number that JSON text can spell and `int` cannot take. */
  predicate HasInfinity(fields: map<string, Json>, key: string) {
    key in fields && fields[key].JFloat? && fields[key].f.Infinite?
  }

  predicate HasInt(m: Host, fields: map<string, Json>, key: string) {
    key in fields && ToInt(m, fields[key]).Got?
  }

  /**
   The records on which `from_dict` raises an OverflowError: what is evaluated before is there and
   converts, and the port or the pid is infinite or the creation time an integer too large.
   */
  predicate RecordOverflows(m: Host, v: Json) {
    && v.JObj? && "session_id" in v.fields && "host" in v.fields
    && (|| HasInfinity(v.fields, "port")
        || (HasInt(m, v.fields, "port") && HasInfinity(v.fields, "pid"))
        || (&& HasInt(m, v.fields, "port") && HasInt(m, v.fields, "pid")
            && "idb_path" in v.fields && "input_file" in v.fields && "created_at" in v.fields
            && v.fields["created_at"].JInt? && m.lib.toFloat(v.fields["created_at"].n).None?))
  }

  lemma EscapesExactly(m: Host, v: Json)
    ensures FromDict(m, v).Escapes? <==> RecordOverflows(m, v)
  {}

  // ----- what a reader makes of a file -----

  datatype ReadError = UnicodeError | LoadsError | OverflowError

  datatype Seen = Live(info: SessionInfo) | Dead | Malformed | Raises(error: ReadError)

  /** `_load` and then `is_pid_alive`, which is false of pids that are not positive. */
  function Look(m: Host, c: Content): Seen {
    match c
    case NotText => Raises(UnicodeError)
    case NotJson => Malformed
    case Refused => Raises(LoadsError)
    case Holds(v) =>
      match FromDict(m, v)
      case Broken => Malformed
      case Escapes => Raises(OverflowError)
      case Info(info) =>
        if info.pid <= 0 then Dead
        else if m.posix && info.pid > MAX_PID then Raises(OverflowError)
        else if info.pid in m.live then Live(info)
        else Dead
  }

  /** The record is fine but its pid does not fit the probe. */
  predicate PidOverflows(m: Host, v: Json) {
    m.posix && FromDict(m, v).Info? && FromDict(m, v).info.pid > MAX_PID
  }

  /** A sidecar raises out of its readers exactly in these cases. */
  lemma RaisesExactly(m: Host, c: Content)
    ensures Look(m, c).Raises? <==>
              c.NotText? || c.Refused? || (c.Holds? && (RecordOverflows(m, c.json) || PidOverflows(m, c.json)))
  {
    if c.Holds? {
      EscapesExactly(m, c.json);
    }
  }

  function Sample(port: Json, pid: Json, createdAt: Json): Json {
    JObj(map["session_id" := JStr("s"), "host" := JStr("h"), "port" := port, "pid" := pid,
             "idb_path" := JStr(""), "input_file" := JStr(""), "created_at" := createdAt])
  }

  /** Three files of valid JSON on which a reader raises. */
  lemma ReadersRaise(m: Host, n: int)
    requires m.lib.toFloat(n).None? && m.posix
    ensures Look(m, Holds(Sample(JFloat(Infinite(false)), JInt(7), JInt(0)))) == Raises(OverflowError)
    ensures Look(m, Holds(Sample(JInt(1), JInt(7), JInt(n)))) == Raises(OverflowError)
    ensures Look(m, Holds(Sample(JInt(1), JInt(0x8000_0000), JFloat(Finite(0.0))))) == Raises(OverflowError)
  {}

  /** Only the number that a field stands for counts. */
  lemma SamePort(m: Host, v: Json, w: Json, pid: Json, at: Json)
    requires ToInt(m, v) == ToInt(m, w)
    ensures FromDict(m, Sample(v, pid, at)) == FromDict(m, Sample(w, pid, at))
    ensures ToInt(m, v).Caught? ==> FromDict(m, Sample(v, pid, at)).Broken?
  {}

  lemma SamePid(m: Host, n: int, v: Json, w: Json, at: Json)
    requires ToInt(m, v) == ToInt(m, w)
    ensures FromDict(m, Sample(JInt(n), v, at)) == FromDict(m, Sample(JInt(n), w, at))
    ensures ToInt(m, v).Caught? ==> FromDict(m, Sample(JInt(n), v, at)).Broken?
  {}

  lemma SameTime(m: Host, n: int, v: Json, w: Json)
    requires ToFloat(m, v) == ToFloat(m, w)
    ensures FromDict(m, Sample(JInt(n), JInt(n), v)) == FromDict(m, Sample(JInt(n), JInt(n), w))
    ensures ToFloat(m, v).Caught? ==> FromDict(m, Sample(JInt(n), JInt(n), v)).Broken?
  {}

  /** Truth values count as numbers. */
  lemma TruthValuesAreNumbers(m: Host, b: bool, n: int, at: Json)
    ensures FromDict(m, Sample(JBool(b), JInt(n), at)) == FromDict(m, Sample(JInt(if b then 1 else 0), JInt(n), at))
    ensures FromDict(m, Sample(JInt(n), JBool(b), at)) == FromDict(m, Sample(JInt(n), JInt(if b then 1 else 0), at))
    ensures FromDict(m, Sample(JInt(n), JInt(n), JBool(b)))
         == FromDict(m, Sample(JInt(n), JInt(n), JFloat(Finite(if b then 1.0 else 0.0))))
  {
    SamePort(m, JBool(b), JInt(if b then 1 else 0), JInt(n), at);
    SamePid(m, n, JBool(b), JInt(if b then 1 else 0), at);
    SameTime(m, n, JBool(b), JFloat(Finite(if b then 1.0 else 0.0)));
  }

  /** Text counts as far as Python parses it, and breaks the record otherwise. */
  lemma TextIsParsed(m: Host, s: string, n: int, at: Json)
    ensures match m.lib.parseInt(s)
            case Some(k) =>
              && FromDict(m, Sample(JStr(s), JInt(n), at)) == FromDict(m, Sample(JInt(k), JInt(n), at))
              && FromDict(m, Sample(JInt(n), JStr(s), at)) == FromDict(m, Sample(JInt(n), JInt(k), at))
            case None =>
              FromDict(m, Sample(JStr(s), JInt(n), at)).Broken? && FromDict(m, Sample(JInt(n), JStr(s), at)).Broken?
    ensures match m.lib.parseFloat(s)
            case Some(x) =>
              FromDict(m, Sample(JInt(n), JInt(n), JStr(s))) == FromDict(m, Sample(JInt(n), JInt(n), JFloat(x)))
            case None => FromDict(m, Sample(JInt(n), JInt(n), JStr(s))).Broken?
  {
    var k := match m.lib.parseInt(s) case Some(k) => JInt(k) case None => JStr(s);
    SamePort(m, JStr(s), k, JInt(n), at);
    SamePid(m, n, JStr(s), k, at);
    SameTime(m, n, JStr(s), match m.lib.parseFloat(s) case Some(x) => JFloat(x) case None => JStr(s));
  }

  /** The greatest pid that can be probed, in numbers. */
  lemma GreatestPid(m: Host, n: int)
    ensures Look(m, Holds(Sample(JInt(1), JInt(n), JFloat(Finite(0.0))))).Raises? <==> m.posix && n > 2_147_483_647
  {}

  /** The live sidecar of a file, if it is one. */
  function LiveInfo(m: Host, files: Files, name: string): Option<SessionInfo> {
    if name in files && files[name].File? && Look(m, files[name].content).Live?
    then Some(Look(m, files[name].content).info) else None
  }

  predicate IsLive(m: Host, files: Files, name: string) {
    HasSuffix(name) && LiveInfo(m, files, name).Some?
  }

  predicate Readable(m: Host, files: Files) {
    forall name :: name in files && IsSidecar(files, name) ==> !Look(m, files[name].content).Raises?
  }

  /** The directory once every stale or malformed sidecar has been dropped. */
  function Swept(m: Host, files: Files): Files {
    map name | name in files && (IsSidecar(files, name) ==> IsLive(m, files, name)) :: files[name]
  }

  function Lookup(m: Host, files: Files, id: string): Option<SessionInfo> {
    LiveInfo(m, files, FileName(id))
  }

  datatype Named = Named(name: string, info: SessionInfo)

  /** `r` lists the live sidecars among `scope`, each once. */
  ghost predicate Enumerates(m: Host, r: seq<Named>, files: Files, scope: set<string>) {
    && (forall i, j :: 0 <= i < j < |r| ==> r[i].name != r[j].name)
    && (forall i :: 0 <= i < |r| ==>
          r[i].name in scope && IsLive(m, files, r[i].name) && LiveInfo(m, files, r[i].name) == Some(r[i].info))
    && (forall name :: name in scope && IsLive(m, files, name) ==> exists i :: 0 <= i < |r| && r[i].name == name)
  }

  function Infos(r: seq<Named>): (s: seq<SessionInfo>)
    ensures |s| == |r| && forall i :: 0 <= i < |r| ==> s[i] == r[i].info
  {
    seq(|r|, i requires 0 <= i < |r| => r[i].info)
  }

  // ----- sorting by creation time -----

  /** Python's `a <= b`: false where either is a NaN. */
  predicate AtMost(a: Float, b: Float) {
    match (a, b)
    case (NaN, _) => false
    case (_, NaN) => false
    case (Infinite(negative), Infinite(other)) => negative || !other
    case (Infinite(negative), _) => negative
    case (_, Infinite(negative)) => !negative
    case (Finite(x), Finite(y)) => x <= y
  }

  predicate Sorted(r: seq<Named>) {
    forall i, j :: 0 <= i < j < |r| ==> AtMost(r[i].info.createdAt, r[j].info.createdAt)
  }

  predicate Timed(r: seq<Named>) {
    forall i :: 0 <= i < |r| ==> !r[i].info.createdAt.NaN?
  }

  lemma AtMostIsTotal(a: Float, b: Float, c: Float)
    requires !a.NaN? && !b.NaN? && !c.NaN?
    ensures AtMost(a, b) || AtMost(b, a)
    ensures AtMost(a, b) && AtMost(b, c) ==> AtMost(a, c)
  {}

  function Insert(x: Named, s: seq<Named>): (r: seq<Named>)
    ensures multiset(r) == multiset(s) + multiset{x}
  {
    if |s| == 0 || AtMost(x.info.createdAt, s[0].info.createdAt) then [x] + s
    else
      assert s == [s[0]] + s[1..];
      [s[0]] + Insert(x, s[1..])
  }

  /** The creation time comes before all of these. */
  predicate Before(x: Named, s: seq<Named>) {
    forall i :: 0 <= i < |s| ==> AtMost(x.info.createdAt, s[i].info.createdAt)
  }

  lemma ConsSorted(x: Named, s: seq<Named>)
    requires Sorted(s) && Timed(s) && !x.info.createdAt.NaN? && Before(x, s)
    ensures Sorted([x] + s) && Timed([x] + s)
  {
    var r := [x] + s;
    assert forall i :: 0 < i < |r| ==> r[i] == s[i - 1];
  }

  lemma HeadBefore(x: Named, s: seq<Named>)
    requires Sorted(s) && Timed(s) && !x.info.createdAt.NaN?
    requires |s| > 0 && AtMost(x.info.createdAt, s[0].info.createdAt)
    ensures Before(x, s)
  {
    forall j | 0 < j < |s| ensures AtMost(x.info.createdAt, s[j].info.createdAt) {
      AtMostIsTotal(x.info.createdAt, s[0].info.createdAt, s[j].info.createdAt);
    }
  }

  lemma BeforeInserted(y: Named, x: Named, s: seq<Named>)
    requires AtMost(y.info.createdAt, x.info.createdAt) && Before(y, s)
    ensures Before(y, Insert(x, s))
  {
    var r := Insert(x, s);
    forall i | 0 <= i < |r| ensures AtMost(y.info.createdAt, r[i].info.createdAt) {
      assert r[i] in multiset(s) + multiset{x};
      assert r[i] == x || r[i] in s;
    }
  }

  lemma {:induction false} InsertKeepsSorted(x: Named, s: seq<Named>)
    requires Sorted(s) && Timed(s) && !x.info.createdAt.NaN?
    ensures Sorted(Insert(x, s)) && Timed(Insert(x, s))
  {
    if |s| == 0 {
      ConsSorted(x, s);
    } else if AtMost(x.info.createdAt, s[0].info.createdAt) {
      HeadBefore(x, s);
      ConsSorted(x, s);
    } else {
      AtMostIsTotal(s[0].info.createdAt, x.info.createdAt, x.info.createdAt);
      InsertKeepsSorted(x, s[1..]);
      BeforeInserted(s[0], x, s[1..]);
      ConsSorted(s[0], Insert(x, s[1..]));
    }
  }

  /** A permutation, sorted if every creation time can be compared. */
  function SortByCreation(s: seq<Named>): (r: seq<Named>)
    ensures multiset(r) == multiset(s)
    ensures Timed(s) ==> Sorted(r) && Timed(r)
  {
    if |s| == 0 then []
    else
      assert s == [s[0]] + s[1..];
      var rest := SortByCreation(s[1..]);
      assert Timed(s) ==> Timed(s[1..]) && !s[0].info.createdAt.NaN?;
      assert Timed(s) ==> Sorted(Insert(s[0], rest)) && Timed(Insert(s[0], rest)) by {
        if Timed(s) {
          InsertKeepsSorted(s[0], rest);
        }
      }
      Insert(s[0], rest)
  }

  /** With a NaN among several creation times no order is sorted. */
  lemma SortedExactly(r: seq<Named>)
    requires Timed(r) ==> Sorted(r)
    ensures Sorted(r) <==> |r| <= 1 || Timed(r)
  {
    if i :| 0 <= i < |r| && r[i].info.createdAt.NaN? {
      if i > 0 {
        assert !AtMost(r[0].info.createdAt, r[i].info.createdAt);
      } else if |r| > 1 {
        assert !AtMost(r[0].info.createdAt, r[1].info.createdAt);
      }
    }
  }

  lemma {:induction false} CountOfDistinct(s: seq<Named>, x: Named)
    requires forall i, j :: 0 <= i < j < |s| ==> s[i] != s[j]
    ensures multiset(s)[x] <= 1
  {
    if |s| > 0 {
      assert s == [s[0]] + s[1..];
      CountOfDistinct(s[1..], x);
      if s[0] == x {
        assert x !in s[1..];
      }
    }
  }

  lemma CountOfRepeated(s: seq<Named>, i: nat, j: nat)
    requires i < j < |s| && s[i] == s[j]
    ensures multiset(s)[s[i]] >= 2
  {
    assert s == s[..i] + [s[i]] + s[i + 1..j] + [s[j]] + s[j + 1..];
  }

  /** A rearrangement of an enumeration is one. */
  lemma EnumeratesPermuted(a: seq<Named>, b: seq<Named>, m: Host, files: Files, scope: set<string>)
    requires Enumerates(m, a, files, scope) && multiset(a) == multiset(b)
    ensures Enumerates(m, b, files, scope)
  {
    forall i | 0 <= i < |b| ensures b[i] in a {
      assert b[i] in multiset(b);
    }
    forall i | 0 <= i < |a| ensures a[i] in b {
      assert a[i] in multiset(a);
    }
    forall i, j | 0 <= i < j < |b| ensures b[i].name != b[j].name {
      if b[i].name == b[j].name {
        CountOfRepeated(b, i, j);
        CountOfDistinct(a, b[i]);
      }
    }
  }

  // ----- the directory -----

  /** What a listing answers and leaves. */
  ghost predicate Listing(m: Host, before: Files, r: Result<seq<SessionInfo>, ReadError>, after: Files) {
    && (r.Ok? <==> Readable(m, before))
    && (r.Ok? ==> after == Swept(m, before))
    && (r.Ok? ==> exists named: seq<Named> ::
                    && Enumerates(m, named, before, before.Keys) && r.value == Infos(named)
                    && (Sorted(named) <==> |named| <= 1 || Timed(named)))
    && Kept(m, before, after)
  }

  class SessionStore {
    const machine: Host
    var files: Files

    /** Nothing half-written is ever seen: the file appears by rename, unless a directory is in the way. */
    method Write(info: SessionInfo) returns (ok: bool)
      modifies this`files
      ensures ok <==> !(FileName(info.sessionId) in old(files) && old(files)[FileName(info.sessionId)].Directory?)
      ensures files == if ok then old(files)[FileName(info.sessionId) := File(Holds(ToDict(info)))] else old(files)
    {
      var target := FileName(info.sessionId);
      if target in files && files[target].Directory? {
        return false;
      }
      files := files[target := File(Holds(ToDict(info)))];
      return true;
    }

    /** Missing files are not an error, and what cannot be unlinked stays. */
    method Remove(id: string)
      modifies this`files
      ensures files == if FileName(id) in old(files) && old(files)[FileName(id)].File?
                       then old(files) - {FileName(id)} else old(files)
    {
      if FileName(id) in files && files[FileName(id)].File? {
        files := files - {FileName(id)};
      }
    }

    method Get(id: string) returns (r: Result<Option<SessionInfo>, ReadError>)
      modifies this`files
      ensures r.Err? <==> FileName(id) in old(files) && old(files)[FileName(id)].File?
                          && Look(machine, old(files)[FileName(id)].content).Raises?
      ensures r.Err? ==> Look(machine, old(files)[FileName(id)].content) == Raises(r.error)
      ensures r.Ok? ==> r.value == Lookup(machine, old(files), id)
      // only the sidecar of a dead process is deleted
      ensures files == if FileName(id) in old(files) && old(files)[FileName(id)].File?
                          && Look(machine, old(files)[FileName(id)].content).Dead?
                       then old(files) - {FileName(id)} else old(files)
    {
      var name := FileName(id);
      if name !in files || files[name].Directory? {
        return Ok(None);
      }
      match Look(machine, files[name].content) {
        case Raises(error) => return Err(error);
        case Malformed => return Ok(None);
        case Dead =>
          Remove(id);
          return Ok(None);
        case Live(info) => return Ok(Some(info));
      }
    }

    /** The loop over the directory, in whatever order it is read. */
    method Scan() returns (r: Result<seq<Named>, ReadError>)
      modifies this`files
      ensures r.Ok? <==> Readable(machine, old(files))
      ensures r.Ok? ==> files == Swept(machine, old(files)) && Enumerates(machine, r.value, old(files), old(files).Keys)
      ensures Kept(machine, old(files), files)
    {
      ghost var before := files;
      var pending := set name | name in files && IsSidecar(files, name);
      ghost var scope: set<string> := {};
      var found: seq<Named> := [];
      while pending != {}
        invariant forall name :: name in before && IsSidecar(before, name) <==> name in scope || name in pending
        invariant scope !! pending
        invariant Scanned(machine, before, files, scope)
        invariant Enumerates(machine, found, before, scope)
        decreases pending
      {
        var name :| name in pending;
        match Look(machine, files[name].content) {
          case Raises(error) =>
            assert IsSidecar(before, name);
            ScannedKeeps(machine, before, files, scope);
            return Err(error);
          case Live(info) =>
            EnumeratesMore(machine, found, before, scope, name);
            found := found + [Named(name, info)];
          case _ =>
            EnumeratesStill(machine, found, before, scope, name);
            files := files - {name};
        }
        scope := scope + {name};
        pending := pending - {name};
      }
      ScannedAll(machine, before, files, scope);
      EnumeratesAll(machine, found, before, scope);
      return Ok(found);
    }

    /** All live sidecars, oldest first, and the rest swept away. */
    method ListAll() returns (r: Result<seq<SessionInfo>, ReadError>)
      modifies this`files
      ensures Listing(machine, old(files), r, files)
    {
      var found := Scan();
      if found.Err? {
        return Err(found.error);
      }
      var sorted := SortByCreation(found.value);
      EnumeratesPermuted(found.value, sorted, machine, old(files), old(files).Keys);
      SortKeepsTimed(found.value);
      SortedExactly(sorted);
      return Ok(Infos(sorted));
    }
  }

  /** The files of `scope` have been looked at, and the dead and malformed ones among them are gone. */
  ghost predicate Scanned(m: Host, before: Files, now: Files, scope: set<string>) {
    && (forall name :: name in scope ==> IsSidecar(before, name) && !Look(m, before[name].content).Raises?)
    && (forall name :: name in now <==> name in before && (name in scope ==> IsLive(m, before, name)))
    && (forall name :: name in now ==> now[name] == before[name])
  }

  /** Nothing live and nothing else has been touched. */
  ghost predicate Kept(m: Host, before: Files, now: Files) {
    && (forall name :: name in now ==> name in before && now[name] == before[name])
    && (forall name :: name in Swept(m, before) ==> name in now)
  }

  lemma ScannedKeeps(m: Host, before: Files, now: Files, scope: set<string>)
    requires Scanned(m, before, now, scope)
    ensures Kept(m, before, now)
  {}

  lemma ScannedAll(m: Host, before: Files, now: Files, scope: set<string>)
    requires Scanned(m, before, now, scope)
    requires forall name :: name in before && IsSidecar(before, name) <==> name in scope
    ensures Readable(m, before) && now == Swept(m, before) && Kept(m, before, now)
  {}

  lemma EnumeratesStill(m: Host, r: seq<Named>, files: Files, scope: set<string>, name: string)
    requires Enumerates(m, r, files, scope) && !IsLive(m, files, name)
    ensures Enumerates(m, r, files, scope + {name})
  {}

  lemma EnumeratesAll(m: Host, r: seq<Named>, files: Files, scope: set<string>)
    requires Enumerates(m, r, files, scope) && scope <= files.Keys
    requires forall name :: name in files && IsSidecar(files, name) <==> name in scope
    ensures Enumerates(m, r, files, files.Keys)
  {
    forall name | name in files.Keys && IsLive(m, files, name) ensures exists i :: 0 <= i < |r| && r[i].name == name {
      assert IsSidecar(files, name) && name in scope;
    }
  }

  lemma SortKeepsTimed(s: seq<Named>)
    ensures Timed(SortByCreation(s)) ==> Timed(s)
  {
    forall i | 0 <= i < |s| && Timed(SortByCreation(s)) ensures !s[i].info.createdAt.NaN? {
      assert s[i] in multiset(SortByCreation(s));
    }
  }

  lemma EnumeratesMore(m: Host, r: seq<Named>, files: Files, scope: set<string>, name: string)
    requires Enumerates(m, r, files, scope) && name !in scope && IsLive(m, files, name)
    ensures Enumerates(m, r + [Named(name, LiveInfo(m, files, name).value)], files, scope + {name})
  {
    var longer := r + [Named(name, LiveInfo(m, files, name).value)];
    forall n | n in scope + {name} && IsLive(m, files, n)
      ensures exists i :: 0 <= i < |longer| && longer[i].name == n
    {
      if n == name {
        assert longer[|r|].name == n;
      } else {
        var i :| 0 <= i < |r| && r[i].name == n;
        assert longer[i].name == n;
      }
    }
  }

  // ----- only running sessions, oldest first -----

  /** A session is found, or listed, only while the process it records is running. */
  lemma OnlyRunningAreFound(m: Host, files: Files, id: string)
    ensures Lookup(m, files, id).Some? ==>
              var pid := Lookup(m, files, id).value.pid; pid > 0 && pid in m.live
  {}

  lemma OnlyRunningAreListed(m: Host, named: seq<Named>, files: Files, scope: set<string>, i: nat)
    requires Enumerates(m, named, files, scope) && i < |named|
    ensures named[i].info.pid > 0 && named[i].info.pid in m.live && named[i].name in files
    ensures |named[i].name| > 5 && named[i].name[|named[i].name| - 5..] == ".json"
  {}

  /** A record of a process that does not run is neither, and a listing deletes it. */
  lemma DeadAreDropped(m: Host, files: Files, info: SessionInfo)
    requires forall s: string :: m.show(JStr(s)) == s
    requires info.pid <= MAX_PID && info.pid !in m.live && |info.sessionId| > 0
    ensures var now := files[FileName(info.sessionId) := File(Holds(ToDict(info)))];
      && Lookup(m, now, info.sessionId).None?
      && FileName(info.sessionId) !in Swept(m, now)
  {
    WrittenLoads(m, info);
    var name := FileName(info.sessionId);
    assert name[|name| - |SUFFIX|..] == SUFFIX;
  }

  /** So are files that hold no record, which a lookup leaves alone. */
  lemma MalformedAreDropped(m: Host, files: Files, id: string, c: Content)
    requires |id| > 0
    requires c.NotJson? || (c.Holds? && (!c.json.JObj? || "pid" !in c.json.fields || "port" !in c.json.fields))
    requires c.Holds? ==> !RecordOverflows(m, c.json)
    ensures Lookup(m, files[FileName(id) := File(c)], id).None?
    ensures FileName(id) !in Swept(m, files[FileName(id) := File(c)])
  {
    if c.Holds? {
      EscapesExactly(m, c.json);
    }
    var name := FileName(id);
    assert name[|name| - |SUFFIX|..] == SUFFIX;
  }

  /** What is no sidecar stays: directories, and files of another suffix. */
  lemma OthersStay(m: Host, files: Files, name: string)
    requires name in files
    requires files[name].Directory? || |name| <= 5 || name[|name| - 5..] != ".json"
    ensures name in Swept(m, files) && Swept(m, files)[name] == files[name]
  {}

  /** Sorted means that the times ascend: negative infinities first, then numbers, then positive infinities. */
  lemma SortedAscends(r: seq<Named>, i: nat, j: nat)
    requires Sorted(r) && i < j < |r|
    ensures match (r[i].info.createdAt, r[j].info.createdAt)
            case (Finite(x), Finite(y)) => x <= y
            case (Infinite(true), Infinite(_)) => true
            case (Infinite(true), Finite(_)) => true
            case (Finite(_), Infinite(negative)) => !negative
            case (Infinite(false), Infinite(negative)) => !negative
            case _ => false
  {
    assert AtMost(r[i].info.createdAt, r[j].info.createdAt);
  }

  // ----- listing against looking up -----

  /** Every live file bears the id it records. */
  ghost predicate NamedById(m: Host, files: Files) {
    forall name :: name in files && IsLive(m, files, name) ==>
      name == FileName(LiveInfo(m, files, name).value.sessionId)
  }

  /** `list_all` lists a session exactly when `get` finds it, and with the same record. */
  lemma ListedExactlyWhenFound(m: Host, named: seq<Named>, files: Files, id: string)
    requires NamedById(m, files) && Enumerates(m, named, files, files.Keys) && |id| > 0
    ensures Lookup(m, files, id).Some? <==> exists i :: 0 <= i < |named| && named[i].info.sessionId == id
    ensures forall i :: 0 <= i < |named| && named[i].info.sessionId == id ==>
              Lookup(m, files, id) == Some(named[i].info)
  {
    var name := FileName(id);
    assert HasSuffix(name);
    forall i | 0 <= i < |named| && named[i].info.sessionId == id
      ensures named[i].name == name && Lookup(m, files, id) == Some(named[i].info) {}
    if Lookup(m, files, id).Some? {
      assert IsLive(m, files, name);
      var i :| 0 <= i < |named| && named[i].name == name;
      NamesDetermineIds(named[i].info.sessionId, id);
    }
  }

  lemma NamesDetermineIds(id: string, other: string)
    requires FileName(id) == FileName(other)
    ensures id == other
  {
    assert |id| == |other|;
    assert FileName(id)[..|id|] == id && FileName(other)[..|other|] == other;
  }

  /** Listing again changes nothing: nothing more is swept, and the same sidecars are live. */
  lemma SweepingIsIdempotent(m: Host, files: Files)
    ensures Swept(m, Swept(m, files)) == Swept(m, files)
    ensures Readable(m, Swept(m, files))
    ensures forall named :: Enumerates(m, named, files, files.Keys) <==>
              Enumerates(m, named, Swept(m, files), Swept(m, files).Keys)
  {
    var swept := Swept(m, files);
    forall name ensures IsLive(m, swept, name) <==> IsLive(m, files, name) {}
    forall name ensures IsLive(m, files, name) ==> LiveInfo(m, swept, name) == LiveInfo(m, files, name) {}
    forall named | Enumerates(m, named, files, files.Keys) ensures Enumerates(m, named, swept, swept.Keys) {}
    forall named | Enumerates(m, named, swept, swept.Keys) ensures Enumerates(m, named, files, files.Keys) {}
  }

  /** Any two listings of one directory have the same entries. */
  lemma ListingsAgree(m: Host, a: seq<Named>, b: seq<Named>, files: Files)
    requires Enumerates(m, a, files, files.Keys) && Enumerates(m, b, files, files.Keys)
    ensures |a| == |b| && forall x :: x in a <==> x in b
  {
    forall x | x in a ensures x in b {
      var i :| 0 <= i < |b| && b[i].name == x.name;
      assert b[i] == x;
    }
    forall x | x in b ensures x in a {
      var i :| 0 <= i < |a| && a[i].name == x.name;
      assert a[i] == x;
    }
    SizeOfDistinct(a);
    SizeOfDistinct(b);
    assert (set x | x in a) == (set x | x in b);
  }

  lemma {:induction false} SizeOfDistinct(s: seq<Named>)
    requires forall i, j :: 0 <= i < j < |s| ==> s[i] != s[j]
    ensures |set x | x in s| == |s|
  {
    if |s| > 0 {
      SizeOfDistinct(s[1..]);
      assert s == [s[0]] + s[1..];
      assert (set x | x in s) == {s[0]} + (set x | x in s[1..]);
    }
  }

  /** One sidecar that raises makes every listing of its directory raise, whatever else is there. */
  lemma OneSidecarHidesAll(m: Host, files: Files, name: string, c: Content,
                           r: Result<seq<SessionInfo>, ReadError>, after: Files)
    requires HasSuffix(name) && Listing(m, files[name := File(c)], r, after)
    ensures c.NotText? || c.Refused? || (c.Holds? && (RecordOverflows(m, c.json) || PidOverflows(m, c.json))) ==> r.Err?
  {
    RaisesExactly(m, c);
    assert IsSidecar(files[name := File(c)], name);
  }

  /** What has been written is found, and what is listed includes it, while its process runs. */
  lemma WrittenIsFound(m: Host, files: Files, info: SessionInfo)
    requires forall s: string :: m.show(JStr(s)) == s
    requires 0 < info.pid <= MAX_PID && info.pid in m.live
    ensures Lookup(m, files[FileName(info.sessionId) := File(Holds(ToDict(info)))], info.sessionId) == Some(info)
  {
    WrittenLoads(m, info);
  }
}

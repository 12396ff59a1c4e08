/**
 The demangled-name cache (plugin/names.py), its invalidation registry (plugin/caches.py) and
 the database hooks that drive it (plugin/idb_hooks.py).

 The first half describes one cache as a value and proves what a run of renames, database
 switches and lookups can answer; the classes of the second half keep their fields equal to it.
 */
module NameCache {
  import opened Prelude
  import opened Text
  import opened Numerals

  // ----- the open database, as the plugin sees it -----

  /** A function and what `demangle_name` makes of its name. */
  datatype Function = Function(ea: int, demangled: Option<string>)

  /** `names` is the name table, `code` the addresses inside some function. */
  datatype Database = Database(
    path: Option<string>, functions: seq<Function>, names: map<string, int>, code: set<int>)

  datatype LookupError = EmptyTarget | NotFound(name: string)

  predicate IsNamed(f: Function, name: string) {
    f.demangled == Some(name) && |name| > 0
  }

  function BuildMap(functions: seq<Function>): map<string, int> {
    if |functions| == 0 then map[]
    else
      var m := BuildMap(functions[..|functions| - 1]);
      var last := functions[|functions| - 1];
      if last.demangled.Some? && |last.demangled.value| > 0 then m[last.demangled.value := last.ea] else m
  }

  /** The last function of that name, in the order of enumeration. */
  ghost predicate LastNamed(functions: seq<Function>, name: string, i: int) {
    && 0 <= i < |functions| && IsNamed(functions[i], name)
    && forall j :: i < j < |functions| ==> !IsNamed(functions[j], name)
  }

  /** The map holds exactly the non-empty demangled names. */
  lemma {:induction false} BuildMapHoldsNames(functions: seq<Function>, name: string)
    ensures name in BuildMap(functions) <==> exists i :: 0 <= i < |functions| && IsNamed(functions[i], name)
  {
    if |functions| > 0 {
      var init := functions[..|functions| - 1];
      BuildMapHoldsNames(init, name);
      assert functions == init + [functions[|init|]];
    }
  }

  /** Of several functions with one name, the map holds the last. */
  lemma {:induction false} BuildMapKeepsLast(functions: seq<Function>, name: string, i: int)
    requires LastNamed(functions, name, i)
    ensures name in BuildMap(functions) && BuildMap(functions)[name] == functions[i].ea
  {
    var init := functions[..|functions| - 1];
    if i < |init| {
      assert !IsNamed(functions[|init|], name);
      BuildMapKeepsLast(init, name, i);
    }
  }

  // ----- the cache as a value -----

  datatype Cache = Cache(key: Option<string>, mapping: map<string, int>)

  const EMPTY := Cache(None, map[])

  /** `get_input_file_path() or ""`. */
  function CurrentKey(db: Database): string {
    db.path.GetOr("")
  }

  function Refreshed(c: Cache, db: Database): Cache {
    if c.key == Some(CurrentKey(db)) then c else Cache(Some(CurrentKey(db)), BuildMap(db.functions))
  }

  /** Whether the fast path misses, so that the cache is dropped and built once more. */
  predicate Misses(c: Cache, db: Database, name: string) {
    name !in db.names && name !in Refreshed(c, db).mapping
  }

  function Answer(c: Cache, db: Database, name: string): Result<int, LookupError> {
    if name in db.names then Ok(db.names[name])
    else if !Misses(c, db, name) then Ok(Refreshed(c, db).mapping[name])
    else if name in BuildMap(db.functions) then Ok(BuildMap(db.functions)[name])
    else Err(NotFound(name))
  }

  function AfterLookup(c: Cache, db: Database, name: string): Cache {
    if name in db.names then c
    else if !Misses(c, db, name) then Refreshed(c, db)
    else Refreshed(EMPTY, db)
  }

  /** What a lookup that keeps no cache would say. */
  function Uncached(db: Database, name: string): Result<int, LookupError> {
    if name in db.names then Ok(db.names[name])
    else if name in BuildMap(db.functions) then Ok(BuildMap(db.functions)[name])
    else Err(NotFound(name))
  }

  ghost predicate Extends(small: map<string, int>, large: map<string, int>) {
    forall n :: n in small ==> n in large && large[n] == small[n]
  }

  /** A cache that would be used for this database holds nothing but what a rebuild would hold. */
  ghost predicate Sound(c: Cache, db: Database) {
    c.key == Some(CurrentKey(db)) ==> Extends(c.mapping, BuildMap(db.functions))
  }

  /** It is that rebuild. */
  ghost predicate Current(c: Cache, db: Database) {
    c.key == Some(CurrentKey(db)) ==> c.mapping == BuildMap(db.functions)
  }

  /** A name gets its uncached answer exactly when a cached entry that would be used is still right. */
  lemma AnswerIsUncachedExactlyWhen(c: Cache, db: Database, name: string)
    ensures Answer(c, db, name) == Uncached(db, name) <==>
              name in db.names || name !in Refreshed(c, db).mapping
              || (name in BuildMap(db.functions) && Refreshed(c, db).mapping[name] == BuildMap(db.functions)[name])
  {}

  // ----- runs -----

  /**
   What happens to the plugin. `Renamed` changes the database and then fires the `renamed` event,
   `Switched` fires `closebase` and then puts another database in place; `Silent` changes it
   without an event. Events reach the cache only while the hooks are installed.
   */
  datatype Event =
    | Install(hooks: bool)
    | Uninstall
    | Renamed(next: Database)
    | Switched(next: Database)
    | Silent(next: Database)
    | Lookup(name: string)

  datatype State = State(db: Database, cache: Cache, hooked: bool)

  function Start(db: Database): State {
    State(db, EMPTY, false)
  }

  function Step(s: State, e: Event): State {
    match e
    case Install(hooks) => s.(hooked := s.hooked || hooks)
    case Uninstall => s.(hooked := false)
    case Renamed(next) => State(next, if s.hooked then EMPTY else s.cache, s.hooked)
    case Switched(next) => State(next, if s.hooked then EMPTY else s.cache, s.hooked)
    case Silent(next) => s.(db := next)
    case Lookup(name) => s.(cache := AfterLookup(s.cache, s.db, name))
  }

  function Run(s: State, events: seq<Event>): State
    decreases |events|
  {
    if |events| == 0 then s else Run(Step(s, events[0]), events[1..])
  }

  /** Every rename and switch is heard; unheard changes stay in the same file and only add names. */
  ghost predicate Announced(s: State, events: seq<Event>)
    decreases |events|
  {
    |events| > 0 ==>
      && (events[0].Renamed? || events[0].Switched? ==> s.hooked)
      && (events[0].Silent? ==>
            && CurrentKey(events[0].next) == CurrentKey(s.db)
            && Extends(BuildMap(s.db.functions), BuildMap(events[0].next.functions)))
      && Announced(Step(s, events[0]), events[1..])
  }

  lemma {:induction false} AnnouncedRunsStaySound(s: State, events: seq<Event>)
    requires Sound(s.cache, s.db) && Announced(s, events)
    ensures Sound(Run(s, events).cache, Run(s, events).db)
    decreases |events|
  {
    if |events| > 0 {
      AnnouncedRunsStaySound(Step(s, events[0]), events[1..]);
    }
  }

  /** After any announced run, every name gets its uncached answer. */
  lemma AnnouncedRunsAgree(db: Database, events: seq<Event>, name: string)
    requires Announced(Start(db), events)
    ensures var s := Run(Start(db), events); Answer(s.cache, s.db, name) == Uncached(s.db, name)
  {
    AnnouncedRunsStaySound(Start(db), events);
  }

  /** Without unheard changes a matching key means that the map is the rebuild itself. */
  lemma {:induction false} HeardRunsStayCurrent(s: State, events: seq<Event>)
    requires Current(s.cache, s.db) && Announced(s, events)
    requires forall i :: 0 <= i < |events| ==> !events[i].Silent?
    ensures Current(Run(s, events).cache, Run(s, events).db)
    decreases |events|
  {
    if |events| > 0 {
      assert !events[0].Silent?;
      HeardRunsStayCurrent(Step(s, events[0]), events[1..]);
    }
  }

  /** The databases that were open before some event of the run, and the one open at its end. */
  function Opened(s: State, events: seq<Event>): seq<Database>
    decreases |events|
  {
    [s.db] + if |events| == 0 then [] else Opened(Step(s, events[0]), events[1..])
  }

  /** The map was built from one of these databases, which had the key. */
  ghost predicate BuiltFrom(c: Cache, seen: seq<Database>) {
    c.key.Some? ==>
      exists i :: 0 <= i < |seen| && CurrentKey(seen[i]) == c.key.value && BuildMap(seen[i].functions) == c.mapping
  }

  lemma {:induction false} CacheIsBuiltFromTheRun(s: State, events: seq<Event>, before: seq<Database>)
    requires BuiltFrom(s.cache, before)
    ensures BuiltFrom(Run(s, events).cache, before + Opened(s, events))
    decreases |events|
  {
    var seen := before + [s.db];
    assert BuiltFrom(s.cache, seen) by {
      if s.cache.key.Some? {
        var i :| 0 <= i < |before| && CurrentKey(before[i]) == s.cache.key.value
                 && BuildMap(before[i].functions) == s.cache.mapping;
        assert seen[i] == before[i];
      }
    }
    if |events| > 0 {
      assert seen[|before|] == s.db;
      assert BuiltFrom(Step(s, events[0]).cache, seen);
      CacheIsBuiltFromTheRun(Step(s, events[0]), events[1..], seen);
      assert seen + Opened(Step(s, events[0]), events[1..]) == before + Opened(s, events);
    } else {
      assert before + Opened(s, events) == seen;
    }
  }

  /**
   Whatever is heard or not: "not found" is raised only for a name that a rebuild lacks too, and an
   address that is given comes from the name table or from a database of this run with the same path.
   */
  lemma AnyRunAnswersFromItsDatabases(db: Database, events: seq<Event>, name: string)
    ensures var s := Run(Start(db), events);
      && (Answer(s.cache, s.db, name).Err? ==> Uncached(s.db, name).Err?)
      && (Answer(s.cache, s.db, name).Ok? && name !in s.db.names ==>
            exists d :: d in Opened(Start(db), events) && CurrentKey(d) == CurrentKey(s.db)
                        && name in BuildMap(d.functions)
                        && BuildMap(d.functions)[name] == Answer(s.cache, s.db, name).value)
  {
    var s := Run(Start(db), events);
    var seen := Opened(Start(db), events);
    CacheIsBuiltFromTheRun(Start(db), events, []);
    assert [] + seen == seen;
    LastOpened(Start(db), events);
    assert s.db in seen;
  }

  lemma {:induction false} LastOpened(s: State, events: seq<Event>)
    ensures var seen := Opened(s, events); |seen| > 0 && seen[|seen| - 1] == Run(s, events).db
    decreases |events|
  {
    if |events| > 0 {
      LastOpened(Step(s, events[0]), events[1..]);
    }
  }

  /**
   A change within the same file that is not heard, when the map was current before it: every name
   keeps its uncached answer exactly when each demangled name of before still has its address, or
   is in the name table.
   */
  lemma UnheardChangeExactly(db: Database, next: Database)
    requires CurrentKey(next) == CurrentKey(db)
    ensures var c := Refreshed(EMPTY, db);
      (forall name :: Answer(c, next, name) == Uncached(next, name)) <==>
        forall name :: name in BuildMap(db.functions) && name !in next.names ==>
          name in BuildMap(next.functions) && BuildMap(next.functions)[name] == BuildMap(db.functions)[name]
  {
    var c := Refreshed(EMPTY, db);
    forall name
      ensures Answer(c, next, name) == Uncached(next, name) <==>
                (name in BuildMap(db.functions) && name !in next.names ==>
                   name in BuildMap(next.functions)
                   && BuildMap(next.functions)[name] == BuildMap(db.functions)[name])
    {
      AnswerIsUncachedExactlyWhen(c, next, name);
    }
  }

  /**
   A switch to a database of another path is noticed even if no hook heard it: whatever the map was
   built from, every name gets its uncached answer. A database without a path has the empty one.
   */
  lemma UnheardSwitchIsNoticed(db: Database, next: Database, name: string)
    requires match (db.path, next.path)
             case (Some(p), Some(q)) => p != q
             case (Some(p), None) => |p| > 0
             case (None, Some(q)) => |q| > 0
             case (None, None) => false
    ensures Answer(Refreshed(EMPTY, db), next, name) == Uncached(next, name)
    ensures Refreshed(Refreshed(EMPTY, db), next).mapping == BuildMap(next.functions)
  {}

  /** Within one path the map is built once, and kept however the database changes unheard. */
  lemma MapIsKept(db: Database, next: Database)
    requires next.path == db.path
    ensures Refreshed(Refreshed(EMPTY, db), next).mapping == BuildMap(db.functions)
  {}

  /** What each kind of lookup says, in turn: the name table, the demangled names, nothing. */
  lemma UncachedInTurn(db: Database, name: string)
    ensures name in db.names ==> Uncached(db, name) == Ok(db.names[name])
    ensures name !in db.names ==>
              (Uncached(db, name).Ok? <==>
                 exists i :: 0 <= i < |db.functions| && db.functions[i].demangled == Some(name) && |name| > 0)
    ensures forall i :: name !in db.names && LastNamed(db.functions, name, i) ==>
              Uncached(db, name) == Ok(db.functions[i].ea)
  {
    BuildMapHoldsNames(db.functions, name);
    assert forall i :: 0 <= i < |db.functions| ==>
             (IsNamed(db.functions[i], name) <==> db.functions[i].demangled == Some(name) && |name| > 0);
    forall i | LastNamed(db.functions, name, i)
      ensures name in BuildMap(db.functions) && BuildMap(db.functions)[name] == db.functions[i].ea
    {
      BuildMapKeepsLast(db.functions, name, i);
    }
  }

  /** Installing hooks holds if the SDK takes them or has them already; only uninstalling ends it. */
  lemma HooksStay(s: State, e: Event)
    ensures Step(s, e).hooked <==> (s.hooked && !e.Uninstall?) || e == Install(true)
  {}

  /** The answers to the lookups of a run, in order. */
  function Answers(s: State, events: seq<Event>): seq<Result<int, LookupError>>
    decreases |events|
  {
    if |events| == 0 then []
    else
      (if events[0].Lookup? then [Answer(s.cache, s.db, events[0].name)] else [])
      + Answers(Step(s, events[0]), events[1..])
  }

  /** What they would be without any cache. */
  function UncachedAnswers(s: State, events: seq<Event>): seq<Result<int, LookupError>>
    decreases |events|
  {
    if |events| == 0 then []
    else
      (if events[0].Lookup? then [Uncached(s.db, events[0].name)] else [])
      + UncachedAnswers(Step(s, events[0]), events[1..])
  }

  /** An announced run answers every lookup as if there were no cache. */
  lemma {:induction false} AnnouncedAnswers(s: State, events: seq<Event>)
    requires Sound(s.cache, s.db) && Announced(s, events)
    ensures Answers(s, events) == UncachedAnswers(s, events)
    decreases |events|
  {
    if |events| > 0 {
      AnnouncedAnswers(Step(s, events[0]), events[1..]);
    }
  }

  /** A rename that is not heard is answered with the old address. */
  lemma UnheardRenameIsStale(db: Database, name: string, ea: int, other: int)
    requires |name| > 0 && name !in db.names && ea != other
    requires db.functions == [Function(ea, Some(name)), Function(other, None)]
    ensures var renamed := db.(functions := [Function(ea, None), Function(other, Some(name))]);
      var s := Run(Start(db), [Lookup(name), Renamed(renamed)]);
      Answer(s.cache, s.db, name) == Ok(ea) && Uncached(s.db, name) == Ok(other)
  {
    var first := Function(ea, Some(name));
    var renamed := db.(functions := [Function(ea, None), Function(other, Some(name))]);
    assert db.functions[..1] == [first] && [first][..0] == [];
    assert BuildMap([first]) == map[name := ea];
    assert BuildMap(db.functions) == map[name := ea];
    assert renamed.functions[..1] == [Function(ea, None)];
    assert BuildMap(renamed.functions)[name] == other;
    var events := [Lookup(name), Renamed(renamed)];
    assert events[1..] == [Renamed(renamed)] && [Renamed(renamed)][1..] == [];
    var one := Step(Start(db), Lookup(name));
    assert one.cache == Cache(Some(CurrentKey(db)), BuildMap(db.functions));
    assert Run(one, [Renamed(renamed)]) == Run(Step(one, Renamed(renamed)), []);
    assert Run(Start(db), events) == Step(one, Renamed(renamed));
  }

  // ----- the objects -----

  class DemangledNameCache {
    var key: Option<string>
    var mapping: map<string, int>

    ghost function View(): Cache
      reads this
    {
      Cache(key, mapping)
    }

    constructor ()
      ensures View() == EMPTY
    {
      key, mapping := None, map[];
    }

    method Build(db: Database) returns (m: map<string, int>)
      ensures m == BuildMap(db.functions)
    {
      m := map[];
      for i := 0 to |db.functions|
        invariant m == BuildMap(db.functions[..i])
      {
        assert db.functions[..i + 1][..i] == db.functions[..i];
        var f := db.functions[i];
        if f.demangled.Some? && |f.demangled.value| > 0 {
          m := m[f.demangled.value := f.ea];
        }
      }
      assert db.functions[..|db.functions|] == db.functions;
    }

    method Get(db: Database) returns (m: map<string, int>)
      modifies this
      ensures View() == Refreshed(old(View()), db) && m == mapping
    {
      var current := CurrentKey(db);
      if key != Some(current) {
        mapping := Build(db);
        key := Some(current);
      }
      m := mapping;
    }

    method Invalidate()
      modifies this
      ensures View() == EMPTY
    {
      key, mapping := None, map[];
    }

    method LookupFunctionEaByName(db: Database, name: string) returns (r: Result<int, LookupError>)
      modifies this
      ensures r == Answer(old(View()), db, name)
      ensures View() == AfterLookup(old(View()), db, name)
    {
      if name in db.names {
        return Ok(db.names[name]);
      }
      var m := Get(db);
      if name in m {
        return Ok(m[name]);
      }
      Invalidate();
      m := Get(db);
      if name in m {
        return Ok(m[name]);
      }
      return Err(NotFound(name));
    }

    /** An address or a name; an address wins only where a function lives. */
    method ResolveFunctionTarget(db: Database, target: string) returns (r: Result<int, LookupError>)
      modifies this
      ensures r == ResolveTarget(old(View()), db, target)
      ensures View() == if |Strip(target)| == 0 || AsAddress(db, Strip(target)).Some? then old(View())
                        else AfterLookup(old(View()), db, Strip(target))
    {
      var stripped := Strip(target);
      if |stripped| == 0 {
        return Err(EmptyTarget);
      }
      if LooksHex(stripped) {
        var ea := ParseEa(stripped);
        if ea.Ok? && ea.value in db.code {
          return Ok(ea.value);
        }
      }
      r := LookupFunctionEaByName(db, stripped);
    }
  }

  predicate LooksHex(text: string) {
    || HasPrefix(text, 'x') || HasPrefix(text, 'o') || HasPrefix(text, 'b') || HasPrefix(text, 'd')
    || forall i :: 0 <= i < |text| ==> IsDigit(text[i], 16)
  }

  /** The address of some function that the text spells, if it spells one. */
  function AsAddress(db: Database, text: string): Option<int> {
    if LooksHex(text) && ParseEa(text).Ok? && ParseEa(text).value in db.code then Some(ParseEa(text).value)
    else None
  }

  function ResolveTarget(c: Cache, db: Database, target: string): Result<int, LookupError> {
    var text := Strip(target);
    if |text| == 0 then Err(EmptyTarget)
    else if AsAddress(db, text).Some? then Ok(AsAddress(db, text).value)
    else Answer(c, db, text)
  }

  /** The lookup by name decides exactly when the text is no address of a function, or of the one it names. */
  lemma NameDecidesExactly(c: Cache, db: Database, target: string)
    requires |Strip(target)| > 0
    ensures var text := Strip(target);
      ResolveTarget(c, db, target) == Answer(c, db, text) <==>
        AsAddress(db, text).None? || Answer(c, db, text) == Ok(AsAddress(db, text).value)
  {}

  /** What is tried as an address: the four prefixes in either case, and bare hex digits. */
  lemma LooksHexExactly(text: string)
    ensures LooksHex(text) <==>
              || (|text| >= 2 && text[0] == '0' && text[1] in {'x', 'X', 'o', 'O', 'b', 'B', 'd', 'D'})
              || forall i :: 0 <= i < |text| ==> '0' <= text[i] <= '9' || 'a' <= text[i] <= 'f' || 'A' <= text[i] <= 'F'
  {
    assert forall c: char :: IsDigit(c, 16) <==> '0' <= c <= '9' || 'a' <= c <= 'f' || 'A' <= c <= 'F';
  }

  /** A printed address is taken for that address exactly if it is inside a function, whatever the names are. */
  lemma PrintedFunctionResolves(c: Cache, db: Database, start: nat)
    ensures Strip(FormatEa(start)) == FormatEa(start) && |FormatEa(start)| > 0
    ensures AsAddress(db, FormatEa(start)) == if start in db.code then Some(start) else None
    ensures start in db.code ==> ResolveTarget(c, db, FormatEa(start)) == Ok(start)
    ensures start !in db.code ==> ResolveTarget(c, db, FormatEa(start)) == Answer(c, db, FormatEa(start))
  {
    HexLiteral(start);
    EaRoundTrip(start);
    var text := FormatEa(start);
    assert text[0] == '0' && text[1] == 'x';
  }

  /** A function whose name is the hex digits of an address in another function is out of reach by name. */
  lemma AddressBeatsName(c: Cache, db: Database, n: nat, upper: bool)
    requires n in db.code
    requires Digits(n, upper) in db.names && db.names[Digits(n, upper)] != n
    ensures var name := Digits(n, upper);
      && Answer(c, db, name) == Ok(db.names[name])
      && ResolveTarget(c, db, name) == Ok(n)
      && ResolveTarget(c, db, name) != Answer(c, db, name)
  {
    DigitsStand(n, upper);
    BareDigitsRoundTrip(n, upper);
  }

  /** For instance a function called `abc`, when another one covers the address 0xabc. */
  lemma AbcIsOutOfReach()
    ensures var db := Database(None, [], map["abc" := 0x401000], {0xabc, 0x401000});
      Answer(EMPTY, db, "abc") == Ok(0x401000) && ResolveTarget(EMPTY, db, "abc") == Ok(0xabc)
  {
    assert Digits(0xa, false) == "a";
    assert Digits(0xab, false) == "a" + "b";
    assert Digits(0xabc, false) == "ab" + "c" == "abc";
    AddressBeatsName(EMPTY, Database(None, [], map["abc" := 0x401000], {0xabc, 0x401000}), 0xabc, false);
  }

  /** `resolve_name_or_address`: the name table first, then the address. */
  function ResolveNameOrAddress(db: Database, target: string): Result<int, LookupError> {
    var text := Strip(target);
    if |text| == 0 then Err(EmptyTarget)
    else if text in db.names then Ok(db.names[text])
    else if ParseEa(text).Ok? then Ok(ParseEa(text).value)
    else Err(NotFound(target))
  }

  /** Any printed address resolves to itself unless the database has a symbol of that very spelling. */
  lemma PrintedAddressResolves(db: Database, n: nat)
    ensures ResolveNameOrAddress(db, FormatEa(n)) == Ok(n) <==>
              FormatEa(n) !in db.names || db.names[FormatEa(n)] == n
  {
    HexLiteral(n);
    EaRoundTrip(n);
  }

  /** A name comes before an address here, and blank text is a target of neither kind. */
  lemma TargetsInTurn(c: Cache, db: Database, target: string)
    ensures ResolveNameOrAddress(db, target) == Err(EmptyTarget) <==> AllSpace(target)
    ensures ResolveTarget(c, db, target) == Err(EmptyTarget) <==> AllSpace(target)
    ensures !AllSpace(target) && Strip(target) in db.names ==>
              ResolveNameOrAddress(db, target) == Ok(db.names[Strip(target)])
    ensures !AllSpace(target) && Strip(target) !in db.names ==>
              ResolveNameOrAddress(db, target)
              == if ParseEa(target).Ok? then Ok(ParseEa(target).value) else Err(NotFound(target))
  {
    var i, j := StripExactly(target);
    assert Strip(Strip(target)) == Strip(target);
  }

  // ----- invalidation -----

  /** A registered callback: the demangled cache's `invalidate`, or another that may raise. */
  datatype Invalidator = Demangled | Other(raises: bool)

  function Raised(invalidators: seq<Invalidator>): nat {
    if |invalidators| == 0 then 0
    else
      var last := invalidators[|invalidators| - 1];
      Raised(invalidators[..|invalidators| - 1]) + if last.Other? && last.raises then 1 else 0
  }

  class CacheHooks {
    const demangled: DemangledNameCache
    var invalidators: seq<Invalidator>
    var hooked: bool
    var logged: nat

    ghost predicate Valid()
      reads this
    {
      Demangled in invalidators
    }

    constructor ()
      ensures Valid() && fresh(demangled) && !hooked && demangled.View() == EMPTY
    {
      demangled := new DemangledNameCache();
      invalidators, hooked, logged := [Demangled], false, 0;
    }

    ghost function View(db: Database): State
      reads this, demangled
    {
      State(db, demangled.View(), hooked)
    }

    method RegisterInvalidator(f: Invalidator)
      requires Valid()
      modifies this`invalidators
      ensures Valid() && invalidators == old(invalidators) + [f]
    {
      invalidators := invalidators + [f];
    }

    /** Every callback runs, wherever the failing ones stand; each failure is logged and none escapes. */
    method InvalidateAll()
      requires Valid()
      modifies this`logged, demangled
      ensures Valid() && demangled.View() == EMPTY
      ensures logged == old(logged) + Raised(invalidators)
    {
      for i := 0 to |invalidators|
        invariant Demangled in invalidators[..i] ==> demangled.View() == EMPTY
        invariant logged == old(logged) + Raised(invalidators[..i])
      {
        assert invalidators[..i + 1][..i] == invalidators[..i];
        match invalidators[i] {
          case Demangled => demangled.Invalidate();
          case Other(raises) =>
            if raises {
              logged := logged + 1;
            }
        }
      }
      assert invalidators[..|invalidators|] == invalidators;
    }

    method Install(hooks: bool, ghost db: Database)
      modifies this`hooked
      ensures View(db) == Step(old(View(db)), Event.Install(hooks))
    {
      if hooked {
        return;
      }
      hooked := hooks;
    }

    method Uninstall(ghost db: Database)
      modifies this`hooked
      ensures View(db) == Step(old(View(db)), Event.Uninstall)
    {
      hooked := false;
    }

    /** What a rename does: the database is already the new one when the listener is called. */
    method OnRenamed(ghost was: Database, ghost next: Database)
      requires Valid()
      modifies this`logged, demangled
      ensures Valid() && View(next) == Step(old(View(was)), Renamed(next))
    {
      if hooked {
        InvalidateAll();
      }
    }

    method OnClosebase(ghost was: Database, ghost next: Database)
      requires Valid()
      modifies this`logged, demangled
      ensures Valid() && View(next) == Step(old(View(was)), Switched(next))
    {
      if hooked {
        InvalidateAll();
      }
    }

    method OnLookup(db: Database, name: string) returns (r: Result<int, LookupError>)
      requires Valid()
      modifies demangled
      ensures Valid() && View(db) == Step(old(View(db)), Lookup(name))
      ensures r == Answer(old(demangled.View()), db, name)
    {
      r := demangled.LookupFunctionEaByName(db, name);
    }

    /** Any run, on the objects: they end in the state of the run and give its answers. */
    method Play(db: Database, events: seq<Event>) returns (end: Database, answers: seq<Result<int, LookupError>>)
      requires Valid()
      modifies this`hooked, this`logged, demangled
      ensures Valid() && View(end) == Run(old(View(db)), events)
      ensures answers == Answers(old(View(db)), events)
      decreases |events|
    {
      if |events| == 0 {
        return db, [];
      }
      var now, first := db, [];
      match events[0] {
        case Install(hooks) => Install(hooks, db);
        case Uninstall => Uninstall(db);
        case Renamed(next) =>
          OnRenamed(db, next);
          now := next;
        case Switched(next) =>
          OnClosebase(db, next);
          now := next;
        case Silent(next) =>
          now := next;
        case Lookup(name) =>
          var r := OnLookup(db, name);
          first := [r];
      }
      end, answers := Play(now, events[1..]);
      answers := first + answers;
    }
  }
}

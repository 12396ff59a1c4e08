/**
 Conversion of JSON-RPC arguments to their declared types (plugin/coerce.py).

 `Coerce` follows the code; `Conforms` says independently what it means for a value to
 have a declared type, bounds included. The main results relate the two.
 */
module Coercion {
  import opened Prelude
  import opened Json

  /** `Doc(description, ge, gt)`, or metadata of any other class. */
  datatype Meta = Doc(ge: Option<int>, gt: Option<int>) | OtherMeta

  datatype Ann =
    | AnyT                                   // Any, object, None or no annotation
    | NoneT                                  // type(None)
    | LiteralT(allowed: seq<Json>)
    | UnionT(members: seq<Ann>)
    | ListT(item: Option<Ann>)
    | BoolT
    | IntT
    | FloatT
    | StrT
    | OtherT                                 // structured types: passed through
    | Annotated(base: Ann, meta: seq<Meta>)

  datatype Reason =
    | NotNone | MissingValue | NotInteger | NotBoolean | NotNumber | NotString | NotList
    | NotOneOf(allowed: seq<Json>)
    | NoMember(members: seq<Ann>)
    | BelowMinimum(ge: int)
    | NotAbove(gt: int)

  /** `Overflow` is the OverflowError of `float(n)` for a huge `n`, which nothing here catches. */
  datatype Outcome = Accept(value: Json) | Reject(reason: Reason) | Overflow

  /** The parts of Python's standard library that conversion relies on. */
  datatype Lib = Lib(
    parseInt: string -> Option<int>,         // int(text.strip(), 10)
    parseFloat: string -> Option<Float>,     // float(text)
    fold: string -> string,                  // text.strip().lower()
    toFloat: int -> Option<Float>)           // float(n)

  const BOOL_TRUE := {"true", "1", "t", "y", "yes", "on"}
  const BOOL_FALSE := {"false", "0", "f", "n", "no", "off"}

  // ----- Annotated layers -----

  /** The base annotation and the metadata of every layer, outermost first. */
  function Strip(a: Ann): (r: (Ann, seq<Meta>))
    ensures !r.0.Annotated?
    ensures r.0 == a || r.0 < a
  {
    if a.Annotated? then
      var (base, meta) := Strip(a.base);
      (base, a.meta + meta)
    else (a, [])
  }

  method StripAnnotated(annotation: Ann) returns (base: Ann, metadata: seq<Meta>)
    ensures (base, metadata) == Strip(annotation)
  {
    base, metadata := annotation, [];
    assert [] + Strip(base).1 == Strip(base).1;
    while base.Annotated?
      invariant Strip(annotation).0 == Strip(base).0
      invariant Strip(annotation).1 == metadata + Strip(base).1
      decreases base
    {
      base, metadata := base.base, metadata + base.meta;
    }
    assert metadata + [] == metadata;
  }

  // ----- conversion -----

  function Coerce(lib: Lib, v: Json, a: Ann): Outcome
    decreases a, 3
  {
    var (base, meta) := Strip(a);
    match Convert(lib, v, base)
    case Accept(w) => ApplyBounds(w, meta)
    case failed => failed
  }

  function Convert(lib: Lib, v: Json, a: Ann): Outcome
    decreases a, 2
  {
    match a
    case AnyT => Accept(v)
    case NoneT => if v.JNull? then Accept(v) else Reject(NotNone)
    case LiteralT(allowed) =>
      if exists i :: 0 <= i < |allowed| && SameLiteral(v, allowed[i]) then Accept(v) else Reject(NotOneOf(allowed))
    case UnionT(members) => CoerceUnion(lib, v, a)
    case ListT(item) =>
      if !v.JList? then Reject(NotList)
      else if item.None? then Accept(v)
      else
        (match CoerceItems(lib, v.items, item.value)
         case Items(ws) => Accept(JList(ws))
         case Stopped(o) => o)
    case BoolT => CoerceBool(lib, v)
    case IntT => CoerceInt(lib, v)
    case FloatT => CoerceFloat(lib, v)
    case StrT => if v.JStr? then Accept(v) else Reject(NotString)
    case OtherT => Accept(v)
    case Annotated(base, meta) => Accept(v)
  }

  function CoerceInt(lib: Lib, v: Json): Outcome {
    match v
    case JBool(b) => Accept(JInt(if b then 1 else 0))
    case JInt(n) => Accept(v)
    case JFloat(f) => if f.Finite? && IsInteger(f.r) then Accept(JInt(f.r.Floor)) else Reject(NotInteger)
    case JStr(s) => (match lib.parseInt(s) case Some(n) => Accept(JInt(n)) case None => Reject(NotInteger))
    case _ => Reject(NotInteger)
  }

  function CoerceBool(lib: Lib, v: Json): Outcome {
    match v
    case JBool(b) => Accept(v)
    case JInt(n) => if n == 0 || n == 1 then Accept(JBool(n == 1)) else Reject(NotBoolean)
    case JFloat(f) =>
      if f == Finite(0.0) || f == Finite(1.0) then Accept(JBool(f == Finite(1.0))) else Reject(NotBoolean)
    case JStr(s) =>
      if lib.fold(s) in BOOL_TRUE then Accept(JBool(true))
      else if lib.fold(s) in BOOL_FALSE then Accept(JBool(false))
      else Reject(NotBoolean)
    case _ => Reject(NotBoolean)
  }

  function CoerceFloat(lib: Lib, v: Json): Outcome {
    match v
    case JBool(b) => Accept(JFloat(Finite(if b then 1.0 else 0.0)))
    case JInt(n) => (match lib.toFloat(n) case Some(f) => Accept(JFloat(f)) case None => Overflow)
    case JFloat(f) => Accept(v)
    case JStr(s) => (match lib.parseFloat(s) case Some(f) => Accept(JFloat(f)) case None => Reject(NotNumber))
    case _ => Reject(NotNumber)
  }

  /** Same type and equal, so `1` is not `True` and a NaN is nothing. */
  predicate SameLiteral(v: Json, candidate: Json) {
    match v
    case JList(_) => false
    case JObj(_) => false
    case JFloat(f) => !f.NaN? && v == candidate
    case _ => v == candidate
  }

  datatype Converted = Items(values: seq<Json>) | Stopped(outcome: Outcome)

  /** The list comprehension: stops at the first item that does not convert. */
  function CoerceItems(lib: Lib, items: seq<Json>, a: Ann): (r: Converted)
    ensures r.Stopped? ==> !r.outcome.Accept?
    decreases a, 4, |items|
  {
    if |items| == 0 then Items([])
    else
      match Coerce(lib, items[0], a)
      case Accept(w) =>
        (match CoerceItems(lib, items[1..], a)
         case Items(ws) => Items([w] + ws)
         case stopped => stopped)
      case failed => Stopped(failed)
  }

  /** How many members of a union, from index `i` on, are not `None`. */
  function Concrete(members: seq<Ann>, i: nat): nat
    decreases |members| - i
  {
    if i >= |members| then 0
    else (if members[i].NoneT? then 0 else 1) + Concrete(members, i + 1)
  }

  function CoerceUnion(lib: Lib, v: Json, u: Ann): Outcome
    requires u.UnionT?
    decreases u, 1, |u.members| + 1
  {
    if v.JNull? then
      if NoneT in u.members then Accept(JNull) else Reject(MissingValue)
    else TryMembers(lib, v, u, 0)
  }

  /** The members are tried in order; a sole member answers for itself, errors included. */
  function TryMembers(lib: Lib, v: Json, u: Ann, i: nat): Outcome
    requires u.UnionT? && i <= |u.members|
    decreases u, 1, |u.members| - i
  {
    if i == |u.members| then Reject(NoMember(u.members))
    else if u.members[i].NoneT? then TryMembers(lib, v, u, i + 1)
    else
      var o := Coerce(lib, v, u.members[i]);
      if o.Reject? && Concrete(u.members, 0) > 1 then TryMembers(lib, v, u, i + 1) else o
  }

  // ----- bounds -----

  /** Python's `v < bound` and `v <= bound`: false of a NaN. */
  predicate Less(f: Float, bound: int) {
    match f
    case Finite(r) => r < bound as real
    case Infinite(negative) => negative
    case NaN => false
  }

  predicate AtMost(f: Float, bound: int) {
    match f
    case Finite(r) => r <= bound as real
    case Infinite(negative) => negative
    case NaN => false
  }

  function AsNumber(v: Json): Option<Float> {
    match v
    case JInt(n) => Some(Finite(n as real))
    case JFloat(f) => Some(f)
    case _ => None
  }

  function ApplyBounds(v: Json, meta: seq<Meta>): Outcome {
    if |meta| == 0 || AsNumber(v).None? then Accept(v)
    else
      var x := AsNumber(v).value;
      var m := meta[0];
      if m.Doc? && m.ge.Some? && Less(x, m.ge.value) then Reject(BelowMinimum(m.ge.value))
      else if m.Doc? && m.gt.Some? && AtMost(x, m.gt.value) then Reject(NotAbove(m.gt.value))
      else ApplyBounds(v, meta[1..])
  }

  // ----- what a declared type means -----

  predicate WithinBounds(v: Json, meta: seq<Meta>) {
    AsNumber(v).Some? ==>
      forall m :: m in meta && m.Doc? ==>
        && (m.ge.Some? || m.gt.Some? ==> !AsNumber(v).value.NaN?)
        && (m.ge.Some? ==> !Less(AsNumber(v).value, m.ge.value))
        && (m.gt.Some? ==> !AtMost(AsNumber(v).value, m.gt.value))
  }

  predicate Conforms(v: Json, a: Ann) {
    match a
    case AnyT => true
    case NoneT => v.JNull?
    case LiteralT(allowed) => exists i :: 0 <= i < |allowed| && SameLiteral(v, allowed[i])
    case UnionT(members) => exists i :: 0 <= i < |members| && Conforms(v, members[i])
    case ListT(item) => v.JList? && (item.Some? ==> forall i :: 0 <= i < |v.items| ==> Conforms(v.items[i], item.value))
    case BoolT => v.JBool?
    case IntT => v.JInt?
    case FloatT => v.JFloat?
    case StrT => v.JStr?
    case OtherT => true
    case Annotated(base, meta) => Conforms(v, base) && WithinBounds(v, meta)
  }

  /** The bounds that the code enforces: a NaN compares false with every bound and passes. */
  predicate WithinOrNaN(v: Json, meta: seq<Meta>) {
    WithinBounds(v, meta) || v == JFloat(NaN)
  }

  /** `Conforms`, with bounds read that way. */
  predicate Admits(v: Json, a: Ann) {
    match a
    case UnionT(members) => exists i :: 0 <= i < |members| && Admits(v, members[i])
    case ListT(item) => v.JList? && (item.Some? ==> forall i :: 0 <= i < |v.items| ==> Admits(v.items[i], item.value))
    case Annotated(base, meta) => Admits(v, base) && WithinOrNaN(v, meta)
    case _ => Conforms(v, a)
  }

  predicate NaNFree(v: Json) {
    match v
    case JFloat(f) => !f.NaN?
    case JList(items) => forall i :: 0 <= i < |items| ==> NaNFree(items[i])
    case _ => true
  }

  /** No union has two members other than `None`, as in every tool signature. */
  predicate Plain(a: Ann) {
    match a
    case UnionT(members) =>
      NoneT in members && Concrete(members, 0) <= 1 && forall i :: 0 <= i < |members| ==> Plain(members[i])
    case ListT(item) => item.Some? ==> Plain(item.value)
    case Annotated(base, meta) => Plain(base)
    case _ => true
  }

  // ----- soundness -----

  lemma {:induction false} BoundsSound(v: Json, meta: seq<Meta>)
    requires ApplyBounds(v, meta).Accept?
    requires NaNFree(v)
    ensures ApplyBounds(v, meta).value == v && WithinBounds(v, meta)
  {
    if |meta| > 0 && AsNumber(v).Some? {
      BoundsSound(v, meta[1..]);
      assert meta == [meta[0]] + meta[1..];
    }
  }

  lemma {:induction false} BoundsComplete(v: Json, meta: seq<Meta>)
    requires WithinBounds(v, meta)
    ensures ApplyBounds(v, meta) == Accept(v)
  {
    if |meta| > 0 && AsNumber(v).Some? {
      assert meta[0] in meta && forall m :: m in meta[1..] ==> m in meta;
      BoundsComplete(v, meta[1..]);
    }
  }

  /** Bounds let through exactly the values within them, and every NaN. */
  lemma {:induction false} BoundsAcceptExactly(v: Json, meta: seq<Meta>)
    ensures ApplyBounds(v, meta).Accept? <==> WithinBounds(v, meta) || v == JFloat(NaN)
  {
    if v == JFloat(NaN) {
      NaNIsAccepted(meta);
    } else if ApplyBounds(v, meta).Accept? {
      if AsNumber(v).Some? {
        BoundsSound(v, meta);
      }
    } else if WithinBounds(v, meta) {
      BoundsComplete(v, meta);
    }
  }

  lemma {:induction false} NaNIsAccepted(meta: seq<Meta>)
    ensures ApplyBounds(JFloat(NaN), meta).Accept?
  {
    if |meta| > 0 {
      NaNIsAccepted(meta[1..]);
    }
  }

  lemma {:induction false} AdmitsStripped(v: Json, a: Ann)
    ensures Admits(v, a) <==> Admits(v, Strip(a).0) && WithinOrNaN(v, Strip(a).1)
  {
    if a.Annotated? {
      AdmitsStripped(v, a.base);
    }
  }

  /** Whatever comes out has the declared type, nested bounds included, with a NaN within every bound. */
  lemma {:induction false} CoerceAdmits(lib: Lib, v: Json, a: Ann)
    requires Coerce(lib, v, a).Accept?
    ensures Admits(Coerce(lib, v, a).value, a)
    decreases a, 3
  {
    var (base, meta) := Strip(a);
    var w := Convert(lib, v, base).value;
    BoundsKeep(w, meta);
    ConvertAdmits(lib, v, base);
    BoundsAcceptExactly(w, meta);
    AdmitsStripped(w, a);
  }

  lemma {:induction false} BoundsKeep(v: Json, meta: seq<Meta>)
    requires ApplyBounds(v, meta).Accept?
    ensures ApplyBounds(v, meta).value == v
  {
    if |meta| > 0 && AsNumber(v).Some? {
      BoundsKeep(v, meta[1..]);
    }
  }

  lemma {:induction false} ConvertAdmits(lib: Lib, v: Json, a: Ann)
    requires !a.Annotated? && Convert(lib, v, a).Accept?
    ensures Admits(Convert(lib, v, a).value, a)
    decreases a, 2
  {
    match a
    case UnionT(members) =>
      if v.JNull? {
        var i :| 0 <= i < |members| && members[i] == NoneT;
        assert Admits(JNull, members[i]);
      } else {
        MembersAdmit(lib, v, a, 0);
      }
    case ListT(item) =>
      if item.Some? {
        ItemsAdmit(lib, v.items, item.value);
      }
    case _ =>
  }

  lemma {:induction false} MembersAdmit(lib: Lib, v: Json, u: Ann, i: nat)
    requires u.UnionT? && i <= |u.members| && TryMembers(lib, v, u, i).Accept?
    ensures Admits(TryMembers(lib, v, u, i).value, u)
    decreases u, 1, |u.members| - i
  {
    if u.members[i].NoneT? || (Coerce(lib, v, u.members[i]).Reject? && Concrete(u.members, 0) > 1) {
      MembersAdmit(lib, v, u, i + 1);
    } else {
      CoerceAdmits(lib, v, u.members[i]);
    }
  }

  lemma {:induction false} ItemsAdmit(lib: Lib, items: seq<Json>, a: Ann)
    requires CoerceItems(lib, items, a).Items?
    ensures var ws := CoerceItems(lib, items, a).values;
      |ws| == |items| && forall k :: 0 <= k < |ws| ==> Admits(ws[k], a)
    decreases a, 4, |items|
  {
    if |items| > 0 {
      var ws := CoerceItems(lib, items, a).values;
      var rest := CoerceItems(lib, items[1..], a).values;
      assert ws[0] == Coerce(lib, items[0], a).value && ws[1..] == rest;
      CoerceAdmits(lib, items[0], a);
      ItemsAdmit(lib, items[1..], a);
    }
  }

  /** The two readings of bounds differ in NaNs only. */
  lemma {:induction false} AdmitsIsConforms(v: Json, a: Ann)
    ensures Conforms(v, a) ==> Admits(v, a)
    ensures NaNFree(v) && Admits(v, a) ==> Conforms(v, a)
  {
    match a
    case UnionT(members) =>
      forall i | 0 <= i < |members|
        ensures Conforms(v, members[i]) ==> Admits(v, members[i])
        ensures NaNFree(v) && Admits(v, members[i]) ==> Conforms(v, members[i])
      {
        AdmitsIsConforms(v, members[i]);
      }
    case ListT(Some(item)) =>
      if v.JList? {
        forall i | 0 <= i < |v.items|
          ensures Conforms(v.items[i], item) ==> Admits(v.items[i], item)
          ensures NaNFree(v.items[i]) && Admits(v.items[i], item) ==> Conforms(v.items[i], item)
        {
          AdmitsIsConforms(v.items[i], item);
        }
      }
    case Annotated(base, _) =>
      AdmitsIsConforms(v, base);
    case _ =>
  }

  /** A result without a NaN conforms to the annotation, nested bounds included. */
  lemma CoerceIsSound(lib: Lib, v: Json, a: Ann)
    requires Coerce(lib, v, a).Accept? && NaNFree(Coerce(lib, v, a).value)
    ensures Conforms(Coerce(lib, v, a).value, a)
  {
    CoerceAdmits(lib, v, a);
    AdmitsIsConforms(Coerce(lib, v, a).value, a);
  }

  /** The one gap: a NaN passes every bound, because it compares false. */
  lemma NaNPassesBounds(lib: Lib)
    ensures var a := Annotated(FloatT, [Doc(Some(0), None)]);
      Coerce(lib, JFloat(NaN), a) == Accept(JFloat(NaN)) && !Conforms(JFloat(NaN), a)
  {
    var meta := [Doc(Some(0), None)];
    assert Strip(FloatT) == (FloatT, []);
    assert Strip(Annotated(FloatT, meta)) == (FloatT, meta + []) && meta + [] == meta;
    assert meta[0] in meta;
  }

  // ----- identity -----

  /** A value is left alone exactly when it has the declared type already. */
  lemma CoerceIsIdentity(lib: Lib, v: Json, a: Ann)
    requires Plain(a)
    ensures Coerce(lib, v, a) == Accept(v) <==> Admits(v, a)
  {
    if Admits(v, a) {
      CoerceKeeps(lib, v, a);
    } else if Coerce(lib, v, a) == Accept(v) {
      CoerceAdmits(lib, v, a);
    }
  }

  lemma {:induction false} CoerceKeeps(lib: Lib, v: Json, a: Ann)
    requires Plain(a) && Admits(v, a)
    ensures Coerce(lib, v, a) == Accept(v)
    decreases a, 3
  {
    var (base, meta) := Strip(a);
    AdmitsStripped(v, a);
    PlainStripped(a);
    ConvertKeeps(lib, v, base);
    BoundsAcceptExactly(v, meta);
    BoundsKeep(v, meta);
  }

  lemma {:induction false} PlainStripped(a: Ann)
    requires Plain(a)
    ensures Plain(Strip(a).0)
  {
    if a.Annotated? {
      PlainStripped(a.base);
    }
  }

  lemma {:induction false} ConvertKeeps(lib: Lib, v: Json, a: Ann)
    requires !a.Annotated? && Plain(a) && Admits(v, a)
    ensures Convert(lib, v, a) == Accept(v)
    decreases a, 2
  {
    match a
    case UnionT(members) =>
      if !v.JNull? {
        var i :| 0 <= i < |members| && Admits(v, members[i]);
        SoleMember(members, i, 0);
        CoerceKeeps(lib, v, members[i]);
        MembersSkipped(lib, v, a, i, 0);
      }
    case ListT(item) =>
      if item.Some? {
        ItemsKept(lib, v.items, item.value);
      }
    case _ =>
  }

  /** With at most one member other than `None`, every other member is `None`. */
  lemma {:induction false} SoleMember(members: seq<Ann>, i: nat, from: nat)
    requires from <= i < |members| && !members[i].NoneT? && Concrete(members, from) <= 1
    ensures forall j :: from <= j < i ==> members[j].NoneT?
    decreases i - from
  {
    if from < i {
      ConcreteCounts(members, i, from + 1);
      SoleMember(members, i, from + 1);
    }
  }

  lemma {:induction false} ConcreteCounts(members: seq<Ann>, i: nat, from: nat)
    requires from <= i < |members| && !members[i].NoneT?
    ensures Concrete(members, from) >= 1
    decreases i - from
  {
    if from < i {
      ConcreteCounts(members, i, from + 1);
    }
  }

  lemma {:induction false} MembersSkipped(lib: Lib, v: Json, u: Ann, i: nat, from: nat)
    requires u.UnionT? && from <= i < |u.members| && !u.members[i].NoneT?
    requires forall j :: from <= j < i ==> u.members[j].NoneT?
    requires Coerce(lib, v, u.members[i]).Accept?
    ensures TryMembers(lib, v, u, from) == Coerce(lib, v, u.members[i])
    decreases i - from
  {
    if from < i {
      MembersSkipped(lib, v, u, i, from + 1);
    }
  }

  lemma {:induction false} ItemsKept(lib: Lib, items: seq<Json>, a: Ann)
    requires Plain(a) && forall k :: 0 <= k < |items| ==> Admits(items[k], a)
    ensures CoerceItems(lib, items, a) == Items(items)
    decreases a, 4, |items|
  {
    if |items| > 0 {
      CoerceKeeps(lib, items[0], a);
      ItemsKept(lib, items[1..], a);
      assert [items[0]] + items[1..] == items;
    }
  }

  /** Converting twice is converting once. */
  lemma CoerceIsIdempotent(lib: Lib, v: Json, a: Ann)
    requires Plain(a) && Coerce(lib, v, a).Accept?
    ensures Coerce(lib, Coerce(lib, v, a).value, a) == Coerce(lib, v, a)
  {
    CoerceAdmits(lib, v, a);
    CoerceKeeps(lib, Coerce(lib, v, a).value, a);
  }

  /** Not so for a union of two: the string "5" conforms to `int | str` and becomes 5. */
  lemma UnionOfTwoConverts(lib: Lib)
    requires lib.parseInt("5") == Some(5)
    ensures Conforms(JStr("5"), UnionT([IntT, StrT]))
    ensures Coerce(lib, JStr("5"), UnionT([IntT, StrT])) == Accept(JInt(5))
  {
    var u := UnionT([IntT, StrT]);
    assert Conforms(JStr("5"), u.members[1]);
    assert Strip(u) == (u, []) && Strip(IntT) == (IntT, []);
    assert Coerce(lib, JStr("5"), IntT) == Accept(JInt(5));
    assert TryMembers(lib, JStr("5"), u, 0) == Accept(JInt(5));
  }

  // ----- unions of several members -----

  /** `i` is the first member, from `from` on, that does not reject the value. */
  predicate Answers(lib: Lib, v: Json, members: seq<Ann>, from: nat, i: nat) {
    && from <= i < |members| && !members[i].NoneT? && !Coerce(lib, v, members[i]).Reject?
    && forall j :: from <= j < i && !members[j].NoneT? ==> Coerce(lib, v, members[j]).Reject?
  }

  lemma {:induction false} MembersInOrder(lib: Lib, v: Json, u: Ann, from: nat)
    requires u.UnionT? && from <= |u.members| && Concrete(u.members, 0) > 1
    ensures var o := TryMembers(lib, v, u, from);
      && (forall i: nat :: Answers(lib, v, u.members, from, i) ==> o == Coerce(lib, v, u.members[i]))
      && (o.Reject? <==>
            forall i :: from <= i < |u.members| && !u.members[i].NoneT? ==> Coerce(lib, v, u.members[i]).Reject?)
      && (o.Reject? ==> o.reason == NoMember(u.members))
    decreases |u.members| - from
  {
    if from < |u.members| {
      MembersInOrder(lib, v, u, from + 1);
      forall i: nat | Answers(lib, v, u.members, from, i)
        ensures TryMembers(lib, v, u, from) == Coerce(lib, v, u.members[i])
      {
        if from < i {
          assert Answers(lib, v, u.members, from + 1, i);
        }
      }
    }
  }

  lemma UnionUnfolds(lib: Lib, v: Json, members: seq<Ann>)
    ensures Coerce(lib, v, UnionT(members)) == CoerceUnion(lib, v, UnionT(members))
  {
    var u := UnionT(members);
    assert Strip(u) == (u, []);
    assert Convert(lib, v, u) == CoerceUnion(lib, v, u);
  }

  /** A union of several members gives the first answer, and rejects exactly when every member does. */
  lemma UnionTakesFirst(lib: Lib, v: Json, members: seq<Ann>)
    requires Concrete(members, 0) > 1 && !v.JNull?
    ensures var o := Coerce(lib, v, UnionT(members));
      && (forall i: nat :: Answers(lib, v, members, 0, i) ==> o == Coerce(lib, v, members[i]))
      && (o == Reject(NoMember(members)) <==>
            forall i :: 0 <= i < |members| && !members[i].NoneT? ==> Coerce(lib, v, members[i]).Reject?)
      && (o.Reject? ==> o == Reject(NoMember(members)))
  {
    UnionUnfolds(lib, v, members);
    MembersInOrder(lib, v, UnionT(members), 0);
  }

  /**
   A value that has the type of member `j` is left alone by the union exactly when no earlier
   member that answers changes it.
   */
  lemma UnionLeavesAlone(lib: Lib, v: Json, members: seq<Ann>, j: nat)
    requires Concrete(members, 0) > 1 && !v.JNull?
    requires j < |members| && Plain(members[j]) && Admits(v, members[j])
    ensures Coerce(lib, v, UnionT(members)) == Accept(v) <==>
              forall i: nat :: i < j && Answers(lib, v, members, 0, i) ==> Coerce(lib, v, members[i]) == Accept(v)
  {
    UnionTakesFirst(lib, v, members);
    CoerceKeeps(lib, v, members[j]);
    if i: nat :| i < j && Answers(lib, v, members, 0, i) {
      assert Coerce(lib, v, UnionT(members)) == Coerce(lib, v, members[i]);
      OneAnswers(lib, v, members, i);
    } else {
      FirstAnswer(lib, v, members, j);
    }
  }

  lemma OneAnswers(lib: Lib, v: Json, members: seq<Ann>, i: nat)
    requires Answers(lib, v, members, 0, i)
    ensures forall k: nat :: Answers(lib, v, members, 0, k) ==> k == i
  {}

  /** Where a member does not reject, it or an earlier one answers. */
  lemma {:induction false} FirstAnswer(lib: Lib, v: Json, members: seq<Ann>, j: nat)
    requires j < |members| && !members[j].NoneT? && !Coerce(lib, v, members[j]).Reject?
    ensures exists i: nat :: i <= j && Answers(lib, v, members, 0, i)
  {
    if k: nat :| k < j && !members[k].NoneT? && !Coerce(lib, v, members[k]).Reject? {
      FirstAnswer(lib, v, members, k);
    } else {
      assert Answers(lib, v, members, 0, j);
    }
  }

  /** `None` is accepted by a union exactly when the union lists it. */
  lemma UnionOfNull(lib: Lib, members: seq<Ann>)
    ensures Coerce(lib, JNull, UnionT(members)) == if NoneT in members then Accept(JNull) else Reject(MissingValue)
  {
    UnionUnfolds(lib, JNull, members);
  }

  // ----- what conversion does to numbers -----

  /** The number a finite scalar stands for, whichever of the three types carries it. */
  function Quantity(v: Json): Option<real> {
    match v
    case JBool(b) => Some(if b then 1.0 else 0.0)
    case JInt(n) => Some(n as real)
    case JFloat(f) => if f.Finite? then Some(f.r) else None
    case _ => None
  }

  /**
   Between the numeric types a conversion succeeds exactly when the number exists there, and keeps
   it. Only `float(n)` may round or overflow, and does so exactly as Python's `float` does.
   */
  lemma NumbersKeepTheirValue(lib: Lib, v: Json, a: Ann)
    requires a == IntT || a == BoolT || a == FloatT
    requires Quantity(v).Some?
    ensures var x, o := Quantity(v).value, Coerce(lib, v, a);
      && (o.Accept? ==> Conforms(o.value, a))
      && (a == IntT ==> (o.Accept? <==> IsInteger(x)))
      && (a == BoolT ==> (o.Accept? <==> x == 0.0 || x == 1.0))
      && (a == FloatT ==> (o.Overflow? <==> v.JInt? && lib.toFloat(v.n).None?) && !o.Reject?)
      && (o.Accept? && !(a == FloatT && v.JInt?) ==> Quantity(o.value) == Some(x))
      && (o.Accept? && a == FloatT && v.JInt? ==>
            (Quantity(o.value) == Some(x) <==> lib.toFloat(v.n) == Some(Finite(x))))
  {
    assert Strip(a) == (a, []);
  }

  // ----- bounds, in arithmetic -----

  /** Every `ge` is reached and every `gt` exceeded. */
  ghost predicate Meets(x: real, meta: seq<Meta>) {
    forall m :: m in meta && m.Doc? ==>
      (m.ge.Some? ==> x >= m.ge.value as real) && (m.gt.Some? ==> x > m.gt.value as real)
  }

  lemma {:induction false} BoundsOfReals(v: Json, x: real, meta: seq<Meta>)
    requires v == JFloat(Finite(x)) || (v.JInt? && v.n as real == x)
    ensures ApplyBounds(v, meta) == Accept(v) <==> Meets(x, meta)
    ensures ApplyBounds(v, meta).Accept? <==> Meets(x, meta)
  {
    if |meta| > 0 {
      BoundsOfReals(v, x, meta[1..]);
      assert meta == [meta[0]] + meta[1..];
    }
  }

  /** Positive infinity is within every bound, negative infinity within none. */
  lemma {:induction false} BoundsOfInfinities(negative: bool, meta: seq<Meta>)
    ensures ApplyBounds(JFloat(Infinite(negative)), meta).Accept? <==>
              !negative || forall m :: m in meta && m.Doc? ==> m.ge.None? && m.gt.None?
  {
    if |meta| > 0 {
      BoundsOfInfinities(negative, meta[1..]);
      assert meta == [meta[0]] + meta[1..];
    }
  }

  lemma LayerUnfolds(lib: Lib, v: Json, base: Ann, meta: seq<Meta>)
    requires base == IntT || base == FloatT
    ensures Coerce(lib, v, Annotated(base, meta)) ==
            match Coerce(lib, v, base) case Accept(w) => ApplyBounds(w, meta) case failed => failed
  {
    assert Strip(base) == (base, []);
    assert meta + [] == meta;
    assert Strip(Annotated(base, meta)) == (base, meta);
  }

  /** An integer parameter takes exactly the integers that reach every `ge` and exceed every `gt`. */
  lemma BoundedIntegers(lib: Lib, n: int, meta: seq<Meta>)
    ensures Coerce(lib, JInt(n), Annotated(IntT, meta)) == Accept(JInt(n)) <==>
              forall m :: m in meta && m.Doc? ==>
                (m.ge.Some? ==> n >= m.ge.value) && (m.gt.Some? ==> n > m.gt.value)
    ensures Coerce(lib, JInt(n), Annotated(IntT, meta)).Accept? ==>
              Coerce(lib, JInt(n), Annotated(IntT, meta)) == Accept(JInt(n))
  {
    LayerUnfolds(lib, JInt(n), IntT, meta);
    assert Strip(IntT) == (IntT, []);
    BoundsOfReals(JInt(n), n as real, meta);
    if Coerce(lib, JInt(n), Annotated(IntT, meta)).Accept? {
      BoundsKeep(JInt(n), meta);
    }
  }

  /** A float parameter, likewise. */
  lemma BoundedFloats(lib: Lib, r: real, meta: seq<Meta>)
    ensures Coerce(lib, JFloat(Finite(r)), Annotated(FloatT, meta)) == Accept(JFloat(Finite(r))) <==>
              forall m :: m in meta && m.Doc? ==>
                (m.ge.Some? ==> r >= m.ge.value as real) && (m.gt.Some? ==> r > m.gt.value as real)
  {
    LayerUnfolds(lib, JFloat(Finite(r)), FloatT, meta);
    assert Strip(FloatT) == (FloatT, []);
    BoundsOfReals(JFloat(Finite(r)), r, meta);
  }

  /** What is refused names the bound that fails. */
  lemma {:induction false} BoundsNameTheFailure(n: int, meta: seq<Meta>)
    ensures match ApplyBounds(JInt(n), meta)
            case Reject(BelowMinimum(ge)) => n < ge && exists m :: m in meta && m.Doc? && m.ge == Some(ge)
            case Reject(NotAbove(gt)) => n <= gt && exists m :: m in meta && m.Doc? && m.gt == Some(gt)
            case o => o == Accept(JInt(n))
  {
    if |meta| > 0 {
      BoundsNameTheFailure(n, meta[1..]);
      assert meta[0] in meta && forall m :: m in meta[1..] ==> m in meta;
    }
  }

  // ----- text, words and literals -----

  lemma BareUnfolds(lib: Lib, v: Json, a: Ann)
    requires !a.Annotated?
    ensures Coerce(lib, v, a) == Convert(lib, v, a)
  {
    assert Strip(a) == (a, []);
  }

  /** Text is taken for a number exactly if Python's parser takes it, and for nothing else but a word or itself. */
  lemma TextConverts(lib: Lib, s: string)
    ensures Coerce(lib, JStr(s), IntT)
         == if lib.parseInt(s).Some? then Accept(JInt(lib.parseInt(s).value)) else Reject(NotInteger)
    ensures Coerce(lib, JStr(s), FloatT)
         == if lib.parseFloat(s).Some? then Accept(JFloat(lib.parseFloat(s).value)) else Reject(NotNumber)
    ensures Coerce(lib, JStr(s), StrT) == Accept(JStr(s))
    ensures Coerce(lib, JStr(s), BoolT)
         == if lib.fold(s) in {"true", "1", "t", "y", "yes", "on"} then Accept(JBool(true))
            else if lib.fold(s) in {"false", "0", "f", "n", "no", "off"} then Accept(JBool(false))
            else Reject(NotBoolean)
  {
    BareUnfolds(lib, JStr(s), IntT);
    BareUnfolds(lib, JStr(s), FloatT);
    BareUnfolds(lib, JStr(s), StrT);
    BareUnfolds(lib, JStr(s), BoolT);
  }

  /** Values of another shape are refused. */
  lemma OtherShapesAreRefused(lib: Lib, v: Json)
    ensures v.JNull? || v.JList? || v.JObj? ==>
              && Coerce(lib, v, IntT) == Reject(NotInteger) && Coerce(lib, v, FloatT) == Reject(NotNumber)
              && Coerce(lib, v, BoolT) == Reject(NotBoolean) && Coerce(lib, v, StrT) == Reject(NotString)
    ensures !v.JStr? ==> Coerce(lib, v, StrT) == Reject(NotString)
    ensures !v.JList? ==> forall item :: Coerce(lib, v, ListT(item)) == Reject(NotList)
    ensures !v.JNull? ==> Coerce(lib, v, NoneT) == Reject(NotNone)
    ensures Coerce(lib, v, AnyT) == Accept(v) && Coerce(lib, v, OtherT) == Accept(v)
  {
    BareUnfolds(lib, v, IntT);
    BareUnfolds(lib, v, FloatT);
    BareUnfolds(lib, v, BoolT);
    BareUnfolds(lib, v, StrT);
    BareUnfolds(lib, v, NoneT);
    BareUnfolds(lib, v, AnyT);
    BareUnfolds(lib, v, OtherT);
    forall item ensures !v.JList? ==> Coerce(lib, v, ListT(item)) == Reject(NotList) {
      BareUnfolds(lib, v, ListT(item));
    }
  }

  /** A scalar passes a `Literal` exactly if it is listed, so that 1 does not pass for True. */
  lemma LiteralExactly(lib: Lib, v: Json, allowed: seq<Json>)
    requires !v.JList? && !v.JObj? && v != JFloat(NaN)
    ensures Coerce(lib, v, LiteralT(allowed)) == if v in allowed then Accept(v) else Reject(NotOneOf(allowed))
  {
    BareUnfolds(lib, v, LiteralT(allowed));
    if v in allowed {
      var i :| 0 <= i < |allowed| && allowed[i] == v;
      assert SameLiteral(v, allowed[i]);
    }
  }

  /** A list converts exactly if every item does, each by itself; otherwise the first that does not decides. */
  lemma {:induction false} ListsItemByItem(lib: Lib, items: seq<Json>, a: Ann)
    ensures CoerceItems(lib, items, a).Items? <==>
              forall k :: 0 <= k < |items| ==> Coerce(lib, items[k], a).Accept?
    ensures match CoerceItems(lib, items, a)
            case Items(ws) =>
              |ws| == |items| && forall k :: 0 <= k < |ws| ==> Coerce(lib, items[k], a) == Accept(ws[k])
            case Stopped(o) =>
              exists k :: 0 <= k < |items| && Coerce(lib, items[k], a) == o
                          && forall i :: 0 <= i < k ==> Coerce(lib, items[i], a).Accept?
  {
    if |items| > 0 {
      ListsItemByItem(lib, items[1..], a);
      if Coerce(lib, items[0], a).Accept? {
        match CoerceItems(lib, items[1..], a)
        case Items(_) =>
        case Stopped(o) =>
          var k :| 0 <= k < |items| - 1 && Coerce(lib, items[1..][k], a) == o
                   && forall i :: 0 <= i < k ==> Coerce(lib, items[1..][i], a).Accept?;
          assert items[k + 1] == items[1..][k];
          forall i | 0 <= i < k + 1 ensures Coerce(lib, items[i], a).Accept? {
            assert i > 0 ==> items[i] == items[1..][i - 1];
          }
      } else {
        assert Coerce(lib, items[0], a) == CoerceItems(lib, items, a).outcome;
      }
    }
  }

  /** An optional parameter is its type or `None`, errors included, in whichever order the two are written. */
  lemma OptionalIsItsType(lib: Lib, v: Json, a: Ann)
    requires !a.NoneT?
    ensures Coerce(lib, v, UnionT([a, NoneT])) == if v.JNull? then Accept(v) else Coerce(lib, v, a)
    ensures Coerce(lib, v, UnionT([NoneT, a])) == if v.JNull? then Accept(v) else Coerce(lib, v, a)
  {
    var u, w := UnionT([a, NoneT]), UnionT([NoneT, a]);
    BareUnfolds(lib, v, u);
    BareUnfolds(lib, v, w);
    assert u.members[0] == a && u.members[1] == NoneT && w.members[0] == NoneT && w.members[1] == a;
    assert Concrete(u.members, 2) == 0 && Concrete(w.members, 2) == 0;
    assert Concrete(u.members, 1) == 0 && Concrete(w.members, 1) == 1;
    assert Concrete(u.members, 0) == 1 && Concrete(w.members, 0) == 1;
    assert TryMembers(lib, v, u, 0) == Coerce(lib, v, a);
    assert TryMembers(lib, v, w, 1) == Coerce(lib, v, a);
    assert TryMembers(lib, v, w, 0) == TryMembers(lib, v, w, 1);
    assert NoneT in u.members && NoneT in w.members;
  }
}

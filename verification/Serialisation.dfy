/**
 A codec that loses nothing, so that what is assumed of `json.dumps` and `json.loads` can be met.

 A value becomes a list of numbers, each written as so many ones and a zero. Members of an
 object are written in whatever order they are picked, as a dict may have them in any order.
 */
module Serialisation {
  import opened Prelude
  import opened Json
  import opened Framing

  type Tokens = seq<nat>

  // ----- numbers to bytes -----

  function Pack(ts: Tokens): seq<Byte>
    decreases |ts|, if |ts| == 0 then 0 else ts[0]
  {
    if |ts| == 0 then []
    else if ts[0] == 0 then [0] + Pack(ts[1..])
    else [1] + Pack([ts[0] - 1] + ts[1..])
  }

  /** `low` is what has been counted of the number being read. */
  function Unpack(raw: seq<Byte>, low: nat): Tokens {
    if |raw| == 0 then []
    else if raw[0] == 0 then [low] + Unpack(raw[1..], 0)
    else Unpack(raw[1..], low + 1)
  }

  lemma {:induction false} PackRoundTrip(ts: Tokens, low: nat)
    ensures Unpack(Pack(ts), low) == if |ts| == 0 then [] else [low + ts[0]] + ts[1..]
    decreases |ts|, if |ts| == 0 then 0 else ts[0]
  {
    if |ts| > 0 {
      if ts[0] == 0 {
        PackRoundTrip(ts[1..], 0);
        assert Pack(ts)[1..] == Pack(ts[1..]);
      } else {
        var less := [ts[0] - 1] + ts[1..];
        PackRoundTrip(less, low + 1);
        assert Pack(ts)[1..] == Pack(less) && less[1..] == ts[1..];
      }
    }
  }

  // ----- values to numbers -----

  function IntTokens(n: int): Tokens {
    if n < 0 then [1, -n] else [0, n]
  }

  function TextTokens(s: string): Tokens {
    if |s| == 0 then [0] else [1, s[0] as nat] + TextTokens(s[1..])
  }

  /** How many halvings make a whole number. */
  ghost function Scale(r: real): (k: nat)
    requires Dyadic(r)
    ensures IntegerAt(r, k)
  {
    var k: nat :| IntegerAt(r, k);
    k
  }

  ghost function FloatTokens(f: Float): Tokens {
    match f
    case Finite(r) =>
      if Dyadic(r) then [3, Scale(r)] + IntTokens(Scaled(r, Scale(r)).Floor) else [9]
    case Infinite(negative) => [4, if negative then 1 else 0]
    case NaN => [5]
  }

  ghost function ValueTokens(j: Json): Tokens
    decreases j, 1, 0
  {
    match j
    case JNull => [0]
    case JBool(b) => [1, if b then 1 else 0]
    case JInt(n) => [2] + IntTokens(n)
    case JFloat(f) => FloatTokens(f)
    case JStr(s) => [6] + TextTokens(s)
    case JList(items) => [7] + ItemTokens(j, 0)
    case JObj(fields) => [8] + FieldTokens(j, fields.Keys)
  }

  ghost function ItemTokens(j: Json, i: nat): Tokens
    requires j.JList? && i <= |j.items|
    decreases j, 0, |j.items| - i
  {
    if i == |j.items| then [0] else [1] + (ValueTokens(j.items[i]) + ItemTokens(j, i + 1))
  }

  ghost function FieldTokens(j: Json, keys: set<string>): Tokens
    requires j.JObj? && keys <= j.fields.Keys
    decreases j, 0, |keys|
  {
    if keys == {} then [0]
    else
      var k :| k in keys;
      [1] + (TextTokens(k) + (ValueTokens(j.fields[k]) + FieldTokens(j, keys - {k})))
  }

  // ----- numbers to values -----

  datatype Read<T> = Read(value: T, rest: Tokens) | Failed

  function ReadInt(ts: Tokens): (r: Read<int>)
    ensures r.Read? ==> |r.rest| < |ts|
  {
    if |ts| < 2 then Failed else Read(if ts[0] == 0 then ts[1] else -(ts[1] as int), ts[2..])
  }

  function ReadText(ts: Tokens): (r: Read<string>)
    ensures r.Read? ==> |r.rest| < |ts|
  {
    if |ts| == 0 then Failed
    else if ts[0] == 0 then Read("", ts[1..])
    else if |ts| == 1 || !(ts[1] < 0xD800 || 0xE000 <= ts[1] < 0x11_0000) then Failed
    else
      match ReadText(ts[2..])
      case Read(s, rest) => Read([ts[1] as char] + s, rest)
      case Failed => Failed
  }

  function ReadValue(ts: Tokens): (r: Read<Json>)
    ensures r.Read? ==> |r.rest| < |ts|
    decreases |ts|
  {
    if |ts| == 0 then Failed
    else if ts[0] == 0 then Read(JNull, ts[1..])
    else if ts[0] == 1 then (if |ts| < 2 then Failed else Read(JBool(ts[1] == 1), ts[2..]))
    else if ts[0] == 2 then
      (match ReadInt(ts[1..]) case Read(n, rest) => Read(JInt(n), rest) case Failed => Failed)
    else if ts[0] == 3 then
      (if |ts| < 2 then Failed
       else match ReadInt(ts[2..])
            case Read(n, rest) => Read(JFloat(Finite(n as real / Pow2(ts[1]) as real)), rest)
            case Failed => Failed)
    else if ts[0] == 4 then (if |ts| < 2 then Failed else Read(JFloat(Infinite(ts[1] == 1)), ts[2..]))
    else if ts[0] == 5 then Read(JFloat(NaN), ts[1..])
    else if ts[0] == 6 then
      (match ReadText(ts[1..]) case Read(s, rest) => Read(JStr(s), rest) case Failed => Failed)
    else if ts[0] == 7 then
      (match ReadItems(ts[1..]) case Read(items, rest) => Read(JList(items), rest) case Failed => Failed)
    else if ts[0] == 8 then
      (match ReadFields(ts[1..]) case Read(fields, rest) => Read(JObj(fields), rest) case Failed => Failed)
    else Failed
  }

  function ReadItems(ts: Tokens): (r: Read<seq<Json>>)
    ensures r.Read? ==> |r.rest| < |ts|
    decreases |ts|
  {
    if |ts| == 0 then Failed
    else if ts[0] == 0 then Read([], ts[1..])
    else
      match ReadValue(ts[1..])
      case Failed => Failed
      case Read(v, rest) =>
        match ReadItems(rest)
        case Failed => Failed
        case Read(more, last) => Read([v] + more, last)
  }

  function ReadFields(ts: Tokens): (r: Read<map<string, Json>>)
    ensures r.Read? ==> |r.rest| < |ts|
    decreases |ts|
  {
    if |ts| == 0 then Failed
    else if ts[0] == 0 then Read(map[], ts[1..])
    else
      match ReadText(ts[1..])
      case Failed => Failed
      case Read(k, rest) =>
        match ReadValue(rest)
        case Failed => Failed
        case Read(v, rest) =>
          match ReadFields(rest)
          case Failed => Failed
          case Read(more, last) => Read(more[k := v], last)
  }

  // ----- reading gives back what was written -----

  lemma IntReadsBack(n: int, rest: Tokens)
    ensures ReadInt(IntTokens(n) + rest) == Read(n, rest)
  {
    assert (IntTokens(n) + rest)[2..] == rest;
  }

  lemma {:induction false} TextReadsBack(s: string, rest: Tokens)
    ensures ReadText(TextTokens(s) + rest) == Read(s, rest)
  {
    var ts := TextTokens(s) + rest;
    if |s| == 0 {
      assert ts[1..] == rest;
    } else {
      TextReadsBack(s[1..], rest);
      assert ts[2..] == TextTokens(s[1..]) + rest;
      assert [s[0]] + s[1..] == s;
    }
  }

  lemma Quotient(r: real, p: real, n: int)
    requires p > 0.0 && n as real == r * p
    ensures n as real / p == r
  {}

  lemma FiniteReadsBack(k: nat, n: int, r: real, rest: Tokens)
    requires n as real == Scaled(r, k)
    ensures ReadValue([3, k] + IntTokens(n) + rest) == Read(JFloat(Finite(r)), rest)
  {
    assert ([3, k] + IntTokens(n) + rest)[2..] == IntTokens(n) + rest;
    IntReadsBack(n, rest);
    Quotient(r, Pow2(k) as real, n);
  }

  lemma FloatReadsBack(f: Float, rest: Tokens)
    requires f.Finite? ==> Dyadic(f.r)
    ensures ReadValue(FloatTokens(f) + rest) == Read(JFloat(f), rest)
  {
    match f
    case Finite(r) =>
      FiniteReadsBack(Scale(r), Scaled(r, Scale(r)).Floor, r, rest);
    case Infinite(negative) =>
      assert ([4, if negative then 1 else 0] + rest)[2..] == rest;
    case NaN =>
      assert ([5] + rest)[1..] == rest;
  }

  lemma TextValueReadsBack(s: string, rest: Tokens)
    ensures ReadValue([6] + TextTokens(s) + rest) == Read(JStr(s), rest)
  {
    assert ([6] + TextTokens(s) + rest)[1..] == TextTokens(s) + rest;
    TextReadsBack(s, rest);
  }

  lemma IntValueReadsBack(n: int, rest: Tokens)
    ensures ReadValue([2] + IntTokens(n) + rest) == Read(JInt(n), rest)
  {
    assert ([2] + IntTokens(n) + rest)[1..] == IntTokens(n) + rest;
    IntReadsBack(n, rest);
  }

  lemma {:induction false} ValueReadsBack(j: Json, rest: Tokens)
    requires Machine(j)
    ensures ReadValue(ValueTokens(j) + rest) == Read(j, rest)
    decreases j, 1, 0
  {
    match j
    case JList(items) =>
      assert ([7] + ItemTokens(j, 0) + rest)[1..] == ItemTokens(j, 0) + rest;
      ItemsReadBack(j, 0, rest);
    case JObj(fields) =>
      assert ([8] + FieldTokens(j, fields.Keys) + rest)[1..] == FieldTokens(j, fields.Keys) + rest;
      FieldsReadBack(j, fields.Keys, rest);
      assert Restricted(fields, fields.Keys) == fields;
    case JNull =>
      assert ([0] + rest)[1..] == rest;
    case JBool(b) =>
      assert ([1, if b then 1 else 0] + rest)[2..] == rest;
    case JInt(n) => IntValueReadsBack(n, rest);
    case JFloat(f) => FloatReadsBack(f, rest);
    case JStr(s) => TextValueReadsBack(s, rest);
  }

  lemma {:induction false} ItemsReadBack(j: Json, i: nat, rest: Tokens)
    requires j.JList? && i <= |j.items| && Machine(j)
    ensures ReadItems(ItemTokens(j, i) + rest) == Read(j.items[i..], rest)
    decreases j, 0, |j.items| - i
  {
    var ts := ItemTokens(j, i) + rest;
    if i == |j.items| {
      assert ts[1..] == rest;
    } else {
      var more := ItemTokens(j, i + 1) + rest;
      assert ts[1..] == ValueTokens(j.items[i]) + more;
      ValueReadsBack(j.items[i], more);
      ItemsReadBack(j, i + 1, rest);
      assert [j.items[i]] + j.items[i + 1..] == j.items[i..];
    }
  }

  function Restricted(fields: map<string, Json>, keys: set<string>): map<string, Json> {
    map k | k in keys && k in fields :: fields[k]
  }

  lemma FieldReadsBack(k: string, v: Json, more: Tokens, fields: map<string, Json>, rest: Tokens)
    requires Machine(v) && ReadFields(more) == Read(fields, rest)
    ensures ReadFields([1] + (TextTokens(k) + (ValueTokens(v) + more))) == Read(fields[k := v], rest)
    decreases v, 2
  {
    var ts := [1] + (TextTokens(k) + (ValueTokens(v) + more));
    assert ts[1..] == TextTokens(k) + (ValueTokens(v) + more);
    TextReadsBack(k, ValueTokens(v) + more);
    ValueReadsBack(v, more);
  }

  lemma {:induction false} FieldsReadBack(j: Json, keys: set<string>, rest: Tokens)
    requires j.JObj? && keys <= j.fields.Keys && Machine(j)
    ensures ReadFields(FieldTokens(j, keys) + rest) == Read(Restricted(j.fields, keys), rest)
    decreases j, 0, |keys|
  {
    if keys == {} {
      assert ([0] + rest)[1..] == rest;
      assert Restricted(j.fields, keys) == map[];
    } else {
      var k :| k in keys && FieldTokens(j, keys)
        == [1] + (TextTokens(k) + (ValueTokens(j.fields[k]) + FieldTokens(j, keys - {k})));
      var more := FieldTokens(j, keys - {k});
      FieldsReadBack(j, keys - {k}, rest);
      FieldReadsBack(k, j.fields[k], more + rest, Restricted(j.fields, keys - {k}), rest);
      Associates(k, j.fields[k], more, rest);
      assert Restricted(j.fields, keys - {k})[k := j.fields[k]] == Restricted(j.fields, keys);
    }
  }

  lemma Associates(k: string, v: Json, more: Tokens, rest: Tokens)
    ensures [1] + (TextTokens(k) + (ValueTokens(v) + more)) + rest
         == [1] + (TextTokens(k) + (ValueTokens(v) + (more + rest)))
  {}

  // ----- the codec -----

  ghost function Encode(j: Json): seq<Byte> {
    Pack(ValueTokens(j))
  }

  ghost function Decode(raw: seq<Byte>): Decoded {
    match ReadValue(Unpack(raw, 0))
    case Read(j, rest) => if rest == [] then Parsed(j) else BadJson
    case Failed => BadJson
  }

  /** The assumption on which calls over the wire rest can be met. */
  lemma LosslessCodecExists()
    ensures exists codec: Codec :: Lossless(codec)
  {
    var codec := Codec(j => Encode(j), raw => Decode(raw));
    forall j: Json | Machine(j)
      ensures codec.decode(codec.encode(j)) == Parsed(j) && |codec.encode(j)| > 0
    {
      var ts := ValueTokens(j);
      PackRoundTrip(ts, 0);
      ValueReadsBack(j, []);
      assert ts + [] == ts && |ts| > 0;
      assert [0 + ts[0]] + ts[1..] == ts;
    }
    assert Lossless(codec);
  }
}

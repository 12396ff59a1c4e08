/** JSON values as the plugin's Python code sees them. */
module Json {
  import opened Prelude

  /** A Python float, with rounding left aside. */
  datatype Float = Finite(r: real) | Infinite(negative: bool) | NaN

  datatype Json =
    | JNull
    | JBool(b: bool)
    | JInt(n: int)
    | JFloat(f: Float)
    | JStr(s: string)
    | JList(items: seq<Json>)
    | JObj(fields: map<string, Json>)

  predicate IsInteger(x: real) {
    x.Floor as real == x
  }

  function Scaled(r: real, k: nat): real {
    r * (Pow2(k) as real)
  }

  /** Doubled so many times, the number is an integer. */
  predicate IntegerAt(r: real, k: nat) {
    IsInteger(Scaled(r, k))
  }

  /** An integer over a power of two, as every finite machine float is. */
  ghost predicate Dyadic(r: real) {
    exists k: nat :: IntegerAt(r, k)
  }

  /** A value that can be in memory: its finite floats are machine floats. */
  ghost predicate Machine(j: Json) {
    match j
    case JFloat(f) => f.Finite? ==> Dyadic(f.r)
    case JList(items) => forall i :: 0 <= i < |items| ==> Machine(items[i])
    case JObj(fields) => forall k :: k in fields ==> Machine(fields[k])
    case _ => true
  }
}

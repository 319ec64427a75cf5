/** The decoded JSON values the subscriber receives, and the few Python built-ins
    the subscriber applies to them: `float(...)`, `str(...)`, `==` and hashing. */
module PyJson {
  import opened Wrappers

  /** A decoded JSON document as Python's `json` module hands it over. Python ints
      and floats are both represented by the real number they denote. */
  datatype Json =
    | Null
    | Bool(b: bool)
    | Num(n: real)
    | Str(s: string)
    | Arr(items: seq<Json>)
    | Obj(fields: map<string, Json>)

  /** The Python exceptions the modelled code raises or catches. */
  datatype PyError = ValueError | TypeError | AttributeError

  /** The two text formats a real number cannot capture: how `float(s)` parses a
      string (it may refuse it), and how `str(v)` renders a number, list or dict. */
  datatype Conversions = Conversions(parseFloat: string -> Option<real>, repr: Json -> string)

  /** Python's `float(v)`: numbers convert exactly, booleans become 1.0 and 0.0,
      strings are parsed, and None, lists and dicts raise TypeError. */
  function PyFloat(v: Json, conv: Conversions): Result<real, PyError>
  {
    match v
    case Num(n) => Success(n)
    case Bool(b) => Success(if b then 1.0 else 0.0)
    case Str(s) =>
      (match conv.parseFloat(s)
       case Some(x) => Success(x)
       case None => Failure(ValueError))
    case _ => Failure(TypeError)
  }

  /** Python's `str(v)`, which never fails on a decoded JSON value. */
  function PyStr(v: Json, conv: Conversions): string
  {
    match v
    case Str(s) => s
    case Null => "None"
    case Bool(b) => if b then "True" else "False"
    case _ => conv.repr(v)
  }

  /** Python's `==` treats True and False as 1 and 0, also inside containers;
      `Canon` replaces every boolean by that number. */
  function Canon(v: Json): Json
  {
    match v
    case Bool(b) => Num(if b then 1.0 else 0.0)
    case Arr(items) => Arr(seq(|items|, i requires 0 <= i < |items| => Canon(items[i])))
    case Obj(fields) => Obj(map k | k in fields :: Canon(fields[k]))
    case _ => v
  }

  /** Python's `a == b` on decoded JSON values. */
  predicate PyEq(a: Json, b: Json)
  {
    Canon(a) == Canon(b)
  }

  /** A dictionary key as Python identifies it: values that compare equal
      (1, 1.0 and True) are one key. */
  datatype Key = KeyNone | KeyNum(n: real) | KeyStr(s: string)

  /** The dictionary key of a hashable value; lists and dicts are unhashable. */
  function HashKey(v: Json): Option<Key>
  {
    match v
    case Null => Some(KeyNone)
    case Bool(b) => Some(KeyNum(if b then 1.0 else 0.0))
    case Num(n) => Some(KeyNum(n))
    case Str(s) => Some(KeyStr(s))
    case _ => None
  }

  /** Only None compares equal to None. */
  lemma PyEqNull(v: Json)
    ensures PyEq(Null, v) <==> v == Null
  {
  }

  /** Two hashable values are the same dictionary key exactly when they compare
      equal, which is what Python requires of `__hash__` and `__eq__`. */
  lemma HashKeyAgreesWithPyEq(a: Json, b: Json)
    requires HashKey(a).Some? && HashKey(b).Some?
    ensures HashKey(a) == HashKey(b) <==> PyEq(a, b)
  {
  }
}

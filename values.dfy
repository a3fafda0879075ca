/** Python's object model, as far as the ingest pipeline and the dashboards look at it:
    the values a decoded JSON payload or a DataFrame cell can hold, Python truthiness,
    `dict.get`, the `or` operator, and the coercions `float()`, `int()`,
    `pd.to_numeric(..., errors="coerce")` and `pd.to_datetime(..., errors="coerce")`. */
module Values {

  datatype Option<+T> = None | Some(value: T)

  datatype Result<+T, +E> = Ok(value: T) | Err(error: E)

  /** A Python value. `Null` is Python's `None` (and, in a DataFrame cell, pandas' NaN/NaT);
      `Time` is a UTC timestamp in whole seconds since the epoch; `Dict` is a JSON object. */
  datatype Value =
    | Null
    | Bool(b: bool)
    | Num(n: real)
    | Str(s: string)
    | Time(t: int)
    | List(items: seq<Value>)
    | Dict(fields: map<string, Value>)

  /** The grammar of the parsers Python and pandas apply to text, left abstract: every
      property proved here holds whichever parsers these are. */
  datatype Parsers = Parsers(
    floatOfStr: string -> Option<real>,  // float(s) on a str; None when it raises
    intOfStr: string -> Option<int>,     // int(s) on a str; None when it raises
    strOf: Value -> string,              // str(v) on a value that is not a str
    timeOf: Value -> Option<int>         // pd.to_datetime(v, utc=True, errors="coerce") on a value that is neither null nor a timestamp
  )

  /** Python's `bool(v)`. */
  predicate Truthy(v: Value) {
    match v
    case Null => false
    case Bool(b) => b
    case Num(n) => n != 0.0
    case Str(s) => s != ""
    case Time(_) => true
    case List(xs) => xs != []
    case Dict(m) => m != map[]
  }

  /** `d.get(k)`: a missing key reads as None, exactly like an explicit JSON null. */
  function Get(d: map<string, Value>, k: string): (v: Value)
    ensures k !in d ==> v == Null
    ensures k in d ==> v == d[k]
  {
    if k in d then d[k] else Null
  }

  /** Python's `a or b`: the first operand when it is truthy, else the second. */
  function Or(a: Value, b: Value): (r: Value)
    ensures Truthy(r) <==> Truthy(a) || Truthy(b)
    ensures Truthy(a) ==> r == a
    ensures !Truthy(a) ==> r == b
  {
    if Truthy(a) then a else b
  }

  /** `_to_float(v)`: `float(v)` for a non-None value, with every exception caught.
      It never fails: None stands both for a None input and for a value `float()` rejects.
      The same coercion models `pd.to_numeric(v, errors="coerce")` on one cell. */
  function ToFloat(v: Value, p: Parsers): (r: Option<real>)
    ensures v.Null? || v.Time? || v.List? || v.Dict? ==> r == None
    ensures v.Num? ==> r == Some(v.n)
    ensures v.Bool? ==> r == Some(if v.b then 1.0 else 0.0)
    ensures v.Str? ==> r == p.floatOfStr(v.s)
  {
    match v
    case Bool(b) => Some(if b then 1.0 else 0.0)
    case Num(n) => Some(n)
    case Str(s) => p.floatOfStr(s)
    case _ => None
  }

  /** `_to_float(v) or 0.0`, which is also `pd.to_numeric(v, errors="coerce")` followed by
      `fillna(0.0)`: a value that does not parse counts as 0.0. */
  function NumberOrZero(v: Value, p: Parsers): (r: real)
    ensures ToFloat(v, p).None? ==> r == 0.0
    ensures ToFloat(v, p).Some? ==> r == ToFloat(v, p).value
  {
    match ToFloat(v, p)
    case Some(x) => if x != 0.0 then x else 0.0
    case None => 0.0
  }

  /** Truncation toward zero, which is what `int()` does to a Python float. */
  function Truncate(x: real): (r: int)
    ensures x >= 0.0 ==> r >= 0 && r as real <= x < r as real + 1.0
    ensures x < 0.0 ==> r <= 0 && r as real - 1.0 < x <= r as real
  {
    if x >= 0.0 then x.Floor else -((-x).Floor)
  }

  /** `int(v)`, with None standing for the exception it raises. */
  function ToInt(v: Value, p: Parsers): (r: Option<int>)
    ensures v.Null? || v.Time? || v.List? || v.Dict? ==> r == None
    ensures v.Num? ==> r == Some(Truncate(v.n))
    ensures v.Bool? ==> r == Some(if v.b then 1 else 0)
    ensures v.Str? ==> r == p.intOfStr(v.s)
  {
    match v
    case Bool(b) => Some(if b then 1 else 0)
    case Num(n) => Some(Truncate(n))
    case Str(s) => p.intOfStr(s)
    case _ => None
  }

  /** `pd.to_datetime(v, utc=True, errors="coerce")` on one cell: NaT (None) for a null,
      a timestamp unchanged, anything else through the abstract parser. */
  function ToDatetime(v: Value, p: Parsers): (r: Option<int>)
    ensures v.Null? ==> r == None
    ensures v.Time? ==> r == Some(v.t)
  {
    match v
    case Null => None
    case Time(t) => Some(t)
    case _ => p.timeOf(v)
  }

  /** `str(v)`: a str is itself; any other value goes through the abstract rendering. */
  function StrOf(v: Value, p: Parsers): (s: string)
    ensures v.Str? ==> s == v.s
  {
    if v.Str? then v.s else p.strOf(v)
  }

  /** Python's `a < b` on two str: the first differing code point decides, and a proper
      prefix comes first. */
  predicate StrLess(a: string, b: string) {
    if |a| == 0 then |b| > 0
    else if |b| == 0 then false
    else if a[0] != b[0] then a[0] < b[0]
    else StrLess(a[1..], b[1..])
  }

  lemma {:induction false} StrLessIrreflexive(a: string)
    ensures !StrLess(a, a)
  {
    if |a| > 0 {
      StrLessIrreflexive(a[1..]);
    }
  }

  lemma {:induction false} StrLessTransitive(a: string, b: string, c: string)
    requires StrLess(a, b) && StrLess(b, c)
    ensures StrLess(a, c)
  {
    if |a| > 0 && a[0] == b[0] && b[0] == c[0] {
      StrLessTransitive(a[1..], b[1..], c[1..]);
    }
  }

  lemma {:induction false} StrLessTotal(a: string, b: string)
    ensures a == b || StrLess(a, b) || StrLess(b, a)
  {
    if |a| > 0 && |b| > 0 && a[0] == b[0] {
      StrLessTotal(a[1..], b[1..]);
      if a[1..] == b[1..] {
        assert a == [a[0]] + a[1..] && b == [b[0]] + b[1..];
      }
    }
  }

  function Min(a: int, b: int): int { if a <= b then a else b }

  function Max(a: int, b: int): int { if a >= b then a else b }
}

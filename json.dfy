/**
 * Parsed JSON values as Python's `json.loads` produces them, and the few
 * Python operations the backend applies to them: truthiness, `dict.get`,
 * `int(...)` and slicing. An operation Python would raise on yields `Err`
 * with the exception's class.
 */
module Json {
  import opened Maybe
  import PyText

  /** A JSON object is a `dict`; a repeated key keeps its last value, as in `json.loads`. */
  datatype JValue =
    | JNull
    | JBool(b: bool)
    | JInt(i: int)
    | JFloat(r: real)
    | JStr(s: string)
    | JList(elems: seq<JValue>)
    | JObj(fields: map<string, JValue>)

  /** The exceptions the normalising code can raise. */
  datatype PyError = AttributeError | TypeError | ValueError

  datatype Result<+T> = Ok(value: T) | Err(error: PyError) {
    predicate IsFailure() {
      Err?
    }

    function PropagateFailure<U>(): Result<U>
      requires Err?
    {
      Err(error)
    }

    function Extract(): T
      requires Ok?
    {
      value
    }
  }

  function Min(a: nat, b: nat): nat {
    if a < b then a else b
  }

  /** `len(v)` of a list or a str; 0 for anything else. */
  function Len(v: JValue): nat {
    match v
    case JList(e) => |e|
    case JStr(s) => |s|
    case _ => 0
  }

  /** Python's `bool(v)`. */
  predicate Truthy(v: JValue) {
    match v
    case JNull => false
    case JBool(b) => b
    case JInt(i) => i != 0
    case JFloat(r) => r != 0.0
    case JStr(s) => s != []
    case JList(e) => e != []
    case JObj(f) => f != map[]
  }

  /** Python's `v or alt`. */
  function Or(v: JValue, alt: JValue): (r: JValue)
    ensures Truthy(v) ==> r == v
    ensures !Truthy(v) ==> r == alt
    ensures Truthy(r) <==> Truthy(v) || Truthy(alt)
  {
    if Truthy(v) then v else alt
  }

  /** `obj.get(key, default)`; anything but a `dict` has no `get`. */
  function Get(obj: JValue, key: string, default: JValue): (r: Result<JValue>)
    ensures !obj.JObj? <==> r == Err(AttributeError)
    ensures r.Ok? ==> r.value == default || r.value in obj.fields.Values
    ensures obj.JObj? && key in obj.fields ==> r == Ok(obj.fields[key])
    ensures obj.JObj? && key !in obj.fields ==> r == Ok(default)
  {
    match obj
    case JObj(f) => Ok(if key in f then f[key] else default)
    case _ => Err(AttributeError)
  }

  /** `int(x)` of a float: truncation toward zero. */
  function Trunc(x: real): (n: int)
    ensures 0.0 <= x ==> n as real <= x < n as real + 1.0
    ensures x < 0.0 ==> n as real - 1.0 < x <= n as real
  {
    if x >= 0.0 then x.Floor else -((-x).Floor)
  }

  /**
   * `int(v)`: an int is itself, a bool is 0 or 1, a float is truncated,
   * a str is parsed in base 10 (`ValueError` when it is no number), and
   * `None`, a list or a dict raise `TypeError`.
   */
  function ToInt(v: JValue): Result<int> {
    match v
    case JInt(i) => Ok(i)
    case JBool(b) => Ok(if b then 1 else 0)
    case JFloat(x) => Ok(Trunc(x))
    case JStr(s) =>
      (match PyText.ParseInt(s)
       case Some(n) => Ok(n)
       case None => Err(ValueError))
    case _ => Err(TypeError)
  }

  /**
   * `v[:n]`: a list or a str keeps its first `n` entries. Anything else
   * raises: `TypeError` for `None`, numbers and bools, and for a `dict`
   * too before Python 3.12 (from 3.12 on a slice is hashable and a `dict`
   * raises `KeyError`); the model records `TypeError` throughout.
   */
  function SliceTo(v: JValue, n: nat): (r: Result<JValue>)
    ensures (v.JList? || v.JStr?) <==> r.Ok?
    ensures r.Err? ==> r.error == TypeError
    ensures v.JList? ==>
      r.Ok? && r.value.JList? && |r.value.elems| == Min(n, |v.elems|) && r.value.elems <= v.elems
    ensures v.JStr? ==>
      r.Ok? && r.value.JStr? && |r.value.s| == Min(n, |v.s|) && r.value.s <= v.s
    ensures r.Ok? && n >= Len(v) ==> r.value == v
  {
    match v
    case JList(e) => Ok(JList(e[..Min(n, |e|)]))
    case JStr(s) => Ok(JStr(s[..Min(n, |s|)]))
    case _ => Err(TypeError)
  }

  /**
   * A number rendered in decimal and read back with `int()` is that number,
   * for every number within CPython's digit limit.
   */
  lemma ToIntOfDecimal(n: int)
    requires |PyText.NatToString(if n < 0 then -n else n)| <= PyText.MaxStrDigits
    ensures ToInt(JStr(PyText.IntToString(n))) == Ok(n)
  {
    PyText.ParseIntOfIntToString(n);
  }

  /** `int()` of a string ignores the blanks it skips at either end. */
  lemma ToIntIgnoresPadding(s: string)
    ensures ToInt(JStr(PyText.Trim(s, PyText.IntBlanks))) == ToInt(JStr(s))
  {
    PyText.TrimIdempotent(s, PyText.IntBlanks);
  }

  /** A string that `str.strip()` would clean up can still make `int()` raise. */
  lemma ToIntRejectsSeparator()
    ensures ToInt(JStr([28 as char] + "5")) == Err(ValueError)
    ensures ToInt(JStr(PyText.Strip([28 as char] + "5"))) == Ok(5)
  {
    PyText.SeparatorOnlyStripped();
    PyText.ParseDigits("5");
    assert PyText.DecimalValue("5") == 5;
  }
}

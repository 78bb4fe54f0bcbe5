/**
 * Values shared by the whole model: the exceptions the Python code can raise,
 * the already-parsed JSON that the upstream service returns, the attribute
 * values a DynamoDB item holds, and Python's int() conversion on them.
 */
module Values {

  datatype Option<T> = None | Some(value: T)

  /** The Python exception classes that the modelled code can raise. */
  datatype Error =
    | KeyError(key: string)   // d[k] on a dict without k
    | IndexError              // xs[0] on an empty list
    | TypeError               // a call with missing/unexpected arguments, int(None)
    | ValueError              // max() of an empty sequence, int() of a non-numeric string
    | InvalidOperation        // Decimal(str(None))

  /** A value returned normally, or the exception that was raised instead. */
  datatype Result<T> = Ok(value: T) | Err(error: Error) {
    predicate IsFailure() { Err? }
    function PropagateFailure<U>(): Result<U> requires Err? { Err(error) }
    function Extract(): T requires Ok? { value }
  }

  /** A scalar of a parsed JSON response (JSON floats and JSON integers are kept apart). */
  datatype JsonVal = Null | Num(r: real) | Int(i: int) | Str(s: string)

  /** One JSON object of a response list. */
  type Record = map<string, JsonVal>

  /** A DynamoDB attribute value: every number is a Decimal (N), text is S. */
  datatype Attr = N(n: real) | S(s: string)

  /** A DynamoDB item: attribute name to attribute value. */
  type Item = map<string, Attr>

  /** Python's int() on a float or a Decimal: truncation toward zero. */
  function Trunc(x: real): (n: int)
    ensures 0.0 <= x ==> n as real <= x < n as real + 1.0
    ensures x < 0.0 ==> n as real - 1.0 < x <= n as real
  {
    if 0.0 <= x then x.Floor else -((-x).Floor)
  }

  predicate IsIntegral(x: real) {
    x.Floor as real == x
  }

  /** Python's int() applied to a JSON scalar. */
  function IntOfJson(j: JsonVal): (r: Result<int>)
    ensures j.Int? ==> r == Ok(j.i)
    ensures j.Num? ==> r == Ok(Trunc(j.r))
    ensures j.Null? ==> r == Err(TypeError)
    ensures j.Str? ==> r == Err(ValueError)
  {
    match j
    case Int(i) => Ok(i)
    case Num(x) => Ok(Trunc(x))
    case Null => Err(TypeError)
    case Str(_) => Err(ValueError)
  }

  /** Python's int() applied to item.get(name): a missing attribute reads as None. */
  function IntOfAttr(a: Option<Attr>): (r: Result<int>)
    ensures a.None? ==> r == Err(TypeError)
    ensures a.Some? && a.value.N? ==> r == Ok(Trunc(a.value.n))
    ensures a.Some? && a.value.N? && IsIntegral(a.value.n) ==> r == Ok(a.value.n.Floor)
    ensures a.Some? && a.value.S? ==> r == Err(ValueError)
  {
    match a
    case None => Err(TypeError)
    case Some(N(x)) => Ok(Trunc(x))
    case Some(S(_)) => Err(ValueError)
  }

  /**
   * A list comprehension whose element expression may raise: every element
   * is converted in order, and the first exception ends the whole call.
   */
  function MapAll<A, B>(xs: seq<A>, f: A -> Result<B>): (r: Result<seq<B>>)
    ensures r.Ok? <==> forall i :: 0 <= i < |xs| ==> f(xs[i]).Ok?
    ensures r.Ok? ==> |r.value| == |xs| && forall i :: 0 <= i < |xs| ==> f(xs[i]) == Ok(r.value[i])
    ensures r.Err? ==> exists i :: 0 <= i < |xs| && f(xs[i]) == Err(r.error)
                                && forall j :: 0 <= j < i ==> f(xs[j]).Ok?
  {
    if xs == [] then Ok([])
    else
      match f(xs[0])
      case Err(e) => Err(e)
      case Ok(y) =>
        match MapAll(xs[1..], f)
        case Err(e) => Err(e)
        case Ok(ys) => Ok([y] + ys)
  }

  /** dict.get(name) on an item. */
  function Get(item: Item, name: string): (r: Option<Attr>)
    ensures r.Some? <==> name in item
    ensures r.Some? ==> r.value == item[name]
  {
    if name in item then Some(item[name]) else None
  }
}

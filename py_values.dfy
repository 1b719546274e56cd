/** Python's dynamic values, the exceptions the core raises or catches, and
    the outcome of a Python call (a value or a raised exception). */
module PyValues {

  /** The shapes of Python value the validators distinguish. A `PyScalar` is
      any value that is neither None, a string nor iterable (an int, a float,
      a bool, ...); its `typeName` is what Python prints for its type. */
  datatype PyVal =
    | PyNone
    | PyStr(s: string)
    | PyList(items: seq<PyVal>)
    | PyTuple(items: seq<PyVal>)
    | PyScalar(typeName: string)

  /** `Optional[str]`, as returned by a dictionary lookup with `.get`. */
  datatype Option<+T> = None | Some(value: T)

  /** The exceptions the core raises, and the PyJWT ones the decorator names.
      In PyJWT `InvalidSignatureError` is a subclass of `DecodeError`; every
      other exception an oracle may raise is an `OtherException`. */
  datatype PyException =
    | ValueError(msg: string)
    | TypeError(msg: string)
    | KeyError(key: string)
    | ExpiredSignatureError(msg: string)
    | InvalidAudienceError(msg: string)
    | DecodeError(msg: string)
    | InvalidSignatureError(msg: string)
    | OtherException(name: string, msg: string)

  /** True of the exceptions an `except DecodeError:` clause catches. */
  predicate IsDecodeError(e: PyException) {
    e.DecodeError? || e.InvalidSignatureError?
  }

  /** A Python call either returns a value or raises; usable with `:-`. */
  datatype Outcome<+T> = Ok(value: T) | Raise(exc: PyException) {
    predicate IsFailure() {
      Raise?
    }

    function PropagateFailure<U>(): Outcome<U>
      requires Raise?
    {
      Raise(exc)
    }

    function Extract(): T
      requires Ok?
    {
      value
    }
  }

  /** `type(v).__name__` for the shapes above. */
  function TypeName(v: PyVal): string {
    match v
    case PyNone => "NoneType"
    case PyStr(_) => "str"
    case PyList(_) => "list"
    case PyTuple(_) => "tuple"
    case PyScalar(name) => name
  }

  /** `isinstance(v, str)` for every element. */
  predicate AllStrings(xs: seq<PyVal>) {
    forall i :: 0 <= i < |xs| ==> xs[i].PyStr?
  }

  /** The elements `for x in v` visits, or the TypeError `iter(v)` raises.
      Iterating a string yields its characters as one-character strings. */
  function Iterate(v: PyVal): (r: Outcome<seq<PyVal>>)
    ensures r.Ok? <==> v.PyStr? || v.PyList? || v.PyTuple?
    ensures r.Raise? ==> r.exc == TypeError("'" + TypeName(v) + "' object is not iterable")
    ensures (v.PyList? || v.PyTuple?) ==> r == Ok(v.items)
    ensures v.PyStr? ==> |r.value| == |v.s| && AllStrings(r.value)
    ensures v.PyStr? ==> forall i :: 0 <= i < |v.s| ==> r.value[i] == PyStr([v.s[i]])
  {
    match v
    case PyStr(s) => Ok(seq(|s|, i requires 0 <= i < |s| => PyStr([s[i]])))
    case PyList(items) => Ok(items)
    case PyTuple(items) => Ok(items)
    case _ => Raise(TypeError("'" + TypeName(v) + "' object is not iterable"))
  }
}

/** Shared vocabulary: optional and failure-carrying results, the Python
    exceptions the modelled code raises, dynamically typed Python values,
    and Python's integer operators where they differ from Dafny's. */
module Common {

  datatype Option<T> = None | Some(value: T)

  datatype Result<T, E> = Ok(value: T) | Err(error: E)

  datatype Outcome<E> = Pass | Fail(error: E)

  /** The Python exceptions that the modelled code can raise. */
  datatype PyError =
    | AssertionError
    | TypeError
    | KeyError
    | IndexError
    | ValueError
    | NameError
    | FileExistsError
    | FileNotFoundError
    | OSError
    | StopIteration
    | ZeroDivisionError
    /** A bare `Exception(...)`. */
    | Exception

  /** A dynamically typed Python value, as far as the modelled code inspects it. */
  datatype PyValue =
    | PyNone
    | PyStr(s: string)
    | PyInt(i: int)
    | PyFloat(f: real)
    | PyOther(tag: nat)

  /** Python truthiness of a value. */
  predicate Truthy(v: PyValue)
  {
    match v
    case PyNone => false
    case PyStr(s) => s != ""
    case PyInt(i) => i != 0
    case PyFloat(f) => f != 0.0
    case PyOther(_) => true
  }

  /** Python's `a // b`, which rounds toward negative infinity. */
  function FloorDiv(a: int, b: int): (q: int)
    requires b != 0
    ensures b > 0 ==> q * b <= a < q * b + b
    ensures b < 0 ==> q * b + b < a <= q * b
  {
    if b > 0 then a / b else (-a) / (-b)
  }

  /** Python's `a % b`: the remainder takes the sign of the divisor. */
  function PyMod(a: int, b: int): (r: int)
    requires b != 0
    ensures b > 0 ==> 0 <= r < b
    ensures b < 0 ==> b < r <= 0
    ensures a == FloorDiv(a, b) * b + r
  {
    a - FloorDiv(a, b) * b
  }

  /** Python's `int(x)` on a float: truncation toward zero. */
  function Trunc(x: real): (r: int)
    ensures x >= 0.0 ==> r == x.Floor
    ensures x >= 0.0 ==> r as real <= x < r as real + 1.0
    ensures x < 0.0 ==> r as real - 1.0 < x <= r as real
  {
    if x >= 0.0 then x.Floor else -((-x).Floor)
  }

  /** Where the Python slice `s[start:]` begins, for a list of length `len`. */
  function SliceStart(len: nat, start: int): (k: nat)
    ensures k <= len
    ensures 0 <= start <= len ==> k == start
    ensures start < 0 && 0 <= len + start ==> k == len + start
  {
    if start < 0 then (if len + start < 0 then 0 else len + start)
    else if start > len then len else start
  }

  /** Python's `s[i]` for a list: negative indices count from the end. */
  function PyIndex<T>(s: seq<T>, i: int): (r: Result<T, PyError>)
    ensures r.Ok? <==> -|s| <= i < |s|
    ensures 0 <= i < |s| ==> r == Ok(s[i])
    ensures -|s| <= i < 0 ==> r == Ok(s[|s| + i])
  {
    if 0 <= i < |s| then Ok(s[i])
    else if -|s| <= i < 0 then Ok(s[|s| + i])
    else Err(IndexError)
  }

  /** One element moves from the part of a set still to do to the part
      done; the loop that does so terminates. */
  lemma MoveOne<T>(left: set<T>, done: set<T>, whole: set<T>, u: T)
    requires left !! done && left + done == whole && u in left
    ensures (left - {u}) !! (done + {u}) && (left - {u}) + (done + {u}) == whole
    ensures left - {u} < left
  {
  }
}

/** Small shared datatypes: optional values, results, and the Python
    exception classes the backend code can raise on malformed input. */
module Base {

  datatype Option<+T> = None | Some(value: T) {
    function GetOr(default: T): T {
      match this
      case Some(v) => v
      case None => default
    }
  }

  /** The built-in exception a Python operation raises instead of returning. */
  datatype PyError =
    | ZeroDivisionError   // `//` by zero
    | ValueError          // `range` with a zero step
    | TypeError           // `len`, a slice or a subscript on a value that does not support it
    | KeyError            // subscript of a dict with a missing key

  datatype Result<+T, +E> = Success(value: T) | Failure(error: E) {
    predicate IsFailure() { Failure? }
  }

  /** Concatenation of a sequence of sequences. */
  function Flatten<T>(xss: seq<seq<T>>): seq<T>
  {
    if |xss| == 0 then [] else Flatten(xss[..|xss| - 1]) + xss[|xss| - 1]
  }

  lemma FlattenAppend<T>(xss: seq<seq<T>>, yss: seq<seq<T>>)
    ensures Flatten(xss + yss) == Flatten(xss) + Flatten(yss)
  {
    if |yss| == 0 {
      assert xss + yss == xss;
    } else {
      assert (xss + yss)[..|xss + yss| - 1] == xss + yss[..|yss| - 1];
      FlattenAppend(xss, yss[..|yss| - 1]);
    }
  }

  lemma FlattenCons<T>(xs: seq<T>, yss: seq<seq<T>>)
    ensures Flatten([xs] + yss) == xs + Flatten(yss)
  {
    FlattenAppend([xs], yss);
    assert Flatten([xs]) == Flatten([xs][..0]) + xs;
  }
}

/** Python and numpy behaviour the radar code relies on: the exceptions it can
    raise, `round` on a float, and numpy's indexing of a 2-D array with
    possibly negative indices. */
module Base {

  datatype Option<+T> = None | Some(value: T)

  /** The Python exceptions the modelled code can end in. */
  datatype Error =
    | KeyError(key: string)   // a dictionary lookup of a missing key
    | IndexError              // a numpy or list index outside the array
    | ZeroDivisionError       // a float division by zero
    | UnboundLocalError       // a local variable read before any assignment
    | ValueError              // raised explicitly by the code

  /** The outcome of a Python call: its value, or the exception it raised. */
  datatype Result<+T> = Ok(value: T) | Err(error: Error) {
    predicate IsFailure() { Err? }

    function PropagateFailure<U>(): Result<U>
      requires Err?
    {
      Err(error)
    }

    function Extract(): T
      requires Ok?
    {
      value
    }
  }

  /** A 2-D numpy array, indexed [ray][gate]. */
  type Grid<T> = seq<seq<T>>

  /** `g` has `rows` rows of `cols` elements each. */
  predicate IsGrid<T>(g: Grid<T>, rows: nat, cols: nat) {
    |g| == rows && forall i :: 0 <= i < rows ==> |g[i]| == cols
  }

  /** Python's built-in `round` on a float: the nearest integer, ties to the even one. */
  function Round(t: real): (k: int)
    ensures k as real - 0.5 <= t <= k as real + 0.5
    ensures t == k as real - 0.5 || t == k as real + 0.5 ==> k % 2 == 0
  {
    var f := t.Floor;
    var d := t - f as real;
    if d < 0.5 then f
    else if d > 0.5 then f + 1
    else if f % 2 == 0 then f
    else f + 1
  }

  /** The two properties in Round's contract single out one integer. */
  lemma RoundUnique(t: real, m: int)
    requires m as real - 0.5 <= t <= m as real + 0.5
    requires t == m as real - 0.5 || t == m as real + 0.5 ==> m % 2 == 0
    ensures m == Round(t)
  {
    var k := Round(t);
    assert k - 1 <= m <= k + 1;
  }

  /** Rounding a whole number gives that number back. */
  lemma RoundInteger(k: int)
    ensures Round(k as real) == k
  {
    RoundUnique(k as real, k);
  }

  /** numpy's resolution of one index `i` into an axis of length `n`:
      -n <= i < n is accepted and a negative index counts from the end. */
  function NumpyIndex(i: int, n: nat): (r: Option<nat>)
    ensures r.Some? <==> -(n as int) <= i < n
    ensures r.Some? ==> r.value < n && r.value == i % n
  {
    if 0 <= i < n then Some(i)
    else if -(n as int) <= i < 0 then Some(i + n)
    else None
  }

  /** `g[ray, gate]` on a numpy array: IndexError when either index is out of range. */
  function At<T>(g: Grid<T>, ray: int, gate: int): (r: Result<T>)
    ensures r.Err? ==> r.error == IndexError
  {
    match NumpyIndex(ray, |g|)
    case None => Err(IndexError)
    case Some(a) =>
      match NumpyIndex(gate, |g[a]|)
      case None => Err(IndexError)
      case Some(b) => Ok(g[a][b])
  }

  /** On a rows x cols array, `g[ray, gate]` succeeds exactly when both indices are
      within numpy's range, and then reads the element at the indices taken modulo
      the axis lengths: -1 is the last ray or gate. */
  lemma AtGrid<T>(g: Grid<T>, rows: nat, cols: nat, ray: int, gate: int)
    requires IsGrid(g, rows, cols)
    ensures At(g, ray, gate).Ok? <==> -(rows as int) <= ray < rows && -(cols as int) <= gate < cols
    ensures At(g, ray, gate).Ok? ==> At(g, ray, gate).value == g[ray % rows][gate % cols]
    ensures At(g, ray, gate).Err? ==> At(g, ray, gate).error == IndexError
  {
    if -(rows as int) <= ray < rows {
      var a := NumpyIndex(ray, rows).value;
      assert |g[a]| == cols;
    }
  }
}

/** Small shared datatypes: optional values, the read error of a line source,
    a failure-compatible result, and the order-preserving filter used by the
    filtering scanner. */
module Base {

  /** Stands in for a nil-able pointer. */
  datatype Option<+T> = None | Some(value: T)

  /** An error reported by the underlying line source (an I/O failure).
      The front end never inspects it; it only passes it on. */
  datatype Error = ReadError(msg: string)

  /** Either a value or the error that aborted the computation (the parser's
      panic, recovered in Parse). Usable with `:-`. */
  datatype Result<+T> = Success(value: T) | Failure(error: Error) {

    predicate IsFailure() {
      Failure?
    }

    function PropagateFailure<U>(): Result<U>
      requires Failure?
    {
      Failure(error)
    }

    function Extract(): T
      requires Success?
    {
      value
    }
  }

  /** The elements of xs satisfying keep, in their original order. */
  function Filter<T>(keep: T -> bool, xs: seq<T>): (r: seq<T>)
    ensures |r| <= |xs|
    ensures forall k :: 0 <= k < |r| ==> keep(r[k])
    ensures forall k :: 0 <= k < |xs| && keep(xs[k]) ==> xs[k] in r
  {
    if |xs| == 0 then []
    else if keep(xs[0]) then [xs[0]] + Filter(keep, xs[1..])
    else Filter(keep, xs[1..])
  }

  /** Filtering distributes over concatenation. */
  lemma {:induction false} FilterAppend<T>(keep: T -> bool, a: seq<T>, b: seq<T>)
    ensures Filter(keep, a + b) == Filter(keep, a) + Filter(keep, b)
    decreases |a|
  {
    if |a| == 0 {
      assert a + b == b;
    } else {
      assert (a + b)[0] == a[0];
      assert (a + b)[1..] == a[1..] + b;
      FilterAppend(keep, a[1..], b);
    }
  }

  /** xs is an initial segment of ys. */
  predicate IsPrefix<T(==)>(xs: seq<T>, ys: seq<T>) {
    |xs| <= |ys| && xs == ys[..|xs|]
  }

  lemma AppendAssoc<T>(a: seq<T>, b: seq<T>, c: seq<T>)
    ensures a + b + c == a + (b + c)
  {
  }

  lemma AppendEmpty<T>(a: seq<T>)
    ensures a + [] == a && [] + a == a
  {
  }
}

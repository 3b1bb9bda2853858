/** Small helpers shared by the modules of this model: an optional value and the minimum of two integers. */
module Wrappers {

  /** A value that may be absent: JavaScript's `undefined`/`null` or a missing slot. */
  datatype Option<+T> = None | Some(value: T)

  /** `Math.min` on two integers. */
  function Min(a: int, b: int): (r: int)
    ensures r <= a && r <= b && (r == a || r == b)
  {
    if a <= b then a else b
  }

  /** The elements of an optional value, as a sequence of length zero or one. */
  function ToSeq<T>(o: Option<T>): (r: seq<T>)
    ensures |r| <= 1
    ensures o.Some? <==> |r| == 1
    ensures o.Some? ==> r[0] == o.value
  {
    match o
    case None => []
    case Some(v) => [v]
  }
}

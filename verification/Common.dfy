/** Types shared by every component of the model. */
module Common {
  datatype Option<+T> = None | Some(value: T)

  datatype Result<+T, +E> = Success(value: T) | Failure(error: E)

  /** How the code leaves its contract with its caller: it indexes a buffer outside its bounds,
      after which nothing is defined, or asks for a vector of negative length, which throws. */
  datatype Fault = OutOfBounds | LengthError

  type byte = x: int | 0 <= x < 256

  function Min(a: int, b: int): int {
    if a < b then a else b
  }

  function Max(a: int, b: int): int {
    if a < b then b else a
  }

  /** The `n` numbers from `p` on. */
  function Span(p: nat, n: nat): (r: set<nat>)
    ensures forall k: nat :: k in r <==> p <= k < p + n
    ensures |r| == n
  {
    if n == 0 then {} else Span(p, n - 1) + {p + n - 1}
  }

  function Range(n: nat): (r: set<nat>)
    ensures forall k: nat :: k in r <==> k < n
    ensures |r| == n
  {
    Span(0, n)
  }

  lemma {:induction false} SubsetSize<T>(a: set<T>, b: set<T>)
    requires a <= b
    ensures |a| <= |b|
    ensures |a| == |b| ==> a == b
  {
    if x :| x in a {
      SubsetSize(a - {x}, b - {x});
    }
  }
}

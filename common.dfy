/** Shared vocabulary: the failures the pipeline can raise, finite sums,
    and numpy's rules for normalising an integer index. */
module Common {

  /** The exceptions the modelled code can raise. */
  datatype Error =
    | IndexOutOfRange   // numpy IndexError
    | MissingKey        // dict lookup KeyError
    | NegativeDimension // np.zeros with a negative extent (ValueError)
    | ShapeMismatch     // a broadcast or assignment between incompatible shapes

  datatype Result<T> = Ok(value: T) | Err(error: Error)

  /** Sum of f(0), ..., f(n - 1). */
  function Sum(n: nat, f: nat -> int): int
    decreases n
  {
    if n == 0 then 0 else Sum(n - 1, f) + f(n - 1)
  }

  lemma {:induction false} SumExt(n: nat, f: nat -> int, g: nat -> int)
    requires forall k: nat :: k < n ==> f(k) == g(k)
    ensures Sum(n, f) == Sum(n, g)
  {
    if n > 0 {
      SumExt(n - 1, f, g);
    }
  }

  lemma {:induction false} SumZero(n: nat, f: nat -> int)
    requires forall k: nat :: k < n ==> f(k) == 0
    ensures Sum(n, f) == 0
  {
    if n > 0 {
      SumZero(n - 1, f);
    }
  }

  lemma {:induction false} SumAdd(n: nat, f: nat -> int, g: nat -> int, h: nat -> int)
    requires forall k: nat :: k < n ==> h(k) == f(k) + g(k)
    ensures Sum(n, h) == Sum(n, f) + Sum(n, g)
  {
    if n > 0 {
      SumAdd(n - 1, f, g, h);
    }
  }

  /** A sum whose terms vanish everywhere except at `a` is the term at `a`. */
  lemma {:induction false} SumPoint(n: nat, f: nat -> int, a: nat)
    requires forall k: nat :: k < n && k != a ==> f(k) == 0
    ensures Sum(n, f) == if a < n then f(a) else 0
  {
    if n > 0 {
      SumPoint(n - 1, f, a);
    }
  }

  /** The two orders of a finite double sum agree. */
  lemma {:induction false} SumSwap(n: nat, m: nat, F: (nat, nat) -> int)
    ensures Sum(n, (a: nat) => Sum(m, (b: nat) => F(a, b))) == Sum(m, (b: nat) => Sum(n, (a: nat) => F(a, b)))
  {
    if n == 0 {
      var inner := (b: nat) => Sum(n, (a: nat) => F(a, b));
      forall b: nat | b < m ensures inner(b) == 0 { }
      SumZero(m, inner);
    } else {
      SumSwap(n - 1, m, F);
      SumAdd(m, (b: nat) => Sum(n - 1, (a: nat) => F(a, b)), (b: nat) => F(n - 1, b), (b: nat) => Sum(n, (a: nat) => F(a, b)));
    }
  }

  /** numpy's reading of a position for `np.insert` along an axis of
      length n: -n..n is accepted, a negative position counts from the end. */
  function InsertPosition(idx: int, n: nat): (r: Option<nat>)
    ensures r.Some? <==> 0 <= idx + n && idx <= n
    ensures r.Some? ==> r.value <= n && r.value == if idx < 0 then idx + n else idx
  {
    if idx + n < 0 || idx > n then None
    else if idx < 0 then Some(idx + n)
    else Some(idx)
  }

  /** numpy's reading of a subscript into an axis of length n:
      -n..n-1 is accepted, a negative subscript counts from the end. */
  function Subscript(k: int, n: nat): (r: Option<nat>)
    ensures r.Some? <==> 0 <= k + n && k < n
    ensures r.Some? ==> r.value < n && (r.value == k || r.value == k + n)
  {
    if k + n < 0 || k >= n then None
    else if k < 0 then Some(k + n)
    else Some(k)
  }

  datatype Option<T> = None | Some(value: T)
}

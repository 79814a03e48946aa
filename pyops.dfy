/** Python's numeric and slicing rules that differ from Dafny's. */
module PyOps {

  function Abs(x: int): nat {
    if x < 0 then -x else x
  }

  function AbsReal(x: real): real {
    if x < 0.0 then -x else x
  }

  function Min(a: int, b: int): int {
    if a <= b then a else b
  }

  function Max(a: int, b: int): int {
    if a >= b then a else b
  }

  function MinReal(a: real, b: real): real {
    if a <= b then a else b
  }

  function MaxReal(a: real, b: real): real {
    if a >= b then a else b
  }

  /** Python's `int(x)` on a float: truncation toward zero (not floor). */
  function Trunc(x: real): (n: int)
    ensures 0.0 <= x ==> 0 <= n && n as real <= x < n as real + 1.0
    ensures x < 0.0 ==> n <= 0 && n as real - 1.0 < x <= n as real
  {
    if x >= 0.0 then x.Floor else -((-x).Floor)
  }

  lemma TruncOfInt(n: int)
    ensures Trunc(n as real) == n
  {
  }

  /** Truncation is odd: `int(-x) == -int(x)`. */
  lemma TruncNeg(x: real)
    ensures Trunc(-x) == -Trunc(x)
  {
  }

  /** Truncation never moves a value away from zero. */
  lemma TruncTowardZero(x: real)
    ensures -1.0 < x - Trunc(x) as real < 1.0
    ensures (if x < 0.0 then -x else x) >= (if Trunc(x) < 0 then -Trunc(x) else Trunc(x)) as real
  {
  }

  /** Monotonicity of truncation on non-negative reals. */
  lemma TruncMonotone(x: real, y: real)
    requires 0.0 <= x <= y
    ensures Trunc(x) <= Trunc(y)
  {
  }

  /** The start index Python uses for `s[k:]` on a sequence of length `n`. */
  function SliceStart(k: int, n: nat): (i: nat)
    ensures i <= n
    ensures 0 <= k ==> i == Min(k, n)
    ensures k < 0 ==> i == Max(0, n + k)
  {
    if k >= 0 then (if k <= n then k else n)
    else if n + k >= 0 then n + k else 0
  }

  /** `len(s[start:stop])` for a sequence of length `n`: both bounds are normalised as `SliceStart` does. */
  function SliceLength(start: int, stop: int, n: nat): (len: nat)
    ensures len <= n
    ensures 0 <= start <= stop <= n ==> len == stop - start
  {
    var a := SliceStart(start, n);
    var b := SliceStart(stop, n);
    if a <= b then b - a else 0
  }

  /** Python's `s[:n]`: a prefix, which drops |n| elements from the end when n is negative. */
  function Take<T>(s: seq<T>, n: int): (r: seq<T>)
    ensures r <= s
    ensures 0 <= n ==> |r| == Min(n, |s|)
    ensures n < 0 ==> |r| == Max(0, |s| + n)
  {
    if n >= 0 then (if n <= |s| then s[..n] else s)
    else if |s| + n >= 0 then s[..|s| + n] else []
  }
}

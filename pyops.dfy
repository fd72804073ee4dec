/** Python's integer and list operators as the search handler uses them:
    `min`, floor division `//` and slicing `xs[start:stop]`. */
module PyOps {

  function Min(a: int, b: int): (m: int)
    ensures m <= a && m <= b
    ensures m == a || m == b
  {
    if a <= b then a else b
  }

  function Max(a: int, b: int): (m: int)
    ensures m >= a && m >= b
    ensures m == a || m == b
  {
    if a >= b then a else b
  }

  /** Python's `a // b`: the quotient rounded toward minus infinity, for
      either sign of the divisor (Dafny's `/` is Euclidean and differs from it
      when `b < 0`). `b == 0` raises in Python; callers model that case. */
  function FloorDiv(a: int, b: int): (q: int)
    requires b != 0
    ensures b > 0 ==> q * b <= a < q * b + b
    ensures b < 0 ==> q * b + b < a <= q * b
  {
    if b > 0 then a / b else (-a) / (-b)
  }

  /** `7 // -2 == -4` in Python, where Dafny's `7 / -2` is `-3`. */
  lemma FloorDivNegativeDivisor()
    ensures FloorDiv(7, -2) == -4 && 7 / -2 == -3
  {
    assert FloorDiv(7, -2) == (-7) / 2;
  }

  /** How a slice bound is resolved against a list of length `n`: a negative
      bound counts from the end, then the bound is clipped to `[0, n]`. */
  function AdjustIndex(i: int, n: nat): (k: nat)
    ensures k <= n
    ensures 0 <= i <= n ==> k == i
    ensures i < 0 && i + n >= 0 ==> k == i + n
    ensures i + n < 0 ==> k == 0
    ensures i > n ==> k == n
  {
    if i < 0 then (if i + n < 0 then 0 else i + n)
    else if i > n then n
    else i
  }

  /** Python's `s[start:stop]` with step 1. Out-of-range bounds never raise. */
  function Slice<T>(s: seq<T>, start: int, stop: int): (r: seq<T>)
    ensures |r| == Max(0, AdjustIndex(stop, |s|) - AdjustIndex(start, |s|))
    ensures forall k :: 0 <= k < |r| ==> r[k] == s[AdjustIndex(start, |s|) + k]
  {
    var lo, hi := AdjustIndex(start, |s|), AdjustIndex(stop, |s|);
    if lo < hi then s[lo..hi] else []
  }

  /** A slice never holds more elements than its bounds span. */
  lemma SliceLengthAtMostSpan<T>(s: seq<T>, start: int, stop: int)
    requires start <= stop
    ensures |Slice(s, start, stop)| <= stop - start
  {
    var n := |s|;
    var lo, hi := AdjustIndex(start, n), AdjustIndex(stop, n);
    if start < 0 && stop >= 0 {
      assert lo >= start + n;
    }
  }

  /** With non-negative bounds a slice is the window `[start, min(stop, |s|))`. */
  lemma SliceNatural<T>(s: seq<T>, start: int, stop: int)
    requires 0 <= start <= stop
    ensures |Slice(s, start, stop)| == Max(0, Min(stop, |s|) - start)
    ensures forall k :: 0 <= k < |Slice(s, start, stop)| ==> Slice(s, start, stop)[k] == s[start + k]
  {
  }

  /** Cancelling a positive factor from a strict comparison of products. */
  lemma LessTimesCancels(x: int, y: int, d: int)
    requires d > 0
    ensures x * d < y * d ==> x < y
  {
    if x >= y {
      assert x * d - y * d == (x - y) * d;
      NonNegativeProduct(x - y, d);
    }
  }

  lemma NonNegativeProduct(a: int, b: int)
    requires a >= 0 && b >= 0
    ensures a * b >= 0
  {
  }
}

/** The nondeterministic inputs of the handlers: Python's `random` module,
    `uuid.uuid4().hex` and `datetime.utcnow().isoformat() + "Z"`. Each draw is
    an arbitrary value within the range the call promises; no distribution is
    modelled. */
module Effects {

  /** `random.randint(lo, hi)`: both ends included. */
  method RandomInt(lo: int, hi: int) returns (n: int)
    requires lo <= hi
    ensures lo <= n <= hi
  {
    n :| lo <= n <= hi;
  }

  /** `random.choice(xs)`. */
  method RandomChoice<T>(xs: seq<T>) returns (x: T)
    requires |xs| > 0
    ensures x in xs
  {
    var k :| 0 <= k < |xs|;
    x := xs[k];
  }

  /** `random.sample(xs, k)`: `k` elements taken from distinct positions of `xs`,
      in any order, which is to say a sub-multiset of `xs` of size `k`. */
  method RandomSample<T(==)>(xs: seq<T>, k: nat) returns (r: seq<T>)
    requires k <= |xs|
    ensures |r| == k
    ensures multiset(r) <= multiset(xs)
  {
    assert xs == xs[..k] + xs[k..];
    assert multiset(xs[..k]) <= multiset(xs);
    r :| |r| == k && multiset(r) <= multiset(xs);
  }

  /** The shape of `datetime.isoformat() + "Z"`; the instant itself is not modelled. */
  predicate IsUtcTimestamp(s: string)
  {
    |s| > 0 && s[|s| - 1] == 'Z'
  }

  /** `datetime.utcnow()` (shifted by some offset) rendered as ISO text with a `Z`. */
  method UtcTimestamp() returns (s: string)
    ensures IsUtcTimestamp(s)
  {
    s :| IsUtcTimestamp(s) by {
      assert IsUtcTimestamp("Z");
    }
  }

  /** Distinct elements: what `random.sample` keeps when the input has no repeats. */
  predicate Distinct<T(==)>(xs: seq<T>)
  {
    forall i, j :: 0 <= i < j < |xs| ==> xs[i] != xs[j]
  }

  lemma {:induction false} DistinctCountsOnce<T>(xs: seq<T>, x: T)
    requires Distinct(xs)
    ensures multiset(xs)[x] <= 1
    decreases |xs|
  {
    if xs != [] {
      var init := xs[..|xs| - 1];
      assert xs == init + [xs[|xs| - 1]];
      DistinctCountsOnce(init, x);
      if x == xs[|xs| - 1] {
        assert x !in init;
      }
    }
  }

  lemma TwoPositionsCountTwice<T>(xs: seq<T>, i: nat, j: nat)
    requires i < j < |xs| && xs[i] == xs[j]
    ensures multiset(xs)[xs[i]] >= 2
  {
    assert xs == xs[..j] + xs[j..];
    assert xs[i] in xs[..j];
    assert xs[j] in xs[j..];
  }

  /** A sample of a list without repeats has no repeats and holds only its elements. */
  lemma SampleOfDistinct<T>(xs: seq<T>, r: seq<T>)
    requires Distinct(xs)
    requires multiset(r) <= multiset(xs)
    ensures Distinct(r)
    ensures forall x :: x in r ==> x in xs
  {
    forall i, j | 0 <= i < j < |r| ensures r[i] != r[j] {
      if r[i] == r[j] {
        TwoPositionsCountTwice(r, i, j);
        DistinctCountsOnce(xs, r[i]);
      }
    }
    forall x | x in r ensures x in xs {
      assert multiset(r)[x] >= 1;
    }
  }
}

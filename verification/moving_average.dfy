/** Trailing simple moving averages of the close, as `rolling(window=n).mean()`
    computes them: a position has an average only once `n` closes, ending at
    that position, are available in the series it is computed over. */
module MovingAverage {
  import opened Wrappers

  /** The window lengths of the two averages the pipeline adds. */
  const ShortWindow: nat := 50
  const LongWindow: nat := 200

  /** Sum of a sequence of reals, peeling off the last element. */
  function Sum(s: seq<real>): real
    decreases |s|
  {
    if |s| == 0 then 0.0 else Sum(s[..|s| - 1]) + s[|s| - 1]
  }

  /** Reference definition: the mean of the `n` closes ending at position `i`,
      or no value while fewer than `n` closes are available. */
  function TrailingMean(closes: seq<real>, n: nat, i: nat): Option<real>
    requires 1 <= n && i < |closes|
  {
    if i + 1 < n then None
    else Some(Sum(closes[i + 1 - n..i + 1]) / n as real)
  }

  /** The full average column over a series of closes. */
  function Sma(closes: seq<real>, n: nat): (r: seq<Option<real>>)
    requires 1 <= n
    ensures |r| == |closes|
    ensures forall i :: 0 <= i < |closes| ==> r[i] == TrailingMean(closes, n, i)
  {
    seq(|closes|, i requires 0 <= i < |closes| => TrailingMean(closes, n, i))
  }

  /** Removing the first element of a non-empty sequence removes it from the sum. */
  lemma {:induction false} SumDropFirst(s: seq<real>)
    requires |s| > 0
    ensures Sum(s) == s[0] + Sum(s[1..])
    decreases |s|
  {
    if |s| > 1 {
      var init := s[..|s| - 1];
      SumDropFirst(init);
      assert init[1..] == s[1..][..|s[1..]| - 1];
    }
  }

  /** Appending an element adds it to the sum. */
  lemma SumExtend(s: seq<real>, lo: nat, hi: nat)
    requires lo <= hi < |s|
    ensures Sum(s[lo..hi + 1]) == Sum(s[lo..hi]) + s[hi]
  {
    assert s[lo..hi + 1][..hi - lo] == s[lo..hi];
  }

  /** The running-sum algorithm of a rolling mean: each step adds the newest
      close and, once the window is full, drops the close that left it. */
  method RollingMean(closes: seq<real>, n: nat) returns (r: seq<Option<real>>)
    requires 1 <= n
    ensures |r| == |closes|
    ensures forall i :: 0 <= i < |closes| ==> r[i] == TrailingMean(closes, n, i)
  {
    r := [];
    var acc := 0.0;
    var i := 0;
    while i < |closes|
      invariant 0 <= i <= |closes|
      invariant |r| == i
      invariant forall j :: 0 <= j < i ==> r[j] == TrailingMean(closes, n, j)
      invariant acc == Sum(closes[if i < n then 0 else i - n..i])
      decreases |closes| - i
    {
      var first := if i < n then 0 else i - n;
      SumExtend(closes, first, i);
      acc := acc + closes[i];
      if i >= n {
        SumDropFirst(closes[i - n..i + 1]);
        assert closes[i - n..i + 1][1..] == closes[i + 1 - n..i + 1];
        acc := acc - closes[i - n];
      }
      r := r + [if i + 1 < n then None else Some(acc / n as real)];
      i := i + 1;
    }
  }

  /** The average at position `i` reads no close after position `i`: two
      series that agree up to `i` have the same average there. */
  lemma NoLookAhead(a: seq<real>, b: seq<real>, n: nat, i: nat)
    requires 1 <= n && i < |a| && i < |b|
    requires a[..i + 1] == b[..i + 1]
    ensures TrailingMean(a, n, i) == TrailingMean(b, n, i)
  {
    if i + 1 >= n {
      assert a[i + 1 - n..i + 1] == a[..i + 1][i + 1 - n..];
      assert b[i + 1 - n..i + 1] == b[..i + 1][i + 1 - n..];
    }
  }

  /** The sum of `k` copies of `c` is `k * c`. */
  lemma {:induction false} SumConstant(s: seq<real>, c: real)
    requires forall k :: 0 <= k < |s| ==> s[k] == c
    ensures Sum(s) == |s| as real * c
    decreases |s|
  {
    if |s| > 0 {
      SumConstant(s[..|s| - 1], c);
    }
  }

  /** Over a constant series every defined average is that constant. */
  lemma ConstantSeriesMean(closes: seq<real>, c: real, n: nat, i: nat)
    requires 1 <= n && i < |closes|
    requires forall k :: 0 <= k < |closes| ==> closes[k] == c
    ensures TrailingMean(closes, n, i).Some? ==> TrailingMean(closes, n, i).value == c
  {
    if i + 1 >= n {
      SumConstant(closes[i + 1 - n..i + 1], c);
    }
  }

  /** A series shorter than the window has no defined average at all. */
  lemma ShortSeriesUndefined(closes: seq<real>, n: nat)
    requires 1 <= n && |closes| < n
    ensures forall i :: 0 <= i < |closes| ==> Sma(closes, n)[i] == None
  {
  }

  /** Averaging a slice `closes[lo..hi]` instead of the whole series delays
      the first defined average: position `j` of the slice is undefined while
      `j + 1 < n`, even where the whole series already has an average at
      `lo + j`; from `j + 1 >= n` on, the two agree. */
  lemma AverageOfSlice(closes: seq<real>, lo: nat, hi: nat, n: nat, j: nat)
    requires 1 <= n && lo + j < hi <= |closes|
    ensures j + 1 < n ==> TrailingMean(closes[lo..hi], n, j) == None
    ensures j + 1 < n <= lo + j + 1 ==> TrailingMean(closes, n, lo + j).Some?
    ensures j + 1 >= n ==> TrailingMean(closes[lo..hi], n, j) == TrailingMean(closes, n, lo + j)
  {
    if j + 1 >= n {
      var first := j + 1 - n;
      var window := closes[lo..hi][first..j + 1];
      assert |window| == n;
      assert forall t :: 0 <= t < n ==> window[t] == closes[lo + first + t];
      assert window == closes[lo + first..lo + j + 1];
    }
  }
}

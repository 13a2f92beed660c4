/** Restricting a date-sorted history to the inclusive range [start, end],
    the way label slicing `data[start:end]` does on a sorted date index:
    a left search for `start`, a right search for `end`, and the positional
    slice between the two positions. */
module RangeSlice {
  import opened Bars

  predicate InRange(d: Date, start: Date, end: Date) {
    start <= d <= end
  }

  /** `r` can be obtained from `s` by deleting elements, keeping the order
      of what remains. */
  predicate IsSubsequence<T(==)>(r: seq<T>, s: seq<T>)
    decreases |s|
  {
    |r| == 0 ||
    (|s| > 0 &&
     ((r[0] == s[0] && IsSubsequence(r[1..], s[1..])) || IsSubsequence(r, s[1..])))
  }

  /** Reference definition of the range filter: the bars dated within
      [start, end], in their original order. */
  function FilterRange(xs: seq<Bar>, start: Date, end: Date): (r: seq<Bar>)
    ensures IsSubsequence(r, xs)
    ensures forall b: Bar :: b in r ==> InRange(b.date, start, end)
    ensures forall b: Bar :: InRange(b.date, start, end) ==> multiset(r)[b] == multiset(xs)[b]
    decreases |xs|
  {
    if |xs| == 0 then []
    else
      assert xs == [xs[0]] + xs[1..];
      var rest := FilterRange(xs[1..], start, end);
      if InRange(xs[0].date, start, end) then [xs[0]] + rest else rest
  }

  /** Which side of an equal key a search lands on: `Left` stops before bars
      dated `key`, `Right` passes over them. */
  datatype Side = Left | Right

  /** True when a bar dated `d` lies before the search position for `key`. */
  predicate Precedes(d: Date, key: Date, side: Side) {
    match side
    case Left => d < key
    case Right => d <= key
  }

  /** The number of leading bars that precede the search position for `key`. */
  function Bound(xs: seq<Bar>, key: Date, side: Side): (i: nat)
    ensures i <= |xs|
    ensures forall j :: 0 <= j < i ==> Precedes(xs[j].date, key, side)
    ensures i < |xs| ==> !Precedes(xs[i].date, key, side)
    decreases |xs|
  {
    if |xs| == 0 || !Precedes(xs[0].date, key, side) then 0
    else 1 + Bound(xs[1..], key, side)
  }

  /** On an ascending history no bar at or after the bound precedes the key. */
  lemma BoundSplits(xs: seq<Bar>, key: Date, side: Side)
    requires Ascending(xs)
    ensures forall j :: Bound(xs, key, side) <= j < |xs| ==> !Precedes(xs[j].date, key, side)
  {
  }

  /** The bound is the only position splitting the history into bars that
      precede the key and bars that do not. */
  lemma {:induction false} BoundUnique(xs: seq<Bar>, key: Date, side: Side, k: nat)
    requires k <= |xs|
    requires forall j :: 0 <= j < k ==> Precedes(xs[j].date, key, side)
    requires forall j :: k <= j < |xs| ==> !Precedes(xs[j].date, key, side)
    ensures k == Bound(xs, key, side)
    decreases |xs|
  {
    if k > 0 {
      BoundUnique(xs[1..], key, side, k - 1);
    }
  }

  /** The label slice `xs[start:end]` of an ascending history: from the first
      bar dated `start` or later up to and including the last bar dated `end`
      or earlier. A Python slice whose stop lies before its start is empty. */
  function LabelSlice(xs: seq<Bar>, start: Date, end: Date): (r: seq<Bar>)
    requires Ascending(xs)
    ensures Ascending(r)
    ensures StrictlyAscending(xs) ==> StrictlyAscending(r)
    ensures start > end ==> r == []
    ensures (forall j :: 0 <= j < |xs| ==> xs[j].date < start) ==> r == []
    ensures (forall j :: 0 <= j < |xs| ==> xs[j].date > end) ==> r == []
  {
    var lo := Bound(xs, start, Left);
    var hi := Bound(xs, end, Right);
    if lo <= hi then RunKeepsOrder(xs, lo, hi); xs[lo..hi] else []
  }

  /** A contiguous run of an ascending history is ascending, and strictly
      so when the history is. */
  lemma RunKeepsOrder(xs: seq<Bar>, lo: nat, hi: nat)
    requires Ascending(xs) && lo <= hi <= |xs|
    ensures Ascending(xs[lo..hi])
    ensures StrictlyAscending(xs) ==> StrictlyAscending(xs[lo..hi])
  {
    var r := xs[lo..hi];
    forall i, j | 0 <= i < j < |r|
      ensures r[i].date <= r[j].date
      ensures StrictlyAscending(xs) ==> r[i].date < r[j].date
    {
      assert r[i] == xs[lo + i] && r[j] == xs[lo + j];
    }
  }

  /** A leading bar dated before the range changes nothing in the slice. */
  lemma SliceSkipsEarly(xs: seq<Bar>, start: Date, end: Date)
    requires Ascending(xs) && |xs| > 0 && xs[0].date < start
    ensures LabelSlice(xs, start, end) == LabelSlice(xs[1..], start, end)
  {
    if xs[0].date <= end {
      SkipEarlyBeforeEnd(xs, start, end);
    }
  }

  /** The case of `SliceSkipsEarly` where the range is not empty: both
      searches move one position along with the history. */
  lemma SkipEarlyBeforeEnd(xs: seq<Bar>, start: Date, end: Date)
    requires Ascending(xs) && |xs| > 0 && xs[0].date < start && xs[0].date <= end
    ensures LabelSlice(xs, start, end) == LabelSlice(xs[1..], start, end)
  {
    var tail := xs[1..];
    var lo, hi := Bound(xs, start, Left), Bound(xs, end, Right);
    var lo', hi' := Bound(tail, start, Left), Bound(tail, end, Right);
    assert lo == 1 + lo' && hi == 1 + hi';
    if lo <= hi {
      ShiftedSlice(xs, lo', hi');
    }
  }

  /** Slicing the tail is slicing the whole one position further on. */
  lemma ShiftedSlice<T>(xs: seq<T>, a: nat, b: nat)
    requires a <= b < |xs|
    ensures xs[a + 1..b + 1] == xs[1..][a..b]
  {
    forall k | 0 <= k < b - a
      ensures xs[a + 1..b + 1][k] == xs[1..][a..b][k]
    {
    }
  }

  /** A leading bar inside the range heads the slice. */
  lemma SliceKeepsInRange(xs: seq<Bar>, start: Date, end: Date)
    requires Ascending(xs) && |xs| > 0 && InRange(xs[0].date, start, end)
    ensures LabelSlice(xs, start, end) == [xs[0]] + LabelSlice(xs[1..], start, end)
  {
    var tail := xs[1..];
    var lo, hi := Bound(xs, start, Left), Bound(xs, end, Right);
    var lo', hi' := Bound(tail, start, Left), Bound(tail, end, Right);
    assert lo == 0 && lo' == 0;
    assert hi == 1 + hi';
    assert xs[lo..hi] == [xs[0]] + tail[lo'..hi'];
  }

  /** A leading bar dated after the range leaves nothing to slice. */
  lemma SliceEmptyAfterEnd(xs: seq<Bar>, start: Date, end: Date)
    requires Ascending(xs) && |xs| > 0 && xs[0].date > end
    ensures LabelSlice(xs, start, end) == [] == LabelSlice(xs[1..], start, end)
  {
    assert Bound(xs, end, Right) == 0;
    assert Bound(xs[1..], end, Right) == 0;
  }

  /** A non-empty slice is the run of positions between the two bounds. */
  lemma SliceIsRun(xs: seq<Bar>, start: Date, end: Date)
    requires Ascending(xs)
    ensures |LabelSlice(xs, start, end)| > 0 ==> Bound(xs, start, Left) < Bound(xs, end, Right)
    ensures |LabelSlice(xs, start, end)| > 0 ==>
      LabelSlice(xs, start, end) == xs[Bound(xs, start, Left)..Bound(xs, end, Right)]
  {
  }

  /** When every bar lies within the range, the slice is the whole history. */
  lemma SliceKeepsAll(xs: seq<Bar>, start: Date, end: Date)
    requires Ascending(xs)
    requires forall k :: 0 <= k < |xs| ==> InRange(xs[k].date, start, end)
    ensures LabelSlice(xs, start, end) == xs
  {
    BoundUnique(xs, start, Left, 0);
    BoundUnique(xs, end, Right, |xs|);
  }

  /** On an ascending history the label slice keeps exactly the bars the
      reference filter keeps, in the same order. */
  lemma {:induction false} LabelSliceIsFilter(xs: seq<Bar>, start: Date, end: Date)
    requires Ascending(xs)
    ensures LabelSlice(xs, start, end) == FilterRange(xs, start, end)
    decreases |xs|
  {
    if |xs| > 0 {
      LabelSliceIsFilter(xs[1..], start, end);
      if xs[0].date < start {
        SliceSkipsEarly(xs, start, end);
      } else if xs[0].date <= end {
        SliceKeepsInRange(xs, start, end);
      } else {
        SliceEmptyAfterEnd(xs, start, end);
      }
    }
  }

  /** Binary search for the bound of `key`, as a sorted index is searched. */
  method SearchSorted(xs: seq<Bar>, key: Date, side: Side) returns (i: nat)
    requires Ascending(xs)
    ensures i == Bound(xs, key, side)
  {
    var lo, hi := 0, |xs|;
    while lo < hi
      invariant 0 <= lo <= hi <= |xs|
      invariant forall j :: 0 <= j < lo ==> Precedes(xs[j].date, key, side)
      invariant forall j :: hi <= j < |xs| ==> !Precedes(xs[j].date, key, side)
      decreases hi - lo
    {
      var mid := (lo + hi) / 2;
      if Precedes(xs[mid].date, key, side) {
        lo := mid + 1;
      } else {
        hi := mid;
      }
    }
    BoundUnique(xs, key, side, lo);
    i := lo;
  }

  /** The slice computed with two binary searches, as the sorted index does. */
  method SliceByDate(xs: seq<Bar>, start: Date, end: Date) returns (r: seq<Bar>)
    requires Ascending(xs)
    ensures r == FilterRange(xs, start, end)
  {
    var lo := SearchSorted(xs, start, Left);
    var hi := SearchSorted(xs, end, Right);
    if lo <= hi {
      r := xs[lo..hi];
    } else {
      r := [];
    }
    LabelSliceIsFilter(xs, start, end);
  }
}

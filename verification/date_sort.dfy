/** Normalising the fetched history to ascending date order, as
    `sort_index(ascending=True)` does before the range is sliced. */
module DateSort {
  import opened Bars

  /** Inserts `b` into an ascending sequence, after every bar whose date is
      earlier and before the first bar whose date is the same or later. */
  function Insert(b: Bar, s: seq<Bar>): (r: seq<Bar>)
    requires Ascending(s)
    ensures Ascending(r)
    ensures multiset(r) == multiset(s) + multiset{b}
    decreases |s|
  {
    if |s| == 0 then [b]
    else if b.date <= s[0].date then [b] + s
    else
      var rest := Insert(b, s[1..]);
      assert s == [s[0]] + s[1..];
      ElementsAfterHead(b, s, rest);
      ConsAscending(s[0], rest);
      [s[0]] + rest
  }

  /** Every bar of `rest`, which holds `b` and the tail of `s`, is dated no
      earlier than the head of `s` when `b` is dated later than that head. */
  lemma ElementsAfterHead(b: Bar, s: seq<Bar>, rest: seq<Bar>)
    requires Ascending(s) && |s| > 0 && s[0].date < b.date
    requires multiset(rest) == multiset(s[1..]) + multiset{b}
    ensures forall k :: 0 <= k < |rest| ==> s[0].date <= rest[k].date
  {
    forall k | 0 <= k < |rest|
      ensures s[0].date <= rest[k].date
    {
      assert rest[k] in multiset(rest);
      if rest[k] != b {
        assert rest[k] in multiset(s[1..]);
        var i :| 0 <= i < |s[1..]| && s[1..][i] == rest[k];
        assert s[i + 1] == rest[k];
      }
    }
  }

  /** A bar dated no later than every bar of an ascending sequence can head
      it. */
  lemma ConsAscending(x: Bar, rest: seq<Bar>)
    requires Ascending(rest)
    requires forall k :: 0 <= k < |rest| ==> x.date <= rest[k].date
    ensures Ascending([x] + rest)
  {
    var r := [x] + rest;
    forall i, j | 0 <= i < j < |r|
      ensures r[i].date <= r[j].date
    {
      assert r[j] == rest[j - 1];
      if i > 0 {
        assert r[i] == rest[i - 1];
      }
    }
  }

  /** The fetched bars in ascending date order. */
  function SortByDate(xs: seq<Bar>): (r: seq<Bar>)
    ensures Ascending(r)
    ensures multiset(r) == multiset(xs)
    ensures |r| == |xs|
    decreases |xs|
  {
    if |xs| == 0 then []
    else
      assert xs == [xs[0]] + xs[1..];
      var r := Insert(xs[0], SortByDate(xs[1..]));
      assert |r| == |multiset(r)| == |multiset(xs)| == |xs|;
      r
  }

  /** Inserting a bar whose date is new keeps the order strict. */
  lemma {:induction false} InsertStrict(b: Bar, s: seq<Bar>)
    requires StrictlyAscending(s)
    requires forall x :: x in s ==> x.date != b.date
    ensures StrictlyAscending(Insert(b, s))
    decreases |s|
  {
    if |s| == 0 || b.date <= s[0].date {
    } else {
      assert s == [s[0]] + s[1..];
      InsertStrict(b, s[1..]);
      var rest := Insert(b, s[1..]);
      StrictlyAfterHead(b, s, rest);
      ConsStrict(s[0], rest);
    }
  }

  /** Every bar of `rest`, which holds `b` and the tail of a strictly
      ascending `s`, is dated later than the head of `s` when `b` is. */
  lemma StrictlyAfterHead(b: Bar, s: seq<Bar>, rest: seq<Bar>)
    requires StrictlyAscending(s) && |s| > 0 && s[0].date < b.date
    requires multiset(rest) == multiset(s[1..]) + multiset{b}
    ensures forall k :: 0 <= k < |rest| ==> s[0].date < rest[k].date
  {
    forall k | 0 <= k < |rest|
      ensures s[0].date < rest[k].date
    {
      assert rest[k] in multiset(rest);
      if rest[k] != b {
        assert rest[k] in multiset(s[1..]);
        var i :| 0 <= i < |s[1..]| && s[1..][i] == rest[k];
        assert s[i + 1] == rest[k];
      }
    }
  }

  /** A bar dated before every bar of a strictly ascending sequence can
      head it. */
  lemma ConsStrict(x: Bar, rest: seq<Bar>)
    requires StrictlyAscending(rest)
    requires forall k :: 0 <= k < |rest| ==> x.date < rest[k].date
    ensures StrictlyAscending([x] + rest)
  {
    var r := [x] + rest;
    forall i, j | 0 <= i < j < |r|
      ensures r[i].date < r[j].date
    {
      assert r[j] == rest[j - 1];
      if i > 0 {
        assert r[i] == rest[i - 1];
      }
    }
  }

  /** When the provider's bars carry distinct dates, the sorted history is
      strictly increasing by date. */
  lemma {:induction false} SortStrict(xs: seq<Bar>)
    requires DistinctDates(xs)
    ensures StrictlyAscending(SortByDate(xs))
    decreases |xs|
  {
    if |xs| > 0 {
      var tail := xs[1..];
      SortStrict(tail);
      var st := SortByDate(tail);
      forall x | x in st
        ensures x.date != xs[0].date
      {
        assert x in multiset(tail);
        var k :| 0 <= k < |tail| && tail[k] == x;
        assert xs[k + 1] == x;
      }
      InsertStrict(xs[0], st);
    }
  }

  /** Two strictly ascending sequences holding the same bars are equal:
      the strict date order leaves no freedom in arranging them. */
  lemma {:induction false} StrictPermutationUnique(a: seq<Bar>, b: seq<Bar>)
    requires StrictlyAscending(a) && StrictlyAscending(b)
    requires multiset(a) == multiset(b)
    ensures a == b
    decreases |a|
  {
    assert |a| == |multiset(a)| == |multiset(b)| == |b|;
    if |a| > 0 {
      StrictHeadsAgree(a, b);
      DropHead(a);
      DropHead(b);
      StrictPermutationUnique(a[1..], b[1..]);
      assert a == [a[0]] + a[1..];
      assert b == [b[0]] + b[1..];
    }
  }

  /** Two non-empty strictly ascending sequences holding the same bars start
      with the same bar: each head is dated no later than the other. */
  lemma StrictHeadsAgree(a: seq<Bar>, b: seq<Bar>)
    requires StrictlyAscending(a) && StrictlyAscending(b)
    requires multiset(a) == multiset(b) && |a| > 0 && |b| > 0
    ensures a[0] == b[0]
  {
    assert a[0] in multiset(b);
    var j :| 0 <= j < |b| && b[j] == a[0];
    assert b[0] in multiset(a);
    var k :| 0 <= k < |a| && a[k] == b[0];
    assert a[0].date <= a[k].date == b[0].date;
    assert j == 0;
  }

  /** Dropping the head of a sequence removes one copy of it from the bag. */
  lemma DropHead(a: seq<Bar>)
    requires |a| > 0
    ensures multiset(a[1..]) == multiset(a) - multiset{a[0]}
  {
    assert a == [a[0]] + a[1..];
  }

  /** The sort is the one strictly ascending arrangement of distinctly dated
      bars: any other such arrangement of the same bars is the same sequence. */
  lemma SortIsOnlyStrictOrder(xs: seq<Bar>, ys: seq<Bar>)
    requires DistinctDates(xs)
    requires StrictlyAscending(ys) && multiset(ys) == multiset(xs)
    ensures ys == SortByDate(xs)
  {
    SortStrict(xs);
    StrictPermutationUnique(ys, SortByDate(xs));
  }

  /** A history that is already in ascending order is left exactly as it is. */
  lemma {:induction false} SortKeepsAscending(xs: seq<Bar>)
    requires Ascending(xs)
    ensures SortByDate(xs) == xs
    decreases |xs|
  {
    if |xs| > 0 {
      SortKeepsAscending(xs[1..]);
      assert xs == [xs[0]] + xs[1..];
    }
  }

  /** Sorting twice is sorting once. */
  lemma SortIdempotent(xs: seq<Bar>)
    ensures SortByDate(SortByDate(xs)) == SortByDate(xs)
  {
    SortKeepsAscending(SortByDate(xs));
  }
}

/** Selection of the events that start during the current UTC day, kept in
    feed order. */
module DayFilter {
  import opened Events
  import opened Instant

  /** The events of `feed` whose start lies in `w`, in feed order. */
  function Filter(feed: seq<Event>, w: DaySpan): (kept: seq<Event>)
    ensures |kept| <= |feed|
    ensures forall e :: e in kept <==> e in feed && Contains(w, e.begin)
  {
    if |feed| == 0 then []
    else
      var last := feed[|feed| - 1];
      assert feed == feed[..|feed| - 1] + [last];
      Filter(feed[..|feed| - 1], w) + (if Contains(w, last.begin) then [last] else [])
  }

  /** The loop at main_ical.py:47-52: walk the feed once, appending each event of today. */
  method FilterToday(feed: seq<Event>, w: DaySpan) returns (today: seq<Event>)
    ensures today == Filter(feed, w)
  {
    today := [];
    for i := 0 to |feed|
      invariant today == Filter(feed[..i], w)
    {
      assert feed[..i + 1][..i] == feed[..i];
      if w.start <= feed[i].begin <= w.end {
        today := today + [feed[i]];
      }
    }
    assert feed[..|feed|] == feed;
  }

  /** `idx` lists, in increasing order, positions of `b` whose elements spell `a`. */
  ghost predicate Embeds<T>(a: seq<T>, b: seq<T>, idx: seq<int>) {
    && |idx| == |a|
    && (forall i :: 0 <= i < |idx| ==> 0 <= idx[i] < |b| && a[i] == b[idx[i]])
    && (forall i, j :: 0 <= i < j < |idx| ==> idx[i] < idx[j])
  }

  ghost predicate IsSubsequence<T>(a: seq<T>, b: seq<T>) {
    exists idx :: Embeds(a, b, idx)
  }

  /** Positions of the feed that the filter keeps, in increasing order. */
  lemma {:induction false} KeptPositions(feed: seq<Event>, w: DaySpan) returns (idx: seq<int>)
    ensures Embeds(Filter(feed, w), feed, idx)
    decreases |feed|
  {
    if |feed| == 0 {
      idx := [];
    } else {
      var n := |feed| - 1;
      var prefix := KeptPositions(feed[..n], w);
      var kept := Filter(feed[..n], w);
      assert Embeds(kept, feed, prefix) by {
        forall i | 0 <= i < |prefix|
          ensures 0 <= prefix[i] < |feed| && kept[i] == feed[prefix[i]]
        {
          assert feed[..n][prefix[i]] == feed[prefix[i]];
        }
      }
      if Contains(w, feed[n].begin) {
        idx := prefix + [n];
        assert Filter(feed, w) == kept + [feed[n]];
      } else {
        idx := prefix;
      }
    }
  }

  /** The filtered list is a subsequence of the feed: nothing is reordered. */
  lemma FilterIsSubsequence(feed: seq<Event>, w: DaySpan)
    ensures IsSubsequence(Filter(feed, w), feed)
  {
    var idx := KeptPositions(feed, w);
  }

  lemma {:induction false} FilterConcat(a: seq<Event>, b: seq<Event>, w: DaySpan)
    ensures Filter(a + b, w) == Filter(a, w) + Filter(b, w)
    decreases |b|
  {
    if |b| == 0 {
      assert a + b == a;
    } else {
      var n := |b| - 1;
      assert (a + b)[..|a + b| - 1] == a + b[..n];
      assert (a + b)[|a + b| - 1] == b[n];
      FilterConcat(a, b[..n], w);
      assert Filter(a + b, w) == Filter(a + b[..n], w) + Filter([b[n]], w) by {
        assert [b[n]][..0] == [];
      }
    }
  }

  /** Filtering again with the same window changes nothing. */
  lemma {:induction false} FilterIdempotent(feed: seq<Event>, w: DaySpan)
    ensures Filter(Filter(feed, w), w) == Filter(feed, w)
    decreases |feed|
  {
    if |feed| > 0 {
      var n := |feed| - 1;
      var last := feed[n];
      FilterIdempotent(feed[..n], w);
      var tail := if Contains(w, last.begin) then [last] else [];
      FilterConcat(Filter(feed[..n], w), tail, w);
      assert Filter(tail, w) == tail by {
        if Contains(w, last.begin) {
          assert tail[..0] == [];
        }
      }
    }
  }

  /** The day's bounds are both kept: an event at midnight and one at
      23:59:59.999999; one at the next midnight, or a microsecond before
      today, is dropped. */
  lemma Boundaries(now: int, e: Event)
    ensures e.begin == Today(now).start ==> Filter([e], Today(now)) == [e]
    ensures e.begin == Today(now).end ==> Filter([e], Today(now)) == [e]
    ensures e.begin == Today(now).start + MicrosPerDay ==> Filter([e], Today(now)) == []
    ensures e.begin == Today(now).start - 1 ==> Filter([e], Today(now)) == []
  {
    assert [e][..0] == [];
  }
}

/** Python's `list.sort(key=lambda x: x.begin)`: a stable ascending sort by
    start instant, modelled as insertion sort. */
module StableSort {
  import opened Events

  predicate Sorted(s: seq<Event>) {
    forall i, j :: 0 <= i < j < |s| ==> s[i].begin <= s[j].begin
  }

  /** The events of `s` that start at instant `t`, in their order in `s`.
      A sort is stable exactly when it leaves every such list unchanged. */
  function StartingAt(s: seq<Event>, t: int): (r: seq<Event>)
    ensures forall e :: e in r <==> e in s && e.begin == t
  {
    if |s| == 0 then [] else (if s[0].begin == t then [s[0]] else []) + StartingAt(s[1..], t)
  }

  /** Places `e` in front of the first element of `s` that does not start
      before it. */
  function Insert(e: Event, s: seq<Event>): (r: seq<Event>)
    ensures |r| == |s| + 1
    ensures forall x :: x in r <==> x == e || x in s
  {
    if |s| == 0 || e.begin <= s[0].begin then [e] + s
    else [s[0]] + Insert(e, s[1..])
  }

  lemma {:induction false} InsertPermutes(e: Event, s: seq<Event>)
    ensures multiset(Insert(e, s)) == multiset(s) + multiset{e}
    decreases |s|
  {
    if |s| > 0 && e.begin > s[0].begin {
      InsertPermutes(e, s[1..]);
      assert s == [s[0]] + s[1..];
    }
  }

  /** The first event of a sorted list starts no later than any of them. */
  lemma SortedHeadFirst(s: seq<Event>)
    requires Sorted(s) && |s| > 0
    ensures forall x :: x in s ==> s[0].begin <= x.begin
  {
    forall x | x in s
      ensures s[0].begin <= x.begin
    {
      var k :| 0 <= k < |s| && s[k] == x;
    }
  }

  /** Putting an event in front of a sorted list that starts no earlier
      keeps it sorted. */
  lemma ConsSorted(x: Event, s: seq<Event>)
    requires Sorted(s)
    requires forall y :: y in s ==> x.begin <= y.begin
    ensures Sorted([x] + s)
  {
    var r := [x] + s;
    forall i, j | 0 <= i < j < |r|
      ensures r[i].begin <= r[j].begin
    {
      if i == 0 {
        assert r[j] == s[j - 1];
      } else {
        assert r[i] == s[i - 1] && r[j] == s[j - 1];
      }
    }
  }

  lemma {:induction false} InsertSorted(e: Event, s: seq<Event>)
    requires Sorted(s)
    ensures Sorted(Insert(e, s))
    decreases |s|
  {
    if |s| > 0 && e.begin > s[0].begin {
      InsertSorted(e, s[1..]);
      SortedHeadFirst(s);
      var rest := Insert(e, s[1..]);
      assert forall x :: x in s[1..] ==> x in s;
      ConsSorted(s[0], rest);
    }
  }

  function Sort(s: seq<Event>): (r: seq<Event>)
    ensures multiset(r) == multiset(s)
    ensures Sorted(r)
  {
    if |s| == 0 then []
    else
      var rest := Sort(s[1..]);
      InsertPermutes(s[0], rest);
      InsertSorted(s[0], rest);
      assert s == [s[0]] + s[1..];
      Insert(s[0], rest)
  }

  /** Sorting neither adds nor drops events. */
  lemma SortMembers(s: seq<Event>)
    ensures forall e :: e in Sort(s) <==> e in s
  {
    assert forall e :: e in Sort(s) <==> e in multiset(Sort(s));
    assert forall e :: e in s <==> e in multiset(s);
  }

  lemma SortSingle(e: Event)
    ensures Sort([e]) == [e]
  {
    assert [e][1..] == [];
  }

  lemma {:induction false} StartingAtConcat(a: seq<Event>, b: seq<Event>, t: int)
    ensures StartingAt(a + b, t) == StartingAt(a, t) + StartingAt(b, t)
    decreases |a|
  {
    if |a| == 0 {
      assert a + b == b;
    } else {
      assert (a + b)[1..] == a[1..] + b;
      StartingAtConcat(a[1..], b, t);
    }
  }

  /** Insertion keeps ties in order: `e` lands before every element that
      starts at the same instant. */
  lemma {:induction false} InsertStable(e: Event, s: seq<Event>, t: int)
    ensures StartingAt(Insert(e, s), t) == StartingAt([e], t) + StartingAt(s, t)
    decreases |s|
  {
    if |s| == 0 || e.begin <= s[0].begin {
      StartingAtConcat([e], s, t);
    } else {
      InsertStable(e, s[1..], t);
      StartingAtConcat([s[0]], Insert(e, s[1..]), t);
      StartingAtConcat([s[0]], s[1..], t);
      assert [s[0]] + s[1..] == s;
    }
  }

  /** Events with equal start instants keep their relative order. */
  lemma {:induction false} SortStable(s: seq<Event>, t: int)
    ensures StartingAt(Sort(s), t) == StartingAt(s, t)
    decreases |s|
  {
    if |s| > 0 {
      SortStable(s[1..], t);
      InsertStable(s[0], Sort(s[1..]), t);
      StartingAtConcat([s[0]], s[1..], t);
      assert [s[0]] + s[1..] == s;
    }
  }

  lemma FirstStartsAt(a: seq<Event>)
    requires |a| > 0
    ensures StartingAt(a, a[0].begin) != [] && StartingAt(a, a[0].begin)[0] == a[0]
  {
  }

  /** Two sorted lists with the same events at their first instants begin
      with the same event. */
  lemma HeadsAgree(a: seq<Event>, b: seq<Event>)
    requires Sorted(a) && Sorted(b) && |a| > 0 && |b| > 0
    requires StartingAt(a, a[0].begin) == StartingAt(b, a[0].begin)
    requires StartingAt(a, b[0].begin) == StartingAt(b, b[0].begin)
    ensures a[0] == b[0]
  {
    FirstStartsAt(a);
    FirstStartsAt(b);
    var ta, tb := a[0].begin, b[0].begin;
    assert a[0] in StartingAt(b, ta);
    assert b[0] in StartingAt(a, tb);
    assert ta == tb;
  }

  lemma TailsAgree(a: seq<Event>, b: seq<Event>, t: int)
    requires |a| > 0 && |b| > 0 && a[0] == b[0]
    requires StartingAt(a, t) == StartingAt(b, t)
    ensures StartingAt(a[1..], t) == StartingAt(b[1..], t)
  {
    var p := if a[0].begin == t then [a[0]] else [];
    assert StartingAt(a, t) == p + StartingAt(a[1..], t);
    assert StartingAt(b, t) == p + StartingAt(b[1..], t);
    assert (p + StartingAt(a[1..], t))[|p|..] == StartingAt(a[1..], t);
    assert (p + StartingAt(b[1..], t))[|p|..] == StartingAt(b[1..], t);
  }

  lemma AllTailsAgree(a: seq<Event>, b: seq<Event>)
    requires |a| > 0 && |b| > 0 && a[0] == b[0]
    requires forall t :: StartingAt(a, t) == StartingAt(b, t)
    ensures forall t :: StartingAt(a[1..], t) == StartingAt(b[1..], t)
  {
    forall t
      ensures StartingAt(a[1..], t) == StartingAt(b[1..], t)
    {
      TailsAgree(a, b, t);
    }
  }

  /** A sorted order whose ties keep their order is unique: any two sorted
      lists that agree on every instant's events in order are equal. */
  lemma {:induction false} SortedStableUnique(a: seq<Event>, b: seq<Event>)
    requires Sorted(a) && Sorted(b)
    requires forall t :: StartingAt(a, t) == StartingAt(b, t)
    ensures a == b
    decreases |a|
  {
    if |a| == 0 && |b| == 0 {
    } else if |a| == 0 {
      FirstStartsAt(b);
    } else if |b| == 0 {
      FirstStartsAt(a);
    } else {
      HeadsAgree(a, b);
      AllTailsAgree(a, b);
      SortedStableUnique(a[1..], b[1..]);
      assert a == [a[0]] + a[1..] && b == [b[0]] + b[1..];
    }
  }

  /** Any stable ascending sort of `s` produces exactly `Sort(s)`. */
  lemma SortIsTheStableSort(s: seq<Event>, r: seq<Event>)
    requires Sorted(r)
    requires forall t :: StartingAt(r, t) == StartingAt(s, t)
    ensures r == Sort(s)
  {
    forall t
      ensures StartingAt(r, t) == StartingAt(Sort(s), t)
    {
      SortStable(s, t);
    }
    SortedStableUnique(r, Sort(s));
  }

  /** Sorting a list that is already in order changes nothing. */
  lemma SortSortedIdentity(s: seq<Event>)
    requires Sorted(s)
    ensures Sort(s) == s
  {
    SortIsTheStableSort(s, s);
  }
}

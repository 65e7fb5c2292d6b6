/** Sorting by a comparator, as `slice::sort_by` does it. */
module Sorting {

  predicate Sorted<T>(s: seq<T>, le: (T, T) -> bool) {
    forall i, j :: 0 <= i < j < |s| ==> le(s[i], s[j])
  }

  /** The comparator orders the elements of `s` totally. */
  ghost predicate Orders<T>(le: (T, T) -> bool, s: multiset<T>) {
    && (forall x, y :: x in s && y in s ==> le(x, y) || le(y, x))
    && (forall x, y, z :: x in s && y in s && z in s && le(x, y) && le(y, z) ==> le(x, z))
  }

  ghost predicate Distinguishes<T>(le: (T, T) -> bool, s: multiset<T>) {
    forall x, y :: x in s && y in s && le(x, y) && le(y, x) ==> x == y
  }

  function Insert<T>(x: T, s: seq<T>, le: (T, T) -> bool): seq<T> {
    if s == [] then [x]
    else if le(s[|s| - 1], x) then s + [x]
    else Insert(x, s[..|s| - 1], le) + [s[|s| - 1]]
  }

  /** Stable: an element goes after those it equals. */
  function SortBy<T>(s: seq<T>, le: (T, T) -> bool): seq<T> {
    if s == [] then [] else Insert(s[|s| - 1], SortBy(s[..|s| - 1], le), le)
  }

  lemma {:induction false} InsertPermutes<T>(x: T, s: seq<T>, le: (T, T) -> bool)
    ensures multiset(Insert(x, s, le)) == multiset(s) + multiset{x}
  {
    if s != [] && !le(s[|s| - 1], x) {
      InsertPermutes(x, s[..|s| - 1], le);
      assert s == s[..|s| - 1] + [s[|s| - 1]];
    }
  }

  /** Everything in `s` is at most `last`. */
  ghost predicate Below<T>(s: seq<T>, last: T, le: (T, T) -> bool) {
    forall i :: 0 <= i < |s| ==> le(s[i], last)
  }

  lemma SortedSnoc<T>(s: seq<T>, last: T, le: (T, T) -> bool)
    ensures Sorted(s + [last], le) <==> Sorted(s, le) && Below(s, last, le)
  {
    var t := s + [last];
    if Sorted(t, le) {
      forall i | 0 <= i < |s| ensures le(s[i], last) {
        assert le(t[i], t[|s|]);
      }
      forall i, j | 0 <= i < j < |s| ensures le(s[i], s[j]) {
        assert le(t[i], t[j]);
      }
    }
  }

  lemma BelowSnoc<T>(s: seq<T>, last: T, y: T, le: (T, T) -> bool)
    ensures Below(s + [last], y, le) <==> Below(s, y, le) && le(last, y)
  {
    var t := s + [last];
    if Below(t, y, le) {
      assert le(t[|s|], y);
      forall i | 0 <= i < |s| ensures le(s[i], y) {
        assert le(t[i], y);
      }
    }
  }

  lemma OrdersFewer<T>(s: multiset<T>, t: multiset<T>, le: (T, T) -> bool)
    requires Orders(le, s) && t <= s
    ensures Orders(le, t)
  {
    assert forall x :: x in t ==> x in s;
  }

  /** What comes after the last element comes after all of them. */
  lemma BelowLast<T>(s: seq<T>, x: T, le: (T, T) -> bool)
    requires s != [] && Sorted(s, le) && le(s[|s| - 1], x) && Orders(le, multiset(s) + multiset{x})
    ensures Below(s, x, le)
  {
    var last := s[|s| - 1];
    forall i | 0 <= i < |s| ensures le(s[i], x) {
      assert i < |s| - 1 ==> le(s[i], last);
      assert s[i] in multiset(s) && last in multiset(s) && x in multiset{x};
    }
  }

  lemma {:induction false} InsertSorts<T>(x: T, s: seq<T>, le: (T, T) -> bool)
    requires Orders(le, multiset(s) + multiset{x}) && Sorted(s, le)
    ensures Sorted(Insert(x, s, le), le)
    ensures forall y :: Below(s, y, le) && le(x, y) ==> Below(Insert(x, s, le), y, le)
  {
    if s == [] {
      assert Insert(x, s, le) == [x];
    } else {
      hide Sorted, Below, Orders;
      var front, last := s[..|s| - 1], s[|s| - 1];
      assert s == front + [last];
      SortedSnoc(front, last, le);
      if le(last, x) {
        BelowLast(s, x, le);
        SortedSnoc(s, x, le);
        forall y | Below(s, y, le) && le(x, y) ensures Below(Insert(x, s, le), y, le) {
          BelowSnoc(s, x, y, le);
        }
      } else {
        Total(multiset(s) + multiset{x}, x, last, le);
        OrdersFewer(multiset(s) + multiset{x}, multiset(front) + multiset{x}, le);
        InsertSorts(x, front, le);
        SortedSnoc(Insert(x, front, le), last, le);
        forall y | Below(s, y, le) && le(x, y) ensures Below(Insert(x, s, le), y, le) {
          BelowSnoc(front, last, y, le);
          BelowSnoc(Insert(x, front, le), last, y, le);
        }
      }
    }
  }

  lemma Total<T>(s: multiset<T>, x: T, y: T, le: (T, T) -> bool)
    requires Orders(le, s) && x in s && y in s
    ensures le(x, y) || le(y, x)
  {
  }

  lemma {:induction false} SortBySorts<T>(s: seq<T>, le: (T, T) -> bool)
    requires Orders(le, multiset(s))
    ensures Sorted(SortBy(s, le), le)
    ensures multiset(SortBy(s, le)) == multiset(s)
  {
    if s != [] {
      hide Orders, Insert;
      var front, last := s[..|s| - 1], s[|s| - 1];
      assert s == front + [last];
      OrdersFewer(multiset(s), multiset(front), le);
      SortBySorts(front, le);
      InsertSorts(last, SortBy(front, le), le);
      InsertPermutes(last, SortBy(front, le), le);
      hide Sorted;
    }
  }

  lemma LastIsGreatest<T>(a: seq<T>, y: T, le: (T, T) -> bool)
    requires a != [] && Sorted(a, le) && y in multiset(a) && Orders(le, multiset(a))
    ensures le(y, a[|a| - 1])
  {
    assert a[|a| - 1] in multiset(a);
    var i :| 0 <= i < |a| && a[i] == y;
  }

  lemma OrdersPart<T>(le: (T, T) -> bool, s: multiset<T>, t: multiset<T>)
    requires Orders(le, s) && Distinguishes(le, s) && t <= s
    ensures Orders(le, t) && Distinguishes(le, t)
  {
    assert forall x :: x in t ==> x in s;
  }

  lemma SameFront<T>(a: seq<T>, b: seq<T>, x: T)
    requires multiset(a + [x]) == multiset(b + [x])
    ensures multiset(a) == multiset(b)
  {
    assert multiset(a) == multiset(a + [x]) - multiset{x};
    assert multiset(b) == multiset(b + [x]) - multiset{x};
  }

  lemma SameLast<T>(a: seq<T>, b: seq<T>, le: (T, T) -> bool)
    requires a != [] && b != [] && multiset(a) == multiset(b) && Sorted(a, le) && Sorted(b, le)
    requires Distinguishes(le, multiset(a)) && Orders(le, multiset(a))
    ensures a[|a| - 1] == b[|b| - 1]
  {
    var x, y := a[|a| - 1], b[|b| - 1];
    assert x in multiset(a) && y in multiset(b);
    LastIsGreatest(a, y, le);
    LastIsGreatest(b, x, le);
  }

  lemma SameLength<T>(a: seq<T>, b: seq<T>)
    requires multiset(a) == multiset(b)
    ensures |a| == |b|
  {
    assert |multiset(a)| == |a| && |multiset(b)| == |b|;
  }

  /** There is only one way to put distinguishable elements in order. */
  lemma {:induction false} SortedIsUnique<T>(a: seq<T>, b: seq<T>, le: (T, T) -> bool)
    requires multiset(a) == multiset(b) && Sorted(a, le) && Sorted(b, le)
    requires Distinguishes(le, multiset(a)) && Orders(le, multiset(a))
    ensures a == b
    decreases |a|
  {
    hide Sorted, Orders, Distinguishes;
    SameLength(a, b);
    if a != [] {
      SameLast(a, b, le);
      var x := a[|a| - 1];
      var a0, b0 := a[..|a| - 1], b[..|a| - 1];
      assert a == a0 + [x] && b == b0 + [x];
      UniqueFront(a0, b0, x, le);
      SortedIsUnique(a0, b0, le);
    }
  }

  lemma UniqueFront<T>(a: seq<T>, b: seq<T>, x: T, le: (T, T) -> bool)
    requires multiset(a + [x]) == multiset(b + [x]) && Sorted(a + [x], le) && Sorted(b + [x], le)
    requires Distinguishes(le, multiset(a + [x])) && Orders(le, multiset(a + [x]))
    ensures multiset(a) == multiset(b) && Sorted(a, le) && Sorted(b, le)
    ensures Distinguishes(le, multiset(a)) && Orders(le, multiset(a))
  {
    SortedSnoc(a, x, le);
    SortedSnoc(b, x, le);
    SameFront(a, b, x);
    OrdersPart(le, multiset(a + [x]), multiset(a));
  }

  /** Sorting does not see the order its input came in. */
  lemma SortForgetsOrder<T>(s: seq<T>, t: seq<T>, le: (T, T) -> bool)
    requires multiset(s) == multiset(t)
    requires Distinguishes(le, multiset(s)) && Orders(le, multiset(s))
    ensures SortBy(s, le) == SortBy(t, le)
  {
    SortBySorts(s, le);
    SortBySorts(t, le);
    SortedIsUnique(SortBy(s, le), SortBy(t, le), le);
  }
}

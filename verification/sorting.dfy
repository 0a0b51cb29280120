/** Stable sorting, the order in which both listings and price tiers are put. */
module Sorting {
  ghost predicate TotalPreorder<T(!new)>(le: (T, T) -> bool) {
    && (forall a, b :: le(a, b) || le(b, a))
    && (forall a, b, c :: le(a, b) && le(b, c) ==> le(a, c))
  }

  ghost predicate IsSorted<T>(s: seq<T>, le: (T, T) -> bool) {
    forall i, j :: 0 <= i < j < |s| ==> le(s[i], s[j])
  }

  function Insert<T>(x: T, s: seq<T>, le: (T, T) -> bool): seq<T> {
    if |s| == 0 then [x]
    else if le(x, s[0]) then [x] + s
    else [s[0]] + Insert(x, s[1..], le)
  }

  // Sorts by the order; elements that are equal in it keep their places relative to each other.
  function Sorted<T>(s: seq<T>, le: (T, T) -> bool): seq<T> {
    if |s| == 0 then [] else Insert(s[0], Sorted(s[1..], le), le)
  }

  function Select<T>(s: seq<T>, keep: T -> bool): seq<T> {
    if |s| == 0 then []
    else if keep(s[0]) then [s[0]] + Select(s[1..], keep)
    else Select(s[1..], keep)
  }

  lemma {:induction false} SelectAppend<T>(a: seq<T>, b: seq<T>, keep: T -> bool)
    ensures Select(a + b, keep) == Select(a, keep) + Select(b, keep)
  {
    if |a| == 0 {
      assert a + b == b;
    } else {
      assert (a + b)[1..] == a[1..] + b;
      SelectAppend(a[1..], b, keep);
    }
  }

  lemma {:induction false} SelectOnly<T>(s: seq<T>, keep: T -> bool)
    ensures forall x :: x in Select(s, keep) <==> x in s && keep(x)
  {
    if |s| > 0 {
      SelectOnly(s[1..], keep);
      assert s == [s[0]] + s[1..];
    }
  }

  lemma {:induction false} SelectAll<T>(s: seq<T>, keep: T -> bool)
    requires forall x :: x in s ==> keep(x)
    ensures Select(s, keep) == s
  {
    if |s| > 0 {
      SelectAll(s[1..], keep);
      assert s == [s[0]] + s[1..];
    }
  }

  lemma {:induction false} SelectNone<T>(s: seq<T>, keep: T -> bool)
    requires forall x :: x in s ==> !keep(x)
    ensures Select(s, keep) == []
  {
    if |s| > 0 {
      SelectNone(s[1..], keep);
    }
  }

  lemma {:induction false} InsertPermutes<T>(x: T, s: seq<T>, le: (T, T) -> bool)
    ensures multiset(Insert(x, s, le)) == multiset{x} + multiset(s)
  {
    if |s| > 0 && !le(x, s[0]) {
      InsertPermutes(x, s[1..], le);
      assert s == [s[0]] + s[1..];
    }
  }

  lemma {:induction false} SortedPermutes<T>(s: seq<T>, le: (T, T) -> bool)
    ensures multiset(Sorted(s, le)) == multiset(s)
  {
    if |s| > 0 {
      SortedPermutes(s[1..], le);
      InsertPermutes(s[0], Sorted(s[1..], le), le);
      assert s == [s[0]] + s[1..];
    }
  }

  lemma {:induction false} InsertSorts<T(!new)>(x: T, s: seq<T>, le: (T, T) -> bool)
    requires TotalPreorder(le) && IsSorted(s, le)
    ensures IsSorted(Insert(x, s, le), le)
  {
    if |s| > 0 && !le(x, s[0]) {
      InsertSorts(x, s[1..], le);
      InsertPermutes(x, s[1..], le);
      var rest := Insert(x, s[1..], le);
      forall j | 0 <= j < |rest|
        ensures le(s[0], rest[j])
      {
        assert rest[j] in multiset(rest);
      }
    }
  }

  lemma {:induction false} SortedSorts<T(!new)>(s: seq<T>, le: (T, T) -> bool)
    requires TotalPreorder(le)
    ensures IsSorted(Sorted(s, le), le)
  {
    if |s| > 0 {
      SortedSorts(s[1..], le);
      InsertSorts(s[0], Sorted(s[1..], le), le);
    }
  }

  // Elements that pass the test are equal in the order.
  ghost predicate OneClass<T(!new)>(test: T -> bool, le: (T, T) -> bool) {
    forall a, b :: test(a) && test(b) ==> le(a, b)
  }

  lemma {:induction false} InsertIsStable<T(!new)>(x: T, s: seq<T>, le: (T, T) -> bool,
                                                   test: T -> bool)
    requires OneClass(test, le)
    ensures Select(Insert(x, s, le), test) == Select([x], test) + Select(s, test)
  {
    if |s| > 0 && !le(x, s[0]) {
      InsertIsStable(x, s[1..], le, test);
      assert Insert(x, s, le) == [s[0]] + Insert(x, s[1..], le);
    } else {
      assert Insert(x, s, le) == [x] + s;
      SelectAppend([x], s, test);
    }
  }

  lemma {:induction false} SortedIsStable<T(!new)>(s: seq<T>, le: (T, T) -> bool, test: T -> bool)
    requires OneClass(test, le)
    ensures Select(Sorted(s, le), test) == Select(s, test)
  {
    if |s| > 0 {
      SortedIsStable(s[1..], le, test);
      InsertIsStable(s[0], Sorted(s[1..], le), le, test);
      SelectAppend([s[0]], s[1..], test);
      assert s == [s[0]] + s[1..];
    }
  }

  // Every later element is above every earlier one.
  ghost predicate Strict<T>(s: seq<T>, le: (T, T) -> bool) {
    forall i, j :: 0 <= i < j < |s| ==> !le(s[j], s[i])
  }

  lemma SameHead<T(!new)>(a: seq<T>, b: seq<T>, le: (T, T) -> bool)
    requires TotalPreorder(le) && IsSorted(a, le) && Strict(b, le) && multiset(a) == multiset(b)
    requires |a| > 0 && |b| > 0
    ensures a[0] == b[0]
  {
    assert a[0] in multiset(b) && b[0] in multiset(a);
    var j :| 0 <= j < |b| && b[j] == a[0];
    var i :| 0 <= i < |a| && a[i] == b[0];
    assert le(a[0], a[i]);
  }

  lemma {:induction false} StrictIsUnique<T(!new)>(a: seq<T>, b: seq<T>, le: (T, T) -> bool)
    requires TotalPreorder(le) && IsSorted(a, le) && Strict(b, le) && multiset(a) == multiset(b)
    ensures a == b
  {
    if |a| == 0 {
      assert |multiset(b)| == |b|;
    } else {
      assert |multiset(a)| == |a| && |multiset(b)| == |b|;
      SameHead(a, b, le);
      hide TotalPreorder;
      assert a == [a[0]] + a[1..] && b == [b[0]] + b[1..];
      assert multiset(a[1..]) == multiset(a) - multiset{a[0]};
      assert multiset(b[1..]) == multiset(b) - multiset{b[0]};
      StrictIsUnique(a[1..], b[1..], le);
    }
  }
}

/** Listing findings: which are selected, in what order, and how they are cut into pages. */
module Listing {
  import opened Domain
  import opened Sorting

  // Findings without a value come after those with one; among those without, all are equal.
  function ByKey<T, K>(key: T -> Option<K>, le: (K, K) -> bool): (T, T) -> bool {
    (a, b) => key(b).None? || (key(a).Some? && le(key(a).value, key(b).value))
  }

  function Has<T, K>(key: T -> Option<K>): T -> bool {
    f => key(f).Some?
  }

  function Lacks<T, K>(key: T -> Option<K>): T -> bool {
    f => key(f).None?
  }

  function Reversed<T>(le: (T, T) -> bool): (T, T) -> bool {
    (a, b) => le(b, a)
  }

  /** The selected findings in order. A descending sort puts the findings without a value first, so
      they are moved to the end. */
  function Ordered<T, K>(findings: seq<T>, keep: T -> bool, key: T -> Option<K>,
                         le: (K, K) -> bool, descending: bool): seq<T>
  {
    var selected := Select(findings, keep);
    if descending then
      var sorted := Sorted(selected, Reversed(ByKey(key, le)));
      Select(sorted, Has(key)) + Select(sorted, Lacks(key))
    else Sorted(selected, ByKey(key, le))
  }

  function Cut<T>(s: seq<T>, from: nat, to: nat): seq<T>
    requires from <= to
  {
    if |s| <= from then [] else if |s| <= to then s[from..] else s[from..to]
  }

  datatype FindingPage<T> = FindingPage(items: seq<T>, total: nat)

  function ListFindings<T, K>(findings: seq<T>, keep: T -> bool, key: T -> Option<K>,
                              le: (K, K) -> bool, descending: bool, page: int, size: int)
    : FindingPage<T>
    requires page >= 1 && size >= 1
  {
    var ordered := Ordered(findings, keep, key, le, descending);
    var start := (page - 1) * size;
    assert start >= 0;
    FindingPage(Cut(ordered, start, start + size), |ordered|)
  }

  lemma ByKeyIsPreorder<T(!new), K(!new)>(key: T -> Option<K>, le: (K, K) -> bool)
    requires TotalPreorder(le)
    ensures TotalPreorder(ByKey(key, le)) && TotalPreorder(Reversed(ByKey(key, le)))
  {
  }

  lemma {:induction false} SplitPermutes<T>(s: seq<T>, keep: T -> bool)
    ensures multiset(Select(s, keep)) + multiset(Select(s, x => !keep(x))) == multiset(s)
  {
    if |s| > 0 {
      SplitPermutes(s[1..], keep);
      assert s == [s[0]] + s[1..];
    }
  }

  lemma {:induction false} SelectKeepsOrder<T(!new)>(s: seq<T>, keep: T -> bool,
                                                     le: (T, T) -> bool)
    requires IsSorted(s, le)
    ensures IsSorted(Select(s, keep), le)
  {
    if |s| > 0 {
      SelectKeepsOrder(s[1..], keep, le);
      SelectOnly(s[1..], keep);
      var rest := Select(s[1..], keep);
      forall j | 0 <= j < |rest|
        ensures le(s[0], rest[j])
      {
        assert rest[j] in rest;
      }
    }
  }

  lemma {:induction false} SelectTwice<T>(s: seq<T>, a: T -> bool, b: T -> bool)
    ensures Select(Select(s, a), b) == Select(s, x => a(x) && b(x))
  {
    if |s| > 0 {
      SelectTwice(s[1..], a, b);
      if a(s[0]) {
        assert ([s[0]] + Select(s[1..], a))[1..] == Select(s[1..], a);
      }
    }
  }

  lemma {:induction false} SelectSame<T>(s: seq<T>, a: T -> bool, b: T -> bool)
    requires forall x :: x in s ==> a(x) == b(x)
    ensures Select(s, a) == Select(s, b)
  {
    if |s| > 0 {
      SelectSame(s[1..], a, b);
    }
  }

  // In the wanted order by value, the findings without a value last.
  ghost predicate InOrder<T, K>(s: seq<T>, key: T -> Option<K>, le: (K, K) -> bool,
                                descending: bool)
  {
    forall i, j :: 0 <= i < j < |s| ==>
      && (key(s[i]).None? ==> key(s[j]).None?)
      && (key(s[i]).Some? && key(s[j]).Some? ==>
            if descending then le(key(s[j]).value, key(s[i]).value)
            else le(key(s[i]).value, key(s[j]).value))
  }

  // A descending sort, the findings without a value moved to the end.
  lemma {:induction false} MovingNullsLast<T(!new), K(!new)>(s: seq<T>, key: T -> Option<K>,
                                                             le: (K, K) -> bool)
    requires IsSorted(s, Reversed(ByKey(key, le)))
    ensures var r := Select(s, Has(key)) + Select(s, Lacks(key));
            multiset(r) == multiset(s) && InOrder(r, key, le, true)
  {
    hide Select, IsSorted, InOrder;
    var some, none := Select(s, Has(key)), Select(s, Lacks(key));
    SplitPermutes(s, Has(key));
    SelectSame(s, Lacks(key), x => !Has(key)(x));
    SelectKeepsOrder(s, Has(key), Reversed(ByKey(key, le)));
    SelectOnly(s, Has(key));
    SelectOnly(s, Lacks(key));
    assert multiset(some + none) == multiset(some) + multiset(none);
    JoinedInOrder(some, none, key, le);
  }

  // Findings with a value in descending order, and then those without one.
  lemma JoinedInOrder<T(!new), K(!new)>(some: seq<T>, none: seq<T>, key: T -> Option<K>,
                                        le: (K, K) -> bool)
    requires (forall f :: f in some ==> Has(key)(f)) && forall f :: f in none ==> Lacks(key)(f)
    requires IsSorted(some, Reversed(ByKey(key, le)))
    ensures InOrder(some + none, key, le, true)
  {
    var order := Reversed(ByKey(key, le));
    var r := some + none;
    forall i | 0 <= i < |some|
      ensures r[i] == some[i] && key(r[i]).Some?
    {
      assert some[i] in some;
      assert Has(key)(some[i]);
    }
    forall i | |some| <= i < |r|
      ensures key(r[i]).None?
    {
      assert none[i - |some|] in none;
      assert Lacks(key)(none[i - |some|]);
    }
    forall i, j | 0 <= i < j < |r| && key(r[i]).Some? && key(r[j]).Some?
      ensures le(key(r[j]).value, key(r[i]).value)
    {
      assert order(some[i], some[j]);
    }
  }

  /** The list holds exactly the selected findings, in order of their values whichever way it runs,
      and the findings without a value come last either way. */
  lemma {:induction false} ListIsInOrder<T(!new), K(!new)>(findings: seq<T>, keep: T -> bool,
                                                           key: T -> Option<K>, le: (K, K) -> bool,
                                                           descending: bool)
    requires TotalPreorder(le)
    ensures var r := Ordered(findings, keep, key, le, descending);
            && multiset(r) == multiset(Select(findings, keep))
            && InOrder(r, key, le, descending)
  {
    hide Select, Sorted, TotalPreorder;
    var selected := Select(findings, keep);
    ByKeyIsPreorder(key, le);
    var order := if descending then Reversed(ByKey(key, le)) else ByKey(key, le);
    SortedPermutes(selected, order);
    SortedSorts(selected, order);
    if descending {
      hide InOrder;
      MovingNullsLast(Sorted(selected, order), key, le);
    }
  }

  /** Findings with equal values, and those without one, keep the order in which they were read. */
  lemma {:induction false} TiesKeepTheirOrder<T(!new), K(!new)>(findings: seq<T>, keep: T -> bool,
      key: T -> Option<K>, le: (K, K) -> bool, descending: bool, value: Option<K>)
    requires TotalPreorder(le)
    ensures var tied := f => key(f) == value;
            Select(Ordered(findings, keep, key, le, descending), tied)
            == Select(Select(findings, keep), tied)
  {
    var tied := f => key(f) == value;
    var selected := Select(findings, keep);
    if descending {
      var order := Reversed(ByKey(key, le));
      var sorted := Sorted(selected, order);
      SortedIsStable(selected, order, tied);
      var some, none := Select(sorted, Has(key)), Select(sorted, Lacks(key));
      SelectAppend(some, none, tied);
      SelectOnly(sorted, Has(key));
      SelectOnly(sorted, Lacks(key));
      SelectTwice(sorted, Has(key), tied);
      SelectTwice(sorted, Lacks(key), tied);
      if value.Some? {
        SelectNone(none, tied);
        SelectSame(sorted, x => Has(key)(x) && tied(x), tied);
      } else {
        SelectNone(some, tied);
        SelectSame(sorted, x => Lacks(key)(x) && tied(x), tied);
      }
    } else {
      SortedIsStable(selected, ByKey(key, le), tied);
    }
  }

  // Pages 1 to n, one after the other.
  function Pages<T>(ordered: seq<T>, size: nat, n: nat): seq<T>
    requires size >= 1
  {
    if n == 0 then [] else Pages(ordered, size, n - 1) + Cut(ordered, (n - 1) * size, n * size)
  }

  lemma {:induction false} PagesAreAPrefix<T>(ordered: seq<T>, size: nat, n: nat)
    requires size >= 1
    ensures Pages(ordered, size, n) == Cut(ordered, 0, n * size)
  {
    if n > 0 {
      PagesAreAPrefix(ordered, size, n - 1);
      assert (n - 1) * size + size == n * size;
    } else {
      assert n * size == 0;
    }
  }

  // The number of pages a list of this length fills.
  function PageCount(total: nat, size: nat): nat
    requires size >= 1
  {
    (total + size - 1) / size
  }

  lemma PageCountIsEnough(total: nat, size: nat)
    requires size >= 1
    ensures total <= PageCount(total, size) * size < total + size
  {
    var n := total + size - 1;
    assert n == (n / size) * size + n % size;
  }

  /** The pages, one after the other up to the last, are the list; every page but the last is full;
      every page after the last is empty; and every page states the same total. */
  lemma PagesMakeTheList<T, K>(findings: seq<T>, keep: T -> bool, key: T -> Option<K>,
                               le: (K, K) -> bool, descending: bool, page: int, size: nat)
    requires page >= 1 && size >= 1
    ensures var ordered := Ordered(findings, keep, key, le, descending);
            var p := ListFindings(findings, keep, key, le, descending, page, size);
            var last := PageCount(|ordered|, size);
            && p.total == |ordered|
            && Pages(ordered, size, last) == ordered
            && Pages(ordered, size, page) == Pages(ordered, size, page - 1) + p.items
            && (page < last ==> |p.items| == size)
            && (page == last ==> 0 < |p.items| <= size)
            && (page > last ==> p.items == [])
  {
    hide Ordered, PageCount;
    var ordered := Ordered(findings, keep, key, le, descending);
    var last := PageCount(|ordered|, size);
    PageCountIsEnough(|ordered|, size);
    PagesAreAPrefix(ordered, size, last);
    PageEnds(|ordered|, last, page, size);
    assert Pages(ordered, size, page)
        == Pages(ordered, size, page - 1) + Cut(ordered, (page - 1) * size, page * size);
    hide Pages;
  }

  // Where a page begins and ends, next to the length of the list.
  lemma PageEnds(total: nat, last: nat, page: int, size: nat)
    requires page >= 1 && size >= 1 && total <= last * size < total + size
    ensures 0 <= (page - 1) * size && (page - 1) * size + size == page * size
    ensures page < last ==> page * size <= total
    ensures page == last ==> (page - 1) * size < total <= page * size
    ensures page > last ==> total <= (page - 1) * size
  {
    assert (page - 1) * size + size == page * size;
    if page < last {
      Times(page, last - 1, size);
      assert (last - 1) * size + size == last * size;
    } else if page > last {
      Times(last, page - 1, size);
    }
  }

  lemma Times(a: nat, b: nat, size: nat)
    requires a <= b
    ensures a * size <= b * size
  {
  }
}

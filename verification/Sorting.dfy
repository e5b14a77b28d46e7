/**
 `Array.prototype.sort` with a numeric comparator: the stable sort of a sequence
 by an integer key. The source calls it on the task log, the inbox and the
 detected links; what it promises is proved here once.
 */
module Sorting {

  predicate Ascending<T(!new)>(s: seq<T>, key: T -> int) {
    forall i, j :: 0 <= i < j < |s| ==> key(s[i]) <= key(s[j])
  }

  predicate StrictlyAscending<T(!new)>(s: seq<T>, key: T -> int) {
    forall i, j :: 0 <= i < j < |s| ==> key(s[i]) < key(s[j])
  }

  /** The elements satisfying `p`, in order. */
  function Filter<T(!new)>(s: seq<T>, p: T -> bool): (r: seq<T>)
  {
    if s == [] then []
    else if p(s[|s| - 1]) then Filter(s[..|s| - 1], p) + [s[|s| - 1]]
    else Filter(s[..|s| - 1], p)
  }

  /** Puts `x` behind every trailing element that is not greater. */
  function Insert<T(!new)>(s: seq<T>, x: T, key: T -> int): (r: seq<T>)
    ensures |r| == |s| + 1
  {
    if s == [] || key(s[|s| - 1]) <= key(x) then s + [x]
    else Insert(s[..|s| - 1], x, key) + [s[|s| - 1]]
  }

  function StableSort<T(!new)>(s: seq<T>, key: T -> int): (r: seq<T>)
    ensures |r| == |s|
  {
    if s == [] then []
    else Insert(StableSort(s[..|s| - 1], key), s[|s| - 1], key)
  }

  lemma {:induction false} FilterMembers<T(!new)>(s: seq<T>, p: T -> bool)
    ensures |Filter(s, p)| <= |s|
    ensures forall x :: x in Filter(s, p) <==> x in s && p(x)
  {
    if s != [] {
      FilterMembers(s[..|s| - 1], p);
      assert s == s[..|s| - 1] + [s[|s| - 1]];
    }
  }

  lemma {:induction false} InsertPermutes<T(!new)>(s: seq<T>, x: T, key: T -> int)
    ensures multiset(Insert(s, x, key)) == multiset(s) + multiset{x}
    ensures forall y :: y in Insert(s, x, key) <==> y in s || y == x
  {
    if s != [] {
      InsertPermutes(s[..|s| - 1], x, key);
      assert s == s[..|s| - 1] + [s[|s| - 1]];
    }
  }

  lemma {:induction false} InsertAscending<T(!new)>(s: seq<T>, x: T, key: T -> int)
    requires Ascending(s, key)
    ensures Ascending(Insert(s, x, key), key)
  {
    if s != [] && key(x) < key(s[|s| - 1]) {
      var init := s[..|s| - 1];
      InsertAscending(init, x, key);
      InsertPermutes(init, x, key);
      var r := Insert(init, x, key);
      forall i | 0 <= i < |r| ensures key(r[i]) <= key(s[|s| - 1]) {
        assert r[i] in r;
      }
    }
  }

  lemma {:induction false} SortPermutes<T(!new)>(s: seq<T>, key: T -> int)
    ensures multiset(StableSort(s, key)) == multiset(s)
    ensures forall x :: x in StableSort(s, key) <==> x in s
  {
    if s != [] {
      var init, last := s[..|s| - 1], s[|s| - 1];
      SortPermutes(init, key);
      InsertPermutes(StableSort(init, key), last, key);
      assert s == init + [last];
    }
  }

  lemma {:induction false} SortOrders<T(!new)>(s: seq<T>, key: T -> int)
    ensures Ascending(StableSort(s, key), key)
  {
    if s != [] {
      var init := s[..|s| - 1];
      SortOrders(init, key);
      InsertAscending(StableSort(init, key), s[|s| - 1], key);
    }
  }

  /** The result is in order and is a rearrangement of the input. */
  lemma SortAscending<T(!new)>(s: seq<T>, key: T -> int)
    ensures Ascending(StableSort(s, key), key)
    ensures multiset(StableSort(s, key)) == multiset(s)
    ensures forall x :: x in StableSort(s, key) <==> x in s
  {
    SortPermutes(s, key);
    SortOrders(s, key);
  }

  lemma InsertLargest<T(!new)>(s: seq<T>, x: T, key: T -> int)
    requires forall y :: y in s ==> key(y) <= key(x)
    ensures Insert(s, x, key) == s + [x]
  {
    if s != [] {
      assert s[|s| - 1] in s;
    }
  }

  lemma LastIsLargest<T(!new)>(s: seq<T>, key: T -> int)
    requires Ascending(s, key) && s != []
    ensures forall y :: y in s[..|s| - 1] ==> key(y) <= key(s[|s| - 1])
  {
  }

  lemma {:induction false} SortOfAscending<T(!new)>(s: seq<T>, key: T -> int)
    requires Ascending(s, key)
    ensures StableSort(s, key) == s
  {
    if s != [] {
      var init, last := s[..|s| - 1], s[|s| - 1];
      SortOfAscending(init, key);
      assert init + [last] == s;
      LastIsLargest(s, key);
      InsertLargest(init, last, key);
    }
  }

  lemma FilterSnoc<T(!new)>(s: seq<T>, x: T, p: T -> bool)
    ensures Filter(s + [x], p) == if p(x) then Filter(s, p) + [x] else Filter(s, p)
  {
    assert (s + [x])[..|s|] == s;
  }

  lemma {:induction false} FilterConcat<T(!new)>(a: seq<T>, b: seq<T>, p: T -> bool)
    ensures Filter(a + b, p) == Filter(a, p) + Filter(b, p)
  {
    if b == [] {
      assert a + b == a;
    } else {
      assert (a + b)[..|a + b| - 1] == a + b[..|b| - 1];
      FilterConcat(a, b[..|b| - 1], p);
    }
  }

  lemma FilterCons<T(!new)>(x: T, s: seq<T>, p: T -> bool)
    ensures Filter([x] + s, p) == if p(x) then [x] + Filter(s, p) else Filter(s, p)
  {
    FilterConcat([x], s, p);
    assert [x][..0] == [];
  }

  lemma InsertSnoc<T(!new)>(s: seq<T>, y: T, x: T, key: T -> int)
    ensures Insert(s + [y], x, key) ==
            if key(y) <= key(x) then s + [y] + [x] else Insert(s, x, key) + [y]
  {
    assert (s + [y])[..|s|] == s;
  }

  lemma SortSnoc<T(!new)>(s: seq<T>, x: T, key: T -> int)
    ensures StableSort(s + [x], key) == Insert(StableSort(s, key), x, key)
  {
    assert (s + [x])[..|s|] == s;
  }

  lemma {:induction false} InsertFilter<T(!new)>(s: seq<T>, x: T, key: T -> int, p: T -> bool)
    requires Ascending(s, key)
    ensures Filter(Insert(s, x, key), p) == if p(x) then Insert(Filter(s, p), x, key) else Filter(s, p)
  {
    if s == [] {
      assert [x][..0] == [];
    } else {
      var init, last := s[..|s| - 1], s[|s| - 1];
      if key(last) <= key(x) {
        FilterSnoc(s, x, p);
        forall y | y in Filter(s, p) ensures key(y) <= key(x) {
          FilterMembers(s, p);
        }
        InsertLargest(Filter(s, p), x, key);
      } else {
        InsertFilter(init, x, key, p);
        FilterSnoc(Insert(init, x, key), last, p);
        InsertSnoc(Filter(init, p), last, x, key);
      }
    }
  }

  /** Sorting commutes with dropping elements: the sort is stable. */
  lemma {:induction false} SortFilter<T(!new)>(s: seq<T>, key: T -> int, p: T -> bool)
    ensures Filter(StableSort(s, key), p) == StableSort(Filter(s, p), key)
  {
    if s != [] {
      var init, last := s[..|s| - 1], s[|s| - 1];
      SortFilter(init, key, p);
      SortAscending(init, key);
      InsertFilter(StableSort(init, key), last, key, p);
      SortSnoc(Filter(init, p), last, key);
    }
  }
}

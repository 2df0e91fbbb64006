/** Stable sorting by a total preorder, and filtering. */
module Sorting {

  ghost predicate TotalPreorder<T(!new)>(le: (T, T) -> bool) {
    && (forall x, y :: le(x, y) || le(y, x))
    && (forall x, y, z :: le(x, y) && le(y, z) ==> le(x, z))
  }

  ghost predicate Sorted<T>(s: seq<T>, le: (T, T) -> bool) {
    forall i, j :: 0 <= i < j < |s| ==> le(s[i], s[j])
  }

  /** `x` placed after every element of `s` that may precede it. */
  function Insert<T>(s: seq<T>, x: T, le: (T, T) -> bool): seq<T> {
    if s == [] || le(s[|s| - 1], x) then s + [x]
    else Insert(s[..|s| - 1], x, le) + [s[|s| - 1]]
  }

  function StableSort<T>(s: seq<T>, le: (T, T) -> bool): seq<T> {
    if s == [] then [] else Insert(StableSort(s[..|s| - 1], le), s[|s| - 1], le)
  }

  function Filter<T>(s: seq<T>, p: T -> bool): seq<T> {
    if s == [] then []
    else Filter(s[..|s| - 1], p) + (if p(s[|s| - 1]) then [s[|s| - 1]] else [])
  }

  lemma {:induction false} FilterConcat<T>(s: seq<T>, t: seq<T>, p: T -> bool)
    ensures Filter(s + t, p) == Filter(s, p) + Filter(t, p)
  {
    if t == [] {
      assert s + t == s;
    } else {
      FilterConcat(s, t[..|t| - 1], p);
      assert (s + t)[..|s + t| - 1] == s + t[..|t| - 1];
    }
  }

  lemma {:induction false} FilterMembers<T>(s: seq<T>, p: T -> bool)
    ensures forall x :: x in Filter(s, p) <==> x in s && p(x)
  {
    if s != [] {
      FilterMembers(s[..|s| - 1], p);
      assert s == s[..|s| - 1] + [s[|s| - 1]];
    }
  }

  lemma {:induction false} FilterMultiset<T>(s: seq<T>, p: T -> bool, x: T)
    ensures multiset(Filter(s, p))[x] == if p(x) then multiset(s)[x] else 0
  {
    if s != [] {
      FilterMultiset(s[..|s| - 1], p, x);
      assert s == s[..|s| - 1] + [s[|s| - 1]];
    }
  }

  lemma {:induction false} FilterAll<T>(s: seq<T>, p: T -> bool)
    requires forall x :: x in s ==> p(x)
    ensures Filter(s, p) == s
  {
    if s != [] {
      FilterAll(s[..|s| - 1], p);
      assert s == s[..|s| - 1] + [s[|s| - 1]];
    }
  }

  lemma {:induction false} FilterNone<T>(s: seq<T>, p: T -> bool)
    requires forall x :: x in s ==> !p(x)
    ensures Filter(s, p) == []
  {
    if s != [] { FilterNone(s[..|s| - 1], p); }
  }

  lemma {:induction false} InsertMultiset<T>(s: seq<T>, x: T, le: (T, T) -> bool)
    ensures multiset(Insert(s, x, le)) == multiset(s) + multiset{x}
  {
    if s != [] && !le(s[|s| - 1], x) {
      InsertMultiset(s[..|s| - 1], x, le);
      assert s == s[..|s| - 1] + [s[|s| - 1]];
    }
  }

  lemma {:induction false} SortedSnoc<T>(s: seq<T>, x: T, le: (T, T) -> bool)
    requires Sorted(s, le) && forall y :: y in s ==> le(y, x)
    ensures Sorted(s + [x], le)
  {
  }

  lemma {:induction false} InsertSorted<T(!new)>(s: seq<T>, x: T, le: (T, T) -> bool)
    requires TotalPreorder(le) && Sorted(s, le)
    ensures Sorted(Insert(s, x, le), le)
  {
    if s == [] {
    } else {
      var init, last := s[..|s| - 1], s[|s| - 1];
      forall y | y in init ensures le(y, last) {
        var i :| 0 <= i < |init| && s[i] == y;
      }
      if le(last, x) {
        assert forall y :: y in s ==> y in init || y == last;
        SortedSnoc(s, x, le);
      } else {
        InsertSorted(init, x, le);
        InsertMultiset(init, x, le);
        var r := Insert(init, x, le);
        forall y | y in r ensures le(y, last) {
          assert y in multiset(r);
        }
        SortedSnoc(r, last, le);
      }
    }
  }

  /** The sort is a sorted permutation of its input. */
  lemma {:induction false} StableSortSorts<T(!new)>(s: seq<T>, le: (T, T) -> bool)
    requires TotalPreorder(le)
    ensures Sorted(StableSort(s, le), le)
    ensures multiset(StableSort(s, le)) == multiset(s)
  {
    if s != [] {
      hide Insert, Sorted, TotalPreorder;
      var init, x := s[..|s| - 1], s[|s| - 1];
      StableSortSorts(init, le);
      InsertSorted(StableSort(init, le), x, le);
      InsertMultiset(StableSort(init, le), x, le);
      assert s == init + [x];
    }
  }

  lemma {:induction false} FilterSnoc<T>(s: seq<T>, x: T, p: T -> bool)
    ensures Filter(s + [x], p) == if p(x) then Filter(s, p) + [x] else Filter(s, p)
  {
    assert (s + [x])[..|s|] == s;
    assert Filter(s, p) + [] == Filter(s, p);
  }

  lemma {:induction false} InsertSnoc<T>(s: seq<T>, y: T, x: T, le: (T, T) -> bool)
    ensures Insert(s + [y], x, le) == if le(y, x) then s + [y] + [x] else Insert(s, x, le) + [y]
  {
    assert (s + [y])[..|s|] == s;
  }

  lemma {:induction false} StableSortSnoc<T>(s: seq<T>, x: T, le: (T, T) -> bool)
    ensures StableSort(s + [x], le) == Insert(StableSort(s, le), x, le)
  {
    assert (s + [x])[..|s|] == s;
  }

  lemma {:induction false} InsertBehind<T>(s: seq<T>, x: T, le: (T, T) -> bool)
    requires forall y :: y in s ==> le(y, x)
    ensures Insert(s, x, le) == s + [x]
  {
  }

  lemma {:induction false} InsertFilter<T(!new)>(s: seq<T>, x: T, le: (T, T) -> bool, p: T -> bool)
    requires TotalPreorder(le) && Sorted(s, le)
    ensures Filter(Insert(s, x, le), p) == if p(x) then Insert(Filter(s, p), x, le) else Filter(s, p)
  {
    hide Filter, Insert;
    if s == [] {
      InsertBehind(s, x, le);
      FilterSnoc(s, x, p);
      FilterMembers(s, p);
      InsertBehind(Filter(s, p), x, le);
    } else {
      var init, last := s[..|s| - 1], s[|s| - 1];
      assert s == init + [last];
      InsertSnoc(init, last, x, le);
      FilterSnoc(init, last, p);
      if le(last, x) {
        FilterSnoc(s, x, p);
        FilterMembers(s, p);
        forall y | y in s ensures le(y, x) {
          var i :| 0 <= i < |s| && s[i] == y;
          assert i < |s| - 1 ==> le(s[i], last);
        }
        InsertBehind(Filter(s, p), x, le);
      } else {
        InsertFilter(init, x, le, p);
        FilterSnoc(Insert(init, x, le), last, p);
        InsertSnoc(Filter(init, p), last, x, le);
      }
    }
  }

  /** Stability: sorting and then picking is picking and then sorting. */
  lemma {:induction false} StableSortFilter<T(!new)>(s: seq<T>, le: (T, T) -> bool, p: T -> bool)
    requires TotalPreorder(le)
    ensures Filter(StableSort(s, le), p) == StableSort(Filter(s, p), le)
  {
    if s != [] {
      hide Filter, StableSort, Insert;
      var init, x := s[..|s| - 1], s[|s| - 1];
      assert s == init + [x];
      StableSortFilter(init, le, p);
      StableSortSorts(init, le);
      StableSortSnoc(init, x, le);
      InsertFilter(StableSort(init, le), x, le, p);
      FilterSnoc(init, x, p);
      StableSortSnoc(Filter(init, p), x, le);
    }
  }

  /** Sorting leaves a sequence as it is if and only if it is in order. */
  lemma {:induction false} SortedIffUnchanged<T(!new)>(s: seq<T>, le: (T, T) -> bool)
    requires TotalPreorder(le)
    ensures Sorted(s, le) <==> StableSort(s, le) == s
  {
    StableSortSorts(s, le);
    if Sorted(s, le) { SortedStays(s, le); }
  }

  lemma {:induction false} SortedStays<T>(s: seq<T>, le: (T, T) -> bool)
    requires Sorted(s, le)
    ensures StableSort(s, le) == s
  {
    if s != [] {
      var init := s[..|s| - 1];
      SortedStays(init, le);
      assert init != [] ==> le(s[|s| - 2], s[|s| - 1]);
    }
  }

  /** Where an element goes that belongs after the first `k` and before the others. */
  lemma {:induction false} InsertAt<T>(s: seq<T>, x: T, le: (T, T) -> bool, k: nat)
    requires k <= |s|
    requires forall i :: 0 <= i < k ==> le(s[i], x)
    requires forall i :: k <= i < |s| ==> !le(s[i], x)
    ensures Insert(s, x, le) == s[..k] + [x] + s[k..]
  {
    if k < |s| {
      var init := s[..|s| - 1];
      InsertAt(init, x, le, k);
      assert s[k..] == init[k..] + [s[|s| - 1]] && init[..k] == s[..k];
    } else {
      assert s[..k] == s && s[k..] == [];
    }
  }
}

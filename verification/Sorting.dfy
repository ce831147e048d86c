/** Stable sorting by an integer key, the way `list.sort(key=...)` and `sorted`
    behave.  A stable sort is characterised twice: as a computation (insertion
    behind every element that is not greater) and as a specification (sorted, the
    elements of each key in their original order).  `SortIsUnique` says that the
    specification pins the result down. */
module Sorting {

  ghost predicate Sorted<T>(key: T -> int, s: seq<T>) {
    forall i, j :: 0 <= i < j < |s| ==> key(s[i]) <= key(s[j])
  }

  /** The elements of `s` with key `k`, in the order they stand. */
  function WithKey<T>(key: T -> int, s: seq<T>, k: int): seq<T> {
    if s == [] then []
    else (if key(s[0]) == k then [s[0]] else []) + WithKey(key, s[1..], k)
  }

  /** Puts `x` behind every leading element whose key is not greater. */
  function InsertAfter<T>(key: T -> int, s: seq<T>, x: T): seq<T> {
    if s == [] then [x]
    else if key(s[0]) <= key(x) then [s[0]] + InsertAfter(key, s[1..], x)
    else [x] + s
  }

  function StableSort<T>(key: T -> int, s: seq<T>): seq<T> {
    if s == [] then [] else InsertAfter(key, StableSort(key, s[..|s| - 1]), s[|s| - 1])
  }

  /** `t` is a stably sorted arrangement of `s`. */
  ghost predicate StablySorted<T>(key: T -> int, s: seq<T>, t: seq<T>) {
    && Sorted(key, t)
    && multiset(t) == multiset(s)
    && forall k :: WithKey(key, t, k) == WithKey(key, s, k)
  }

  lemma {:induction false} WithKeyAppend<T>(key: T -> int, a: seq<T>, b: seq<T>, k: int)
    ensures WithKey(key, a + b, k) == WithKey(key, a, k) + WithKey(key, b, k)
  {
    if a == [] {
      assert a + b == b;
    } else {
      var ab := a + b;
      assert ab[0] == a[0] && ab[1..] == a[1..] + b;
      WithKeyAppend(key, a[1..], b, k);
      var h := if key(a[0]) == k then [a[0]] else [];
      assert WithKey(key, ab, k) == h + (WithKey(key, a[1..], k) + WithKey(key, b, k));
    }
  }

  lemma {:induction false} WithKeyNone<T>(key: T -> int, s: seq<T>, k: int)
    requires forall i :: 0 <= i < |s| ==> key(s[i]) != k
    ensures WithKey(key, s, k) == []
  {
    if s != [] { WithKeyNone(key, s[1..], k); }
  }

  lemma {:induction false} InsertAfterMembers<T>(key: T -> int, s: seq<T>, x: T)
    ensures multiset(InsertAfter(key, s, x)) == multiset(s) + multiset{x}
  {
    if s != [] {
      assert s == [s[0]] + s[1..];
      InsertAfterMembers(key, s[1..], x);
    }
  }

  lemma {:induction false} InsertAfterSorted<T>(key: T -> int, s: seq<T>, x: T)
    requires Sorted(key, s)
    ensures Sorted(key, InsertAfter(key, s, x))
  {
    if s != [] && key(s[0]) <= key(x) {
      InsertAfterSorted(key, s[1..], x);
      InsertAfterMembers(key, s[1..], x);
      var t := InsertAfter(key, s[1..], x);
      forall j | 0 <= j < |t| ensures key(s[0]) <= key(t[j]) {
        assert t[j] in multiset(t);
        if t[j] != x { assert t[j] in s[1..]; }
      }
    }
  }

  lemma {:induction false} InsertAfterWithKey<T>(key: T -> int, s: seq<T>, x: T, k: int)
    requires Sorted(key, s)
    ensures WithKey(key, InsertAfter(key, s, x), k) == WithKey(key, s, k) + WithKey(key, [x], k)
  {
    if s == [] {
    } else if key(s[0]) <= key(x) {
      InsertAfterWithKey(key, s[1..], x, k);
      WithKeyAppend(key, [s[0]], InsertAfter(key, s[1..], x), k);
    } else {
      WithKeyAppend(key, [x], s, k);
      if k == key(x) { WithKeyNone(key, s, k); }
    }
  }

  lemma {:induction false} StableSortCorrect<T>(key: T -> int, s: seq<T>)
    ensures StablySorted(key, s, StableSort(key, s))
  {
    if s != [] {
      var init, x := s[..|s| - 1], s[|s| - 1];
      assert s == init + [x];
      StableSortCorrect(key, init);
      var t := StableSort(key, init);
      InsertAfterSorted(key, t, x);
      InsertAfterMembers(key, t, x);
      forall k ensures WithKey(key, InsertAfter(key, t, x), k) == WithKey(key, s, k) {
        InsertAfterWithKey(key, t, x, k);
        WithKeyAppend(key, init, [x], k);
      }
    }
  }

  lemma {:induction false} WithKeyHead<T>(key: T -> int, s: seq<T>, k: int)
    ensures WithKey(key, s, k) != [] ==> exists i :: 0 <= i < |s| && key(s[i]) == k
  {
    if s != [] && key(s[0]) != k {
      WithKeyHead(key, s[1..], k);
      if WithKey(key, s[1..], k) != [] {
        var i :| 0 <= i < |s[1..]| && key(s[1..][i]) == k;
        assert key(s[i + 1]) == k;
      }
    }
  }

  /** Two sorted sequences that agree key by key, in order, are equal. */
  lemma {:induction false} SortIsUnique<T>(key: T -> int, a: seq<T>, b: seq<T>)
    requires |a| == |b| && Sorted(key, a) && Sorted(key, b)
    requires forall k :: WithKey(key, a, k) == WithKey(key, b, k)
    ensures a == b
  {
    if a != [] {
      var x := a[0];
      WithKeyHead(key, b, key(x));
      assert WithKey(key, b, key(x)) == WithKey(key, a, key(x)) == [x] + WithKey(key, a[1..], key(x));
      var y := b[0];
      WithKeyHead(key, a, key(y));
      assert WithKey(key, a, key(y)) == WithKey(key, b, key(y)) == [y] + WithKey(key, b[1..], key(y));
      assert key(x) == key(y);
      assert ([x] + WithKey(key, a[1..], key(x)))[0] == ([y] + WithKey(key, b[1..], key(y)))[0];
      forall k ensures WithKey(key, a[1..], k) == WithKey(key, b[1..], k) {
        assert WithKey(key, a, k) == WithKey(key, b, k);
        var h := if key(x) == k then [x] else [];
        assert h + WithKey(key, a[1..], k) == h + WithKey(key, b[1..], k);
        assert WithKey(key, a[1..], k) == (h + WithKey(key, a[1..], k))[|h|..];
        assert WithKey(key, b[1..], k) == (h + WithKey(key, b[1..], k))[|h|..];
      }
      SortIsUnique(key, a[1..], b[1..]);
      assert a == [a[0]] + a[1..] && b == [b[0]] + b[1..];
    }
  }

  /** Sorting what is already sorted, and sorting piecemeal, change nothing. */
  lemma SortAbsorbs<T>(key: T -> int, s: seq<T>, t: seq<T>)
    ensures StableSort(key, StableSort(key, s) + t) == StableSort(key, s + t)
    ensures StableSort(key, StableSort(key, s)) == StableSort(key, s)
  {
    StableSortCorrect(key, s);
    StableSortCorrect(key, s + t);
    StableSortCorrect(key, StableSort(key, s) + t);
    StableSortCorrect(key, StableSort(key, s));
    forall k ensures WithKey(key, StableSort(key, s) + t, k) == WithKey(key, s + t, k) {
      WithKeyAppend(key, StableSort(key, s), t, k);
      WithKeyAppend(key, s, t, k);
    }
    assert |StableSort(key, s)| == |multiset(s)| == |s|;
    assert |StableSort(key, s + t)| == |multiset(s + t)|;
    assert |StableSort(key, StableSort(key, s) + t)| == |multiset(StableSort(key, s) + t)|;
    assert |StableSort(key, StableSort(key, s))| == |multiset(StableSort(key, s))|;
    SortIsUnique(key, StableSort(key, StableSort(key, s) + t), StableSort(key, s + t));
    SortIsUnique(key, StableSort(key, StableSort(key, s)), StableSort(key, s));
  }

  /** When no two elements share a key, the arrangement sorted does not matter. */
  lemma DistinctSortIgnoresOrder<T>(key: T -> int, a: seq<T>, b: seq<T>)
    requires multiset(a) == multiset(b)
    requires forall i, j :: 0 <= i < j < |a| ==> key(a[i]) != key(a[j])
    ensures StableSort(key, a) == StableSort(key, b)
  {
    StableSortCorrect(key, a);
    StableSortCorrect(key, b);
    forall k ensures WithKey(key, a, k) == WithKey(key, b, k) {
      DistinctWithKey(key, a, b, k);
    }
    assert |StableSort(key, a)| == |multiset(a)| && |StableSort(key, b)| == |multiset(b)|;
    SortIsUnique(key, StableSort(key, a), StableSort(key, b));
  }

  lemma WithKeyRemove<T>(key: T -> int, b: seq<T>, j: nat, k: int)
    requires j < |b|
    ensures WithKey(key, b, k) ==
            WithKey(key, b[..j], k) + WithKey(key, [b[j]], k) + WithKey(key, b[j + 1..], k)
    ensures WithKey(key, b[..j] + b[j + 1..], k) == WithKey(key, b[..j], k) + WithKey(key, b[j + 1..], k)
  {
    assert b == b[..j] + [b[j]] + b[j + 1..];
    WithKeyAppend(key, b[..j] + [b[j]], b[j + 1..], k);
    WithKeyAppend(key, b[..j], [b[j]], k);
    WithKeyAppend(key, b[..j], b[j + 1..], k);
  }

  lemma RemoveShared<T>(x: T, a: seq<T>, b: seq<T>) returns (j: nat)
    requires multiset([x] + a) == multiset(b)
    ensures j < |b| && b[j] == x
    ensures multiset(b[..j] + b[j + 1..]) == multiset(a)
  {
    assert ([x] + a)[0] == x;
    assert x in multiset(b);
    j :| 0 <= j < |b| && b[j] == x;
    var before, after := b[..j], b[j + 1..];
    assert b == before + ([x] + after);
    assert multiset(b) == multiset(before) + (multiset{x} + multiset(after));
    assert multiset(before + after) == multiset(before) + multiset(after);
    assert multiset(b) - multiset{x} == multiset(before + after);
    assert (multiset{x} + multiset(a)) - multiset{x} == multiset(a);
  }

  lemma {:induction false} DistinctWithKey<T>(key: T -> int, a: seq<T>, b: seq<T>, k: int)
    requires multiset(a) == multiset(b)
    requires forall i, j :: 0 <= i < j < |a| ==> key(a[i]) != key(a[j])
    ensures WithKey(key, a, k) == WithKey(key, b, k)
    decreases |a|
  {
    if a == [] {
      assert |multiset(b)| == 0;
    } else {
      assert [a[0]] + a[1..] == a;
      var j := RemoveShared(a[0], a[1..], b);
      DistinctWithKey(key, a[1..], b[..j] + b[j + 1..], k);
      WithKeyRemove(key, b, j, k);
      if key(a[0]) == k { WithKeyNone(key, a[1..], k); }
    }
  }
}

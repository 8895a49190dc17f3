/** The two orderings the renderer sorts by: Python's `<` on strings, and
    `sorted(xs, key=..., reverse=True)` on an integer key. */
module Ordering {

  /** Python's `a < b` on `str`: lexicographic by code point, a proper
      prefix ordered first. */
  predicate StrLess(a: string, b: string): (r: bool)
    ensures a < b ==> r
    ensures r ==> a != b
    decreases |a|
  {
    if a == [] then b != []
    else if b == [] then false
    else a[0] < b[0] || (a[0] == b[0] && StrLess(a[1..], b[1..]))
  }

  lemma {:induction false} StrLessIrreflexive(a: string)
    ensures !StrLess(a, a)
    decreases |a|
  {
    if a != [] {
      StrLessIrreflexive(a[1..]);
    }
  }

  lemma {:induction false} StrLessTransitive(a: string, b: string, c: string)
    requires StrLess(a, b) && StrLess(b, c)
    ensures StrLess(a, c)
    decreases |a|
  {
    if a != [] && b != [] && c != [] && a[0] == b[0] == c[0] {
      StrLessTransitive(a[1..], b[1..], c[1..]);
    }
  }

  /** Any two different strings are ordered one way or the other. */
  lemma {:induction false} StrLessTotal(a: string, b: string)
    requires a != b
    ensures StrLess(a, b) || StrLess(b, a)
    decreases |a|
  {
    if a != [] && b != [] && a[0] == b[0] {
      assert a == [a[0]] + a[1..] && b == [b[0]] + b[1..];
      StrLessTotal(a[1..], b[1..]);
    }
  }

  /** `s` is in non-increasing order of `key`. */
  ghost predicate Descending<T>(s: seq<T>, key: T -> int)
  {
    forall i, j :: 0 <= i < j < |s| ==> key(s[i]) >= key(s[j])
  }

  /** The elements of `s` whose key is `v`, in their order in `s`. */
  ghost function WithKey<T>(s: seq<T>, key: T -> int, v: int): seq<T>
  {
    if s == [] then []
    else (if key(s[0]) == v then [s[0]] else []) + WithKey(s[1..], key, v)
  }

  lemma {:induction false} WithKeyAppend<T>(a: seq<T>, b: seq<T>, key: T -> int, v: int)
    ensures WithKey(a + b, key, v) == WithKey(a, key, v) + WithKey(b, key, v)
  {
    if a == [] {
      assert a + b == b;
    } else {
      WithKeyAppend(a[1..], b, key, v);
      assert (a + b)[1..] == a[1..] + b;
    }
  }

  /** In a descending sequence headed by a key below `v`, nothing has key `v`. */
  lemma {:induction false} WithKeyBelowHead<T>(t: seq<T>, key: T -> int, v: int)
    requires Descending(t, key)
    requires t != [] && key(t[0]) < v
    ensures WithKey(t, key, v) == []
  {
    if |t| > 1 {
      WithKeyBelowHead(t[1..], key, v);
    }
  }

  lemma DescendingCons<T>(h: T, rest: seq<T>, key: T -> int)
    requires Descending(rest, key)
    requires rest != [] ==> key(h) >= key(rest[0])
    ensures Descending([h] + rest, key)
  {
    var s := [h] + rest;
    forall i, j | 0 <= i < j < |s|
      ensures key(s[i]) >= key(s[j])
    {
      if i == 0 {
        assert s[j] == rest[j - 1];
        assert key(rest[0]) >= key(rest[j - 1]);
      } else {
        assert s[i] == rest[i - 1] && s[j] == rest[j - 1];
      }
    }
  }

  /** One step of a stable descending insertion sort: `x` goes after every
      element whose key is at least its own. */
  function InsertDesc<T>(t: seq<T>, x: T, key: T -> int): (r: seq<T>)
    requires Descending(t, key)
    ensures Descending(r, key)
    ensures |r| == |t| + 1
    ensures t == [] || key(t[0]) < key(x) ==> r[0] == x
    ensures t != [] && key(t[0]) >= key(x) ==> r[0] == t[0]
  {
    if t == [] then [x]
    else if key(t[0]) >= key(x) then
      var rest := InsertDesc(t[1..], x, key);
      assert t == [t[0]] + t[1..];
      DescendingCons(t[0], rest, key);
      [t[0]] + rest
    else
      DescendingCons(x, t, key);
      [x] + t
  }

  lemma MultisetCons<T>(t: seq<T>)
    requires t != []
    ensures multiset(t) == multiset{t[0]} + multiset(t[1..])
  {
    assert t == [t[0]] + t[1..];
  }

  /** Insertion adds exactly `x`. */
  lemma {:induction false} InsertDescPerm<T>(t: seq<T>, x: T, key: T -> int)
    requires Descending(t, key)
    ensures multiset(InsertDesc(t, x, key)) == multiset(t) + multiset{x}
  {
    var r := InsertDesc(t, x, key);
    if t == [] {
      assert r == [x];
    } else if key(t[0]) >= key(x) {
      InsertDescPerm(t[1..], x, key);
      MultisetCons(t);
      assert r == [t[0]] + InsertDesc(t[1..], x, key);
      MultisetCons(r);
    } else {
      assert r == [x] + t;
      MultisetCons(r);
    }
  }

  /** Insertion appends `x` to the run of elements sharing its key. */
  lemma {:induction false} InsertDescWithKey<T>(t: seq<T>, x: T, key: T -> int, v: int)
    requires Descending(t, key)
    ensures WithKey(InsertDesc(t, x, key), key, v)
         == WithKey(t, key, v) + (if key(x) == v then [x] else [])
  {
    var r := InsertDesc(t, x, key);
    var tail := if key(x) == v then [x] else [];
    if t == [] {
      assert r == [x];
      assert WithKey(r, key, v) == tail + WithKey([], key, v);
    } else if key(t[0]) >= key(x) {
      var rest := InsertDesc(t[1..], x, key);
      assert r == [t[0]] + rest;
      assert r[1..] == rest;
      var head := if key(t[0]) == v then [t[0]] else [];
      InsertDescWithKey(t[1..], x, key, v);
      calc {
        WithKey(r, key, v);
        head + WithKey(rest, key, v);
        head + (WithKey(t[1..], key, v) + tail);
        (head + WithKey(t[1..], key, v)) + tail;
        WithKey(t, key, v) + tail;
      }
    } else {
      assert r == [x] + t;
      assert r[1..] == t;
      if key(x) == v {
        WithKeyBelowHead(t, key, v);
        assert WithKey(r, key, v) == [x] + WithKey(t, key, v);
      } else {
        assert WithKey(r, key, v) == WithKey(t, key, v);
      }
    }
  }

  /** `sorted(s, key=key, reverse=True)`, as a stable insertion sort. */
  function SortDesc<T>(s: seq<T>, key: T -> int): (r: seq<T>)
    ensures |r| == |s|
    ensures Descending(r, key)
    decreases |s|
  {
    if s == [] then []
    else
      InsertDesc(SortDesc(s[..|s| - 1], key), s[|s| - 1], key)
  }

  /** Sorting rearranges the elements and nothing else. */
  lemma {:induction false} SortDescPerm<T>(s: seq<T>, key: T -> int)
    ensures multiset(SortDesc(s, key)) == multiset(s)
    decreases |s|
  {
    if s != [] {
      var init := s[..|s| - 1];
      SortDescPerm(init, key);
      InsertDescPerm(SortDesc(init, key), s[|s| - 1], key);
      assert s == init + [s[|s| - 1]];
    }
  }

  /** Appending one element extends the run of its key, and no other. */
  lemma WithKeySnoc<T>(init: seq<T>, last: T, key: T -> int, v: int)
    ensures WithKey(init + [last], key, v) == WithKey(init, key, v) + (if key(last) == v then [last] else [])
  {
    WithKeyAppend(init, [last], key, v);
    assert [last][1..] == [];
  }

  /** Python's sort is stable even with `reverse=True`: the elements that
      share a key come out in the order they went in. */
  lemma {:induction false} SortDescStable<T>(s: seq<T>, key: T -> int, v: int)
    ensures WithKey(SortDesc(s, key), key, v) == WithKey(s, key, v)
    decreases |s|
  {
    if s != [] {
      var init, last := s[..|s| - 1], s[|s| - 1];
      SortDescStable(init, key, v);
      InsertDescWithKey(SortDesc(init, key), last, key, v);
      assert s == init + [last];
      WithKeySnoc(init, last, key, v);
    }
  }

  /** Both halves of a descending sequence are descending, and every
      element of the first half is at least every element of the second. */
  lemma DescendingSplit<T>(s: seq<T>, n: nat, key: T -> int)
    requires Descending(s, key)
    requires n <= |s|
    ensures Descending(s[..n], key) && Descending(s[n..], key)
    ensures forall i, j :: 0 <= i < n && 0 <= j < |s| - n ==> key(s[..n][i]) >= key(s[n..][j])
  {
    forall i, j | 0 <= i < n && 0 <= j < |s| - n
      ensures key(s[..n][i]) >= key(s[n..][j])
    {
      assert s[..n][i] == s[i] && s[n..][j] == s[n + j];
    }
    forall i, j | 0 <= i < j < |s| - n
      ensures key(s[n..][i]) >= key(s[n..][j])
    {
      assert s[n..][i] == s[n + i] && s[n..][j] == s[n + j];
    }
  }

  lemma SplitAt<T>(s: seq<T>, n: nat)
    requires n <= |s|
    ensures s[..n] + s[n..] == s
    ensures multiset(s[..n]) + multiset(s[n..]) == multiset(s)
  {
    assert s[..n] + s[n..] == s;
  }

  /** The source's top-K truncation: the first `k` of the stably sorted
      sequence are shown, the rest are hidden. */
  function TopK<T>(s: seq<T>, key: T -> int, k: nat): (r: (seq<T>, seq<T>))
    ensures r.0 + r.1 == SortDesc(s, key)
    ensures |r.0| == if |s| < k then |s| else k
    ensures |r.0| + |r.1| == |s|
    ensures multiset(r.0) + multiset(r.1) == multiset(s)
    ensures Descending(r.0, key) && Descending(r.1, key)
    ensures forall i, j :: 0 <= i < |r.0| && 0 <= j < |r.1| ==> key(r.0[i]) >= key(r.1[j])
  {
    var sorted := SortDesc(s, key);
    var n := if |sorted| < k then |sorted| else k;
    SortDescPerm(s, key);
    SplitAt(sorted, n);
    DescendingSplit(sorted, n, key);
    (sorted[..n], sorted[n..])
  }

  /** The cut keeps the sort's stability: among the elements sharing a key,
      the shown ones are the first in input order, and the hidden ones
      follow them. */
  lemma TopKStable<T>(s: seq<T>, key: T -> int, k: nat, v: int)
    ensures var r := TopK(s, key, k);
            WithKey(r.0, key, v) + WithKey(r.1, key, v) == WithKey(s, key, v)
    ensures WithKey(TopK(s, key, k).0, key, v) <= WithKey(s, key, v)
  {
    var r := TopK(s, key, k);
    WithKeyAppend(r.0, r.1, key, v);
    SortDescStable(s, key, v);
  }
}

/** Python dictionaries as the source uses them: insertion-ordered maps.
    A dict is modelled as a sequence of key/value pairs in first-insertion
    order, so that iterating `.items()` is reading the sequence front to back.
    Assignment to an existing key keeps that key's position. */
module Assoc {
  import opened Maybe

  type Assoc<K, V> = seq<(K, V)>

  /** The keys of `m` in iteration order. */
  function Keys<K, V>(m: Assoc<K, V>): seq<K>
  {
    seq(|m|, i requires 0 <= i < |m| => m[i].0)
  }

  /** The set of elements of a sequence. */
  ghost function Elements<T>(s: seq<T>): set<T>
  {
    set x | x in s
  }

  ghost predicate Distinct<T>(s: seq<T>)
  {
    forall i, j :: 0 <= i < j < |s| ==> s[i] != s[j]
  }

  lemma KeysCons<K, V>(m: Assoc<K, V>)
    requires m != []
    ensures Keys(m) == [m[0].0] + Keys(m[1..])
  {
  }

  /** `d.get(k)`: the value stored under `k`, if any. */
  function Get<K(==), V>(m: Assoc<K, V>, k: K): (r: Option<V>)
    ensures r.Some? <==> k in Keys(m)
    ensures r.Some? ==> (k, r.value) in m
  {
    if m == [] then None
    else
      KeysCons(m);
      if m[0].0 == k then Some(m[0].1) else Get(m[1..], k)
  }

  /** `d[k] = v`: overwrites the value of an existing key in place, or
      appends a new key at the end of the iteration order. */
  function Put<K(==,!new), V>(m: Assoc<K, V>, k: K, v: V): (r: Assoc<K, V>)
    ensures Keys(r) == if k in Keys(m) then Keys(m) else Keys(m) + [k]
    ensures Get(r, k) == Some(v)
    ensures forall k' :: k' != k ==> Get(r, k') == Get(m, k')
  {
    if m == [] then [(k, v)]
    else if m[0].0 == k then KeysCons(m); KeysCons([(k, v)] + m[1..]); [(k, v)] + m[1..]
    else
      var rest := Put(m[1..], k, v);
      KeysCons(m); KeysCons([m[0]] + rest);
      assert ([m[0]] + rest)[1..] == rest;
      [m[0]] + rest
  }

  /** The sum of `w` over the values of `m`. */
  function SumBy<K, V>(m: Assoc<K, V>, w: V -> nat): nat
  {
    if m == [] then 0 else w(m[0].1) + SumBy(m[1..], w)
  }

  function NatValue(n: nat): nat { n }

  /** `sum(d.values())` for a dict of counters. */
  function Sum<K>(m: Assoc<K, nat>): nat
  {
    SumBy(m, NatValue)
  }

  /** The weight of an optional value; an absent value weighs nothing. */
  function WeightOf<V>(o: Option<V>, w: V -> nat): nat
  {
    if o.Some? then w(o.value) else 0
  }

  /** Overwriting one value changes the sum by exactly the difference. */
  lemma {:induction false} SumByPut<K(!new), V>(m: Assoc<K, V>, k: K, v: V, w: V -> nat)
    ensures SumBy(Put(m, k, v), w) + WeightOf(Get(m, k), w) == SumBy(m, w) + w(v)
  {
    if m == [] {
    } else if m[0].0 == k {
      assert ([(k, v)] + m[1..])[1..] == m[1..];
    } else {
      SumByPut(m[1..], k, v, w);
      assert ([m[0]] + Put(m[1..], k, v))[1..] == Put(m[1..], k, v);
    }
  }

  lemma {:induction false} SumByAppend<K, V>(a: Assoc<K, V>, b: Assoc<K, V>, w: V -> nat)
    ensures SumBy(a + b, w) == SumBy(a, w) + SumBy(b, w)
  {
    if a == [] {
      assert a + b == b;
    } else {
      SumByAppend(a[1..], b, w);
      assert (a + b)[1..] == a[1..] + b;
    }
  }

  lemma SumByCons<K, V>(x: (K, V), m: Assoc<K, V>, w: V -> nat)
    ensures SumBy([x] + m, w) == w(x.1) + SumBy(m, w)
  {
    assert ([x] + m)[1..] == m;
  }

  /** Removing the pair at index `j` removes exactly its weight. */
  lemma SumByRemove<K, V>(b: Assoc<K, V>, j: nat, w: V -> nat)
    requires j < |b|
    ensures SumBy(b, w) == w(b[j].1) + SumBy(b[..j] + b[j + 1..], w)
  {
    var pre, post := b[..j], b[j + 1..];
    assert b == pre + ([b[j]] + post);
    SumByAppend(pre, [b[j]] + post, w);
    SumByCons(b[j], post, w);
    SumByAppend(pre, post, w);
  }

  /** Removing the element at index `j` removes one occurrence of it. */
  lemma MultisetRemove<T>(b: seq<T>, j: nat)
    requires j < |b|
    ensures multiset(b[..j] + b[j + 1..]) == multiset(b) - multiset{b[j]}
  {
    assert b == b[..j] + [b[j]] + b[j + 1..];
  }

  lemma MultisetTail<T>(a: seq<T>)
    requires a != []
    ensures multiset(a[1..]) == multiset(a) - multiset{a[0]}
  {
    assert a == [a[0]] + a[1..];
  }

  /** An occurrence of `x` in `b`. */
  lemma IndexOf<T>(b: seq<T>, x: T) returns (j: nat)
    requires x in multiset(b)
    ensures j < |b| && b[j] == x
  {
    j :| 0 <= j < |b| && b[j] == x;
  }

  /** Taking the head off `a` and the same element off a permutation `b`
      of it leaves two permutations of each other. */
  lemma PermutationRest<T>(a: seq<T>, b: seq<T>) returns (j: nat)
    requires a != [] && multiset(a) == multiset(b)
    ensures j < |b| && b[j] == a[0]
    ensures multiset(a[1..]) == multiset(b[..j] + b[j + 1..])
  {
    assert a[0] in multiset(a);
    j := IndexOf(b, a[0]);
    MultisetTail(a);
    MultisetRemove(b, j);
  }

  /** The sum of the values does not depend on the order of the pairs. */
  lemma {:induction false} SumByPermutation<K, V>(a: Assoc<K, V>, b: Assoc<K, V>, w: V -> nat)
    requires multiset(a) == multiset(b)
    ensures SumBy(a, w) == SumBy(b, w)
    decreases |a|
  {
    if a == [] {
      assert |b| == |multiset(b)| == 0;
    } else {
      var j := PermutationRest(a, b);
      SumByPermutation(a[1..], b[..j] + b[j + 1..], w);
      SumByRemove(b, j, w);
    }
  }

  lemma DistinctAt<T>(s: seq<T>, i: nat, j: nat)
    requires Distinct(s)
    requires i < j < |s|
    ensures s[i] != s[j]
  {
  }

  /** In a dict with distinct keys no pair occurs twice. */
  lemma {:induction false} DistinctKeysOnce<K, V>(m: Assoc<K, V>, x: (K, V))
    requires Distinct(Keys(m))
    ensures multiset(m)[x] <= 1
    decreases |m|
  {
    if m != [] {
      var rest := m[1..];
      assert Distinct(Keys(rest)) by {
        forall i, j | 0 <= i < j < |rest|
          ensures Keys(rest)[i] != Keys(rest)[j]
        {
          assert Keys(m)[i + 1] != Keys(m)[j + 1];
        }
      }
      DistinctKeysOnce(rest, x);
      assert m == [m[0]] + rest;
      if x == m[0] && x in rest {
        var k :| 0 <= k < |rest| && rest[k] == x;
        DistinctAt(Keys(m), 0, k + 1);
      }
    }
  }

  /** Two positions holding the same element make it occur twice. */
  lemma TwiceIn<T>(b: seq<T>, i: nat, j: nat)
    requires i < j < |b| && b[i] == b[j]
    ensures multiset(b)[b[i]] >= 2
  {
    assert b == b[..j] + [b[j]] + b[j + 1..];
    assert b[..j][i] == b[i];
  }

  /** Rearranging the pairs of a dict keeps its keys distinct. */
  lemma DistinctKeysPermutation<K, V>(a: Assoc<K, V>, b: Assoc<K, V>)
    requires multiset(a) == multiset(b)
    requires Distinct(Keys(a))
    ensures Distinct(Keys(b))
  {
    forall i, j | 0 <= i < j < |b|
      ensures Keys(b)[i] != Keys(b)[j]
    {
      if b[i].0 == b[j].0 {
        assert b[i] in multiset(a) && b[j] in multiset(a);
        var p := IndexOf(a, b[i]);
        var q := IndexOf(a, b[j]);
        if p < q {
          DistinctAt(Keys(a), p, q);
        } else if q < p {
          DistinctAt(Keys(a), q, p);
        } else {
          DistinctKeysOnce(a, b[i]);
          TwiceIn(b, i, j);
        }
      }
    }
  }

  /** `d.get(k, 0)` for a dict of counters. */
  function CountOf<K(==)>(m: Assoc<K, nat>, k: K): nat
  {
    if Get(m, k).Some? then Get(m, k).value else 0
  }

  lemma SumPut<K(!new)>(m: Assoc<K, nat>, k: K, v: nat)
    ensures Sum(Put(m, k, v)) + CountOf(m, k) == Sum(m) + v
  {
    SumByPut(m, k, v, NatValue);
  }

  /** Two dicts holding the same values in the same order have the same sum. */
  lemma {:induction false} SumSameValues<K1, K2>(a: Assoc<K1, nat>, b: Assoc<K2, nat>)
    requires |a| == |b|
    requires forall i :: 0 <= i < |a| ==> a[i].1 == b[i].1
    ensures Sum(a) == Sum(b)
  {
    if a != [] {
      SumSameValues(a[1..], b[1..]);
    }
  }

  /** The source's counter update
        `if k not in d: d[k] = 0` followed by `d[k] += n`. */
  function AddTo<K(==,!new)>(m: Assoc<K, nat>, k: K, n: nat): (r: Assoc<K, nat>)
    ensures Keys(r) == if k in Keys(m) then Keys(m) else Keys(m) + [k]
    ensures CountOf(r, k) == CountOf(m, k) + n
    ensures forall k' :: k' != k ==> Get(r, k') == Get(m, k')
    ensures Sum(r) == Sum(m) + n
  {
    var v: nat := CountOf(m, k) + n;
    SumPut(m, k, v);
    Put<K, nat>(m, k, v)
  }

  /** The distinct elements of `s`, in order of first occurrence: the key
      order of a dict filled from `s`. */
  ghost function FirstSeen<T>(s: seq<T>): (r: seq<T>)
    ensures Distinct(r)
    ensures Elements(r) == Elements(s)
    decreases |s|
  {
    if s == [] then []
    else
      var p := FirstSeen(s[..|s| - 1]);
      assert Elements(s) == Elements(s[..|s| - 1]) + {s[|s| - 1]} by {
        assert s == s[..|s| - 1] + [s[|s| - 1]];
      }
      if s[|s| - 1] in p then p else p + [s[|s| - 1]]
  }

  /** Appending an element extends the first-seen order iff it is new. */
  lemma FirstSeenSnoc<T>(s: seq<T>, x: T)
    ensures FirstSeen(s + [x]) == if x in FirstSeen(s) then FirstSeen(s) else FirstSeen(s) + [x]
  {
    assert (s + [x])[..|s|] == s;
  }

  /** A sequence without repetitions has as many elements as its set. */
  lemma {:induction false} DistinctCard<T>(s: seq<T>)
    requires Distinct(s)
    ensures |Elements(s)| == |s|
    decreases |s|
  {
    if s != [] {
      var p := s[..|s| - 1];
      DistinctCard(p);
      assert s == p + [s[|s| - 1]];
      assert Elements(s) == Elements(p) + {s[|s| - 1]};
      assert s[|s| - 1] !in Elements(p);
    }
  }

  /** The number of distinct keys of `s` equals the size of its set. */
  lemma FirstSeenCard<T>(s: seq<T>)
    ensures |FirstSeen(s)| == |Elements(s)|
  {
    DistinctCard(FirstSeen(s));
  }

  /** In a dict with distinct keys, every stored pair is what `get` finds. */
  lemma {:induction false} GetAt<K, V>(m: Assoc<K, V>, i: nat)
    requires Distinct(Keys(m))
    requires i < |m|
    ensures Get(m, m[i].0) == Some(m[i].1)
    decreases i
  {
    if i > 0 {
      KeysCons(m);
      assert Keys(m[1..]) == Keys(m)[1..];
      assert Keys(m)[0] != Keys(m)[i];
      GetAt(m[1..], i - 1);
      assert m[1..][i - 1] == m[i];
    }
  }

  /** A stored pair's key is one of the keys. */
  lemma KeyOfMember<K, V>(m: Assoc<K, V>, x: (K, V))
    requires x in m
    ensures x.0 in Keys(m)
  {
    var i :| 0 <= i < |m| && m[i] == x;
    assert Keys(m)[i] == x.0;
  }

  /** Every element of a sequence's tail is an element of the sequence. */
  lemma InTail<T>(s: seq<T>)
    requires s != []
    ensures forall x :: x in s[1..] ==> x in s
  {
  }

  /** A position where key `k` is stored. */
  lemma KeyIndex<K, V>(m: Assoc<K, V>, k: K) returns (i: nat)
    requires k in Keys(m)
    ensures i < |m| && m[i].0 == k
  {
    i :| 0 <= i < |Keys(m)| && Keys(m)[i] == k;
  }

  /** The same, for a pair known to be stored somewhere in `m`. */
  lemma GetMember<K, V>(m: Assoc<K, V>, x: (K, V))
    requires Distinct(Keys(m))
    requires x in m
    ensures Get(m, x.0) == Some(x.1)
  {
    var i :| 0 <= i < |m| && m[i] == x;
    GetAt(m, i);
  }

  /** Appending a new element keeps a sequence free of repetitions. */
  lemma DistinctSnoc<T>(s: seq<T>, x: T)
    requires Distinct(s) && x !in s
    ensures Distinct(s + [x])
  {
  }

  /** A counter update keeps a dict's keys distinct. */
  lemma AddToDistinct<K(!new)>(m: Assoc<K, nat>, k: K, n: nat)
    requires Distinct(Keys(m))
    ensures Distinct(Keys(AddTo(m, k, n)))
  {
    if k !in Keys(m) {
      DistinctSnoc(Keys(m), k);
    }
  }
}

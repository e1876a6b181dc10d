/** Sequence operations the source gets from JavaScript's Array prototype:
    `filter`, `find`, `indexOf`, a stable `sort` by a numeric key. */
module Seqs {
  import opened Wrappers

  /** `xs.filter(p)`: the elements satisfying `p`, in their original order. */
  function Filter<T>(xs: seq<T>, p: T -> bool): (r: seq<T>)
    ensures |r| <= |xs|
    ensures forall k :: 0 <= k < |r| ==> r[k] in xs && p(r[k])
    ensures forall k :: 0 <= k < |xs| && p(xs[k]) ==> xs[k] in r
    decreases |xs|
  {
    if xs == [] then []
    else Filter(xs[..|xs| - 1], p) + (if p(xs[|xs| - 1]) then [xs[|xs| - 1]] else [])
  }

  lemma {:induction false} FilterAppend<T>(a: seq<T>, b: seq<T>, p: T -> bool)
    ensures Filter(a + b, p) == Filter(a, p) + Filter(b, p)
    decreases |b|
  {
    if b == [] {
      assert a + b == a;
    } else {
      var b' := b[..|b| - 1];
      assert (a + b)[..|a + b| - 1] == a + b';
      FilterAppend(a, b', p);
    }
  }

  lemma FilterCons<T>(xs: seq<T>, p: T -> bool)
    requires xs != []
    ensures Filter(xs, p) == (if p(xs[0]) then [xs[0]] else []) + Filter(xs[1..], p)
  {
    assert xs == [xs[0]] + xs[1..];
    FilterAppend([xs[0]], xs[1..], p);
    FilterSingle(xs[0], p);
  }

  lemma AppendAssoc<T>(a: seq<T>, b: seq<T>, c: seq<T>)
    ensures a + b + c == a + (b + c)
  {
  }

  lemma AppendEmptyPrefix<T>(a: seq<T>, c: seq<T>)
    ensures a + c[..0] == a
  {
  }

  lemma AppendPrefixShift<T>(a: seq<T>, c: seq<T>)
    requires |c| > 1
    ensures a + [c[0]] + c[1..][..|c| - 2] == a + c[..|c| - 1]
  {
  }

  lemma TakeSnoc<T>(s: seq<T>, i: nat)
    requires i < |s|
    ensures s[..i + 1] == s[..i] + [s[i]]
    ensures s[..i + 1][..i] == s[..i] && s[..i + 1][i] == s[i]
  {
  }

  lemma DropTake<T>(s: seq<T>, a: nat, n: nat)
    requires a + n <= |s|
    ensures s[a..][..n] == s[a..a + n]
  {
  }

  lemma TakeAll<T>(s: seq<T>)
    ensures s[..|s|] == s
  {
  }

  lemma FilterSingle<T>(x: T, p: T -> bool)
    ensures Filter([x], p) == if p(x) then [x] else []
  {
    assert [x][..0] == [];
  }

  /** Filtering keeps everything exactly when everything satisfies the predicate. */
  lemma {:induction false} FilterAll<T>(xs: seq<T>, p: T -> bool)
    requires forall k :: 0 <= k < |xs| ==> p(xs[k])
    ensures Filter(xs, p) == xs
    decreases |xs|
  {
    if xs != [] {
      var init := xs[..|xs| - 1];
      var last := xs[|xs| - 1];
      assert Filter(init, p) == init by {
        FilterAll(init, p);
      }
      assert Filter(xs, p) == Filter(init, p) + [last] by {
        assert p(last);
      }
      assert init + [last] == xs;
    }
  }

  /** `FilterAll` as an implication, for callers that name the predicate once. */
  lemma FilterKeepsAll<T>(xs: seq<T>, p: T -> bool)
    ensures (forall k :: 0 <= k < |xs| ==> p(xs[k])) ==> Filter(xs, p) == xs
  {
    if forall k :: 0 <= k < |xs| ==> p(xs[k]) {
      FilterAll(xs, p);
    }
  }

  /** `IsSubsequence(a, b)`: `a` is `b` with some elements removed, order kept. */
  ghost predicate IsSubsequence<T>(a: seq<T>, b: seq<T>)
    decreases |b|
  {
    if a == [] then true
    else if b == [] then false
    else if a[|a| - 1] == b[|b| - 1] then IsSubsequence(a[..|a| - 1], b[..|b| - 1])
    else IsSubsequence(a, b[..|b| - 1])
  }

  lemma {:induction false} FilterIsSubsequence<T>(xs: seq<T>, p: T -> bool)
    ensures IsSubsequence(Filter(xs, p), xs)
    decreases |xs|
  {
    if xs != [] {
      var init := xs[..|xs| - 1];
      FilterIsSubsequence(init, p);
      assert xs == init + [xs[|xs| - 1]];
      if !p(xs[|xs| - 1]) {
        assert Filter(xs, p) == Filter(init, p);
        SubsequenceExtend(Filter(init, p), init, xs[|xs| - 1]);
      } else {
        var f := Filter(xs, p);
        assert f[..|f| - 1] == Filter(init, p);
      }
    }
  }

  lemma {:induction false} SubsequenceExtend<T>(a: seq<T>, b: seq<T>, x: T)
    requires IsSubsequence(a, b)
    ensures IsSubsequence(a, b + [x])
    decreases |b|, 1
  {
    if a != [] {
      assert (b + [x])[..|b|] == b;
      if a[|a| - 1] == x {
        SubsequenceOfPrefix(a, b);
      }
    }
  }

  lemma {:induction false} SubsequenceOfPrefix<T>(a: seq<T>, b: seq<T>)
    requires a != [] && IsSubsequence(a, b)
    ensures IsSubsequence(a[..|a| - 1], b)
    decreases |b|, 0
  {
    if b != [] && a[|a| - 1] != b[|b| - 1] {
      SubsequenceOfPrefix(a, b[..|b| - 1]);
      SubsequenceExtend(a[..|a| - 1], b[..|b| - 1], b[|b| - 1]);
      assert b[..|b| - 1] + [b[|b| - 1]] == b;
    } else if b != [] {
      var a' := a[..|a| - 1];
      if a' != [] {
        SubsequenceExtend(a', b[..|b| - 1], b[|b| - 1]);
        assert b[..|b| - 1] + [b[|b| - 1]] == b;
      }
    }
  }

  /** `xs.map(f)`. */
  function Map<T, U>(xs: seq<T>, f: T -> U): (r: seq<U>)
    ensures |r| == |xs| && forall k :: 0 <= k < |xs| ==> r[k] == f(xs[k])
  {
    seq(|xs|, k requires 0 <= k < |xs| => f(xs[k]))
  }

  /** Filtering by a conjunction is filtering by one conjunct, then the other. */
  lemma {:induction false} FilterConj<T>(xs: seq<T>, p: T -> bool, q: T -> bool, pq: T -> bool)
    requires forall x :: pq(x) == (p(x) && q(x))
    ensures Filter(xs, pq) == Filter(Filter(xs, q), p)
    decreases |xs|
  {
    if xs != [] {
      var init := xs[..|xs| - 1];
      var x := xs[|xs| - 1];
      FilterConj(init, p, q, pq);
      FilterAppend(Filter(init, q), if q(x) then [x] else [], p);
      if q(x) {
        FilterSingle(x, p);
      }
    }
  }

  /** The number of elements satisfying `p` (`xs.filter(p).length`). */
  function Count<T>(xs: seq<T>, p: T -> bool): nat {
    |Filter(xs, p)|
  }

  /** Filtering keeps each satisfying element as often as it occurs. */
  lemma {:induction false} FilterMultiset<T>(xs: seq<T>, p: T -> bool, x: T)
    ensures multiset(Filter(xs, p))[x] == if p(x) then multiset(xs)[x] else 0
    decreases |xs|
  {
    if xs != [] {
      var init := xs[..|xs| - 1];
      assert xs == init + [xs[|xs| - 1]];
      FilterMultiset(init, p, x);
    }
  }

  /** `FilterMultiset` for every element at once. */
  lemma FilterMultisets<T>(xs: seq<T>, p: T -> bool)
    ensures forall x :: multiset(Filter(xs, p))[x] == if p(x) then multiset(xs)[x] else 0
  {
    forall x ensures multiset(Filter(xs, p))[x] == if p(x) then multiset(xs)[x] else 0 {
      FilterMultiset(xs, p, x);
    }
  }

  /** Reordering the elements does not change how many satisfy `p`. */
  lemma CountPermutation<T>(xs: seq<T>, ys: seq<T>, p: T -> bool)
    requires multiset(xs) == multiset(ys)
    ensures Count(xs, p) == Count(ys, p)
  {
    forall x ensures multiset(Filter(xs, p))[x] == multiset(Filter(ys, p))[x] {
      FilterMultiset(xs, p, x);
      FilterMultiset(ys, p, x);
    }
    assert multiset(Filter(xs, p)) == multiset(Filter(ys, p));
    assert |Filter(xs, p)| == |multiset(Filter(xs, p))|;
    assert |Filter(ys, p)| == |multiset(Filter(ys, p))|;
  }

  /** `xs.findIndex(p)`: the first index whose element satisfies `p`, or -1. */
  function FindIndex<T>(xs: seq<T>, p: T -> bool): (k: int)
    ensures -1 <= k < |xs|
    ensures k == -1 <==> forall j :: 0 <= j < |xs| ==> !p(xs[j])
    ensures k >= 0 ==> p(xs[k]) && forall j :: 0 <= j < k ==> !p(xs[j])
    decreases |xs|
  {
    if xs == [] then -1
    else if p(xs[0]) then 0
    else
      var k := FindIndex(xs[1..], p);
      if k == -1 then -1 else k + 1
  }

  /** `xs.find(p)`: the first element satisfying `p`. */
  function Find<T>(xs: seq<T>, p: T -> bool): (r: Option<T>)
    ensures r.None? <==> forall j :: 0 <= j < |xs| ==> !p(xs[j])
    ensures r.Some? ==> exists k :: 0 <= k < |xs| && xs[k] == r.value && p(xs[k]) && forall j :: 0 <= j < k ==> !p(xs[j])
  {
    var k := FindIndex(xs, p);
    if k == -1 then None else Some(xs[k])
  }

  /** `xs.indexOf(x)`: the first index holding `x`, or -1. */
  function IndexOf<T(==)>(xs: seq<T>, x: T): (k: int)
    ensures -1 <= k < |xs|
    ensures k == -1 <==> x !in xs
    ensures k >= 0 ==> xs[k] == x && forall j :: 0 <= j < k ==> xs[j] != x
  {
    FindIndex(xs, y => y == x)
  }

  function Reverse<T>(xs: seq<T>): (r: seq<T>)
    ensures |r| == |xs|
    ensures forall k :: 0 <= k < |xs| ==> r[k] == xs[|xs| - 1 - k]
  {
    seq(|xs|, k requires 0 <= k < |xs| => xs[|xs| - 1 - k])
  }

  /** Non-decreasing by `key`. */
  ghost predicate SortedBy<T>(xs: seq<T>, key: T -> int) {
    forall i, j :: 0 <= i < j < |xs| ==> key(xs[i]) <= key(xs[j])
  }

  /** Insert `x` after every element whose key is at most `x`'s: this keeps equal keys
      in arrival order, as the stable `Array.prototype.sort` does. */
  function InsertByKey<T>(s: seq<T>, x: T, key: T -> int): (r: seq<T>)
    requires SortedBy(s, key)
    ensures SortedBy(r, key)
    ensures multiset(r) == multiset(s) + multiset{x}
    ensures forall i :: 0 <= i < |r| ==> r[i] == x || r[i] in s
    decreases |s|
  {
    if s == [] || key(s[|s| - 1]) <= key(x) then s + [x]
    else
      var init := s[..|s| - 1];
      var last := s[|s| - 1];
      assert s == init + [last];
      var ins := InsertByKey(init, x, key);
      InsertBelow(s, ins, x, key);
      ins + [last]
  }

  lemma InsertBelow<T>(s: seq<T>, ins: seq<T>, x: T, key: T -> int)
    requires s != [] && SortedBy(s, key) && key(x) < key(s[|s| - 1])
    requires SortedBy(ins, key)
    requires forall i :: 0 <= i < |ins| ==> ins[i] == x || ins[i] in s[..|s| - 1]
    ensures SortedBy(ins + [s[|s| - 1]], key)
  {
    var r := ins + [s[|s| - 1]];
    forall i, j | 0 <= i < j < |r| ensures key(r[i]) <= key(r[j]) {
      if j == |ins| {
        if ins[i] != x {
          var k :| 0 <= k < |s| - 1 && s[..|s| - 1][k] == ins[i];
          assert s[k] == ins[i];
        }
      }
    }
  }

  /** A stable sort of `xs` by ascending `key` (insertion sort). */
  function SortByKey<T>(xs: seq<T>, key: T -> int): (r: seq<T>)
    ensures SortedBy(r, key)
    ensures multiset(r) == multiset(xs)
    ensures |r| == |xs|
    decreases |xs|
  {
    if xs == [] then []
    else
      assert xs == xs[..|xs| - 1] + [xs[|xs| - 1]];
      var r := InsertByKey(SortByKey(xs[..|xs| - 1], key), xs[|xs| - 1], key);
      assert |r| == |multiset(r)|;
      r
  }

  /** The elements of `xs` whose key is `v`, in their order in `xs`. */
  function WithKey<T>(xs: seq<T>, key: T -> int, v: int): seq<T>
    decreases |xs|
  {
    if xs == [] then []
    else WithKey(xs[..|xs| - 1], key, v) + (if key(xs[|xs| - 1]) == v then [xs[|xs| - 1]] else [])
  }

  lemma {:induction false} WithKeyAppend<T>(a: seq<T>, b: seq<T>, key: T -> int, v: int)
    ensures WithKey(a + b, key, v) == WithKey(a, key, v) + WithKey(b, key, v)
    decreases |b|
  {
    if b == [] {
      assert a + b == a;
    } else {
      var b' := b[..|b| - 1];
      assert (a + b)[..|a + b| - 1] == a + b';
      assert (a + b)[|a + b| - 1] == b[|b| - 1];
      WithKeyAppend(a, b', key, v);
      AppendAssoc(WithKey(a, key, v), WithKey(b', key, v),
                  if key(b[|b| - 1]) == v then [b[|b| - 1]] else []);
    }
  }

  /** The last element is the last of those with its key. */
  lemma WithKeyLast<T>(xs: seq<T>, key: T -> int)
    requires xs != []
    ensures var w := WithKey(xs, key, key(xs[|xs| - 1]));
      w != [] && w[|w| - 1] == xs[|xs| - 1]
  {
  }

  /** Inserting `x` puts it after every element of its own key. */
  lemma {:induction false} InsertByKeyStable<T>(s: seq<T>, x: T, key: T -> int, v: int)
    requires SortedBy(s, key)
    ensures WithKey(InsertByKey(s, x, key), key, v) == WithKey(s, key, v) + (if key(x) == v then [x] else [])
    decreases |s|
  {
    if s == [] || key(s[|s| - 1]) <= key(x) {
      InsertByKeyAtEnd(s, x, key, v);
    } else {
      InsertByKeyStable(s[..|s| - 1], x, key, v);
      InsertByKeyBefore(s, x, key, v);
    }
  }

  /** `InsertByKeyStable` when `x` goes at the end. */
  lemma InsertByKeyAtEnd<T>(s: seq<T>, x: T, key: T -> int, v: int)
    requires SortedBy(s, key) && (s == [] || key(s[|s| - 1]) <= key(x))
    ensures WithKey(InsertByKey(s, x, key), key, v) == WithKey(s, key, v) + (if key(x) == v then [x] else [])
  {
    assert InsertByKey(s, x, key) == s + [x];
    WithKeyAppend(s, [x], key, v);
    assert [x][..0] == [];
  }

  /** `InsertByKeyStable` when `x` goes before the last element, given the same for the rest. */
  lemma InsertByKeyBefore<T>(s: seq<T>, x: T, key: T -> int, v: int)
    requires SortedBy(s, key) && s != [] && key(x) < key(s[|s| - 1])
    requires WithKey(InsertByKey(s[..|s| - 1], x, key), key, v)
          == WithKey(s[..|s| - 1], key, v) + (if key(x) == v then [x] else [])
    ensures WithKey(InsertByKey(s, x, key), key, v) == WithKey(s, key, v) + (if key(x) == v then [x] else [])
  {
    var init, last := s[..|s| - 1], s[|s| - 1];
    var ins := InsertByKey(init, x, key);
    assert InsertByKey(s, x, key) == ins + [last];
    WithKeyBelow(InsertByKey(s, x, key), ins, s, init, x, last, key, v);
  }

  /** If `ins` holds the key-`v` elements of `init` and then possibly `x`, appending a
      `last` of greater key than `x` to both lets `last` come before `x` among them. */
  lemma WithKeyBelow<T>(r: seq<T>, ins: seq<T>, s: seq<T>, init: seq<T>, x: T, last: T, key: T -> int, v: int)
    requires key(x) < key(last)
    requires r == ins + [last] && s == init + [last]
    requires WithKey(ins, key, v) == WithKey(init, key, v) + (if key(x) == v then [x] else [])
    ensures WithKey(r, key, v) == WithKey(s, key, v) + (if key(x) == v then [x] else [])
  {
    assert r[..|ins|] == ins;
    assert s[..|init|] == init;
  }

  /** `SortByKey` is stable: the elements of each key keep their order in `xs`. */
  lemma {:induction false} SortByKeyStable<T>(xs: seq<T>, key: T -> int, v: int)
    ensures WithKey(SortByKey(xs, key), key, v) == WithKey(xs, key, v)
    decreases |xs|
  {
    if xs != [] {
      var init := xs[..|xs| - 1];
      SortByKeyStable(init, key, v);
      InsertByKeyStable(SortByKey(init, key), xs[|xs| - 1], key, v);
    }
  }
}

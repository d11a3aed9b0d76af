/** `Array.prototype.sort` with a descending comparator `(a, b) => key(b) - key(a)`, as the
    dashboard and the quiz service use it. The ECMAScript sort is stable (since ES2019), so
    elements with equal keys keep their input order. The specification is a stable
    insertion sort on sequences; `SortInPlace` sorts an array in place and is proved equal
    to it. */
module StableSort {

  /** Non-increasing by `key`. */
  predicate SortedDesc<T>(xs: seq<T>, key: T -> real) {
    forall i, j | 0 <= i < j < |xs| :: key(xs[i]) >= key(xs[j])
  }

  /** Puts `x` after every trailing element of `p` whose key is less than `key(x)`, i.e. after
      everything at least as large as it: where one step of a stable insertion sort puts it. */
  function Insert<T>(p: seq<T>, x: T, key: T -> real): seq<T> {
    if p == [] || key(p[|p| - 1]) >= key(x) then p + [x]
    else Insert(p[..|p| - 1], x, key) + [p[|p| - 1]]
  }

  /** The stable descending sort of `xs`. */
  function SortDesc<T>(xs: seq<T>, key: T -> real): seq<T> {
    if xs == [] then [] else Insert(SortDesc(xs[..|xs| - 1], key), xs[|xs| - 1], key)
  }

  /** The elements of `xs` whose key is `v`, in their order in `xs`. */
  function WithKey<T>(xs: seq<T>, key: T -> real, v: real): seq<T> {
    if xs == [] then []
    else WithKey(xs[..|xs| - 1], key, v) + (if key(xs[|xs| - 1]) == v then [xs[|xs| - 1]] else [])
  }

  lemma {:induction false} InsertPermutes<T>(p: seq<T>, x: T, key: T -> real)
    ensures multiset(Insert(p, x, key)) == multiset(p) + multiset{x}
    decreases |p|
  {
    if !(p == [] || key(p[|p| - 1]) >= key(x)) {
      InsertPermutes(p[..|p| - 1], x, key);
      assert p == p[..|p| - 1] + [p[|p| - 1]];
    }
  }

  /** The sort is a permutation of its input. */
  lemma {:induction false} SortDescPermutes<T>(xs: seq<T>, key: T -> real)
    ensures multiset(SortDesc(xs, key)) == multiset(xs)
    decreases |xs|
  {
    if xs != [] {
      SortDescPermutes(xs[..|xs| - 1], key);
      InsertPermutes(SortDesc(xs[..|xs| - 1], key), xs[|xs| - 1], key);
      assert xs == xs[..|xs| - 1] + [xs[|xs| - 1]];
    }
  }

  lemma {:induction false} InsertSorted<T>(p: seq<T>, x: T, key: T -> real)
    requires SortedDesc(p, key)
    ensures SortedDesc(Insert(p, x, key), key)
    decreases |p|
  {
    if !(p == [] || key(p[|p| - 1]) >= key(x)) {
      var p', last := p[..|p| - 1], p[|p| - 1];
      InsertSorted(p', x, key);
      InsertPermutes(p', x, key);
      var q := Insert(p', x, key);
      forall k | 0 <= k < |q| ensures key(q[k]) >= key(last) {
        assert q[k] in multiset(p') + multiset{x};
        if q[k] != x {
          var m :| 0 <= m < |p'| && p'[m] == q[k];
          assert p[m] == q[k];
        }
      }
    }
  }

  /** The sort is ordered by non-increasing key. */
  lemma {:induction false} SortDescSorted<T>(xs: seq<T>, key: T -> real)
    ensures SortedDesc(SortDesc(xs, key), key)
    decreases |xs|
  {
    if xs != [] {
      SortDescSorted(xs[..|xs| - 1], key);
      InsertSorted(SortDesc(xs[..|xs| - 1], key), xs[|xs| - 1], key);
    }
  }

  lemma {:induction false} InsertWithKey<T>(p: seq<T>, x: T, key: T -> real, v: real)
    ensures WithKey(Insert(p, x, key), key, v)
         == WithKey(p, key, v) + (if key(x) == v then [x] else [])
    decreases |p|
  {
    if p == [] || key(p[|p| - 1]) >= key(x) {
      assert (p + [x])[..|p|] == p;
    } else {
      var p', last := p[..|p| - 1], p[|p| - 1];
      InsertWithKey(p', x, key, v);
      var q := Insert(p', x, key);
      assert (q + [last])[..|q|] == q;
    }
  }

  /** The sort is stable: for every key value, the elements with that key appear in the same
      order as in the input. */
  lemma {:induction false} SortDescStable<T>(xs: seq<T>, key: T -> real, v: real)
    ensures WithKey(SortDesc(xs, key), key, v) == WithKey(xs, key, v)
    decreases |xs|
  {
    if xs != [] {
      SortDescStable(xs[..|xs| - 1], key, v);
      InsertWithKey(SortDesc(xs[..|xs| - 1], key), xs[|xs| - 1], key, v);
    }
  }

  /** `Insert` places `x` at the first position `j` after which every element is smaller. */
  lemma {:induction false} InsertAt<T>(p: seq<T>, x: T, key: T -> real, j: nat)
    requires j <= |p|
    requires forall m | j <= m < |p| :: key(p[m]) < key(x)
    requires j == 0 || key(p[j - 1]) >= key(x)
    ensures Insert(p, x, key) == p[..j] + [x] + p[j..]
    decreases |p| - j
  {
    if j < |p| {
      var p' := p[..|p| - 1];
      InsertAt(p', x, key, j);
      assert p'[..j] == p[..j];
      assert p'[j..] + [p[|p| - 1]] == p[j..];
    }
  }

  /** `a.sort((x, y) => key(y) - key(x))`: an in-place insertion sort. */
  method SortInPlace<T>(a: array<T>, key: T -> real)
    modifies a
    ensures a[..] == SortDesc(old(a[..]), key)
  {
    ghost var input := a[..];
    var i := 0;
    while i < a.Length
      invariant 0 <= i <= a.Length
      invariant a[..i] == SortDesc(input[..i], key)
      invariant a[i..] == input[i..]
    {
      assert input[..i + 1][..i] == input[..i];
      InsertStep(a, i, key);
      i := i + 1;
    }
    assert input[..a.Length] == input;
  }

  /** One pass of the insertion sort: moves `a[i]` left past the elements before it whose key
      is smaller, so that `a[..i + 1]` becomes `Insert(a[..i], a[i])`. */
  method InsertStep<T>(a: array<T>, i: nat, key: T -> real)
    requires i < a.Length
    modifies a
    ensures a[..i + 1] == Insert(old(a[..i]), old(a[i]), key)
    ensures a[i + 1..] == old(a[i + 1..])
  {
    ghost var p := a[..i];
    var x := a[i];
    var j := i;
    while j > 0 && key(a[j - 1]) < key(x)
      invariant 0 <= j <= i
      invariant forall m | 0 <= m < j :: a[m] == p[m]
      invariant forall m | j < m <= i :: a[m] == p[m - 1]
      invariant forall m | i < m < a.Length :: a[m] == old(a[m])
      invariant forall m | j <= m < i :: key(p[m]) < key(x)
    {
      a[j] := a[j - 1];
      j := j - 1;
    }
    a[j] := x;
    InsertAt(p, x, key, j);
    assert a[..i + 1] == p[..j] + [x] + p[j..];
  }
}

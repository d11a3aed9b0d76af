/** Small value wrappers and sequence helpers shared by the other modules. */
module Util {

  /** A JavaScript value that may be `null` / `undefined`. */
  datatype Option<+T> = None | Some(value: T) {
    function GetOr(default: T): T {
      match this
      case Some(v) => v
      case None => default
    }
  }

  /** The settled result of a promise handed to an external service: it resolved, or it
      rejected with an `Error` whose `message` may be empty. */
  datatype Outcome = Resolved | Rejected(message: string)

  /** `error.message || fallback`: the rejection's own message, or the fallback when it is
      empty. */
  function MessageOr(message: string, fallback: string): (r: string)
    ensures message != "" ==> r == message
    ensures message == "" ==> r == fallback
  {
    if message != "" then message else fallback
  }

  function Min(a: int, b: int): int { if a <= b then a else b }

  function Max(a: int, b: int): int { if a <= b then b else a }

  /** `xs.slice(0, n)`: the first `min(n, |xs|)` elements. */
  function Take<T>(xs: seq<T>, n: nat): (r: seq<T>)
    ensures |r| == Min(n, |xs|)
    ensures r == xs[..|r|]
  {
    if n <= |xs| then xs[..n] else xs
  }

  /** `xs.slice(-n)`: the last `min(n, |xs|)` elements. */
  function TakeLast<T>(xs: seq<T>, n: nat): (r: seq<T>)
    ensures |r| == Min(n, |xs|)
    ensures r == xs[|xs| - |r|..]
  {
    if n <= |xs| then xs[|xs| - n..] else xs
  }

  /** `xs.reverse()`. */
  function Reverse<T>(xs: seq<T>): (r: seq<T>)
    ensures |r| == |xs|
    ensures forall i | 0 <= i < |xs| :: r[i] == xs[|xs| - 1 - i]
  {
    if xs == [] then [] else Reverse(xs[1..]) + [xs[0]]
  }

  function Sum(xs: seq<int>): int {
    if xs == [] then 0 else Sum(xs[..|xs| - 1]) + xs[|xs| - 1]
  }

  /** A sum does not depend on the order of its terms. */
  lemma {:induction false} SumPermutation(xs: seq<int>, ys: seq<int>)
    requires multiset(xs) == multiset(ys)
    ensures Sum(xs) == Sum(ys)
    decreases |xs|
  {
    if xs != [] {
      var xs', x := xs[..|xs| - 1], xs[|xs| - 1];
      assert xs == xs' + [x];
      assert x in multiset(ys);
      var j :| 0 <= j < |ys| && ys[j] == x;
      var ys' := ys[..j] + ys[j + 1..];
      assert ys == ys[..j] + [x] + ys[j + 1..];
      assert multiset(ys) == multiset(ys') + multiset{x};
      assert multiset(xs) == multiset(xs') + multiset{x};
      assert multiset(xs') == multiset(xs) - multiset{x};
      assert multiset(ys') == multiset(ys) - multiset{x};
      SumPermutation(xs', ys');
      SumInsert(ys[..j], x, ys[j + 1..]);
    }
  }

  /** Moving one term to the end of a sum does not change it. */
  lemma {:induction false} SumInsert(a: seq<int>, x: int, b: seq<int>)
    ensures Sum(a + [x] + b) == Sum(a + b) + x
    decreases |b|
  {
    if b == [] {
      assert a + [x] + b == a + [x];
      assert a + b == a;
    } else {
      var b' := b[..|b| - 1];
      var y := b[|b| - 1];
      assert a + [x] + b == (a + [x] + b') + [y];
      assert a + b == (a + b') + [y];
      SumInsert(a, x, b');
    }
  }
}

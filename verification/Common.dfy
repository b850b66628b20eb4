/** What several components share: optional values, submissions and pools, and small sequence tools. */
module Common {
  datatype Option<+T> = None | Some(value: T)

  /** A submission's identity; a king is identified by its submission. */
  type Id = string

  /** The two task pools a duel runs through, in order. */
  datatype Pool = PoolOne | PoolTwo

  function AtLeastZero(n: int): nat {
    if n < 0 then 0 else n
  }

  function RemoveAt<T>(xs: seq<T>, i: nat): seq<T>
    requires i < |xs|
  {
    xs[..i] + xs[i + 1..]
  }

  function FirstOf<T>(xs: seq<T>, n: int): seq<T> {
    if n <= 0 then [] else if n <= |xs| then xs[..n] else xs
  }

  ghost predicate Distinct<T>(xs: seq<T>) {
    forall i, j | 0 <= i < j < |xs| :: xs[i] != xs[j]
  }

  /** The elements that are not in a set, in order. */
  function Without<T(==)>(xs: seq<T>, gone: set<T>): seq<T> {
    if xs == [] then []
    else if xs[0] in gone then Without(xs[1..], gone)
    else [xs[0]] + Without(xs[1..], gone)
  }

  lemma {:induction false} WithoutKeeps<T>(xs: seq<T>, gone: set<T>)
    ensures forall x :: x in Without(xs, gone) <==> x in xs && x !in gone
  {
    if xs != [] {
      WithoutKeeps(xs[1..], gone);
      assert forall x :: x in xs <==> x == xs[0] || x in xs[1..];
    }
  }

  lemma {:induction false} WithoutSplit<T>(a: seq<T>, b: seq<T>, gone: set<T>)
    ensures Without(a + b, gone) == Without(a, gone) + Without(b, gone)
  {
    if a == [] {
      assert a + b == b;
    } else {
      assert (a + b)[1..] == a[1..] + b;
      WithoutSplit(a[1..], b, gone);
    }
  }

  lemma {:induction false} WithoutStaysDistinct<T>(xs: seq<T>, gone: set<T>)
    requires Distinct(xs)
    ensures Distinct(Without(xs, gone))
  {
    if xs != [] {
      WithoutStaysDistinct(xs[1..], gone);
      WithoutKeeps(xs[1..], gone);
    }
  }

  function Count<T(==)>(xs: seq<T>, x: T): nat {
    if xs == [] then 0 else (if xs[0] == x then 1 else 0) + Count(xs[1..], x)
  }

  lemma {:induction false} CountSplit<T>(a: seq<T>, b: seq<T>, x: T)
    ensures Count(a + b, x) == Count(a, x) + Count(b, x)
  {
    if a == [] {
      assert a + b == b;
    } else {
      assert (a + b)[1..] == a[1..] + b;
      CountSplit(a[1..], b, x);
    }
  }

  lemma CountRemove<T>(xs: seq<T>, i: nat, x: T)
    requires i < |xs|
    ensures Count(xs, x) == Count(RemoveAt(xs, i), x) + if xs[i] == x then 1 else 0
  {
    var before, y, after := xs[..i], xs[i], xs[i + 1..];
    assert xs == before + ([y] + after);
    CountSplit(before, [y] + after, x);
    assert ([y] + after)[1..] == after;
    CountSplit(before, after, x);
  }

  lemma {:induction false} SubsetCount<T>(a: set<T>, b: set<T>)
    requires a <= b
    ensures |a| <= |b|
    ensures |a| == |b| ==> a == b
  {
    if a != {} {
      var x :| x in a;
      SubsetCount(a - {x}, b - {x});
    }
  }

  /** Division has one quotient and one remainder. */
  lemma QuotientOf(n: int, q: int, r: int, d: int)
    requires d > 0 && n == q * d + r && 0 <= r < d
    ensures n / d == q && n % d == r
  {
    var p := n / d;
    assert p < q ==> (p + 1) * d <= q * d;
    assert p > q ==> (q + 1) * d <= p * d;
  }
}

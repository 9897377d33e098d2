/** Sizes of finite collections. */
module Counting {
  ghost function Elements<T>(xs: seq<T>): set<T> {
    set x | x in xs
  }

  ghost predicate Distinct<T>(xs: seq<T>) {
    forall i, j | 0 <= i < j < |xs| :: xs[i] != xs[j]
  }

  lemma {:induction false} DistinctSize<T>(xs: seq<T>)
    requires Distinct(xs)
    ensures |Elements(xs)| == |xs|
  {
    if xs != [] {
      var front, last := xs[..|xs| - 1], xs[|xs| - 1];
      DistinctSize(front);
      assert xs == front + [last];
      assert Elements(xs) == Elements(front) + {last};
    }
  }

  lemma {:induction false} OneToOneSize<K, V>(m: map<K, V>)
    requires forall x, y | x in m && y in m && m[x] == m[y] :: x == y
    ensures |m.Values| == |m|
  {
    if m != map[] {
      var x :| x in m;
      var rest := m - {x};
      OneToOneSize(rest);
      assert m.Values == rest.Values + {m[x]} by {
        forall f | f in m.Values ensures f in rest.Values + {m[x]} {
          var y :| y in m && m[y] == f;
          if y != x { assert y in rest && rest[y] == f; }
        }
      }
      assert m[x] !in rest.Values;
      assert m.Keys == rest.Keys + {x};
      assert |m| == |m.Keys| && |rest| == |rest.Keys|;
    }
  }

  lemma AddSizes<T>(x: set<T>, y: set<T>, z: set<T>)
    requires x !! y && (x + y) !! z
    ensures |x + y + z| == |x| + |y| + |z|
  {
  }

  lemma SmallerSize<T>(x: set<T>, y: set<T>, e: T)
    requires x <= y && e in y && e !in x
    ensures |x| < |y|
  {
    assert |y| == |x| + |y - x|;
  }
}

/** Byte strings under lexicographic order, the order in which storage engines sort their keys. */
module ByteOrder {
  import opened Common

  type Byte = x: int | 0 <= x < 256
  type ByteString = seq<Byte>

  function Zeros(n: nat): (z: seq<Byte>)
    ensures |z| == n && forall i | 0 <= i < n :: z[i] == 0
  {
    if n == 0 then [] else Zeros(n - 1) + [0]
  }

  predicate Below(a: seq<Byte>, b: seq<Byte>) {
    if b == [] then false
    else if a == [] then true
    else a[0] < b[0] || (a[0] == b[0] && Below(a[1..], b[1..]))
  }

  predicate AtMost(a: seq<Byte>, b: seq<Byte>) {
    a == b || Below(a, b)
  }

  /** From `low`, up to but not including `high` if there is one. */
  predicate InBounds(k: ByteString, low: ByteString, high: Option<ByteString>) {
    AtMost(low, k) && (high.None? || Below(k, high.value))
  }

  /** Position `i` is the first at which the strings differ. */
  ghost predicate DifferAt(a: seq<Byte>, b: seq<Byte>, i: nat) {
    i < |a| && i < |b| && a[..i] == b[..i] && a[i] != b[i]
  }

  /** Neither string is a prefix of the other. */
  ghost predicate Apart(a: seq<Byte>, b: seq<Byte>) {
    !(a <= b) && !(b <= a)
  }

  lemma {:induction false} BelowAt(a: seq<Byte>, b: seq<Byte>, i: nat)
    requires DifferAt(a, b, i)
    ensures Below(a, b) <==> a[i] < b[i]
  {
    if i > 0 {
      assert a[0] == a[..i][0] && b[0] == b[..i][0];
      assert a[1..][..i - 1] == a[..i][1..] && b[1..][..i - 1] == b[..i][1..];
      BelowAt(a[1..], b[1..], i - 1);
    }
  }

  /** Two strings that are apart differ somewhere. */
  lemma {:induction false} FirstDifference(a: seq<Byte>, b: seq<Byte>) returns (i: nat)
    requires Apart(a, b)
    ensures DifferAt(a, b, i)
  {
    if a[0] != b[0] {
      i := 0;
    } else {
      assert a == [a[0]] + a[1..] && b == [b[0]] + b[1..];
      assert (a[1..] <= b[1..] ==> a <= b) && (b[1..] <= a[1..] ==> b <= a);
      var j := FirstDifference(a[1..], b[1..]);
      i := j + 1;
      assert a[..i] == [a[0]] + a[1..][..j] && b[..i] == [b[0]] + b[1..][..j];
    }
  }

  /** A proper prefix comes first. */
  lemma {:induction false} PrefixBelow(a: seq<Byte>, b: seq<Byte>)
    requires a <= b
    ensures !Below(b, a) && (a != b ==> Below(a, b))
  {
    if a != [] {
      assert a[0] == b[0] && a[1..] <= b[1..];
      PrefixBelow(a[1..], b[1..]);
      assert a == [a[0]] + a[1..] && b == [b[0]] + b[1..];
    }
  }

  /** Strings that are apart are ordered by their difference, whatever follows them. */
  lemma ApartExtends(a: seq<Byte>, b: seq<Byte>, u: seq<Byte>, v: seq<Byte>)
    requires Apart(a, b)
    ensures Below(a + u, b + v) <==> Below(a, b)
    ensures Apart(a + u, b + v)
  {
    var i := FirstDifference(a, b);
    var x, y := a + u, b + v;
    assert x[..i] == a[..i] && y[..i] == b[..i];
    assert DifferAt(x, y, i);
    BelowAt(a, b, i);
    BelowAt(x, y, i);
  }

  lemma {:induction false} SamePrefix(p: seq<Byte>, a: seq<Byte>, b: seq<Byte>)
    ensures Below(p + a, p + b) <==> Below(a, b)
  {
    if p == [] {
      assert p + a == a && p + b == b;
    } else {
      SamePrefix(p[1..], a, b);
      assert (p + a)[1..] == p[1..] + a && (p + b)[1..] == p[1..] + b;
    }
  }

  /** Lexicographic order is a strict total order. */
  lemma Trichotomy(a: seq<Byte>, b: seq<Byte>)
    ensures !(Below(a, b) && Below(b, a)) && !Below(a, a)
    ensures Below(a, b) || a == b || Below(b, a)
  {
    PrefixBelow(a, a);
    if a <= b {
      PrefixBelow(a, b);
    } else if b <= a {
      PrefixBelow(b, a);
    } else {
      var i := FirstDifference(a, b);
      BelowAt(a, b, i);
      BelowAt(b, a, i);
    }
  }

  lemma {:induction false} BelowTransitive(a: seq<Byte>, b: seq<Byte>, c: seq<Byte>)
    requires Below(a, b) && Below(b, c)
    ensures Below(a, c)
  {
    if a != [] && a[0] == b[0] == c[0] {
      BelowTransitive(a[1..], b[1..], c[1..]);
    }
  }

  /** Strings of equal length that differ are apart. */
  lemma SameLengthApart(a: seq<Byte>, b: seq<Byte>)
    requires |a| == |b| && a != b
    ensures Apart(a, b)
  {
    assert (a <= b ==> a == b) && (b <= a ==> b == a);
  }
}

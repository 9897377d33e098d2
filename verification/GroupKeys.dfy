/** The canonical order of group keys. */
module GroupKeys {
  import opened Common
  import opened ByteOrder
  import opened Values
  import opened SqlCompare

  type Tuple = seq<Value>

  /** NULL first, then by the canonical comparison; values without one count as equal. */
  function CompareValues(a: Value, b: Value): Ordering {
    if a.Null? && b.Null? then Equal
    else if a.Null? then Less
    else if b.Null? then Greater
    else match CompareSql(a, b)
      case Some(o) => o
      case None => Equal
  }

  /** `compare_keys`: position by position. */
  function CompareKeys(a: Tuple, b: Tuple): Ordering
    decreases |a|
  {
    if a == [] || b == [] then Equal
    else if CompareValues(a[0], b[0]) != Equal then CompareValues(a[0], b[0])
    else CompareKeys(a[1..], b[1..])
  }

  predicate KeyBelow(a: Tuple, b: Tuple) {
    CompareKeys(a, b) == Less
  }

  predicate Typed(key: Tuple, tys: seq<ColumnType>) {
    |key| == |tys| && forall i | 0 <= i < |key| :: key[i].Matches(tys[i])
  }

  /** Values of one column are comparable, and equal only if identical. */
  lemma ColumnOrder(a: Value, b: Value, ty: ColumnType)
    requires a.Matches(ty) && b.Matches(ty)
    ensures CompareValues(a, b) == Equal <==> a == b
    ensures CompareValues(b, a) == CompareValues(a, b).Reverse()
  {
    hide Pow10, Below;
    if !a.Null? && !b.Null? {
      CompareExact(a, b);
      TotalPreorder(a, b, a);
      if a.Dec? { SameScale(a.decimal, b.decimal); }
    }
  }

  lemma SameScale(a: Decimal, b: Decimal)
    requires a.scale == b.scale
    ensures PlaceOf(Dec(a)) == PlaceOf(Dec(b)) <==> a == b
  {
    MulOrder(a.mantissa, b.mantissa, Pow10(MAX_SCALE - a.scale));
  }

  lemma ColumnTransitive(a: Value, b: Value, c: Value, ty: ColumnType)
    requires a.Matches(ty) && b.Matches(ty) && c.Matches(ty)
    requires CompareValues(a, b) == Less && CompareValues(b, c) == Less
    ensures CompareValues(a, c) == Less
  {
    hide Pow10, Below, CompareSql;
    ColumnOrder(a, c, ty);
    ColumnOrder(a, b, ty);
    ColumnOrder(b, c, ty);
    TotalPreorder(a, b, c);
  }

  /** On keys of one type the order is strict and total. */
  lemma {:induction false} KeysTotal(a: Tuple, b: Tuple, tys: seq<ColumnType>)
    requires Typed(a, tys) && Typed(b, tys)
    ensures CompareKeys(a, b) == Equal <==> a == b
    ensures CompareKeys(b, a) == CompareKeys(a, b).Reverse()
  {
    hide CompareValues;
    if a != [] {
      ColumnOrder(a[0], b[0], tys[0]);
      KeysTotal(a[1..], b[1..], tys[1..]);
      assert a == [a[0]] + a[1..] && b == [b[0]] + b[1..];
    }
  }

  lemma {:induction false} KeysTransitive(a: Tuple, b: Tuple, c: Tuple, tys: seq<ColumnType>)
    requires Typed(a, tys) && Typed(b, tys) && Typed(c, tys) && KeyBelow(a, b) && KeyBelow(b, c)
    ensures KeyBelow(a, c)
  {
    hide CompareValues;
    ColumnOrder(a[0], b[0], tys[0]);
    ColumnOrder(b[0], c[0], tys[0]);
    if a[0] == b[0] && b[0] == c[0] {
      KeysTransitive(a[1..], b[1..], c[1..], tys[1..]);
    } else if a[0] != b[0] && b[0] != c[0] {
      ColumnTransitive(a[0], b[0], c[0], tys[0]);
    }
  }

  // ---- sorting ---------------------------------------------------------------------------------

  ghost predicate AllTyped(keys: set<Tuple>, tys: seq<ColumnType>) {
    forall k | k in keys :: Typed(k, tys)
  }

  ghost predicate Sorted(keys: set<Tuple>, ks: seq<Tuple>) {
    && (forall i, j | 0 <= i < j < |ks| :: KeyBelow(ks[i], ks[j]))
    && (forall k :: k in ks <==> k in keys)
  }

  /** Sets of typed keys sort in one way only. */
  lemma {:induction false} SortedUnique(keys: set<Tuple>, tys: seq<ColumnType>, a: seq<Tuple>, b: seq<Tuple>)
    requires AllTyped(keys, tys) && Sorted(keys, a) && Sorted(keys, b)
    ensures a == b
    decreases |a|
  {
    hide CompareKeys;
    if a != [] || b != [] {
      var k := if a != [] then a[0] else b[0];
      assert k in keys by { assert k in a || k in b; }
      assert k in a && k in b;
      FirstIsLeast(keys, tys, a, b);
      TailSorted(keys, tys, a);
      TailSorted(keys, tys, b);
      SortedUnique(keys - {a[0]}, tys, a[1..], b[1..]);
      assert a == [a[0]] + a[1..] && b == [b[0]] + b[1..];
    }
  }

  lemma FirstIsLeast(keys: set<Tuple>, tys: seq<ColumnType>, a: seq<Tuple>, b: seq<Tuple>)
    requires AllTyped(keys, tys) && Sorted(keys, a) && Sorted(keys, b) && a != [] && b != []
    ensures a[0] == b[0]
  {
    hide CompareKeys;
    assert a[0] in b && b[0] in a by { assert a[0] in a && b[0] in b; }
    var i :| 0 <= i < |b| && b[i] == a[0];
    var j :| 0 <= j < |a| && a[j] == b[0];
    KeysTotal(a[0], b[0], tys);
    if i > 0 && j > 0 {
      assert KeyBelow(b[0], b[i]) && KeyBelow(a[0], a[j]);
    }
  }

  lemma TailSorted(keys: set<Tuple>, tys: seq<ColumnType>, a: seq<Tuple>)
    requires AllTyped(keys, tys) && Sorted(keys, a) && a != []
    ensures Sorted(keys - {a[0]}, a[1..])
  {
    hide CompareKeys;
    forall k ensures k in a[1..] <==> k in keys && k != a[0] {
      if k in a[1..] {
        var i :| 0 <= i < |a[1..]| && a[1..][i] == k;
        assert KeyBelow(a[0], a[i + 1]);
        assert k in a && a[0] in a;
        KeysTotal(a[0], k, tys);
      }
    }
  }

  /** The sort the aggregate emits its groups in. */
  method SortKeys(keys: set<Tuple>, ghost tys: seq<ColumnType>) returns (ks: seq<Tuple>)
    requires AllTyped(keys, tys)
    ensures Sorted(keys, ks)
  {
    hide CompareKeys;
    var todo := keys;
    ks := [];
    while todo != {}
      invariant todo <= keys
      invariant forall i, j | 0 <= i < j < |ks| :: KeyBelow(ks[i], ks[j])
      invariant forall k :: k in ks || k in todo <==> k in keys
      invariant forall i, k | 0 <= i < |ks| && k in todo :: KeyBelow(ks[i], k)
      decreases todo
    {
      var least := LeastKey(todo, tys);
      ks := ks + [least];
      todo := todo - {least};
    }
  }

  method LeastKey(keys: set<Tuple>, ghost tys: seq<ColumnType>) returns (k: Tuple)
    requires AllTyped(keys, tys) && keys != {}
    ensures k in keys && forall x | x in keys && x != k :: KeyBelow(k, x)
  {
    hide CompareKeys;
    k :| k in keys;
    var rest := keys - {k};
    while rest != {}
      invariant k in keys && rest <= keys
      invariant forall x | x in keys && x !in rest && x != k :: KeyBelow(k, x)
      decreases rest
    {
      var x :| x in rest;
      KeysTotal(x, k, tys);
      if KeyBelow(x, k) {
        forall y | y in keys && y !in rest && y != k ensures KeyBelow(x, y) {
          KeysTransitive(x, k, y, tys);
        }
        k := x;
      }
      rest := rest - {x};
    }
  }

  /** Every set of typed keys can be sorted. */
  lemma {:induction false} SortedExists(keys: set<Tuple>, tys: seq<ColumnType>) returns (ks: seq<Tuple>)
    requires AllTyped(keys, tys)
    ensures Sorted(keys, ks)
    decreases |keys|
  {
    hide CompareKeys;
    if keys == {} {
      ks := [];
    } else {
      var k := LeastExists(keys, tys);
      var rest := SortedExists(keys - {k}, tys);
      ks := [k] + rest;
      forall i, j | 0 <= i < j < |ks| ensures KeyBelow(ks[i], ks[j]) {
        assert ks[j] == rest[j - 1] && rest[j - 1] in rest;
        if i > 0 { assert ks[i] == rest[i - 1]; }
      }
      assert forall x :: x in ks <==> x == k || x in rest;
    }
  }

  lemma {:induction false} LeastExists(keys: set<Tuple>, tys: seq<ColumnType>) returns (k: Tuple)
    requires AllTyped(keys, tys) && keys != {}
    ensures k in keys && forall x | x in keys && x != k :: KeyBelow(k, x)
    decreases |keys|
  {
    hide CompareKeys;
    k :| k in keys;
    if keys - {k} != {} {
      var m := LeastExists(keys - {k}, tys);
      KeysTotal(k, m, tys);
      if KeyBelow(m, k) {
        k := m;
      } else {
        forall x | x in keys && x != k ensures KeyBelow(k, x) {
          if x != m { KeysTransitive(k, m, x, tys); }
        }
      }
    }
  }
}

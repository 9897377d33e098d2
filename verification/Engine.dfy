/** A storage engine: an ordered map from byte strings to byte strings. */
module StorageEngine {
  import opened Common
  import opened ByteOrder

  ghost predicate Ascending(ks: seq<ByteString>) {
    forall i, j | 0 <= i < j < |ks| :: Below(ks[i], ks[j])
  }

  /** The scan of `m` between the bounds: every key in them once, in ascending order. */
  ghost predicate IsScan<T>(m: map<ByteString, T>, low: ByteString, high: Option<ByteString>, ks: seq<ByteString>) {
    && Ascending(ks)
    && (forall k :: k in ks <==> k in m && InBounds(k, low, high))
  }

  class Engine {
    var entries: map<ByteString, ByteString>

    constructor ()
      ensures entries == map[]
    {
      entries := map[];
    }

    method Get(k: ByteString) returns (r: Option<ByteString>)
      ensures r == if k in entries then Some(entries[k]) else None
    {
      r := if k in entries then Some(entries[k]) else None;
    }

    method Put(k: ByteString, v: ByteString)
      modifies this
      ensures entries == old(entries)[k := v]
    {
      entries := entries[k := v];
    }

    /** Deleting an absent key does nothing. */
    method Delete(k: ByteString)
      modifies this
      ensures entries == old(entries) - {k}
    {
      entries := entries - {k};
    }

    method ScanRange(low: ByteString, high: Option<ByteString>) returns (ks: seq<ByteString>)
      ensures IsScan(entries, low, high, ks)
    {
      var todo := set k | k in entries && InBounds(k, low, high);
      ks := [];
      while todo != {}
        invariant Ascending(ks)
        invariant forall k :: k in ks || k in todo <==> k in entries && InBounds(k, low, high)
        invariant forall k, x | k in todo && x in ks :: Below(x, k)
        decreases todo
      {
        var least := Least(todo);
        ks := ks + [least];
        todo := todo - {least};
      }
    }
  }

  method Least(s: set<ByteString>) returns (k: ByteString)
    requires s != {}
    ensures k in s && forall x | x in s && x != k :: Below(k, x)
  {
    k :| k in s;
    var rest := s - {k};
    while rest != {}
      invariant k in s && rest <= s
      invariant forall x | x in s && x !in rest && x != k :: Below(k, x)
      decreases rest
    {
      var x :| x in rest;
      Trichotomy(x, k);
      if Below(x, k) {
        forall y | y in s && y !in rest && y != k ensures Below(x, y) {
          BelowTransitive(x, k, y);
        }
        k := x;
      }
      rest := rest - {x};
    }
  }
}

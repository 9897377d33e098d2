/** Join keys and materialised IN sets, which stand in for the comparison. */
module JoinKeys {
  import opened Common
  import opened Values
  import opened SqlCompare

  // ---- join keys -------------------------------------------------------------------------

  /** Trailing fractional zeros removed. */
  function Strip(m: i64, scale: Scale): (r: Decimal)
    ensures r.scale == 0 || r.mantissa % 10 != 0
    decreases scale
  {
    if scale > 0 && m % 10 == 0 then Strip(m / 10, scale - 1) else Decimal(m, scale)
  }

  function JoinKey(v: Value): Value {
    match v
    case Int32(n) => Int64(n)
    case Char(s) => Varchar(s)
    case Dec(d) =>
      var r := Strip(d.mantissa, d.scale);
      if r.scale == 0 then Int64(r.mantissa) else Dec(r)
    case _ => v
  }

  /** `join_key_normalized`. */
  method NormalizeJoinKey(v: Value) returns (r: Value)
    ensures r == JoinKey(v)
  {
    match v
    case Int32(n) => r := Int64(n);
    case Char(s) => r := Varchar(s);
    case Dec(d) =>
      var mantissa, scale := d.mantissa, d.scale;
      while scale > 0 && mantissa % 10 == 0
        invariant Strip(mantissa, scale) == Strip(d.mantissa, d.scale)
        decreases scale
      {
        mantissa, scale := mantissa / 10, scale - 1;
      }
      r := if scale == 0 then Int64(mantissa) else Dec(Decimal(mantissa, scale));
    case _ => r := v;
  }

  /** Stripping keeps the value. */
  lemma {:induction false} StripKeeps(m: i64, scale: Scale)
    ensures PlaceOf(Dec(Strip(m, scale))) == PlaceOf(Dec(Decimal(m, scale)))
    decreases scale
  {
    if scale > 0 && m % 10 == 0 {
      StripKeeps(m / 10, scale - 1);
      Pow10Add(1, MAX_SCALE - scale);
      assert m == (m / 10) * 10 && Pow10(1) == 10;
      Regroup(m / 10, 10, Pow10(MAX_SCALE - scale));
    }
  }

  /** Stripped decimals of equal value are the same decimal. */
  lemma StrippedUnique(a: Decimal, b: Decimal)
    requires a.scale == 0 || a.mantissa % 10 != 0
    requires b.scale == 0 || b.mantissa % 10 != 0
    requires PlaceOf(Dec(a)) == PlaceOf(Dec(b))
    ensures a == b
  {
    if a.scale < b.scale {
      CoarserDivides(a, b);
    } else if b.scale < a.scale {
      CoarserDivides(b, a);
    } else {
      MulOrder(a.mantissa, b.mantissa, Pow10(MAX_SCALE - a.scale));
    }
  }

  lemma CoarserDivides(a: Decimal, b: Decimal)
    requires a.scale < b.scale && PlaceOf(Dec(a)) == PlaceOf(Dec(b))
    ensures b.mantissa % 10 == 0
  {
    hide Pow10;
    var p, k := Pow10(MAX_SCALE - b.scale), b.scale - a.scale;
    Pow10Add(k, MAX_SCALE - b.scale);
    Regroup(a.mantissa, Pow10(k), p);
    MulOrder(a.mantissa * Pow10(k), b.mantissa, p);
    TimesPow10(a.mantissa, k);
  }

  /** Normalising keeps a value's place. */
  lemma JoinKeyKeeps(v: Value)
    ensures PlaceOf(JoinKey(v)) == PlaceOf(v)
  {
    if v.Dec? {
      StripKeeps(v.decimal.mantissa, v.decimal.scale);
    }
  }

  /** Two non-NULL values have the same join key exactly when the comparison says Equal. */
  lemma SameKeyIffEqual(a: Value, b: Value)
    requires !a.Null? && !b.Null?
    ensures JoinKey(a) == JoinKey(b) <==> CompareSql(a, b) == Some(Equal)
  {
    hide Pow10, CompareSql, Strip;
    CompareExact(a, b);
    JoinKeyKeeps(a);
    JoinKeyKeeps(b);
    if PlaceOf(a) == PlaceOf(b) && PlaceOf(a).Number? {
      NumberKeys(a, b);
    }
  }

  /** The decimal behind a numeric join key. */
  ghost function AsDecimal(v: Value): Decimal
    requires v.Int64? || v.Dec?
  {
    if v.Int64? then Decimal(v.m, 0) else v.decimal
  }

  lemma NumberKeys(a: Value, b: Value)
    requires PlaceOf(a).Number? && PlaceOf(a) == PlaceOf(b)
    ensures JoinKey(a) == JoinKey(b)
  {
    var x, y := JoinKey(a), JoinKey(b);
    JoinKeyKeeps(a);
    JoinKeyKeeps(b);
    hide Pow10;
    StrippedUnique(AsDecimal(x), AsDecimal(y));
  }

  // ---- IN sets ---------------------------------------------------------------------------------

  const MAX_IN_SUBQUERY_ROWS := 1048576

  datatype InSet = InSet(values: set<Value>, hasNull: bool, nonempty: bool)

  /** The value an IN row contributes: its first column, or NULL if it has none. */
  function Probe(row: seq<Value>): Value {
    if row == [] then Null else row[0]
  }

  ghost predicate Materialized(rows: seq<seq<Value>>, s: InSet) {
    && (forall x :: x in s.values <==> exists i :: 0 <= i < |rows| && !Probe(rows[i]).Null? && JoinKey(Probe(rows[i])) == x)
    && (s.hasNull <==> exists i :: 0 <= i < |rows| && Probe(rows[i]).Null?)
    && (s.nonempty <==> rows != [])
  }

  /** `materialize_in_set`. */
  method MaterializeInSet(rows: seq<seq<Value>>) returns (r: Option<InSet>)
    ensures r.None? <==> |rows| > MAX_IN_SUBQUERY_ROWS
    ensures r.Some? ==> Materialized(rows, r.value)
  {
    hide JoinKey;
    if |rows| > MAX_IN_SUBQUERY_ROWS {
      return None;
    }
    var hasNull, values := false, {};
    for i := 0 to |rows|
      invariant forall x :: x in values <==> exists j :: 0 <= j < i && !Probe(rows[j]).Null? && JoinKey(Probe(rows[j])) == x
      invariant hasNull <==> exists j :: 0 <= j < i && Probe(rows[j]).Null?
    {
      var value := Probe(rows[i]);
      if value.Null? {
        hasNull := true;
      } else {
        var key := NormalizeJoinKey(value);
        values := values + {key};
      }
    }
    r := Some(InSet(values, hasNull, rows != []));
  }

  /** `eval_in`: true, false, or no answer. */
  function EvalIn(probe: Value, s: InSet, negated: bool): Option<bool> {
    var raw :=
      if !s.nonempty then Some(false)
      else if probe.Null? then None
      else if JoinKey(probe) in s.values then Some(true)
      else if s.hasNull then None
      else Some(false);
    if negated && raw.Some? then Some(!raw.value) else raw
  }

  /** The row-by-row search: three-valued OR of `probe = row`, where a comparison without answer is unknown. */
  ghost function Search(probe: Value, rows: seq<seq<Value>>): Option<bool> {
    if exists i :: 0 <= i < |rows| && CompareSql(probe, Probe(rows[i])) == Some(Equal) then Some(true)
    else if exists i :: 0 <= i < |rows| && CompareSql(probe, Probe(rows[i])) == None then None
    else Some(false)
  }

  /** The set finds the probe exactly when some row equals it. */
  lemma FoundIffEqual(probe: Value, rows: seq<seq<Value>>, s: InSet)
    requires Materialized(rows, s) && !probe.Null?
    ensures JoinKey(probe) in s.values <==> exists i :: 0 <= i < |rows| && CompareSql(probe, Probe(rows[i])) == Some(Equal)
  {
    hide JoinKey, Probe, Pow10;
    forall i | 0 <= i < |rows| && !Probe(rows[i]).Null?
      ensures JoinKey(probe) == JoinKey(Probe(rows[i])) <==> CompareSql(probe, Probe(rows[i])) == Some(Equal)
    {
      SameKeyIffEqual(probe, Probe(rows[i]));
    }
  }

  /** The probe meets a row of an unrelated type, and neither an equal row nor a NULL hides it. */
  ghost predicate Misses(probe: Value, rows: seq<seq<Value>>) {
    && !probe.Null?
    && (forall i | 0 <= i < |rows| :: !Probe(rows[i]).Null? && CompareSql(probe, Probe(rows[i])) != Some(Equal))
    && exists i :: 0 <= i < |rows| && CompareSql(probe, Probe(rows[i])) == None
  }

  ghost function Negate(r: Option<bool>, negated: bool): Option<bool> {
    if negated && r.Some? then Some(!r.value) else r
  }

  /** IN and NOT IN answer as the row-by-row search does, except exactly when the only rows without an
      answer are of a type unrelated to the probe's: there the search is unknown and the set says "not in". */
  lemma InAgreesIff(probe: Value, rows: seq<seq<Value>>, s: InSet, negated: bool)
    requires Materialized(rows, s)
    ensures EvalIn(probe, s, negated) == Negate(Search(probe, rows), negated) <==> !Misses(probe, rows)
  {
    hide JoinKey, Probe, CompareSql;
    if !probe.Null? { FoundIffEqual(probe, rows, s); }
    NullUnknown(probe, rows);
    if probe.Null? && rows != [] {
      assert CompareSql(probe, Probe(rows[0])) == None;
    } else if i :| 0 <= i < |rows| && Probe(rows[i]).Null? {
      assert CompareSql(probe, Probe(rows[i])) == None;
    }
    forall i | 0 <= i < |rows| ensures CompareSql(probe, Probe(rows[i])) == Some(Equal) ==> !probe.Null? {}
  }

  lemma NullUnknown(probe: Value, rows: seq<seq<Value>>)
    ensures forall i | 0 <= i < |rows| && (probe.Null? || Probe(rows[i]).Null?) :: CompareSql(probe, Probe(rows[i])) == None
  {
  }

  /** An integer probe against a string row: the search has no answer, IN says no and NOT IN says yes. */
  lemma UnrelatedTypesMiss(s: InSet)
    requires Materialized([[Varchar([])]], s)
    ensures Misses(Int32(1), [[Varchar([])]]) && Search(Int32(1), [[Varchar([])]]) == None
    ensures EvalIn(Int32(1), s, false) == Some(false) && EvalIn(Int32(1), s, true) == Some(true)
  {
    var rows: seq<seq<Value>> := [[Varchar([])]];
    assert CompareSql(Int32(1), Probe(rows[0])) == None;
    InAgreesIff(Int32(1), rows, s, false);
    InAgreesIff(Int32(1), rows, s, true);
    FoundIffEqual(Int32(1), rows, s);
  }
}

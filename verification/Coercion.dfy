/** Exact conversion of a value to another column type. */
module Coercion {
  import opened Common
  import opened ByteOrder
  import opened Values
  import opened SqlCompare

  function CheckedInt32(n: int): Option<Value> {
    if -0x8000_0000 <= n < 0x8000_0000 then Some(Int32(n)) else None
  }

  function CheckedDecimal(m: int, scale: Scale): Option<Value> {
    if InI64(m) then Some(Dec(Decimal(m, scale))) else None
  }

  function IntToDecimal(n: i64, scale: Scale): Option<Value> {
    CheckedDecimal(n * Pow10(scale), scale)
  }

  function DecimalToInt(d: Decimal): (r: Option<int>)
    ensures r.Some? ==> InI64(r.value)
  {
    QuotientFits(d.mantissa, Pow10(d.scale));
    if d.mantissa % Pow10(d.scale) == 0 then Some(d.mantissa / Pow10(d.scale)) else None
  }

  lemma QuotientFits(m: i64, p: nat)
    requires p > 0
    ensures InI64(m / p)
  {
    QuotientBetween(m, p);
  }

  lemma QuotientBetween(m: int, p: int)
    requires p > 0
    ensures if m >= 0 then 0 <= m / p <= m else m <= m / p < 0
  {
    var q := m / p;
    assert m == q * p + m % p;
    if m >= 0 {
      if q < 0 { NonNegative(-q - 1, p); } else if q > 0 && p > 1 { NonNegative(q, p - 1); }
    } else {
      if q >= 0 { if q > 0 { NonNegative(q, p); } } else if p > 1 { NonNegative(-q - 1, p - 1); }
    }
  }

  function Rescale(d: Decimal, scale: Scale): Option<Value> {
    if scale > d.scale then CheckedDecimal(d.mantissa * Pow10(scale - d.scale), scale)
    else
      var factor := Pow10(d.scale - scale);
      QuotientFits(d.mantissa, factor);
      if d.mantissa % factor == 0 then Some(Dec(Decimal(d.mantissa / factor, scale))) else None
  }

  /** `coerce_exact`. */
  function CoerceExact(v: Value, ty: ColumnType): Option<Value> {
    match (v, ty)
    case (Int64(n), TInt32) => CheckedInt32(n)
    case (Int32(n), TInt64) => Some(Int64(n))
    case (Int32(n), TDecimal(_, scale)) => IntToDecimal(n, scale)
    case (Int64(n), TDecimal(_, scale)) => IntToDecimal(n, scale)
    case (Dec(d), TInt32) => (match DecimalToInt(d) case Some(n) => CheckedInt32(n) case None => None)
    case (Dec(d), TInt64) => (match DecimalToInt(d) case Some(n) => Some(Int64(n)) case None => None)
    case (Dec(d), TDecimal(_, scale)) => if d.scale != scale then Rescale(d, scale) else Some(v)
    case (Varchar(s), TChar(_)) => Some(Char(s))
    case (Char(s), TVarchar(_)) => Some(Varchar(s))
    case _ => if v.Matches(ty) then Some(v) else None
  }

  /** Some value of the type equals `v`. */
  ghost predicate Representable(v: Value, ty: ColumnType) {
    exists w: Value :: w.Matches(ty) && CompareSql(v, w) == Some(Equal)
  }

  /** What the result has to be: a value of the type, equal to `v`, there whenever one is. */
  ghost predicate Exact(v: Value, ty: ColumnType, r: Option<Value>) {
    && (r.Some? ==> r.value.Matches(ty) && CompareSql(v, r.value) == Some(Equal))
    && (r.None? ==> forall w: Value | w.Matches(ty) :: CompareSql(v, w) != Some(Equal))
  }

  lemma IntToDecimalExact(v: Value, n: i64, ty: ColumnType)
    requires (v == Int64(n) || (v.Int32? && v.n == n)) && ty.TDecimal?
    ensures Exact(v, ty, IntToDecimal(n, ty.scale))
  {
    hide Pow10;
  }

  /** Divisibility by p, and the quotient, pinned down. */
  lemma Divides(m: int, p: int, q: int)
    requires p > 0
    ensures q * p == m <==> m % p == 0 && m / p == q
  {
    if q * p == m {
      QuotientUnique(m, p, q);
    }
  }

  lemma QuotientUnique(m: int, p: int, q: int)
    requires p > 0 && q * p == m
    ensures m % p == 0 && m / p == q
  {
    var d := m / p - q;
    assert d * p == -(m % p) by { assert m == (m / p) * p + m % p; }
    if d > 0 { NonNegative(d - 1, p); } else if d < 0 { NonNegative(-d - 1, p); }
  }

  lemma IntEqual(d: Decimal, i: i64)
    ensures CompareIntDecimal(i, d) == Equal <==> DecimalToInt(d) == Some(i)
  {
    hide Pow10;
    Divides(d.mantissa, Pow10(d.scale), i);
  }

  lemma DecimalToIntExact(d: Decimal, ty: ColumnType)
    requires ty.TInt32? || ty.TInt64?
    ensures Exact(Dec(d), ty, CoerceExact(Dec(d), ty))
  {
    hide Pow10, CompareIntDecimal, DecimalToInt;
    forall i: i64 ensures CompareIntDecimal(i, d) == Equal <==> DecimalToInt(d) == Some(i) {
      IntEqual(d, i);
    }
  }

  /** Equality across scales, with the common power cancelled. */
  lemma CrossScale(a: Decimal, b: Decimal)
    requires a.scale < b.scale
    ensures CompareDecimals(a, b) == Equal <==> a.mantissa * Pow10(b.scale - a.scale) == b.mantissa
    ensures CompareDecimals(b, a) == Equal <==> a.mantissa * Pow10(b.scale - a.scale) == b.mantissa
  {
    hide Pow10;
    var k := b.scale - a.scale;
    Pow10Add(k, a.scale);
    Regroup(a.mantissa, Pow10(k), Pow10(a.scale));
    MulOrder(a.mantissa * Pow10(k), b.mantissa, Pow10(a.scale));
  }

  lemma RescaleExact(d: Decimal, ty: ColumnType)
    requires ty.TDecimal? && d.scale != ty.scale
    ensures Exact(Dec(d), ty, Rescale(d, ty.scale))
  {
    hide Pow10, CompareDecimals;
    forall w: Decimal | w.scale == ty.scale
      ensures CompareDecimals(d, w) == Equal <==> Rescale(d, ty.scale) == Some(Dec(w))
    {
      if d.scale < w.scale {
        CrossScale(d, w);
      } else {
        CrossScale(w, d);
        Divides(d.mantissa, Pow10(d.scale - w.scale), w.mantissa);
      }
    }
  }

  lemma SameShapeExact(v: Value, ty: ColumnType)
    requires !v.Null? && v.Matches(ty)
    ensures CompareSql(v, v) == Some(Equal)
  {
    CompareExact(v, v);
  }

  /** No value of an unrelated type equals `v`. */
  lemma UnrelatedNever(v: Value, ty: ColumnType)
    requires !v.Null? && !v.Matches(ty)
    requires !((v.Int32? || v.Int64? || v.Dec?) && (ty.TInt32? || ty.TInt64? || ty.TDecimal?))
    requires !((v.Char? || v.Varchar?) && (ty.TChar? || ty.TVarchar?))
    ensures forall w: Value | w.Matches(ty) :: CompareSql(v, w) == None
  {
  }

  /** Conversion succeeds exactly when some value of the type equals the given one, and then returns it. */
  lemma CoercionExact(v: Value, ty: ColumnType)
    requires !v.Null?
    ensures CoerceExact(v, ty).Some? <==> Representable(v, ty)
    ensures CoerceExact(v, ty).Some? ==>
              CoerceExact(v, ty).value.Matches(ty) && CompareSql(v, CoerceExact(v, ty).value) == Some(Equal)
  {
    hide Pow10, CompareDecimals, CompareIntDecimal, IntToDecimal, DecimalToInt, Rescale, CompareBytes;
    assert Exact(v, ty, CoerceExact(v, ty)) by {
      match (v, ty) {
        case (Int32(n), TDecimal(_, _)) => IntToDecimalExact(v, n, ty);
        case (Int64(n), TDecimal(_, _)) => IntToDecimalExact(v, n, ty);
        case (Dec(d), TInt32) => DecimalToIntExact(d, ty);
        case (Dec(d), TInt64) => DecimalToIntExact(d, ty);
        case (Dec(d), TDecimal(_, scale)) => if d.scale != scale { RescaleExact(d, ty); } else { SameShapeExact(v, ty); }
        case (Varchar(s), TChar(_)) => SameText(s);
        case (Char(s), TVarchar(_)) => SameText(s);
        case (Int64(n), TInt32) =>
        case (Int32(n), TInt64) =>
        case _ => if v.Matches(ty) { SameShapeExact(v, ty); } else { UnrelatedNever(v, ty); }
      }
    }
  }

  lemma SameText(s: ByteString)
    ensures CompareBytes(s, s) == Equal
  {
  }
}

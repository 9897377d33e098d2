/** SQL comparison: mixed numeric types by exact value, every other type by its own order. */
module SqlCompare {
  import opened Common
  import opened ByteOrder
  import opened Values

  predicate InI64(x: int) {
    -0x8000_0000_0000_0000 <= x < 0x8000_0000_0000_0000
  }

  predicate InI128(x: int) {
    -0x8000_0000_0000_0000_0000_0000_0000_0000 <= x < 0x8000_0000_0000_0000_0000_0000_0000_0000
  }

  function CompareBytes(a: ByteString, b: ByteString): Ordering {
    if a == b then Equal else if Below(a, b) then Less else Greater
  }

  function CompareBools(a: bool, b: bool): Ordering {
    if a == b then Equal else if b then Less else Greater
  }

  /** Cross-multiplied mantissas, compared as 128-bit integers. */
  function CompareDecimals(a: Decimal, b: Decimal): Ordering {
    if a.scale == b.scale then CompareInt(a.mantissa, b.mantissa)
    else CompareInt(a.mantissa * Pow10(b.scale), b.mantissa * Pow10(a.scale))
  }

  function CompareIntDecimal(i: i64, d: Decimal): Ordering {
    CompareInt(i * Pow10(d.scale), d.mantissa)
  }

  /** `compare_sql`: no answer for NULL or for values of unrelated types. */
  function CompareSql(a: Value, b: Value): Option<Ordering> {
    match (a, b)
    case (Int32(x), Int32(y)) => Some(CompareInt(x, y))
    case (Int64(x), Int64(y)) => Some(CompareInt(x, y))
    case (Int32(x), Int64(y)) => Some(CompareInt(x, y))
    case (Int64(x), Int32(y)) => Some(CompareInt(x, y))
    case (Varchar(x), Varchar(y)) => Some(CompareBytes(x, y))
    case (Char(x), Char(y)) => Some(CompareBytes(x, y))
    case (Varchar(x), Char(y)) => Some(CompareBytes(x, y))
    case (Char(x), Varchar(y)) => Some(CompareBytes(x, y))
    case (Bytes(x), Bytes(y)) => Some(CompareBytes(x, y))
    case (Boolean(x), Boolean(y)) => Some(CompareBools(x, y))
    case (Timestamp(x), Timestamp(y)) => Some(CompareInt(x, y))
    case (Date(x), Date(y)) => Some(CompareInt(x, y))
    case (Dec(x), Dec(y)) => Some(CompareDecimals(x, y))
    case (Int32(x), Dec(d)) => Some(CompareIntDecimal(x, d))
    case (Int64(x), Dec(d)) => Some(CompareIntDecimal(x, d))
    case (Dec(d), Int32(y)) => Some(CompareIntDecimal(y, d).Reverse())
    case (Dec(d), Int64(y)) => Some(CompareIntDecimal(y, d).Reverse())
    case _ => None
  }

  // ---- what the comparison means ----------------------------------------------------------

  /** A value's place in its comparable class.  Numbers are counted in units of ten to the minus eighteen,
      the finest scale there is. */
  datatype Place = Nowhere | Number(units: int) | Text(bytes: ByteString) | Raw(bytes: ByteString)
                 | Truth(truth: bool) | Instant(micros: int) | Day(days: int)

  ghost function PlaceOf(v: Value): Place {
    match v
    case Null => Nowhere
    case Int32(n) => Number(n * Pow10(MAX_SCALE))
    case Int64(n) => Number(n * Pow10(MAX_SCALE))
    case Dec(d) => Number(d.mantissa * Pow10(MAX_SCALE - d.scale))
    case Varchar(s) => Place.Text(s)
    case Char(s) => Place.Text(s)
    case Bytes(b) => Raw(b)
    case Boolean(b) => Truth(b)
    case Timestamp(t) => Instant(t)
    case Date(d) => Day(d)
  }

  ghost predicate Comparable(a: Value, b: Value) {
    match (PlaceOf(a), PlaceOf(b))
    case (Number(_), Number(_)) => true
    case (Text(_), Text(_)) => true
    case (Raw(_), Raw(_)) => true
    case (Truth(_), Truth(_)) => true
    case (Instant(_), Instant(_)) => true
    case (Day(_), Day(_)) => true
    case _ => false
  }

  ghost predicate PlaceBelow(p: Place, q: Place) {
    match (p, q)
    case (Number(x), Number(y)) => x < y
    case (Text(x), Text(y)) => Below(x, y)
    case (Raw(x), Raw(y)) => Below(x, y)
    case (Truth(x), Truth(y)) => !x && y
    case (Instant(x), Instant(y)) => x < y
    case (Day(x), Day(y)) => x < y
    case _ => false
  }

  lemma {:induction false} Pow10Add(m: nat, n: nat)
    ensures Pow10(m + n) == Pow10(m) * Pow10(n)
  {
    if m > 0 {
      Pow10Add(m - 1, n);
      assert Pow10(m + n) == 10 * Pow10(m + n - 1);
      assert 10 * (Pow10(m - 1) * Pow10(n)) == (10 * Pow10(m - 1)) * Pow10(n);
    }
  }

  lemma {:induction false} Pow10Monotone(m: nat, n: nat)
    requires m <= n
    ensures Pow10(m) <= Pow10(n)
  {
    if m < n { Pow10Monotone(m, n - 1); }
  }

  lemma Pow10Eighteen()
    ensures Pow10(18) == 1_000_000_000_000_000_000
  {
    assert Pow10(3) == 1000 && Pow10(6) == 1000 * Pow10(3) && Pow10(9) == 1000 * Pow10(6);
    Pow10Add(9, 9);
  }

  lemma TimesPow10(m: int, k: nat)
    requires k > 0
    ensures (m * Pow10(k)) % 10 == 0
  {
    assert m * (10 * Pow10(k - 1)) == 10 * (m * Pow10(k - 1));
  }

  /** Comparing a/x with b/y: cross-multiplying agrees with bringing both to the common denominator t. */
  lemma CrossMultiply(a: int, b: int, x: int, y: int, p: int, q: int, t: int)
    requires x > 0 && y > 0 && p > 0 && q > 0 && x * p == t && y * q == t
    ensures a * y < b * x <==> a * p < b * q
    ensures a * y == b * x <==> a * p == b * q
  {
    assert (a * y) * (p * q) == (a * p) * t by { assert (a * y) * (p * q) == (a * p) * (y * q); }
    assert (b * x) * (p * q) == (b * q) * t by { assert (b * x) * (p * q) == (b * q) * (x * p); }
    assert p * q > 0 && t > 0;
    MulOrder(a * y, b * x, p * q);
    MulOrder(a * p, b * q, t);
  }

  lemma MulOrder(u: int, v: int, k: int)
    requires k > 0
    ensures u * k < v * k <==> u < v
    ensures u * k == v * k <==> u == v
  {
  }

  lemma Units(d: Decimal)
    ensures PlaceOf(Dec(d)).Number? && PlaceOf(Dec(d)).units == d.mantissa * Pow10(MAX_SCALE - d.scale)
  {
  }

  lemma DecimalsExact(a: Decimal, b: Decimal)
    ensures CompareDecimals(a, b) == CompareInt(PlaceOf(Dec(a)).units, PlaceOf(Dec(b)).units)
  {
    hide Pow10, PlaceOf;
    var p, q := Pow10(MAX_SCALE - a.scale), Pow10(MAX_SCALE - b.scale);
    Units(a);
    Units(b);
    Pow10Add(a.scale, MAX_SCALE - a.scale);
    Pow10Add(b.scale, MAX_SCALE - b.scale);
    if a.scale == b.scale {
      MulOrder(a.mantissa, b.mantissa, p);
    } else {
      CrossMultiply(a.mantissa, b.mantissa, Pow10(a.scale), Pow10(b.scale), p, q, Pow10(MAX_SCALE));
    }
  }

  lemma IntDecimalExact(i: i64, d: Decimal)
    ensures CompareIntDecimal(i, d) == CompareInt(i * Pow10(MAX_SCALE), PlaceOf(Dec(d)).units)
  {
    hide Pow10;
    var p := Pow10(MAX_SCALE - d.scale);
    Pow10Add(d.scale, MAX_SCALE - d.scale);
    Regroup(i, Pow10(d.scale), p);
    MulOrder(i * Pow10(d.scale), d.mantissa, p);
  }

  lemma Regroup(x: int, y: int, z: int)
    ensures x * (y * z) == (x * y) * z
  {
  }

  /** The comparison answers exactly for comparable values, and answers what their places say. */
  lemma CompareExact(a: Value, b: Value)
    ensures CompareSql(a, b).Some? <==> Comparable(a, b)
    ensures CompareSql(a, b) == Some(Less) <==> PlaceBelow(PlaceOf(a), PlaceOf(b))
    ensures Comparable(a, b) ==> (CompareSql(a, b) == Some(Equal) <==> PlaceOf(a) == PlaceOf(b))
    ensures CompareSql(a, b) == Some(Greater) <==> PlaceBelow(PlaceOf(b), PlaceOf(a))
  {
    hide Pow10, Below, CompareDecimals, CompareIntDecimal;
    match (a, b) {
      case (Dec(x), Dec(y)) => DecimalsExact(x, y);
      case (Int32(x), Dec(d)) => IntDecimalExact(x, d);
      case (Int64(x), Dec(d)) => IntDecimalExact(x, d);
      case (Dec(d), Int32(y)) => IntDecimalExact(y, d);
      case (Dec(d), Int64(y)) => IntDecimalExact(y, d);
      case (Int32(_), _) => IntegersExact(a, b);
      case (Int64(_), _) => IntegersExact(a, b);
      case (Varchar(x), Varchar(y)) => Trichotomy(x, y);
      case (Varchar(x), Char(y)) => Trichotomy(x, y);
      case (Char(x), Varchar(y)) => Trichotomy(x, y);
      case (Char(x), Char(y)) => Trichotomy(x, y);
      case (Bytes(x), Bytes(y)) => Trichotomy(x, y);
      case _ =>
    }
  }

  lemma IntegersExact(a: Value, b: Value)
    requires a.Int32? || a.Int64?
    ensures b.Int32? || b.Int64? ==>
              var x, y := (if a.Int32? then a.n else a.m) as int, (if b.Int32? then b.n else b.m) as int;
              (x < y <==> PlaceOf(a).units < PlaceOf(b).units) && (x == y <==> PlaceOf(a).units == PlaceOf(b).units)
  {
    if b.Int32? || b.Int64? {
      MulOrder(if a.Int32? then a.n else a.m, if b.Int32? then b.n else b.m, Pow10(MAX_SCALE));
    }
  }

  // ---- a total preorder ------------------------------------------------------------------------

  ghost predicate SqlAtMost(a: Value, b: Value) {
    CompareSql(a, b) == Some(Less) || CompareSql(a, b) == Some(Equal)
  }

  /** On each comparable class the comparison is reflexive, mirrored when the operands are swapped, and
      transitive; comparability itself is an equivalence on non-NULL values. */
  lemma TotalPreorder(a: Value, b: Value, c: Value)
    ensures !a.Null? ==> CompareSql(a, a) == Some(Equal)
    ensures CompareSql(a, b).Some? <==> CompareSql(b, a).Some?
    ensures CompareSql(a, b).Some? ==> CompareSql(b, a) == Some(CompareSql(a, b).value.Reverse())
    ensures CompareSql(a, b).Some? && CompareSql(b, c).Some? ==> CompareSql(a, c).Some?
    ensures SqlAtMost(a, b) && SqlAtMost(b, c) ==> SqlAtMost(a, c)
  {
    hide CompareSql, Pow10, Below;
    CompareExact(a, a);
    CompareExact(a, b);
    CompareExact(b, a);
    CompareExact(b, c);
    CompareExact(a, c);
    PlaceOrder(PlaceOf(a), PlaceOf(b), PlaceOf(c));
    PlaceOrder(PlaceOf(b), PlaceOf(c), PlaceOf(a));
    ThreeWay(CompareSql(a, c));
  }

  lemma ThreeWay(r: Option<Ordering>)
    ensures r == None || r == Some(Less) || r == Some(Equal) || r == Some(Greater)
  {
    if r.Some? {
      match r.value {
        case Less =>
        case Equal =>
        case Greater =>
      }
    }
  }

  lemma PlaceOrder(p: Place, q: Place, r: Place)
    ensures !PlaceBelow(p, p) && !(PlaceBelow(p, q) && PlaceBelow(q, p))
    ensures PlaceBelow(r, p) && p != q && q != r ==> !PlaceBelow(p, q) || !PlaceBelow(q, r)
  {
    if p.Text? { Trichotomy(p.bytes, p.bytes); }
    if p.Raw? { Trichotomy(p.bytes, p.bytes); }
    if p.Text? && q.Text? { Trichotomy(p.bytes, q.bytes); }
    if p.Raw? && q.Raw? { Trichotomy(p.bytes, q.bytes); }
    if p.Text? && q.Text? && r.Text? { BytesOrder(p.bytes, q.bytes, r.bytes); }
    if p.Raw? && q.Raw? && r.Raw? { BytesOrder(p.bytes, q.bytes, r.bytes); }
  }

  lemma BytesOrder(x: ByteString, y: ByteString, z: ByteString)
    ensures !Below(x, x) && !(Below(x, y) && Below(y, x))
    ensures Below(z, x) && Below(x, y) ==> !Below(y, z)
  {
    Trichotomy(x, y);
    if Below(z, x) && Below(x, y) {
      BelowTransitive(z, x, y);
      Trichotomy(z, y);
    }
  }

  /** No product the comparison forms leaves the 128-bit range. */
  lemma ProductsFit(m: i64, scale: Scale)
    ensures InI128(m * Pow10(scale))
  {
    hide Pow10;
    Pow10Monotone(scale, 18);
    Pow10Eighteen();
    var p: int := Pow10(scale);
    NonNegative(m + 0x8000_0000_0000_0000, p);
    NonNegative(0x7FFF_FFFF_FFFF_FFFF - m, p);
  }

  lemma NonNegative(x: int, p: int)
    requires x >= 0 && p > 0
    ensures x * p >= 0
  {
  }
}

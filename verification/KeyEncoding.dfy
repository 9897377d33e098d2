/**
 Order-preserving composite keys: each component is a NULL sentinel byte and,
 if the value is present, the value's bytes.
 */
module KeyEncoding {
  import opened Common
  import opened ByteOrder
  import opened Values
  import opened FixedWidth

  datatype Error = StorageCorrupted

  const NULL_SENTINEL: Byte := 0x00
  const PRESENT_SENTINEL: Byte := 0x01

  // ---- padded strings ------------------------------------------------------------

  function Pad(s: seq<Byte>, width: nat): (p: seq<Byte>)
    ensures |s| <= width ==> |p| == width
  {
    if |s| <= width then s + Zeros(width - |s|) else s
  }

  /** Everything up to the last byte that is not zero. */
  function Trim(s: seq<Byte>): (t: seq<Byte>)
    ensures t <= s && (t != [] ==> t[|t| - 1] != 0)
  {
    if s != [] && s[|s| - 1] == 0 then Trim(s[..|s| - 1]) else s
  }

  lemma {:induction false} TrimZeros(s: seq<Byte>, n: nat)
    ensures Trim(s + Zeros(n)) == Trim(s)
  {
    if n == 0 {
      assert s + Zeros(0) == s;
    } else {
      TrimZeros(s, n - 1);
      var t := s + Zeros(n);
      assert t[..|t| - 1] == s + Zeros(n - 1);
    }
  }

  lemma {:induction false} PadTrim(s: seq<Byte>)
    ensures Pad(Trim(s), |s|) == s
  {
    if s != [] && s[|s| - 1] == 0 {
      var front := s[..|s| - 1];
      PadTrim(front);
      var t := Trim(front);
      assert Zeros(|s| - |t|) == Zeros(|front| - |t|) + [0];
      assert s == front + [0];
    }
  }

  lemma PadOrder(a: seq<Byte>, b: seq<Byte>, width: nat)
    requires 0 !in a && 0 !in b && |a| <= width && |b| <= width && a != b
    ensures Pad(a, width) != Pad(b, width)
    ensures Below(Pad(a, width), Pad(b, width)) <==> Below(a, b)
  {
    if a <= b {
      PadShorter(a, b, width);
      PrefixBelow(a, b);
    } else if b <= a {
      PadShorter(b, a, width);
      PrefixBelow(b, a);
      Trichotomy(Pad(a, width), Pad(b, width));
    } else {
      ApartExtends(a, b, Zeros(width - |a|), Zeros(width - |b|));
    }
  }

  lemma PadShorter(a: seq<Byte>, b: seq<Byte>, width: nat)
    requires 0 !in b && |b| <= width && a <= b && a != b
    ensures Below(Pad(a, width), Pad(b, width)) && Pad(a, width) != Pad(b, width)
  {
    var x, y := Pad(a, width), Pad(b, width);
    assert x[..|a|] == a == y[..|a|] && x[|a|] == 0 && y[|a|] == b[|a|];
    assert b[|a|] in b;
    BelowAt(x, y, |a|);
  }

  // ---- escaped strings --------------------------------------------------------------

  function EscapeByte(b: Byte): seq<Byte> {
    if b == 0x00 then [0x00, 0xFF] else [b]
  }

  /** Zero bytes are escaped, and a pair of zero bytes ends the string. */
  function Escaped(s: seq<Byte>): seq<Byte> {
    if s == [] then [0x00, 0x00] else EscapeByte(s[0]) + Escaped(s[1..])
  }

  function Prepend(out: seq<Byte>, i: nat, r: Result<(seq<Byte>, nat), Error>): Result<(seq<Byte>, nat), Error> {
    match r
    case Ok((s, n)) => Ok((out + s, i + n))
    case Err(e) => Err(e)
  }

  function DecodeEscaped(bytes: seq<Byte>): (r: Result<(seq<Byte>, nat), Error>)
    ensures r.Ok? ==> r.value.1 <= |bytes|
  {
    if bytes == [] then Err(StorageCorrupted)
    else if bytes[0] != 0x00 then Prepend([bytes[0]], 1, DecodeEscaped(bytes[1..]))
    else if |bytes| < 2 then Err(StorageCorrupted)
    else if bytes[1] == 0x00 then Ok(([], 2))
    else if bytes[1] == 0xFF then Prepend([0x00], 2, DecodeEscaped(bytes[2..]))
    else Err(StorageCorrupted)
  }

  method EscapeInto(input: seq<Byte>, buffer: seq<Byte>) returns (out: seq<Byte>)
    ensures out == buffer + Escaped(input)
  {
    out := buffer;
    for i := 0 to |input|
      invariant out + Escaped(input[i..]) == buffer + Escaped(input)
    {
      assert input[i..][1..] == input[i + 1..];
      ghost var before := out;
      if input[i] == 0x00 {
        out := out + [0x00];
        out := out + [0xFF];
      } else {
        out := out + [input[i]];
      }
      assert out == before + EscapeByte(input[i]);
    }
    assert input[|input|..] == [];
    out := out + [0x00];
    out := out + [0x00];
  }

  method Unescape(bytes: seq<Byte>) returns (r: Result<(seq<Byte>, nat), Error>)
    ensures r == DecodeEscaped(bytes)
  {
    var out, i := [], 0;
    assert bytes[0..] == bytes;
    PrependNothing(DecodeEscaped(bytes));
    while i < |bytes|
      invariant 0 <= i <= |bytes|
      invariant DecodeEscaped(bytes) == Prepend(out, i, DecodeEscaped(bytes[i..]))
    {
      if bytes[i] == 0x00 {
        if i + 1 >= |bytes| {
          return Err(StorageCorrupted);
        }
        if bytes[i + 1] == 0x00 {
          assert out + [] == out;
          return Ok((out, i + 2));
        } else if bytes[i + 1] == 0xFF {
          assert bytes[i..][2..] == bytes[i + 2..];
          PrependTwice(out, i, [0x00], 2, DecodeEscaped(bytes[i + 2..]));
          out, i := out + [0x00], i + 2;
        } else {
          return Err(StorageCorrupted);
        }
      } else {
        assert bytes[i..][1..] == bytes[i + 1..];
        PrependTwice(out, i, [bytes[i]], 1, DecodeEscaped(bytes[i + 1..]));
        out, i := out + [bytes[i]], i + 1;
      }
    }
    r := Err(StorageCorrupted);
  }

  lemma PrependNothing(r: Result<(seq<Byte>, nat), Error>)
    ensures Prepend([], 0, r) == r
  {
    if r.Ok? {
      assert [] + r.value.0 == r.value.0;
    }
  }

  lemma PrependTwice(a: seq<Byte>, i: nat, b: seq<Byte>, j: nat, r: Result<(seq<Byte>, nat), Error>)
    ensures Prepend(a, i, Prepend(b, j, r)) == Prepend(a + b, i + j, r)
  {
    if r.Ok? {
      assert a + (b + r.value.0) == a + b + r.value.0;
    }
  }

  lemma {:induction false} EscapedRoundTrip(s: seq<Byte>, rest: seq<Byte>)
    ensures DecodeEscaped(Escaped(s) + rest) == Ok((s, |Escaped(s)|))
  {
    if s != [] {
      EscapedRoundTrip(s[1..], rest);
      var code := EscapeByte(s[0]);
      var bytes := Escaped(s) + rest;
      assert bytes == code + (Escaped(s[1..]) + rest);
      assert bytes[|code|..] == Escaped(s[1..]) + rest;
      assert s == [s[0]] + s[1..];
    }
  }

  /** A decoded string determines the bytes it was read from. */
  lemma {:induction false} EscapedOnto(bytes: seq<Byte>)
    requires DecodeEscaped(bytes).Ok?
    ensures var (s, n) := DecodeEscaped(bytes).value; bytes[..n] == Escaped(s)
  {
    var (s, n) := DecodeEscaped(bytes).value;
    if bytes[0] != 0x00 || bytes[1] == 0xFF {
      var k := if bytes[0] != 0x00 then 1 else 2;
      EscapedOnto(bytes[k..]);
      assert bytes[..n] == bytes[..k] + bytes[k..][..n - k];
      assert bytes[..k] == EscapeByte(s[0]);
      assert s[1..] == DecodeEscaped(bytes[k..]).value.0;
    } else {
      assert bytes[..2] == [0x00, 0x00];
    }
  }

  lemma ApartAfterPrefix(p: seq<Byte>, a: seq<Byte>, b: seq<Byte>)
    requires Apart(a, b)
    ensures Apart(p + a, p + b)
  {
    var i := FirstDifference(a, b);
    assert (p + a)[|p| + i] == a[i] && (p + b)[|p| + i] == b[i];
  }

  lemma {:induction false} EscapedOrder(a: seq<Byte>, b: seq<Byte>)
    requires a != b
    ensures Apart(Escaped(a), Escaped(b)) && (Below(Escaped(a), Escaped(b)) <==> Below(a, b))
  {
    var x, y := Escaped(a), Escaped(b);
    if a != [] && b != [] && a[0] == b[0] {
      assert a == [a[0]] + a[1..] && b == [b[0]] + b[1..];
      EscapedOrder(a[1..], b[1..]);
      ApartAfterPrefix(EscapeByte(a[0]), Escaped(a[1..]), Escaped(b[1..]));
      SamePrefix(EscapeByte(a[0]), Escaped(a[1..]), Escaped(b[1..]));
    } else if x[0] != y[0] {
      BelowAt(x, y, 0);
    } else {
      assert x[..1] == [0x00] == y[..1];
      assert x[1] != y[1];
      BelowAt(x, y, 1);
    }
  }

  // ---- one component -----------------------------------------------------------------

  /** The value's variant is the one the column type asks for; a decimal's scale is not looked at. */
  predicate SameShape(v: Value, ty: ColumnType) {
    v.Null? || v.Matches(ty) || (v.Dec? && ty.TDecimal?)
  }

  predicate Encodable(v: Value, ty: ColumnType) {
    SameShape(v, ty) && (v.Char? ==> 0x00 !in v.text && |v.text| <= ty.width)
  }

  function Payload(v: Value, ty: ColumnType): seq<Byte>
    requires SameShape(v, ty)
  {
    Widths();
    match v
    case Null => []
    case Int32(n) => EncodeSigned(n, 4)
    case Date(n) => EncodeSigned(n, 4)
    case Int64(n) => EncodeSigned(n, 8)
    case Timestamp(n) => EncodeSigned(n, 8)
    case Dec(d) => EncodeSigned(d.mantissa, 8)
    case Boolean(b) => [if b then 0x01 else 0x00]
    case Char(s) => Pad(s, ty.width)
    case Varchar(s) => Escaped(s)
    case Bytes(b) => Escaped(b)
  }

  /** The bytes of one component. */
  function Component(v: Value, ty: ColumnType): (b: seq<Byte>)
    requires SameShape(v, ty)
  {
    if v.Null? then [NULL_SENTINEL] else [PRESENT_SENTINEL] + Payload(v, ty)
  }

  function DecodeFixed(bytes: seq<Byte>, k: nat): (r: Result<(int, nat), Error>)
    requires k > 0
    ensures r.Ok? ==> Fits(r.value.0, k) && r.value.1 == k <= |bytes|
  {
    if |bytes| < k then Err(StorageCorrupted) else Ok((DecodeSigned(bytes[..k]), k))
  }

  function DecodePayload(bytes: seq<Byte>, ty: ColumnType): (r: Result<(Value, nat), Error>)
    ensures r.Ok? ==> r.value.1 <= |bytes|
    ensures r.Ok? ==> !r.value.0.Null? && r.value.0.Matches(ty)
  {
    Widths();
    match ty
    case TInt32 =>
      (match DecodeFixed(bytes, 4) case Ok((n, k)) => Ok((Int32(n), k)) case Err(e) => Err(e))
    case TDate =>
      (match DecodeFixed(bytes, 4) case Ok((n, k)) => Ok((Date(n), k)) case Err(e) => Err(e))
    case TInt64 =>
      (match DecodeFixed(bytes, 8) case Ok((n, k)) => Ok((Int64(n), k)) case Err(e) => Err(e))
    case TTimestamp =>
      (match DecodeFixed(bytes, 8) case Ok((n, k)) => Ok((Timestamp(n), k)) case Err(e) => Err(e))
    case TDecimal(_, scale) =>
      (match DecodeFixed(bytes, 8) case Ok((n, k)) => Ok((Dec(Decimal(n, scale)), k)) case Err(e) => Err(e))
    case TBoolean =>
      if bytes == [] || bytes[0] > 0x01 then Err(StorageCorrupted) else Ok((Boolean(bytes[0] == 0x01), 1))
    case TChar(width) =>
      if |bytes| < width || !ValidUtf8(Trim(bytes[..width])) then Err(StorageCorrupted)
      else Ok((Char(Trim(bytes[..width])), width))
    case TVarchar(_) =>
      (match DecodeEscaped(bytes)
       case Ok((s, n)) => if ValidUtf8(s) then Ok((Varchar(s), n)) else Err(StorageCorrupted)
       case Err(e) => Err(e))
    case TBytes(_) =>
      (match DecodeEscaped(bytes) case Ok((s, n)) => Ok((Bytes(s), n)) case Err(e) => Err(e))
  }

  function DecodeOne(bytes: seq<Byte>, ty: ColumnType): (r: Result<(Value, nat), Error>)
    ensures r.Ok? ==> 0 < r.value.1 <= |bytes| && r.value.0.Matches(ty)
  {
    if bytes == [] then Err(StorageCorrupted)
    else if bytes[0] == NULL_SENTINEL then Ok((Null, 1))
    else if bytes[0] != PRESENT_SENTINEL then Err(StorageCorrupted)
    else match DecodePayload(bytes[1..], ty)
      case Ok((v, n)) => Ok((v, 1 + n))
      case Err(e) => Err(e)
  }

  lemma PayloadRoundTrip(v: Value, ty: ColumnType, rest: seq<Byte>)
    requires !v.Null? && v.Matches(ty) && Encodable(v, ty)
    ensures DecodePayload(Payload(v, ty) + rest, ty) == Ok((v, |Payload(v, ty)|))
  {
    Widths();
    var p := Payload(v, ty);
    assert (p + rest)[..|p|] == p;
    match v {
      case Int32(n) => SignedRoundTrip(n, 4);
      case Date(n) => SignedRoundTrip(n, 4);
      case Int64(n) => SignedRoundTrip(n, 8);
      case Timestamp(n) => SignedRoundTrip(n, 8);
      case Dec(d) => SignedRoundTrip(d.mantissa, 8);
      case Boolean(b) =>
      case Char(s) => TrimZeros(s, ty.width - |s|); assert s != [] ==> s[|s| - 1] in s;
      case Varchar(s) => EscapedRoundTrip(s, rest);
      case Bytes(b) => EscapedRoundTrip(b, rest);
    }
  }

  lemma ComponentRoundTrip(v: Value, ty: ColumnType, rest: seq<Byte>)
    requires v.Matches(ty) && Encodable(v, ty)
    ensures DecodeOne(Component(v, ty) + rest, ty) == Ok((v, |Component(v, ty)|))
  {
    hide Payload, DecodePayload;
    var bytes := Component(v, ty) + rest;
    if !v.Null? {
      PayloadRoundTrip(v, ty, rest);
      assert bytes[1..] == Payload(v, ty) + rest;
    }
  }

  /** A decoded value determines the bytes it was read from. */
  lemma PayloadOnto(bytes: seq<Byte>, ty: ColumnType)
    requires DecodePayload(bytes, ty).Ok?
    ensures var (v, n) := DecodePayload(bytes, ty).value; bytes[..n] == Payload(v, ty)
  {
    Widths();
    match ty {
      case TInt32 => SignedOnto(bytes[..4]);
      case TDate => SignedOnto(bytes[..4]);
      case TInt64 => SignedOnto(bytes[..8]);
      case TTimestamp => SignedOnto(bytes[..8]);
      case TDecimal(_, _) => SignedOnto(bytes[..8]);
      case TBoolean =>
      case TChar(width) => PadTrim(bytes[..width]);
      case TVarchar(_) => EscapedOnto(bytes);
      case TBytes(_) => EscapedOnto(bytes);
    }
  }

  lemma ComponentOnto(bytes: seq<Byte>, ty: ColumnType)
    requires DecodeOne(bytes, ty).Ok?
    ensures var (v, n) := DecodeOne(bytes, ty).value; bytes[..n] == Component(v, ty)
  {
    if bytes[0] == PRESENT_SENTINEL {
      PayloadOnto(bytes[1..], ty);
      var n := DecodePayload(bytes[1..], ty).value.1;
      assert bytes[..1 + n] == [bytes[0]] + bytes[1..][..n];
    }
  }

  // ---- the logical order -----------------------------------------------------------------

  /** NULL first, then by value; strings by their bytes. */
  ghost predicate ValueBelow(a: Value, b: Value) {
    match (a, b)
    case (Null, _) => !b.Null?
    case (Int32(m), Int32(n)) => m < n
    case (Date(m), Date(n)) => m < n
    case (Int64(m), Int64(n)) => m < n
    case (Timestamp(m), Timestamp(n)) => m < n
    case (Dec(m), Dec(n)) => m.mantissa < n.mantissa
    case (Boolean(m), Boolean(n)) => !m && n
    case (Char(m), Char(n)) => Below(m, n)
    case (Varchar(m), Varchar(n)) => Below(m, n)
    case (Bytes(m), Bytes(n)) => Below(m, n)
    case _ => false
  }

  ghost predicate TupleBelow(a: seq<Value>, b: seq<Value>) {
    if a == [] || b == [] then a == [] && b != []
    else ValueBelow(a[0], b[0]) || (a[0] == b[0] && TupleBelow(a[1..], b[1..]))
  }

  lemma SignedApart(m: int, n: int, k: nat)
    requires k > 0 && Fits(m, k) && Fits(n, k) && m != n
    ensures Apart(EncodeSigned(m, k), EncodeSigned(n, k))
    ensures Below(EncodeSigned(m, k), EncodeSigned(n, k)) <==> m < n
  {
    SignedRoundTrip(m, k);
    SignedRoundTrip(n, k);
    SameLengthApart(EncodeSigned(m, k), EncodeSigned(n, k));
    SignedOrder(m, n, k);
  }

  lemma PayloadOrder(a: Value, b: Value, ty: ColumnType)
    requires !a.Null? && !b.Null? && a != b && a.Matches(ty) && b.Matches(ty) && Encodable(a, ty) && Encodable(b, ty)
    ensures Apart(Payload(a, ty), Payload(b, ty))
    ensures Below(Payload(a, ty), Payload(b, ty)) <==> ValueBelow(a, b)
  {
    Widths();
    match ty {
      case TInt32 => SignedApart(a.n, b.n, 4);
      case TDate => SignedApart(a.days, b.days, 4);
      case TInt64 => SignedApart(a.m, b.m, 8);
      case TTimestamp => SignedApart(a.micros, b.micros, 8);
      case TDecimal(_, _) => SignedApart(a.decimal.mantissa, b.decimal.mantissa, 8);
      case TBoolean => assert Payload(a, ty)[0] != Payload(b, ty)[0];
      case TChar(width) =>
        PadOrder(a.text, b.text, width);
        SameLengthApart(Pad(a.text, width), Pad(b.text, width));
      case TVarchar(_) => EscapedOrder(a.text, b.text);
      case TBytes(_) => EscapedOrder(a.bytes, b.bytes);
    }
  }

  /** Different values of one column are apart and ordered as the values are. */
  lemma ComponentOrder(a: Value, b: Value, ty: ColumnType)
    requires a != b && a.Matches(ty) && b.Matches(ty) && Encodable(a, ty) && Encodable(b, ty)
    ensures Apart(Component(a, ty), Component(b, ty))
    ensures Below(Component(a, ty), Component(b, ty)) <==> ValueBelow(a, b)
  {
    if !a.Null? && !b.Null? {
      PayloadOrder(a, b, ty);
      ApartAfterPrefix([PRESENT_SENTINEL], Payload(a, ty), Payload(b, ty));
      SamePrefix([PRESENT_SENTINEL], Payload(a, ty), Payload(b, ty));
    } else {
      assert Component(a, ty)[0] != Component(b, ty)[0];
    }
  }
}

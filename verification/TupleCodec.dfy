/** Row blobs: a null bitmap followed by the non-null values in column order. */
module TupleCodec {
  import opened Common
  import opened ByteOrder
  import opened Values
  import opened FixedWidth
  import opened KeyEncoding

  // ---- the null bitmap ----------------------------------------------------------

  function Bit(b: nat, k: nat): bool {
    if k == 0 then b % 2 == 1 else Bit(b / 2, k - 1)
  }

  function SetBit(b: nat, k: nat): nat {
    if k == 0 then b - b % 2 + 1 else 2 * SetBit(b / 2, k - 1) + b % 2
  }

  lemma {:induction false} SetBitSets(b: nat, k: nat, j: nat)
    ensures Bit(SetBit(b, k), j) <==> j == k || Bit(b, j)
  {
    if k > 0 {
      assert SetBit(b, k) / 2 == SetBit(b / 2, k - 1) && SetBit(b, k) % 2 == b % 2;
      if j > 0 { SetBitSets(b / 2, k - 1, j - 1); }
    } else {
      assert SetBit(b, 0) / 2 == b / 2;
    }
  }

  function Pow2(k: nat): nat {
    if k == 0 then 1 else 2 * Pow2(k - 1)
  }

  lemma {:induction false} SetBitBounded(b: nat, k: nat, n: nat)
    requires k < n && b < Pow2(n)
    ensures SetBit(b, k) < Pow2(n)
  {
    assert Pow2(n) == 2 * Pow2(n - 1);
    BelowDouble(b, Pow2(n - 1));
    if k > 0 {
      SetBitBounded(b / 2, k - 1, n - 1);
      assert SetBit(b, k) == 2 * SetBit(b / 2, k - 1) + b % 2;
    }
  }

  lemma BelowDouble(b: nat, p: nat)
    requires b < 2 * p
    ensures b / 2 < p && b - b % 2 + 1 < 2 * p
  {
  }

  lemma {:induction false} ZeroBits(k: nat)
    ensures !Bit(0, k)
  {
    if k > 0 { ZeroBits(k - 1); }
  }

  lemma ByteBit(b: Byte, k: nat)
    requires k < 8
    ensures SetBit(b, k) < 256
  {
    assert Pow2(4) == 16 && Pow2(8) == 16 * Pow2(4);
    SetBitBounded(b, k, 8);
  }

  function BitmapLength(n: nat): nat {
    (n + 7) / 8
  }

  lemma Halves(a: seq<Byte>, b: seq<Byte>)
    ensures (a + b)[..|a|] == a && (a + b)[|a|..] == b
  {
  }

  lemma Associate(a: seq<Byte>, b: seq<Byte>, c: seq<Byte>)
    ensures a + b + c == a + (b + c)
  {
  }

  lemma BitmapCovers(n: nat, i: nat)
    requires i < n
    ensures i / 8 < BitmapLength(n)
  {
  }

  function IsNull(bitmap: seq<Byte>, i: nat): bool
    requires i / 8 < |bitmap|
  {
    Bit(bitmap[i / 8], i % 8)
  }

  function SetNull(bitmap: seq<Byte>, i: nat): (m: seq<Byte>)
    requires i / 8 < |bitmap|
    ensures |m| == |bitmap|
  {
    ByteBit(bitmap[i / 8], i % 8);
    bitmap[i / 8 := SetBit(bitmap[i / 8], i % 8)]
  }

  lemma SetNullSets(bitmap: seq<Byte>, i: nat, j: nat)
    requires i / 8 < |bitmap| && j / 8 < |bitmap|
    ensures IsNull(SetNull(bitmap, i), j) <==> j == i || IsNull(bitmap, j)
  {
    if i / 8 == j / 8 {
      SetBitSets(bitmap[i / 8], i % 8, j % 8);
      assert i == 8 * (i / 8) + i % 8 && j == 8 * (j / 8) + j % 8;
    }
  }

  /** The bitmap after the first `k` values have been looked at. */
  function Bitmap(vs: seq<Value>, k: nat): (m: seq<Byte>)
    requires k <= |vs|
    ensures |m| == BitmapLength(|vs|)
  {
    if k == 0 then Zeros(BitmapLength(|vs|))
    else if vs[k - 1].Null? then SetNull(Bitmap(vs, k - 1), k - 1)
    else Bitmap(vs, k - 1)
  }

  /** Bit `i` is set exactly for NULL columns; the spare bits are clear. */
  lemma {:induction false} BitmapBits(vs: seq<Value>, k: nat, i: nat)
    requires k <= |vs| && i / 8 < BitmapLength(|vs|)
    ensures IsNull(Bitmap(vs, k), i) <==> i < k && vs[i].Null?
  {
    if k == 0 {
      ZeroBits(i % 8);
    } else {
      BitmapBits(vs, k - 1, i);
      if vs[k - 1].Null? { SetNullSets(Bitmap(vs, k - 1), k - 1, i); }
    }
  }

  // ---- one value ---------------------------------------------------------------------

  predicate Storable(v: Value, ty: ColumnType) {
    && Encodable(v, ty)
    && (v.Varchar? ==> |v.text| <= ty.max)
    && (v.Bytes? ==> |v.bytes| <= ty.max)
  }

  function LittleSigned(n: int, k: nat): (b: seq<Byte>)
    requires k > 0 && Fits(n, k)
    ensures |b| == k
  {
    LittleEndian(Unsigned(n, k), k)
  }

  function FromLittleSigned(b: seq<Byte>): (n: int)
    requires |b| > 0
    ensures Fits(n, |b|)
  {
    Signed(FromLittleEndian(b), |b|)
  }

  lemma LittleSignedRoundTrip(n: int, k: nat)
    requires k > 0 && Fits(n, k)
    ensures FromLittleSigned(LittleSigned(n, k)) == n
  {
    LittleEndianRoundTrip(Unsigned(n, k), k);
    UnsignedRoundTrip(n, k);
  }

  function WithLength(s: seq<Byte>): (r: seq<Byte>)
    ensures |r| == 2 + |s|
  {
    LittleEndian(|s|, 2) + s
  }

  function Stored(v: Value, ty: ColumnType): seq<Byte>
    requires !v.Null? && Storable(v, ty)
  {
    Widths();
    match v
    case Int32(n) => LittleSigned(n, 4)
    case Date(n) => LittleSigned(n, 4)
    case Int64(n) => LittleSigned(n, 8)
    case Timestamp(n) => LittleSigned(n, 8)
    case Dec(d) => LittleSigned(d.mantissa, 8)
    case Boolean(b) => [if b then 0x01 else 0x00]
    case Char(s) => Pad(s, ty.width)
    case Varchar(s) => WithLength(s)
    case Bytes(b) => WithLength(b)
  }

  function LoadFixed(bytes: seq<Byte>, k: nat): (r: Result<int, Error>)
    requires k > 0
    ensures r.Ok? ==> Fits(r.value, k) && k <= |bytes|
  {
    if |bytes| < k then Err(StorageCorrupted) else Ok(FromLittleSigned(bytes[..k]))
  }

  function Load4(bytes: seq<Byte>): (r: Result<i32, Error>)
    ensures r.Ok? ==> 4 <= |bytes|
  {
    Widths();
    LoadFixed(bytes, 4)
  }

  function Load8(bytes: seq<Byte>): (r: Result<i64, Error>)
    ensures r.Ok? ==> 8 <= |bytes|
  {
    Widths();
    LoadFixed(bytes, 8)
  }

  function LoadVariable(bytes: seq<Byte>): (r: Result<seq<Byte>, Error>)
    ensures r.Ok? ==> 2 + |r.value| <= |bytes|
  {
    if |bytes| < 2 then Err(StorageCorrupted)
    else
      var len := FromLittleEndian(bytes[..2]);
      if |bytes| < 2 + len then Err(StorageCorrupted) else Ok(bytes[2..2 + len])
  }

  function LoadPadded(bytes: seq<Byte>, width: nat): (r: Result<Text, Error>)
    ensures r.Ok? ==> width <= |bytes|
  {
    if |bytes| < width || !ValidUtf8(Trim(bytes[..width])) then Err(StorageCorrupted) else Ok(Trim(bytes[..width]))
  }

  function LoadText(bytes: seq<Byte>): (r: Result<Text, Error>)
    ensures r.Ok? ==> 2 + |r.value| <= |bytes|
  {
    match LoadVariable(bytes)
    case Ok(s) => if ValidUtf8(s) then Ok(s) else Err(StorageCorrupted)
    case Err(e) => Err(e)
  }

  function LoadInteger(ty: ColumnType, bytes: seq<Byte>): (r: Result<(Value, nat), Error>)
    ensures r.Ok? ==> r.value.1 <= |bytes| && !r.value.0.Null? && r.value.0.Matches(ty)
  {
    match ty
    case TInt32 => (match Load4(bytes) case Ok(n) => Ok((Int32(n), 4)) case Err(e) => Err(e))
    case TDate => (match Load4(bytes) case Ok(n) => Ok((Date(n), 4)) case Err(e) => Err(e))
    case TInt64 => (match Load8(bytes) case Ok(n) => Ok((Int64(n), 8)) case Err(e) => Err(e))
    case TTimestamp => (match Load8(bytes) case Ok(n) => Ok((Timestamp(n), 8)) case Err(e) => Err(e))
    case TDecimal(_, scale) => (match Load8(bytes) case Ok(n) => Ok((Dec(Decimal(n, scale)), 8)) case Err(e) => Err(e))
    case _ => Err(StorageCorrupted)
  }

  function Load(ty: ColumnType, bytes: seq<Byte>): (r: Result<(Value, nat), Error>)
    ensures r.Ok? ==> r.value.1 <= |bytes| && !r.value.0.Null? && r.value.0.Matches(ty)
  {
    match ty
    case TBoolean =>
      if bytes == [] || bytes[0] > 0x01 then Err(StorageCorrupted) else Ok((Boolean(bytes[0] == 0x01), 1))
    case TChar(width) => (match LoadPadded(bytes, width) case Ok(s) => Ok((Char(s), width)) case Err(e) => Err(e))
    case TVarchar(_) => (match LoadText(bytes) case Ok(s) => Ok((Varchar(s), 2 + |s|)) case Err(e) => Err(e))
    case TBytes(_) => (match LoadVariable(bytes) case Ok(s) => Ok((Bytes(s), 2 + |s|)) case Err(e) => Err(e))
    case _ => LoadInteger(ty, bytes)
  }

  /** `value_byte_size`: how far to skip, without checking that so many bytes are there. */
  function SizeOf(ty: ColumnType, bytes: seq<Byte>): Result<nat, Error> {
    match ty
    case TInt32 => Ok(4)
    case TDate => Ok(4)
    case TInt64 => Ok(8)
    case TTimestamp => Ok(8)
    case TDecimal(_, _) => Ok(8)
    case TBoolean => Ok(1)
    case TChar(width) => Ok(width)
    case TVarchar(_) => if |bytes| < 2 then Err(StorageCorrupted) else Ok(2 + FromLittleEndian(bytes[..2]))
    case TBytes(_) => if |bytes| < 2 then Err(StorageCorrupted) else Ok(2 + FromLittleEndian(bytes[..2]))
  }

  lemma VariableRoundTrip(s: seq<Byte>, rest: seq<Byte>)
    requires |s| < 0x1_0000
    ensures LoadVariable(WithLength(s) + rest) == Ok(s)
  {
    var bytes := WithLength(s) + rest;
    assert Pow256(2) == 0x1_0000;
    LittleEndianRoundTrip(|s|, 2);
    assert bytes[..2] == LittleEndian(|s|, 2);
    assert bytes[2..2 + |s|] == s;
  }

  lemma FixedRoundTrip(n: int, k: nat, rest: seq<Byte>)
    requires k > 0 && Fits(n, k)
    ensures LoadFixed(LittleSigned(n, k) + rest, k) == Ok(n)
  {
    LittleSignedRoundTrip(n, k);
    hide LittleSigned, FromLittleSigned;
    assert (LittleSigned(n, k) + rest)[..k] == LittleSigned(n, k);
  }

  lemma PaddedRoundTrip(s: Text, width: nat, rest: seq<Byte>)
    requires 0 !in s && |s| <= width
    ensures LoadPadded(Pad(s, width) + rest, width) == Ok(s)
  {
    TrimZeros(s, width - |s|);
    assert s != [] ==> s[|s| - 1] in s;
    hide ValidUtf8;
    assert (Pad(s, width) + rest)[..width] == Pad(s, width);
  }

  lemma TextRoundTrip(s: Text, rest: seq<Byte>)
    requires |s| < 0x1_0000
    ensures LoadText(WithLength(s) + rest) == Ok(s)
  {
    hide ValidUtf8, WithLength;
    VariableRoundTrip(s, rest);
  }

  lemma LoadStored(v: Value, ty: ColumnType, rest: seq<Byte>)
    requires !v.Null? && v.Matches(ty) && Storable(v, ty)
    ensures Load(ty, Stored(v, ty) + rest) == Ok((v, |Stored(v, ty)|))
  {
    hide LoadFixed, LoadVariable, LoadPadded, LoadText, LittleSigned, WithLength, Pad, ValidUtf8;
    Widths();
    match v {
      case Int32(n) => FixedRoundTrip(n, 4, rest);
      case Date(n) => FixedRoundTrip(n, 4, rest);
      case Int64(n) => FixedRoundTrip(n, 8, rest);
      case Timestamp(n) => FixedRoundTrip(n, 8, rest);
      case Dec(d) => FixedRoundTrip(d.mantissa, 8, rest);
      case Boolean(b) =>
      case Char(s) => PaddedRoundTrip(s, ty.width, rest);
      case Varchar(s) => TextRoundTrip(s, rest);
      case Bytes(b) => VariableRoundTrip(b, rest);
    }
  }

  /** Skipping agrees with decoding. */
  lemma SizeAgrees(ty: ColumnType, bytes: seq<Byte>)
    requires Load(ty, bytes).Ok?
    ensures SizeOf(ty, bytes) == Ok(Load(ty, bytes).value.1)
  {
  }

  // ---- rows -----------------------------------------------------------------------------

  predicate AllStorable(tys: seq<ColumnType>, vs: seq<Value>) {
    |tys| == |vs| && forall i | 0 <= i < |vs| :: Storable(vs[i], tys[i])
  }

  /** The bytes of the first `k` values. */
  function Body(tys: seq<ColumnType>, vs: seq<Value>, k: nat): seq<Byte>
    requires k <= |vs| == |tys| && forall i | 0 <= i < k :: Storable(vs[i], tys[i])
  {
    if k == 0 then []
    else Body(tys, vs, k - 1) + if vs[k - 1].Null? then [] else Stored(vs[k - 1], tys[k - 1])
  }

  function EncodeTuple(tys: seq<ColumnType>, vs: seq<Value>): Result<seq<Byte>, Error> {
    if AllStorable(tys, vs) then Ok(Bitmap(vs, |vs|) + Body(tys, vs, |vs|)) else Err(StorageCorrupted)
  }

  function Prefixed(v: Value, r: Result<seq<Value>, Error>): Result<seq<Value>, Error> {
    match r
    case Ok(vs) => Ok([v] + vs)
    case Err(e) => Err(e)
  }

  /** Columns `i` onwards, read from `bytes`. */
  function DecodeFrom(tys: seq<ColumnType>, bitmap: seq<Byte>, bytes: seq<Byte>, i: nat): Result<seq<Value>, Error>
    requires i <= |tys| && BitmapLength(|tys|) <= |bitmap|
    decreases |tys| - i
  {
    if i == |tys| then
      if bytes == [] then Ok([]) else Err(StorageCorrupted)
    else if IsNull(bitmap, i) then Prefixed(Null, DecodeFrom(tys, bitmap, bytes, i + 1))
    else match Load(tys[i], bytes)
      case Err(e) => Err(e)
      case Ok((v, n)) => Prefixed(v, DecodeFrom(tys, bitmap, bytes[n..], i + 1))
  }

  function DecodeTuple(tys: seq<ColumnType>, bytes: seq<Byte>): Result<seq<Value>, Error> {
    var len := BitmapLength(|tys|);
    if |bytes| < len then Err(StorageCorrupted) else DecodeFrom(tys, bytes[..len], bytes[len..], 0)
  }

  lemma NextNull(tys: seq<ColumnType>, vs: seq<Value>, i: nat)
    requires i < |vs| == |tys| && (forall j | 0 <= j < i :: Storable(vs[j], tys[j])) && vs[i].Null?
    ensures Storable(vs[i], tys[i])
    ensures Bitmap(vs, i + 1) == SetNull(Bitmap(vs, i), i) && Body(tys, vs, i + 1) == Body(tys, vs, i)
  {
  }

  lemma NextValue(tys: seq<ColumnType>, vs: seq<Value>, i: nat)
    requires i < |vs| == |tys| && (forall j | 0 <= j <= i :: Storable(vs[j], tys[j])) && !vs[i].Null?
    ensures Bitmap(vs, i + 1) == Bitmap(vs, i)
    ensures Body(tys, vs, i + 1) == Body(tys, vs, i) + Stored(vs[i], tys[i])
  {
  }

  lemma StartRow(tys: seq<ColumnType>, vs: seq<Value>)
    requires |tys| == |vs|
    ensures Bitmap(vs, 0) == Zeros(BitmapLength(|tys|)) && Body(tys, vs, 0) == []
  {
  }

  method EncodeRow(tys: seq<ColumnType>, vs: seq<Value>) returns (r: Result<seq<Byte>, Error>)
    ensures r == EncodeTuple(tys, vs)
  {
    if |tys| != |vs| {
      return Err(StorageCorrupted);
    }
    r := EncodeColumns(tys, vs);
  }

  method EncodeColumns(tys: seq<ColumnType>, vs: seq<Value>) returns (r: Result<seq<Byte>, Error>)
    requires |tys| == |vs|
    ensures r.Err? <==> exists i | 0 <= i < |vs| :: !Storable(vs[i], tys[i])
    ensures r.Ok? ==> r.value == Bitmap(vs, |vs|) + Body(tys, vs, |vs|)
    ensures r.Err? ==> r.error == StorageCorrupted
  {
    hide *;
    var len := BitmapLength(|tys|);
    var out := Zeros(len);
    StartRow(tys, vs);
    for i := 0 to |vs|
      invariant forall j | 0 <= j < i :: Storable(vs[j], tys[j])
      invariant out == Bitmap(vs, i) + Body(tys, vs, i)
    {
      if vs[i].Null? {
        BitmapCovers(|tys|, i);
        Halves(Bitmap(vs, i), Body(tys, vs, i));
        out := SetNull(out[..len], i) + out[len..];
        NextNull(tys, vs, i);
        continue;
      }
      if !Storable(vs[i], tys[i]) {
        return Err(StorageCorrupted);
      }
      out := out + Stored(vs[i], tys[i]);
      NextValue(tys, vs, i);
      Associate(Bitmap(vs, i), Body(tys, vs, i), Stored(vs[i], tys[i]));
    }
    r := Ok(out);
  }

  ghost function After(done: seq<Value>, r: Result<seq<Value>, Error>): Result<seq<Value>, Error> {
    match r
    case Ok(vs) => Ok(done + vs)
    case Err(e) => Err(e)
  }

  lemma AfterPrefixed(done: seq<Value>, v: Value, r: Result<seq<Value>, Error>)
    ensures After(done, Prefixed(v, r)) == After(done + [v], r)
  {
    if r.Ok? { assert done + ([v] + r.value) == done + [v] + r.value; }
  }

  /** One step of `DecodeFrom`. */
  lemma DecodeStep(tys: seq<ColumnType>, bitmap: seq<Byte>, bytes: seq<Byte>, i: nat, done: seq<Value>)
    requires i < |tys| && BitmapLength(|tys|) <= |bitmap|
    ensures IsNull(bitmap, i) ==>
              After(done, DecodeFrom(tys, bitmap, bytes, i)) == After(done + [Null], DecodeFrom(tys, bitmap, bytes, i + 1))
    ensures !IsNull(bitmap, i) && Load(tys[i], bytes).Err? ==>
              After(done, DecodeFrom(tys, bitmap, bytes, i)) == Err(Load(tys[i], bytes).error)
    ensures !IsNull(bitmap, i) && Load(tys[i], bytes).Ok? ==>
              var (v, n) := Load(tys[i], bytes).value;
              After(done, DecodeFrom(tys, bitmap, bytes, i)) == After(done + [v], DecodeFrom(tys, bitmap, bytes[n..], i + 1))
  {
    hide Load, IsNull;
    if IsNull(bitmap, i) {
      AfterPrefixed(done, Null, DecodeFrom(tys, bitmap, bytes, i + 1));
    } else if Load(tys[i], bytes).Ok? {
      var (v, n) := Load(tys[i], bytes).value;
      AfterPrefixed(done, v, DecodeFrom(tys, bitmap, bytes[n..], i + 1));
    }
  }

  lemma StartDecode(tys: seq<ColumnType>, bytes: seq<Byte>)
    ensures var len := BitmapLength(|tys|);
      DecodeTuple(tys, bytes) ==
      if |bytes| < len then Err(StorageCorrupted) else After([], DecodeFrom(tys, bytes[..len], bytes[len..], 0))
  {
    var len := BitmapLength(|tys|);
    if |bytes| >= len {
      var r := DecodeFrom(tys, bytes[..len], bytes[len..], 0);
      assert r.Ok? ==> [] + r.value == r.value;
    }
  }

  method DecodeRow(tys: seq<ColumnType>, bytes: seq<Byte>) returns (r: Result<seq<Value>, Error>)
    ensures r == DecodeTuple(tys, bytes)
  {
    hide *;
    StartDecode(tys, bytes);
    var len := BitmapLength(|tys|);
    if |bytes| < len {
      return Err(StorageCorrupted);
    }
    var bitmap, cursor, out: seq<Value> := bytes[..len], len, [];
    for i := 0 to |tys|
      invariant len <= cursor <= |bytes|
      invariant DecodeTuple(tys, bytes) == After(out, DecodeFrom(tys, bitmap, bytes[cursor..], i))
    {
      BitmapCovers(|tys|, i);
      DecodeStep(tys, bitmap, bytes[cursor..], i, out);
      if IsNull(bitmap, i) {
        out := out + [Null];
        continue;
      }
      var one := Load(tys[i], bytes[cursor..]);
      if one.Err? {
        return Err(one.error);
      }
      var (v, consumed) := one.value;
      assert bytes[cursor..][consumed..] == bytes[cursor + consumed..];
      out, cursor := out + [v], cursor + consumed;
    }
    DecodeEnd(tys, bitmap, bytes[cursor..], out);
    if cursor != |bytes| {
      return Err(StorageCorrupted);
    }
    r := Ok(out);
  }

  lemma DecodeEnd(tys: seq<ColumnType>, bitmap: seq<Byte>, bytes: seq<Byte>, done: seq<Value>)
    requires BitmapLength(|tys|) <= |bitmap|
    ensures After(done, DecodeFrom(tys, bitmap, bytes, |tys|)) == if bytes == [] then Ok(done) else Err(StorageCorrupted)
  {
    assert done + [] == done;
  }

  /** Every well-typed row decodes to itself. */
  lemma RowRoundTrip(tys: seq<ColumnType>, vs: seq<Value>)
    requires AllStorable(tys, vs) && forall i | 0 <= i < |vs| :: vs[i].Matches(tys[i])
    ensures DecodeTuple(tys, EncodeTuple(tys, vs).value) == Ok(vs)
  {
    BodyRoundTrip(tys, vs, 0);
    BodySplits(tys, vs, 0);
    hide Bitmap, BodyFrom, DecodeFrom, Storable;
    var m, b := Bitmap(vs, |vs|), Body(tys, vs, |vs|);
    assert (m + b)[..|m|] == m && (m + b)[|m|..] == b;
    assert b == BodyFrom(tys, vs, 0) && vs[0..] == vs;
  }

  /** The bytes of columns `i` onwards. */
  ghost function BodyFrom(tys: seq<ColumnType>, vs: seq<Value>, i: nat): seq<Byte>
    requires i <= |vs| && AllStorable(tys, vs)
    decreases |vs| - i
  {
    if i == |vs| then []
    else (if vs[i].Null? then [] else Stored(vs[i], tys[i])) + BodyFrom(tys, vs, i + 1)
  }

  lemma {:induction false} BodySplits(tys: seq<ColumnType>, vs: seq<Value>, k: nat)
    requires k <= |vs| && AllStorable(tys, vs)
    ensures Body(tys, vs, |vs|) == Body(tys, vs, k) + BodyFrom(tys, vs, k)
    decreases |vs| - k
  {
    hide Storable, Stored;
    if k == |vs| {
      assert Body(tys, vs, k) + [] == Body(tys, vs, k);
    } else {
      BodySplits(tys, vs, k + 1);
      var one := if vs[k].Null? then [] else Stored(vs[k], tys[k]);
      assert Body(tys, vs, k + 1) == Body(tys, vs, k) + one;
      assert Body(tys, vs, k) + one + BodyFrom(tys, vs, k + 1) == Body(tys, vs, k) + (one + BodyFrom(tys, vs, k + 1));
    }
  }

  lemma {:induction false} BodyRoundTrip(tys: seq<ColumnType>, vs: seq<Value>, i: nat)
    requires i <= |vs| && AllStorable(tys, vs) && forall j | 0 <= j < |vs| :: vs[j].Matches(tys[j])
    ensures DecodeFrom(tys, Bitmap(vs, |vs|), BodyFrom(tys, vs, i), i) == Ok(vs[i..])
    decreases |vs| - i
  {
    hide Load, Stored, Bitmap, IsNull, Storable;
    if i < |vs| {
      BitmapBits(vs, |vs|, i);
      BodyRoundTrip(tys, vs, i + 1);
      assert vs[i..] == [vs[i]] + vs[i + 1..];
      var rest := BodyFrom(tys, vs, i + 1);
      if !vs[i].Null? {
        LoadStored(vs[i], tys[i], rest);
        assert (Stored(vs[i], tys[i]) + rest)[|Stored(vs[i], tys[i])|..] == rest;
      } else {
        assert [] + rest == rest;
      }
    } else {
      assert vs[i..] == [];
    }
  }

  // ---- one column ---------------------------------------------------------------------------

  /** Column `col`, when columns `i` onwards are at `bytes`: earlier columns are skipped, not decoded. */
  function ColumnFrom(tys: seq<ColumnType>, bitmap: seq<Byte>, bytes: seq<Byte>, i: nat, col: nat): Result<Value, Error>
    requires i <= col < |tys| && BitmapLength(|tys|) <= |bitmap|
    decreases col - i
  {
    if i == col then
      match Load(tys[i], bytes)
      case Ok((v, _)) => Ok(v)
      case Err(e) => Err(e)
    else if IsNull(bitmap, i) then ColumnFrom(tys, bitmap, bytes, i + 1, col)
    else match SizeOf(tys[i], bytes)
      case Err(e) => Err(e)
      case Ok(n) => if n > |bytes| then Err(StorageCorrupted) else ColumnFrom(tys, bitmap, bytes[n..], i + 1, col)
  }

  function Column(tys: seq<ColumnType>, bytes: seq<Byte>, col: nat): Result<Value, Error> {
    var len := BitmapLength(|tys|);
    if col >= |tys| || |bytes| < len then Err(StorageCorrupted)
    else if IsNull(bytes[..len], col) then Ok(Null)
    else ColumnFrom(tys, bytes[..len], bytes[len..], 0, col)
  }

  /** What is left to compute when the cursor may have run past the end. */
  ghost function Rest(tys: seq<ColumnType>, bitmap: seq<Byte>, bytes: seq<Byte>, cursor: nat, i: nat, col: nat)
    : Result<Value, Error>
    requires i <= col < |tys| && BitmapLength(|tys|) <= |bitmap|
  {
    if cursor > |bytes| then Err(StorageCorrupted) else ColumnFrom(tys, bitmap, bytes[cursor..], i, col)
  }

  /** `decode_column`. */
  method DecodeColumn(tys: seq<ColumnType>, bytes: seq<Byte>, col: nat) returns (r: Result<Value, Error>)
    ensures r == Column(tys, bytes, col)
  {
    var len := BitmapLength(|tys|);
    if col >= |tys| || |bytes| < len {
      return Err(StorageCorrupted);
    }
    var bitmap := bytes[..len];
    if IsNull(bitmap, col) {
      return Ok(Null);
    }
    hide Load, SizeOf, IsNull;
    var cursor: nat, i: nat := len, 0;
    while i < col
      invariant i <= col
      invariant Rest(tys, bitmap, bytes, cursor, i, col) == Column(tys, bytes, col)
    {
      if !IsNull(bitmap, i) {
        if cursor > |bytes| {
          return Err(StorageCorrupted);
        }
        var size := SizeOf(tys[i], bytes[cursor..]);
        if size.Err? {
          return Err(size.error);
        }
        assert cursor + size.value <= |bytes| ==> bytes[cursor..][size.value..] == bytes[cursor + size.value..];
        cursor := cursor + size.value;
      }
      i := i + 1;
    }
    if cursor > |bytes| {
      return Err(StorageCorrupted);
    }
    var one := Load(tys[col], bytes[cursor..]);
    r := if one.Ok? then Ok(one.value.0) else Err(one.error);
  }

  lemma {:induction false} ColumnFromAgrees(tys: seq<ColumnType>, bitmap: seq<Byte>, bytes: seq<Byte>, i: nat, col: nat)
    requires i <= col < |tys| && BitmapLength(|tys|) <= |bitmap| && !IsNull(bitmap, col)
    requires DecodeFrom(tys, bitmap, bytes, i).Ok?
    ensures var vs := DecodeFrom(tys, bitmap, bytes, i).value;
      |vs| == |tys| - i && ColumnFrom(tys, bitmap, bytes, i, col) == Ok(vs[col - i])
    decreases col - i
  {
    hide Load, SizeOf, IsNull;
    DecodedLength(tys, bitmap, bytes, i);
    if i < col {
      if IsNull(bitmap, i) {
        ColumnFromAgrees(tys, bitmap, bytes, i + 1, col);
      } else {
        SizeAgrees(tys[i], bytes);
        ColumnFromAgrees(tys, bitmap, bytes[Load(tys[i], bytes).value.1..], i + 1, col);
      }
    }
  }

  lemma {:induction false} DecodedLength(tys: seq<ColumnType>, bitmap: seq<Byte>, bytes: seq<Byte>, i: nat)
    requires i <= |tys| && BitmapLength(|tys|) <= |bitmap| && DecodeFrom(tys, bitmap, bytes, i).Ok?
    ensures |DecodeFrom(tys, bitmap, bytes, i).value| == |tys| - i
    decreases |tys| - i
  {
    hide Load, IsNull;
    if i < |tys| {
      if IsNull(bitmap, i) {
        DecodedLength(tys, bitmap, bytes, i + 1);
      } else {
        DecodedLength(tys, bitmap, bytes[Load(tys[i], bytes).value.1..], i + 1);
      }
    }
  }

  lemma {:induction false} DecodedNull(tys: seq<ColumnType>, bitmap: seq<Byte>, bytes: seq<Byte>, i: nat, col: nat)
    requires i <= col < |tys| && BitmapLength(|tys|) <= |bitmap| && IsNull(bitmap, col)
    requires DecodeFrom(tys, bitmap, bytes, i).Ok?
    ensures var vs := DecodeFrom(tys, bitmap, bytes, i).value; |vs| == |tys| - i && vs[col - i] == Null
    decreases col - i
  {
    DecodedLength(tys, bitmap, bytes, i);
    hide Load, IsNull;
    if i < col {
      if IsNull(bitmap, i) {
        DecodedNull(tys, bitmap, bytes, i + 1, col);
      } else {
        DecodedNull(tys, bitmap, bytes[Load(tys[i], bytes).value.1..], i + 1, col);
      }
    }
  }

  /** On any bytes that decode, reading one column gives the value that decoding the row gives. */
  lemma ColumnAgrees(tys: seq<ColumnType>, bytes: seq<Byte>, col: nat)
    requires DecodeTuple(tys, bytes).Ok? && col < |tys|
    ensures var vs := DecodeTuple(tys, bytes).value; |vs| == |tys| && Column(tys, bytes, col) == Ok(vs[col])
  {
    var len := BitmapLength(|tys|);
    if IsNull(bytes[..len], col) {
      DecodedNull(tys, bytes[..len], bytes[len..], 0, col);
    } else {
      ColumnFromAgrees(tys, bytes[..len], bytes[len..], 0, col);
    }
  }
}

/** Column types and runtime values. */
module Values {
  import opened ByteOrder

  type i32 = x: int | -0x8000_0000 <= x < 0x8000_0000
  type i64 = x: int | -0x8000_0000_0000_0000 <= x < 0x8000_0000_0000_0000
  type u16 = x: int | 0 <= x < 0x1_0000

  const MAX_SCALE := 18
  type Scale = x: int | 0 <= x <= MAX_SCALE

  function Pow10(n: nat): (p: nat)
    ensures p > 0
  {
    if n == 0 then 1 else 10 * Pow10(n - 1)
  }

  /** A fixed-scale decimal: `mantissa` divided by ten to the `scale`. */
  datatype Decimal = Decimal(mantissa: i64, scale: Scale)

  datatype ColumnType =
    | TInt32 | TInt64 | TVarchar(max: u16) | TChar(width: u16) | TBytes(max: u16)
    | TDecimal(precision: nat, scale: Scale) | TTimestamp | TBoolean | TDate

  datatype Value =
    | Null | Int32(n: i32) | Int64(m: i64) | Varchar(text: Text) | Char(text: Text) | Bytes(bytes: seq<Byte>)
    | Dec(decimal: Decimal) | Timestamp(micros: i64) | Boolean(truth: bool) | Date(days: i32)
  {
    /** The runtime variant agrees with the column type, and a decimal has the column's scale. */
    predicate Matches(ty: ColumnType) {
      match this
      case Null => true
      case Int32(_) => ty.TInt32?
      case Int64(_) => ty.TInt64?
      case Varchar(_) => ty.TVarchar?
      case Char(_) => ty.TChar?
      case Bytes(_) => ty.TBytes?
      case Dec(d) => ty.TDecimal? && d.scale == ty.scale
      case Timestamp(_) => ty.TTimestamp?
      case Boolean(_) => ty.TBoolean?
      case Date(_) => ty.TDate?
    }
  }

  // ---- UTF-8 (table 3-7 of the Unicode Standard) ----------------------------------

  predicate Continuation(b: Byte) {
    0x80 <= b <= 0xBF
  }

  /** The length of the well-formed code unit sequence `s` starts with, or 0. */
  function LeadLength(s: seq<Byte>): (n: nat)
    ensures n <= |s|
  {
    if s == [] then 0
    else if s[0] < 0x80 then 1
    else if 0xC2 <= s[0] <= 0xDF then
      if |s| >= 2 && Continuation(s[1]) then 2 else 0
    else if 0xE0 <= s[0] <= 0xEF then
      if && |s| >= 3 && Continuation(s[1]) && Continuation(s[2])
         && (s[0] == 0xE0 ==> s[1] >= 0xA0) && (s[0] == 0xED ==> s[1] <= 0x9F)
      then 3 else 0
    else if 0xF0 <= s[0] <= 0xF4 then
      if && |s| >= 4 && Continuation(s[1]) && Continuation(s[2]) && Continuation(s[3])
         && (s[0] == 0xF0 ==> s[1] >= 0x90) && (s[0] == 0xF4 ==> s[1] <= 0x8F)
      then 4 else 0
    else 0
  }

  predicate ValidUtf8(s: seq<Byte>) {
    s == [] || (LeadLength(s) > 0 && ValidUtf8(s[LeadLength(s)..]))
  }

  /** The bytes of a string. */
  type Text = s: seq<Byte> | ValidUtf8(s)
}

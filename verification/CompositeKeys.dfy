/** Composite keys as a whole: order embedding, prefix-freeness, round trip, and the ranges scans use. */
module CompositeKeys {
  import opened Common
  import opened ByteOrder
  import opened Values
  import opened KeyEncoding

  ghost predicate AllMatch(vs: seq<Value>, tys: seq<ColumnType>) {
    |vs| == |tys| && forall i | 0 <= i < |vs| :: vs[i].Matches(tys[i])
  }

  predicate AllEncodable(vs: seq<Value>, tys: seq<ColumnType>) {
    |vs| == |tys| && forall i | 0 <= i < |vs| :: Encodable(vs[i], tys[i])
  }

  predicate AllShaped(vs: seq<Value>, tys: seq<ColumnType>) {
    |vs| == |tys| && forall i | 0 <= i < |vs| :: SameShape(vs[i], tys[i])
  }

  /** The components one after another. */
  function Key(vs: seq<Value>, tys: seq<ColumnType>): seq<Byte>
    requires AllShaped(vs, tys)
  {
    if vs == [] then [] else Component(vs[0], tys[0]) + Key(vs[1..], tys[1..])
  }

  function Encode(vs: seq<Value>, tys: seq<ColumnType>): Result<seq<Byte>, Error> {
    if AllEncodable(vs, tys) then Ok(Key(vs, tys)) else Err(StorageCorrupted)
  }

  function Decode(bytes: seq<Byte>, tys: seq<ColumnType>): Result<seq<Value>, Error> {
    if tys == [] then
      if bytes == [] then Ok([]) else Err(StorageCorrupted)
    else match DecodeOne(bytes, tys[0])
      case Err(e) => Err(e)
      case Ok((v, n)) =>
        match Decode(bytes[n..], tys[1..])
        case Err(e) => Err(e)
        case Ok(vs) => Ok([v] + vs)
  }

  // ---- the code ---------------------------------------------------------------------

  method EncodePayloadInto(v: Value, ty: ColumnType, buffer: seq<Byte>) returns (out: seq<Byte>)
    requires !v.Null? && Encodable(v, ty)
    ensures out == buffer + Payload(v, ty)
  {
    if v.Varchar? {
      out := EscapeInto(v.text, buffer);
    } else if v.Bytes? {
      out := EscapeInto(v.bytes, buffer);
    } else if v.Char? {
      out := buffer + v.text;
      out := out + Zeros(ty.width - |v.text|);
      assert out == buffer + Pad(v.text, ty.width);
    } else {
      out := buffer + Payload(v, ty);
    }
  }

  /** `encode_one`: appends one component to the buffer. */
  method EncodeOneInto(v: Value, ty: ColumnType, buffer: seq<Byte>) returns (r: Result<seq<Byte>, Error>)
    ensures r == if Encodable(v, ty) then Ok(buffer + Component(v, ty)) else Err(StorageCorrupted)
  {
    if v.Null? {
      return Ok(buffer + [NULL_SENTINEL]);
    }
    if !Encodable(v, ty) {
      return Err(StorageCorrupted);
    }
    hide Encodable, Payload;
    var out := EncodePayloadInto(v, ty, buffer + [PRESENT_SENTINEL]);
    assert out == buffer + ([PRESENT_SENTINEL] + Payload(v, ty));
    r := Ok(out);
  }

  method EncodeKeyComponents(vs: seq<Value>, tys: seq<ColumnType>) returns (r: Result<seq<Byte>, Error>)
    ensures r == Encode(vs, tys)
  {
    if |vs| != |tys| {
      return Err(StorageCorrupted);
    }
    hide Encodable, SameShape, Component;
    var out: seq<Byte> := [];
    for i := 0 to |vs|
      invariant AllEncodable(vs[..i], tys[..i]) && out == Key(vs[..i], tys[..i])
    {
      var step := EncodeOneInto(vs[i], tys[i], out);
      if step.Err? {
        return Err(step.error);
      }
      out := step.value;
      KeyAppend(vs[..i], tys[..i], vs[i], tys[i]);
      assert vs[..i + 1] == vs[..i] + [vs[i]] && tys[..i + 1] == tys[..i] + [tys[i]];
    }
    assert vs[..|vs|] == vs && tys[..|vs|] == tys;
    r := Ok(out);
  }

  ghost function Extend(done: seq<Value>, r: Result<seq<Value>, Error>): Result<seq<Value>, Error> {
    match r
    case Ok(vs) => Ok(done + vs)
    case Err(e) => Err(e)
  }

  method DecodeKeyComponents(bytes: seq<Byte>, tys: seq<ColumnType>) returns (r: Result<seq<Value>, Error>)
    ensures r == Decode(bytes, tys)
  {
    hide DecodeOne;
    var out: seq<Value>, cursor := [], 0;
    assert bytes[0..] == bytes && tys[0..] == tys;
    assert Decode(bytes, tys).Ok? ==> [] + Decode(bytes, tys).value == Decode(bytes, tys).value;
    for i := 0 to |tys|
      invariant 0 <= cursor <= |bytes|
      invariant Decode(bytes, tys) == Extend(out, Decode(bytes[cursor..], tys[i..]))
    {
      var one := DecodeOne(bytes[cursor..], tys[i]);
      if one.Err? {
        return Err(one.error);
      }
      var (v, consumed) := one.value;
      ghost var tail := Decode(bytes[cursor + consumed..], tys[i + 1..]);
      assert bytes[cursor..][consumed..] == bytes[cursor + consumed..] && tys[i..][1..] == tys[i + 1..];
      assert tail.Ok? ==> out + ([v] + tail.value) == out + [v] + tail.value;
      out := out + [v];
      cursor := cursor + consumed;
    }
    assert out + [] == out;
    if cursor != |bytes| {
      return Err(StorageCorrupted);
    }
    r := Ok(out);
  }

  // ---- concatenation ------------------------------------------------------------------

  lemma {:induction false} KeyConcat(a: seq<Value>, s: seq<ColumnType>, b: seq<Value>, t: seq<ColumnType>)
    requires AllShaped(a, s) && AllShaped(b, t)
    ensures AllShaped(a + b, s + t) && Key(a + b, s + t) == Key(a, s) + Key(b, t)
  {
    hide Component, SameShape;
    if a == [] {
      assert a + b == b && s + t == t;
    } else {
      KeyConcat(a[1..], s[1..], b, t);
      assert (a + b)[1..] == a[1..] + b && (s + t)[1..] == s[1..] + t;
    }
  }

  lemma KeyAppend(a: seq<Value>, s: seq<ColumnType>, v: Value, ty: ColumnType)
    requires AllShaped(a, s) && SameShape(v, ty)
    ensures AllShaped(a + [v], s + [ty]) && Key(a + [v], s + [ty]) == Key(a, s) + Component(v, ty)
  {
    KeyConcat(a, s, [v], [ty]);
    assert Key([v], [ty]) == Component(v, ty) + Key([], []);
  }

  // ---- main results -----------------------------------------------------------------------

  /** Different rows of one key type are apart, so no key is a prefix of another. */
  lemma {:induction false} KeysApart(a: seq<Value>, b: seq<Value>, tys: seq<ColumnType>)
    requires AllMatch(a, tys) && AllMatch(b, tys) && AllEncodable(a, tys) && AllEncodable(b, tys) && a != b
    ensures Apart(Key(a, tys), Key(b, tys))
  {
    var ta, tb := Key(a[1..], tys[1..]), Key(b[1..], tys[1..]);
    if a[0] == b[0] {
      assert a == [a[0]] + a[1..] && b == [b[0]] + b[1..];
      KeysApart(a[1..], b[1..], tys[1..]);
      ApartAfterPrefix(Component(a[0], tys[0]), ta, tb);
    } else {
      ComponentOrder(a[0], b[0], tys[0]);
      ApartExtends(Component(a[0], tys[0]), Component(b[0], tys[0]), ta, tb);
    }
  }

  /** Keys are ordered as bytes exactly as the rows are ordered as tuples. */
  lemma {:induction false} OrderEmbedding(a: seq<Value>, b: seq<Value>, tys: seq<ColumnType>)
    requires AllMatch(a, tys) && AllMatch(b, tys) && AllEncodable(a, tys) && AllEncodable(b, tys)
    ensures Below(Key(a, tys), Key(b, tys)) <==> TupleBelow(a, b)
    ensures Key(a, tys) == Key(b, tys) <==> a == b
  {
    if a != [] {
      var ta, tb := Key(a[1..], tys[1..]), Key(b[1..], tys[1..]);
      if a[0] == b[0] {
        OrderEmbedding(a[1..], b[1..], tys[1..]);
        SamePrefix(Component(a[0], tys[0]), ta, tb);
        NotBelowItself(a[0]);
      } else {
        ComponentOrder(a[0], b[0], tys[0]);
        ApartExtends(Component(a[0], tys[0]), Component(b[0], tys[0]), ta, tb);
      }
    }
    if a != b { KeysApart(a, b, tys); }
  }

  lemma NotBelowItself(v: Value)
    ensures !ValueBelow(v, v)
  {
    if v.Char? || v.Varchar? { Trichotomy(v.text, v.text); }
    if v.Bytes? { Trichotomy(v.bytes, v.bytes); }
  }

  lemma {:induction false} RoundTrip(vs: seq<Value>, tys: seq<ColumnType>)
    requires AllMatch(vs, tys) && AllEncodable(vs, tys)
    ensures Decode(Key(vs, tys), tys) == Ok(vs)
  {
    hide DecodeOne, Component, Encodable;
    if vs != [] {
      var rest := Key(vs[1..], tys[1..]);
      ComponentRoundTrip(vs[0], tys[0], rest);
      RoundTrip(vs[1..], tys[1..]);
      assert Key(vs, tys)[|Component(vs[0], tys[0])|..] == rest;
      assert vs == [vs[0]] + vs[1..];
    }
  }

  /** Whatever bytes decode to a row are the key of that row: the values determine the bytes. */
  lemma {:induction false} DecodedDetermines(bytes: seq<Byte>, tys: seq<ColumnType>)
    requires Decode(bytes, tys).Ok?
    ensures var vs := Decode(bytes, tys).value; AllMatch(vs, tys) && AllShaped(vs, tys) && bytes == Key(vs, tys)
  {
    hide DecodeOne, Component;
    if tys != [] {
      var (v, n) := DecodeOne(bytes, tys[0]).value;
      ComponentOnto(bytes, tys[0]);
      DecodedDetermines(bytes[n..], tys[1..]);
      assert bytes == bytes[..n] + bytes[n..];
      var vs := Decode(bytes, tys).value;
      assert vs[1..] == Decode(bytes[n..], tys[1..]).value;
    }
  }

  /** Two byte strings that decode to the same row are equal. */
  lemma DecodeInjective(x: seq<Byte>, y: seq<Byte>, tys: seq<ColumnType>)
    requires Decode(x, tys).Ok? && Decode(y, tys) == Decode(x, tys)
    ensures x == y
  {
    DecodedDetermines(x, tys);
    DecodedDetermines(y, tys);
  }

  /** A decoded row encodes back to its bytes exactly when none of its Char values has an inner zero byte. */
  lemma ReencodesIff(bytes: seq<Byte>, tys: seq<ColumnType>)
    requires Decode(bytes, tys).Ok?
    ensures var vs := Decode(bytes, tys).value;
      Encode(vs, tys) == Ok(bytes) <==> forall i | 0 <= i < |vs| && vs[i].Char? :: 0x00 !in vs[i].text
  {
    DecodedDetermines(bytes, tys);
    DecodedWidths(bytes, tys);
  }

  /** The bytes of a Char value with a zero inside decode, and do not encode again. */
  lemma InnerZeroIsLost()
    ensures var bytes: seq<Byte> := [0x01, 0x41, 0x00, 0x42];
      Decode(bytes, [TChar(3)]).Ok? && Encode(Decode(bytes, [TChar(3)]).value, [TChar(3)]) != Ok(bytes)
  {
    var bytes: seq<Byte> := [0x01, 0x41, 0x00, 0x42];
    assert bytes[1..] == [0x41, 0x00, 0x42] && bytes[4..] == [];
    ReencodesIff(bytes, [TChar(3)]);
  }

  lemma {:induction false} DecodedWidths(bytes: seq<Byte>, tys: seq<ColumnType>)
    requires Decode(bytes, tys).Ok?
    ensures var vs := Decode(bytes, tys).value;
      |vs| == |tys| && forall i | 0 <= i < |vs| && vs[i].Char? :: tys[i].TChar? && |vs[i].text| <= tys[i].width
  {
    if tys != [] {
      var (v, n) := DecodeOne(bytes, tys[0]).value;
      DecodedWidths(bytes[n..], tys[1..]);
    }
  }

  /** An index entry starts with the key of `b` exactly when its leading values are `b`. */
  lemma PrefixMeansEqual(a: seq<Value>, rest: seq<Byte>, b: seq<Value>, tys: seq<ColumnType>)
    requires AllMatch(a, tys) && AllMatch(b, tys) && AllEncodable(a, tys) && AllEncodable(b, tys)
    ensures Key(b, tys) <= Key(a, tys) + rest <==> a == b
  {
    if a != b {
      KeysApart(a, b, tys);
      ApartExtends(Key(a, tys), Key(b, tys), rest, []);
      assert Key(b, tys) + [] == Key(b, tys);
    }
  }

  /** A row's key starts with the key of `b` exactly when its leading values are `b`. */
  lemma LeadingMeansEqual(a: seq<Value>, b: seq<Value>, tys: seq<ColumnType>)
    requires AllMatch(a, tys) && AllEncodable(a, tys) && |b| <= |tys|
    requires AllMatch(b, tys[..|b|]) && AllEncodable(b, tys[..|b|])
    ensures Key(b, tys[..|b|]) <= Key(a, tys) <==> b <= a
  {
    hide *;
    var n := |b|;
    Halves(a, tys, n);
    KeyConcat(a[..n], tys[..n], a[n..], tys[n..]);
    assert a == a[..n] + a[n..] && tys == tys[..n] + tys[n..];
    PrefixMeansEqual(a[..n], Key(a[n..], tys[n..]), b, tys[..n]);
  }

  lemma Halves(a: seq<Value>, tys: seq<ColumnType>, n: nat)
    requires AllMatch(a, tys) && AllEncodable(a, tys) && n <= |tys|
    ensures |a| == |tys|
    ensures AllMatch(a[..n], tys[..n]) && AllEncodable(a[..n], tys[..n])
    ensures AllShaped(a[..n], tys[..n]) && AllShaped(a[n..], tys[n..])
  {
  }

  // ---- range bounds ------------------------------------------------------------------------

  /** `byte_increment`. */
  function ByteIncrement(b: seq<Byte>): (r: seq<Byte>) {
    b + [0x00]
  }

  /** Nothing lies strictly between a key and its increment. */
  lemma NothingBetween(b: seq<Byte>, k: seq<Byte>)
    ensures Below(k, ByteIncrement(b)) <==> AtMost(k, b)
  {
    var c := ByteIncrement(b);
    if b <= k {
      assert k == b + k[|b|..];
      SamePrefix(b, k[|b|..], [0x00]);
      PrefixBelow(b, k);
      assert k[|b|..] == [] <==> k == b;
    } else if k <= b {
      PrefixBelow(k, b);
      PrefixBelow(k, c);
    } else {
      ApartExtends(k, b, [], [0x00]);
      assert k + [] == k;
    }
  }

  ghost function Successor(p: seq<Byte>): Option<seq<Byte>> {
    if p == [] then None
    else if p[|p| - 1] < 0xFF then Some(p[..|p| - 1] + [p[|p| - 1] + 1])
    else Successor(p[..|p| - 1])
  }

  /** `prefix_increment`: pops trailing 0xFF bytes and increments the byte before them. */
  method PrefixIncrement(p: seq<Byte>) returns (r: Option<seq<Byte>>)
    ensures r == Successor(p)
  {
    var out := p;
    while out != []
      invariant Successor(out) == Successor(p)
      decreases |out|
    {
      ghost var before := out;
      var last := out[|out| - 1];
      if last < 0xFF {
        out := out[|out| - 1 := last + 1];
        assert out == before[..|before| - 1] + [last + 1];
        return Some(out);
      }
      out := out[..|out| - 1];
    }
    r := None;
  }

  lemma BumpedRange(front: seq<Byte>, x: Byte, k: seq<Byte>)
    requires x < 0xFF
    ensures InBounds(k, front + [x], Some(front + [x + 1])) <==> front + [x] <= k
  {
    var p, q := front + [x], front + [x + 1];
    if front <= k {
      var w := k[|front|..];
      assert k == front + w;
      SamePrefix(front, w, [x + 1]);
      SamePrefix(front, [x], w);
      assert p <= k <==> (w != [] && w[0] == x);
      assert p == k <==> [x] == w;
    } else if k <= p {
      PrefixBelow(k, p);
    } else {
      assert Apart(front, k) by { assert k <= front ==> k <= p; }
      ApartExtends(front, k, [x], []);
      ApartExtends(k, front, [], [x + 1]);
      assert k + [] == k;
      Trichotomy(front, k);
    }
  }

  /** Keys from `p` up to its increment, or without upper bound if it has none, are exactly the extensions of `p`. */
  lemma {:induction false} PrefixRange(p: seq<Byte>, k: seq<Byte>)
    ensures InBounds(k, p, Successor(p)) <==> p <= k
  {
    if p == [] {
      PrefixBelow(p, k);
    } else {
      var front, x := p[..|p| - 1], p[|p| - 1];
      assert p == front + [x];
      if x < 0xFF {
        BumpedRange(front, x, k);
      } else {
        PrefixRange(front, k);
        TopByteRange(front, k);
      }
    }
  }

  /** Below the extensions of `front`, 0xFF leaves no room. */
  lemma TopByteRange(front: seq<Byte>, k: seq<Byte>)
    ensures AtMost(front + [0xFF], k) ==> AtMost(front, k)
    ensures front <= k ==> (AtMost(front + [0xFF], k) <==> front + [0xFF] <= k)
    ensures front + [0xFF] <= k ==> front <= k && AtMost(front + [0xFF], k)
  {
    var p := front + [0xFF];
    PrefixBelow(front, p);
    if Below(p, k) { BelowTransitive(front, p, k); }
    if p <= k { PrefixBelow(p, k); }
    if front <= k {
      var w := k[|front|..];
      assert k == front + w;
      SamePrefix(front, [0xFF], w);
      assert p <= k <==> (w != [] && w[0] == 0xFF);
      assert p == k <==> [0xFF] == w;
    }
  }
}

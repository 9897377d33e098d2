/** Integers as fixed-width byte strings: big endian with the sign bit flipped, and little endian. */
module FixedWidth {
  import opened ByteOrder
  import opened Values

  function Pow256(k: nat): (p: nat)
    ensures p > 0
  {
    if k == 0 then 1 else 256 * Pow256(k - 1)
  }

  function BigEndian(u: nat, k: nat): (b: seq<Byte>)
    ensures |b| == k
  {
    if k == 0 then [] else BigEndian(u / 256, k - 1) + [u % 256]
  }

  function FromBigEndian(b: seq<Byte>): (u: nat)
    ensures u < Pow256(|b|)
  {
    if b == [] then 0 else FromBigEndian(b[..|b| - 1]) * 256 + b[|b| - 1]
  }

  lemma {:induction false} BigEndianRoundTrip(u: nat, k: nat)
    requires u < Pow256(k)
    ensures FromBigEndian(BigEndian(u, k)) == u
  {
    if k > 0 {
      BigEndianRoundTrip(u / 256, k - 1);
      assert BigEndian(u, k)[..k - 1] == BigEndian(u / 256, k - 1);
    }
  }

  lemma {:induction false} BigEndianOnto(b: seq<Byte>)
    ensures BigEndian(FromBigEndian(b), |b|) == b
  {
    if b != [] {
      BigEndianOnto(b[..|b| - 1]);
      assert b == b[..|b| - 1] + [b[|b| - 1]];
    }
  }

  lemma {:induction false} LastByte(a: seq<Byte>, b: seq<Byte>, x: Byte, y: Byte)
    requires |a| == |b|
    ensures Below(a + [x], b + [y]) <==> Below(a, b) || (a == b && x < y)
  {
    if a == b {
      SamePrefix(a, [x], [y]);
      Trichotomy(a, a);
    } else {
      SameLengthApart(a, b);
      ApartExtends(a, b, [x], [y]);
    }
  }

  lemma {:induction false} BigEndianOrder(u: nat, v: nat, k: nat)
    requires u < Pow256(k) && v < Pow256(k)
    ensures Below(BigEndian(u, k), BigEndian(v, k)) <==> u < v
  {
    if k > 0 {
      BigEndianOrder(u / 256, v / 256, k - 1);
      LastByte(BigEndian(u / 256, k - 1), BigEndian(v / 256, k - 1), u % 256, v % 256);
      if BigEndian(u / 256, k - 1) == BigEndian(v / 256, k - 1) {
        BigEndianRoundTrip(u / 256, k - 1);
        BigEndianRoundTrip(v / 256, k - 1);
      }
    }
  }

  /** Two's complement of `k` bytes can hold `n`. */
  predicate Fits(n: int, k: nat) {
    0 <= 2 * n + Pow256(k) && 2 * n < Pow256(k)
  }

  function Half(k: nat): (h: nat)
    requires k > 0
    ensures Pow256(k) == 2 * h
  {
    128 * Pow256(k - 1)
  }

  /** Reinterpreting a signed integer of `k` bytes as unsigned. */
  function Unsigned(n: int, k: nat): (u: nat)
    requires Fits(n, k)
    ensures u < Pow256(k)
  {
    if n < 0 then n + Pow256(k) else n
  }

  function Signed(u: nat, k: nat): (n: int)
    requires k > 0 && u < Pow256(k)
    ensures Fits(n, k)
  {
    if u >= Half(k) then u - Pow256(k) else u
  }

  lemma UnsignedRoundTrip(n: int, k: nat)
    requires k > 0 && Fits(n, k)
    ensures Signed(Unsigned(n, k), k) == n
  {
    assert Pow256(k) == 2 * Half(k);
  }

  /** Exclusive or with the sign mask. */
  function FlipSign(u: nat, k: nat): (f: nat)
    requires k > 0 && u < Pow256(k)
    ensures f < Pow256(k)
  {
    if u >= Half(k) then u - Half(k) else u + Half(k)
  }

  function EncodeSigned(n: int, k: nat): (b: seq<Byte>)
    requires k > 0 && Fits(n, k)
    ensures |b| == k
  {
    BigEndian(FlipSign(Unsigned(n, k), k), k)
  }

  function DecodeSigned(b: seq<Byte>): (n: int)
    requires |b| > 0
    ensures Fits(n, |b|)
  {
    Signed(FlipSign(FromBigEndian(b), |b|), |b|)
  }

  /** Flipping the sign bit of two's complement shifts the whole range up by half. */
  lemma FlipShifts(n: int, k: nat)
    requires k > 0 && Fits(n, k)
    ensures FlipSign(Unsigned(n, k), k) == n + Half(k)
  {
    assert Pow256(k) == 2 * Half(k);
  }

  lemma FlipTwice(u: nat, k: nat)
    requires k > 0 && u < Pow256(k)
    ensures FlipSign(FlipSign(u, k), k) == u
    ensures Unsigned(Signed(u, k), k) == u
  {
    assert Pow256(k) == 2 * Half(k);
  }

  lemma SignedRoundTrip(n: int, k: nat)
    requires k > 0 && Fits(n, k)
    ensures DecodeSigned(EncodeSigned(n, k)) == n
  {
    var u := Unsigned(n, k);
    BigEndianRoundTrip(FlipSign(u, k), k);
    FlipTwice(u, k);
    UnsignedRoundTrip(n, k);
  }

  lemma SignedOnto(b: seq<Byte>)
    requires |b| > 0
    ensures EncodeSigned(DecodeSigned(b), |b|) == b
  {
    var u := FromBigEndian(b);
    FlipTwice(FlipSign(u, |b|), |b|);
    FlipTwice(u, |b|);
    BigEndianOnto(b);
  }

  lemma SignedOrder(m: int, n: int, k: nat)
    requires k > 0 && Fits(m, k) && Fits(n, k)
    ensures Below(EncodeSigned(m, k), EncodeSigned(n, k)) <==> m < n
  {
    FlipShifts(m, k);
    FlipShifts(n, k);
    BigEndianOrder(FlipSign(Unsigned(m, k), k), FlipSign(Unsigned(n, k), k), k);
  }

  /** 32-bit and 64-bit integers are four and eight bytes wide. */
  lemma Widths()
    ensures forall n: i32 :: Fits(n, 4)
    ensures forall n: i64 :: Fits(n, 8)
    ensures forall n | Fits(n, 4) :: -0x8000_0000 <= n < 0x8000_0000
    ensures forall n | Fits(n, 8) :: -0x8000_0000_0000_0000 <= n < 0x8000_0000_0000_0000
  {
    assert Pow256(2) == 0x1_0000 && Pow256(4) == 0x1_0000 * Pow256(2);
    assert Pow256(6) == 0x1_0000 * Pow256(4) && Pow256(8) == 0x1_0000 * Pow256(6);
  }

  // ---- little endian ---------------------------------------------------------------

  function LittleEndian(u: nat, k: nat): (b: seq<Byte>)
    ensures |b| == k
  {
    if k == 0 then [] else [u % 256] + LittleEndian(u / 256, k - 1)
  }

  function FromLittleEndian(b: seq<Byte>): (u: nat)
    ensures u < Pow256(|b|)
  {
    if b == [] then 0 else b[0] + 256 * FromLittleEndian(b[1..])
  }

  lemma {:induction false} LittleEndianRoundTrip(u: nat, k: nat)
    requires u < Pow256(k)
    ensures FromLittleEndian(LittleEndian(u, k)) == u
  {
    if k > 0 {
      LittleEndianRoundTrip(u / 256, k - 1);
      assert LittleEndian(u, k)[1..] == LittleEndian(u / 256, k - 1);
    }
  }

  lemma {:induction false} LittleEndianOnto(b: seq<Byte>)
    ensures LittleEndian(FromLittleEndian(b), |b|) == b
  {
    if b != [] {
      LittleEndianOnto(b[1..]);
    }
  }
}

/** The free map of kernel/fs.c: one bit per disk block, packed into bytes of
    bitmap blocks. */
module Bitmap {
  import opened Params

  const BPB := BSIZE * 8

  type BitBlock = b: seq<bv8> | |b| == BSIZE witness seq(BSIZE, _ => 0)

  function Mask(k: int): bv8
    requires 0 <= k < 8
  {
    if k == 0 then 1 else if k == 1 then 2 else if k == 2 then 4 else if k == 3 then 8
    else if k == 4 then 16 else if k == 5 then 32 else if k == 6 then 64 else 128
  }

  predicate Has(x: bv8, k: int)
    requires 0 <= k < 8
  {
    x & Mask(k) != 0
  }

  function With(x: bv8, k: int): bv8
    requires 0 <= k < 8
  {
    x | Mask(k)
  }

  function Without(x: bv8, k: int): bv8
    requires 0 <= k < 8
  {
    x & !Mask(k)
  }

  // Bits in bytes as numbers.

  lemma LowBit(x: bv8)
    ensures x & 1 != 0 <==> x as int % 2 == 1
  {
  }

  lemma SecondBit(x: bv8)
    ensures x & 2 != 0 <==> x as int / 2 % 2 == 1
  {
  }

  lemma ThirdBit(x: bv8)
    ensures x & 4 != 0 <==> x as int / 4 % 2 == 1
  {
  }

  lemma FourthBit(x: bv8)
    ensures x & 8 != 0 <==> x as int / 8 % 2 == 1
  {
  }

  lemma HighBits(x: bv8)
    ensures x & 16 != 0 <==> x as int / 16 % 2 == 1
    ensures x & 32 != 0 <==> x as int / 32 % 2 == 1
    ensures x & 64 != 0 <==> x as int / 64 % 2 == 1
    ensures x & 128 != 0 <==> x as int / 128 % 2 == 1
  {
  }

  /** Bit k is worth two to the k. */
  lemma Numbers(x: bv8, k: int)
    requires 0 <= k < 8
    ensures Has(x, k) <==> x as int / [1, 2, 4, 8, 16, 32, 64, 128][k] % 2 == 1
  {
    LowBit(x);
    SecondBit(x);
    ThirdBit(x);
    FourthBit(x);
    HighBits(x);
  }

  lemma WithNumber(x: bv8, k: int)
    requires 0 <= k < 8 && !Has(x, k)
    ensures With(x, k) as int == x as int + [1, 2, 4, 8, 16, 32, 64, 128][k]
  {
  }

  lemma WithoutNumber(x: bv8, k: int)
    requires 0 <= k < 8 && Has(x, k)
    ensures Without(x, k) as int == x as int - [1, 2, 4, 8, 16, 32, 64, 128][k]
  {
  }

  lemma MaskBits(x: bv8, k: int, j: int)
    requires 0 <= k < 8 && 0 <= j < 8
    ensures Has(With(x, k), j) <==> j == k || Has(x, j)
    ensures Has(Without(x, k), j) <==> j != k && Has(x, j)
  {
    Masks(k, j);
  }

  /** Different bits have different masks. */
  lemma Masks(k: int, j: int)
    requires 0 <= k < 8 && 0 <= j < 8
    ensures Mask(k) & Mask(j) == (if j == k then Mask(k) else 0) && Mask(k) != 0
  {
  }

  /** One bit per block, packed into bitmap blocks. */
  predicate HasBit(bm: seq<BitBlock>, b: int) {
    0 <= b && b / BPB < |bm|
  }

  function ByteOf(bm: seq<BitBlock>, b: int): bv8
    requires HasBit(bm, b)
  {
    bm[b / BPB][b % BPB / 8]
  }

  predicate Bit(bm: seq<BitBlock>, b: int)
    requires HasBit(bm, b)
  {
    Has(ByteOf(bm, b), b % 8)
  }

  function PutByte(bm: seq<BitBlock>, b: int, x: bv8): seq<BitBlock>
    requires HasBit(bm, b)
  {
    bm[b / BPB := bm[b / BPB][b % BPB / 8 := x]]
  }

  function SetBit(bm: seq<BitBlock>, b: int): seq<BitBlock>
    requires HasBit(bm, b)
  {
    PutByte(bm, b, With(ByteOf(bm, b), b % 8))
  }

  function ClearBit(bm: seq<BitBlock>, b: int): seq<BitBlock>
    requires HasBit(bm, b)
  {
    PutByte(bm, b, Without(ByteOf(bm, b), b % 8))
  }

  predicate SameByte(b: int, c: int) {
    b / BPB == c / BPB && b % BPB / 8 == c % BPB / 8
  }

  lemma BitPosition(b: int, c: int)
    requires 0 <= b && 0 <= c && SameByte(b, c) && b % 8 == c % 8
    ensures b == c
  {
    Position(b);
    Position(c);
  }

  /** A bit is found by its block, its byte and its place in the byte. */
  lemma Position(b: int)
    requires 0 <= b
    ensures b == b / BPB * BPB + b % BPB / 8 * 8 + b % 8
  {
    var k, bi := b / 8192, b % 8192;
    assert b == 8192 * k + bi;
    Remainder(1024 * k, bi);
  }

  lemma PutByteAt(bm: seq<BitBlock>, b: int, x: bv8, c: int)
    requires HasBit(bm, b) && HasBit(bm, c)
    ensures HasBit(PutByte(bm, b, x), c)
    ensures ByteOf(PutByte(bm, b, x), c) == if SameByte(b, c) then x else ByteOf(bm, c)
    ensures SameByte(b, c) ==> ByteOf(bm, b) == ByteOf(bm, c)
  {
  }

  lemma BitChange(bm: seq<BitBlock>, b: int, c: int)
    requires HasBit(bm, b) && HasBit(bm, c)
    ensures HasBit(SetBit(bm, b), c) && (Bit(SetBit(bm, b), c) <==> c == b || Bit(bm, c))
    ensures HasBit(ClearBit(bm, b), c) && (Bit(ClearBit(bm, b), c) <==> c != b && Bit(bm, c))
  {
    hide Has, With, Without, PutByte, ByteOf;
    var x := ByteOf(bm, b);
    PutByteAt(bm, b, With(x, b % 8), c);
    PutByteAt(bm, b, Without(x, b % 8), c);
    MaskBits(x, b % 8, c % 8);
    if SameByte(b, c) && c % 8 == b % 8 {
      BitPosition(b, c);
    }
  }

  /** balloc addresses a bit as bit bi of the bitmap block of base. */
  lemma BlockBit(bm: seq<BitBlock>, base: int, bi: int, x: bv8)
    requires 0 <= base && base % BPB == 0 && 0 <= bi < BPB && base / BPB < |bm|
    ensures HasBit(bm, base + bi)
    ensures ByteOf(bm, base + bi) == bm[base / BPB][bi / 8]
    ensures (base + bi) % 8 == bi % 8
    ensures PutByte(bm, base + bi, x) == bm[base / BPB := bm[base / BPB][bi / 8 := x]]
  {
    InBlock(base, bi);
  }

  lemma InBlock(base: int, bi: int)
    requires 0 <= base && base % BPB == 0 && 0 <= bi < BPB
    ensures (base + bi) / BPB == base / BPB && (base + bi) % BPB == bi && (base + bi) % 8 == bi % 8
  {
    var k := base / 8192;
    assert base == 8192 * k;
    Quotient(k, bi);
    Remainder(1024 * k, bi);
  }

  lemma Quotient(k: int, bi: int)
    requires 0 <= bi < 8192
    ensures (8192 * k + bi) / 8192 == k && (8192 * k + bi) % 8192 == bi
  {
  }

  lemma Remainder(k: int, bi: int)
    ensures (8 * k + bi) % 8 == bi % 8
  {
  }

  function Bits(bm: seq<BitBlock>, size: nat): (u: seq<bool>)
    requires size <= |bm| * BPB
    ensures |u| == size
  {
    seq(size, b requires 0 <= b < size => Bit(bm, b))
  }

  /** The map in the bytes of the bitmap as numbers: bit b % 8 of a byte is worth
      two to the b % 8. */
  lemma BitsNumbers(bm: seq<BitBlock>, size: nat)
    requires size <= |bm| * BPB
    ensures forall b | 0 <= b < size :: Bits(bm, size)[b] <==> bm[b / 8192][b % 8192 / 8] as int / [1, 2, 4, 8, 16, 32, 64, 128][b % 8] % 2 == 1
  {
    hide Has;
    forall b | 0 <= b < size
      ensures Bits(bm, size)[b] <==> bm[b / 8192][b % 8192 / 8] as int / [1, 2, 4, 8, 16, 32, 64, 128][b % 8] % 2 == 1
    {
      Numbers(ByteOf(bm, b), b % 8);
    }
  }

  lemma BlankBits(bm: seq<BitBlock>, size: nat)
    requires size <= |bm| * BPB && forall i | 0 <= i < |bm| :: bm[i] == seq(BSIZE, _ => 0)
    ensures forall b | 0 <= b < size :: !Bits(bm, size)[b]
  {
    forall b | 0 <= b < size ensures !Bits(bm, size)[b] {
      assert ByteOf(bm, b) == 0;
    }
  }

  lemma BitsChange(bm: seq<BitBlock>, size: nat, b: int)
    requires size <= |bm| * BPB && 0 <= b < size
    ensures Bits(SetBit(bm, b), size) == Bits(bm, size)[b := true]
    ensures Bits(ClearBit(bm, b), size) == Bits(bm, size)[b := false]
  {
    forall c | 0 <= c < size
      ensures Bits(SetBit(bm, b), size)[c] == Bits(bm, size)[b := true][c]
      ensures Bits(ClearBit(bm, b), size)[c] == Bits(bm, size)[b := false][c]
    {
      BitChange(bm, b, c);
    }
  }
}

/** Bit arrays packed eight to a byte, as the Bloom filters and odd sketches store them. */
module Bits {

  /** The byte with only bit `k` set: one shifted left by `k`. */
  function Mask(k: nat): bv8
    requires k < 8
  {
    if k == 0 then 1 else if k == 1 then 2 else if k == 2 then 4 else if k == 3 then 8
    else if k == 4 then 16 else if k == 5 then 32 else if k == 6 then 64 else 128
  }

  predicate TestByte(x: bv8, k: nat)
    requires k < 8
  {
    x & Mask(k) != 0
  }

  predicate Bit(bytes: seq<bv8>, pos: nat)
    requires pos < 8 * |bytes|
  {
    TestByte(bytes[pos / 8], pos % 8)
  }

  function SetBit(bytes: seq<bv8>, pos: nat): seq<bv8>
    requires pos < 8 * |bytes|
  {
    bytes[pos / 8 := bytes[pos / 8] | Mask(pos % 8)]
  }

  function FlipBit(bytes: seq<bv8>, pos: nat): seq<bv8>
    requires pos < 8 * |bytes|
  {
    bytes[pos / 8 := bytes[pos / 8] ^ Mask(pos % 8)]
  }

  lemma MaskBits(j: nat, k: nat)
    requires j < 8 && k < 8
    ensures TestByte(Mask(j), k) <==> j == k
  {
    var m, c := Mask(j), Mask(k);
    if j == k {
      assert m & c == c;
    } else {
      assert m & c == 0;
    }
  }

  lemma OrBits(x: bv8, y: bv8, k: nat)
    requires k < 8
    ensures TestByte(x | y, k) <==> TestByte(x, k) || TestByte(y, k)
  {
    OrAnd(x, y, Mask(k));
  }

  lemma OrAnd(x: bv8, y: bv8, c: bv8)
    ensures (x | y) & c != 0 <==> x & c != 0 || y & c != 0
  {
  }

  lemma XorBits(x: bv8, y: bv8, k: nat)
    requires k < 8
    ensures TestByte(x ^ y, k) <==> TestByte(x, k) != TestByte(y, k)
  {
    XorAnd(x, y, Mask(k));
  }

  lemma XorAnd(x: bv8, y: bv8, c: bv8)
    requires c == 1 || c == 2 || c == 4 || c == 8 || c == 16 || c == 32 || c == 64 || c == 128
    ensures (x ^ y) & c != 0 <==> (x & c != 0) != (y & c != 0)
  {
  }

  /** Setting a bit changes that bit and no other. */
  lemma SetBitAt(bytes: seq<bv8>, pos: nat, q: nat)
    requires pos < 8 * |bytes| && q < 8 * |bytes|
    ensures Bit(SetBit(bytes, pos), q) <==> q == pos || Bit(bytes, q)
  {
    OrBits(bytes[pos / 8], Mask(pos % 8), q % 8);
    MaskBits(pos % 8, q % 8);
  }

  /** Flipping a bit changes that bit and no other. */
  lemma FlipBitAt(bytes: seq<bv8>, pos: nat, q: nat)
    requires pos < 8 * |bytes| && q < 8 * |bytes|
    ensures Bit(FlipBit(bytes, pos), q) <==> (q == pos) != Bit(bytes, q)
  {
    XorBits(bytes[pos / 8], Mask(pos % 8), q % 8);
    MaskBits(pos % 8, q % 8);
  }
}

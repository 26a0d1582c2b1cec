/** The Bloom filter: bits set by double hashing, never cleared. */
module BloomFilter {
  import opened Base
  import opened Bits

  datatype Shape = Shape(hash: DoubleHash, bitCount: nat, hashes: nat) {
    /** The position of probe `i` of a value, in 64-bit wrapping arithmetic. */
    function Probe(value: string, i: nat): (pos: nat)
      requires bitCount > 0
      ensures pos < bitCount
    {
      (hash.h1(value) + i * hash.h2(value) + i * i) % (MAX_U64 + 1) % bitCount
    }

    /** Each probe is further than the one before by the second hash and the next odd number, in 64 bits. */
    lemma ProbesAdvance(value: string, i: nat)
      requires bitCount > 0
      ensures Probe(value, 0) == hash.h1(value) % bitCount
      ensures Probe(value, i + 1) ==
              (hash.h1(value) + i * hash.h2(value) + i * i + hash.h2(value) + 2 * i + 1) % (MAX_U64 + 1) % bitCount
    {
      assert (i + 1) * hash.h2(value) == i * hash.h2(value) + hash.h2(value);
      assert (i + 1) * (i + 1) == i * i + 2 * i + 1;
    }

    function ByteCount(): nat { (bitCount + 7) / 8 }

    predicate Fits(bits: seq<bv8>) { bitCount > 0 && |bits| == ByteCount() }

    function Empty(): seq<bv8> { seq(ByteCount(), _ => 0) }

    /** The filter after the first `n` probes of a value were set. */
    function WithProbes(bits: seq<bv8>, value: string, n: nat): (out: seq<bv8>)
      requires Fits(bits)
      ensures Fits(out)
    {
      if n == 0 then bits else SetBit(WithProbes(bits, value, n - 1), Probe(value, n - 1))
    }

    function With(bits: seq<bv8>, value: string): (out: seq<bv8>)
      requires Fits(bits)
      ensures Fits(out)
    {
      if value == "" then bits else WithProbes(bits, value, hashes)
    }

    predicate MightContain(bits: seq<bv8>, value: string)
      requires Fits(bits)
    {
      value != "" && forall i :: 0 <= i < hashes ==> Bit(bits, Probe(value, i))
    }

    /** The filter after every value of a sequence was added in order. */
    function WithAll(values: seq<string>): (out: seq<bv8>)
      requires bitCount > 0
      ensures Fits(out)
    {
      if values == [] then Empty() else With(WithAll(Init(values)), Last(values))
    }

    ghost predicate Probes(value: string, n: nat, pos: nat)
      requires bitCount > 0
    {
      exists i :: 0 <= i < n && Probe(value, i) == pos
    }

    ghost predicate Covered(values: seq<string>, pos: nat)
      requires bitCount > 0
    {
      exists v :: v in values && v != "" && Probes(v, hashes, pos)
    }

    lemma {:induction false} WithProbesBits(bits: seq<bv8>, value: string, n: nat, pos: nat)
      requires Fits(bits) && pos < bitCount
      ensures Bit(WithProbes(bits, value, n), pos) <==> Bit(bits, pos) || Probes(value, n, pos)
    {
      if n > 0 {
        WithProbesBits(bits, value, n - 1, pos);
        SetBitAt(WithProbes(bits, value, n - 1), Probe(value, n - 1), pos);
        if Probes(value, n - 1, pos) {
          var i :| 0 <= i < n - 1 && Probe(value, i) == pos;
          assert Probes(value, n, pos);
        }
      }
    }

    /** A bit is set exactly when some added value probes it. */
    lemma {:induction false} BitsOfValues(values: seq<string>, pos: nat)
      requires pos < bitCount
      ensures Bit(WithAll(values), pos) <==> Covered(values, pos)
    {
      if values == [] {
        assert !TestByte(0, pos % 8);
      } else {
        BitsOfValues(Init(values), pos);
        assert values == Init(values) + [Last(values)];
        WithProbesBits(WithAll(Init(values)), Last(values), hashes, pos);
        if v :| v in values && v != "" && Probes(v, hashes, pos) {
          assert v in Init(values) || v == Last(values);
        }
      }
    }

    /** No false negatives: every added value is reported, and later additions never hide it. */
    lemma NoFalseNegatives(values: seq<string>, value: string)
      requires bitCount > 0 && value in values && value != ""
      ensures MightContain(WithAll(values), value)
    {
      forall i | 0 <= i < hashes
        ensures Bit(WithAll(values), Probe(value, i))
      {
        BitsOfValues(values, Probe(value, i));
        assert Probes(value, hashes, Probe(value, i));
      }
    }

    /** A value is reported exactly when every one of its probes was set by some added value. */
    lemma ReportedIff(values: seq<string>, value: string)
      requires bitCount > 0
      ensures MightContain(WithAll(values), value) <==>
              value != "" && forall i :: 0 <= i < hashes ==> Covered(values, Probe(value, i))
    {
      forall i | 0 <= i < hashes
        ensures Bit(WithAll(values), Probe(value, i)) <==> Covered(values, Probe(value, i))
      {
        BitsOfValues(values, Probe(value, i));
      }
    }
  }

  class Bloom {
    const shape: Shape
    const bits: array<bv8>
    var inserted: nat

    ghost predicate Valid()
      reads this, bits
    {
      shape.Fits(bits[..])
    }

    constructor (hash: DoubleHash, bitCount: nat, hashes: nat)
      requires bitCount > 0
      ensures Valid() && fresh(bits) && inserted == 0
      ensures shape == Shape(hash, bitCount, hashes) && bits[..] == shape.Empty()
    {
      shape := Shape(hash, bitCount, hashes);
      bits := new bv8[(bitCount + 7) / 8](_ => 0);
      inserted := 0;
    }

    method Add(value: string)
      requires Valid()
      modifies this, bits
      ensures Valid()
      ensures bits[..] == shape.With(old(bits[..]), value)
      ensures inserted == old(inserted) + if value == "" then 0 else 1
    {
      if value == "" {
        return;
      }
      for i := 0 to shape.hashes
        invariant bits[..] == shape.WithProbes(old(bits[..]), value, i)
        invariant inserted == old(inserted)
      {
        var pos := shape.Probe(value, i);
        bits[pos / 8] := bits[pos / 8] | Mask(pos % 8);
      }
      inserted := inserted + 1;
    }

    method MightContain(value: string) returns (possible: bool)
      requires Valid()
      ensures possible <==> shape.MightContain(bits[..], value)
    {
      if value == "" {
        return false;
      }
      for i := 0 to shape.hashes
        invariant forall j :: 0 <= j < i ==> Bit(bits[..], shape.Probe(value, j))
      {
        var pos := shape.Probe(value, i);
        if !TestByte(bits[pos / 8], pos % 8) {
          assert !Bit(bits[..], shape.Probe(value, i));
          return false;
        }
      }
      possible := true;
    }
  }
}

/** HyperLogLog at the level of its registers, and the two ways its rank is computed. */
module HyperLogLog {
  import opened Base

  const P: nat := 14
  const REGISTERS: nat := 16384
  const REMAINING_BITS: nat := 50

  /** The position of the highest set bit, counted from one. */
  function BitLength(w: nat): nat { if w == 0 then 0 else 1 + BitLength(w / 2) }

  // ----- the two rank computations -----

  /** The 32-bit unsigned value of a small, possibly negative difference. */
  function Wrap32(x: int): U32
    requires -64 <= x <= 64
  {
    if x < 0 then x + MAX_U32 + 1 else x
  }

  lemma BitLengthOfWord(w: U64)
    ensures BitLength(w) <= 64
  {
    WordSizes();
    BitLengthOf(w, 64);
  }

  /** The branch with the compiler's count of leading zeros, in 32-bit unsigned arithmetic. */
  function RankByLeadingZeros(w: U64): nat {
    if w == 0 then REMAINING_BITS + 1
    else
      BitLengthOfWord(w);
      var leading := 64 - BitLength(w);
      var rank := Wrap32(leading - P + 1);
      if rank > REMAINING_BITS + 1 then REMAINING_BITS + 1 else rank
  }

  /** Bit `k` of a word, as masking with one shifted left by `k` finds it. */
  predicate TestBit(w: nat, k: nat) { !Disjoint(w, Pow2(k)) }

  /** Whether a word and a mask of at most one bit have no bit in common. */
  predicate Disjoint(w: nat, mask: nat) { mask == 0 || w / mask % 2 == 0 }

  /** What the branch with the moving mask returns from `rank` on. */
  function RankByMaskFrom(w: U64, rank: nat): nat
    requires 1 <= rank <= REMAINING_BITS + 1
    decreases REMAINING_BITS + 1 - rank
  {
    if rank <= REMAINING_BITS && !TestBit(w, REMAINING_BITS - rank) then RankByMaskFrom(w, rank + 1) else rank
  }

  function RankByMask(w: U64): nat {
    if w == 0 then REMAINING_BITS + 1 else RankByMaskFrom(w, 1)
  }

  /** The loop over a mask that shifts right until it meets a set bit. */
  method RankLoop(w: U64) returns (rank: nat)
    ensures rank == RankByMask(w)
  {
    if w == 0 {
      return REMAINING_BITS + 1;
    }
    rank := 1;
    var mask := Pow2(REMAINING_BITS - 1);
    while Disjoint(w, mask) && rank <= REMAINING_BITS
      invariant 1 <= rank <= REMAINING_BITS + 1
      invariant mask == if rank <= REMAINING_BITS then Pow2(REMAINING_BITS - rank) else 0
      invariant RankByMaskFrom(w, rank) == RankByMask(w)
      decreases REMAINING_BITS + 1 - rank
    {
      rank := rank + 1;
      mask := mask / 2;
    }
  }

  lemma {:induction false} BitLengthRange(w: nat)
    ensures w < Pow2(BitLength(w))
    ensures w > 0 ==> Pow2(BitLength(w) - 1) <= w
  {
    if w > 0 {
      BitLengthRange(w / 2);
    }
  }

  /** A word of at most `k` bits has bit length at most `k`, and exactly `k` when its top bit is set. */
  lemma BitLengthOf(w: nat, k: nat)
    ensures w < Pow2(k) <==> BitLength(w) <= k
  {
    BitLengthRange(w);
    if BitLength(w) <= k {
      Pow2Monotone(BitLength(w), k);
    } else {
      Pow2Monotone(k, BitLength(w) - 1);
    }
  }

  /** The low `k` bits of a word. */
  function Low(w: nat, k: nat): nat {
    Pow2Positive(k);
    w % Pow2(k)
  }

  lemma SplitTopBit(w: nat, p: nat)
    requires p > 0
    ensures w % (2 * p) == w % p + if w / p % 2 == 1 then p else 0
  {
    var q, r := w / p, w % p;
    var a, b := q / 2, q % 2;
    assert w == p * q + r;
    assert q == 2 * a + b;
    assert p * q == 2 * p * a + p * b by {
      assert p * (2 * a + b) == 2 * p * a + p * b;
    }
    var low := p * b + r;
    assert b == 0 ==> p * b == 0;
    assert b == 1 ==> p * b == p;
    DivisionIsUnique(w, 2 * p, a, low);
  }

  /** The moving mask finds the highest bit of the low fifty bits. */
  lemma {:induction false} MaskFindsHighestBit(w: U64, rank: nat)
    requires 1 <= rank <= REMAINING_BITS + 1
    ensures RankByMaskFrom(w, rank) == REMAINING_BITS + 1 - BitLength(Low(w, REMAINING_BITS + 1 - rank))
    decreases REMAINING_BITS + 1 - rank
  {
    var k := REMAINING_BITS + 1 - rank;
    if k > 0 {
      var p := Pow2(k - 1);
      Pow2Positive(k - 1);
      SplitTopBit(w, p);
      assert Pow2(k) == 2 * p;
      if TestBit(w, k - 1) {
        BitLengthOf(Low(w, k), k - 1);
        BitLengthOf(Low(w, k), k);
      } else {
        MaskFindsHighestBit(w, rank + 1);
      }
    } else {
      assert Low(w, 0) == 0;
    }
  }

  lemma LeadingZerosRank(w: U64)
    ensures RankByLeadingZeros(w) ==
            if BitLength(w) <= REMAINING_BITS then REMAINING_BITS + 1 - BitLength(w)
            else if BitLength(w) == REMAINING_BITS + 1 then 0
            else REMAINING_BITS + 1
  {
    BitLengthOfWord(w);
  }

  lemma MaskRank(w: U64)
    ensures RankByMask(w) == REMAINING_BITS + 1 - BitLength(Low(w, REMAINING_BITS))
    ensures BitLength(Low(w, REMAINING_BITS)) <= REMAINING_BITS
  {
    MaskFindsHighestBit(w, 1);
    Pow2Positive(REMAINING_BITS);
    BitLengthOf(Low(w, REMAINING_BITS), REMAINING_BITS);
    if w == 0 {
      assert Low(w, REMAINING_BITS) == 0;
    }
  }

  lemma LowOfShort(w: nat, k: nat)
    requires BitLength(w) <= k
    ensures Low(w, k) == w
  {
    BitLengthOf(w, k);
    DivisionIsUnique(w, Pow2(k), 0, w);
  }

  lemma RanksAgreeByLength(w: U64)
    ensures RankByLeadingZeros(w) == RankByMask(w) <==>
            BitLength(w) <= REMAINING_BITS || (Low(w, REMAINING_BITS) == 0 && BitLength(w) > REMAINING_BITS + 1)
  {
    LeadingZerosRank(w);
    MaskRank(w);
    if BitLength(w) <= REMAINING_BITS {
      LowOfShort(w, REMAINING_BITS);
    }
  }

  /** Both branches return the same for every word of fifty bits; beyond that they agree exactly when the
      low fifty bits are zero and the word has more than 51 bits. */
  lemma RanksAgreeIff(w: U64)
    ensures RankByLeadingZeros(w) == RankByMask(w) <==>
            w < Pow2(REMAINING_BITS) || (Low(w, REMAINING_BITS) == 0 && w >= Pow2(REMAINING_BITS + 1))
    ensures 1 <= RankByMask(w) <= REMAINING_BITS + 1
  {
    RanksAgreeByLength(w);
    MaskRank(w);
    BitLengthOf(w, REMAINING_BITS);
    BitLengthOf(w, REMAINING_BITS + 1);
  }

  // ----- the registers -----

  function Index(h: U64): (i: nat)
    ensures i < REGISTERS
  {
    h % REGISTERS
  }

  function Rank(h: U64): nat { RankByLeadingZeros(h / REGISTERS) }

  /** What register `i` holds after a stream of keys; empty keys are ignored. */
  function Register(hash: string -> U64, keys: seq<string>, i: nat): nat {
    if keys == [] then 0
    else
      var before := Register(hash, Init(keys), i);
      var h := hash(Last(keys));
      if Last(keys) != "" && Index(h) == i then Max(before, Rank(h)) else before
  }

  ghost predicate Hits(hash: string -> U64, keys: seq<string>, key: string, i: nat) {
    key in keys && key != "" && Index(hash(key)) == i
  }

  lemma RankRange(h: U64)
    ensures 1 <= Rank(h) <= 51
    ensures Rank(h) == RankByMask(h / REGISTERS)
  {
    WordSizes();
    Pow2Add(14, 50);
    RanksAgreeIff(h / REGISTERS);
  }

  /** A hash is split without loss: its low fourteen bits choose the register, the other fifty the rank. */
  lemma HashIsSplit(i: nat, w: nat)
    requires i < 16384 && w < Pow2(50)
    ensures 16384 * w + i <= MAX_U64
    ensures Index(16384 * w + i) == i && Rank(16384 * w + i) == RankByMask(w)
  {
    WordSizes();
    Pow2Add(14, 50);
    Pow2Add(7, 7);
    assert Pow2(14) == 16384;
    assert 16384 * w + i < 16384 * Pow2(50);
    DivisionIsUnique(16384 * w + i, 16384, w, i);
    RanksAgreeIff(w);
  }

  /** A register is the maximum rank of the keys that hash to it, and zero exactly when there is none. */
  lemma {:induction false} RegisterIsMaximum(hash: string -> U64, keys: seq<string>, i: nat)
    ensures forall key :: Hits(hash, keys, key, i) ==> Rank(hash(key)) <= Register(hash, keys, i)
    ensures Register(hash, keys, i) > 0 ==>
              exists key :: Hits(hash, keys, key, i) && Rank(hash(key)) == Register(hash, keys, i)
    ensures Register(hash, keys, i) <= 51
  {
    if keys != [] {
      var front, last := Init(keys), Last(keys);
      RegisterIsMaximum(hash, front, i);
      RankRange(hash(last));
      assert keys == front + [last];
      assert forall key :: Hits(hash, front, key, i) ==> Hits(hash, keys, key, i);
      if last != "" && Index(hash(last)) == i {
        assert Hits(hash, keys, last, i);
      }
    }
  }

  /** Order and repetition do not matter: streams with the same set of keys leave the same registers. */
  lemma SameKeysSameRegisters(hash: string -> U64, a: seq<string>, b: seq<string>, i: nat)
    requires forall key :: key != "" ==> (key in a <==> key in b)
    ensures Register(hash, a, i) == Register(hash, b, i)
  {
    RegisterIsMaximum(hash, a, i);
    RegisterIsMaximum(hash, b, i);
    assert forall key :: Hits(hash, a, key, i) <==> Hits(hash, b, key, i);
  }

  class Registers {
    const hash: string -> U64
    const registers: array<nat>
    ghost var keys: seq<string>

    ghost predicate Valid()
      reads this, registers
    {
      && registers.Length == REGISTERS
      && forall i :: 0 <= i < REGISTERS ==> registers[i] == Register(hash, keys, i)
    }

    constructor (hash: string -> U64)
      ensures Valid() && fresh(registers) && this.hash == hash && keys == []
    {
      this.hash := hash;
      registers := new nat[REGISTERS](_ => 0);
      keys := [];
    }

    method Add(key: string)
      requires Valid()
      modifies this, registers
      ensures Valid() && keys == old(keys) + [key]
    {
      keys := keys + [key];
      assert Init(keys) == old(keys);
      if key == "" {
        return;
      }
      var h := hash(key);
      var idx := Index(h);
      var rank := Rank(h);
      if rank > registers[idx] {
        registers[idx] := rank;
      }
    }
  }
}

/** The odd sketch of a process and its distance to another, against the exact overlap of their relations. */
module OddSketch {
  import opened Base
  import opened Bits
  import opened Events
  import opened Policy
  import G = Graph

  const ODD_BYTES: nat := 256
  const ODD_BITS: nat := 2048

  function Odd(n: nat): bool { n % 2 == 1 }

  /** The one 64-bit hash of a value. */
  type Hash = string -> U64

  function Position(hash: Hash, value: string): (pos: nat)
    ensures pos < ODD_BITS
  {
    hash(value) % ODD_BITS
  }

  /** Every one of the 2048 positions is used: the low eleven bits of the hash choose it. */
  lemma PositionIs(hash: Hash, value: string, k: nat, pos: nat)
    requires hash(value) == 2048 * k + pos && pos < 2048
    ensures Position(hash, value) == pos
  {
    DivisionIsUnique(hash(value), 2048, k, pos);
  }

  // ----- the sketch of a list of values -----

  function With(bits: seq<bv8>, hash: Hash, value: string): (out: seq<bv8>)
    requires |bits| == ODD_BYTES
    ensures |out| == ODD_BYTES
  {
    if value == "" then bits else FlipBit(bits, Position(hash, value))
  }

  function SketchOf(hash: Hash, values: seq<string>): (out: seq<bv8>)
    ensures |out| == ODD_BYTES
  {
    if values == [] then seq(ODD_BYTES, _ => 0) else With(SketchOf(hash, Init(values)), hash, Last(values))
  }

  predicate Hit(hash: Hash, value: string, pos: nat) { value != "" && Position(hash, value) == pos }

  /** Whether an odd number of the values falls on a position. */
  predicate Parity(hash: Hash, values: seq<string>, pos: nat) {
    values != [] && Parity(hash, Init(values), pos) != Hit(hash, Last(values), pos)
  }

  /** A bit of the sketch is the parity of the values that fall on it. */
  lemma {:induction false} BitsAreParities(hash: Hash, values: seq<string>, pos: nat)
    requires pos < ODD_BITS
    ensures Bit(SketchOf(hash, values), pos) <==> Parity(hash, values, pos)
  {
    if values == [] {
      EmptyByte(pos % 8);
    } else {
      BitsAreParities(hash, Init(values), pos);
      if Last(values) != "" {
        FlipBitAt(SketchOf(hash, Init(values)), Position(hash, Last(values)), pos);
      }
    }
  }

  lemma EmptyByte(k: nat)
    requires k < 8
    ensures !TestByte(0, k)
  {
  }

  class Sketch {
    const bits: array<bv8>

    constructor ()
      ensures fresh(bits) && bits.Length == ODD_BYTES && bits[..] == SketchOf(_ => 0, [])
    {
      bits := new bv8[ODD_BYTES](_ => 0);
    }

    method Add(hash: Hash, value: string)
      requires bits.Length == ODD_BYTES
      modifies bits
      ensures bits[..] == With(old(bits[..]), hash, value)
    {
      if value != "" {
        var pos := Position(hash, value);
        bits[pos / 8] := bits[pos / 8] ^ Mask(pos % 8);
      }
    }

    method AddAll(hash: Hash, values: seq<string>, ghost before: seq<string>)
      requires bits.Length == ODD_BYTES && bits[..] == SketchOf(hash, before)
      modifies bits
      ensures bits[..] == SketchOf(hash, before + values)
    {
      assert before + values[..0] == before;
      for i := 0 to |values|
        invariant bits[..] == SketchOf(hash, before + values[..i])
      {
        Add(hash, values[i]);
        assert Init(before + values[..i + 1]) == before + values[..i];
      }
      assert values[..|values|] == values;
    }
  }

  /** The sketch of a node: its files and its destinations, without a mark of which is which. */
  method FromNode(hash: Hash, n: G.Node) returns (sketch: Sketch)
    ensures fresh(sketch) && fresh(sketch.bits) && sketch.bits.Length == ODD_BYTES
    ensures sketch.bits[..] == SketchOf(hash, n.relations.files + n.relations.destinations)
  {
    sketch := new Sketch();
    sketch.AddAll(hash, n.relations.files, []);
    assert [] + n.relations.files == n.relations.files;
    sketch.AddAll(hash, n.relations.destinations, n.relations.files);
  }

  // ----- the distance of two sketches -----

  function OnesBelow(x: bv8, k: nat): nat
    requires k <= 8
  {
    if k == 0 then 0 else OnesBelow(x, k - 1) + One(TestByte(x, k - 1))
  }

  function Ones(x: bv8): nat { OnesBelow(x, 8) }

  lemma ShiftedBit(x: bv8, k: nat)
    requires k < 7
    ensures TestByte(x >> 1, k) <==> TestByte(x, k + 1)
  {
  }

  lemma ShiftedTop(x: bv8)
    ensures !TestByte(x >> 1, 7)
  {
  }

  lemma {:induction false} ShiftedOnes(x: bv8, k: nat)
    requires k <= 7
    ensures One(TestByte(x, 0)) + OnesBelow(x >> 1, k) == OnesBelow(x, k + 1)
  {
    if k > 0 {
      ShiftedOnes(x, k - 1);
      ShiftedBit(x, k - 1);
    }
  }

  lemma LowBit(x: bv8)
    ensures TestByte(x, 0) <==> x & 1 == 1
  {
  }

  lemma {:induction false} NoOnes(k: nat)
    requires k <= 8
    ensures OnesBelow(0, k) == 0
  {
    if k > 0 {
      NoOnes(k - 1);
    }
  }

  lemma ShiftShrinks(x: bv8)
    requires x != 0
    ensures x >> 1 < x
  {
  }

  method PopCount(byte: bv8) returns (count: nat)
    ensures count == Ones(byte)
  {
    var x := byte;
    count := 0;
    while x != 0
      invariant count + Ones(x) == Ones(byte)
      decreases x
    {
      ShiftedOnes(x, 7);
      ShiftedTop(x);
      LowBit(x);
      ShiftShrinks(x);
      if x & 1 == 1 {
        count := count + 1;
      }
      x := x >> 1;
    }
    NoOnes(8);
  }

  /** The number of differing bits, byte by byte. */
  function Distance(a: seq<bv8>, b: seq<bv8>, n: nat): nat
    requires n <= |a| == |b|
  {
    if n == 0 then 0 else Distance(a, b, n - 1) + Ones(a[n - 1] ^ b[n - 1])
  }

  function Hamming(a: seq<bv8>, b: seq<bv8>): nat
    requires |a| == |b|
  {
    Distance(a, b, |a|)
  }

  method HammingDistance(a: Sketch, b: Sketch) returns (distance: nat)
    requires a.bits.Length == b.bits.Length == ODD_BYTES
    ensures distance == Hamming(a.bits[..], b.bits[..])
  {
    distance := 0;
    for i := 0 to ODD_BYTES
      invariant distance == Distance(a.bits[..], b.bits[..], i)
    {
      var ones := PopCount(a.bits[i] ^ b.bits[i]);
      distance := distance + ones;
    }
  }

  /** The number of positions at which two bit arrays differ. */
  function Differing(a: seq<bv8>, b: seq<bv8>, n: nat): nat
    requires |a| == |b| && n <= 8 * |a|
  {
    if n == 0 then 0 else Differing(a, b, n - 1) + One(Bit(a, n - 1) != Bit(b, n - 1))
  }

  lemma BitOfByte(a: seq<bv8>, i: nat, k: nat)
    requires i < |a| && k < 8
    ensures Bit(a, 8 * i + k) <==> TestByte(a[i], k)
  {
    DivisionIsUnique(8 * i + k, 8, i, k);
  }

  lemma {:induction false} ByteDiffers(a: seq<bv8>, b: seq<bv8>, i: nat, k: nat)
    requires i < |a| == |b| && k <= 8
    ensures Differing(a, b, 8 * i + k) == Differing(a, b, 8 * i) + OnesBelow(a[i] ^ b[i], k)
  {
    if k > 0 {
      ByteDiffers(a, b, i, k - 1);
      BitDiffers(a, b, i, k - 1);
      DifferingStep(a, b, 8 * i + k - 1);
    }
  }

  lemma DifferingStep(a: seq<bv8>, b: seq<bv8>, n: nat)
    requires |a| == |b| && n < 8 * |a|
    ensures Differing(a, b, n + 1) == Differing(a, b, n) + One(Bit(a, n) != Bit(b, n))
  {
  }

  lemma BitDiffers(a: seq<bv8>, b: seq<bv8>, i: nat, k: nat)
    requires i < |a| == |b| && k < 8
    ensures (Bit(a, 8 * i + k) != Bit(b, 8 * i + k)) <==> TestByte(a[i] ^ b[i], k)
  {
    XorBits(a[i], b[i], k);
    BitOfByte(a, i, k);
    BitOfByte(b, i, k);
  }

  /** Counting byte by byte counts the positions at which the bits differ. */
  lemma {:induction false} DistanceCounts(a: seq<bv8>, b: seq<bv8>, n: nat)
    requires n <= |a| == |b|
    ensures Distance(a, b, n) == Differing(a, b, 8 * n)
  {
    if n > 0 {
      DistanceCounts(a, b, n - 1);
      DistanceStep(a, b, n - 1);
    }
  }

  lemma DistanceStep(a: seq<bv8>, b: seq<bv8>, i: nat)
    requires i < |a| == |b|
    ensures Distance(a, b, i + 1) - Distance(a, b, i) == Differing(a, b, 8 * i + 8) - Differing(a, b, 8 * i)
  {
    ByteDiffers(a, b, i, 8);
  }

  // ----- the exact overlap -----

  /** How many values of a list are in another one. */
  function CountIn(list: seq<string>, other: seq<string>): nat {
    if list == [] then 0 else CountIn(Init(list), other) + One(Last(list) in other)
  }

  method CountShared(list: seq<string>, other: seq<string>) returns (shared: nat, missing: nat)
    ensures shared == CountIn(list, other) && missing == |list| - shared
  {
    shared, missing := 0, 0;
    for i := 0 to |list|
      invariant shared == CountIn(list[..i], other) && missing == i - shared
    {
      assert Init(list[..i + 1]) == list[..i];
      var found := ContainsExact(other, list[i]);
      if found {
        shared := shared + 1;
      } else {
        missing := missing + 1;
      }
    }
    assert list[..|list|] == list;
  }

  /** The sizes that the exact similarity divides. */
  method Overlap(a: G.Relations, b: G.Relations) returns (inter: nat, uni: nat)
    ensures inter == CountIn(a.files, b.files) + CountIn(a.destinations, b.destinations)
    ensures uni == |a.files| + |a.destinations| + |b.files| - CountIn(b.files, a.files)
                   + |b.destinations| - CountIn(b.destinations, a.destinations)
  {
    var files, _ := CountShared(a.files, b.files);
    var destinations, _ := CountShared(a.destinations, b.destinations);
    var _, newFiles := CountShared(b.files, a.files);
    var _, newDestinations := CountShared(b.destinations, a.destinations);
    inter := files + destinations;
    uni := |a.files| + |a.destinations| + newFiles + newDestinations;
  }

  // ----- overlap as sets -----

  /** A list as a node keeps it: no value twice, none empty. */
  ghost predicate Clean(list: seq<string>) { NoDuplicates(list) && "" !in list }

  ghost predicate CleanRelations(r: G.Relations) { Clean(r.files) && Clean(r.destinations) }

  function Inter(a: G.Relations, b: G.Relations): nat {
    |Elements(a.files) * Elements(b.files)| + |Elements(a.destinations) * Elements(b.destinations)|
  }

  function Uni(a: G.Relations, b: G.Relations): nat {
    |Elements(a.files) + Elements(b.files)| + |Elements(a.destinations) + Elements(b.destinations)|
  }

  function Common(list: seq<string>, other: seq<string>): seq<string> {
    if list == [] then []
    else if Last(list) in other then Common(Init(list), other) + [Last(list)]
    else Common(Init(list), other)
  }

  function Only(list: seq<string>, other: seq<string>): seq<string> {
    if list == [] then []
    else if Last(list) in other then Only(Init(list), other)
    else Only(Init(list), other) + [Last(list)]
  }

  lemma {:induction false} CommonMembers(list: seq<string>, other: seq<string>)
    requires NoDuplicates(list)
    ensures forall v :: v in Common(list, other) <==> v in list && v in other
    ensures NoDuplicates(Common(list, other)) && |Common(list, other)| == CountIn(list, other)
    ensures |Common(list, other)| + |Only(list, other)| == |list|
  {
    if list != [] {
      CommonMembers(Init(list), other);
      Rejoined(list);
    }
  }

  /** On lists without repetition counting counts the intersection. */
  lemma CountedIntersection(list: seq<string>, other: seq<string>)
    requires NoDuplicates(list)
    ensures CountIn(list, other) == |Elements(list) * Elements(other)|
  {
    CommonMembers(list, other);
    NoDuplicatesSize(Common(list, other));
    assert Elements(Common(list, other)) == Elements(list) * Elements(other);
  }

  lemma CountedUnion(list: seq<string>, other: seq<string>)
    requires NoDuplicates(list) && NoDuplicates(other)
    ensures |list| + |other| - CountIn(other, list) == |Elements(list) + Elements(other)|
  {
    CountedIntersection(other, list);
    NoDuplicatesSize(list);
    NoDuplicatesSize(other);
    assert Elements(other) * Elements(list) == Elements(list) * Elements(other);
  }

  /** What the similarity command counts are the sizes of the intersection and of the union of the two
      nodes' relations, so exchanging the nodes changes nothing. */
  lemma OverlapIsSetSizes(a: G.Relations, b: G.Relations)
    requires CleanRelations(a) && CleanRelations(b)
    ensures CountIn(a.files, b.files) + CountIn(a.destinations, b.destinations) == Inter(a, b) == Inter(b, a)
    ensures |a.files| + |a.destinations| + |b.files| - CountIn(b.files, a.files)
            + |b.destinations| - CountIn(b.destinations, a.destinations) == Uni(a, b) == Uni(b, a)
  {
    CountedIntersection(a.files, b.files);
    CountedIntersection(a.destinations, b.destinations);
    CountedUnion(a.files, b.files);
    CountedUnion(a.destinations, b.destinations);
    assert Elements(a.files) * Elements(b.files) == Elements(b.files) * Elements(a.files);
    assert Elements(a.destinations) * Elements(b.destinations) == Elements(b.destinations) * Elements(a.destinations);
    assert Elements(a.files) + Elements(b.files) == Elements(b.files) + Elements(a.files);
    assert Elements(a.destinations) + Elements(b.destinations) == Elements(b.destinations) + Elements(a.destinations);
  }

  // ----- distance against overlap -----

  lemma {:induction false} ParityAppend(hash: Hash, a: seq<string>, b: seq<string>, pos: nat)
    ensures Parity(hash, a + b, pos) <==> Parity(hash, a, pos) != Parity(hash, b, pos)
  {
    if b == [] {
      assert a + b == a;
    } else {
      ParityAppend(hash, a, Init(b), pos);
      assert Init(a + b) == a + Init(b);
    }
  }

  lemma {:induction false} ParitySplit(hash: Hash, list: seq<string>, other: seq<string>, pos: nat)
    ensures Parity(hash, list, pos) <==> Parity(hash, Common(list, other), pos) != Parity(hash, Only(list, other), pos)
  {
    if list != [] {
      ParitySplit(hash, Init(list), other, pos);
      ParityStep(hash, Common(Init(list), other), Last(list), pos);
      ParityStep(hash, Only(Init(list), other), Last(list), pos);
    }
  }

  lemma ParityStep(hash: Hash, values: seq<string>, v: string, pos: nat)
    ensures Parity(hash, values + [v], pos) <==> Parity(hash, values, pos) != Hit(hash, v, pos)
  {
    assert Init(values + [v]) == values;
  }

  function HitSet(hash: Hash, values: seq<string>, pos: nat): set<string> {
    set v | v in values && Hit(hash, v, pos)
  }

  lemma HitSetStep(hash: Hash, values: seq<string>, v: string, pos: nat)
    requires v !in values
    ensures |HitSet(hash, values + [v], pos)| == |HitSet(hash, values, pos)| + One(Hit(hash, v, pos))
  {
    var before, after := HitSet(hash, values, pos), HitSet(hash, values + [v], pos);
    if Hit(hash, v, pos) {
      assert after == before + {v};
    } else {
      assert after == before;
    }
  }

  lemma OddNext(n: nat, b: bool)
    ensures Odd(n + One(b)) == (Odd(n) != b)
  {
  }

  lemma {:induction false} ParityOfSize(hash: Hash, values: seq<string>, pos: nat)
    requires NoDuplicates(values)
    ensures Parity(hash, values, pos) <==> Odd(|HitSet(hash, values, pos)|)
  {
    if values == [] {
      assert HitSet(hash, values, pos) == {};
    } else {
      ParityOfSize(hash, Init(values), pos);
      HitSetStep(hash, Init(values), Last(values), pos);
      OddNext(|HitSet(hash, Init(values), pos)|, Hit(hash, Last(values), pos));
      Rejoined(values);
    }
  }

  lemma CommonParity(hash: Hash, a: seq<string>, b: seq<string>, pos: nat)
    requires NoDuplicates(a) && NoDuplicates(b)
    ensures Parity(hash, Common(a, b), pos) <==> Parity(hash, Common(b, a), pos)
  {
    CommonMembers(a, b);
    CommonMembers(b, a);
    ParityOfSize(hash, Common(a, b), pos);
    ParityOfSize(hash, Common(b, a), pos);
    assert HitSet(hash, Common(a, b), pos) == HitSet(hash, Common(b, a), pos);
  }

  /** The values in one list only. */
  function Apart(a: seq<string>, b: seq<string>): seq<string> { Only(a, b) + Only(b, a) }

  lemma ApartParity(hash: Hash, a: seq<string>, b: seq<string>, pos: nat)
    requires NoDuplicates(a) && NoDuplicates(b)
    ensures (Parity(hash, a, pos) != Parity(hash, b, pos)) == Parity(hash, Apart(a, b), pos)
  {
    ParitySplit(hash, a, b, pos);
    ParitySplit(hash, b, a, pos);
    CommonParity(hash, a, b, pos);
    ParityAppend(hash, Only(a, b), Only(b, a), pos);
  }

  lemma ApartSize(a: seq<string>, b: seq<string>)
    requires NoDuplicates(a) && NoDuplicates(b)
    ensures |Apart(a, b)| == |Elements(a) + Elements(b)| - |Elements(a) * Elements(b)|
  {
    CommonMembers(a, b);
    CommonMembers(b, a);
    CountedIntersection(a, b);
    CountedUnion(a, b);
  }

  /** The positions on which an odd number of values falls. */
  function OddPositions(hash: Hash, values: seq<string>, n: nat): nat {
    if n == 0 then 0 else OddPositions(hash, values, n - 1) + One(Parity(hash, values, n - 1))
  }

  lemma {:induction false} OddPositionsStep(hash: Hash, values: seq<string>, v: string, n: nat)
    ensures var before, after := OddPositions(hash, values, n), OddPositions(hash, values + [v], n);
            if v == "" || Position(hash, v) >= n then after == before else after == before + 1 || after == before - 1
  {
    if n > 0 {
      OddPositionsStep(hash, values, v, n - 1);
      assert Init(values + [v]) == values;
    }
  }

  lemma {:induction false} OddPositionsBound(hash: Hash, values: seq<string>)
    requires "" !in values
    ensures OddPositions(hash, values, ODD_BITS) <= |values|
    ensures Odd(OddPositions(hash, values, ODD_BITS)) == Odd(|values|)
  {
    if values == [] {
      NoOddPositions(hash, ODD_BITS);
    } else {
      Rejoined(values);
      OddPositionsBound(hash, Init(values));
      OddPositionsStep(hash, Init(values), Last(values), ODD_BITS);
    }
  }

  lemma {:induction false} NoOddPositions(hash: Hash, n: nat)
    ensures OddPositions(hash, [], n) == 0
  {
    if n > 0 {
      NoOddPositions(hash, n - 1);
    }
  }

  /** The values of two nodes that the other does not have. */
  function Differences(a: G.Relations, b: G.Relations): seq<string> {
    Apart(a.files, b.files) + Apart(a.destinations, b.destinations)
  }

  function NodeSketch(hash: Hash, r: G.Relations): seq<bv8> { SketchOf(hash, r.files + r.destinations) }

  lemma PartedBit(hash: Hash, x: seq<string>, y: seq<string>, pos: nat)
    requires pos < ODD_BITS
    ensures Bit(SketchOf(hash, x + y), pos) <==> Parity(hash, x, pos) != Parity(hash, y, pos)
  {
    BitsAreParities(hash, x + y, pos);
    ParityAppend(hash, x, y, pos);
  }

  /** The exclusive or of two nodes' sketches is, bit for bit, the sketch of what only one of them has. */
  lemma XorIsSketchOfDifferences(hash: Hash, a: G.Relations, b: G.Relations, pos: nat)
    requires CleanRelations(a) && CleanRelations(b)
    requires pos < ODD_BITS
    ensures (Bit(NodeSketch(hash, a), pos) != Bit(NodeSketch(hash, b), pos)) <==>
            Bit(SketchOf(hash, Differences(a, b)), pos)
    ensures Bit(SketchOf(hash, Differences(a, b)), pos) <==> Parity(hash, Differences(a, b), pos)
  {
    BitsAreParities(hash, Differences(a, b), pos);
    PartedBit(hash, a.files, a.destinations, pos);
    PartedBit(hash, b.files, b.destinations, pos);
    PartedBit(hash, Apart(a.files, b.files), Apart(a.destinations, b.destinations), pos);
    ApartParity(hash, a.files, b.files, pos);
    ApartParity(hash, a.destinations, b.destinations, pos);
  }

  ghost predicate DifferOn(x: seq<bv8>, y: seq<bv8>, hash: Hash, values: seq<string>)
    requires |x| == |y| == ODD_BYTES
  {
    forall pos :: 0 <= pos < ODD_BITS ==> ((Bit(x, pos) != Bit(y, pos)) <==> Parity(hash, values, pos))
  }

  lemma {:induction false} DifferingIsOdd(x: seq<bv8>, y: seq<bv8>, hash: Hash, values: seq<string>, n: nat)
    requires |x| == |y| == ODD_BYTES && n <= ODD_BITS
    requires DifferOn(x, y, hash, values)
    ensures Differing(x, y, n) == OddPositions(hash, values, n)
  {
    if n > 0 {
      DifferingIsOdd(x, y, hash, values, n - 1);
    }
  }

  lemma {:induction false} OnlyMembers(list: seq<string>, other: seq<string>)
    ensures forall v :: v in Only(list, other) ==> v in list
  {
    if list != [] {
      OnlyMembers(Init(list), other);
      Rejoined(list);
    }
  }

  lemma DifferencesClean(a: G.Relations, b: G.Relations)
    requires CleanRelations(a) && CleanRelations(b)
    ensures "" !in Differences(a, b) && |Differences(a, b)| == Uni(a, b) - Inter(a, b)
  {
    OnlyMembers(a.files, b.files);
    OnlyMembers(b.files, a.files);
    OnlyMembers(a.destinations, b.destinations);
    OnlyMembers(b.destinations, a.destinations);
    ApartSize(a.files, b.files);
    ApartSize(a.destinations, b.destinations);
  }

  lemma SketchesDiffer(hash: Hash, a: G.Relations, b: G.Relations)
    requires CleanRelations(a) && CleanRelations(b)
    ensures DifferOn(NodeSketch(hash, a), NodeSketch(hash, b), hash, Differences(a, b))
  {
    forall pos | 0 <= pos < ODD_BITS
      ensures (Bit(NodeSketch(hash, a), pos) != Bit(NodeSketch(hash, b), pos)) <==> Parity(hash, Differences(a, b), pos)
    {
      XorIsSketchOfDifferences(hash, a, b, pos);
    }
  }

  /** At most the bound, and as odd or even as it. */
  predicate Within(distance: nat, bound: int) { distance <= bound && distance % 2 == bound % 2 }

  /** The distance of two nodes' sketches is at most the number of relations that only one of them has,
      and as odd or even as it. */
  lemma DistanceBound(hash: Hash, a: G.Relations, b: G.Relations)
    requires CleanRelations(a) && CleanRelations(b)
    ensures Uni(a, b) >= Inter(a, b)
    ensures Within(Hamming(NodeSketch(hash, a), NodeSketch(hash, b)), Uni(a, b) - Inter(a, b))
  {
    var x, y, values := NodeSketch(hash, a), NodeSketch(hash, b), Differences(a, b);
    SketchesDiffer(hash, a, b);
    DistanceCounts(x, y, ODD_BYTES);
    DifferingIsOdd(x, y, hash, values, ODD_BITS);
    DifferencesClean(a, b);
    OddPositionsBound(hash, Differences(a, b));
  }

  /** The lists of every node of a graph are clean. */
  lemma GraphNodesClean(rules: Rules, loaded: bool, log: seq<Event>, i: nat)
    requires G.AllFit(log) && i < |G.GraphOf(rules, loaded, log)|
    ensures var r := G.GraphOf(rules, loaded, log)[i].relations;
            CleanRelations(r)
  {
    G.GraphIsBatch(rules, loaded, log);
    var sub := G.Sub(log, Distinct(G.Pids(log))[i]);
    FilesNonEmpty(sub);
    G.ContactsNonEmpty(rules, loaded, sub);
    DistinctElements(G.FilesOf(sub));
    DistinctElements(G.Contacts(rules, loaded, sub));
  }

  /** The counted figures of two nodes are the set sizes, and the distance of their sketches is within their
      difference. */
  ghost predicate FiguresAgree(hash: Hash, a: G.Relations, b: G.Relations) {
    && CountIn(a.files, b.files) + CountIn(a.destinations, b.destinations) == Inter(a, b) <= Uni(a, b)
    && |a.files| + |a.destinations| + |b.files| - CountIn(b.files, a.files)
       + |b.destinations| - CountIn(b.destinations, a.destinations) == Uni(a, b)
    && Within(Hamming(NodeSketch(hash, a), NodeSketch(hash, b)), Uni(a, b) - Inter(a, b))
  }

  lemma CleanFiguresAgree(hash: Hash, a: G.Relations, b: G.Relations)
    requires CleanRelations(a) && CleanRelations(b)
    ensures FiguresAgree(hash, a, b)
  {
    OverlapIsSetSizes(a, b);
    DistanceBound(hash, a, b);
  }

  /** The figures agree for any two nodes of the graph of any log. */
  lemma GraphNodesCompared(hash: Hash, rules: Rules, loaded: bool, log: seq<Event>, i: nat, j: nat)
    requires G.AllFit(log)
    requires i < |G.GraphOf(rules, loaded, log)| && j < |G.GraphOf(rules, loaded, log)|
    ensures var items := G.GraphOf(rules, loaded, log);
            FiguresAgree(hash, items[i].relations, items[j].relations)
  {
    var items := G.GraphOf(rules, loaded, log);
    GraphNodesClean(rules, loaded, log, i);
    GraphNodesClean(rules, loaded, log, j);
    CleanFiguresAgree(hash, items[i].relations, items[j].relations);
  }

  lemma {:induction false} FilesNonEmpty(sub: seq<Event>)
    ensures "" !in G.FilesOf(sub)
  {
    if sub != [] {
      FilesNonEmpty(Init(sub));
    }
  }

  method SketchDistance(hash: Hash, a: G.Node, b: G.Node) returns (distance: nat)
    ensures distance == Hamming(NodeSketch(hash, a.relations), NodeSketch(hash, b.relations))
  {
    var x := FromNode(hash, a);
    var y := FromNode(hash, b);
    distance := HammingDistance(x, y);
  }

  method ExactOverlap(a: G.Relations, b: G.Relations) returns (inter: nat, uni: nat)
    requires CleanRelations(a) && CleanRelations(b)
    ensures inter == Inter(a, b) && uni == Uni(a, b)
  {
    inter, uni := Overlap(a, b);
    OverlapIsSetSizes(a, b);
  }

  /** The distance the similarity command reports, within its bound. */
  method Similarity(hash: Hash, a: G.Node, b: G.Node) returns (distance: nat)
    requires CleanRelations(a.relations) && CleanRelations(b.relations)
    ensures distance == Hamming(NodeSketch(hash, a.relations), NodeSketch(hash, b.relations))
    ensures Within(distance, Uni(a.relations, b.relations) - Inter(a.relations, b.relations))
  {
    distance := SketchDistance(hash, a, b);
    DistanceBound(hash, a.relations, b.relations);
  }
}

/** The Cuckoo filter: 16-bit fingerprints in two candidate buckets, with a bounded eviction chain. */
module CuckooFilter {
  import opened Base

  const BUCKETS: nat := 4096
  const SLOTS: nat := 4
  const CELLS: nat := 16384
  const MAX_KICKS: nat := 64

  /** A fingerprint; zero marks an empty cell. */
  type Word16 = n: nat | n < 0x1_0000
  type Bucket = n: nat | n < BUCKETS
  type Slot = n: nat | n < SLOTS

  /** The table, row by row: slot `s` of bucket `b` is cell `4 * b + s`. */
  type Table = s: seq<Word16> | |s| == CELLS witness seq(CELLS, _ => 0)

  datatype Hash = Hash(
    raw: string -> Word16,
    index: string -> Bucket,
    mask: Word16 -> Bucket,
    startsFirst: string -> bool,
    victim: (Word16, nat) -> Slot)

  function Fingerprint(h: Hash, value: string): Word16 {
    if h.raw(value) != 0 then h.raw(value) else 1
  }

  /** Bitwise exclusive or. */
  function Xor(a: nat, b: nat): nat {
    if a == 0 then b else 2 * Xor(a / 2, b / 2) + (a + b) % 2
  }

  lemma {:induction false} XorDigits(a: nat, b: nat)
    ensures Xor(a, b) / 2 == Xor(a / 2, b / 2) && Xor(a, b) % 2 == (a + b) % 2
  {
  }

  lemma {:induction false} XorTwice(a: nat, m: nat)
    ensures Xor(Xor(a, m), m) == a
    decreases a + m
  {
    if a + m > 0 {
      XorTwice(a / 2, m / 2);
      XorDigits(a, m);
      XorDigits(Xor(a, m), m);
    }
  }

  lemma {:induction false} XorRange(a: nat, b: nat, k: nat)
    requires a < Pow2(k) && b < Pow2(k)
    ensures Xor(a, b) < Pow2(k)
  {
    if a > 0 {
      XorRange(a / 2, b / 2, k - 1);
    }
  }

  function AltIndex(h: Hash, b: Bucket, fp: Word16): Bucket {
    WordSizes();
    XorRange(b, h.mask(fp), 12);
    Xor(b, h.mask(fp))
  }

  /** Binary digit `k` of a number. */
  function Digit(a: nat, k: nat): nat { if k == 0 then a % 2 else Digit(a / 2, k - 1) }

  lemma {:induction false} DigitIs(a: nat, k: nat)
    ensures Pow2(k) > 0 && Digit(a, k) == a / Pow2(k) % 2
  {
    Pow2Positive(k);
    if k > 0 {
      DigitIs(a / 2, k - 1);
      HalvedQuotient(a, Pow2(k - 1));
    }
  }

  /** Every binary digit of an exclusive or says whether those of its operands differ. */
  lemma {:induction false} XorDigitAt(a: nat, b: nat, k: nat)
    ensures Digit(Xor(a, b), k) == (Digit(a, k) + Digit(b, k)) % 2
  {
    XorDigits(a, b);
    if k > 0 {
      XorDigitAt(a / 2, b / 2, k - 1);
    }
  }

  lemma HalvedQuotient(a: nat, p: nat)
    requires p > 0
    ensures a / (2 * p) == a / 2 / p
  {
    var q, r := a / 2 / p, a / 2 % p;
    assert a / 2 == p * q + r;
    assert a == 2 * (a / 2) + a % 2;
    assert 2 * (p * q + r) == (2 * p) * q + 2 * r;
    DivisionIsUnique(a, 2 * p, q, 2 * r + a % 2);
  }

  /** The partner bucket differs from a bucket in exactly the binary digits of the fingerprint's mask. */
  lemma AltIndexDigits(h: Hash, b: Bucket, fp: Word16, k: nat)
    ensures Digit(AltIndex(h, b, fp), k) == (Digit(b, k) + Digit(h.mask(fp), k)) % 2
  {
    XorDigitAt(b, h.mask(fp), k);
  }

  /** The partner of a bucket's partner is the bucket itself. */
  lemma AltIndexInvolutive(h: Hash, b: Bucket, fp: Word16)
    ensures AltIndex(h, AltIndex(h, b, fp), fp) == b
  {
    XorTwice(b, h.mask(fp));
  }

  // ----- the table operations on values -----

  function Cell(cells: Table, b: Bucket, s: Slot): Word16 { cells[SLOTS * b + s] }

  /** The first slot at or after `i` of a bucket that holds `fp`, or SLOTS if there is none. */
  function SlotOf(cells: Table, b: Bucket, fp: Word16, i: nat): (s: nat)
    requires i <= SLOTS
    ensures i <= s <= SLOTS
    ensures s < SLOTS ==> Cell(cells, b, s) == fp
    ensures forall j :: i <= j < s ==> Cell(cells, b, j) != fp
    decreases SLOTS - i
  {
    if i == SLOTS || Cell(cells, b, i) == fp then i else SlotOf(cells, b, fp, i + 1)
  }

  predicate Holds(cells: Table, b: Bucket, fp: Word16) { SlotOf(cells, b, fp, 0) < SLOTS }

  function Placed(cells: Table, b: Bucket, fp: Word16): Table
    requires Holds(cells, b, 0)
  {
    cells[SLOTS * b + SlotOf(cells, b, 0, 0) := fp]
  }

  function Erased(cells: Table, b: Bucket, fp: Word16): Table
    requires Holds(cells, b, fp)
  {
    cells[SLOTS * b + SlotOf(cells, b, fp, 0) := 0]
  }

  /** How an insertion ends: with everything stored, or with fingerprint `fp` evicted for good. */
  datatype Outcome = Stored(cells: Table) | Evicted(cells: Table, fp: Word16, bucket: Bucket)

  function KickChain(h: Hash, cells: Table, b: Bucket, fp: Word16, kick: nat): Outcome
    requires kick <= MAX_KICKS
    decreases MAX_KICKS - kick
  {
    if kick == MAX_KICKS then Evicted(cells, fp, b)
    else
      var cell := SLOTS * b + h.victim(fp, kick);
      var evicted := cells[cell];
      var swapped := cells[cell := fp];
      var next := AltIndex(h, b, evicted);
      if Holds(swapped, next, 0) then Stored(Placed(swapped, next, evicted))
      else KickChain(h, swapped, next, evicted, kick + 1)
  }

  function InsertOutcome(h: Hash, cells: Table, value: string): Outcome {
    var fp := Fingerprint(h, value);
    var i1 := h.index(value);
    var i2 := AltIndex(h, i1, fp);
    if Holds(cells, i1, 0) then Stored(Placed(cells, i1, fp))
    else if Holds(cells, i2, 0) then Stored(Placed(cells, i2, fp))
    else KickChain(h, cells, if h.startsFirst(value) then i1 else i2, fp, 0)
  }

  predicate Reports(h: Hash, cells: Table, value: string) {
    var fp := Fingerprint(h, value);
    var i1 := h.index(value);
    value != "" && (Holds(cells, i1, fp) || Holds(cells, AltIndex(h, i1, fp), fp))
  }

  datatype State = State(cells: Table, count: nat)

  function Empty(): State { State(seq(CELLS, _ => 0), 0) }

  function Inserted(h: Hash, st: State, value: string): State {
    if value == "" then st
    else
      match InsertOutcome(h, st.cells, value)
      case Stored(cells) => State(cells, st.count + 1)
      case Evicted(cells, _, _) => State(cells, st.count)
  }

  predicate InsertSucceeds(h: Hash, st: State, value: string) {
    value != "" && InsertOutcome(h, st.cells, value).Stored?
  }

  function Deleted(h: Hash, st: State, value: string): State {
    var fp := Fingerprint(h, value);
    var i1 := h.index(value);
    var i2 := AltIndex(h, i1, fp);
    var fewer := if st.count > 0 then st.count - 1 else 0;
    if value == "" then st
    else if Holds(st.cells, i1, fp) then State(Erased(st.cells, i1, fp), fewer)
    else if Holds(st.cells, i2, fp) then State(Erased(st.cells, i2, fp), fewer)
    else st
  }

  // ----- what the table means: how many instances of each class it stores -----

  /** All the filter knows of a value: its fingerprint and its unordered pair of buckets. */
  datatype Class = Class(fp: Word16, low: Bucket, high: Bucket)

  function ClassAt(h: Hash, fp: Word16, b: Bucket): Class {
    var other := AltIndex(h, b, fp);
    if b <= other then Class(fp, b, other) else Class(fp, other, b)
  }

  function ClassOf(h: Hash, value: string): Class {
    ClassAt(h, Fingerprint(h, value), h.index(value))
  }

  predicate CellIs(h: Hash, fp: Word16, b: Bucket, c: Class) { fp != 0 && ClassAt(h, fp, b) == c }

  /** The instances of a class among the first `n` cells. */
  function TallyTo(h: Hash, cells: Table, c: Class, n: nat): nat
    requires n <= CELLS
  {
    if n == 0 then 0
    else TallyTo(h, cells, c, n - 1) + One(CellIs(h, cells[n - 1], (n - 1) / SLOTS, c))
  }

  function Tally(h: Hash, cells: Table, c: Class): nat { TallyTo(h, cells, c, CELLS) }

  /** The occupied cells among the first `n`. */
  function OccupiedTo(cells: Table, n: nat): nat
    requires n <= CELLS
  {
    if n == 0 then 0 else OccupiedTo(cells, n - 1) + One(cells[n - 1] != 0)
  }

  function Occupied(cells: Table): nat { OccupiedTo(cells, CELLS) }

  /** The occurrences of a class in a sequence of values, empty ones left out. */
  function TallyOf(h: Hash, values: seq<string>, c: Class): nat {
    if values == [] then 0
    else TallyOf(h, Init(values), c) + One(Last(values) != "" && ClassOf(h, Last(values)) == c)
  }

  lemma SameClass(h: Hash, fp: Word16, b: Bucket, c: Bucket)
    ensures ClassAt(h, fp, b) == ClassAt(h, fp, c) <==> b == c || b == AltIndex(h, c, fp)
  {
    AltIndexInvolutive(h, b, fp);
    AltIndexInvolutive(h, c, fp);
  }

  lemma {:induction false} UpdateTally(h: Hash, cells: Table, c: Class, n: nat, k: nat, fp: Word16)
    requires k < CELLS && n <= CELLS
    ensures k < n ==> TallyTo(h, cells[k := fp], c, n) + One(CellIs(h, cells[k], k / SLOTS, c)) ==
                      TallyTo(h, cells, c, n) + One(CellIs(h, fp, k / SLOTS, c))
    ensures k >= n ==> TallyTo(h, cells[k := fp], c, n) == TallyTo(h, cells, c, n)
  {
    if n > 0 {
      UpdateTally(h, cells, c, n - 1, k, fp);
    }
  }

  lemma {:induction false} UpdateOccupied(cells: Table, n: nat, k: nat, fp: Word16)
    requires k < CELLS && n <= CELLS
    ensures k < n ==>
              OccupiedTo(cells[k := fp], n) + One(cells[k] != 0) == OccupiedTo(cells, n) + One(fp != 0)
    ensures k >= n ==> OccupiedTo(cells[k := fp], n) == OccupiedTo(cells, n)
  {
    if n > 0 {
      UpdateOccupied(cells, n - 1, k, fp);
    }
  }

  lemma {:induction false} PositiveTally(h: Hash, cells: Table, c: Class, n: nat)
    requires n <= CELLS
    ensures TallyTo(h, cells, c, n) > 0 <==> exists k :: 0 <= k < n && CellIs(h, cells[k], k / SLOTS, c)
    ensures TallyTo(h, cells, c, n) <= OccupiedTo(cells, n)
  {
    if n > 0 {
      PositiveTally(h, cells, c, n - 1);
    }
  }

  lemma HeldIsTallied(h: Hash, cells: Table, b: Bucket, fp: Word16)
    requires fp != 0 && Holds(cells, b, fp)
    ensures Tally(h, cells, ClassAt(h, fp, b)) > 0
  {
    PositiveTally(h, cells, ClassAt(h, fp, b), CELLS);
    var s := SlotOf(cells, b, fp, 0);
    assert Cell(cells, b, s) == fp;
    var k := SLOTS * b + s;
    assert k / SLOTS == b;
    assert CellIs(h, cells[k], k / SLOTS, ClassAt(h, fp, b));
  }

  lemma TalliedIsHeld(h: Hash, cells: Table, c: Class) returns (b: Bucket)
    requires Tally(h, cells, c) > 0
    ensures c.fp != 0 && Holds(cells, b, c.fp) && ClassAt(h, c.fp, b) == c
  {
    PositiveTally(h, cells, c, CELLS);
    var k :| 0 <= k < CELLS && CellIs(h, cells[k], k / SLOTS, c);
    b := k / SLOTS;
    assert Cell(cells, b, k % SLOTS) == c.fp;
  }

  /** Membership is decided by the class alone: a value is reported iff its class is stored at least once. */
  lemma ReportsIffClassStored(h: Hash, cells: Table, value: string)
    requires value != ""
    ensures Reports(h, cells, value) <==> Tally(h, cells, ClassOf(h, value)) > 0
  {
    var fp, i1 := Fingerprint(h, value), h.index(value);
    var i2 := AltIndex(h, i1, fp);
    SameClass(h, fp, i2, i1);
    if Holds(cells, i1, fp) {
      HeldIsTallied(h, cells, i1, fp);
    }
    if Holds(cells, i2, fp) {
      HeldIsTallied(h, cells, i2, fp);
    }
    if Tally(h, cells, ClassOf(h, value)) > 0 {
      var b := TalliedIsHeld(h, cells, ClassOf(h, value));
      SameClass(h, fp, b, i1);
    }
  }

  lemma PlacedTally(h: Hash, cells: Table, b: Bucket, fp: Word16, c: Class)
    requires Holds(cells, b, 0) && fp != 0
    ensures Tally(h, Placed(cells, b, fp), c) == Tally(h, cells, c) + One(ClassAt(h, fp, b) == c)
    ensures Occupied(Placed(cells, b, fp)) == Occupied(cells) + 1
  {
    var k := SLOTS * b + SlotOf(cells, b, 0, 0);
    assert k / SLOTS == b;
    UpdateTally(h, cells, c, CELLS, k, fp);
    UpdateOccupied(cells, CELLS, k, fp);
  }

  /** What an outcome did to the instances of class `c`, when an instance of class `added` came in. */
  ghost predicate Conserves(h: Hash, before: Table, outcome: Outcome, added: Class, c: Class) {
    match outcome
    case Stored(after) =>
      && Tally(h, after, c) == Tally(h, before, c) + One(added == c)
      && Occupied(after) == Occupied(before) + 1
    case Evicted(after, fp, b) =>
      && fp != 0
      && Tally(h, after, c) + One(ClassAt(h, fp, b) == c) == Tally(h, before, c) + One(added == c)
      && Occupied(after) == Occupied(before)
  }

  /** Swapping an occupied cell moves one instance out, into the hands of its partner bucket. */
  lemma SwapTally(h: Hash, cells: Table, b: Bucket, slot: Slot, fp: Word16, c: Class)
    requires fp != 0 && Cell(cells, b, slot) != 0
    ensures var evicted := Cell(cells, b, slot);
            var swapped := cells[SLOTS * b + slot := fp];
            && Tally(h, swapped, c) + One(ClassAt(h, evicted, AltIndex(h, b, evicted)) == c) ==
               Tally(h, cells, c) + One(ClassAt(h, fp, b) == c)
            && Occupied(swapped) == Occupied(cells)
  {
    var k := SLOTS * b + slot;
    assert k / SLOTS == b;
    UpdateTally(h, cells, c, CELLS, k, fp);
    UpdateOccupied(cells, CELLS, k, fp);
    SameClass(h, cells[k], AltIndex(h, b, cells[k]), b);
  }

  /** A kick chain of any length neither invents nor drops an instance: what it cannot store it hands back. */
  lemma {:induction false} KickChainConserves(h: Hash, cells: Table, b: Bucket, fp: Word16, kick: nat, c: Class)
    requires kick <= MAX_KICKS && fp != 0 && !Holds(cells, b, 0)
    ensures Conserves(h, cells, KickChain(h, cells, b, fp, kick), ClassAt(h, fp, b), c)
    decreases MAX_KICKS - kick
  {
    if kick < MAX_KICKS {
      var slot := h.victim(fp, kick);
      var evicted := Cell(cells, b, slot);
      var swapped := cells[SLOTS * b + slot := fp];
      var next := AltIndex(h, b, evicted);
      SwapTally(h, cells, b, slot, fp, c);
      if Holds(swapped, next, 0) {
        PlacedTally(h, swapped, next, evicted, c);
      } else {
        KickChainConserves(h, swapped, next, evicted, kick + 1, c);
      }
    }
  }

  /** A successful insertion adds one instance of the value's class and touches no other class; a failed
      one stores the value and loses exactly one instance, of the class it hands back. */
  lemma InsertConserves(h: Hash, cells: Table, value: string, c: Class)
    ensures Conserves(h, cells, InsertOutcome(h, cells, value), ClassOf(h, value), c)
  {
    var fp, i1 := Fingerprint(h, value), h.index(value);
    var i2 := AltIndex(h, i1, fp);
    SameClass(h, fp, i2, i1);
    if Holds(cells, i1, 0) {
      PlacedTally(h, cells, i1, fp, c);
    } else if Holds(cells, i2, 0) {
      PlacedTally(h, cells, i2, fp, c);
    } else {
      KickChainConserves(h, cells, if h.startsFirst(value) then i1 else i2, fp, 0, c);
    }
  }

  // ----- when an insertion succeeds -----

  ghost predicate HasRoom(cells: Table, b: Bucket) { exists s: Slot :: Cell(cells, b, s) == 0 }

  lemma RoomIff(cells: Table, b: Bucket)
    ensures HasRoom(cells, b) <==> Holds(cells, b, 0)
  {
    if s: Slot :| Cell(cells, b, s) == 0 {
      assert !(SlotOf(cells, b, 0, 0) > s);
    }
    if Holds(cells, b, 0) {
      assert Cell(cells, b, SlotOf(cells, b, 0, 0)) == 0;
    }
  }

  /** A moment of an eviction: the table, the fingerprint in hand, the bucket it goes to, and the slot whose
      fingerprint would have to give way there. */
  datatype Hop = Hop(cells: Table, fp: Word16, bucket: Bucket, slot: Slot)

  /** Each hop puts the fingerprint in hand into its slot and takes the evicted one to its partner bucket. */
  predicate Follows(h: Hash, hop: Hop, next: Hop) {
    var cell := SLOTS * hop.bucket + hop.slot;
    && next.cells == hop.cells[cell := hop.fp]
    && next.fp == hop.cells[cell]
    && next.bucket == AltIndex(h, hop.bucket, hop.cells[cell])
  }

  ghost predicate IsTrail(h: Hash, trail: seq<Hop>, kick: nat) {
    && (forall i :: 0 <= i < |trail| ==> trail[i].slot == h.victim(trail[i].fp, kick + i))
    && (forall i :: 0 <= i < |trail| - 1 ==> Follows(h, trail[i], trail[i + 1]))
  }

  /** Hop `n` of a trail is the first after the start to find room. */
  ghost predicate FirstRoom(trail: seq<Hop>, n: nat) {
    && 0 < n < |trail| && HasRoom(trail[n].cells, trail[n].bucket)
    && forall i :: 0 < i < n ==> !HasRoom(trail[i].cells, trail[i].bucket)
  }

  ghost predicate NoRoom(trail: seq<Hop>) {
    forall i :: 0 < i < |trail| ==> !HasRoom(trail[i].cells, trail[i].bucket)
  }

  /** The hops from the second on, which start one kick later. */
  lemma RestOfTrail(h: Hash, trail: seq<Hop>, kick: nat)
    requires |trail| > 1 && IsTrail(h, trail, kick)
    ensures IsTrail(h, trail[1..], kick + 1) && Follows(h, trail[0], trail[1])
  {
    var rest := trail[1..];
    assert forall i :: 0 <= i < |rest| ==> rest[i] == trail[i + 1];
    forall i | 0 <= i < |rest| - 1
      ensures Follows(h, rest[i], rest[i + 1])
    {
      assert Follows(h, trail[i + 1], trail[i + 2]);
    }
  }

  function ChainFrom(h: Hash, hop: Hop, kick: nat): Outcome
    requires kick <= MAX_KICKS
  {
    KickChain(h, hop.cells, hop.bucket, hop.fp, kick)
  }

  lemma ChainHop(h: Hash, hop: Hop, next: Hop, kick: nat)
    requires kick < MAX_KICKS && hop.slot == h.victim(hop.fp, kick) && Follows(h, hop, next)
    ensures ChainFrom(h, hop, kick) ==
            if Holds(next.cells, next.bucket, 0) then Stored(Placed(next.cells, next.bucket, next.fp))
            else ChainFrom(h, next, kick + 1)
  {
  }

  lemma {:induction false} RoomStores(h: Hash, trail: seq<Hop>, kick: nat, n: nat)
    requires kick + n <= MAX_KICKS && IsTrail(h, trail, kick) && FirstRoom(trail, n)
    ensures Holds(trail[n].cells, trail[n].bucket, 0)
    ensures ChainFrom(h, trail[0], kick) == Stored(Placed(trail[n].cells, trail[n].bucket, trail[n].fp))
    decreases n
  {
    RestOfTrail(h, trail, kick);
    RoomIff(trail[1].cells, trail[1].bucket);
    ChainHop(h, trail[0], trail[1], kick);
    if n > 1 {
      RoomStores(h, trail[1..], kick + 1, n - 1);
    }
  }

  lemma {:induction false} NoRoomEvicts(h: Hash, trail: seq<Hop>, kick: nat)
    requires kick + |trail| == MAX_KICKS + 1 && |trail| > 0 && IsTrail(h, trail, kick) && NoRoom(trail)
    ensures var last := trail[|trail| - 1];
            ChainFrom(h, trail[0], kick) == Evicted(last.cells, last.fp, last.bucket)
    decreases |trail|
  {
    if |trail| > 1 {
      RestOfTrail(h, trail, kick);
      RoomIff(trail[1].cells, trail[1].bucket);
      ChainHop(h, trail[0], trail[1], kick);
      assert NoRoom(trail[1..]);
      NoRoomEvicts(h, trail[1..], kick + 1);
    }
  }

  lemma {:induction false} FirstOfRooms(trail: seq<Hop>, m: nat) returns (n: nat)
    requires 0 < m < |trail| && HasRoom(trail[m].cells, trail[m].bucket)
    ensures FirstRoom(trail, n) && n <= m
  {
    if i :| 0 < i < m && HasRoom(trail[i].cells, trail[i].bucket) {
      n := FirstOfRooms(trail, i);
    } else {
      n := m;
    }
  }

  /** Where an eviction starts: at the value's first bucket or at its partner. */
  predicate StartsAt(h: Hash, cells: Table, value: string, hop: Hop) {
    var fp, i1 := Fingerprint(h, value), h.index(value);
    hop.cells == cells && hop.fp == fp && hop.bucket == if h.startsFirst(value) then i1 else AltIndex(h, i1, fp)
  }

  /** Exactly when an insertion succeeds: there is room in one of the value's two buckets, or one of the
      first 64 evictions finds room in the partner bucket. Otherwise it ends after 64 evictions, with the
      last evicted fingerprint lost. */
  lemma InsertSucceedsIff(h: Hash, cells: Table, value: string, trail: seq<Hop>)
    requires |trail| == 65 && IsTrail(h, trail, 0) && StartsAt(h, cells, value, trail[0])
    ensures var i1 := h.index(value);
            InsertOutcome(h, cells, value).Stored? <==>
            || HasRoom(cells, i1) || HasRoom(cells, AltIndex(h, i1, Fingerprint(h, value)))
            || exists n :: 1 <= n <= 64 && HasRoom(trail[n].cells, trail[n].bucket)
    ensures InsertOutcome(h, cells, value).Evicted? ==>
              InsertOutcome(h, cells, value) == Evicted(trail[64].cells, trail[64].fp, trail[64].bucket)
  {
    var i1 := h.index(value);
    RoomIff(cells, i1);
    RoomIff(cells, AltIndex(h, i1, Fingerprint(h, value)));
    if m :| 1 <= m <= 64 && HasRoom(trail[m].cells, trail[m].bucket) {
      var n := FirstOfRooms(trail, m);
      RoomStores(h, trail, 0, n);
    } else {
      assert NoRoom(trail);
      NoRoomEvicts(h, trail, 0);
    }
  }

  /** There is a trail from every start. */
  lemma {:induction false} TrailFrom(h: Hash, cells: Table, b: Bucket, fp: Word16, n: nat, kick: nat)
    returns (trail: seq<Hop>)
    ensures |trail| == n + 1 && IsTrail(h, trail, kick)
    ensures trail[0] == Hop(cells, fp, b, h.victim(fp, kick))
    decreases n
  {
    var first := Hop(cells, fp, b, h.victim(fp, kick));
    trail := [first];
    if n > 0 {
      var cell := SLOTS * b + first.slot;
      var rest := TrailFrom(h, cells[cell := fp], AltIndex(h, b, cells[cell]), cells[cell], n - 1, kick + 1);
      trail := [first] + rest;
      forall i | 0 <= i < |trail| - 1
        ensures Follows(h, trail[i], trail[i + 1])
      {
        assert i > 0 ==> Follows(h, rest[i - 1], rest[i]);
      }
    }
  }

  /** Deleting a reported value removes one instance of its class; deleting any other changes nothing. */
  lemma DeleteRemovesOne(h: Hash, st: State, value: string, c: Class)
    requires st.count == Occupied(st.cells)
    ensures Reports(h, st.cells, value) ==>
              && Tally(h, Deleted(h, st, value).cells, c) + One(ClassOf(h, value) == c) == Tally(h, st.cells, c)
              && Deleted(h, st, value).count == st.count - 1
    ensures !Reports(h, st.cells, value) ==> Deleted(h, st, value) == st
    ensures Deleted(h, st, value).count == Occupied(Deleted(h, st, value).cells)
  {
    if Reports(h, st.cells, value) {
      var fp, i1 := Fingerprint(h, value), h.index(value);
      var b := if Holds(st.cells, i1, fp) then i1 else AltIndex(h, i1, fp);
      var k := SLOTS * b + SlotOf(st.cells, b, fp, 0);
      assert k / SLOTS == b && Cell(st.cells, b, SlotOf(st.cells, b, fp, 0)) == fp;
      SameClass(h, fp, b, i1);
      UpdateTally(h, st.cells, c, CELLS, k, 0);
      UpdateOccupied(st.cells, CELLS, k, 0);
    }
  }

  lemma {:induction false} EmptyTally(h: Hash, c: Class, n: nat)
    requires n <= CELLS
    ensures TallyTo(h, Empty().cells, c, n) == 0 && OccupiedTo(Empty().cells, n) == 0
  {
    if n > 0 {
      EmptyTally(h, c, n - 1);
    }
  }

  // ----- whole runs -----

  datatype Op = Insert(value: string) | Delete(value: string)

  function Step(h: Hash, st: State, op: Op): State {
    match op
    case Insert(v) => Inserted(h, st, v)
    case Delete(v) => Deleted(h, st, v)
  }

  function Run(h: Hash, ops: seq<Op>): State {
    if ops == [] then Empty() else Step(h, Run(h, Init(ops)), Last(ops))
  }

  function Without(values: seq<string>, value: string): seq<string> {
    if values == [] then []
    else if Last(values) == value then Init(values)
    else Without(Init(values), value) + [Last(values)]
  }

  /** The values inserted and not yet deleted, with repetitions. */
  function Live(ops: seq<Op>): seq<string> {
    if ops == [] then []
    else
      match Last(ops)
      case Insert(v) => Live(Init(ops)) + [v]
      case Delete(v) => Without(Live(Init(ops)), v)
  }

  /** Every insertion reported success and every deletion names a value that is live at that moment. */
  ghost predicate Disciplined(h: Hash, ops: seq<Op>) {
    ops != [] ==>
      && Disciplined(h, Init(ops))
      && (Last(ops).Insert? ==> InsertSucceeds(h, Run(h, Init(ops)), Last(ops).value))
      && (Last(ops).Delete? ==> Last(ops).value in Live(Init(ops)))
  }

  lemma {:induction false} WithoutTally(h: Hash, values: seq<string>, value: string, c: Class)
    requires value in values && "" !in values
    ensures TallyOf(h, Without(values, value), c) + One(ClassOf(h, value) == c) == TallyOf(h, values, c)
    ensures |Without(values, value)| == |values| - 1
    ensures "" !in Without(values, value)
  {
    assert values == Init(values) + [Last(values)];
    if Last(values) != value {
      WithoutTally(h, Init(values), value, c);
      var w := Without(Init(values), value);
      assert Init(w + [Last(values)]) == w;
    }
  }

  lemma {:induction false} MemberTally(h: Hash, values: seq<string>, value: string)
    requires value in values && value != ""
    ensures TallyOf(h, values, ClassOf(h, value)) > 0
  {
    assert values == Init(values) + [Last(values)];
    if Last(values) != value {
      MemberTally(h, Init(values), value);
    }
  }

  /** After a disciplined run the filter stores every class exactly as often as it occurs among the live
      values, and `count` is their number. */
  lemma {:induction false} RunTally(h: Hash, ops: seq<Op>, c: Class)
    requires Disciplined(h, ops)
    ensures Tally(h, Run(h, ops).cells, c) == TallyOf(h, Live(ops), c)
    ensures Run(h, ops).count == Occupied(Run(h, ops).cells) == |Live(ops)|
    ensures "" !in Live(ops)
  {
    if ops == [] {
      EmptyTally(h, c, CELLS);
    } else {
      RunTally(h, Init(ops), c);
      var st, live := Run(h, Init(ops)), Live(Init(ops));
      match Last(ops)
      case Insert(v) =>
        InsertConserves(h, st.cells, v, c);
        assert Init(live + [v]) == live;
      case Delete(v) =>
        RunTally(h, Init(ops), ClassOf(h, v));
        MemberTally(h, live, v);
        ReportsIffClassStored(h, st.cells, v);
        DeleteRemovesOne(h, st, v, c);
        WithoutTally(h, live, v, c);
    }
  }

  lemma {:induction false} TallyMember(h: Hash, values: seq<string>, c: Class) returns (value: string)
    requires TallyOf(h, values, c) > 0
    ensures value in values && value != "" && ClassOf(h, value) == c
  {
    if Last(values) != "" && ClassOf(h, Last(values)) == c {
      value := Last(values);
    } else {
      value := TallyMember(h, Init(values), c);
    }
  }

  /** Every disciplined run, whatever kick chains it took, reports exactly the values that share their
      class with a live one; in particular no live value is ever missed. */
  lemma ReportsExactlyLiveClasses(h: Hash, ops: seq<Op>, value: string)
    requires Disciplined(h, ops) && value != ""
    ensures Reports(h, Run(h, ops).cells, value) <==>
            exists v :: v in Live(ops) && ClassOf(h, v) == ClassOf(h, value)
  {
    var c := ClassOf(h, value);
    RunTally(h, ops, c);
    ReportsIffClassStored(h, Run(h, ops).cells, value);
    if v :| v in Live(ops) && ClassOf(h, v) == c {
      MemberTally(h, Live(ops), v);
    }
    if TallyOf(h, Live(ops), c) > 0 {
      var v := TallyMember(h, Live(ops), c);
    }
  }

  // ----- loading a list, results ignored -----

  function Loaded(h: Hash, list: seq<string>): State {
    if list == [] then Empty() else Inserted(h, Loaded(h, Init(list)), Last(list))
  }

  /** How many instances of a class the failed insertions of a load threw away. */
  function Lost(h: Hash, list: seq<string>, c: Class): nat {
    if list == [] then 0
    else
      Lost(h, Init(list), c) +
      if Last(list) == "" then 0
      else
        match InsertOutcome(h, Loaded(h, Init(list)).cells, Last(list))
        case Stored(_) => 0
        case Evicted(_, fp, b) => One(ClassAt(h, fp, b) == c)
  }

  /** A load conserves instances: what is stored and what was lost together make up the list. */
  lemma {:induction false} LoadConserves(h: Hash, list: seq<string>, c: Class)
    ensures Tally(h, Loaded(h, list).cells, c) + Lost(h, list, c) == TallyOf(h, list, c)
    ensures Loaded(h, list).count == Occupied(Loaded(h, list).cells)
  {
    if list == [] {
      EmptyTally(h, c, CELLS);
    } else {
      LoadConserves(h, Init(list), c);
      InsertConserves(h, Loaded(h, Init(list)).cells, Last(list), c);
    }
  }

  /** Exactly when a value is found after a load that ignores failures: fewer instances of its class
      were lost than the list holds. */
  lemma FoundAfterLoadIff(h: Hash, list: seq<string>, value: string)
    requires value != ""
    ensures Reports(h, Loaded(h, list).cells, value) <==>
            Lost(h, list, ClassOf(h, value)) < TallyOf(h, list, ClassOf(h, value))
  {
    LoadConserves(h, list, ClassOf(h, value));
    ReportsIffClassStored(h, Loaded(h, list).cells, value);
  }

  // ----- when a load is sure to keep its list, and when it is sure not to -----

  /** Every listed value is found after the load. */
  ghost predicate Complete(h: Hash, list: seq<string>) {
    forall v :: v in list && v != "" ==> Reports(h, Loaded(h, list).cells, v)
  }

  /** The entries whose first bucket is `b`. */
  function FirstIn(h: Hash, list: seq<string>, b: Bucket): nat {
    if list == [] then 0 else FirstIn(h, Init(list), b) + One(Last(list) != "" && h.index(Last(list)) == b)
  }

  /** The entries for which `b` is one of the two candidate buckets. */
  function CandidatesIn(h: Hash, list: seq<string>, b: Bucket): nat {
    if list == [] then 0
    else
      var v := Last(list);
      CandidatesIn(h, Init(list), b) +
      One(v != "" && (h.index(v) == b || AltIndex(h, h.index(v), Fingerprint(h, v)) == b))
  }

  function FullSlots(cells: Table, b: Bucket): nat {
    One(Cell(cells, b, 0) != 0) + One(Cell(cells, b, 1) != 0) +
    One(Cell(cells, b, 2) != 0) + One(Cell(cells, b, 3) != 0)
  }

  lemma RoomInBucket(cells: Table, b: Bucket)
    requires FullSlots(cells, b) < SLOTS
    ensures Holds(cells, b, 0)
  {
  }

  lemma PlacedFillsOne(cells: Table, b: Bucket, fp: Word16, other: Bucket)
    requires Holds(cells, b, 0) && fp != 0
    ensures FullSlots(Placed(cells, b, fp), other) == FullSlots(cells, other) + One(other == b)
  {
    var s := SlotOf(cells, b, 0, 0);
    assert Cell(cells, b, s) == 0;
    forall t: Slot
      ensures Cell(Placed(cells, b, fp), other, t) == if other == b && t == s then fp else Cell(cells, other, t)
    {
    }
  }

  lemma EmptySlots(b: Bucket)
    ensures FullSlots(Empty().cells, b) == 0
  {
  }

  ghost predicate AtMostFirst(h: Hash, list: seq<string>) { forall b: Bucket :: FirstIn(h, list, b) <= SLOTS }

  /** While no bucket is the first of more than four entries, every entry goes straight to its first bucket. */
  lemma {:induction false} DirectLoad(h: Hash, list: seq<string>, b: Bucket, c: Class)
    requires AtMostFirst(h, list)
    ensures FullSlots(Loaded(h, list).cells, b) == FirstIn(h, list, b)
    ensures Lost(h, list, c) == 0
  {
    if list == [] {
      EmptySlots(b);
    } else {
      var front, v := Init(list), Last(list);
      assert AtMostFirst(h, front) by {
        forall x: Bucket
          ensures FirstIn(h, front, x) <= SLOTS
        {
          assert FirstIn(h, list, x) <= SLOTS;
        }
      }
      DirectLoad(h, front, b, c);
      if v != "" {
        var i1, cells := h.index(v), Loaded(h, front).cells;
        DirectLoad(h, front, i1, c);
        assert FirstIn(h, list, i1) <= SLOTS;
        RoomInBucket(cells, i1);
        PlacedFillsOne(cells, i1, Fingerprint(h, v), b);
      }
    }
  }

  /** If no bucket is the first choice of more than four entries, a load loses nothing: every class is
      stored as often as it is listed, and every listed value is found. */
  lemma UncrowdedLoadKeepsAll(h: Hash, list: seq<string>, c: Class)
    requires AtMostFirst(h, list)
    ensures Tally(h, Loaded(h, list).cells, c) == TallyOf(h, list, c)
    ensures Complete(h, list)
  {
    DirectLoad(h, list, 0, c);
    LoadConserves(h, list, c);
    forall v | v in list && v != ""
      ensures Reports(h, Loaded(h, list).cells, v)
    {
      DirectLoad(h, list, 0, ClassOf(h, v));
      MemberTally(h, list, v);
      FoundAfterLoadIff(h, list, v);
    }
  }

  lemma {:induction false} FirstIsCandidate(h: Hash, list: seq<string>, b: Bucket)
    ensures FirstIn(h, list, b) <= CandidatesIn(h, list, b) <= |list|
  {
    if list != [] {
      FirstIsCandidate(h, Init(list), b);
    }
  }

  /** In particular nothing is lost if no bucket is a candidate of more than four entries, and none of a
      list of at most four entries. */
  lemma FewCandidatesKeepAll(h: Hash, list: seq<string>, c: Class)
    requires |list| <= 4 || forall b: Bucket :: CandidatesIn(h, list, b) <= 4
    ensures Lost(h, list, c) == 0 && Complete(h, list)
  {
    forall b: Bucket
      ensures FirstIn(h, list, b) <= SLOTS
    {
      FirstIsCandidate(h, list, b);
    }
    DirectLoad(h, list, 0, c);
    UncrowdedLoadKeepsAll(h, list, c);
  }

  /** The classes of the listed values both of whose buckets lie in some set of buckets. */
  function Confined(h: Hash, list: seq<string>, buckets: set<Bucket>): set<Class> {
    set v | v in list && v != "" && ClassOf(h, v).low in buckets && ClassOf(h, v).high in buckets :: ClassOf(h, v)
  }

  function CellsOf(buckets: set<Bucket>): set<nat> {
    set k: nat | k < CELLS && k / SLOTS in buckets
  }

  function SlotsOf(b: Bucket): seq<nat> { seq(SLOTS, i requires 0 <= i < SLOTS => SLOTS * b + i) }

  lemma SlotsSize(b: Bucket)
    ensures |Elements(SlotsOf(b))| == SLOTS
  {
    NoDuplicatesSize(SlotsOf(b));
  }

  lemma {:induction false} CellCount(buckets: set<Bucket>)
    ensures |CellsOf(buckets)| <= SLOTS * |buckets|
  {
    if b :| b in buckets {
      var rest, four := CellsOf(buckets - {b}), Elements(SlotsOf(b));
      SlotsSize(b);
      CellCount(buckets - {b});
      forall k | k in CellsOf(buckets)
        ensures k in rest + four
      {
        assert k / SLOTS == b ==> k == SlotsOf(b)[k % SLOTS];
      }
      SubsetSize(CellsOf(buckets), rest + four);
    } else {
      assert CellsOf(buckets) == {};
    }
  }

  function StoredIn(h: Hash, cells: Table, at: set<nat>): set<Class>
    requires forall k :: k in at ==> k < CELLS
  {
    set k | k in at :: ClassAt(h, cells[k], k / SLOTS)
  }

  lemma {:induction false} StoredCount(h: Hash, cells: Table, at: set<nat>)
    requires forall k :: k in at ==> k < CELLS
    ensures |StoredIn(h, cells, at)| <= |at|
  {
    if k :| k in at {
      StoredCount(h, cells, at - {k});
      assert StoredIn(h, cells, at) == StoredIn(h, cells, at - {k}) + {ClassAt(h, cells[k], k / SLOTS)};
    } else {
      assert StoredIn(h, cells, at) == {};
    }
  }

  /** A stored class occupies a cell of one of its two buckets. */
  lemma ReportedClassIsStored(h: Hash, cells: Table, value: string, buckets: set<Bucket>)
    requires value != "" && Reports(h, cells, value)
    requires ClassOf(h, value).low in buckets && ClassOf(h, value).high in buckets
    ensures ClassOf(h, value) in StoredIn(h, cells, CellsOf(buckets))
  {
    var c := ClassOf(h, value);
    ReportsIffClassStored(h, cells, value);
    var b := TalliedIsHeld(h, cells, c);
    var k := SLOTS * b + SlotOf(cells, b, c.fp, 0);
    assert cells[k] == c.fp && k / SLOTS == b;
    assert b == c.low || b == c.high;
  }

  /** Whatever the hashes: if the listed values have more classes confined to some buckets than these
      buckets have slots, some listed value is missed, in whatever order they were loaded. */
  lemma CrowdedLoadMisses(h: Hash, list: seq<string>, buckets: set<Bucket>)
    requires |Confined(h, list, buckets)| > SLOTS * |buckets|
    ensures !Complete(h, list)
  {
    if Complete(h, list) {
      var cells, at := Loaded(h, list).cells, CellsOf(buckets);
      forall c | c in Confined(h, list, buckets)
        ensures c in StoredIn(h, cells, at)
      {
        var v :| v in list && v != "" && ClassOf(h, v) == c && c.low in buckets && c.high in buckets;
        ReportedClassIsStored(h, cells, v, buckets);
      }
      CellCount(buckets);
      StoredCount(h, cells, at);
      SubsetSize(Confined(h, list, buckets), StoredIn(h, cells, at));
    }
  }

  function Classes(h: Hash, list: seq<string>): set<Class> { set v | v in list && v != "" :: ClassOf(h, v) }

  function FirstBuckets(n: nat): set<Bucket>
    requires n <= BUCKETS
  {
    if n == 0 then {} else FirstBuckets(n - 1) + {n - 1}
  }

  lemma {:induction false} BucketCount(n: nat)
    requires n <= BUCKETS
    ensures |FirstBuckets(n)| == n && forall b: Bucket :: b in FirstBuckets(n) <==> b < n
  {
    if n > 0 {
      BucketCount(n - 1);
    }
  }

  /** A list with more classes than the table has cells is never fully found. */
  lemma OverfullLoadMisses(h: Hash, list: seq<string>)
    requires |Classes(h, list)| > 16384
    ensures !Complete(h, list)
  {
    var all := FirstBuckets(BUCKETS);
    BucketCount(BUCKETS);
    assert Confined(h, list, all) == Classes(h, list);
    CrowdedLoadMisses(h, list, all);
  }

  // ----- the list lengths that are safe whatever the hashes -----

  /** Five values that meet in one bucket: same index, no alternate, different fingerprints. */
  function OneBucket(): Hash { Hash(v => if |v| < 0x1_0000 then |v| else 0, _ => 0, _ => 0, _ => true, (_, _) => 0) }

  function FiveValues(): seq<string> { seq(5, i requires 0 <= i < 5 => seq(i + 1, _ => 'a')) }

  lemma OneBucketClass(v: string)
    requires 0 < |v| < 16
    ensures ClassOf(OneBucket(), v) == Class(|v|, 0, 0)
  {
  }

  lemma FiveValuesCollide()
    ensures !Complete(OneBucket(), FiveValues())
  {
    var h, list := OneBucket(), FiveValues();
    var five: seq<Class> := seq(5, i requires 0 <= i < 5 => Class(i + 1, 0, 0));
    NoDuplicatesSize(five);
    forall c | c in Elements(five)
      ensures c in Confined(h, list, {0})
    {
      var i :| 0 <= i < 5 && five[i] == c;
      OneBucketClass(list[i]);
      assert list[i] in list;
    }
    SubsetSize(Elements(five), Confined(h, list, {0}));
    CrowdedLoadMisses(h, list, {0});
  }

  /** In the worst case a load keeps every list of some length exactly up to four entries. */
  lemma SafeLengthIff(n: nat)
    ensures (forall h, list :: |list| <= n ==> Complete(h, list)) <==> n <= 4
  {
    if n <= SLOTS {
      forall h, list | |list| <= n
        ensures Complete(h, list)
      {
        FewCandidatesKeepAll(h, list, Class(0, 0, 0));
      }
    } else {
      FiveValuesCollide();
      assert |FiveValues()| <= n;
    }
  }

  // ----- the filter itself -----

  class Cuckoo {
    const h: Hash
    const buckets: array<Word16>
    var count: nat

    ghost predicate Shaped() { buckets.Length == CELLS }

    ghost function Abs(): State
      requires Shaped()
      reads this, buckets
    {
      State(buckets[..], count)
    }

    constructor (h: Hash)
      ensures this.h == h && Shaped() && fresh(buckets) && Abs() == Empty()
    {
      this.h := h;
      buckets := new Word16[CELLS](_ => 0);
      count := 0;
      new;
      assert buckets[..] == Empty().cells;
    }

    method BucketContains(b: Bucket, fp: Word16) returns (found: bool)
      requires Shaped()
      ensures found <==> Holds(buckets[..], b, fp)
    {
      for i := 0 to SLOTS
        invariant SlotOf(buckets[..], b, fp, 0) == SlotOf(buckets[..], b, fp, i)
      {
        if buckets[SLOTS * b + i] == fp {
          return true;
        }
      }
      found := false;
    }

    method BucketInsert(b: Bucket, fp: Word16) returns (ok: bool)
      requires Shaped()
      modifies this, buckets
      ensures ok <==> old(Holds(buckets[..], b, 0))
      ensures Abs() == if ok then State(Placed(old(buckets[..]), b, fp), old(count) + 1) else old(Abs())
    {
      for i := 0 to SLOTS
        invariant Abs() == old(Abs())
        invariant SlotOf(buckets[..], b, 0, 0) == SlotOf(buckets[..], b, 0, i)
      {
        if buckets[SLOTS * b + i] == 0 {
          buckets[SLOTS * b + i] := fp;
          count := count + 1;
          return true;
        }
      }
      ok := false;
    }

    method Contains(value: string) returns (found: bool)
      requires Shaped()
      ensures found <==> Reports(h, buckets[..], value)
    {
      if value == "" {
        return false;
      }
      var fp := Fingerprint(h, value);
      var i1 := h.index(value);
      var i2 := AltIndex(h, i1, fp);
      found := BucketContains(i1, fp);
      if !found {
        found := BucketContains(i2, fp);
      }
    }

    method Insert(value: string) returns (ok: bool)
      requires Shaped()
      modifies this, buckets
      ensures ok <==> old(InsertSucceeds(h, Abs(), value))
      ensures Abs() == Inserted(h, old(Abs()), value)
    {
      if value == "" {
        return false;
      }
      var fp := Fingerprint(h, value);
      var i1 := h.index(value);
      var i2 := AltIndex(h, i1, fp);
      ok := BucketInsert(i1, fp);
      if ok {
        return true;
      }
      ok := BucketInsert(i2, fp);
      if ok {
        return true;
      }
      var idx := if h.startsFirst(value) then i1 else i2;
      for kick := 0 to MAX_KICKS
        invariant count == old(count)
        invariant KickChain(h, buckets[..], idx, fp, kick) == old(InsertOutcome(h, buckets[..], value))
      {
        var slot := h.victim(fp, kick);
        var evicted := buckets[SLOTS * idx + slot];
        buckets[SLOTS * idx + slot] := fp;
        fp := evicted;
        idx := AltIndex(h, idx, fp);
        ok := BucketInsert(idx, fp);
        if ok {
          return true;
        }
      }
      ok := false;
    }

    method BucketErase(b: Bucket, fp: Word16) returns (ok: bool)
      requires Shaped()
      modifies this, buckets
      ensures ok <==> old(Holds(buckets[..], b, fp))
      ensures ok ==> Abs() == State(Erased(old(buckets[..]), b, fp), if old(count) > 0 then old(count) - 1 else 0)
      ensures !ok ==> Abs() == old(Abs())
    {
      for i := 0 to SLOTS
        invariant Abs() == old(Abs())
        invariant SlotOf(buckets[..], b, fp, 0) == SlotOf(buckets[..], b, fp, i)
      {
        if buckets[SLOTS * b + i] == fp {
          buckets[SLOTS * b + i] := 0;
          if count > 0 {
            count := count - 1;
          }
          return true;
        }
      }
      ok := false;
    }

    method Delete(value: string) returns (ok: bool)
      requires Shaped()
      modifies this, buckets
      ensures ok <==> old(Reports(h, buckets[..], value))
      ensures Abs() == Deleted(h, old(Abs()), value)
    {
      if value == "" {
        return false;
      }
      var fp := Fingerprint(h, value);
      var i1 := h.index(value);
      ok := BucketErase(i1, fp);
      if !ok {
        ok := BucketErase(AltIndex(h, i1, fp), fp);
      }
    }

    method LoadFromList(list: seq<string>)
      requires Shaped()
      modifies this, buckets
      ensures Abs() == Loaded(h, list)
    {
      forall k | 0 <= k < CELLS {
        buckets[k] := 0;
      }
      count := 0;
      assert buckets[..] == Empty().cells;
      for i := 0 to |list|
        invariant Abs() == Loaded(h, list[..i])
      {
        var ok := Insert(list[i]);
        assert Init(list[..i + 1]) == list[..i];
      }
      assert list[..|list|] == list;
    }
  }
}

/** GuardSketch: a bounded window of per-process signals, counted exactly and in small Count-Min sketches. */
module GuardSketch {
  import opened Base
  import opened Bits

  const MAX_PIDS: nat := 128
  const BLOOM_BITS: nat := 2048
  const BLOOM_BYTES: nat := 256
  const BLOOM_HASHES: nat := 4
  const DEPTH: nat := 3
  const WIDTH: nat := 256
  const DEFAULT_WINDOW: nat := 64

  datatype Signal = Event | SensitiveFile | BlockedDestination | NetworkAfterFile

  type Col = n: nat | n < WIDTH
  type BloomPos = n: nat | n < BLOOM_BITS

  /** The hashed positions: the column of a signal of a process in a row, and the probes of a process. */
  datatype Hash = Hash(col: (int, Signal, nat) -> Col, probe: (int, nat) -> BloomPos)

  type Cms = rows: seq<seq<U32>> | |rows| == DEPTH && forall r :: 0 <= r < DEPTH ==> |rows[r]| == WIDTH
    witness seq(DEPTH, _ => seq(WIDTH, _ => 0))

  datatype Slot = Slot(pid: int, used: bool, events: nat, sensitive: nat, blocked: nat, network: nat, cms: Cms)

  datatype State = State(slots: seq<Slot>, bloom: seq<bv8>, limit: nat, events: nat, dropped: nat)

  // ----- the small sketch of one slot -----

  function EmptyCms(): Cms { seq(DEPTH, _ => seq(WIDTH, _ => 0)) }

  function Bumped(v: U32): U32 { if v == MAX_U32 then v else v + 1 }

  /** The sketch after the first `n` rows counted a signal, saturating. */
  function CountedRows(h: Hash, cms: Cms, pid: int, signal: Signal, n: nat): Cms
    requires n <= DEPTH
  {
    if n == 0 then cms
    else
      var c := CountedRows(h, cms, pid, signal, n - 1);
      var col := h.col(pid, signal, n - 1);
      var row: seq<U32> := c[n - 1][col := Bumped(c[n - 1][col])];
      c[n - 1 := row]
  }

  function Counted(h: Hash, cms: Cms, pid: int, signal: Signal): Cms { CountedRows(h, cms, pid, signal, DEPTH) }

  function Smallest(h: Hash, slot: Slot, signal: Signal, rows: nat): U32
    requires rows <= DEPTH
  {
    if rows == 0 then MAX_U32
    else Min(Smallest(h, slot, signal, rows - 1), slot.cms[rows - 1][h.col(slot.pid, signal, rows - 1)])
  }

  /** The smallest cell of a signal; a saturated one reads as zero. */
  function Estimate(h: Hash, slot: Slot, signal: Signal): U32 {
    var best := Smallest(h, slot, signal, DEPTH);
    if best == MAX_U32 then 0 else best
  }

  // ----- risk -----

  /** The capped score of four counts, summed in 64-bit arithmetic. */
  function Score(events: nat, sensitive: nat, blocked: nat, network: nat): nat {
    var sum := sensitive * 25 + blocked * 35 + network * 30 + if events >= 8 then 10 else 0;
    Min(sum % (MAX_U64 + 1), 100)
  }

  function ExactRisk(slot: Slot): nat { Score(slot.events, slot.sensitive, slot.blocked, slot.network) }

  function ApproxRisk(h: Hash, slot: Slot): nat {
    Score(Estimate(h, slot, Event), Estimate(h, slot, SensitiveFile),
          Estimate(h, slot, BlockedDestination), Estimate(h, slot, NetworkAfterFile))
  }

  // ----- one record -----

  function SlotOfPid(slots: seq<Slot>, pid: int, i: nat): (k: nat)
    requires i <= |slots|
    ensures i <= k <= |slots|
    ensures k < |slots| ==> slots[k].used && slots[k].pid == pid
    ensures forall j :: i <= j < k ==> !(slots[j].used && slots[j].pid == pid)
    decreases |slots| - i
  {
    if i == |slots| || (slots[i].used && slots[i].pid == pid) then i else SlotOfPid(slots, pid, i + 1)
  }

  function FirstFree(slots: seq<Slot>, i: nat): (k: nat)
    requires i <= |slots|
    ensures i <= k <= |slots|
    ensures k < |slots| ==> !slots[k].used
    ensures forall j :: i <= j < k ==> slots[j].used
    decreases |slots| - i
  {
    if i == |slots| || !slots[i].used then i else FirstFree(slots, i + 1)
  }

  function BloomWith(h: Hash, bloom: seq<bv8>, pid: int, n: nat): (out: seq<bv8>)
    requires |bloom| == BLOOM_BYTES
    ensures |out| == BLOOM_BYTES
  {
    if n == 0 then bloom else SetBit(BloomWith(h, bloom, pid, n - 1), h.probe(pid, n - 1))
  }

  predicate MaybeContains(h: Hash, bloom: seq<bv8>, pid: int)
    requires |bloom| == BLOOM_BYTES
  {
    forall i :: 0 <= i < BLOOM_HASHES ==> Bit(bloom, h.probe(pid, i))
  }

  function FreshSlot(pid: int): Slot { Slot(pid, true, 0, 0, 0, 0, EmptyCms()) }

  /** The slot after it recorded a signal: EVENT is counted, then the signal itself. */
  function Recorded(h: Hash, slot: Slot, signal: Signal): Slot {
    slot.(events := slot.events + 1,
          sensitive := slot.sensitive + if signal == SensitiveFile then 1 else 0,
          blocked := slot.blocked + if signal == BlockedDestination then 1 else 0,
          network := slot.network + if signal == NetworkAfterFile then 1 else 0,
          cms := Counted(h, Counted(h, slot.cms, slot.pid, Event), slot.pid, signal))
  }

  predicate Accepts(st: State, pid: int) {
    st.events < st.limit && (SlotOfPid(st.slots, pid, 0) < |st.slots| || FirstFree(st.slots, 0) < |st.slots|)
  }

  function After(h: Hash, st: State, pid: int, signal: Signal): State
    requires |st.bloom| == BLOOM_BYTES
  {
    var k, free := SlotOfPid(st.slots, pid, 0), FirstFree(st.slots, 0);
    if !Accepts(st, pid) then st.(dropped := st.dropped + 1)
    else if k < |st.slots| then
      st.(slots := st.slots[k := Recorded(h, st.slots[k], signal)], events := st.events + 1)
    else
      st.(slots := st.slots[free := Recorded(h, FreshSlot(pid), signal)],
          bloom := BloomWith(h, st.bloom, pid, BLOOM_HASHES), events := st.events + 1)
  }

  function Started(limit: nat): State {
    State(seq(MAX_PIDS, _ => Slot(0, false, 0, 0, 0, 0, EmptyCms())), seq(BLOOM_BYTES, _ => 0),
          if limit == 0 then DEFAULT_WINDOW else limit, 0, 0)
  }

  // ----- whole runs against a simple definition -----

  datatype Sample = Sample(pid: int, signal: Signal)

  function Run(h: Hash, limit: nat, log: seq<Sample>): (st: State)
    ensures |st.bloom| == BLOOM_BYTES
  {
    if log == [] then Started(limit)
    else After(h, Run(h, limit, Init(log)), Last(log).pid, Last(log).signal)
  }

  function Window(limit: nat): nat { if limit == 0 then DEFAULT_WINDOW else limit }

  function Pids(log: seq<Sample>): seq<int> {
    if log == [] then [] else Pids(Init(log)) + [Last(log).pid]
  }

  /** A sample is counted while the window lasts and its process is one of the first 128 seen in it. */
  function KeptWith(limit: nat, kept: seq<Sample>, s: Sample): seq<Sample> {
    var tracked := Distinct(Pids(kept));
    if |kept| < Window(limit) && (s.pid in tracked || |tracked| < MAX_PIDS) then kept + [s] else kept
  }

  /** The samples of a log that are counted. */
  function Kept(limit: nat, log: seq<Sample>): seq<Sample> {
    if log == [] then [] else KeptWith(limit, Kept(limit, Init(log)), Last(log))
  }

  function Tally(log: seq<Sample>, pid: int, signal: Signal): nat {
    if log == [] then 0
    else Tally(Init(log), pid, signal) + if Last(log) == Sample(pid, signal) then 1 else 0
  }

  function EventsOf(log: seq<Sample>, pid: int): nat {
    if log == [] then 0 else EventsOf(Init(log), pid) + if Last(log).pid == pid then 1 else 0
  }

  /** How often a key was counted: EVENT once for every sample and once more for a plain one. */
  function Adds(slot: Slot, signal: Signal): int {
    match signal
    case Event => 2 * slot.events - slot.sensitive - slot.blocked - slot.network
    case SensitiveFile => slot.sensitive
    case BlockedDestination => slot.blocked
    case NetworkAfterFile => slot.network
  }

  function Share(h: Hash, slot: Slot, signal: Signal, row: nat, col: nat): int {
    if h.col(slot.pid, signal, row) == col then Adds(slot, signal) else 0
  }

  /** All that was counted into a cell: the adds of the signals that hash to it. */
  function CellLoad(h: Hash, slot: Slot, row: nat, col: nat): int {
    Share(h, slot, Event, row, col) + Share(h, slot, SensitiveFile, row, col) +
    Share(h, slot, BlockedDestination, row, col) + Share(h, slot, NetworkAfterFile, row, col)
  }

  /** Every cell holds its load, saturated. */
  ghost predicate Faithful(h: Hash, slot: Slot) {
    && slot.sensitive + slot.blocked + slot.network <= slot.events
    && forall row, col :: 0 <= row < DEPTH && 0 <= col < WIDTH ==>
         slot.cms[row][col] == Min(MAX_U32, CellLoad(h, slot, row, col))
  }

  /** The slot of a process counts exactly its samples. */
  ghost predicate Counts(h: Hash, slot: Slot, kept: seq<Sample>, pid: int) {
    && slot.used && slot.pid == pid
    && slot.events == EventsOf(kept, pid)
    && slot.sensitive == Tally(kept, pid, SensitiveFile)
    && slot.blocked == Tally(kept, pid, BlockedDestination)
    && slot.network == Tally(kept, pid, NetworkAfterFile)
    && Faithful(h, slot)
  }

  /** A state agrees with the samples kept: one slot per process in order of first appearance, its exact
      counters and its sketch as defined above, its process in the Bloom filter; the rest of the slots free. */
  ghost predicate Agrees(h: Hash, st: State, kept: seq<Sample>) {
    var pids := Distinct(Pids(kept));
    && |st.slots| == MAX_PIDS && |pids| <= MAX_PIDS && |st.bloom| == BLOOM_BYTES
    && st.events == |kept|
    && (forall i :: 0 <= i < |pids| ==> Counts(h, st.slots[i], kept, pids[i]))
    && (forall i :: |pids| <= i < MAX_PIDS ==> !st.slots[i].used)
    && (forall i :: 0 <= i < |pids| ==> MaybeContains(h, st.bloom, pids[i]))
  }

  lemma {:induction false} CountedCells(h: Hash, cms: Cms, pid: int, signal: Signal, n: nat, row: nat, col: nat)
    requires n <= DEPTH && row < DEPTH && col < WIDTH
    ensures CountedRows(h, cms, pid, signal, n)[row][col] ==
            if row < n && h.col(pid, signal, row) == col then Bumped(cms[row][col]) else cms[row][col]
  {
    if n > 0 {
      CountedCells(h, cms, pid, signal, n - 1, row, col);
    }
  }

  /** Recording one sample keeps the sketch faithful, the double count of EVENT included. */
  lemma RecordedFaithful(h: Hash, slot: Slot, signal: Signal)
    requires Faithful(h, slot)
    ensures Faithful(h, Recorded(h, slot, signal))
  {
    var after := Recorded(h, slot, signal);
    forall row, col | 0 <= row < DEPTH && 0 <= col < WIDTH
      ensures after.cms[row][col] == Min(MAX_U32, CellLoad(h, after, row, col))
    {
      CountedCells(h, slot.cms, slot.pid, Event, DEPTH, row, col);
      CountedCells(h, Counted(h, slot.cms, slot.pid, Event), slot.pid, signal, DEPTH, row, col);
      LoadStep(h, slot, signal, row, col);
      assert slot.cms[row][col] == Min(MAX_U32, CellLoad(h, slot, row, col));
    }
  }

  lemma LoadStep(h: Hash, slot: Slot, signal: Signal, row: nat, col: nat)
    requires slot.sensitive + slot.blocked + slot.network <= slot.events
    ensures CellLoad(h, slot, row, col) >= 0
    ensures CellLoad(h, Recorded(h, slot, signal), row, col) ==
            CellLoad(h, slot, row, col) +
            (if h.col(slot.pid, Event, row) == col then 1 else 0) +
            (if h.col(slot.pid, signal, row) == col then 1 else 0)
  {
  }

  lemma FreshFaithful(h: Hash, pid: int)
    ensures Faithful(h, FreshSlot(pid))
  {
  }

  lemma {:induction false} BloomKeeps(h: Hash, bloom: seq<bv8>, pid: int, n: nat, pos: nat)
    requires |bloom| == BLOOM_BYTES && pos < BLOOM_BITS
    ensures Bit(bloom, pos) ==> Bit(BloomWith(h, bloom, pid, n), pos)
    ensures (exists i :: 0 <= i < n && h.probe(pid, i) == pos) ==> Bit(BloomWith(h, bloom, pid, n), pos)
  {
    if n > 0 {
      BloomKeeps(h, bloom, pid, n - 1, pos);
      SetBitAt(BloomWith(h, bloom, pid, n - 1), h.probe(pid, n - 1), pos);
    }
  }

  lemma BloomAdds(h: Hash, bloom: seq<bv8>, pid: int, other: int)
    requires |bloom| == BLOOM_BYTES
    ensures MaybeContains(h, BloomWith(h, bloom, pid, BLOOM_HASHES), pid)
    ensures MaybeContains(h, bloom, other) ==> MaybeContains(h, BloomWith(h, bloom, pid, BLOOM_HASHES), other)
  {
    forall i | 0 <= i < BLOOM_HASHES
      ensures Bit(BloomWith(h, bloom, pid, BLOOM_HASHES), h.probe(pid, i))
      ensures Bit(bloom, h.probe(other, i)) ==> Bit(BloomWith(h, bloom, pid, BLOOM_HASHES), h.probe(other, i))
    {
      BloomKeeps(h, bloom, pid, BLOOM_HASHES, h.probe(pid, i));
      BloomKeeps(h, bloom, pid, BLOOM_HASHES, h.probe(other, i));
    }
  }

  lemma {:induction false} FirstFreeAfterUsed(slots: seq<Slot>, i: nat, n: nat)
    requires i <= n <= |slots| && forall j :: i <= j < n ==> slots[j].used
    requires n < |slots| ==> !slots[n].used
    ensures FirstFree(slots, i) == n
    decreases n - i
  {
    if i < n {
      FirstFreeAfterUsed(slots, i + 1, n);
    }
  }

  /** Where a process is found: at its place among the distinct ones, or nowhere. */
  lemma SlotLookup(h: Hash, st: State, kept: seq<Sample>, pid: int)
    requires Agrees(h, st, kept)
    ensures var pids, k := Distinct(Pids(kept)), SlotOfPid(st.slots, pid, 0);
            && (pid in pids ==> k < |pids| && pids[k] == pid)
            && (pid !in pids ==> k == MAX_PIDS)
            && FirstFree(st.slots, 0) == |pids|
  {
    var pids, k := Distinct(Pids(kept)), SlotOfPid(st.slots, pid, 0);
    if pid in pids {
      var i :| 0 <= i < |pids| && pids[i] == pid;
      assert Counts(h, st.slots[i], kept, pids[i]);
    }
    if k < MAX_PIDS {
      assert k < |pids|;
      assert Counts(h, st.slots[k], kept, pids[k]);
    }
    assert forall i :: 0 <= i < |pids| ==> Counts(h, st.slots[i], kept, pids[i]);
    FirstFreeAfterUsed(st.slots, 0, |pids|);
  }

  lemma KeptStep(kept: seq<Sample>, s: Sample)
    ensures Pids(kept + [s]) == Pids(kept) + [s.pid]
    ensures Distinct(Pids(kept + [s])) ==
            if s.pid in Distinct(Pids(kept)) then Distinct(Pids(kept)) else Distinct(Pids(kept)) + [s.pid]
  {
    assert Init(kept + [s]) == kept;
    assert Init(Pids(kept) + [s.pid]) == Pids(kept);
    DistinctElements(Pids(kept));
  }

  lemma TallyStep(kept: seq<Sample>, s: Sample, pid: int, signal: Signal)
    ensures EventsOf(kept + [s], pid) == EventsOf(kept, pid) + if s.pid == pid then 1 else 0
    ensures Tally(kept + [s], pid, signal) == Tally(kept, pid, signal) + if s == Sample(pid, signal) then 1 else 0
  {
    assert Init(kept + [s]) == kept;
  }

  lemma TalliesStep(kept: seq<Sample>, s: Sample, pid: int)
    ensures EventsOf(kept + [s], pid) == EventsOf(kept, pid) + if s.pid == pid then 1 else 0
    ensures Tally(kept + [s], pid, SensitiveFile) ==
            Tally(kept, pid, SensitiveFile) + if s == Sample(pid, SensitiveFile) then 1 else 0
    ensures Tally(kept + [s], pid, BlockedDestination) ==
            Tally(kept, pid, BlockedDestination) + if s == Sample(pid, BlockedDestination) then 1 else 0
    ensures Tally(kept + [s], pid, NetworkAfterFile) ==
            Tally(kept, pid, NetworkAfterFile) + if s == Sample(pid, NetworkAfterFile) then 1 else 0
  {
    TallyStep(kept, s, pid, SensitiveFile);
    TallyStep(kept, s, pid, BlockedDestination);
    TallyStep(kept, s, pid, NetworkAfterFile);
  }

  lemma {:induction false} UnseenPid(kept: seq<Sample>, pid: int)
    requires pid !in Pids(kept)
    ensures EventsOf(kept, pid) == 0 && forall signal :: Tally(kept, pid, signal) == 0
  {
    if kept != [] {
      assert Pids(kept) == Pids(Init(kept)) + [Last(kept).pid];
      UnseenPid(Init(kept), pid);
    }
  }

  lemma SlotStep(h: Hash, slot: Slot, kept: seq<Sample>, s: Sample)
    requires Counts(h, slot, kept, s.pid)
    ensures Counts(h, Recorded(h, slot, s.signal), kept + [s], s.pid)
  {
    TalliesStep(kept, s, s.pid);
    RecordedFaithful(h, slot, s.signal);
  }

  lemma OtherSlot(h: Hash, slot: Slot, kept: seq<Sample>, s: Sample, pid: int)
    requires Counts(h, slot, kept, pid) && pid != s.pid
    ensures Counts(h, slot, kept + [s], pid)
  {
    TalliesStep(kept, s, pid);
  }

  lemma KnownProcess(h: Hash, st: State, kept: seq<Sample>, s: Sample)
    requires Agrees(h, st, kept) && s.pid in Distinct(Pids(kept)) && st.events < st.limit
    ensures Agrees(h, After(h, st, s.pid, s.signal), kept + [s])
  {
    SlotLookup(h, st, kept, s.pid);
    KeptStep(kept, s);
    DistinctElements(Pids(kept));
    var pids, k := Distinct(Pids(kept)), SlotOfPid(st.slots, s.pid, 0);
    var after := After(h, st, s.pid, s.signal);
    forall i | 0 <= i < |pids|
      ensures Counts(h, after.slots[i], kept + [s], pids[i])
    {
      if i == k {
        SlotStep(h, st.slots[k], kept, s);
      } else {
        OtherSlot(h, st.slots[i], kept, s, pids[i]);
      }
    }
  }

  lemma NewProcess(h: Hash, st: State, kept: seq<Sample>, s: Sample)
    requires Agrees(h, st, kept) && s.pid !in Distinct(Pids(kept)) && |Distinct(Pids(kept))| < MAX_PIDS
    requires st.events < st.limit
    ensures Agrees(h, After(h, st, s.pid, s.signal), kept + [s])
  {
    SlotLookup(h, st, kept, s.pid);
    KeptStep(kept, s);
    DistinctElements(Pids(kept));
    UnseenPid(kept, s.pid);
    FreshFaithful(h, s.pid);
    var pids := Distinct(Pids(kept));
    var after := After(h, st, s.pid, s.signal);
    SlotStep(h, FreshSlot(s.pid), kept, s);
    forall i | 0 <= i < |pids|
      ensures Counts(h, after.slots[i], kept + [s], pids[i])
      ensures MaybeContains(h, after.bloom, pids[i])
    {
      OtherSlot(h, st.slots[i], kept, s, pids[i]);
      BloomAdds(h, st.bloom, s.pid, pids[i]);
    }
    BloomAdds(h, st.bloom, s.pid, s.pid);
  }

  lemma StepAgrees(h: Hash, limit: nat, st: State, kept: seq<Sample>, s: Sample)
    requires Agrees(h, st, kept) && st.limit == Window(limit) && st.events <= st.limit
    ensures var after := After(h, st, s.pid, s.signal);
            && Agrees(h, after, KeptWith(limit, kept, s))
            && after.limit == st.limit && after.events <= st.limit
            && after.events + after.dropped == st.events + st.dropped + 1
  {
    SlotLookup(h, st, kept, s.pid);
    if Accepts(st, s.pid) {
      if s.pid in Distinct(Pids(kept)) {
        KnownProcess(h, st, kept, s);
      } else {
        NewProcess(h, st, kept, s);
      }
    }
  }

  /** The state machine computes exactly the simple definition, for every log: which samples count, one slot
      per process, its counters, its sketch cell by cell; and every other sample is a counted drop. */
  lemma {:induction false} RunAgrees(h: Hash, limit: nat, log: seq<Sample>)
    ensures Agrees(h, Run(h, limit, log), Kept(limit, log))
    ensures Run(h, limit, log).limit == Window(limit) && Run(h, limit, log).events <= Window(limit)
    ensures Run(h, limit, log).events + Run(h, limit, log).dropped == |log|
  {
    if log != [] {
      RunAgrees(h, limit, Init(log));
      StepAgrees(h, limit, Run(h, limit, Init(log)), Kept(limit, Init(log)), Last(log));
    }
  }

  // ----- rows and risks -----

  /** The sum of the loads of the first `n` cells of a row. */
  function RowLoad(h: Hash, slot: Slot, row: nat, n: nat): int {
    if n == 0 then 0 else RowLoad(h, slot, row, n - 1) + CellLoad(h, slot, row, n - 1)
  }

  lemma {:induction false} RowLoadOf(h: Hash, slot: Slot, row: nat, n: nat)
    ensures RowLoad(h, slot, row, n) ==
            (if h.col(slot.pid, Event, row) < n then Adds(slot, Event) else 0) +
            (if h.col(slot.pid, SensitiveFile, row) < n then Adds(slot, SensitiveFile) else 0) +
            (if h.col(slot.pid, BlockedDestination, row) < n then Adds(slot, BlockedDestination) else 0) +
            (if h.col(slot.pid, NetworkAfterFile, row) < n then Adds(slot, NetworkAfterFile) else 0)
  {
    if n > 0 {
      RowLoadOf(h, slot, row, n - 1);
    }
  }

  /** Every row receives two counts per event, whatever the hashes. */
  lemma RowConservesEvents(h: Hash, slot: Slot, row: nat)
    ensures RowLoad(h, slot, row, 256) == 2 * slot.events
  {
    RowLoadOf(h, slot, row, WIDTH);
  }

  /** The sum of the first `n` stored cells of a row. */
  function StoredRow(slot: Slot, row: nat, n: nat): nat
    requires row < DEPTH && n <= WIDTH
  {
    if n == 0 then 0 else StoredRow(slot, row, n - 1) + slot.cms[row][n - 1]
  }

  lemma CellBelowSaturation(h: Hash, slot: Slot, row: nat, col: nat)
    requires Faithful(h, slot) && 2 * slot.events <= MAX_U32 && row < DEPTH && col < WIDTH
    ensures slot.cms[row][col] == CellLoad(h, slot, row, col)
  {
    assert CellLoad(h, slot, row, col) <= 2 * slot.events;
  }

  lemma {:induction false} StoredIsLoad(h: Hash, slot: Slot, row: nat, n: nat)
    requires Faithful(h, slot) && 2 * slot.events <= MAX_U32 && row < DEPTH && n <= WIDTH
    ensures StoredRow(slot, row, n) == RowLoad(h, slot, row, n)
  {
    if n > 0 {
      StoredIsLoad(h, slot, row, n - 1);
      CellBelowSaturation(h, slot, row, n - 1);
    }
  }

  /** In every reachable state with a window below saturation, each stored row of each slot sums to twice
      the exact events of its process. */
  lemma StoredRowConservesEvents(h: Hash, limit: nat, log: seq<Sample>, i: nat, row: nat)
    requires 2 * Window(limit) <= MAX_U32 && row < DEPTH
    requires i < |Run(h, limit, log).slots| && Run(h, limit, log).slots[i].used
    ensures var slot := Run(h, limit, log).slots[i];
            StoredRow(slot, row, 256) == 2 * slot.events
  {
    var slot := Run(h, limit, log).slots[i];
    UsedSlots(h, limit, log, i);
    StoredIsLoad(h, slot, row, WIDTH);
    RowConservesEvents(h, slot, row);
  }

  lemma CellLoadBounds(h: Hash, slot: Slot, signal: Signal, row: nat)
    requires slot.sensitive + slot.blocked + slot.network <= slot.events
    ensures 0 <= Adds(slot, signal) <= CellLoad(h, slot, row, h.col(slot.pid, signal, row)) <= 2 * slot.events
  {
  }

  lemma CellOf(h: Hash, slot: Slot, row: nat, col: nat)
    requires Faithful(h, slot) && row < DEPTH && col < WIDTH
    ensures slot.cms[row][col] == Min(MAX_U32, CellLoad(h, slot, row, col))
  {
  }

  lemma {:induction false} SmallestBounds(h: Hash, slot: Slot, signal: Signal, rows: nat)
    requires Faithful(h, slot) && 0 < rows <= DEPTH
    ensures Min(MAX_U32, Adds(slot, signal)) <= Smallest(h, slot, signal, rows) <= 2 * slot.events
  {
    var col := h.col(slot.pid, signal, rows - 1);
    CellLoadBounds(h, slot, signal, rows - 1);
    CellOf(h, slot, rows - 1, col);
    if rows > 1 {
      SmallestBounds(h, slot, signal, rows - 1);
    }
  }

  /** Below saturation an estimate never falls short of what was counted. */
  lemma EstimateBounds(h: Hash, slot: Slot, signal: Signal)
    requires Faithful(h, slot) && 2 * slot.events < MAX_U32
    ensures Adds(slot, signal) <= Estimate(h, slot, signal) <= 2 * slot.events
  {
    SmallestBounds(h, slot, signal, DEPTH);
  }

  lemma SmallScore(events: nat, sensitive: nat, blocked: nat, network: nat)
    requires sensitive <= MAX_U32 && blocked <= MAX_U32 && network <= MAX_U32
    ensures Score(events, sensitive, blocked, network) ==
            Min(sensitive * 25 + blocked * 35 + network * 30 + (if events >= 8 then 10 else 0), 100)
  {
  }

  /** The approximate risk of a faithful slot below saturation is at least the exact one. */
  lemma RiskNotUnderestimated(h: Hash, slot: Slot)
    requires Faithful(h, slot) && 2 * slot.events < MAX_U32
    ensures ExactRisk(slot) <= ApproxRisk(h, slot) <= 100
  {
    EstimateBounds(h, slot, Event);
    EstimateBounds(h, slot, SensitiveFile);
    EstimateBounds(h, slot, BlockedDestination);
    EstimateBounds(h, slot, NetworkAfterFile);
    SmallScore(slot.events, slot.sensitive, slot.blocked, slot.network);
    SmallScore(Estimate(h, slot, Event), Estimate(h, slot, SensitiveFile),
               Estimate(h, slot, BlockedDestination), Estimate(h, slot, NetworkAfterFile));
  }

  lemma {:induction false} EventsAtMost(log: seq<Sample>, pid: int)
    ensures EventsOf(log, pid) <= |log|
  {
    if log != [] {
      EventsAtMost(Init(log), pid);
    }
  }

  ghost predicate RiskSafe(h: Hash, st: State) {
    forall i :: 0 <= i < |st.slots| && st.slots[i].used ==> ExactRisk(st.slots[i]) <= ApproxRisk(h, st.slots[i])
  }

  lemma UsedSlots(h: Hash, limit: nat, log: seq<Sample>, i: nat)
    requires i < |Run(h, limit, log).slots| && Run(h, limit, log).slots[i].used
    ensures Faithful(h, Run(h, limit, log).slots[i]) && Run(h, limit, log).slots[i].events <= Window(limit)
  {
    RunAgrees(h, limit, log);
    var kept := Kept(limit, log);
    var pids := Distinct(Pids(kept));
    assert Counts(h, Run(h, limit, log).slots[i], kept, pids[i]);
    EventsAtMost(kept, pids[i]);
  }

  lemma SmallWindowSafe(h: Hash, limit: nat, log: seq<Sample>)
    requires 2 * Window(limit) < MAX_U32
    ensures RiskSafe(h, Run(h, limit, log))
  {
    var st := Run(h, limit, log);
    forall i | 0 <= i < |st.slots| && st.slots[i].used
      ensures ExactRisk(st.slots[i]) <= ApproxRisk(h, st.slots[i])
    {
      UsedSlots(h, limit, log, i);
      RiskNotUnderestimated(h, st.slots[i]);
    }
  }

  // ----- what the risks and estimates are -----

  lemma {:induction false} KeptWithinWindow(limit: nat, log: seq<Sample>)
    ensures |Kept(limit, log)| <= Window(limit)
  {
    if log != [] {
      KeptWithinWindow(limit, Init(log));
    }
  }

  lemma ScoreBelowWrap(events: nat, sensitive: nat, blocked: nat, network: nat)
    requires sensitive + blocked + network <= events && 35 * events + 10 <= MAX_U64
    ensures Score(events, sensitive, blocked, network) ==
            Min(100, 25 * sensitive + 35 * blocked + 30 * network + if events >= 8 then 10 else 0)
  {
  }

  lemma TrackedSlot(h: Hash, limit: nat, log: seq<Sample>, pid: int) returns (k: nat)
    requires pid in Pids(Kept(limit, log))
    ensures var slots := Run(h, limit, log).slots;
            k < 128 == |slots| && k == SlotOfPid(slots, pid, 0) && Counts(h, slots[k], Kept(limit, log), pid)
  {
    var kept, st := Kept(limit, log), Run(h, limit, log);
    RunAgrees(h, limit, log);
    DistinctElements(Pids(kept));
    SlotLookup(h, st, kept, pid);
    k := SlotOfPid(st.slots, pid, 0);
    assert Counts(h, st.slots[k], kept, pid);
  }

  /** The risk that samples make: 25 for each sensitive file, 35 for each blocked destination, 30 for each
      network access after a file and 10 for eight events, at most 100. */
  function RiskFrom(kept: seq<Sample>, pid: int): int {
    Min(100, 25 * Tally(kept, pid, SensitiveFile) + 35 * Tally(kept, pid, BlockedDestination) +
             30 * Tally(kept, pid, NetworkAfterFile) + if EventsOf(kept, pid) >= 8 then 10 else 0)
  }

  lemma ExactRiskOfSlot(h: Hash, slot: Slot, kept: seq<Sample>, pid: int)
    requires Counts(h, slot, kept, pid) && 35 * |kept| + 10 <= MAX_U64
    ensures ExactRisk(slot) == RiskFrom(kept, pid)
  {
    EventsAtMost(kept, pid);
    ScoreBelowWrap(slot.events, slot.sensitive, slot.blocked, slot.network);
  }

  /** The exact risk of every process with a slot is that of its kept samples. */
  lemma ExactRiskOfLog(h: Hash, limit: nat, log: seq<Sample>, pid: int)
    requires 35 * Window(limit) + 10 <= MAX_U64 && pid in Pids(Kept(limit, log))
    ensures var kept, slots := Kept(limit, log), Run(h, limit, log).slots;
            var k := SlotOfPid(slots, pid, 0);
            && k < 128 == |slots|
            && ExactRisk(slots[k]) == RiskFrom(kept, pid)
  {
    var k := TrackedSlot(h, limit, log, pid);
    KeptWithinWindow(limit, log);
    ExactRiskOfSlot(h, Run(h, limit, log).slots[k], Kept(limit, log), pid);
  }

  lemma {:induction false} SmallestIsLeast(h: Hash, slot: Slot, signal: Signal, rows: nat)
    requires rows <= DEPTH
    ensures forall row :: 0 <= row < rows ==>
              Smallest(h, slot, signal, rows) <= slot.cms[row][h.col(slot.pid, signal, row)]
    ensures Smallest(h, slot, signal, rows) == MAX_U32 ||
            exists row :: 0 <= row < rows &&
              Smallest(h, slot, signal, rows) == slot.cms[row][h.col(slot.pid, signal, row)]
  {
    if rows > 0 {
      SmallestIsLeast(h, slot, signal, rows - 1);
    }
  }

  function LoadOf(h: Hash, slot: Slot, signal: Signal, row: nat): int {
    CellLoad(h, slot, row, h.col(slot.pid, signal, row))
  }

  /** Below saturation an estimate is the least load among the three cells of the signal. */
  lemma EstimateIsLeastLoad(h: Hash, slot: Slot, signal: Signal)
    requires Faithful(h, slot) && 2 * slot.events < MAX_U32
    ensures forall row :: 0 <= row < 3 ==> Estimate(h, slot, signal) <= LoadOf(h, slot, signal, row)
    ensures exists row :: 0 <= row < 3 && Estimate(h, slot, signal) == LoadOf(h, slot, signal, row)
  {
    SmallestIsLeast(h, slot, signal, DEPTH);
    SmallestBounds(h, slot, signal, DEPTH);
    forall row | 0 <= row < 3
      ensures slot.cms[row][h.col(slot.pid, signal, row)] == LoadOf(h, slot, signal, row)
    {
      CellBelowSaturation(h, slot, row, h.col(slot.pid, signal, row));
    }
    var row :| 0 <= row < DEPTH && Smallest(h, slot, signal, DEPTH) == slot.cms[row][h.col(slot.pid, signal, row)];
    assert Estimate(h, slot, signal) == LoadOf(h, slot, signal, row);
  }

  /** In some row no other signal of the process shares the cell. */
  ghost predicate HasOwnCell(h: Hash, slot: Slot, signal: Signal) {
    exists row :: 0 <= row < 3 && OwnCell(h, slot, signal, row)
  }

  ghost predicate OwnCell(h: Hash, slot: Slot, signal: Signal, row: nat) {
    forall other :: other != signal ==> h.col(slot.pid, other, row) != h.col(slot.pid, signal, row)
  }

  /** A signal with a cell of its own in some row is estimated exactly. */
  lemma OwnCellIsExact(h: Hash, slot: Slot, signal: Signal)
    requires Faithful(h, slot) && 2 * slot.events < MAX_U32 && HasOwnCell(h, slot, signal)
    ensures Estimate(h, slot, signal) == Adds(slot, signal)
  {
    EstimateIsLeastLoad(h, slot, signal);
    EstimateBounds(h, slot, signal);
    var row :| 0 <= row < 3 && OwnCell(h, slot, signal, row);
    OwnLoad(h, slot, signal, row);
  }

  lemma OwnLoad(h: Hash, slot: Slot, signal: Signal, row: nat)
    requires OwnCell(h, slot, signal, row)
    ensures LoadOf(h, slot, signal, row) == Adds(slot, signal)
  {
    assert forall other :: other != signal ==> Share(h, slot, other, row, h.col(slot.pid, signal, row)) == 0;
  }

  /** If every signal has a cell of its own in some row, the approximate risk is the exact one but for the
      events, whose key counts plain events twice. */
  lemma ApproxRiskWhenApart(h: Hash, slot: Slot)
    requires Faithful(h, slot) && 2 * slot.events < MAX_U32
    requires forall signal :: HasOwnCell(h, slot, signal)
    ensures var counted := 2 * slot.events - slot.sensitive - slot.blocked - slot.network;
            ApproxRisk(h, slot) ==
            Min(100, 25 * slot.sensitive + 35 * slot.blocked + 30 * slot.network + if counted >= 8 then 10 else 0)
  {
    OwnCellIsExact(h, slot, Event);
    OwnCellIsExact(h, slot, SensitiveFile);
    OwnCellIsExact(h, slot, BlockedDestination);
    OwnCellIsExact(h, slot, NetworkAfterFile);
    SmallScore(Adds(slot, Event), slot.sensitive, slot.blocked, slot.network);
  }

  lemma {:induction false} KeptGrows(limit: nat, log: seq<Sample>)
    ensures |Kept(limit, log)| <= |log|
    ensures |Kept(limit, log)| == |log| ==> Kept(limit, log) == log
  {
    if log != [] {
      KeptGrows(limit, Init(log));
      Rejoined(log);
    }
  }

  /** Nothing is dropped exactly if the log is no longer than the window, 64 unless set, and tells of at most
      128 processes. */
  lemma {:induction false} NothingDroppedIff(limit: nat, log: seq<Sample>)
    ensures Kept(limit, log) == log <==>
            |log| <= (if limit == 0 then 64 else limit) && |Distinct(Pids(log))| <= 128
  {
    if log != [] {
      NothingDroppedIff(limit, Init(log));
      KeptGrows(limit, Init(log));
      KeptStep(Init(log), Last(log));
      Rejoined(log);
    }
  }

  /** A burst of plain events from one process. */
  function Burst(n: nat): seq<Sample> {
    if n == 0 then [] else Burst(n - 1) + [Sample(7, Event)]
  }

  lemma {:induction false} BurstCounts(n: nat)
    ensures |Burst(n)| == EventsOf(Burst(n), 7) == n
    ensures Distinct(Pids(Burst(n))) == if n == 0 then [] else [7]
  {
    if n > 0 {
      BurstCounts(n - 1);
      var before, s := Burst(n - 1), Sample(7, Event);
      assert Burst(n) == before + [s];
      KeptStep(before, s);
      TallyStep(before, s, 7, Event);
    }
  }

  lemma {:induction false} BurstIsPlain(n: nat, signal: Signal)
    requires signal != Event
    ensures Tally(Burst(n), 7, signal) == 0
  {
    if n > 0 {
      BurstIsPlain(n - 1, signal);
      TallyStep(Burst(n - 1), Sample(7, Event), 7, signal);
    }
  }

  lemma KeptAppend(limit: nat, log: seq<Sample>, s: Sample)
    ensures Kept(limit, log + [s]) == KeptWith(limit, Kept(limit, log), s)
  {
    assert Init(log + [s]) == log;
  }

  lemma BurstGoesOn(limit: nat, n: nat)
    requires n < Window(limit)
    ensures KeptWith(limit, Burst(n), Sample(7, Event)) == Burst(n + 1)
  {
    BurstCounts(n);
  }

  lemma {:induction false} BurstKept(limit: nat, n: nat)
    requires n <= Window(limit)
    ensures Kept(limit, Burst(n)) == Burst(n)
  {
    if n > 0 {
      BurstKept(limit, n - 1);
      BurstStep(limit, n - 1);
    }
  }

  lemma BurstStep(limit: nat, n: nat)
    requires n < Window(limit) && Kept(limit, Burst(n)) == Burst(n)
    ensures Kept(limit, Burst(n + 1)) == Burst(n + 1)
  {
    KeptAppend(limit, Burst(n), Sample(7, Event));
    BurstGoesOn(limit, n);
  }

  /** Nothing but plain events, enough of them to saturate the cells they hash to. */
  predicate PlainAndSaturated(slot: Slot) {
    slot.sensitive == slot.blocked == slot.network == 0 && 2 * slot.events >= MAX_U32
  }

  /** A cell then either is saturated or was never touched, wherever the signals hash to. */
  lemma SaturatedOrEmpty(h: Hash, slot: Slot, row: nat, col: nat)
    requires Faithful(h, slot) && PlainAndSaturated(slot) && row < DEPTH && col < WIDTH
    ensures slot.cms[row][col] == if h.col(slot.pid, Event, row) == col then MAX_U32 else 0
  {
  }

  lemma {:induction false} SmallestOfSaturated(h: Hash, slot: Slot, signal: Signal, rows: nat)
    requires Faithful(h, slot) && PlainAndSaturated(slot) && rows <= DEPTH
    ensures Smallest(h, slot, signal, rows) == MAX_U32 || (signal != Event && Smallest(h, slot, signal, rows) == 0)
  {
    if rows > 0 {
      SmallestOfSaturated(h, slot, signal, rows - 1);
      SaturatedOrEmpty(h, slot, rows - 1, h.col(slot.pid, signal, rows - 1));
    }
  }

  lemma SaturatedReadsZero(h: Hash, slot: Slot)
    requires Faithful(h, slot) && PlainAndSaturated(slot)
    ensures ApproxRisk(h, slot) == 0
  {
    SmallestOfSaturated(h, slot, Event, DEPTH);
    SmallestOfSaturated(h, slot, SensitiveFile, DEPTH);
    SmallestOfSaturated(h, slot, BlockedDestination, DEPTH);
    SmallestOfSaturated(h, slot, NetworkAfterFile, DEPTH);
  }

  /** Whatever the hashes, 2^31 plain events of one process saturate its EVENT cells, and the approximate
      risk drops to zero while the exact one is ten. */
  lemma SaturationHidesRisk(h: Hash, limit: nat)
    requires Window(limit) >= 0x8000_0000
    ensures var slots := Run(h, limit, Burst(0x8000_0000)).slots;
            slots != [] && slots[0].used && ExactRisk(slots[0]) == 10 && ApproxRisk(h, slots[0]) == 0
  {
    var n := 0x8000_0000;
    RunAgrees(h, limit, Burst(n));
    BurstKept(limit, n);
    BurstCounts(n);
    BurstIsPlain(n, SensitiveFile);
    BurstIsPlain(n, BlockedDestination);
    BurstIsPlain(n, NetworkAfterFile);
    var slot := Run(h, limit, Burst(n)).slots[0];
    assert Counts(h, slot, Burst(n), 7);
    SaturatedReadsZero(h, slot);
    SmallScore(slot.events, slot.sensitive, slot.blocked, slot.network);
  }

  /** The documented promise that the approximate risk does not underestimate, and the exact windows for
      which it holds over all logs: they are the same for every choice of hashes. */
  lemma NeverUnderestimatesIff(h: Hash, limit: nat)
    ensures (forall log :: RiskSafe(h, Run(h, limit, log))) <==> 2 * Window(limit) < MAX_U32
  {
    if 2 * Window(limit) < MAX_U32 {
      forall log
        ensures RiskSafe(h, Run(h, limit, log))
      {
        SmallWindowSafe(h, limit, log);
      }
    } else {
      SaturationHidesRisk(h, limit);
      var st := Run(h, limit, Burst(0x8000_0000));
      assert ExactRisk(st.slots[0]) > ApproxRisk(h, st.slots[0]);
      assert !RiskSafe(h, st);
    }
  }

  // ----- the state machine itself -----

  class Sketch {
    const h: Hash
    const slots: array<Slot>
    const bloom: array<bv8>
    var limit: nat
    var events: nat
    var dropped: nat

    ghost predicate Shaped() { slots.Length == MAX_PIDS && bloom.Length == BLOOM_BYTES }

    ghost function Abs(): State
      reads this, slots, bloom
    {
      State(slots[..], bloom[..], limit, events, dropped)
    }

    constructor (h: Hash, windowLimit: nat)
      ensures this.h == h && Shaped() && fresh(slots) && fresh(bloom) && Abs() == Started(windowLimit)
    {
      this.h := h;
      slots := new Slot[MAX_PIDS](_ => Slot(0, false, 0, 0, 0, 0, EmptyCms()));
      bloom := new bv8[BLOOM_BYTES](_ => 0);
      limit := if windowLimit == 0 then DEFAULT_WINDOW else windowLimit;
      events, dropped := 0, 0;
    }

    method BloomSet(pid: int)
      requires Shaped()
      modifies bloom
      ensures bloom[..] == BloomWith(h, old(bloom[..]), pid, BLOOM_HASHES)
    {
      for i := 0 to BLOOM_HASHES
        invariant bloom[..] == BloomWith(h, old(bloom[..]), pid, i)
      {
        var pos := h.probe(pid, i);
        bloom[pos / 8] := bloom[pos / 8] | Mask(pos % 8);
      }
    }

    method BloomMaybeContains(pid: int) returns (maybe: bool)
      requires Shaped()
      ensures maybe <==> MaybeContains(h, bloom[..], pid)
    {
      for i := 0 to BLOOM_HASHES
        invariant forall j :: 0 <= j < i ==> Bit(bloom[..], h.probe(pid, j))
      {
        var pos := h.probe(pid, i);
        if !TestByte(bloom[pos / 8], pos % 8) {
          assert !Bit(bloom[..], h.probe(pid, i));
          return false;
        }
      }
      maybe := true;
    }

    /** Counts a signal in the rows of a slot's sketch. */
    method CmsAdd(k: nat, signal: Signal)
      requires Shaped() && k < MAX_PIDS
      modifies slots
      ensures var was := old(slots[k]);
              slots[..] == old(slots[..])[k := was.(cms := Counted(h, was.cms, was.pid, signal))]
    {
      for row := 0 to DEPTH
        invariant var was := old(slots[k]);
                  slots[..] == old(slots[..])[k := was.(cms := CountedRows(h, was.cms, was.pid, signal, row))]
      {
        var slot := slots[k];
        var col := h.col(slot.pid, signal, row);
        if slot.cms[row][col] != MAX_U32 {
          var cells: seq<U32> := slot.cms[row][col := slot.cms[row][col] + 1];
          slots[k] := slot.(cms := slot.cms[row := cells]);
        } else {
          assert slot.cms[row][col := slot.cms[row][col]] == slot.cms[row];
          assert slot.cms[row := slot.cms[row]] == slot.cms;
        }
      }
    }

    method EstimateOf(k: nat, signal: Signal) returns (estimate: U32)
      requires Shaped() && k < MAX_PIDS
      ensures estimate == Estimate(h, slots[k], signal)
    {
      var best: U32 := MAX_U32;
      for row := 0 to DEPTH
        invariant best == Smallest(h, slots[k], signal, row)
      {
        var v := slots[k].cms[row][h.col(slots[k].pid, signal, row)];
        if v < best {
          best := v;
        }
      }
      estimate := if best == MAX_U32 then 0 else best;
    }

    /** The slot of a process, a new one if there is room; otherwise the event is dropped. */
    method FindSlot(pid: int) returns (found: Option<nat>)
      requires Shaped()
      modifies this, slots, bloom
      ensures var k, free := old(SlotOfPid(slots[..], pid, 0)), old(FirstFree(slots[..], 0));
              if k < MAX_PIDS then found == Some(k) && Abs() == old(Abs())
              else if free < MAX_PIDS then
                found == Some(free) && Abs() == old(Abs()).(slots := old(slots[..])[free := FreshSlot(pid)],
                                                            bloom := BloomWith(h, old(bloom[..]), pid, BLOOM_HASHES))
              else found == None && Abs() == old(Abs()).(dropped := old(dropped) + 1)
    {
      var free := None;
      for i := 0 to MAX_PIDS
        invariant Abs() == old(Abs())
        invariant SlotOfPid(slots[..], pid, 0) == SlotOfPid(slots[..], pid, i)
        invariant free.Some? ==> free.value < i && free.value == FirstFree(slots[..], 0)
        invariant free.None? ==> FirstFree(slots[..], 0) == FirstFree(slots[..], i)
      {
        if slots[i].used && slots[i].pid == pid {
          return Some(i);
        }
        if !slots[i].used && free.None? {
          free := Some(i);
        }
      }
      if free.None? {
        dropped := dropped + 1;
        return None;
      }
      slots[free.value] := FreshSlot(pid);
      BloomSet(pid);
      found := free;
    }

    /** Counts a signal in a slot: EVENT in the sketch, then its exact counter, then the signal itself. */
    method RecordIn(k: nat, signal: Signal)
      requires Shaped() && k < MAX_PIDS
      modifies slots
      ensures slots[..] == old(slots[..])[k := Recorded(h, old(slots[k]), signal)]
    {
      ghost var start, others := slots[k], slots[..];
      slots[k] := slots[k].(events := slots[k].events + 1);
      CmsAdd(k, Event);
      match signal {
        case SensitiveFile => slots[k] := slots[k].(sensitive := slots[k].sensitive + 1);
        case BlockedDestination => slots[k] := slots[k].(blocked := slots[k].blocked + 1);
        case NetworkAfterFile => slots[k] := slots[k].(network := slots[k].network + 1);
        case Event =>
      }
      CmsAdd(k, signal);
      assert slots[k] == Recorded(h, start, signal);
      assert slots[..] == others[k := Recorded(h, start, signal)];
    }

    method Record(pid: int, signal: Signal) returns (ok: bool)
      requires Shaped()
      modifies this, slots, bloom
      ensures ok <==> old(Accepts(Abs(), pid))
      ensures Abs() == After(h, old(Abs()), pid, signal)
    {
      if events >= limit {
        dropped := dropped + 1;
        return false;
      }
      var found := FindSlot(pid);
      if found.None? {
        return false;
      }
      var k := found.value;
      events := events + 1;
      RecordIn(k, signal);
      ok := true;
    }
  }
}

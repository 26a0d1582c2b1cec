/** The Count-Min sketch, the capped list of candidate keys beside it, and the sorted top list built from both. */
module CountMin {
  import opened Base
  import opened Sorting

  const MAX_CANDIDATES: nat := 4096

  datatype Shape = Shape(hash: DoubleHash, width: nat, depth: nat)
  {
    predicate Positive() { width > 0 && depth > 0 }

    /** The column of a key in a row: 64-bit sum, with the row constant in 32-bit arithmetic. */
    function Col(row: nat, key: string): (col: nat)
      requires width > 0
      ensures col < width
    {
      (hash.h1(key) + row * hash.h2(key) + row * 0x9e37_79b9 % (MAX_U32 + 1)) % (MAX_U64 + 1) % width
    }
  }

  /** The columns of a key in the five rows of the program's sketches: multiples of the second hash, and of a
      constant that wraps in 32 bits. */
  lemma FiveColumns(sh: Shape, key: string)
    requires sh.width > 0
    ensures var a, b, m := sh.hash.h1(key), sh.hash.h2(key), MAX_U64 + 1;
            && sh.Col(0, key) == a % m % sh.width
            && sh.Col(1, key) == (a + b + 0x9e37_79b9) % m % sh.width
            && sh.Col(2, key) == (a + 2 * b + 0x3c6e_f372) % m % sh.width
            && sh.Col(3, key) == (a + 3 * b + 0xdaa6_6d2b) % m % sh.width
            && sh.Col(4, key) == (a + 4 * b + 0x78dd_e6e4) % m % sh.width
  {
    assert 2 * 0x9e37_79b9 % (MAX_U32 + 1) == 0x3c6e_f372;
    assert 3 * 0x9e37_79b9 % (MAX_U32 + 1) == 0xdaa6_6d2b;
    assert 4 * 0x9e37_79b9 % (MAX_U32 + 1) == 0x78dd_e6e4;
  }

  /** One addition of `delta` to a key. */
  datatype Add = Add(key: string, delta: U64)

  // ----- what a history of additions means -----

  /** The sum of the additions of non-empty keys that a cell received, without wrap-around. */
  function Collected(sh: Shape, adds: seq<Add>, row: nat, col: nat): nat
    requires sh.width > 0
  {
    if adds == [] then 0
    else
      var a := Last(adds);
      Collected(sh, Init(adds), row, col) + if a.key != "" && sh.Col(row, a.key) == col then a.delta else 0
  }

  /** What the 64-bit cell holds. */
  function CellValue(sh: Shape, adds: seq<Add>, row: nat, col: nat): U64
    requires sh.width > 0
  {
    Collected(sh, adds, row, col) % (MAX_U64 + 1)
  }

  /** The smallest cell of a key over the first `rows` rows. */
  function Smallest(sh: Shape, adds: seq<Add>, key: string, rows: nat): U64
    requires sh.width > 0
  {
    if rows == 0 then MAX_U64
    else Min(Smallest(sh, adds, key, rows - 1), CellValue(sh, adds, rows - 1, sh.Col(rows - 1, key)))
  }

  /** The estimate: the smallest cell, except that the greatest 64-bit value reads as zero. */
  function Estimate(sh: Shape, adds: seq<Add>, key: string): U64
    requires sh.width > 0
  {
    var best := Smallest(sh, adds, key, sh.depth);
    if key == "" || best == MAX_U64 then 0 else best
  }

  function Weight(adds: seq<Add>, key: string): nat {
    if adds == [] then 0
    else Weight(Init(adds), key) + if Last(adds).key == key then Last(adds).delta else 0
  }

  /** The additions that reach the table: those of non-empty keys. */
  function Total(adds: seq<Add>): nat {
    if adds == [] then 0
    else Total(Init(adds)) + if Last(adds).key == "" then 0 else Last(adds).delta
  }

  function RowSum(sh: Shape, adds: seq<Add>, row: nat, n: nat): nat
    requires sh.width > 0
  {
    if n == 0 then 0 else RowSum(sh, adds, row, n - 1) + Collected(sh, adds, row, n - 1)
  }

  lemma {:induction false} RowSumStep(sh: Shape, adds: seq<Add>, row: nat, n: nat)
    requires sh.width > 0 && adds != []
    ensures RowSum(sh, adds, row, n) == RowSum(sh, Init(adds), row, n) +
              if Last(adds).key != "" && sh.Col(row, Last(adds).key) < n then Last(adds).delta else 0
  {
    if n > 0 {
      RowSumStep(sh, adds, row, n - 1);
    }
  }

  lemma {:induction false} EmptyRow(sh: Shape, row: nat, n: nat)
    requires sh.width > 0
    ensures RowSum(sh, [], row, n) == 0
  {
    if n > 0 {
      EmptyRow(sh, row, n - 1);
    }
  }

  /** Every addition lands in exactly one cell of each row: the row conserves the total. */
  lemma {:induction false} RowConservesTotal(sh: Shape, adds: seq<Add>, row: nat)
    requires sh.width > 0
    ensures RowSum(sh, adds, row, sh.width) == Total(adds)
  {
    if adds == [] {
      EmptyRow(sh, row, sh.width);
    } else {
      RowConservesTotal(sh, Init(adds), row);
      RowSumStep(sh, adds, row, sh.width);
    }
  }

  lemma {:induction false} CollectedAtMost(sh: Shape, adds: seq<Add>, row: nat, col: nat)
    requires sh.width > 0
    ensures Collected(sh, adds, row, col) <= Total(adds)
  {
    if adds != [] {
      CollectedAtMost(sh, Init(adds), row, col);
    }
  }

  /** The sum of the first `n` stored cells of a row. */
  function StoredRow(sh: Shape, adds: seq<Add>, row: nat, n: nat): nat
    requires sh.width > 0
  {
    if n == 0 then 0 else StoredRow(sh, adds, row, n - 1) + CellValue(sh, adds, row, n - 1)
  }

  lemma {:induction false} StoredIsCollected(sh: Shape, adds: seq<Add>, row: nat, n: nat)
    requires sh.width > 0 && Total(adds) <= MAX_U64
    ensures StoredRow(sh, adds, row, n) == RowSum(sh, adds, row, n)
  {
    if n > 0 {
      StoredIsCollected(sh, adds, row, n - 1);
      CollectedAtMost(sh, adds, row, n - 1);
      SmallMod(Collected(sh, adds, row, n - 1));
    }
  }

  /** While the total fits 64 bits, the stored cells of every row sum to it. */
  lemma StoredRowConservesTotal(sh: Shape, adds: seq<Add>, row: nat)
    requires sh.width > 0 && Total(adds) <= MAX_U64
    ensures StoredRow(sh, adds, row, sh.width) == Total(adds)
  {
    StoredIsCollected(sh, adds, row, sh.width);
    RowConservesTotal(sh, adds, row);
  }

  lemma {:induction false} CellBounds(sh: Shape, adds: seq<Add>, row: nat, key: string)
    requires sh.width > 0 && key != ""
    ensures Weight(adds, key) <= Collected(sh, adds, row, sh.Col(row, key)) <= Total(adds)
  {
    if adds != [] {
      CellBounds(sh, Init(adds), row, key);
    }
  }

  lemma NoWrap(sh: Shape, adds: seq<Add>, row: nat, key: string)
    requires sh.width > 0 && key != "" && Total(adds) <= MAX_U64
    ensures Weight(adds, key) <= CellValue(sh, adds, row, sh.Col(row, key)) <= Total(adds)
  {
    CellBounds(sh, adds, row, key);
    SmallMod(Collected(sh, adds, row, sh.Col(row, key)));
  }

  lemma SmallMod(a: nat)
    requires a <= MAX_U64
    ensures a % (MAX_U64 + 1) == a
  {
  }

  lemma {:induction false} SmallestBounds(sh: Shape, adds: seq<Add>, key: string, rows: nat)
    requires sh.width > 0 && key != "" && rows > 0 && Total(adds) <= MAX_U64
    ensures Weight(adds, key) <= Smallest(sh, adds, key, rows) <= Total(adds)
  {
    NoWrap(sh, adds, rows - 1, key);
    if rows > 1 {
      SmallestBounds(sh, adds, key, rows - 1);
    }
  }

  /** Below the greatest 64-bit value, an estimate lies between the true weight and the total. */
  lemma EstimateBounds(sh: Shape, adds: seq<Add>, key: string)
    requires sh.Positive() && key != "" && Total(adds) < MAX_U64
    ensures Weight(adds, key) <= Estimate(sh, adds, key) <= Total(adds)
  {
    SmallestBounds(sh, adds, key, sh.depth);
  }

  lemma {:induction false} SmallestIsLeast(sh: Shape, adds: seq<Add>, key: string, rows: nat)
    requires sh.width > 0 && Total(adds) <= MAX_U64
    ensures forall row :: 0 <= row < rows ==>
              Smallest(sh, adds, key, rows) <= Collected(sh, adds, row, sh.Col(row, key))
    ensures Smallest(sh, adds, key, rows) == MAX_U64 ||
            exists row :: 0 <= row < rows &&
              Smallest(sh, adds, key, rows) == Collected(sh, adds, row, sh.Col(row, key))
  {
    if rows > 0 {
      SmallestIsLeast(sh, adds, key, rows - 1);
      CollectedAtMost(sh, adds, rows - 1, sh.Col(rows - 1, key));
      SmallMod(Collected(sh, adds, rows - 1, sh.Col(rows - 1, key)));
    }
  }

  /** Below the greatest 64-bit value an estimate is at most what the key's cell collected in every row, and
      exactly that in some row. */
  lemma EstimateIsLeastCell(sh: Shape, adds: seq<Add>, key: string)
    requires sh.Positive() && key != "" && Total(adds) < MAX_U64
    ensures forall row :: 0 <= row < sh.depth ==>
              Estimate(sh, adds, key) <= Collected(sh, adds, row, sh.Col(row, key))
    ensures exists row :: 0 <= row < sh.depth &&
              Estimate(sh, adds, key) == Collected(sh, adds, row, sh.Col(row, key))
  {
    SmallestIsLeast(sh, adds, key, sh.depth);
    SmallestBounds(sh, adds, key, sh.depth);
  }

  lemma {:induction false} AloneCollects(sh: Shape, adds: seq<Add>, row: nat, key: string)
    requires sh.width > 0 && key != ""
    requires forall other :: other in KeysOf(adds) && other != key ==> sh.Col(row, other) != sh.Col(row, key)
    ensures Collected(sh, adds, row, sh.Col(row, key)) == Weight(adds, key)
  {
    if adds != [] {
      var v := Last(adds).key;
      assert v != "" ==> v in KeysOf(adds);
      assert forall other :: other in KeysOf(Init(adds)) ==> other in KeysOf(adds);
      AloneCollects(sh, Init(adds), row, key);
    }
  }

  /** A key that shares its cell with no other key of the stream in at least one row is estimated exactly. */
  lemma AloneIsExact(sh: Shape, adds: seq<Add>, row: nat, key: string)
    requires sh.Positive() && key != "" && Total(adds) < MAX_U64 && row < sh.depth
    requires forall other :: other in KeysOf(adds) && other != key ==> sh.Col(row, other) != sh.Col(row, key)
    ensures Estimate(sh, adds, key) == Weight(adds, key)
  {
    EstimateIsLeastCell(sh, adds, key);
    EstimateBounds(sh, adds, key);
    AloneCollects(sh, adds, row, key);
  }

  ghost predicate NeverUnderestimates(sh: Shape, total: nat)
    requires sh.Positive()
  {
    forall adds, key :: Total(adds) == total && key != "" ==> Estimate(sh, adds, key) >= Weight(adds, key)
  }

  /** Additions of a total of `n` to one key, each within 64 bits. */
  function Repeated(key: string, n: nat): seq<Add> {
    if n <= MAX_U64 then [Add(key, n)] else Repeated(key, n - MAX_U64) + [Add(key, MAX_U64)]
  }

  lemma {:induction false} RepeatedCollects(sh: Shape, key: string, n: nat, row: nat)
    requires sh.Positive() && key != ""
    ensures Total(Repeated(key, n)) == Weight(Repeated(key, n), key) == n
    ensures Collected(sh, Repeated(key, n), row, sh.Col(row, key)) == n
  {
    var adds := Repeated(key, n);
    if n <= MAX_U64 {
      assert Init(adds) == [];
    } else {
      RepeatedCollects(sh, key, n - MAX_U64, row);
      assert Init(adds) == Repeated(key, n - MAX_U64);
    }
  }

  lemma {:induction false} RepeatedSmallest(sh: Shape, key: string, n: nat, rows: nat)
    requires sh.Positive() && key != "" && rows > 0
    ensures Smallest(sh, Repeated(key, n), key, rows) == n % (MAX_U64 + 1)
  {
    RepeatedCollects(sh, key, n, rows - 1);
    if rows > 1 {
      RepeatedSmallest(sh, key, n, rows - 1);
    }
  }

  /** The bound is exact: with a total of 2^64 - 1 or more some stream is underestimated, whatever the
      hashes and the size of the table. */
  lemma NeverUnderestimatesIff(sh: Shape, total: nat)
    requires sh.Positive()
    ensures NeverUnderestimates(sh, total) <==> total < MAX_U64
  {
    if total < MAX_U64 {
      forall adds, key | Total(adds) == total && key != ""
        ensures Estimate(sh, adds, key) >= Weight(adds, key)
      {
        EstimateBounds(sh, adds, key);
      }
    } else {
      var adds := Repeated("k", total);
      RepeatedCollects(sh, "k", total, 0);
      RepeatedSmallest(sh, "k", total, sh.depth);
      assert Estimate(sh, adds, "k") < Weight(adds, "k");
    }
  }

  // ----- candidates -----

  function WithCandidate(list: seq<string>, value: string, max: nat): seq<string> {
    if value == "" || |list| >= max || value in list then list else list + [value]
  }

  function Candidates(adds: seq<Add>, max: nat): seq<string> {
    if adds == [] then [] else WithCandidate(Candidates(Init(adds), max), Last(adds).key, max)
  }

  function KeysOf(adds: seq<Add>): seq<string> {
    if adds == [] then [] else Added(KeysOf(Init(adds)), Last(adds).key)
  }

  lemma {:induction false} KeysOfMembers(adds: seq<Add>)
    ensures "" !in KeysOf(adds)
    ensures forall key :: key != "" && key !in KeysOf(adds) ==> Weight(adds, key) == 0
  {
    if adds != [] {
      KeysOfMembers(Init(adds));
    }
  }

  /** The candidate list is the distinct keys of the stream in order of first appearance, cut at its cap. */
  lemma {:induction false} CandidatesAreFirstDistinct(adds: seq<Add>, max: nat)
    ensures var d := Distinct(KeysOf(adds));
            Candidates(adds, max) == d[..Min(|d|, max)]
  {
    if adds != [] {
      CandidatesAreFirstDistinct(Init(adds), max);
      var before, key := KeysOf(Init(adds)), Last(adds).key;
      if key != "" {
        assert Init(KeysOf(adds)) == before;
        CutStep(before, Distinct(before), key, max);
      }
    }
  }

  lemma CutStep(keys: seq<string>, d: seq<string>, key: string, max: nat)
    requires key != "" && d == Distinct(keys)
    ensures var next := if key in keys then d else d + [key];
            WithCandidate(d[..Min(|d|, max)], key, max) == next[..Min(|next|, max)]
  {
    DistinctElements(keys);
    if |d| <= max {
      assert d[..Min(|d|, max)] == d;
    }
  }

  // ----- the sorted top list -----

  function Estimates(sh: Shape, adds: seq<Add>, keys: seq<string>): seq<Ranked>
    requires sh.width > 0
  {
    seq(|keys|, i requires 0 <= i < |keys| => Ranked(keys[i], Estimate(sh, adds, keys[i])))
  }

  function Truths(adds: seq<Add>, keys: seq<string>): seq<Ranked> {
    seq(|keys|, i requires 0 <= i < |keys| => Ranked(keys[i], Weight(adds, keys[i])))
  }

  function Names(list: seq<Ranked>): set<string> { set i | 0 <= i < |list| :: list[i].name }

  lemma {:induction false} NamesAtMost(list: seq<Ranked>)
    ensures |Names(list)| <= |list|
  {
    if list != [] {
      NamesAtMost(Init(list));
      assert Names(list) <= Names(Init(list)) + {Last(list).name};
      SubsetSize(Names(list), Names(Init(list)) + {Last(list).name});
    }
  }

  lemma {:induction false} NamesExactly(list: seq<Ranked>)
    requires forall i, j :: 0 <= i < j < |list| ==> list[i].name != list[j].name
    ensures |Names(list)| == |list|
  {
    if list != [] {
      NamesExactly(Init(list));
      assert Last(list).name !in Names(Init(list));
      assert Names(list) == Names(Init(list)) + {Last(list).name};
    }
  }

  lemma TruthsNamedOnce(adds: seq<Add>, keys: seq<string>, truth: seq<Ranked>)
    requires NoDuplicates(keys) && SortOf(RankedBefore, Truths(adds, keys), truth)
    ensures forall i, j :: 0 <= i < j < |truth| ==> truth[i].name != truth[j].name
    ensures forall i :: 0 <= i < |truth| ==> truth[i].name in keys && truth[i].weight == Weight(adds, truth[i].name)
  {
    var list := Truths(adds, keys);
    PermutationMembers(list, truth);
    PermutationNoDuplicates(list, truth);
    forall i | 0 <= i < |truth|
      ensures truth[i].name in keys && truth[i].weight == Weight(adds, truth[i].name)
    {
      assert truth[i] in list;
    }
  }

  /** A key whose true weight exceeds the i-th reported estimate is reported above rank i. */
  lemma HeavierIsReportedAbove(sh: Shape, adds: seq<Add>, keys: seq<string>, report: seq<Ranked>, i: nat, name: string)
    requires sh.Positive() && Total(adds) < MAX_U64
    requires SortOf(RankedBefore, Estimates(sh, adds, keys), report)
    requires i < |report| && name in keys && name != "" && report[i].weight < Weight(adds, name)
    ensures name in Names(report[..i])
  {
    PermutationMembers(Estimates(sh, adds, keys), report);
    EstimateBounds(sh, adds, name);
    var k :| 0 <= k < |keys| && keys[k] == name;
    assert Estimates(sh, adds, keys)[k] in report;
    var r :| 0 <= r < |report| && report[r] == Ranked(name, Estimate(sh, adds, name));
    assert r > i ==> RankedBefore(report[i], report[r]);
    assert report[..i][r].name == name;
  }

  /** Rank by rank the reported estimates dominate the true frequencies: the i-th reported estimate is at
      least the i-th greatest true weight among the keys. */
  lemma TopDominates(sh: Shape, adds: seq<Add>, keys: seq<string>, report: seq<Ranked>, truth: seq<Ranked>, i: nat)
    requires sh.Positive() && Total(adds) < MAX_U64 && NoDuplicates(keys) && "" !in keys
    requires SortOf(RankedBefore, Estimates(sh, adds, keys), report)
    requires SortOf(RankedBefore, Truths(adds, keys), truth)
    requires i < |keys|
    ensures |report| == |truth| == |keys|
    ensures report[i].weight >= truth[i].weight
  {
    PermutationMembers(Estimates(sh, adds, keys), report);
    PermutationMembers(Truths(adds, keys), truth);
    TruthsNamedOnce(adds, keys, truth);
    if report[i].weight < truth[i].weight {
      var heavy := truth[..i + 1];
      forall j | 0 <= j < |heavy|
        ensures heavy[j].name in Names(report[..i])
      {
        assert j < i ==> RankedBefore(truth[j], truth[i]);
        HeavierIsReportedAbove(sh, adds, keys, report, i, heavy[j].name);
      }
      NamesExactly(heavy);
      NamesAtMost(report[..i]);
      SubsetSize(Names(heavy), Names(report[..i]));
    }
  }

  /** A list names each of some keys once, and nothing else. */
  ghost predicate ListsOnce(list: seq<Ranked>, keys: seq<string>) {
    && (forall i, j :: 0 <= i < j < |list| ==> list[i].name != list[j].name)
    && Names(list) == Elements(keys)
  }

  lemma ReportListsKeys(sh: Shape, adds: seq<Add>, keys: seq<string>, report: seq<Ranked>)
    requires sh.width > 0 && NoDuplicates(keys)
    requires SortOf(RankedBefore, Estimates(sh, adds, keys), report)
    ensures ListsOnce(report, keys)
    ensures forall i :: 0 <= i < |report| ==> report[i].weight == Estimate(sh, adds, report[i].name)
  {
    var list := Estimates(sh, adds, keys);
    PermutationMembers(list, report);
    PermutationNoDuplicates(list, report);
    forall i | 0 <= i < |report|
      ensures report[i].name in keys && report[i].weight == Estimate(sh, adds, report[i].name)
    {
      assert report[i] in list;
    }
    forall key | key in keys
      ensures key in Names(report)
    {
      var k :| 0 <= k < |keys| && keys[k] == key;
      assert list[k] in report;
    }
  }

  lemma UncutCandidates(adds: seq<Add>, max: nat)
    requires |Distinct(KeysOf(adds))| <= max
    ensures Candidates(adds, max) == Distinct(KeysOf(adds))
  {
    CandidatesAreFirstDistinct(adds, max);
  }

  /** The report built from a stream of at most `max` distinct keys lists exactly those keys, each once, and
      dominates their true ranking: rank by rank its estimates are at least the true weights. */
  lemma ReportDominates(sh: Shape, adds: seq<Add>, max: nat, report: seq<Ranked>, truth: seq<Ranked>)
    requires sh.Positive() && Total(adds) < MAX_U64 && |Distinct(KeysOf(adds))| <= max
    requires SortOf(RankedBefore, Estimates(sh, adds, Candidates(adds, max)), report)
    requires SortOf(RankedBefore, Truths(adds, Distinct(KeysOf(adds))), truth)
    ensures ListsOnce(report, KeysOf(adds)) && |report| == |truth|
    ensures forall i :: 0 <= i < |truth| ==> truth[i].weight <= report[i].weight <= Total(adds)
  {
    var d := Distinct(KeysOf(adds));
    UncutCandidates(adds, max);
    DistinctElements(KeysOf(adds));
    KeysOfMembers(adds);
    ReportListsKeys(sh, adds, d, report);
    assert Elements(d) == Elements(KeysOf(adds));
    PermutationMembers(Truths(adds, d), truth);
    PermutationMembers(Estimates(sh, adds, d), report);
    forall i | 0 <= i < |truth|
      ensures truth[i].weight <= report[i].weight <= Total(adds)
    {
      TopDominates(sh, adds, d, report, truth, i);
      assert report[i].name in Names(report);
      EstimateBounds(sh, adds, report[i].name);
    }
  }

  // ----- the sketch itself -----

  class Sketch {
    const sh: Shape
    const table: array2<U64>
    /** The additions so far, empty keys included. */
    ghost var adds: seq<Add>

    ghost predicate Valid()
      reads this, table
    {
      && sh.width > 0
      && table.Length0 == sh.depth && table.Length1 == sh.width
      && forall row, col :: 0 <= row < sh.depth && 0 <= col < sh.width ==>
           table[row, col] == CellValue(sh, adds, row, col)
    }

    constructor (hash: DoubleHash, width: nat, depth: nat)
      requires width > 0
      ensures Valid() && fresh(table) && adds == [] && sh == Shape(hash, width, depth)
    {
      sh := Shape(hash, width, depth);
      table := new U64[depth, width]((row, col) => 0);
      adds := [];
    }

    method AddTo(key: string, delta: U64)
      requires Valid()
      modifies this, table
      ensures Valid() && adds == old(adds) + [Add(key, delta)]
    {
      adds := adds + [Add(key, delta)];
      assert Init(adds) == old(adds);
      if key == "" {
        return;
      }
      for row := 0 to sh.depth
        invariant adds == old(adds) + [Add(key, delta)]
        invariant forall r, col :: 0 <= r < row && 0 <= col < sh.width ==>
                    table[r, col] == CellValue(sh, adds, r, col)
        invariant forall r, col :: row <= r < sh.depth && 0 <= col < sh.width ==>
                    table[r, col] == CellValue(sh, Init(adds), r, col)
      {
        var col := sh.Col(row, key);
        CellsStep(sh, adds, row);
        table[row, col] := (table[row, col] + delta) % (MAX_U64 + 1);
      }
    }

    method EstimateOf(key: string) returns (estimate: U64)
      requires Valid()
      ensures estimate == Estimate(sh, adds, key)
    {
      if key == "" {
        return 0;
      }
      var best: U64 := MAX_U64;
      for row := 0 to sh.depth
        invariant best == Smallest(sh, adds, key, row)
      {
        var v := table[row, sh.Col(row, key)];
        if v < best {
          best := v;
        }
      }
      estimate := if best == MAX_U64 then 0 else best;
    }

    /** The top list of the candidate keys, sorted by estimate. */
    method BuildTopItems(candidates: seq<string>) returns (items: seq<Ranked>)
      requires Valid()
      ensures SortOf(RankedBefore, Estimates(sh, adds, candidates), items)
    {
      var unsorted: seq<Ranked> := [];
      for i := 0 to |candidates|
        invariant |unsorted| == i
        invariant forall j :: 0 <= j < i ==> unsorted[j] == Ranked(candidates[j], Estimate(sh, adds, candidates[j]))
      {
        var estimate := EstimateOf(candidates[i]);
        unsorted := unsorted + [Ranked(candidates[i], estimate)];
      }
      assert unsorted == Estimates(sh, adds, candidates);
      RankedBeforeTotal();
      SortSorts(RankedBefore, unsorted);
      items := Sort(RankedBefore, unsorted);
    }
  }

  /** The cells of a row after one more addition. */
  lemma CellsStep(sh: Shape, adds: seq<Add>, row: nat)
    requires sh.width > 0 && adds != []
    ensures forall col :: 0 <= col < sh.width ==>
              CellValue(sh, adds, row, col) ==
              if Last(adds).key != "" && sh.Col(row, Last(adds).key) == col
              then (CellValue(sh, Init(adds), row, col) + Last(adds).delta) % (MAX_U64 + 1)
              else CellValue(sh, Init(adds), row, col)
  {
    ModAdd(Collected(sh, Init(adds), row, sh.Col(row, Last(adds).key)), Last(adds).delta);
  }

  lemma ModAdd(a: nat, b: nat)
    ensures (a % (MAX_U64 + 1) + b) % (MAX_U64 + 1) == (a + b) % (MAX_U64 + 1)
  {
  }

  /** The candidate list: distinct keys up to a cap, found by linear scan. */
  method AddCandidate(list: seq<string>, value: string, max: nat) returns (out: seq<string>)
    ensures out == WithCandidate(list, value, max)
  {
    if value == "" || |list| >= max {
      return list;
    }
    out := AddUnique(list, value);
  }
}

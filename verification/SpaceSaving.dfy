/** Space-Saving: sixteen counters that keep the heaviest keys of a stream. */
module SpaceSaving {
  import opened Base
  import opened Sorting

  const CAPACITY: nat := 16

  /** Frequency lies between `count - error` and `count`. */
  datatype Item = Item(key: string, count: nat, error: nat)

  // ----- one update, on values -----

  /** The first item at or after `i` that monitors a key, or the number of items. */
  function IndexOf(items: seq<Item>, key: string, i: nat): (k: nat)
    requires i <= |items|
    ensures i <= k <= |items|
    ensures k < |items| ==> items[k].key == key
    ensures forall j :: i <= j < k ==> items[j].key != key
    decreases |items| - i
  {
    if i == |items| || items[i].key == key then i else IndexOf(items, key, i + 1)
  }

  /** The first of the smallest counters among the first `n`. */
  function MinIndex(items: seq<Item>, n: nat): (m: nat)
    requires 0 < n <= |items|
    ensures m < n
    ensures forall j :: 0 <= j < n ==> items[m].count <= items[j].count
    ensures forall j :: 0 <= j < m ==> items[m].count < items[j].count
  {
    if n == 1 then 0
    else
      var m := MinIndex(items, n - 1);
      if items[n - 1].count < items[m].count then n - 1 else m
  }

  function Updated(items: seq<Item>, key: string): seq<Item> {
    if key == "" then items
    else
      var k := IndexOf(items, key, 0);
      if k < |items| then items[k := items[k].(count := items[k].count + 1)]
      else if |items| < CAPACITY then items + [Item(CopyTrunc(key, MAX_STR), 1, 0)]
      else
        var m := MinIndex(items, |items|);
        items[m := Item(CopyTrunc(key, MAX_STR), items[m].count + 1, items[m].count)]
  }

  function Run(stream: seq<string>): seq<Item> {
    if stream == [] then [] else Updated(Run(Init(stream)), Last(stream))
  }

  // ----- what the counters promise about the stream -----

  function Freq(stream: seq<string>, key: string): nat {
    if stream == [] then 0
    else Freq(Init(stream), key) + if Last(stream) == key then 1 else 0
  }

  /** The updates that count: those of non-empty keys. */
  function Total(stream: seq<string>): nat {
    if stream == [] then 0 else Total(Init(stream)) + if Last(stream) == "" then 0 else 1
  }

  function Sum(items: seq<Item>): nat {
    if items == [] then 0 else Sum(Init(items)) + Last(items).count
  }

  /** Every key fits the key buffer of an item. */
  ghost predicate Fits(stream: seq<string>) { forall k :: k in stream ==> |k| < MAX_STR }

  function Keys(items: seq<Item>): set<string> { set i | 0 <= i < |items| :: items[i].key }

  ghost predicate DistinctKeys(items: seq<Item>) {
    forall i, j :: 0 <= i < j < |items| ==> items[i].key != items[j].key
  }

  ghost predicate Bounds(item: Item, stream: seq<string>) {
    && item.key != ""
    && item.error < item.count
    && item.count - item.error <= Freq(stream, item.key) <= item.count
  }

  /** `least` is a floor of the counters; no error and no unmonitored frequency exceeds it. It is zero
      while a counter is free: then every key seen is monitored, without error. */
  ghost predicate Residue(items: seq<Item>, stream: seq<string>, least: nat) {
    && (|items| < CAPACITY ==> least == 0)
    && (forall i :: 0 <= i < |items| ==> items[i].error <= least <= items[i].count)
    && (forall key :: key != "" && key !in Keys(items) ==> Freq(stream, key) <= least)
  }

  function Least(items: seq<Item>): nat {
    if |items| < CAPACITY then 0 else items[MinIndex(items, |items|)].count
  }

  ghost predicate AllBounds(items: seq<Item>, stream: seq<string>) {
    forall i :: 0 <= i < |items| ==> Bounds(items[i], stream)
  }

  ghost predicate Summarises(items: seq<Item>, stream: seq<string>) {
    && |items| <= CAPACITY
    && DistinctKeys(items)
    && Sum(items) == Total(stream)
    && AllBounds(items, stream)
    && Residue(items, stream, Least(items))
  }

  lemma {:induction false} FreqBound(stream: seq<string>, key: string)
    ensures Freq(stream, key) <= |stream|
    ensures key != "" ==> Freq(stream, key) <= Total(stream)
    ensures Freq(stream, key) > 0 <==> key in stream
  {
    if stream != [] {
      FreqBound(Init(stream), key);
      FreqBound(Init(stream), "");
      assert stream == Init(stream) + [Last(stream)];
    }
  }

  lemma {:induction false} SumUpdate(items: seq<Item>, k: nat, item: Item)
    requires k < |items|
    ensures Sum(items[k := item]) + items[k].count == Sum(items) + item.count
  {
    var after := items[k := item];
    if k < |items| - 1 {
      SumUpdate(Init(items), k, item);
      assert Init(after) == Init(items)[k := item];
    } else {
      assert Init(after) == Init(items);
    }
  }

  lemma {:induction false} SumOfAtLeast(items: seq<Item>, least: nat)
    requires forall i :: 0 <= i < |items| ==> items[i].count >= least
    ensures Sum(items) >= |items| * least
  {
    if items != [] {
      SumOfAtLeast(Init(items), least);
      assert |items| * least == |Init(items)| * least + least;
    }
  }

  lemma Appended(stream: seq<string>, key: string)
    ensures forall x :: Freq(stream + [key], x) == Freq(stream, x) + if x == key then 1 else 0
    ensures Total(stream + [key]) == Total(stream) + if key == "" then 0 else 1
  {
    assert Init(stream + [key]) == stream;
  }

  lemma KeysOfUpdate(items: seq<Item>, k: nat, item: Item)
    requires k < |items|
    ensures item.key == items[k].key ==> Keys(items[k := item]) == Keys(items)
    ensures Keys(items) <= Keys(items[k := item]) + {items[k].key}
    ensures Keys(items[k := item]) <= Keys(items) + {item.key}
    ensures item.key in Keys(items[k := item])
  {
    var after := items[k := item];
    forall x | x in Keys(items)
      ensures x in Keys(after) || x == items[k].key
    {
      var i :| 0 <= i < |items| && items[i].key == x;
      assert after[i].key in Keys(after);
    }
    assert after[k].key in Keys(after);
  }

  lemma PutKeepsBounds(items: seq<Item>, stream: seq<string>, k: nat, item: Item)
    requires k < |items| && AllBounds(items, stream) && Bounds(item, stream + [item.key])
    requires forall i :: 0 <= i < |items| && i != k ==> items[i].key != item.key
    ensures AllBounds(items[k := item], stream + [item.key])
  {
    Appended(stream, item.key);
    var after := items[k := item];
    forall i | 0 <= i < |after|
      ensures Bounds(after[i], stream + [item.key])
    {
      assert Bounds(items[i], stream);
    }
  }

  lemma PutKeepsResidue(items: seq<Item>, stream: seq<string>, k: nat, item: Item, least: nat)
    requires k < |items| && Residue(items, stream, least)
    requires item.error <= least <= item.count
    requires item.key != items[k].key ==> Freq(stream, items[k].key) <= least
    ensures Residue(items[k := item], stream + [item.key], least)
  {
    Appended(stream, item.key);
    KeysOfUpdate(items, k, item);
  }

  lemma ResidueFloor(items: seq<Item>, stream: seq<string>, least: nat)
    requires Residue(items, stream, least)
    ensures Residue(items, stream, Least(items))
  {
    if |items| == CAPACITY {
      assert least <= Least(items);
    }
  }

  /** Overwriting the counter of index `k` by one that counts one more, for the key just read. */
  lemma PutKeeps(items: seq<Item>, stream: seq<string>, k: nat, item: Item)
    requires Summarises(items, stream) && k < |items|
    requires forall i :: 0 <= i < |items| && i != k ==> items[i].key != item.key
    requires item.count == items[k].count + 1 && Bounds(item, stream + [item.key])
    requires item.error <= Least(items)
    requires item.key != items[k].key ==> Freq(stream, items[k].key) <= Least(items)
    ensures Summarises(items[k := item], stream + [item.key])
  {
    Appended(stream, item.key);
    SumUpdate(items, k, item);
    PutKeepsBounds(items, stream, k, item);
    assert Least(items) <= item.count;
    PutKeepsResidue(items, stream, k, item, Least(items));
    ResidueFloor(items[k := item], stream + [item.key], Least(items));
  }

  lemma HitKeeps(items: seq<Item>, stream: seq<string>, k: nat)
    requires Summarises(items, stream) && k < |items|
    ensures Summarises(items[k := items[k].(count := items[k].count + 1)], stream + [items[k].key])
  {
    var item := items[k].(count := items[k].count + 1);
    Appended(stream, item.key);
    assert Bounds(items[k], stream);
    PutKeeps(items, stream, k, item);
  }

  lemma AppendKeeps(items: seq<Item>, stream: seq<string>, key: string)
    requires Summarises(items, stream) && key != "" && key !in Keys(items) && |items| < CAPACITY
    ensures Summarises(items + [Item(key, 1, 0)], stream + [key])
  {
    var after := items + [Item(key, 1, 0)];
    assert Init(after) == items;
    Appended(stream, key);
    forall i | 0 <= i < |items|
      ensures Bounds(after[i], stream + [key]) && items[i].key in Keys(after) && items[i].key != key
    {
      assert Bounds(items[i], stream);
      assert after[i].key in Keys(after);
    }
    assert after[|items|].key in Keys(after);
  }

  lemma NewcomerBounds(stream: seq<string>, key: string, least: nat)
    requires key != "" && Freq(stream, key) <= least
    ensures Bounds(Item(key, least + 1, least), stream + [key])
  {
    Appended(stream, key);
  }

  lemma ReplaceKeeps(items: seq<Item>, stream: seq<string>, key: string)
    requires Summarises(items, stream) && key != "" && key !in Keys(items) && |items| == CAPACITY
    ensures Summarises(items[MinIndex(items, |items|) := Item(key, Least(items) + 1, Least(items))], stream + [key])
  {
    var m, least := MinIndex(items, |items|), Least(items);
    NewcomerBounds(stream, key, least);
    assert Bounds(items[m], stream);
    assert forall i :: 0 <= i < |items| ==> items[i].key in Keys(items);
    PutKeeps(items, stream, m, Item(key, least + 1, least));
  }

  lemma UnmonitoredKey(items: seq<Item>, key: string)
    requires IndexOf(items, key, 0) == |items|
    ensures key !in Keys(items)
  {
  }

  lemma BumpedWhenFound(items: seq<Item>, key: string, k: nat)
    requires key != "" && k == IndexOf(items, key, 0) < |items|
    ensures Updated(items, key) == items[k := items[k].(count := items[k].count + 1)] && items[k].key == key
  {
  }

  lemma AppendedWhenFree(items: seq<Item>, key: string)
    requires 0 < |key| < MAX_STR && IndexOf(items, key, 0) == |items| < CAPACITY
    ensures Updated(items, key) == items + [Item(key, 1, 0)]
  {
  }

  lemma ReplacedWhenFull(items: seq<Item>, key: string)
    requires 0 < |key| < MAX_STR && IndexOf(items, key, 0) == |items| == CAPACITY
    ensures Updated(items, key) == items[MinIndex(items, |items|) := Item(key, Least(items) + 1, Least(items))]
  {
  }

  lemma NewKeyKeeps(items: seq<Item>, stream: seq<string>, key: string)
    requires Summarises(items, stream) && 0 < |key| < MAX_STR && IndexOf(items, key, 0) == |items|
    ensures Summarises(Updated(items, key), stream + [key])
  {
    UnmonitoredKey(items, key);
    if |items| < CAPACITY {
      AppendedWhenFree(items, key);
      AppendKeeps(items, stream, key);
    } else {
      ReplacedWhenFull(items, key);
      ReplaceKeeps(items, stream, key);
    }
  }

  lemma OldKeyKeeps(items: seq<Item>, stream: seq<string>, key: string)
    requires Summarises(items, stream) && key != "" && IndexOf(items, key, 0) < |items|
    ensures Summarises(Updated(items, key), stream + [key])
  {
    var k := IndexOf(items, key, 0);
    BumpedWhenFound(items, key, k);
    HitKeeps(items, stream, k);
  }

  lemma UpdateKeeps(items: seq<Item>, stream: seq<string>, key: string)
    requires Summarises(items, stream) && |key| < MAX_STR
    ensures Summarises(Updated(items, key), stream + [key])
  {
    if key == "" {
      EmptyKeyKeeps(items, stream);
    } else if IndexOf(items, key, 0) < |items| {
      OldKeyKeeps(items, stream, key);
    } else {
      NewKeyKeeps(items, stream, key);
    }
  }

  /** The summary invariant survives any stream, of any length, over any keys that fit their buffer. */
  lemma {:induction false} RunSummarises(stream: seq<string>)
    requires Fits(stream)
    ensures Summarises(Run(stream), stream)
  {
    if stream != [] {
      RunSummarises(Init(stream));
      UpdateKeeps(Run(Init(stream)), Init(stream), Last(stream));
      assert stream == Init(stream) + [Last(stream)];
    }
  }

  lemma EmptyKeyKeeps(items: seq<Item>, stream: seq<string>)
    requires Summarises(items, stream)
    ensures Summarises(items, stream + [""])
  {
    Appended(stream, "");
    forall i | 0 <= i < |items|
      ensures Bounds(items[i], stream + [""])
    {
      assert Bounds(items[i], stream);
    }
  }

  /** No key outside the summary is more frequent than the smallest counter, which is at most a sixteenth
      of the stream. */
  lemma SmallestCounterBound(stream: seq<string>, key: string)
    requires Fits(stream) && key != "" && key !in Keys(Run(stream))
    ensures Freq(stream, key) <= Least(Run(stream))
    ensures 16 * Least(Run(stream)) <= Total(stream)
  {
    RunSummarises(stream);
    SumOfAtLeast(Run(stream), Least(Run(stream)));
  }

  /** An unmonitored key occurs in at most a sixteenth of the stream, so every heavier key is monitored. */
  lemma HeavyKeysMonitored(stream: seq<string>, key: string)
    requires Fits(stream) && key != "" && 16 * Freq(stream, key) > Total(stream)
    ensures key in Keys(Run(stream))
  {
    if key !in Keys(Run(stream)) {
      SmallestCounterBound(stream, key);
    }
  }

  // ----- the sorted report -----

  predicate ItemBefore(a: Item, b: Item) {
    RankedBefore(Ranked(a.key, a.count), Ranked(b.key, b.count))
  }

  lemma ItemBeforeTotal()
    ensures TotalOrder(ItemBefore)
  {
    RankedBeforeTotal();
    forall x, y
      ensures ItemBefore(x, y) || ItemBefore(y, x)
    {
      var rx, ry := Ranked(x.key, x.count), Ranked(y.key, y.count);
      assert RankedBefore(rx, ry) || RankedBefore(ry, rx);
    }
    forall x, y, z | ItemBefore(x, y) && ItemBefore(y, z)
      ensures ItemBefore(x, z)
    {
      var rx, ry, rz := Ranked(x.key, x.count), Ranked(y.key, y.count), Ranked(z.key, z.count);
      assert RankedBefore(rx, ry) && RankedBefore(ry, rz);
    }
  }

  /** The lower bound that reports print. */
  function LowerBound(item: Item): nat {
    if item.count > item.error then item.count - item.error else 0
  }

  /** The first `n` reported keys are a true top `n`: no other key of the stream is more frequent. */
  ghost predicate TrueTop(report: seq<Item>, stream: seq<string>, n: nat)
    requires n <= |report|
  {
    forall i, key :: 0 <= i < n && key != "" && (forall j :: 0 <= j < n ==> report[j].key != key) ==>
      Freq(stream, key) <= Freq(stream, report[i].key)
  }

  lemma ReportedBounds(stream: seq<string>, report: seq<Item>, i: nat)
    requires Fits(stream) && SortOf(ItemBefore, Run(stream), report) && i < |report|
    ensures Bounds(report[i], stream) && Least(Run(stream)) <= report[i].count
  {
    RunSummarises(stream);
    PermutationMembers(Run(stream), report);
    assert report[i] in Run(stream);
  }

  /** A key that is not among the first `n` reported is no more frequent than entry `n` claims. */
  lemma UnreportedBound(stream: seq<string>, report: seq<Item>, n: nat, key: string)
    requires Fits(stream) && SortOf(ItemBefore, Run(stream), report) && n < |report|
    requires key != "" && forall j :: 0 <= j < n ==> report[j].key != key
    ensures Freq(stream, key) <= report[n].count
  {
    var items := Run(stream);
    if key in Keys(items) {
      var k :| 0 <= k < |items| && items[k].key == key;
      PermutationMembers(items, report);
      assert items[k] in report;
      var j :| 0 <= j < |report| && report[j] == items[k];
      ReportedBounds(stream, report, j);
      assert j > n ==> ItemBefore(report[n], report[j]);
    } else {
      SmallestCounterBound(stream, key);
      ReportedBounds(stream, report, n);
    }
  }

  /** If the lower bounds of the first `n` entries reach the upper bound of the next one, those `n` keys
      are certainly the most frequent of the stream. */
  lemma GuaranteedTop(stream: seq<string>, report: seq<Item>, n: nat)
    requires Fits(stream) && SortOf(ItemBefore, Run(stream), report)
    requires n < |report|
    requires forall i :: 0 <= i < n ==> LowerBound(report[i]) >= report[n].count
    ensures TrueTop(report, stream, n)
  {
    forall i, key | 0 <= i < n && key != "" && (forall j :: 0 <= j < n ==> report[j].key != key)
      ensures Freq(stream, key) <= Freq(stream, report[i].key)
    {
      UnreportedBound(stream, report, n, key);
      ReportedBounds(stream, report, i);
      assert LowerBound(report[i]) >= report[n].count;
    }
  }

  /** The buffer bound is needed: a key of 512 characters is stored truncated, is never recognised again
      and ends up twice under the same name. */
  lemma LongKeyMonitoredTwice(key: string)
    requires |key| == MAX_STR
    ensures !Fits([key, key]) && !DistinctKeys(Run([key, key]))
  {
    var short := Item(CopyTrunc(key, MAX_STR), 1, 0);
    assert Init([key]) == [] && Init([key, key]) == [key];
    assert Run([key]) == [short];
    var run := Run([key, key]);
    assert run == [short, short];
    assert run[0].key == run[1].key;
    assert key in [key, key];
  }

  /** A counter without error is exact, and so is its lower bound. */
  lemma ErrorFreeIsExact(stream: seq<string>, i: nat)
    requires Fits(stream) && i < |Run(stream)| && Run(stream)[i].error == 0
    ensures var item := Run(stream)[i];
            LowerBound(item) == Freq(stream, item.key) == item.count
  {
    RunSummarises(stream);
    assert Bounds(Run(stream)[i], stream);
  }

  function KeySet(stream: seq<string>): set<string> { set k | k in stream && k != "" }

  ghost predicate ErrorFree(items: seq<Item>) { forall i :: 0 <= i < |items| ==> items[i].error == 0 }

  lemma KeyCount(items: seq<Item>)
    requires DistinctKeys(items)
    ensures |Keys(items)| == |items|
  {
    var keys := seq(|items|, i requires 0 <= i < |items| => items[i].key);
    NoDuplicatesSize(keys);
    forall k | k in Keys(items)
      ensures k in keys
    {
      var i :| 0 <= i < |items| && items[i].key == k;
      assert keys[i] == k;
    }
    assert Elements(keys) == Keys(items);
  }

  lemma NewKeyIsExact(items: seq<Item>, stream: seq<string>, key: string)
    requires 0 < |key| < MAX_STR && ErrorFree(items) && Keys(items) == KeySet(stream)
    requires key !in KeySet(stream) ==> |items| < CAPACITY
    ensures ErrorFree(Updated(items, key)) && Keys(Updated(items, key)) == KeySet(stream + [key])
  {
    var k := IndexOf(items, key, 0);
    assert KeySet(stream + [key]) == KeySet(stream) + {key};
    if k < |items| {
      BumpedWhenFound(items, key, k);
      KeysOfUpdate(items, k, items[k].(count := items[k].count + 1));
      assert items[k].key in Keys(items);
    } else {
      UnmonitoredKey(items, key);
      AppendedWhenFree(items, key);
      var after := items + [Item(key, 1, 0)];
      assert forall i :: 0 <= i < |items| ==> after[i] == items[i];
      assert after[|items|].key == key;
      assert Keys(after) == Keys(items) + {key};
    }
  }

  /** A stream of at most sixteen different keys is counted exactly: every key is monitored, without error. */
  lemma {:induction false} FewKeysAreExact(stream: seq<string>)
    requires Fits(stream) && |KeySet(stream)| <= 16
    ensures ErrorFree(Run(stream)) && Keys(Run(stream)) == KeySet(stream)
  {
    if stream == [] {
      assert KeySet(stream) == {} == Keys(Run(stream));
    } else {
      var front, key := Init(stream), Last(stream);
      Rejoined(stream);
      assert KeySet(front) <= KeySet(stream);
      SubsetSize(KeySet(front), KeySet(stream));
      FewKeysAreExact(front);
      RunSummarises(front);
      KeyCount(Run(front));
      if key == "" {
        assert KeySet(stream) == KeySet(front);
      } else {
        if key !in KeySet(front) {
          assert KeySet(stream) == KeySet(front) + {key};
        }
        NewKeyIsExact(Run(front), front, key);
      }
    }
  }

  // ----- the summary itself -----

  class Summary {
    const slots: array<Item>
    var used: nat

    ghost predicate Valid()
      reads this
    {
      slots.Length == CAPACITY && used <= CAPACITY
    }

    ghost function Items(): seq<Item>
      requires Valid()
      reads this, slots
    {
      slots[..used]
    }

    constructor ()
      ensures Valid() && fresh(slots) && Items() == []
    {
      slots := new Item[CAPACITY](_ => Item("", 0, 0));
      used := 0;
    }

    method Update(key: string)
      requires Valid()
      modifies this, slots
      ensures Valid() && Items() == Updated(old(Items()), key)
    {
      if key == "" {
        return;
      }
      for i := 0 to used
        invariant used == old(used) && Items() == old(Items())
        invariant IndexOf(Items(), key, 0) == IndexOf(Items(), key, i)
      {
        if slots[i].key == key {
          slots[i] := slots[i].(count := slots[i].count + 1);
          return;
        }
      }
      if used < CAPACITY {
        slots[used] := Item(CopyTrunc(key, MAX_STR), 1, 0);
        used := used + 1;
        return;
      }
      var min := 0;
      for i := 1 to used
        invariant min < used && min == MinIndex(Items(), i)
      {
        if slots[i].count < slots[min].count {
          min := i;
        }
      }
      var replaced := slots[min].count;
      slots[min] := Item(CopyTrunc(key, MAX_STR), replaced + 1, replaced);
    }

    method SortedCopy() returns (report: seq<Item>)
      requires Valid()
      ensures SortOf(ItemBefore, Items(), report)
    {
      ItemBeforeTotal();
      SortSorts(ItemBefore, Items());
      report := Sort(ItemBefore, slots[..used]);
    }
  }
}

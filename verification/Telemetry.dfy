/** The telemetry: for each field of the events a Count-Min sketch with its candidates, HyperLogLog
    registers and a Space-Saving summary, all fed with the same keys. */
module Telemetry {
  import opened Base
  import opened Sorting
  import opened Text
  import opened Events
  import CM = CountMin
  import SS = SpaceSaving
  import HLL = HyperLogLog
  import G = Graph

  const CMS_WIDTH: nat := 4096
  const CMS_DEPTH: nat := 5

  /** The hashes that the sketches of one field use. */
  datatype Hashes = Hashes(cms: DoubleHash, hll: string -> U64)

  // ----- the same stream in every sketch -----

  /** The stream of keys as additions of one. */
  function Unit(keys: seq<string>): seq<CM.Add> {
    if keys == [] then [] else Unit(Init(keys)) + [CM.Add(Last(keys), 1)]
  }

  lemma UnitStep(keys: seq<string>, key: string)
    ensures Unit(keys + [key]) == Unit(keys) + [CM.Add(key, 1)]
    ensures Init(Unit(keys) + [CM.Add(key, 1)]) == Unit(keys)
  {
    assert Init(keys + [key]) == keys;
  }

  /** The weights of the sketch are the frequencies of the summary. */
  lemma {:induction false} UnitWeights(keys: seq<string>, key: string)
    ensures CM.Weight(Unit(keys), key) == SS.Freq(keys, key)
    ensures CM.Total(Unit(keys)) == SS.Total(keys)
    ensures CM.KeysOf(Unit(keys)) == NonEmpty(keys)
  {
    if keys != [] {
      UnitWeights(Init(keys), key);
      UnitStep(Init(keys), Last(keys));
      Rejoined(keys);
    }
  }

  function NonEmpty(keys: seq<string>): seq<string> {
    if keys == [] then [] else Added(NonEmpty(Init(keys)), Last(keys))
  }

  /** Two summaries of one stream never contradict each other: for a monitored key the guaranteed part of
      its counter is at most its frequency, which is at most both its counter and its estimate. */
  lemma LowerBoundBelowEstimate(sh: CM.Shape, keys: seq<string>, i: nat)
    requires sh.Positive() && SS.Fits(keys) && SS.Total(keys) < MAX_U64 && i < |SS.Run(keys)|
    ensures var item := SS.Run(keys)[i];
            var estimate := CM.Estimate(sh, Unit(keys), item.key);
            && SS.LowerBound(item) <= SS.Freq(keys, item.key) <= Min(item.count, estimate)
            && estimate <= SS.Total(keys)
  {
    SS.RunSummarises(keys);
    var item := SS.Run(keys)[i];
    assert SS.Bounds(item, keys);
    UnitWeights(keys, item.key);
    CM.EstimateBounds(sh, Unit(keys), item.key);
  }

  /** The frequency of a key that is not monitored is at most the smallest counter and at most its estimate. */
  lemma UnmonitoredBounds(sh: CM.Shape, keys: seq<string>, key: string)
    requires sh.Positive() && SS.Fits(keys) && SS.Total(keys) < MAX_U64
    requires key != "" && key !in SS.Keys(SS.Run(keys))
    ensures SS.Freq(keys, key) <= Min(SS.Least(SS.Run(keys)), CM.Estimate(sh, Unit(keys), key))
  {
    SS.SmallestCounterBound(keys, key);
    UnitWeights(keys, key);
    CM.EstimateBounds(sh, Unit(keys), key);
  }

  // ----- one field -----

  /** A Count-Min sketch with the candidates for its top list. */
  class Ranking {
    const cms: CM.Sketch
    var candidates: seq<string>
    ghost var keys: seq<string>
    ghost var repr: set<object>

    ghost predicate Valid()
      reads this, repr
    {
      && repr == {this, cms, cms.table} && cms.Valid()
      && cms.adds == Unit(keys) && candidates == CM.Candidates(Unit(keys), CM.MAX_CANDIDATES)
    }

    constructor (hash: DoubleHash)
      ensures Valid() && fresh(repr) && keys == [] && cms.sh == CM.Shape(hash, 4096, 5)
    {
      cms := new CM.Sketch(hash, CMS_WIDTH, CMS_DEPTH);
      candidates, keys := [], [];
      new;
      repr := {this, cms, cms.table};
    }

    method Update(key: string)
      requires Valid()
      modifies repr
      ensures Valid() && repr == old(repr) && keys == Added(old(keys), key)
    {
      if key == "" {
        return;
      }
      UnitStep(keys, key);
      cms.AddTo(key, 1);
      candidates := CM.AddCandidate(candidates, key, CM.MAX_CANDIDATES);
      keys := keys + [key];
    }
  }

  /** All the sketches of one field. */
  class Channel {
    const ranking: Ranking
    const unique: HLL.Registers
    const summary: SS.Summary
    ghost var keys: seq<string>
    ghost var repr: set<object>

    /** Every sketch of the field has seen the same keys. */
    ghost predicate Valid()
      reads this, ranking, repr
    {
      && this !in ranking.repr
      && repr == {this, ranking, unique, unique.registers, summary, summary.slots} + ranking.repr
      && unique !in ranking.repr && unique.registers !in ranking.repr
      && summary !in ranking.repr && summary.slots !in ranking.repr
      && ranking.Valid() && ranking.keys == keys
      && unique.Valid() && unique.keys == keys
      && summary.Valid() && summary.Items() == SS.Run(keys)
    }

    constructor (hashes: Hashes)
      ensures Valid() && fresh(repr) && keys == []
      ensures ranking.cms.sh == CM.Shape(hashes.cms, 4096, 5) && unique.hash == hashes.hll
    {
      ranking := new Ranking(hashes.cms);
      unique := new HLL.Registers(hashes.hll);
      summary := new SS.Summary();
      keys := [];
      new;
      repr := {this, ranking, unique, unique.registers, summary, summary.slots} + ranking.repr;
    }

    method Update(key: string)
      requires Valid()
      modifies repr
      ensures Valid() && repr == old(repr) && keys == Added(old(keys), key)
    {
      if key == "" {
        return;
      }
      assert Init(keys + [key]) == keys;
      ranking.Update(key);
      unique.Add(key);
      summary.Update(key);
      keys := keys + [key];
    }
  }

  // ----- all fields of the events -----

  datatype Field = Process | File | Destination | Kind

  function ValueOf(ev: Event, field: Field): string {
    match field case Process => ev.process case File => ev.file case Destination => ev.dst case Kind => ev.event
  }

  /** The non-empty values of a field, in order. */
  function KeysIn(log: seq<Event>, field: Field): seq<string> {
    if log == [] then [] else Added(KeysIn(Init(log), field), ValueOf(Last(log), field))
  }

  /** The printed process identifiers that are not negative. */
  function PidKeys(log: seq<Event>): seq<string> {
    if log == [] then [] else PidKeys(Init(log)) + Printed(Last(log).pid)
  }

  function Printed(pid: int): seq<string> { if pid >= 0 then [Decimal(pid)] else [] }

  /** The registers of the process identifiers; negative ones are not counted. */
  class PidChannel {
    const unique: HLL.Registers
    ghost var keys: seq<string>
    ghost var repr: set<object>

    ghost predicate Valid()
      reads this, repr
    {
      repr == {this, unique, unique.registers} && unique.Valid() && unique.keys == keys
    }

    constructor (hash: string -> U64)
      ensures Valid() && fresh(repr) && keys == []
    {
      unique := new HLL.Registers(hash);
      keys := [];
      new;
      repr := {this, unique, unique.registers};
    }

    method Update(pid: int)
      requires Valid()
      modifies repr
      ensures Valid() && repr == old(repr) && keys == old(keys) + Printed(pid)
    {
      if pid >= 0 {
        unique.Add(Decimal(pid));
        keys := keys + [Decimal(pid)];
      }
    }
  }

  ghost predicate PairwiseApart(a: set<object>, b: set<object>, c: set<object>, d: set<object>, e: set<object>) {
    a !! b && a !! c && a !! d && a !! e && b !! c && b !! d && b !! e && c !! d && c !! e && d !! e
  }

  /** One event's values into the sketches of all fields, which share nothing. */
  method Update(processes: Channel, files: Channel, destinations: Channel, kinds: Ranking, pids: PidChannel, ev: Event)
    requires processes.Valid() && files.Valid() && destinations.Valid() && kinds.Valid() && pids.Valid()
    requires PairwiseApart(processes.repr, files.repr, destinations.repr, kinds.repr, pids.repr)
    modifies processes.repr, files.repr, destinations.repr, kinds.repr, pids.repr
    ensures processes.Valid() && processes.repr == old(processes.repr)
    ensures processes.keys == Added(old(processes.keys), ev.process)
    ensures files.Valid() && files.repr == old(files.repr) && files.keys == Added(old(files.keys), ev.file)
    ensures destinations.Valid() && destinations.repr == old(destinations.repr)
    ensures destinations.keys == Added(old(destinations.keys), ev.dst)
    ensures kinds.Valid() && kinds.repr == old(kinds.repr) && kinds.keys == Added(old(kinds.keys), ev.event)
    ensures pids.Valid() && pids.repr == old(pids.repr) && pids.keys == old(pids.keys) + Printed(ev.pid)
  {
    pids.Update(ev.pid);
    processes.Update(ev.process);
    files.Update(ev.file);
    destinations.Update(ev.dst);
    kinds.Update(ev.event);
  }

  /** The sketches that start empty have, after a log, seen the values of their field over the log. */
  method Collect(processes: Channel, files: Channel, destinations: Channel, kinds: Ranking, pids: PidChannel,
                 log: seq<Event>)
    requires processes.Valid() && files.Valid() && destinations.Valid() && kinds.Valid() && pids.Valid()
    requires PairwiseApart(processes.repr, files.repr, destinations.repr, kinds.repr, pids.repr)
    requires processes.keys == [] && files.keys == [] && destinations.keys == [] && kinds.keys == [] && pids.keys == []
    modifies processes.repr, files.repr, destinations.repr, kinds.repr, pids.repr
    ensures processes.Valid() && files.Valid() && destinations.Valid() && kinds.Valid() && pids.Valid()
    ensures processes.keys == KeysIn(log, Process) && files.keys == KeysIn(log, File)
    ensures destinations.keys == KeysIn(log, Destination) && kinds.keys == KeysIn(log, Kind)
    ensures pids.keys == PidKeys(log)
  {
    for i := 0 to |log|
      invariant processes.Valid() && files.Valid() && destinations.Valid() && kinds.Valid() && pids.Valid()
      invariant processes.repr == old(processes.repr) && files.repr == old(files.repr)
      invariant destinations.repr == old(destinations.repr)
      invariant kinds.repr == old(kinds.repr) && pids.repr == old(pids.repr)
      invariant processes.keys == KeysIn(log[..i], Process) && files.keys == KeysIn(log[..i], File)
      invariant destinations.keys == KeysIn(log[..i], Destination) && kinds.keys == KeysIn(log[..i], Kind)
      invariant pids.keys == PidKeys(log[..i])
    {
      PrefixStep(log, i);
      Update(processes, files, destinations, kinds, pids, log[i]);
    }
    assert log[..|log|] == log;
  }

  lemma PrefixStep(log: seq<Event>, i: nat)
    requires i < |log|
    ensures KeysIn(log[..i + 1], Process) == Added(KeysIn(log[..i], Process), log[i].process)
    ensures KeysIn(log[..i + 1], File) == Added(KeysIn(log[..i], File), log[i].file)
    ensures KeysIn(log[..i + 1], Destination) == Added(KeysIn(log[..i], Destination), log[i].dst)
    ensures KeysIn(log[..i + 1], Kind) == Added(KeysIn(log[..i], Kind), log[i].event)
    ensures PidKeys(log[..i + 1]) == PidKeys(log[..i]) + Printed(log[i].pid)
  {
    assert Init(log[..i + 1]) == log[..i];
  }

  // ----- what the sketches say about a log -----

  lemma {:induction false} KeysFit(log: seq<Event>, field: Field)
    requires G.AllFit(log)
    ensures SS.Fits(KeysIn(log, field))
    ensures SS.Total(KeysIn(log, field)) <= |log|
  {
    if log != [] {
      Rejoined(log);
      assert Last(log) in log;
      KeysFit(Init(log), field);
      AddedTotal(KeysIn(Init(log), field), ValueOf(Last(log), field));
    }
  }

  lemma AddedTotal(keys: seq<string>, key: string)
    ensures SS.Total(Added(keys, key)) <= SS.Total(keys) + 1
  {
    assert Init(keys + [key]) == keys;
  }

  /** Over every log of fewer than 2^64 - 1 events, for every field: each monitored key's guaranteed part,
      its frequency, its counter and its estimate are in this order, and every key that occurs more often
      than one event in sixteen is monitored. */
  lemma SummariesOfLog(sh: CM.Shape, log: seq<Event>, field: Field, key: string)
    requires sh.Positive() && G.AllFit(log) && |log| < MAX_U64 && key != ""
    ensures var keys := KeysIn(log, field);
            && SS.Freq(keys, key) <= CM.Estimate(sh, Unit(keys), key) <= |log|
            && (forall item :: item in SS.Run(keys) && item.key == key ==>
                  SS.LowerBound(item) <= SS.Freq(keys, key) <= item.count)
            && (16 * SS.Freq(keys, key) > |log| ==> key in SS.Keys(SS.Run(keys)))
  {
    var keys := KeysIn(log, field);
    KeysFit(log, field);
    UnitWeights(keys, key);
    CM.EstimateBounds(sh, Unit(keys), key);
    SS.RunSummarises(keys);
    assert forall i :: 0 <= i < |SS.Run(keys)| ==> SS.Bounds(SS.Run(keys)[i], keys);
    if 16 * SS.Freq(keys, key) > |log| {
      SS.HeavyKeysMonitored(keys, key);
    }
  }

  /** The reported top list of a field with at most 4096 distinct values lists each of them once, and
      rank by rank its estimates are at least the true frequencies in descending order. */
  lemma TopOfLog(sh: CM.Shape, log: seq<Event>, field: Field, report: seq<Ranked>, truth: seq<Ranked>)
    requires sh.Positive() && G.AllFit(log) && |log| < MAX_U64
    requires |Distinct(KeysIn(log, field))| <= 4096
    requires var adds := Unit(KeysIn(log, field));
             SortOf(RankedBefore, CM.Estimates(sh, adds, CM.Candidates(adds, 4096)), report)
    requires SortOf(RankedBefore, Frequencies(KeysIn(log, field)), truth)
    ensures CM.ListsOnce(report, KeysIn(log, field)) && |report| == |truth|
    ensures forall i :: 0 <= i < |truth| ==> truth[i].weight <= report[i].weight <= |log|
  {
    var keys := KeysIn(log, field);
    KeysFit(log, field);
    UnitWeights(keys, "");
    NonEmptyKeys(log, field);
    FrequenciesAreTruths(keys);
    CM.ReportDominates(sh, Unit(keys), CM.MAX_CANDIDATES, report, truth);
  }

  /** The distinct keys with their frequencies. */
  function Frequencies(keys: seq<string>): seq<Ranked> {
    var d := Distinct(keys);
    seq(|d|, i requires 0 <= i < |d| => Ranked(d[i], SS.Freq(keys, d[i])))
  }

  lemma FrequenciesAreTruths(keys: seq<string>)
    ensures Frequencies(keys) == CM.Truths(Unit(keys), Distinct(keys))
  {
    var d := Distinct(keys);
    forall i | 0 <= i < |d|
      ensures Frequencies(keys)[i] == CM.Truths(Unit(keys), d)[i]
    {
      UnitWeights(keys, d[i]);
    }
  }

  lemma {:induction false} NonEmptyKeys(log: seq<Event>, field: Field)
    ensures NonEmpty(KeysIn(log, field)) == KeysIn(log, field)
  {
    if log != [] {
      NonEmptyKeys(Init(log), field);
      var before, v := KeysIn(Init(log), field), ValueOf(Last(log), field);
      assert v != "" ==> Init(before + [v]) == before;
    }
  }

  // ----- the keys of pids -----

  lemma DifferentPids(a: int, b: int)
    requires -LONG_MAX - 1 <= a <= LONG_MAX && -LONG_MAX - 1 <= b <= LONG_MAX && Decimal(a) == Decimal(b)
    ensures a == b
  {
    DecimalRoundTrip(a, "");
    DecimalRoundTrip(b, "");
    assert Decimal(a) + "" == Decimal(b) + "";
  }

  function CountedPids(log: seq<Event>): set<int> { set e | e in log && e.pid >= 0 :: e.pid }

  lemma {:induction false} PidKeysOf(log: seq<Event>, pid: int)
    requires G.AllFit(log) && 0 <= pid <= LONG_MAX
    ensures Decimal(pid) in PidKeys(log) <==> pid in CountedPids(log)
  {
    if log != [] {
      Rejoined(log);
      PidKeysOf(Init(log), pid);
      var last := Last(log);
      assert last in log;
      assert pid in CountedPids(log) <==> pid in CountedPids(Init(log)) || pid == last.pid;
      if Decimal(pid) == Decimal(last.pid) {
        DifferentPids(pid, last.pid);
      }
    }
  }

  lemma PidSetsStep(log: seq<Event>)
    requires log != []
    ensures var pid := Last(log).pid;
            && CountedPids(log) == CountedPids(Init(log)) + (if pid >= 0 then {pid} else {})
            && Elements(PidKeys(log)) == Elements(PidKeys(Init(log))) + (if pid >= 0 then {Decimal(pid)} else {})
  {
    Rejoined(log);
    var front, last := Init(log), Last(log);
    assert forall e :: e in log <==> e in front || e == last;
    assert PidKeys(log) == PidKeys(front) + Printed(last.pid);
  }

  /** The registers of the pids are fed with one key for each pid that is not negative. */
  lemma {:induction false} OneKeyPerPid(log: seq<Event>)
    requires G.AllFit(log)
    ensures |Elements(PidKeys(log))| == |CountedPids(log)|
  {
    if log == [] {
      assert Elements(PidKeys(log)) == {} && CountedPids(log) == {};
    } else {
      Rejoined(log);
      assert Last(log) in log;
      OneKeyPerPid(Init(log));
      PidSetsStep(log);
      if Last(log).pid >= 0 {
        PidKeysOf(Init(log), Last(log).pid);
      }
    }
  }
}

/** The selection-based ranking of GuardSketch, its sentinel, and the overlap of two rankings. */
module GuardRanking {
  import opened Base
  import opened GuardSketch

  /** What the ranking looks at: the score of every slot, exact or approximate. */
  function RiskOf(h: Hash, slot: Slot, approx: bool): nat { if approx then ApproxRisk(h, slot) else ExactRisk(slot) }

  // ----- the selection as the code performs it -----

  /** The best slot so far; pid -1 stands for none. */
  datatype Best = Best(score: nat, pid: int, index: nat)

  function Better(best: Best, score: nat, pid: int): bool {
    best.pid < 0 || score > best.score || (score == best.score && pid < best.pid)
  }

  function Scan(h: Hash, slots: seq<Slot>, selected: set<nat>, approx: bool, n: nat): Best
    requires n <= |slots|
  {
    if n == 0 then Best(0, -1, 0)
    else
      var best, slot := Scan(h, slots, selected, approx, n - 1), slots[n - 1];
      if slot.used && n - 1 !in selected && Better(best, RiskOf(h, slot, approx), slot.pid)
      then Best(RiskOf(h, slot, approx), slot.pid, n - 1)
      else best
  }

  /** The slots selected in up to `k` rounds. */
  function Selection(h: Hash, slots: seq<Slot>, selected: set<nat>, approx: bool, k: nat): (top: seq<nat>)
    ensures forall i :: 0 <= i < |top| ==> top[i] < |slots|
    decreases k
  {
    if k == 0 then []
    else
      var best := Scan(h, slots, selected, approx, |slots|);
      if best.pid < 0 then []
      else
        ScanIsEligible(h, slots, selected, approx, |slots|);
        [best.index] + Selection(h, slots, selected + {best.index}, approx, k - 1)
  }

  // ----- what a ranking should be -----

  predicate Eligible(slots: seq<Slot>, selected: set<nat>, i: nat) {
    i < |slots| && slots[i].used && i !in selected
  }

  function Candidates(slots: seq<Slot>, selected: set<nat>): set<nat> {
    set i | 0 <= i < |slots| && Eligible(slots, selected, i)
  }

  predicate Before(h: Hash, a: Slot, b: Slot, approx: bool) {
    var ra, rb := RiskOf(h, a, approx), RiskOf(h, b, approx);
    ra > rb || (ra == rb && a.pid < b.pid)
  }

  ghost predicate DistinctPids(slots: seq<Slot>) {
    forall i, j :: 0 <= i < j < |slots| && slots[i].used && slots[j].used ==> slots[i].pid != slots[j].pid
  }

  ghost predicate NoNegativePids(slots: seq<Slot>) {
    forall i :: 0 <= i < |slots| && slots[i].used ==> slots[i].pid >= 0
  }

  /** The true top `k`: as many slots as there are, strictly ordered by score and then by lower pid, and
      nothing left out that ranks before any of them. */
  ghost predicate IsTop(h: Hash, slots: seq<Slot>, selected: set<nat>, approx: bool, top: seq<nat>, k: nat) {
    && |top| == Min(k, |Candidates(slots, selected)|)
    && (forall i :: 0 <= i < |top| ==> top[i] in Candidates(slots, selected))
    && (forall i, j :: 0 <= i < j < |top| ==> Before(h, slots[top[i]], slots[top[j]], approx))
    && (forall i, m :: 0 <= i < |top| && m in Candidates(slots, selected) && m !in top ==>
          Before(h, slots[top[i]], slots[m], approx))
  }

  lemma {:induction false} ScanFindsBest(h: Hash, slots: seq<Slot>, selected: set<nat>, approx: bool, n: nat)
    requires n <= |slots| && DistinctPids(slots) && NoNegativePids(slots)
    ensures var best := Scan(h, slots, selected, approx, n);
            && (best.pid < 0 <==> forall i :: 0 <= i < n ==> !Eligible(slots, selected, i))
            && (best.pid >= 0 ==>
                  && best.index < n && Eligible(slots, selected, best.index)
                  && best.pid == slots[best.index].pid && best.score == RiskOf(h, slots[best.index], approx)
                  && forall i :: 0 <= i < n && Eligible(slots, selected, i) && i != best.index ==>
                       Before(h, slots[best.index], slots[i], approx))
  {
    if n > 0 {
      ScanFindsBest(h, slots, selected, approx, n - 1);
      assert Eligible(slots, selected, n - 1) <==> slots[n - 1].used && n - 1 !in selected;
      var best := Scan(h, slots, selected, approx, n);
      assert best.pid >= 0 ==> Eligible(slots, selected, best.index);
    }
  }

  lemma CandidatesWithout(slots: seq<Slot>, selected: set<nat>, i: nat)
    requires Eligible(slots, selected, i)
    ensures Candidates(slots, selected + {i}) == Candidates(slots, selected) - {i}
    ensures |Candidates(slots, selected + {i})| == |Candidates(slots, selected)| - 1
  {
  }

  /** Putting the best slot in front of a top of the others. */
  lemma TopExtends(h: Hash, slots: seq<Slot>, selected: set<nat>, approx: bool, b: nat, rest: seq<nat>, k: nat)
    requires Eligible(slots, selected, b) && IsTop(h, slots, selected + {b}, approx, rest, k)
    requires forall i :: 0 <= i < |slots| && Eligible(slots, selected, i) && i != b ==>
             Before(h, slots[b], slots[i], approx)
    ensures IsTop(h, slots, selected, approx, [b] + rest, k + 1)
  {
    CandidatesWithout(slots, selected, b);
    var top := [b] + rest;
    forall i, m | 0 <= i < |top| && m in Candidates(slots, selected) && m !in top
      ensures Before(h, slots[top[i]], slots[m], approx)
    {
      assert m != b && m !in rest;
      if i > 0 {
        assert Before(h, slots[rest[i - 1]], slots[m], approx);
      }
    }
  }

  /** For non-negative pids the selection is the true top `k`. */
  lemma {:induction false} SelectionIsTop(h: Hash, slots: seq<Slot>, selected: set<nat>, approx: bool, k: nat)
    requires DistinctPids(slots) && NoNegativePids(slots)
    ensures IsTop(h, slots, selected, approx, Selection(h, slots, selected, approx, k), k)
    decreases k
  {
    if k > 0 {
      ScanFindsBest(h, slots, selected, approx, |slots|);
      var best := Scan(h, slots, selected, approx, |slots|);
      if best.pid < 0 {
        assert Candidates(slots, selected) == {};
      } else {
        SelectionIsTop(h, slots, selected + {best.index}, approx, k - 1);
        TopExtends(h, slots, selected, approx, best.index,
                   Selection(h, slots, selected + {best.index}, approx, k - 1), k - 1);
      }
    }
  }

  // ----- the sentinel -----

  lemma {:induction false} ScanIsEligible(h: Hash, slots: seq<Slot>, selected: set<nat>, approx: bool, n: nat)
    requires n <= |slots|
    ensures var best := Scan(h, slots, selected, approx, n);
            best.pid >= 0 ==>
              best.index < n && Eligible(slots, selected, best.index) && slots[best.index].pid == best.pid
  {
    if n > 0 {
      ScanIsEligible(h, slots, selected, approx, n - 1);
    }
  }

  ghost predicate AllNonNegative(slots: seq<Slot>, top: seq<nat>) {
    forall i :: i in top ==> i < |slots| && slots[i].pid >= 0
  }

  lemma {:induction false} SelectionNonNegative(h: Hash, slots: seq<Slot>, selected: set<nat>, approx: bool, k: nat)
    ensures AllNonNegative(slots, Selection(h, slots, selected, approx, k))
    decreases k
  {
    if k > 0 {
      var best := Scan(h, slots, selected, approx, |slots|);
      ScanIsEligible(h, slots, selected, approx, |slots|);
      if best.pid >= 0 {
        SelectionNonNegative(h, slots, selected + {best.index}, approx, k - 1);
      }
    }
  }

  lemma {:induction false} TopSize(top: seq<nat>, all: set<nat>, missing: nat)
    requires forall i, j :: 0 <= i < j < |top| ==> top[i] != top[j]
    requires forall i :: 0 <= i < |top| ==> top[i] in all
    requires missing in all && missing !in top
    ensures |top| < |all|
  {
    if top == [] {
      assert missing in all;
    } else {
      assert forall i :: 0 <= i < |Init(top)| ==> Init(top)[i] == top[i];
      TopSize(Init(top), all - {Last(top)}, missing);
    }
  }

  ghost predicate RanksRight(h: Hash, slots: seq<Slot>, approx: bool, k: nat) {
    IsTop(h, slots, {}, approx, Selection(h, slots, {}, approx, k), k)
  }

  /** A tracked process with a negative pid is never returned, since -1 marks "none": the ranking of all
      tracked processes is right exactly when no tracked pid is negative. */
  lemma RankingRightIff(h: Hash, slots: seq<Slot>, approx: bool)
    requires DistinctPids(slots)
    ensures (forall k :: RanksRight(h, slots, approx, k)) <==> NoNegativePids(slots)
  {
    if NoNegativePids(slots) {
      forall k: nat
        ensures RanksRight(h, slots, approx, k)
      {
        SelectionIsTop(h, slots, {}, approx, k);
      }
    } else {
      var m :| 0 <= m < |slots| && slots[m].used && slots[m].pid < 0;
      var all := Candidates(slots, {});
      var top := Selection(h, slots, {}, approx, |all|);
      SelectionNonNegative(h, slots, {}, approx, |all|);
      assert m in all;
      assert m !in top;
      if IsTop(h, slots, {}, approx, top, |all|) {
        assert forall i, j :: 0 <= i < j < |top| ==> Before(h, slots[top[i]], slots[top[j]], approx);
        TopSize(top, all, m);
      }
      assert !RanksRight(h, slots, approx, |all|);
    }
  }

  // ----- the two rankings -----

  ghost predicate Ahead(scoreA: nat, pidA: int, scoreB: nat, pidB: int) {
    scoreA > scoreB || (scoreA == scoreB && pidA < pidB)
  }

  /** The exact ranking of a reachable state goes by exact risk, then by lower pid; nothing left out is ahead of
      anything listed. */
  lemma ExactTopIsByExactRisk(h: Hash, limit: nat, log: seq<Sample>, k: nat)
    requires NoNegativePids(Run(h, limit, log).slots)
    ensures var slots := Run(h, limit, log).slots;
            var top := Selection(h, slots, {}, false, k);
            && (forall i, j :: 0 <= i < j < |top| ==>
                  var a, b := slots[top[i]], slots[top[j]];
                  Ahead(ExactRisk(a), a.pid, ExactRisk(b), b.pid))
            && (forall i, m :: 0 <= i < |top| && 0 <= m < |slots| && slots[m].used && m !in top ==>
                  Ahead(ExactRisk(slots[top[i]]), slots[top[i]].pid, ExactRisk(slots[m]), slots[m].pid))
  {
    var slots := Run(h, limit, log).slots;
    RunDistinctPids(h, limit, log);
    SelectionIsTop(h, slots, {}, false, k);
    TopByScore(h, slots, false, Selection(h, slots, {}, false, k), k);
  }

  /** The approximate ranking goes by approximate risk. */
  lemma ApproxTopIsByApproxRisk(h: Hash, limit: nat, log: seq<Sample>, k: nat)
    requires NoNegativePids(Run(h, limit, log).slots)
    ensures var slots := Run(h, limit, log).slots;
            var top := Selection(h, slots, {}, true, k);
            && (forall i, j :: 0 <= i < j < |top| ==>
                  var a, b := slots[top[i]], slots[top[j]];
                  Ahead(ApproxRisk(h, a), a.pid, ApproxRisk(h, b), b.pid))
            && (forall i, m :: 0 <= i < |top| && 0 <= m < |slots| && slots[m].used && m !in top ==>
                  Ahead(ApproxRisk(h, slots[top[i]]), slots[top[i]].pid, ApproxRisk(h, slots[m]), slots[m].pid))
  {
    var slots := Run(h, limit, log).slots;
    RunDistinctPids(h, limit, log);
    SelectionIsTop(h, slots, {}, true, k);
    TopByScore(h, slots, true, Selection(h, slots, {}, true, k), k);
  }

  lemma TopByScore(h: Hash, slots: seq<Slot>, approx: bool, top: seq<nat>, k: nat)
    requires IsTop(h, slots, {}, approx, top, k) && forall i :: 0 <= i < |top| ==> top[i] < |slots|
    ensures forall i, j :: 0 <= i < j < |top| ==>
              var a, b := slots[top[i]], slots[top[j]];
              Ahead(RiskOf(h, a, approx), a.pid, RiskOf(h, b, approx), b.pid)
    ensures forall i, m :: 0 <= i < |top| && 0 <= m < |slots| && slots[m].used && m !in top ==>
              Ahead(RiskOf(h, slots[top[i]], approx), slots[top[i]].pid, RiskOf(h, slots[m], approx), slots[m].pid)
  {
    forall i, m | 0 <= i < |top| && 0 <= m < |slots| && slots[m].used && m !in top
      ensures Ahead(RiskOf(h, slots[top[i]], approx), slots[top[i]].pid, RiskOf(h, slots[m], approx), slots[m].pid)
    {
      assert Eligible(slots, {}, m);
      assert m in Candidates(slots, {});
      assert Before(h, slots[top[i]], slots[m], approx);
    }
    forall i, j | 0 <= i < j < |top|
      ensures var a, b := slots[top[i]], slots[top[j]];
              Ahead(RiskOf(h, a, approx), a.pid, RiskOf(h, b, approx), b.pid)
    {
      assert Before(h, slots[top[i]], slots[top[j]], approx);
    }
  }

  // ----- exact against approximate -----

  function PidsOf(slots: seq<Slot>, top: seq<nat>): seq<int>
    requires forall i :: 0 <= i < |top| ==> top[i] < |slots|
  {
    seq(|top|, i requires 0 <= i < |top| => slots[top[i]].pid)
  }

  /** The number of entries of `a` that occur in `b`. */
  function Overlap(a: seq<int>, b: seq<int>): nat {
    if a == [] then 0 else Overlap(Init(a), b) + if Last(a) in b then 1 else 0
  }

  /** Of entries that are all different, as pids of a top list are, the overlap counts the common ones. */
  lemma {:induction false} OverlapIsIntersection(a: seq<int>, b: seq<int>)
    requires NoDuplicates(a)
    ensures Overlap(a, b) == |Elements(a) * Elements(b)|
  {
    if a == [] {
      assert Elements(a) * Elements(b) == {};
    } else {
      var front, last := Init(a), Last(a);
      OverlapIsIntersection(front, b);
      Rejoined(a);
      assert last !in front;
      if last in b {
        assert Elements(a) * Elements(b) == Elements(front) * Elements(b) + {last};
      } else {
        assert Elements(a) * Elements(b) == Elements(front) * Elements(b);
      }
    }
  }

  lemma {:induction false} FullOverlap(a: seq<int>, b: seq<int>)
    requires forall x :: x in a ==> x in b
    ensures Overlap(a, b) == |a|
  {
    if a != [] {
      forall x | x in Init(a)
        ensures x in b
      {
        assert x in a;
      }
      var last := Last(a);
      assert last in a;
      FullOverlap(Init(a), b);
    }
  }

  /** Every member of the exact top is, by its exact score, above the approximate score of every other
      tracked process. */
  ghost predicate Separated(h: Hash, slots: seq<Slot>, exact: seq<nat>) {
    forall i, m :: 0 <= i < |exact| && m in Candidates(slots, {}) && m !in exact ==>
      exact[i] < |slots| && ExactRisk(slots[exact[i]]) > ApproxRisk(h, slots[m])
  }

  /** Of two tops of equal size, one of which has a member the other lacks, so does the other. */
  lemma MissingMember(exact: seq<nat>, approx: seq<nat>, a: nat) returns (j: nat)
    requires NoDuplicates(exact) && NoDuplicates(approx) && |exact| == |approx|
    requires a in approx && a !in exact
    ensures j < |exact| && exact[j] !in approx
  {
    NoDuplicatesSize(exact);
    NoDuplicatesSize(approx);
    if forall x :: x in exact ==> x in approx {
      SubsetSize(Elements(exact), Elements(approx) - {a});
    }
    j :| 0 <= j < |exact| && exact[j] !in approx;
  }

  lemma TopNoDuplicates(h: Hash, slots: seq<Slot>, approx: bool, top: seq<nat>, k: nat)
    requires IsTop(h, slots, {}, approx, top, k)
    ensures NoDuplicates(top)
  {
    forall i, j | 0 <= i < j < |top|
      ensures top[i] != top[j]
    {
      assert Before(h, slots[top[i]], slots[top[j]], approx);
    }
  }

  /** A slot of the approximate top cannot displace a member of the exact top unless it belongs there. */
  lemma NoDisplacement(h: Hash, slots: seq<Slot>, exact: seq<nat>, approx: seq<nat>, k: nat, i: nat, j: nat)
    requires IsTop(h, slots, {}, false, exact, k) && IsTop(h, slots, {}, true, approx, k)
    requires Separated(h, slots, exact)
    requires forall i :: 0 <= i < |slots| && slots[i].used ==> ExactRisk(slots[i]) <= ApproxRisk(h, slots[i])
    requires i < |approx| && j < |exact| && exact[j] !in approx
    ensures approx[i] in exact
  {
    assert exact[j] in Candidates(slots, {}) && approx[i] in Candidates(slots, {});
    assert Before(h, slots[approx[i]], slots[exact[j]], true);
  }

  lemma ApproxWithinExact(h: Hash, slots: seq<Slot>, exact: seq<nat>, approx: seq<nat>, k: nat, a: nat)
    requires IsTop(h, slots, {}, false, exact, k) && IsTop(h, slots, {}, true, approx, k)
    requires Separated(h, slots, exact)
    requires forall i :: 0 <= i < |slots| && slots[i].used ==> ExactRisk(slots[i]) <= ApproxRisk(h, slots[i])
    requires a in approx
    ensures a in exact
  {
    TopNoDuplicates(h, slots, false, exact, k);
    TopNoDuplicates(h, slots, true, approx, k);
    if a !in exact {
      var j := MissingMember(exact, approx, a);
      var i :| 0 <= i < |approx| && approx[i] == a;
      NoDisplacement(h, slots, exact, approx, k, i, j);
    }
  }

  /** When the exact top is separated, both rankings select the same processes and the overlap is full. */
  lemma SeparatedTopsCoincide(h: Hash, limit: nat, log: seq<Sample>, k: nat)
    requires 2 * Window(limit) < MAX_U32
    requires var slots := Run(h, limit, log).slots;
             NoNegativePids(slots) && Separated(h, slots, Selection(h, slots, {}, false, k))
    ensures var slots := Run(h, limit, log).slots;
            var exact, approx := Selection(h, slots, {}, false, k), Selection(h, slots, {}, true, k);
            && Elements(exact) == Elements(approx)
            && (forall i :: 0 <= i < |exact| ==> exact[i] < |slots|)
            && (forall i :: 0 <= i < |approx| ==> approx[i] < |slots|)
            && Overlap(PidsOf(slots, exact), PidsOf(slots, approx)) == |exact|
  {
    var slots := Run(h, limit, log).slots;
    var exact, approx := Selection(h, slots, {}, false, k), Selection(h, slots, {}, true, k);
    RunDistinctPids(h, limit, log);
    SmallWindowSafe(h, limit, log);
    SelectionIsTop(h, slots, {}, false, k);
    SelectionIsTop(h, slots, {}, true, k);
    forall a | a in approx
      ensures a in exact
    {
      ApproxWithinExact(h, slots, exact, approx, k, a);
    }
    TopNoDuplicates(h, slots, false, exact, k);
    TopNoDuplicates(h, slots, true, approx, k);
    NoDuplicatesSize(exact);
    NoDuplicatesSize(approx);
    SameSize(Elements(approx), Elements(exact));
    SamePids(slots, exact, approx);
    FullOverlap(PidsOf(slots, exact), PidsOf(slots, approx));
  }

  lemma SameSize<T>(a: set<T>, b: set<T>)
    requires a <= b && |a| == |b|
    ensures a == b
  {
    if x :| x in b && x !in a {
      SubsetSize(a, b - {x});
    }
  }

  lemma SamePids(slots: seq<Slot>, exact: seq<nat>, approx: seq<nat>)
    requires Elements(exact) == Elements(approx)
    requires forall i :: 0 <= i < |exact| ==> exact[i] < |slots|
    requires forall i :: 0 <= i < |approx| ==> approx[i] < |slots|
    ensures forall pid :: pid in PidsOf(slots, exact) ==> pid in PidsOf(slots, approx)
  {
    forall pid | pid in PidsOf(slots, exact)
      ensures pid in PidsOf(slots, approx)
    {
      var i :| 0 <= i < |exact| && PidsOf(slots, exact)[i] == pid;
      assert exact[i] in Elements(exact);
      assert exact[i] in approx;
      var j :| 0 <= j < |approx| && approx[j] == exact[i];
      assert PidsOf(slots, approx)[j] == pid;
    }
  }

  /** No two slots of a reachable state track the same process. */
  lemma {:induction false} RunDistinctPids(h: Hash, limit: nat, log: seq<Sample>)
    ensures DistinctPids(Run(h, limit, log).slots)
  {
    RunAgrees(h, limit, log);
    var kept := Kept(limit, log);
    var pids, slots := Distinct(Pids(kept)), Run(h, limit, log).slots;
    DistinctElements(Pids(kept));
    forall i, j | 0 <= i < j < |slots| && slots[i].used && slots[j].used
      ensures slots[i].pid != slots[j].pid
    {
      assert Counts(h, slots[i], kept, pids[i]);
      assert Counts(h, slots[j], kept, pids[j]);
    }
  }

  // ----- the loops themselves -----

  method TopPids(h: Hash, slots: seq<Slot>, outCount: nat, approx: bool) returns (out: seq<int>)
    ensures out == PidsOf(slots, Selection(h, slots, {}, approx, outCount))
  {
    var selected: set<nat> := {};
    ghost var top: seq<nat> := [];
    out := [];
    for round := 0 to outCount
      invariant |out| == |top| && forall i :: 0 <= i < |out| ==> top[i] < |slots| && out[i] == slots[top[i]].pid
      invariant Selection(h, slots, {}, approx, outCount) ==
                top + Selection(h, slots, selected, approx, outCount - round)
    {
      var bestScore: nat, bestPid: int, bestIndex: nat := 0, -1, 0;
      for i := 0 to |slots|
        invariant Scan(h, slots, selected, approx, i) == Best(bestScore, bestPid, bestIndex)
      {
        if slots[i].used && i !in selected {
          var score := if approx then ApproxRisk(h, slots[i]) else ExactRisk(slots[i]);
          if bestPid < 0 || score > bestScore || (score == bestScore && slots[i].pid < bestPid) {
            bestScore, bestPid, bestIndex := score, slots[i].pid, i;
          }
        }
      }
      if bestPid < 0 {
        return;
      }
      ScanIsEligible(h, slots, selected, approx, |slots|);
      Associative(top, [bestIndex], Selection(h, slots, selected + {bestIndex}, approx, outCount - round - 1));
      out := out + [bestPid];
      top := top + [bestIndex];
      selected := selected + {bestIndex};
    }
  }

  method TopOverlap(a: seq<int>, b: seq<int>) returns (overlap: nat)
    ensures overlap == Overlap(a, b)
  {
    overlap := 0;
    for i := 0 to |a|
      invariant overlap == Overlap(a[..i], b)
    {
      var found := false;
      var j := 0;
      while j < |b| && !found
        invariant j <= |b| && (found <==> a[i] in b[..j])
      {
        found := a[i] == b[j];
        j := j + 1;
      }
      assert found <==> a[i] in b;
      assert Init(a[..i + 1]) == a[..i];
      if found {
        overlap := overlap + 1;
      }
    }
    assert a[..|a|] == a;
  }
}

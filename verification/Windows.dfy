/** Tumbling windows of events and the alerts counted in each. */
module Windows {
  import opened Base

  datatype Window = Window(size: nat, events: nat, alerts: nat, closed: nat, max: nat, last: nat)

  function Started(size: nat): Window { Window(size, 0, 0, 0, 0, 0) }

  function Close(w: Window): Window {
    w.(closed := w.closed + 1, max := Max(w.max, w.alerts), last := w.alerts, events := 0, alerts := 0)
  }

  /** The window after an event that raised some alerts. */
  function After(w: Window, alerts: nat): Window {
    if w.size == 0 then w
    else
      var counted := w.(events := w.events + 1, alerts := w.alerts + alerts);
      if counted.events >= w.size then Close(counted) else counted
  }

  /** At the end of the input an unfinished window is closed. */
  function Finished(w: Window): Window { if w.size > 0 && w.events > 0 then Close(w) else w }

  function Run(size: nat, counts: seq<nat>): Window {
    if counts == [] then Started(size) else After(Run(size, Init(counts)), Last(counts))
  }

  // ----- the windows as chunks of the event stream -----

  function Sum(counts: seq<nat>): nat { if counts == [] then 0 else Sum(Init(counts)) + Last(counts) }

  datatype Split = Split(done: seq<seq<nat>>, open: seq<nat>)

  /** Full chunks and the remainder. */
  function SplitOf(size: nat, counts: seq<nat>): Split {
    if counts == [] then Split([], [])
    else
      var s := SplitOf(size, Init(counts));
      var open := s.open + [Last(counts)];
      if |open| >= size then Split(s.done + [open], []) else Split(s.done, open)
  }

  function Chunks(size: nat, counts: seq<nat>): seq<seq<nat>> {
    var s := SplitOf(size, counts);
    if s.open == [] then s.done else s.done + [s.open]
  }

  function Flatten(chunks: seq<seq<nat>>): seq<nat> {
    if chunks == [] then [] else Flatten(Init(chunks)) + Last(chunks)
  }

  function MaxSum(chunks: seq<seq<nat>>): nat {
    if chunks == [] then 0 else Max(MaxSum(Init(chunks)), Sum(Last(chunks)))
  }

  function SumOfSums(chunks: seq<seq<nat>>): nat {
    if chunks == [] then 0 else SumOfSums(Init(chunks)) + Sum(Last(chunks))
  }

  function LastSum(chunks: seq<seq<nat>>): nat { if chunks == [] then 0 else Sum(Last(chunks)) }

  lemma {:induction false} SplitPartitions(size: nat, counts: seq<nat>)
    requires size > 0
    ensures var s := SplitOf(size, counts);
            && Flatten(s.done) + s.open == counts
            && |s.open| < size
            && forall i :: 0 <= i < |s.done| ==> |s.done[i]| == size
  {
    if counts != [] {
      SplitPartitions(size, Init(counts));
      var s := SplitOf(size, Init(counts));
      var open := s.open + [Last(counts)];
      Associative(Flatten(s.done), s.open, [Last(counts)]);
      assert Init(s.done + [open]) == s.done;
      assert Init(counts) + [Last(counts)] == counts;
    }
  }

  /** The chunks partition the stream, in order: all full except perhaps the last, none empty. */
  lemma ChunksPartition(size: nat, counts: seq<nat>)
    requires size > 0
    ensures var chunks := Chunks(size, counts);
            && Flatten(chunks) == counts
            && (forall i :: 0 <= i < |chunks| ==> 0 < |chunks[i]| <= size)
            && (forall i :: 0 <= i < |chunks| - 1 ==> |chunks[i]| == size)
  {
    SplitPartitions(size, counts);
    var s := SplitOf(size, counts);
    assert Init(s.done + [s.open]) == s.done;
  }

  lemma {:induction false} FlattenLength(chunks: seq<seq<nat>>, size: nat)
    requires forall i :: 0 <= i < |chunks| ==> |chunks[i]| == size
    ensures |Flatten(chunks)| == |chunks| * size
  {
    if chunks != [] {
      FlattenLength(Init(chunks), size);
      assert |chunks| * size == |Init(chunks)| * size + size;
    }
  }

  /** The number of chunks is the number of events divided by the size, rounded up. */
  lemma ChunkCount(size: nat, counts: seq<nat>)
    requires size > 0
    ensures |Chunks(size, counts)| == (|counts| + size - 1) / size
  {
    SplitPartitions(size, counts);
    var s := SplitOf(size, counts);
    FlattenLength(s.done, size);
    RoundedUp(|counts|, size, |s.done|, |s.open|);
  }

  lemma RoundedUp(n: nat, size: nat, q: nat, r: nat)
    requires n == q * size + r && r < size
    ensures (n + size - 1) / size == if r == 0 then q else q + 1
  {
    if r == 0 {
      DivisionIsUnique(n + size - 1, size, q, size - 1);
    } else {
      assert size * (q + 1) == q * size + size;
      DivisionIsUnique(n + size - 1, size, q + 1, r - 1);
    }
  }

  lemma {:induction false} SumAppend(a: seq<nat>, b: seq<nat>)
    ensures Sum(a + b) == Sum(a) + Sum(b)
  {
    if b == [] {
      assert a + b == a;
    } else {
      SumAppend(a, Init(b));
      assert Init(a + b) == a + Init(b);
    }
  }

  lemma {:induction false} SumOfFlat(chunks: seq<seq<nat>>)
    ensures Sum(Flatten(chunks)) == SumOfSums(chunks)
  {
    if chunks != [] {
      SumOfFlat(Init(chunks));
      SumAppend(Flatten(Init(chunks)), Last(chunks));
    }
  }

  /** The counters follow the split: closed chunks, the greatest and the last of their sums, and the
      open remainder. */
  lemma {:induction false} RunFollowsSplit(size: nat, counts: seq<nat>)
    requires size > 0
    ensures var w, s := Run(size, counts), SplitOf(size, counts);
            w == Window(size, |s.open|, Sum(s.open), |s.done|, MaxSum(s.done), LastSum(s.done))
  {
    if counts != [] {
      RunFollowsSplit(size, Init(counts));
      var s := SplitOf(size, Init(counts));
      var open := s.open + [Last(counts)];
      assert Init(open) == s.open;
      assert Init(s.done + [open]) == s.done;
    }
  }

  /** The reported figures of a finished run: one window per chunk, the greatest and the last chunk sum. */
  lemma FinishedWindows(size: nat, counts: seq<nat>)
    requires size > 0
    ensures var w, chunks := Finished(Run(size, counts)), Chunks(size, counts);
            && w.closed == |chunks| == (|counts| + size - 1) / size
            && w.max == MaxSum(chunks) && w.last == LastSum(chunks)
            && SumOfSums(chunks) == Sum(counts)
  {
    RunFollowsSplit(size, counts);
    ChunkCount(size, counts);
    ChunksPartition(size, counts);
    SumOfFlat(Chunks(size, counts));
    var s := SplitOf(size, counts);
    assert Init(s.done + [s.open]) == s.done;
  }

  /** The maximum bounds every chunk and is reached by one. */
  lemma {:induction false} MaxSumIsMaximum(chunks: seq<seq<nat>>)
    ensures forall i :: 0 <= i < |chunks| ==> Sum(chunks[i]) <= MaxSum(chunks)
    ensures chunks != [] ==> exists i :: 0 <= i < |chunks| && Sum(chunks[i]) == MaxSum(chunks)
  {
    if chunks != [] {
      var front, last := Init(chunks), |chunks| - 1;
      MaxSumIsMaximum(front);
      assert forall i :: 0 <= i < |front| ==> front[i] == chunks[i];
      if front != [] && MaxSum(front) >= Sum(chunks[last]) {
        var i :| 0 <= i < |front| && Sum(front[i]) == MaxSum(front);
        assert Sum(chunks[i]) == MaxSum(chunks);
      } else {
        assert Sum(chunks[last]) == MaxSum(chunks);
      }
    }
  }
}

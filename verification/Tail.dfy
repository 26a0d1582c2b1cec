/** The tail command: lines printed while events arrive, against the final results over the log. */
module Tail {
  import opened Base
  import opened Events
  import opened Policy
  import opened Analyze
  import opened Alerts

  datatype Line =
    | LowLine(pid: int, process: string)
    | MediumLine(pid: int, process: string, file: string)
    | HighLine(pid: int, process: string, dst: string)
    | CriticalLine(pid: int, process: string, score: int)

  function Printed(due: bool, line: Line): seq<Line> { if due then [line] else [] }

  /** The first three lines of an event. */
  function PlainLines(rules: Rules, ev: Event): seq<Line> {
    var found := BlockedDestination(rules, ev);
    Printed(rules.Watched(ev.process), LowLine(ev.pid, SafeStr(ev.process))) +
    Printed(G.Touches(rules, true, ev), MediumLine(ev.pid, SafeStr(ev.process), ev.file)) +
    Printed(found.Some?, HighLine(ev.pid, SafeStr(ev.process), G.MatchedDst(found)))
  }

  /** The lines of an event, given the score to report if its process is correlated. */
  function LinesFor(rules: Rules, ev: Event, critical: Option<int>): seq<Line> {
    PlainLines(rules, ev) + CriticalLines(ev, critical)
  }

  function CriticalLines(ev: Event, critical: Option<int>): seq<Line> {
    if critical.Some? then [CriticalLine(ev.pid, SafeStr(ev.process), critical.value)] else []
  }

  // ----- one event, as the code applies it -----

  predicate Suspect(n: G.Node) { n.signs.touchedSensitive && n.signs.connectedBlocked }

  /** A suspect node has its risk computed anew. */
  function Rescored(n: G.Node, w: Weights): G.Node { if Suspect(n) then Risk.WithRisk(n, w) else n }

  function Reported(n: G.Node, w: Weights): Option<int> { if Suspect(n) then Some(Risk.NodeScore(n, w)) else None }

  datatype Progress = Progress(items: seq<G.Node>, lines: seq<Line>, processed: nat)

  /** The lines and the risk of an event whose node is at position `k`. */
  function FollowedAt(st: Progress, rules: Rules, ev: Event, there: seq<G.Node>, k: nat): Progress
    requires k < |there|
  {
    Progress(there[k := Rescored(there[k], rules.weights)],
             st.lines + LinesFor(rules, ev, Reported(there[k], rules.weights)), st.processed + 1)
  }

  function Followed(st: Progress, rules: Rules, ev: Event): Progress {
    var there := G.WithProcess(G.Ingested(st.items, rules, true, ev), ev.pid, ev.process);
    var k := G.IndexOf(there, ev.pid, 0);
    FollowedAt(st, rules, ev, there, k)
  }

  function FollowedOutcome(st: Progress, rules: Rules, outcome: Outcome): Progress {
    if outcome.Parsed? then Followed(st, rules, outcome.ev) else st
  }

  function Run(rules: Rules, lines: seq<string>): Progress {
    if lines == [] then Progress([], [], 0) else FollowedOutcome(Run(rules, Init(lines)), rules, Classify(Last(lines)))
  }

  // ----- the definition over the log -----

  /** The score of a correlated process after a log. */
  function ScoreIfCorrelated(rules: Rules, sub: seq<Event>): Option<int> {
    if Risk.Correlated(rules, sub) then Some(Risk.ScoreOf(rules, sub)) else None
  }

  /** The lines of the last event of a log: the critical one exactly when its process is correlated by
      then, with the score that the log so far gives. */
  function LinesAt(rules: Rules, before: seq<Event>, ev: Event): seq<Line> {
    LinesFor(rules, ev, ScoreIfCorrelated(rules, G.Sub(before + [ev], ev.pid)))
  }

  function LinesOf(rules: Rules, log: seq<Event>): seq<Line> {
    if log == [] then [] else LinesOf(rules, Init(log)) + LinesAt(rules, Init(log), Last(log))
  }

  function RescoredAll(items: seq<G.Node>, w: Weights): seq<G.Node> {
    seq(|items|, i requires 0 <= i < |items| => Rescored(items[i], w))
  }

  function Batch(rules: Rules, log: seq<Event>): Progress {
    Progress(RescoredAll(G.GraphOf(rules, true, log), rules.weights), LinesOf(rules, log), |log|)
  }

  // ----- one event against the definition -----

  lemma RescoredWithProcess(items: seq<G.Node>, w: Weights, ev: Event)
    requires forall i :: 0 <= i < |items| ==> items[i].process != ""
    ensures G.IndexOf(RescoredAll(items, w), ev.pid, 0) == G.IndexOf(items, ev.pid, 0)
    ensures G.WithProcess(RescoredAll(items, w), ev.pid, ev.process) ==
            RescoredAll(G.WithProcess(items, ev.pid, ev.process), w)
  {
    G.SameIndex(RescoredAll(items, w), items, ev.pid, 0);
    if G.IndexOf(items, ev.pid, 0) == |items| {
      RescoredAppend(items, w, G.NewNode(ev.pid, ev.process));
    }
  }

  lemma RescoredAppend(items: seq<G.Node>, w: Weights, n: G.Node)
    requires !Suspect(n)
    ensures RescoredAll(items + [n], w) == RescoredAll(items, w) + [n]
  {
  }

  /** The risk left by earlier events does not matter once the process is suspect, and is none before. */
  lemma RescoredStep(n: G.Node, rules: Rules, ev: Event)
    ensures var m := G.IngestedNode(Rescored(n, rules.weights), rules, true, ev);
            && Rescored(m, rules.weights) == Rescored(G.IngestedNode(n, rules, true, ev), rules.weights)
            && Reported(m, rules.weights) == Reported(G.IngestedNode(n, rules, true, ev), rules.weights)
  {
  }

  lemma ReportedStep(n: G.Node, rules: Rules, log: seq<Event>, ev: Event)
    requires ev.Fits()
    requires n.signs == G.SignsOf(rules, true, G.Sub(log, ev.pid))
    requires n.relations == G.RelationsOf(rules, true, G.Sub(log, ev.pid))
    ensures Reported(G.IngestedNode(n, rules, true, ev), rules.weights) ==
            ScoreIfCorrelated(rules, G.Sub(log + [ev], ev.pid))
  {
    var sub := G.Sub(log, ev.pid);
    G.SubStep(log, ev, ev.pid);
    G.SignsStep(rules, true, sub, ev);
    G.RelationsStep(rules, true, sub, ev);
  }

  lemma ReplacedRescored(w: seq<G.Node>, k: nat, a: G.Node, b: G.Node, weights: Weights)
    requires k < |w|
    ensures RescoredAll(w, weights)[k := a][k := Rescored(b, weights)] == RescoredAll(w[k := b], weights)
  {
  }

  lemma FollowedForm(st: Progress, rules: Rules, ev: Event, there: seq<G.Node>, k: nat)
    requires there == G.Ingested(st.items, rules, true, ev)
    requires G.WithProcess(there, ev.pid, ev.process) == there && k == G.IndexOf(there, ev.pid, 0) < |there|
    ensures Followed(st, rules, ev) == FollowedAt(st, rules, ev, there, k)
  {
  }

  /** Where an event lands in any graph with the same processes as another. */
  lemma LandsAt(scored: seq<G.Node>, w: seq<G.Node>, after: seq<G.Node>, rules: Rules, ev: Event, k: nat)
    requires forall i :: 0 <= i < |scored| ==> scored[i].process != ""
    requires after == G.WithProcess(scored, ev.pid, ev.process) && |after| == |w|
    requires forall i :: 0 <= i < |w| ==> after[i].pid == w[i].pid
    requires k == G.IndexOf(w, ev.pid, 0) < |w|
    ensures var there := G.Ingested(scored, rules, true, ev);
            && there == after[k := G.IngestedNode(after[k], rules, true, ev)]
            && G.WithProcess(there, ev.pid, ev.process) == there && G.IndexOf(there, ev.pid, 0) == k
  {
    G.SameIndex(after, w, ev.pid, 0);
    G.Landed(scored, rules, true, ev);
  }

  lemma RescoredKeeps(items: seq<G.Node>, w: Weights)
    requires forall i :: 0 <= i < |items| ==> items[i].process != ""
    ensures |RescoredAll(items, w)| == |items|
    ensures forall i :: 0 <= i < |items| ==>
              RescoredAll(items, w)[i].pid == items[i].pid && RescoredAll(items, w)[i].process != ""
  {
  }

  lemma NamedAfter(items: seq<G.Node>, ev: Event)
    requires forall i :: 0 <= i < |items| ==> items[i].process != ""
    ensures forall i :: 0 <= i < |G.WithProcess(items, ev.pid, ev.process)| ==>
              G.WithProcess(items, ev.pid, ev.process)[i].process != ""
  {
  }

  /** Where the event lands in the graph with stored risks. */
  lemma LandsRescored(items: seq<G.Node>, rules: Rules, log: seq<Event>, ev: Event)
    requires G.IsGraphOf(items, rules, true, log) && ev.Fits()
    ensures var w := G.WithProcess(items, ev.pid, ev.process);
            var k := G.IndexOf(w, ev.pid, 0);
            var there := G.Ingested(RescoredAll(items, rules.weights), rules, true, ev);
            && k < |w| == |there|
            && there == RescoredAll(w, rules.weights)[
                 k := G.IngestedNode(RescoredAll(w, rules.weights)[k], rules, true, ev)]
            && G.WithProcess(there, ev.pid, ev.process) == there
            && G.IndexOf(there, ev.pid, 0) == k
  {
    G.LookupInGraph(items, rules, true, log, ev.pid);
    var w := G.WithProcess(items, ev.pid, ev.process);
    RescoredKeeps(items, rules.weights);
    NamedAfter(items, ev);
    RescoredKeeps(w, rules.weights);
    RescoredWithProcess(items, rules.weights, ev);
    LandsAt(RescoredAll(items, rules.weights), w, RescoredAll(w, rules.weights), rules, ev, G.IndexOf(w, ev.pid, 0));
  }

  lemma FollowedStep(st: Progress, rules: Rules, items: seq<G.Node>, log: seq<Event>, ev: Event)
    requires ev.Fits() && G.IsGraphOf(items, rules, true, log)
    requires st.items == RescoredAll(items, rules.weights)
    ensures Followed(st, rules, ev) ==
            Progress(RescoredAll(G.Ingested(items, rules, true, ev), rules.weights),
                  st.lines + LinesAt(rules, log, ev), st.processed + 1)
  {
    var w := G.WithProcess(items, ev.pid, ev.process);
    var k := G.IndexOf(w, ev.pid, 0);
    var there := G.Ingested(st.items, rules, true, ev);
    LandsRescored(items, rules, log, ev);
    MetNode(items, rules, log, ev);
    FollowedForm(st, rules, ev, there, k);
    RescoredStep(w[k], rules, ev);
    ReportedStep(w[k], rules, log, ev);
    ReplacedRescored(w, k, there[k], G.IngestedNode(w[k], rules, true, ev), rules.weights);
  }

  lemma FollowedOutcomeStep(rules: Rules, log: seq<Event>, outcome: Outcome)
    requires G.AllFit(log) && (outcome.Parsed? ==> outcome.ev.Fits())
    ensures FollowedOutcome(Batch(rules, log), rules, outcome) == Batch(rules, log + EventsOf(outcome))
  {
    if outcome.Parsed? {
      G.GraphIsBatch(rules, true, log);
      FollowedStep(Batch(rules, log), rules, G.GraphOf(rules, true, log), log, outcome.ev);
      assert Init(log + [outcome.ev]) == log;
    } else {
      assert log + [] == log;
    }
  }

  /** At every prefix of the input, what tail has printed and stored is what the definition gives for the
      log so far: every critical line shows the batch score of its prefix. */
  lemma {:induction false} TailIsBatch(rules: Rules, lines: seq<string>)
    ensures Run(rules, lines) == Batch(rules, Log(lines))
  {
    if lines != [] {
      var front, outcome := Init(lines), Classify(Last(lines));
      TailIsBatch(rules, front);
      LogFits(front);
      assert outcome.Parsed? ==> outcome.ev.Fits() by {
        ParsedFits(Last(lines));
      }
      FollowedOutcomeStep(rules, Log(front), outcome);
    }
  }

  // ----- critical lines against final results -----

  /** The score on the last critical line of a process. */
  function LastCritical(lines: seq<Line>, pid: int): Option<int> {
    if lines == [] then None
    else if Last(lines).CriticalLine? && Last(lines).pid == pid then Some(Last(lines).score)
    else LastCritical(Init(lines), pid)
  }

  lemma {:induction false} LastCriticalAppend(a: seq<Line>, b: seq<Line>, pid: int)
    ensures LastCritical(a + b, pid) ==
            if LastCritical(b, pid).Some? then LastCritical(b, pid) else LastCritical(a, pid)
  {
    if b == [] {
      assert a + b == a;
    } else {
      LastCriticalAppend(a, Init(b), pid);
      assert Init(a + b) == a + Init(b);
    }
  }

  lemma {:induction false} NoCriticals(lines: seq<Line>, pid: int)
    requires forall l :: l in lines ==> !l.CriticalLine?
    ensures LastCritical(lines, pid) == None
  {
    if lines != [] {
      NoCriticals(Init(lines), pid);
    }
  }

  lemma PlainLinesPlain(rules: Rules, ev: Event)
    ensures forall l :: l in PlainLines(rules, ev) ==> !l.CriticalLine?
  {
  }

  lemma CriticalLinesLast(ev: Event, critical: Option<int>, pid: int)
    ensures LastCritical(CriticalLines(ev, critical), pid) == if ev.pid == pid then critical else None
  {
    var lines := CriticalLines(ev, critical);
    assert lines != [] ==> Init(lines) == [];
  }

  lemma CriticalOfEvent(rules: Rules, ev: Event, critical: Option<int>, pid: int)
    ensures LastCritical(LinesFor(rules, ev, critical), pid) == if ev.pid == pid then critical else None
  {
    PlainLinesPlain(rules, ev);
    NoCriticals(PlainLines(rules, ev), pid);
    CriticalLinesLast(ev, critical, pid);
    LastCriticalAppend(PlainLines(rules, ev), CriticalLines(ev, critical), pid);
  }

  lemma LastCriticalStep(rules: Rules, before: seq<Line>, log: seq<Event>, ev: Event, pid: int)
    requires LastCritical(before, pid) == ScoreIfCorrelated(rules, G.Sub(log, pid))
    ensures LastCritical(before + LinesAt(rules, log, ev), pid) == ScoreIfCorrelated(rules, G.Sub(log + [ev], pid))
  {
    LastCriticalAppend(before, LinesAt(rules, log, ev), pid);
    CriticalOfEvent(rules, ev, ScoreIfCorrelated(rules, G.Sub(log + [ev], ev.pid)), pid);
    G.SubStep(log, ev, pid);
    CorrelatedStays(rules, log, ev, pid);
  }

  /** The last critical line of a process shows its final score, and there is one exactly if the process
      ends up correlated. */
  lemma {:induction false} LastCriticalIsFinal(rules: Rules, log: seq<Event>, pid: int)
    ensures LastCritical(LinesOf(rules, log), pid) == ScoreIfCorrelated(rules, G.Sub(log, pid))
  {
    if log != [] {
      LastCriticalIsFinal(rules, Init(log), pid);
      LastCriticalStep(rules, LinesOf(rules, Init(log)), Init(log), Last(log), pid);
      Rejoined(log);
    }
  }

  /** Tail prints a critical line for exactly the processes that analyze raises a critical alert for. */
  lemma TailAgreesWithAnalyze(rules: Rules, keepGraph: bool, size: nat, lines: seq<string>, pid: int)
    ensures LastCritical(Run(rules, lines).lines, pid).Some? <==>
            CriticalsOf(Analyze.Run(Mode(rules, true, keepGraph), size, lines).alerts, pid) == 1
  {
    TailIsBatch(rules, lines);
    AnalyzeIsBatch(rules, keepGraph, size, lines);
    LastCriticalIsFinal(rules, Log(lines), pid);
    CriticalOnce(rules, Log(lines), pid);
  }

  lemma {:induction false} ScoresBounded(rules: Rules, log: seq<Event>, n: nat)
    requires Risk.NonNegative(rules.weights) && n <= |log|
    ensures forall l :: l in LinesOf(rules, log[..n]) && l.CriticalLine? ==>
            l.score <= Risk.ScoreOf(rules, G.Sub(log, l.pid))
  {
    if n > 0 {
      ScoresBounded(rules, log, n - 1);
      PrefixLines(rules, log, n);
      Risk.ScoreOfPrefix(rules, log, n, log[n - 1].pid);
    }
  }

  /** The lines of a prefix: those before its last event, and those of that event. */
  lemma PrefixLines(rules: Rules, log: seq<Event>, n: nat)
    requires 0 < n <= |log|
    ensures forall l :: l in LinesOf(rules, log[..n]) && l.CriticalLine? ==>
              || l in LinesOf(rules, log[..n - 1])
              || (l.pid == log[n - 1].pid && l.score == Risk.ScoreOf(rules, G.Sub(log[..n], l.pid)))
  {
    assert Init(log[..n]) == log[..n - 1];
    assert log[..n - 1] + [log[n - 1]] == log[..n];
    CriticalScores(rules, log[n - 1], ScoreIfCorrelated(rules, G.Sub(log[..n], log[n - 1].pid)));
  }

  lemma CriticalScores(rules: Rules, ev: Event, critical: Option<int>)
    ensures forall l :: l in LinesFor(rules, ev, critical) && l.CriticalLine? ==>
              l.pid == ev.pid && critical == Some(l.score)
  {
  }

  /** With weights that are not negative no line of tail shows more than the final score. */
  lemma PrintedScoresBounded(rules: Rules, lines: seq<string>, line: Line)
    requires Risk.NonNegative(rules.weights)
    requires line in Run(rules, lines).lines && line.CriticalLine?
    ensures line.score <= Risk.ScoreOf(rules, G.Sub(Log(lines), line.pid))
  {
    TailIsBatch(rules, lines);
    AllScoresBounded(rules, Log(lines), line);
  }

  lemma AllScoresBounded(rules: Rules, log: seq<Event>, line: Line)
    requires Risk.NonNegative(rules.weights) && line in LinesOf(rules, log) && line.CriticalLine?
    ensures line.score <= Risk.ScoreOf(rules, G.Sub(log, line.pid))
  {
    assert log[..|log|] == log;
    ScoresBounded(rules, log, |log|);
  }

  // ----- the other lines against the alerts -----

  /** The line that shows an alert that is not critical. */
  function LineOf(a: Alert): Line {
    match a.severity
    case Low => LowLine(a.pid, a.process)
    case Medium => MediumLine(a.pid, a.process, a.file)
    case High => HighLine(a.pid, a.process, a.dst)
    case Critical => CriticalLine(a.pid, a.process, a.risk)
  }

  function NotCritical(lines: seq<Line>): seq<Line> {
    if lines == [] then []
    else NotCritical(Init(lines)) + if Last(lines).CriticalLine? then [] else [Last(lines)]
  }

  function AlertLines(alerts: seq<Alert>): seq<Line> {
    if alerts == [] then []
    else AlertLines(Init(alerts)) + if Last(alerts).severity == Critical then [] else [LineOf(Last(alerts))]
  }

  lemma {:induction false} NotCriticalAppend(a: seq<Line>, b: seq<Line>)
    ensures NotCritical(a + b) == NotCritical(a) + NotCritical(b)
  {
    if b == [] {
      assert a + b == a;
    } else {
      NotCriticalAppend(a, Init(b));
      assert Init(a + b) == a + Init(b);
      Associative(NotCritical(a), NotCritical(Init(b)), if Last(b).CriticalLine? then [] else [Last(b)]);
    }
  }

  lemma {:induction false} AlertLinesAppend(a: seq<Alert>, b: seq<Alert>)
    ensures AlertLines(a + b) == AlertLines(a) + AlertLines(b)
  {
    if b == [] {
      assert a + b == a;
    } else {
      AlertLinesAppend(a, Init(b));
      assert Init(a + b) == a + Init(b);
      Associative(AlertLines(a), AlertLines(Init(b)), if Last(b).severity == Critical then [] else [LineOf(Last(b))]);
    }
  }

  lemma AlertLinesOfFour(low: seq<Alert>, medium: seq<Alert>, high: seq<Alert>, critical: seq<Alert>)
    ensures AlertLines(low + medium + high + critical) ==
            AlertLines(low) + AlertLines(medium) + AlertLines(high) + AlertLines(critical)
  {
    AlertLinesAppend(low, medium);
    AlertLinesAppend(low + medium, high);
    AlertLinesAppend(low + medium + high, critical);
  }

  lemma AlertLine(due: bool, a: Alert)
    ensures AlertLines(Optional(due, a)) == if due && a.severity != Critical then [LineOf(a)] else []
  {
    if due {
      assert Init([a]) == [];
    }
  }

  lemma LowLineIs(rules: Rules, ev: Event)
    requires ev.Fits()
    ensures AlertLines(LowAlert(rules, ev)) == Printed(rules.Watched(ev.process), LowLine(ev.pid, SafeStr(ev.process)))
  {
    AlertLine(rules.Watched(ev.process), NewAlert(Low, ev, "", ""));
    AlertOf(Low, ev, "", "");
  }

  lemma MediumLineIs(rules: Rules, ev: Event)
    requires ev.Fits()
    ensures AlertLines(MediumAlert(rules, ev)) ==
            Printed(G.Touches(rules, true, ev), MediumLine(ev.pid, SafeStr(ev.process), ev.file))
  {
    AlertLine(G.Touches(rules, true, ev), NewAlert(Medium, ev, ev.file, ""));
    AlertOf(Medium, ev, ev.file, "");
  }

  lemma HighLineIs(rules: Rules, ev: Event)
    requires ev.Fits()
    ensures var found := BlockedDestination(rules, ev);
            AlertLines(HighAlert(rules, ev)) ==
            Printed(found.Some?, HighLine(ev.pid, SafeStr(ev.process), G.MatchedDst(found)))
  {
    var found := BlockedDestination(rules, ev);
    BlockedDestinationIs(rules, ev);
    AlertLine(found.Some?, NewAlert(High, ev, "", G.MatchedDst(found)));
    AlertOf(High, ev, "", G.MatchedDst(found));
  }

  lemma PlainLinesAreAlerts(rules: Rules, ev: Event, v: Verdict)
    requires ev.Fits()
    ensures AlertLines(AlertsFor(rules, ev, v)) == PlainLines(rules, ev)
  {
    AlertLinesOfFour(LowAlert(rules, ev), MediumAlert(rules, ev), HighAlert(rules, ev), CriticalAlert(ev, v));
    LowLineIs(rules, ev);
    MediumLineIs(rules, ev);
    HighLineIs(rules, ev);
    AlertLine(v.correlates, NewAlert(Critical, ev, v.file, v.dst));
  }

  lemma {:induction false} AllNotCritical(lines: seq<Line>)
    requires forall l :: l in lines ==> !l.CriticalLine?
    ensures NotCritical(lines) == lines
  {
    if lines != [] {
      AllNotCritical(Init(lines));
      Rejoined(lines);
    }
  }

  lemma NotCriticalOfEvent(rules: Rules, ev: Event, critical: Option<int>)
    ensures NotCritical(LinesFor(rules, ev, critical)) == PlainLines(rules, ev)
  {
    var last := CriticalLines(ev, critical);
    PlainLinesPlain(rules, ev);
    AllNotCritical(PlainLines(rules, ev));
    NotCriticalAppend(PlainLines(rules, ev), last);
    assert last != [] ==> Init(last) == [];
  }

  /** But for the critical ones, tail prints one line for each alert that analyze raises, in the same order
      and with the same process, file and destination. */
  lemma {:induction false} TailShowsTheAlerts(rules: Rules, log: seq<Event>)
    requires G.AllFit(log)
    ensures NotCritical(LinesOf(rules, log)) == AlertLines(AlertsOf(rules, log))
  {
    if log != [] {
      var front, ev := Init(log), Last(log);
      Rejoined(log);
      assert ev in log;
      TailShowsTheAlerts(rules, front);
      NotCriticalAppend(LinesOf(rules, front), LinesAt(rules, front, ev));
      AlertLinesAppend(AlertsOf(rules, front), AlertsAt(rules, front, ev));
      LastEventShown(rules, front, ev);
    }
  }

  lemma LastEventShown(rules: Rules, front: seq<Event>, ev: Event)
    requires ev.Fits()
    ensures NotCritical(LinesAt(rules, front, ev)) == AlertLines(AlertsAt(rules, front, ev))
  {
    NotCriticalOfEvent(rules, ev, ScoreIfCorrelated(rules, G.Sub(front + [ev], ev.pid)));
    PlainLinesAreAlerts(rules, ev, VerdictOf(rules, front, ev));
  }

  // ----- the loop itself -----

  method AddLine(lines: seq<Line>, due: bool, line: Line) returns (out: seq<Line>)
    ensures out == lines + Printed(due, line)
  {
    out := if due then lines + [line] else lines;
  }

  method PrintPlain(lines: seq<Line>, policy: Engine, ev: Event) returns (out: seq<Line>)
    requires policy.Valid()
    ensures out == lines + PlainLines(policy.Abs(), ev)
  {
    var watched, sensitive, found := G.Observe(policy, true, ev);
    var low, medium := LowLine(ev.pid, SafeStr(ev.process)), MediumLine(ev.pid, SafeStr(ev.process), ev.file);
    var high := HighLine(ev.pid, SafeStr(ev.process), G.MatchedDst(found));
    out := AddLine(lines, watched, low);
    out := AddLine(out, sensitive, medium);
    out := AddLine(out, found.Some?, high);
    Associative(lines, Printed(watched, low), Printed(sensitive, medium));
    Associative(lines, Printed(watched, low) + Printed(sensitive, medium), Printed(found.Some?, high));
  }

  /** Computes and prints the risk of a suspect node. */
  method PrintCritical(graph: G.ProcessGraph, k: nat, w: Weights, ev: Event, lines: seq<Line>) returns (out: seq<Line>)
    requires k < |graph.items|
    modifies graph
    ensures graph.items == old(graph.items)[k := Rescored(old(graph.items)[k], w)]
    ensures out == lines + CriticalLines(ev, Reported(old(graph.items)[k], w))
  {
    var n := graph.items[k];
    out := lines;
    if n.signs.touchedSensitive && n.signs.connectedBlocked {
      var m := Risk.ComputeRisk(n, w);
      graph.items := graph.items[k := m];
      out := out + [CriticalLine(ev.pid, SafeStr(ev.process), m.risk.score)];
    }
  }

  method FollowEvent(policy: Engine, graph: G.ProcessGraph, ghost st: Progress, ev: Event, lines: seq<Line>)
    returns (out: seq<Line>)
    requires policy.Valid() && graph.items == st.items && lines == st.lines
    modifies graph
    ensures Followed(st, policy.Abs(), ev) == Progress(graph.items, out, st.processed + 1)
  {
    ghost var rules := policy.Abs();
    graph.Ingest(policy, true, ev);
    var k := graph.GetOrAdd(ev.pid, ev.process);
    ghost var there := graph.items;
    out := PrintPlain(lines, policy, ev);
    out := PrintCritical(graph, k, policy.weights, ev, out);
    Associative(lines, PlainLines(rules, ev), CriticalLines(ev, Reported(there[k], rules.weights)));
    assert Progress(graph.items, out, st.processed + 1) == FollowedAt(st, rules, ev, there, k);
  }

  method TailLines(policy: Engine, lines: seq<string>) returns (graph: G.ProcessGraph, out: seq<Line>, processed: nat)
    requires policy.Valid()
    ensures fresh(graph) && Progress(graph.items, out, processed) == Run(policy.Abs(), lines)
  {
    graph := new G.ProcessGraph();
    ghost var rules := policy.Abs();
    out, processed := [], 0;
    for i := 0 to |lines|
      invariant fresh(graph) && policy.Valid() && policy.Abs() == rules
      invariant Progress(graph.items, out, processed) == Run(rules, lines[..i])
    {
      assert Init(lines[..i + 1]) == lines[..i];
      var outcome := Classify(lines[i]);
      if outcome.Parsed? {
        out := FollowEvent(policy, graph, Run(rules, lines[..i]), outcome.ev, out);
        processed := processed + 1;
      }
    }
    assert lines[..|lines|] == lines;
  }
}

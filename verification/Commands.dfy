/** The loops of the commands over their input lines: analyze, and the loading of a graph. */
module Commands {
  import opened Base
  import opened Events
  import opened Policy
  import opened Analyze

  // ----- final risks -----

  function Risked(items: seq<G.Node>, w: Weights): seq<G.Node> {
    seq(|items|, i requires 0 <= i < |items| => Risk.WithRisk(items[i], w))
  }

  method ComputeRiskAll(graph: G.ProcessGraph, w: Weights)
    modifies graph
    ensures graph.items == Risked(old(graph.items), w)
  {
    var i := 0;
    while i < |graph.items|
      invariant i <= |graph.items| == |old(graph.items)|
      invariant forall j :: 0 <= j < i ==> graph.items[j] == Risk.WithRisk(old(graph.items)[j], w)
      invariant forall j :: i <= j < |graph.items| ==> graph.items[j] == old(graph.items)[j]
    {
      var n := Risk.ComputeRisk(graph.items[i], w);
      graph.items := graph.items[i := n];
      i := i + 1;
    }
  }

  function UpdatedAlert(a: Alert, items: seq<G.Node>): Alert {
    var k := G.IndexOf(items, a.pid, 0);
    if k < |items| then a.(risk := items[k].risk.score) else a
  }

  function UpdatedAlerts(alerts: seq<Alert>, items: seq<G.Node>): seq<Alert> {
    seq(|alerts|, i requires 0 <= i < |alerts| => UpdatedAlert(alerts[i], items))
  }

  method UpdateAlertRisks(alerts: seq<Alert>, graph: G.ProcessGraph) returns (updated: seq<Alert>)
    ensures updated == UpdatedAlerts(alerts, graph.items)
  {
    updated := [];
    for i := 0 to |alerts|
      invariant |updated| == i
      invariant forall j :: 0 <= j < i ==> updated[j] == UpdatedAlert(alerts[j], graph.items)
    {
      var k := graph.FindByPid(alerts[i].pid);
      if k < |graph.items| {
        updated := updated + [alerts[i].(risk := graph.items[k].risk.score)];
      } else {
        updated := updated + [alerts[i]];
      }
    }
  }

  // ----- one event of analyze -----

  /** What the policy says about an event, looked up once. */
  ghost predicate Observed(rules: Rules, ev: Event, watched: bool, sensitive: bool, found: Option<Match>) {
    && (watched <==> rules.Watched(ev.process))
    && (sensitive <==> G.Touches(rules, true, ev))
    && found == BlockedDestination(rules, ev)
  }

  /** The loop's own updates of the event's node. */
  method NoteAgain(n: G.Node, ghost rules: Rules, ev: Event, watched: bool, sensitive: bool, found: Option<Match>)
    returns (out: G.Node)
    requires Observed(rules, ev, watched, sensitive, found)
    ensures out == Touched(n, rules, ev)
  {
    var signs, relations := n.signs, n.relations;
    if watched {
      signs := signs.(watched := true);
    }
    if sensitive {
      if !signs.touchedSensitive {
        relations := relations.(firstSensitiveFile := CopyTrunc(ev.file, MAX_STR));
      }
      signs := signs.(touchedSensitive := true);
    }
    if found.Some? {
      signs := signs.(connected := true, connectedBlocked := true);
      if found.value.kind == Ip {
        signs := signs.(connectedBlockedIp := true);
      }
      if found.value.kind == Domain {
        signs := signs.(connectedBlockedDomain := true);
      }
      relations := relations.(firstDst := G.FirstDst(relations.firstDst, found.value.dst));
    } else if ev.dst != "" {
      signs := signs.(connected := true);
      relations := relations.(firstDst := G.FirstDst(relations.firstDst, ev.dst));
    }
    assert signs == G.NextSigns(n.signs, rules, true, ev);
    out := n.(signs := signs, relations := relations);
  }

  /** Adds an alert if there is reason to, and counts it. */
  method AddAlert(alerts: seq<Alert>, count: nat, due: bool, alert: Alert)
    returns (newAlerts: seq<Alert>, newCount: nat)
    ensures newAlerts == alerts + Optional(due, alert) && newCount == count + One(due)
  {
    newAlerts, newCount := alerts, count;
    if due {
      newAlerts, newCount := alerts + [alert], count + 1;
    }
  }

  lemma FourAppended(alerts: seq<Alert>, a: seq<Alert>, b: seq<Alert>, c: seq<Alert>, d: seq<Alert>)
    ensures alerts + a + b + c + d == alerts + (a + b + c + d)
  {
  }

  method AddAlerts(alerts: seq<Alert>, stats: Stats, n: G.Node, ghost rules: Rules, ev: Event,
                   watched: bool, sensitive: bool, found: Option<Match>)
    returns (newAlerts: seq<Alert>, newStats: Stats)
    requires Observed(rules, ev, watched, sensitive, found)
    ensures newAlerts == alerts + AlertsFor(rules, ev, NodeVerdict(n))
    ensures newStats == Counted(stats, rules, ev, Correlates(n))
  {
    var w, s, b, c;
    newAlerts, w := AddAlert(alerts, stats.watched, watched, NewAlert(Low, ev, "", ""));
    newAlerts, s := AddAlert(newAlerts, stats.sensitive, sensitive, NewAlert(Medium, ev, ev.file, ""));
    newAlerts, b := AddAlert(newAlerts, stats.blocked, found.Some?, NewAlert(High, ev, "", G.MatchedDst(found)));
    newAlerts, c := AddAlert(newAlerts, stats.correlated, Correlates(n),
                             NewAlert(Critical, ev, n.relations.firstSensitiveFile, n.relations.firstDst));
    FourAppended(alerts, LowAlert(rules, ev), MediumAlert(rules, ev), HighAlert(rules, ev),
                 CriticalAlert(ev, NodeVerdict(n)));
    newStats := stats.(watched := w, sensitive := s, blocked := b, correlated := c);
  }

  /** The node, the alerts and the counters of one event, with a policy. */
  method RecordEvent(policy: Engine, graph: G.ProcessGraph, ev: Event, alerts: seq<Alert>, stats: Stats)
    returns (newAlerts: seq<Alert>, newStats: Stats)
    requires policy.Valid()
    modifies graph
    ensures var there, rules := G.WithProcess(old(graph.items), ev.pid, ev.process), policy.Abs();
            var k := G.IndexOf(there, ev.pid, 0);
            && k < |there|
            && var n := Touched(there[k], rules, ev);
               && graph.items == there[k := Marked(n)]
               && newAlerts == alerts + AlertsFor(rules, ev, NodeVerdict(n))
               && newStats == Counted(stats, rules, ev, Correlates(n))
  {
    ghost var rules := policy.Abs();
    var watched, sensitive, found := G.Observe(policy, true, ev);
    var k := graph.GetOrAdd(ev.pid, ev.process);
    var n := NoteAgain(graph.items[k], rules, ev, watched, sensitive, found);
    newAlerts, newStats := AddAlerts(alerts, stats, n, rules, ev, watched, sensitive, found);
    if Correlates(n) {
      n := n.(criticalEmitted := true);
    }
    graph.items := graph.items[k := n];
  }

  /** One event of analyze: graph, alerts, counters and window. */
  method AnalyzeEvent(policy: Engine, mode: Mode, graph: G.ProcessGraph, ghost st: State, ev: Event,
                      alerts: seq<Alert>, stats: Stats, window: Windows.Window)
    returns (newAlerts: seq<Alert>, newStats: Stats, newWindow: Windows.Window)
    requires policy.Valid() && mode.rules == policy.Abs()
    requires st == State(graph.items, alerts, stats, window)
    modifies graph
    ensures State(graph.items, newAlerts, newStats, newWindow) == Analyzed(st, mode, ev)
  {
    newAlerts, newStats := alerts, stats.(events := stats.events + 1);
    if mode.loaded || mode.keepGraph {
      graph.Ingest(policy, mode.loaded, ev);
    }
    if mode.loaded {
      newAlerts, newStats := RecordEvent(policy, graph, ev, newAlerts, newStats);
    }
    newWindow := CountWindow(window, |newAlerts| - |alerts|);
  }

  /** The window counters after an event. */
  method CountWindow(window: Windows.Window, alerts: nat) returns (out: Windows.Window)
    ensures out == Windows.After(window, alerts)
  {
    out := window;
    if window.size > 0 {
      out := out.(events := out.events + 1, alerts := out.alerts + alerts);
      if out.events >= window.size {
        out := CloseWindow(out);
      }
    }
  }

  method CloseWindow(window: Windows.Window) returns (out: Windows.Window)
    ensures out == Windows.Close(window)
  {
    out := window.(closed := window.closed + 1);
    if window.alerts > out.max {
      out := out.(max := window.alerts);
    }
    out := out.(last := window.alerts, events := 0, alerts := 0);
  }

  // ----- whole commands -----

  /** The loop of analyze. */
  method AnalyzeLines(policy: Engine, mode: Mode, size: nat, lines: seq<string>, graph: G.ProcessGraph)
    returns (alerts: seq<Alert>, stats: Stats, window: Windows.Window)
    requires policy.Valid() && mode.rules == policy.Abs() && graph.items == []
    modifies graph
    ensures State(graph.items, alerts, stats, window) == Run(mode, size, lines)
  {
    alerts, stats, window := [], Stats(0, 0, 0, 0, 0, 0), Windows.Started(size);
    for i := 0 to |lines|
      invariant State(graph.items, alerts, stats, window) == Run(mode, size, lines[..i])
    {
      assert Init(lines[..i + 1]) == lines[..i];
      ghost var st := Run(mode, size, lines[..i]);
      match Classify(lines[i]) {
        case Parsed(ev) =>
          alerts, stats, window := AnalyzeEvent(policy, mode, graph, st, ev, alerts, stats, window);
        case Rejected =>
          stats := stats.(malformed := stats.malformed + 1);
        case _ =>
      }
    }
    assert lines[..|lines|] == lines;
  }

  /** The analyze command up to its reports: the loop, the last window, the risks of nodes and alerts. */
  method ProcessEvents(policy: Engine, mode: Mode, size: nat, lines: seq<string>)
    returns (graph: G.ProcessGraph, alerts: seq<Alert>, stats: Stats, window: Windows.Window)
    requires policy.Valid() && mode.rules == policy.Abs()
    ensures fresh(graph)
    ensures var st := Run(mode, size, lines);
            && stats == st.stats && window == Windows.Finished(st.window)
            && graph.items == (if mode.loaded then Risked(st.items, mode.rules.weights) else st.items)
            && alerts == (if mode.loaded then UpdatedAlerts(st.alerts, graph.items) else st.alerts)
  {
    var weights := policy.weights;
    graph := new G.ProcessGraph();
    alerts, stats, window := AnalyzeLines(policy, mode, size, lines, graph);
    if window.size > 0 && window.events > 0 {
      window := CloseWindow(window);
    }
    if mode.loaded {
      ComputeRiskAll(graph, weights);
      alerts := UpdateAlertRisks(alerts, graph);
    }
  }

  lemma LogStep(lines: seq<string>, i: nat)
    requires i < |lines|
    ensures Log(lines[..i + 1]) == Log(lines[..i]) + EventsOf(Classify(lines[i]))
    ensures Malformed(lines[..i + 1]) == Malformed(lines[..i]) + One(Classify(lines[i]).Rejected?)
  {
    assert Init(lines[..i + 1]) == lines[..i];
  }

  lemma GraphStep(rules: Rules, loaded: bool, log: seq<Event>, outcome: Outcome)
    ensures G.GraphOf(rules, loaded, log + EventsOf(outcome)) ==
            if outcome.Parsed? then G.Ingested(G.GraphOf(rules, loaded, log), rules, loaded, outcome.ev)
            else G.GraphOf(rules, loaded, log)
  {
    if outcome.Parsed? {
      assert Init(log + [outcome.ev]) == log;
    } else {
      assert log + [] == log;
    }
  }

  method IngestOutcome(policy: Engine, loaded: bool, outcome: Outcome, ghost log: seq<Event>, graph: G.ProcessGraph)
    requires policy.Valid() && graph.items == G.GraphOf(policy.Abs(), loaded, log)
    modifies graph
    ensures graph.items == G.GraphOf(policy.Abs(), loaded, log + EventsOf(outcome))
  {
    GraphStep(policy.Abs(), loaded, log, outcome);
    if outcome.Parsed? {
      graph.Ingest(policy, loaded, outcome.ev);
    }
  }

  method LoadLines(policy: Engine, loaded: bool, lines: seq<string>, graph: G.ProcessGraph)
    returns (events: nat, malformed: nat)
    requires policy.Valid() && graph.items == []
    modifies graph
    ensures graph.items == G.GraphOf(policy.Abs(), loaded, Log(lines))
    ensures events == |Log(lines)| && malformed == Malformed(lines)
  {
    ghost var rules, log := policy.Abs(), [];
    events, malformed := 0, 0;
    for i := 0 to |lines|
      invariant log == Log(lines[..i]) && malformed == Malformed(lines[..i])
      invariant graph.items == G.GraphOf(rules, loaded, log) && events == |log|
    {
      var outcome := Classify(lines[i]);
      LogStep(lines, i);
      IngestOutcome(policy, loaded, outcome, log, graph);
      if outcome.Parsed? {
        events := events + 1;
      } else if outcome.Rejected? {
        malformed := malformed + 1;
      }
      log := log + EventsOf(outcome);
    }
    assert lines[..|lines|] == lines;
  }

  /** The graph of the commands that only need the graph. */
  method LoadGraph(policy: Engine, loaded: bool, lines: seq<string>)
    returns (graph: G.ProcessGraph, events: nat, malformed: nat)
    requires policy.Valid()
    ensures fresh(graph)
    ensures var items := G.GraphOf(policy.Abs(), loaded, Log(lines));
            graph.items == if loaded then Risked(items, policy.Abs().weights) else items
    ensures events == |Log(lines)| && malformed == Malformed(lines)
  {
    graph := new G.ProcessGraph();
    events, malformed := LoadLines(policy, loaded, lines, graph);
    if loaded {
      ComputeRiskAll(graph, policy.weights);
    }
  }

  // ----- what the finished commands report -----

  lemma AlertPids(rules: Rules, ev: Event, v: Verdict)
    ensures forall a :: a in AlertsFor(rules, ev, v) ==> a.pid == ev.pid
  {
  }

  lemma {:induction false} AlertedProcessesAreLogged(rules: Rules, log: seq<Event>)
    ensures forall a :: a in AlertsOf(rules, log) ==> a.pid in G.Pids(log)
  {
    if log != [] {
      AlertedProcessesAreLogged(rules, Init(log));
      AlertPids(rules, Last(log), VerdictOf(rules, Init(log), Last(log)));
    }
  }

  lemma RiskedIndex(items: seq<G.Node>, w: Weights, pid: int)
    ensures G.IndexOf(Risked(EmittedAll(items), w), pid, 0) == G.IndexOf(items, pid, 0)
  {
    G.SameIndex(Risked(EmittedAll(items), w), items, pid, 0);
  }

  /** The final score found for a process is the score of the definition. */
  lemma FinalScore(rules: Rules, log: seq<Event>, pid: int)
    requires G.AllFit(log) && pid in G.Pids(log)
    ensures var items := Risked(EmittedAll(G.GraphOf(rules, true, log)), rules.weights);
            var k := G.IndexOf(items, pid, 0);
            k < |items| && items[k].risk.score == Risk.ScoreOf(rules, G.Sub(log, pid))
  {
    var items := G.GraphOf(rules, true, log);
    G.GraphIsBatch(rules, true, log);
    DistinctElements(G.Pids(log));
    G.LookupInGraph(items, rules, true, log, pid);
    RiskedIndex(items, rules.weights, pid);
    var k := G.IndexOf(items, pid, 0);
    assert items[k] == G.NodeOf(rules, true, G.Sub(log, pid));
  }

  /** After a run every alert carries the final score of its process, and is otherwise unchanged. */
  lemma AlertsCarryFinalScores(rules: Rules, keepGraph: bool, size: nat, lines: seq<string>, i: nat)
    requires i < |Run(Mode(rules, true, keepGraph), size, lines).alerts|
    ensures var st := Run(Mode(rules, true, keepGraph), size, lines);
            UpdatedAlerts(st.alerts, Risked(st.items, rules.weights))[i] ==
            st.alerts[i].(risk := Risk.ScoreOf(rules, G.Sub(Log(lines), st.alerts[i].pid)))
  {
    var log := Log(lines);
    AnalyzeIsBatch(rules, keepGraph, size, lines);
    LogFits(lines);
    AlertedProcessesAreLogged(rules, log);
    FinalScore(rules, log, AlertsOf(rules, log)[i].pid);
  }

  /** Analyze ends with the graph that the graph commands load, but for the marks of the critical alerts. */
  lemma SameGraphAsLoaded(rules: Rules, keepGraph: bool, size: nat, lines: seq<string>)
    ensures var items := Run(Mode(rules, true, keepGraph), size, lines).items;
            var loaded := G.GraphOf(rules, true, Log(lines));
            && |items| == |loaded|
            && forall i :: 0 <= i < |items| ==>
                 Risked(items, rules.weights)[i].(criticalEmitted := false) == Risked(loaded, rules.weights)[i]
  {
    var log := Log(lines);
    AnalyzeIsBatch(rules, keepGraph, size, lines);
    LogFits(lines);
    G.GraphIsBatch(rules, true, log);
  }

  /** The score found for a process after a run is the sum of the weights that its events earn, at most 100. */
  lemma FinalScoreIsWorth(rules: Rules, keepGraph: bool, size: nat, lines: seq<string>, pid: int)
    requires pid in G.Pids(Log(lines)) && Risk.ThresholdsFit(rules.weights) && |Log(lines)| < 0x4000_0000_0000_0000
    ensures var items := Risked(Run(Mode(rules, true, keepGraph), size, lines).items, rules.weights);
            var k := G.IndexOf(items, pid, 0);
            k < |items| && items[k].risk.score == Min(100, Risk.Worth(rules, Log(lines), pid))
  {
    AnalyzeIsBatch(rules, keepGraph, size, lines);
    LogFits(lines);
    FinalScore(rules, Log(lines), pid);
    Risk.ScoreInClosedForm(rules, Log(lines), pid);
  }

}

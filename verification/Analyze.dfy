/** The analyze command: alerts, counters and windows over a stream of lines, against their definition. */
module Analyze {
  import opened Base
  import opened Text
  import opened CsvText
  import opened Events
  import opened Policy
  import G = Graph
  import Risk
  import Windows

  datatype Severity = Low | Medium | High | Critical

  datatype Alert = Alert(
    severity: Severity, time: string, pid: int, process: string, file: string, dst: string, risk: int)

  datatype Stats = Stats(
    events: nat, malformed: nat, watched: nat, sensitive: nat, blocked: nat, correlated: nat)

  function NewAlert(severity: Severity, ev: Event, file: string, dst: string): Alert {
    Alert(severity, CopyTrunc(SafeStr(ev.time), TIME_SIZE), ev.pid, CopyTrunc(SafeStr(ev.process), PROCESS_SIZE),
          CopyTrunc(SafeStr(file), MAX_STR), CopyTrunc(SafeStr(dst), MAX_STR), 0)
  }

  // ----- one event, as the code applies it after ingesting -----

  /** The updates of the node that the loop repeats after the graph has made them. */
  function Touched(n: G.Node, rules: Rules, ev: Event): G.Node {
    var touches, found := G.Touches(rules, true, ev), BlockedDestination(rules, ev);
    n.(signs := G.NextSigns(n.signs, rules, true, ev),
       relations := n.relations.(
         firstSensitiveFile := if touches && !n.signs.touchedSensitive then CopyTrunc(ev.file, MAX_STR)
                               else n.relations.firstSensitiveFile,
         firstDst := G.FirstDst(n.relations.firstDst, if found.Some? then found.value.dst else ev.dst)))
  }

  predicate Correlates(n: G.Node) {
    n.signs.touchedSensitive && n.signs.connected && n.signs.connectedBlocked && !n.criticalEmitted
  }

  function Marked(n: G.Node): G.Node { if Correlates(n) then n.(criticalEmitted := true) else n }

  function Optional(due: bool, alert: Alert): seq<Alert> { if due then [alert] else [] }

  /** Whether a critical alert is due, and the file and destination it would name. */
  datatype Verdict = Verdict(correlates: bool, file: string, dst: string)

  function LowAlert(rules: Rules, ev: Event): seq<Alert> {
    Optional(rules.Watched(ev.process), NewAlert(Low, ev, "", ""))
  }

  function MediumAlert(rules: Rules, ev: Event): seq<Alert> {
    Optional(G.Touches(rules, true, ev), NewAlert(Medium, ev, ev.file, ""))
  }

  function HighAlert(rules: Rules, ev: Event): seq<Alert> {
    var found := BlockedDestination(rules, ev);
    Optional(found.Some?, NewAlert(High, ev, "", G.MatchedDst(found)))
  }

  function CriticalAlert(ev: Event, v: Verdict): seq<Alert> {
    Optional(v.correlates, NewAlert(Critical, ev, v.file, v.dst))
  }

  function AlertsFor(rules: Rules, ev: Event, v: Verdict): seq<Alert> {
    LowAlert(rules, ev) + MediumAlert(rules, ev) + HighAlert(rules, ev) + CriticalAlert(ev, v)
  }

  /** The verdict as the loop takes it, from the node. */
  function NodeVerdict(n: G.Node): Verdict {
    Verdict(Correlates(n), n.relations.firstSensitiveFile, n.relations.firstDst)
  }

  datatype State = State(items: seq<G.Node>, alerts: seq<Alert>, stats: Stats, window: Windows.Window)

  /** The loop's options: whether there is a policy, and whether the graph is kept without one. */
  datatype Mode = Mode(rules: Rules, loaded: bool, keepGraph: bool)

  function Seen(stats: Stats): Stats { stats.(events := stats.events + 1) }

  function Counted(stats: Stats, rules: Rules, ev: Event, correlates: bool): Stats {
    Stats(stats.events, stats.malformed,
          stats.watched + One(rules.Watched(ev.process)),
          stats.sensitive + One(G.Touches(rules, true, ev)),
          stats.blocked + One(BlockedDestination(rules, ev).Some?),
          stats.correlated + One(correlates))
  }

  /** Alerts, counters and window once the event's node, at position `k`, is up to date. */
  function Recorded(st: State, rules: Rules, ev: Event, there: seq<G.Node>, k: nat, n: G.Node): State
    requires k < |there|
  {
    var raised := AlertsFor(rules, ev, NodeVerdict(n));
    State(there[k := Marked(n)], st.alerts + raised, Counted(Seen(st.stats), rules, ev, Correlates(n)),
          Windows.After(st.window, |raised|))
  }

  /** One parsed event: graph, alerts and counters. */
  function Analyzed(st: State, mode: Mode, ev: Event): State {
    var items := if mode.loaded || mode.keepGraph then G.Ingested(st.items, mode.rules, mode.loaded, ev) else st.items;
    if !mode.loaded then State(items, st.alerts, Seen(st.stats), Windows.After(st.window, 0))
    else
      var there := G.WithProcess(items, ev.pid, ev.process);
      var k := G.IndexOf(there, ev.pid, 0);
      Recorded(st, mode.rules, ev, there, k, Touched(there[k], mode.rules, ev))
  }

  function AnalyzedOutcome(st: State, mode: Mode, outcome: Outcome): State {
    match outcome
    case Parsed(ev) => Analyzed(st, mode, ev)
    case Rejected => st.(stats := st.stats.(malformed := st.stats.malformed + 1))
    case Header => st
    case Skipped => st
  }

  function Started(size: nat): State { State([], [], Stats(0, 0, 0, 0, 0, 0), Windows.Started(size)) }

  function Run(mode: Mode, size: nat, lines: seq<string>): State {
    if lines == [] then Started(size) else AnalyzedOutcome(Run(mode, size, Init(lines)), mode, Classify(Last(lines)))
  }

  // ----- the definition over the log -----

  /** The process of an event becomes correlated with that event. */
  predicate BecomesCorrelated(rules: Rules, before: seq<Event>, ev: Event) {
    Risk.Correlated(rules, G.Sub(before + [ev], ev.pid)) && !Risk.Correlated(rules, G.Sub(before, ev.pid))
  }

  /** The verdict from the log: a critical alert is due exactly when the process becomes correlated with
      this event, and it names the first sensitive file and the first destination of the process. */
  function VerdictOf(rules: Rules, before: seq<Event>, ev: Event): Verdict {
    var sub := G.Sub(before + [ev], ev.pid);
    Verdict(BecomesCorrelated(rules, before, ev),
            G.First(G.SensitiveFiles(rules, true, sub)), G.First(G.Contacts(rules, true, sub)))
  }

  /** The alerts that the last event of a log raises. */
  function AlertsAt(rules: Rules, before: seq<Event>, ev: Event): seq<Alert> {
    AlertsFor(rules, ev, VerdictOf(rules, before, ev))
  }

  function AlertsOf(rules: Rules, log: seq<Event>): seq<Alert> {
    if log == [] then [] else AlertsOf(rules, Init(log)) + AlertsAt(rules, Init(log), Last(log))
  }

  /** The number of alerts of each event. */
  function AlertCounts(rules: Rules, log: seq<Event>): seq<nat> {
    if log == [] then [] else AlertCounts(rules, Init(log)) + [|AlertsAt(rules, Init(log), Last(log))|]
  }

  /** The node that analyze keeps: the graph's, marked once its process is correlated. */
  function Emitted(n: G.Node): G.Node {
    n.(criticalEmitted := n.signs.touchedSensitive && n.signs.connectedBlocked)
  }

  function EmittedAll(items: seq<G.Node>): seq<G.Node> {
    seq(|items|, i requires 0 <= i < |items| => Emitted(items[i]))
  }

  function Count(alerts: seq<Alert>, severity: Severity): nat {
    if alerts == [] then 0 else Count(Init(alerts), severity) + One(Last(alerts).severity == severity)
  }

  function CriticalsOf(alerts: seq<Alert>, pid: int): nat {
    if alerts == [] then 0
    else CriticalsOf(Init(alerts), pid) + One(Last(alerts).severity == Critical && Last(alerts).pid == pid)
  }

  // ----- the repeated updates change nothing -----

  /** After the graph ingested an event, the loop's own updates of the node are without effect. */
  lemma TouchedIsNoOp(n: G.Node, rules: Rules, ev: Event)
    ensures var m := G.IngestedNode(n, rules, true, ev);
            Touched(m, rules, ev) == m
  {
    var m := G.IngestedNode(n, rules, true, ev);
    assert G.NextSigns(m.signs, rules, true, ev) == m.signs;
  }

  lemma ConnectedWhenBlocked(rules: Rules, sub: seq<Event>)
    ensures Risk.Correlated(rules, sub) <==>
            var s := G.SignsOf(rules, true, sub); s.touchedSensitive && s.connected && s.connectedBlocked
  {
    G.BlockedContacts(rules, true, sub);
  }

  lemma EmittedIngest(n: G.Node, rules: Rules, ev: Event)
    ensures G.IngestedNode(Emitted(n), rules, true, ev) ==
            G.IngestedNode(n, rules, true, ev).(criticalEmitted := Emitted(n).criticalEmitted)
  {
  }

  // ----- one event against the definition -----

  /** The node an event is about to meet: that of the earlier events of its process. */
  lemma MetNode(items: seq<G.Node>, rules: Rules, log: seq<Event>, ev: Event)
    requires G.IsGraphOf(items, rules, true, log) && ev.Fits()
    ensures var there := G.WithProcess(items, ev.pid, ev.process);
            var k := G.IndexOf(there, ev.pid, 0);
            && k < |there| && there[k].process != ""
            && there[k].signs == G.SignsOf(rules, true, G.Sub(log, ev.pid))
            && there[k].relations == G.RelationsOf(rules, true, G.Sub(log, ev.pid))
            && (k < |items| ==> there == items)
            && (k == |items| ==> there == items + [G.NewNode(ev.pid, ev.process)])
  {
    G.LookupInGraph(items, rules, true, log, ev.pid);
    DistinctElements(G.Pids(log));
    G.SubProperties(log, ev.pid);
    if G.IndexOf(items, ev.pid, 0) == |items| {
      G.AppendedNode(items, ev);
      assert G.NewNode(ev.pid, ev.process).signs == G.SignsOf(rules, true, []);
      assert G.NewNode(ev.pid, ev.process).relations == G.RelationsOf(rules, true, []);
    }
  }

  lemma EmittedIndex(items: seq<G.Node>, pid: int)
    ensures G.IndexOf(EmittedAll(items), pid, 0) == G.IndexOf(items, pid, 0)
  {
    G.SameIndex(EmittedAll(items), items, pid, 0);
  }

  lemma EmittedWithProcess(items: seq<G.Node>, ev: Event)
    requires forall i :: 0 <= i < |items| ==> items[i].process != ""
    ensures G.WithProcess(EmittedAll(items), ev.pid, ev.process) == EmittedAll(G.WithProcess(items, ev.pid, ev.process))
  {
    EmittedIndex(items, ev.pid);
    var k := G.IndexOf(items, ev.pid, 0);
    if k == |items| {
      var n := G.NewNode(ev.pid, ev.process);
      assert Emitted(n) == n;
      assert EmittedAll(items + [n]) == EmittedAll(items) + [n];
    }
  }

  /** The marked node and the alerts of one event, from the node it met. */
  lemma MetStep(rules: Rules, log: seq<Event>, ev: Event, w: G.Node)
    requires ev.Fits()
    requires w.signs == G.SignsOf(rules, true, G.Sub(log, ev.pid))
    requires w.relations == G.RelationsOf(rules, true, G.Sub(log, ev.pid))
    ensures var n := Touched(G.IngestedNode(Emitted(w), rules, true, ev), rules, ev);
            && Marked(n) == Emitted(G.IngestedNode(w, rules, true, ev))
            && NodeVerdict(n) == VerdictOf(rules, log, ev)
  {
    var sub := G.Sub(log, ev.pid);
    TouchedIsNoOp(Emitted(w), rules, ev);
    EmittedIngest(w, rules, ev);
    G.SubStep(log, ev, ev.pid);
    G.SignsStep(rules, true, sub, ev);
    G.RelationsStep(rules, true, sub, ev);
    ConnectedWhenBlocked(rules, sub);
    ConnectedWhenBlocked(rules, sub + [ev]);
  }

  /** Where the event lands in the marked graph: looking its node up again finds the node just ingested. */
  lemma LandsOn(items: seq<G.Node>, rules: Rules, log: seq<Event>, ev: Event)
    requires G.IsGraphOf(items, rules, true, log) && ev.Fits()
    ensures var w := G.WithProcess(items, ev.pid, ev.process);
            var k := G.IndexOf(w, ev.pid, 0);
            var there := G.Ingested(EmittedAll(items), rules, true, ev);
            && k < |w| == |there|
            && there == EmittedAll(w)[k := G.IngestedNode(Emitted(w[k]), rules, true, ev)]
            && G.WithProcess(there, ev.pid, ev.process) == there
            && G.IndexOf(there, ev.pid, 0) == k
  {
    G.LookupInGraph(items, rules, true, log, ev.pid);
    EmittedWithProcess(items, ev);
    EmittedIndex(G.WithProcess(items, ev.pid, ev.process), ev.pid);
    G.Landed(EmittedAll(items), rules, true, ev);
  }

  lemma ReplacedEmitted(w: seq<G.Node>, k: nat, a: G.Node, b: G.Node)
    requires k < |w|
    ensures EmittedAll(w)[k := a][k := Emitted(b)] == EmittedAll(w[k := b])
  {
  }

  /** The counters and the window follow the alerts. */
  lemma RecordedStep(st: State, rules: Rules, ev: Event, there: seq<G.Node>, k: nat, n: G.Node)
    requires k < |there|
    ensures var after, raised := Recorded(st, rules, ev, there, k, n), AlertsFor(rules, ev, NodeVerdict(n));
            && after.items == there[k := Marked(n)]
            && after.alerts == st.alerts + raised
            && after.window == Windows.After(st.window, |raised|)
            && after.stats == Raising(st.stats, raised)
  {
    CountedStep(st.stats, rules, ev, NodeVerdict(n));
  }

  lemma CountedStep(stats: Stats, rules: Rules, ev: Event, v: Verdict)
    ensures Counted(Seen(stats), rules, ev, v.correlates) == Raising(stats, AlertsFor(rules, ev, v))
  {
    var raised := AlertsFor(rules, ev, v);
    assert Count(raised, Low) == One(rules.Watched(ev.process)) by {
      SeverityCount(rules, ev, v, Low);
    }
    assert Count(raised, Medium) == One(G.Touches(rules, true, ev)) by {
      SeverityCount(rules, ev, v, Medium);
    }
    assert Count(raised, High) == One(BlockedDestination(rules, ev).Some?) by {
      SeverityCount(rules, ev, v, High);
    }
    assert Count(raised, Critical) == One(v.correlates) by {
      SeverityCount(rules, ev, v, Critical);
    }
  }

  /** The marked graph before and after an event. */
  lemma MarkedStep(items: seq<G.Node>, rules: Rules, log: seq<Event>, ev: Event, k: nat, there: seq<G.Node>)
    requires G.IsGraphOf(items, rules, true, log) && ev.Fits()
    requires there == G.Ingested(EmittedAll(items), rules, true, ev)
    requires k == G.IndexOf(G.WithProcess(items, ev.pid, ev.process), ev.pid, 0)
    ensures k < |there| && G.WithProcess(there, ev.pid, ev.process) == there && G.IndexOf(there, ev.pid, 0) == k
    ensures var n := Touched(there[k], rules, ev);
            && NodeVerdict(n) == VerdictOf(rules, log, ev)
            && there[k := Marked(n)] == EmittedAll(G.Ingested(items, rules, true, ev))
  {
    var w := G.WithProcess(items, ev.pid, ev.process);
    LandsOn(items, rules, log, ev);
    MetNode(items, rules, log, ev);
    MetStep(rules, log, ev, w[k]);
    ReplacedEmitted(w, k, there[k], G.IngestedNode(w[k], rules, true, ev));
  }

  lemma AnalyzedForm(st: State, mode: Mode, ev: Event, there: seq<G.Node>, k: nat)
    requires mode.loaded && there == G.Ingested(st.items, mode.rules, true, ev)
    requires G.WithProcess(there, ev.pid, ev.process) == there && k == G.IndexOf(there, ev.pid, 0) < |there|
    ensures Analyzed(st, mode, ev) == Recorded(st, mode.rules, ev, there, k, Touched(there[k], mode.rules, ev))
  {
  }

  function Raising(stats: Stats, raised: seq<Alert>): Stats {
    Stats(stats.events + 1, stats.malformed,
          stats.watched + Count(raised, Low), stats.sensitive + Count(raised, Medium),
          stats.blocked + Count(raised, High), stats.correlated + Count(raised, Critical))
  }

  /** What analyzing one event does to a state that agrees with the definition so far. */
  lemma EventStep(st: State, mode: Mode, items: seq<G.Node>, log: seq<Event>, ev: Event)
    requires mode.loaded && ev.Fits()
    requires G.IsGraphOf(items, mode.rules, true, log) && st.items == EmittedAll(items)
    ensures var after, raised := Analyzed(st, mode, ev), AlertsAt(mode.rules, log, ev);
            && after.items == EmittedAll(G.Ingested(items, mode.rules, true, ev))
            && after.alerts == st.alerts + raised
            && after.window == Windows.After(st.window, |raised|)
            && after.stats == Raising(st.stats, raised)
  {
    var rules := mode.rules;
    var k := G.IndexOf(G.WithProcess(items, ev.pid, ev.process), ev.pid, 0);
    var there := G.Ingested(EmittedAll(items), rules, true, ev);
    MarkedStep(items, rules, log, ev, k, there);
    AnalyzedForm(st, mode, ev, there, k);
    RecordedStep(st, rules, ev, there, k, Touched(there[k], rules, ev));
  }

  lemma {:induction false} CountAppend(a: seq<Alert>, b: seq<Alert>, severity: Severity)
    ensures Count(a + b, severity) == Count(a, severity) + Count(b, severity)
  {
    if b == [] {
      assert a + b == a;
    } else {
      CountAppend(a, Init(b), severity);
      assert Init(a + b) == a + Init(b);
    }
  }

  /** Of four optional alerts, one of each severity, each severity counts one if its alert is there. */
  lemma CountFour(low: seq<Alert>, medium: seq<Alert>, high: seq<Alert>, critical: seq<Alert>, severity: Severity)
    requires OfSeverity(low, Low) && OfSeverity(medium, Medium)
    requires OfSeverity(high, High) && OfSeverity(critical, Critical)
    ensures Count(low + medium + high + critical, severity) ==
            match severity case Low => |low| case Medium => |medium| case High => |high| case Critical => |critical|
  {
    CountAppend(low, medium, severity);
    CountAppend(low + medium, high, severity);
    CountAppend(low + medium + high, critical, severity);
    CountUniform(low, Low, severity);
    CountUniform(medium, Medium, severity);
    CountUniform(high, High, severity);
    CountUniform(critical, Critical, severity);
  }

  ghost predicate OfSeverity(alerts: seq<Alert>, severity: Severity) {
    forall a :: a in alerts ==> a.severity == severity
  }

  lemma {:induction false} CountUniform(alerts: seq<Alert>, all: Severity, severity: Severity)
    requires OfSeverity(alerts, all)
    ensures Count(alerts, severity) == if severity == all then |alerts| else 0
  {
    if alerts != [] {
      CountUniform(Init(alerts), all, severity);
    }
  }

  /** Whether an event raises an alert of some severity. */
  predicate Raises(rules: Rules, ev: Event, v: Verdict, severity: Severity) {
    match severity
    case Low => rules.Watched(ev.process)
    case Medium => G.Touches(rules, true, ev)
    case High => BlockedDestination(rules, ev).Some?
    case Critical => v.correlates
  }

  /** An event raises at most one alert of each severity. */
  lemma SeverityCount(rules: Rules, ev: Event, v: Verdict, severity: Severity)
    ensures Count(AlertsFor(rules, ev, v), severity) == One(Raises(rules, ev, v, severity))
  {
    CountFour(LowAlert(rules, ev), MediumAlert(rules, ev), HighAlert(rules, ev), CriticalAlert(ev, v), severity);
  }

  // ----- whole runs -----

  lemma JsonFits(line: string)
    ensures JsonFields(line).Fits()
  {
  }

  lemma CsvFits(fields: seq<string>)
    ensures CsvFields(fields).Fits()
  {
  }

  lemma DestinationFits(ev: Event)
    requires ev.Fits()
    ensures ev.WithDestination().Fits()
  {
  }

  lemma ParsedFits(line: string)
    ensures match Classify(line) case Parsed(ev) => ev.Fits() case _ => true
  {
    var p := SkipWs(TrimNewline(line));
    JsonFits(p);
    CsvFits(Fields(p, 8));
    DestinationFits(JsonFields(p));
    DestinationFits(CsvFields(Fields(p, 8)));
  }

  lemma {:induction false} LogFits(lines: seq<string>)
    ensures G.AllFit(Log(lines))
  {
    if lines != [] {
      LogFits(Init(lines));
      ParsedFits(Last(lines));
    }
  }

  /** The counters that a log with some alerts gives. */
  function StatsOf(events: nat, malformed: nat, alerts: seq<Alert>): Stats {
    Stats(events, malformed, Count(alerts, Low), Count(alerts, Medium), Count(alerts, High), Count(alerts, Critical))
  }

  /** What analyzing the lines must amount to, from the log alone. */
  function Batch(rules: Rules, size: nat, log: seq<Event>, malformed: nat): State {
    var alerts := AlertsOf(rules, log);
    State(EmittedAll(G.GraphOf(rules, true, log)), alerts, StatsOf(|log|, malformed, alerts),
          Windows.Run(size, AlertCounts(rules, log)))
  }

  lemma StatsStep(events: nat, malformed: nat, alerts: seq<Alert>, raised: seq<Alert>)
    ensures Raising(StatsOf(events, malformed, alerts), raised) == StatsOf(events + 1, malformed, alerts + raised)
  {
    CountAppend(alerts, raised, Low);
    CountAppend(alerts, raised, Medium);
    CountAppend(alerts, raised, High);
    CountAppend(alerts, raised, Critical);
  }

  lemma BatchStep(rules: Rules, keepGraph: bool, size: nat, log: seq<Event>, malformed: nat, ev: Event)
    requires G.AllFit(log) && ev.Fits()
    ensures Analyzed(Batch(rules, size, log, malformed), Mode(rules, true, keepGraph), ev) ==
            Batch(rules, size, log + [ev], malformed)
  {
    var items, raised := G.GraphOf(rules, true, log), AlertsAt(rules, log, ev);
    G.GraphIsBatch(rules, true, log);
    EventStep(Batch(rules, size, log, malformed), Mode(rules, true, keepGraph), items, log, ev);
    assert Init(log + [ev]) == log;
    assert Init(AlertCounts(rules, log) + [|raised|]) == AlertCounts(rules, log);
    StatsStep(|log|, malformed, AlertsOf(rules, log), raised);
  }

  lemma OutcomeStep(rules: Rules, keepGraph: bool, size: nat, log: seq<Event>, malformed: nat, outcome: Outcome)
    requires G.AllFit(log) && (outcome.Parsed? ==> outcome.ev.Fits())
    ensures AnalyzedOutcome(Batch(rules, size, log, malformed), Mode(rules, true, keepGraph), outcome) ==
            Batch(rules, size, log + EventsOf(outcome), malformed + One(outcome.Rejected?))
  {
    if outcome.Parsed? {
      BatchStep(rules, keepGraph, size, log, malformed, outcome.ev);
    } else {
      assert log + [] == log;
    }
  }

  /** A run with a policy: graph, alerts, counters and windows are those of the definition over the log
      of the lines that parse, whatever the other lines are. */
  lemma {:induction false} AnalyzeIsBatch(rules: Rules, keepGraph: bool, size: nat, lines: seq<string>)
    ensures Run(Mode(rules, true, keepGraph), size, lines) == Batch(rules, size, Log(lines), Malformed(lines))
  {
    if lines == [] {
      EmptyBatch(rules, size);
    } else {
      var front, outcome := Init(lines), Classify(Last(lines));
      AnalyzeIsBatch(rules, keepGraph, size, front);
      LogFits(front);
      assert outcome.Parsed? ==> outcome.ev.Fits() by {
        ParsedFits(Last(lines));
      }
      OutcomeStep(rules, keepGraph, size, Log(front), Malformed(front), outcome);
    }
  }

  lemma EmptyBatch(rules: Rules, size: nat)
    ensures Batch(rules, size, [], 0) == Started(size)
  {
  }
}

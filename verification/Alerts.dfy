/** What the reported alerts, counters and windows of an analyze run mean. */
module Alerts {
  import opened Base
  import opened Events
  import opened Policy
  import opened Analyze

  // ----- counting alerts -----

  lemma {:induction false} EverySeverityCounted(alerts: seq<Alert>)
    ensures |alerts| == Count(alerts, Low) + Count(alerts, Medium) + Count(alerts, High) + Count(alerts, Critical)
  {
    if alerts != [] {
      EverySeverityCounted(Init(alerts));
    }
  }

  /** The four counters of a run add up to its alerts, and every line that is not blank, a comment or a
      header is counted once: as an event or as malformed. */
  lemma {:induction false} AlertsAccounted(rules: Rules, keepGraph: bool, size: nat, lines: seq<string>)
    ensures var st := Run(Mode(rules, true, keepGraph), size, lines);
            && |st.alerts| == st.stats.watched + st.stats.sensitive + st.stats.blocked + st.stats.correlated
            && st.stats.events == |Log(lines)|
            && st.stats.events + st.stats.malformed == Substantial(lines)
  {
    AnalyzeIsBatch(rules, keepGraph, size, lines);
    EverySeverityCounted(AlertsOf(rules, Log(lines)));
    SubstantialLines(lines);
  }

  /** The lines that are neither blank nor comments nor headers. */
  function Substantial(lines: seq<string>): nat {
    if lines == [] then 0
    else Substantial(Init(lines)) + One(Classify(Last(lines)).Parsed? || Classify(Last(lines)).Rejected?)
  }

  lemma {:induction false} SubstantialLines(lines: seq<string>)
    ensures |Log(lines)| + Malformed(lines) == Substantial(lines)
  {
    if lines != [] {
      SubstantialLines(Init(lines));
      OutcomeEvents(Classify(Last(lines)));
    }
  }

  lemma OutcomeEvents(outcome: Outcome)
    ensures |EventsOf(outcome)| + One(outcome.Rejected?) == One(outcome.Parsed? || outcome.Rejected?)
  {
  }

  // ----- at most one critical alert for each process -----

  lemma {:induction false} CriticalsAppend(a: seq<Alert>, b: seq<Alert>, pid: int)
    ensures CriticalsOf(a + b, pid) == CriticalsOf(a, pid) + CriticalsOf(b, pid)
  {
    if b == [] {
      assert a + b == a;
    } else {
      CriticalsAppend(a, Init(b), pid);
      assert Init(a + b) == a + Init(b);
    }
  }

  lemma {:induction false} NoneCritical(alerts: seq<Alert>, severity: Severity, pid: int)
    requires OfSeverity(alerts, severity) && severity != Critical
    ensures CriticalsOf(alerts, pid) == 0
  {
    if alerts != [] {
      NoneCritical(Init(alerts), severity, pid);
    }
  }

  lemma CriticalsOfFour(low: seq<Alert>, medium: seq<Alert>, high: seq<Alert>, critical: seq<Alert>, pid: int)
    requires OfSeverity(low, Low) && OfSeverity(medium, Medium) && OfSeverity(high, High)
    ensures CriticalsOf(low + medium + high + critical, pid) == CriticalsOf(critical, pid)
  {
    CriticalsAppend(low, medium, pid);
    CriticalsAppend(low + medium, high, pid);
    CriticalsAppend(low + medium + high, critical, pid);
    NoneCritical(low, Low, pid);
    NoneCritical(medium, Medium, pid);
    NoneCritical(high, High, pid);
  }

  lemma CriticalsAt(rules: Rules, ev: Event, v: Verdict, pid: int)
    ensures CriticalsOf(AlertsFor(rules, ev, v), pid) == One(ev.pid == pid && v.correlates)
  {
    var critical := CriticalAlert(ev, v);
    CriticalsOfFour(LowAlert(rules, ev), MediumAlert(rules, ev), HighAlert(rules, ev), critical, pid);
    assert critical != [] ==> Init(critical) == [];
  }

  lemma CorrelatedStays(rules: Rules, log: seq<Event>, ev: Event, pid: int)
    ensures Risk.Correlated(rules, G.Sub(log, pid)) ==> Risk.Correlated(rules, G.Sub(log + [ev], pid))
    ensures ev.pid != pid ==>
              (Risk.Correlated(rules, G.Sub(log, pid)) <==> Risk.Correlated(rules, G.Sub(log + [ev], pid)))
  {
    G.SubStep(log, ev, pid);
    G.SawStep(rules, true, G.Sub(log, pid), ev, G.SensitiveFile);
    G.SawStep(rules, true, G.Sub(log, pid), ev, G.BlockedContact);
  }

  lemma CorrelatedCount(rules: Rules, log: seq<Event>, ev: Event, pid: int)
    ensures One(Risk.Correlated(rules, G.Sub(log + [ev], pid))) ==
            One(Risk.Correlated(rules, G.Sub(log, pid))) + One(ev.pid == pid && BecomesCorrelated(rules, log, ev))
  {
    CorrelatedStays(rules, log, ev, pid);
  }

  lemma CriticalsStep(rules: Rules, alerts: seq<Alert>, log: seq<Event>, ev: Event, pid: int)
    ensures CriticalsOf(alerts + AlertsAt(rules, log, ev), pid) ==
            CriticalsOf(alerts, pid) + One(ev.pid == pid && BecomesCorrelated(rules, log, ev))
  {
    CriticalsAt(rules, ev, VerdictOf(rules, log, ev), pid);
    CriticalsAppend(alerts, AlertsAt(rules, log, ev), pid);
  }

  /** Both sides of the equation below grow together. */
  lemma CriticalsGrow(rules: Rules, front: seq<Event>, ev: Event, log: seq<Event>, pid: int)
    requires log == front + [ev]
    ensures CriticalsOf(AlertsOf(rules, log), pid) - One(Risk.Correlated(rules, G.Sub(log, pid))) ==
            CriticalsOf(AlertsOf(rules, front), pid) - One(Risk.Correlated(rules, G.Sub(front, pid)))
  {
    assert AlertsOf(rules, log) == AlertsOf(rules, front) + AlertsAt(rules, front, ev) by {
      assert Init(log) == front;
    }
    CriticalsStep(rules, AlertsOf(rules, front), front, ev, pid);
    CorrelatedCount(rules, front, ev, pid);
  }

  /** Over every log a process gets one critical alert if its events both touch a sensitive file and
      contact a blocked destination, in either order, and otherwise none. */
  lemma {:induction false} CriticalOnce(rules: Rules, log: seq<Event>, pid: int)
    ensures CriticalsOf(AlertsOf(rules, log), pid) == One(Risk.Correlated(rules, G.Sub(log, pid)))
  {
    if log == [] {
      NoCriticalYet(rules, pid);
    } else {
      CriticalOnce(rules, Init(log), pid);
      Rejoined(log);
      CriticalsGrow(rules, Init(log), Last(log), log, pid);
    }
  }

  lemma NoCriticalYet(rules: Rules, pid: int)
    ensures CriticalsOf(AlertsOf(rules, []), pid) == 0 && !Risk.Correlated(rules, G.Sub([], pid))
  {
  }

  /** In the graph of a run a node is marked if and only if its process has a critical alert, and then it
      has touched a sensitive file and contacted a blocked destination. */
  lemma MarkedIffAlerted(rules: Rules, keepGraph: bool, size: nat, lines: seq<string>, i: nat)
    requires i < |Run(Mode(rules, true, keepGraph), size, lines).items|
    ensures var st := Run(Mode(rules, true, keepGraph), size, lines);
            var n := st.items[i];
            && (n.criticalEmitted <==> n.signs.touchedSensitive && n.signs.connectedBlocked)
            && CriticalsOf(st.alerts, n.pid) == One(n.criticalEmitted)
  {
    var log := Log(lines);
    AnalyzeIsBatch(rules, keepGraph, size, lines);
    LogFits(lines);
    G.GraphIsBatch(rules, true, log);
    var pid := Distinct(G.Pids(log))[i];
    G.SubProperties(log, pid);
    CriticalOnce(rules, log, pid);
  }

  /** A process with a critical alert ends with at least the weight of the correlation, and under the
      default weights with level "critical". */
  lemma AlertedIsCritical(rules: Rules, keepGraph: bool, size: nat, lines: seq<string>, pid: int)
    requires CriticalsOf(Run(Mode(rules, true, keepGraph), size, lines).alerts, pid) > 0
    ensures var w, score := rules.weights, Risk.ScoreOf(rules, G.Sub(Log(lines), pid));
            && (Risk.NonNegative(w) ==>
                  score >= Min(100, w.sensitiveFile + Min(w.blockedIp, w.blockedDomain) + w.networkAfterFile))
            && (w == DefaultWeights() ==> Risk.Level(score) == "critical")
  {
    var log := Log(lines);
    AnalyzeIsBatch(rules, keepGraph, size, lines);
    CriticalOnce(rules, log, pid);
    if Risk.NonNegative(rules.weights) {
      Risk.CorrelatedScore(rules, G.Sub(log, pid));
    }
    if rules.weights == DefaultWeights() {
      Risk.CorrelatedIsCritical(rules, G.Sub(log, pid));
    }
  }

  // ----- windows -----

  lemma {:induction false} CountsSum(rules: Rules, log: seq<Event>)
    ensures Windows.Sum(AlertCounts(rules, log)) == |AlertsOf(rules, log)|
    ensures |AlertCounts(rules, log)| == |log|
  {
    if log != [] {
      CountsSum(rules, Init(log));
    }
  }

  /** The chunks and the reported figures of a finished run agree. */
  ghost predicate WindowsMatch(st: State, size: nat, counts: seq<nat>)
    requires size > 0
  {
    var w, chunks := Windows.Finished(st.window), Windows.Chunks(size, counts);
    && Windows.Flatten(chunks) == counts && |counts| == st.stats.events
    && w.closed == |chunks| == (st.stats.events + size - 1) / size
    && Windows.SumOfSums(chunks) == |st.alerts|
    && w.max == Windows.MaxSum(chunks) && w.last == Windows.LastSum(chunks)
  }

  lemma WindowFigures(st: State, size: nat, counts: seq<nat>)
    requires size > 0 && st.window == Windows.Run(size, counts)
    requires |counts| == st.stats.events && Windows.Sum(counts) == |st.alerts|
    ensures WindowsMatch(st, size, counts)
  {
    Windows.FinishedWindows(size, counts);
    Windows.ChunksPartition(size, counts);
  }

  /** The closed windows cut the events, and no other line, into consecutive chunks of the given size;
      the chunks' alerts add up to all alerts, and the reported figures are their number, the greatest
      and the last of their alert counts. */
  lemma WindowsAccounted(rules: Rules, keepGraph: bool, size: nat, lines: seq<string>)
    requires size > 0
    ensures WindowsMatch(Run(Mode(rules, true, keepGraph), size, lines), size, AlertCounts(rules, Log(lines)))
  {
    AnalyzeIsBatch(rules, keepGraph, size, lines);
    CountsSum(rules, Log(lines));
    WindowFigures(Run(Mode(rules, true, keepGraph), size, lines), size, AlertCounts(rules, Log(lines)));
  }

  // ----- runs without a policy -----

  lemma OutcomeWithoutPolicy(rules: Rules, keepGraph: bool, st: State, log: seq<Event>, outcome: Outcome)
    requires st.items == if keepGraph then G.GraphOf(rules, false, log) else []
    requires st.alerts == [] && st.stats == StatsOf(|log|, st.stats.malformed, [])
    ensures var after, longer := AnalyzedOutcome(st, Mode(rules, false, keepGraph), outcome), log + EventsOf(outcome);
            && after.items == (if keepGraph then G.GraphOf(rules, false, longer) else [])
            && after.alerts == [] && after.stats == StatsOf(|longer|, after.stats.malformed, [])
  {
    if outcome.Parsed? {
      assert Init(log + [outcome.ev]) == log;
    } else {
      assert log + [] == log;
    }
  }

  /** Without a policy there are no alerts, and the graph, where one is kept, holds what the log alone
      shows. */
  lemma {:induction false} WithoutPolicy(rules: Rules, keepGraph: bool, size: nat, lines: seq<string>)
    ensures var st := Run(Mode(rules, false, keepGraph), size, lines);
            && st.items == (if keepGraph then G.GraphOf(rules, false, Log(lines)) else [])
            && st.alerts == [] && st.stats == StatsOf(|Log(lines)|, st.stats.malformed, [])
  {
    if lines != [] {
      WithoutPolicy(rules, keepGraph, size, Init(lines));
      OutcomeWithoutPolicy(rules, keepGraph, Run(Mode(rules, false, keepGraph), size, Init(lines)),
                           Log(Init(lines)), Classify(Last(lines)));
    }
  }

  // ----- what an alert names -----

  function Shown(s: string): string { if s == "" then "-" else s }

  /** What an alert of some severity rests on: an event of its process that it repeats, and what that event,
      or for a critical alert the whole log so far, shows. */
  ghost predicate Rests(rules: Rules, log: seq<Event>, a: Alert, e: Event) {
    && e in log && a.pid == e.pid && a.time == Shown(e.time) && a.process == Shown(e.process)
    && match a.severity
       case Low => rules.Watched(e.process) && a.file == "-" && a.dst == "-"
       case Medium => e.file != "" && rules.Sensitive(e.file) && a.file == e.file && a.dst == "-"
       case High => a.file == "-" && Listed(rules, a.dst) && (a.dst == e.dst || a.dst == e.ip || a.dst == e.domain)
       case Critical => NamesTouched(rules, log, a.pid, a.file) && a.dst in Risk.Contacted(rules, log, a.pid)
  }

  ghost predicate NamesTouched(rules: Rules, log: seq<Event>, pid: int, file: string) {
    exists e :: e in log && e.pid == pid && e.file == file && file != "" && rules.Sensitive(file)
  }

  ghost predicate HasEvidence(rules: Rules, log: seq<Event>, a: Alert) { exists e :: Rests(rules, log, a, e) }

  lemma ShownFits(s: string, size: nat)
    requires |s| < size && size > 1
    ensures CopyTrunc(SafeStr(s), size) == Shown(s)
  {
  }

  lemma AlertOf(severity: Severity, ev: Event, file: string, dst: string)
    requires ev.Fits() && |file| < MAX_STR && |dst| < MAX_STR
    ensures NewAlert(severity, ev, file, dst) ==
            Alert(severity, Shown(ev.time), ev.pid, Shown(ev.process), Shown(file), Shown(dst), 0)
  {
    ShownFits(ev.time, TIME_SIZE);
    ShownFits(ev.process, PROCESS_SIZE);
    ShownFits(file, MAX_STR);
    ShownFits(dst, MAX_STR);
  }

  lemma PlainAlertRests(rules: Rules, log: seq<Event>, ev: Event, a: Alert)
    requires ev in log && ev.Fits()
    requires a in LowAlert(rules, ev) || a in MediumAlert(rules, ev) || a in HighAlert(rules, ev)
    ensures Rests(rules, log, a, ev)
  {
    var found := BlockedDestination(rules, ev);
    BlockedDestinationIs(rules, ev);
    AlertOf(Low, ev, "", "");
    AlertOf(Medium, ev, ev.file, "");
    AlertOf(High, ev, "", G.MatchedDst(found));
  }

  lemma {:induction false} FirstTouched(rules: Rules, sub: seq<Event>)
    ensures forall f :: f in G.SensitiveFiles(rules, true, sub) ==>
              exists e :: e in sub && e.file == f && f != "" && rules.Sensitive(f)
  {
    if sub != [] {
      Rejoined(sub);
      FirstTouched(rules, Init(sub));
    }
  }

  /** A correlated process has a first sensitive file and a first destination, both from its events. */
  lemma VerdictNames(rules: Rules, before: seq<Event>, ev: Event)
    requires BecomesCorrelated(rules, before, ev)
    ensures var v, log := VerdictOf(rules, before, ev), before + [ev];
            NamesTouched(rules, log, ev.pid, v.file) && v.dst in Risk.Contacted(rules, log, ev.pid)
  {
    var log := before + [ev];
    var sub := G.Sub(log, ev.pid);
    G.SubProperties(log, ev.pid);
    G.SensitiveFilesOf(rules, true, sub);
    G.BlockedContacts(rules, true, sub);
    FirstTouched(rules, sub);
    Risk.ContactsAre(rules, log, ev.pid);
    assert G.First(G.SensitiveFiles(rules, true, sub)) in G.SensitiveFiles(rules, true, sub);
    assert G.First(G.Contacts(rules, true, sub)) in Elements(G.Contacts(rules, true, sub));
  }

  lemma NamesAreShort(rules: Rules, log: seq<Event>, pid: int)
    requires G.AllFit(log)
    ensures forall f :: NamesTouched(rules, log, pid, f) ==> 0 < |f| < MAX_STR
    ensures forall d :: d in Risk.Contacted(rules, log, pid) ==> 0 < |d| < MAX_STR
  {
    forall d | d in Risk.Contacted(rules, log, pid)
      ensures 0 < |d| < MAX_STR
    {
      var e :| e in log && e.pid == pid && (d == e.dst || d == G.MatchedDst(BlockedDestination(rules, e)));
      BlockedDestinationIs(rules, e);
    }
  }

  lemma CriticalAlertRests(rules: Rules, before: seq<Event>, ev: Event, a: Alert)
    requires G.AllFit(before + [ev]) && a in CriticalAlert(ev, VerdictOf(rules, before, ev))
    ensures Rests(rules, before + [ev], a, ev)
  {
    var v := VerdictOf(rules, before, ev);
    VerdictNames(rules, before, ev);
    NamesAreShort(rules, before + [ev], ev.pid);
    assert ev in before + [ev];
    AlertOf(Critical, ev, v.file, v.dst);
  }

  lemma NewAlertsRest(rules: Rules, before: seq<Event>, ev: Event, a: Alert)
    requires G.AllFit(before + [ev]) && a in AlertsAt(rules, before, ev)
    ensures Rests(rules, before + [ev], a, ev)
  {
    assert ev in before + [ev];
    if a in CriticalAlert(ev, VerdictOf(rules, before, ev)) {
      CriticalAlertRests(rules, before, ev, a);
    } else {
      PlainAlertRests(rules, before + [ev], ev, a);
    }
  }

  lemma RestsLonger(rules: Rules, log: seq<Event>, ev: Event, a: Alert, e: Event)
    requires Rests(rules, log, a, e)
    ensures Rests(rules, log + [ev], a, e)
  {
    assert forall x :: x in log ==> x in log + [ev];
  }

  /** Every alert repeats an event of its process and names what makes it one: a watched name, a sensitive file,
      a listed destination, or for a critical alert a sensitive file and a destination of the process. */
  lemma {:induction false} AlertsHaveEvidence(rules: Rules, log: seq<Event>)
    requires G.AllFit(log)
    ensures forall a :: a in AlertsOf(rules, log) ==> HasEvidence(rules, log, a)
  {
    if log != [] {
      var front, ev := Init(log), Last(log);
      Rejoined(log);
      AlertsHaveEvidence(rules, front);
      forall a | a in AlertsOf(rules, log)
        ensures HasEvidence(rules, log, a)
      {
        if a in AlertsOf(rules, front) {
          var e :| Rests(rules, front, a, e);
          RestsLonger(rules, front, ev, a, e);
        } else {
          NewAlertsRest(rules, front, ev, a);
        }
      }
    }
  }

}

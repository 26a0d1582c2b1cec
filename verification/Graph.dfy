/** The process graph: one node per process, updated event by event, against its definition over the log. */
module Graph {
  import opened Base
  import opened Events
  import opened Policy

  datatype TimelineEntry = TimelineEntry(time: string, event: string, file: string, dst: string)

  /** What the process has been seen to do. */
  datatype Signs = Signs(
    watched: bool, touchedSensitive: bool, connected: bool,
    connectedBlocked: bool, connectedBlockedIp: bool, connectedBlockedDomain: bool)

  /** What the process has been in touch with. */
  datatype Relations = Relations(
    eventsSeen: nat, firstSensitiveFile: string, firstDst: string,
    eventTypes: seq<string>, files: seq<string>, destinations: seq<string>, timeline: seq<TimelineEntry>)

  datatype Risk = Risk(score: int, level: string, reasons: seq<string>)

  /** A node of the graph; the record's fields are grouped by what they are about. */
  datatype Node = Node(pid: int, process: string, signs: Signs, relations: Relations, risk: Risk, criticalEmitted: bool)

  // ----- one event, as the code applies it -----

  function NewNode(pid: int, process: string): Node {
    Node(pid, CopyTrunc(SafeStr(process), PROCESS_SIZE), Signs(false, false, false, false, false, false),
         Relations(0, "", "", [], [], [], []), Risk(0, "none", []), false)
  }

  function IndexOf(items: seq<Node>, pid: int, i: nat): (k: nat)
    requires i <= |items|
    ensures i <= k <= |items|
    ensures k < |items| ==> items[k].pid == pid
    ensures forall j :: i <= j < k ==> items[j].pid != pid
    decreases |items| - i
  {
    if i == |items| || items[i].pid == pid then i else IndexOf(items, pid, i + 1)
  }

  /** The nodes after the node of a process was looked up, and made if there was none. */
  function WithProcess(items: seq<Node>, pid: int, process: string): (there: seq<Node>)
    ensures IndexOf(there, pid, 0) < |there|
  {
    var k := IndexOf(items, pid, 0);
    var there :=
      if k == |items| then items + [NewNode(pid, process)]
      else if process != "" && items[k].process == "" then
        items[k := items[k].(process := CopyTrunc(process, PROCESS_SIZE))]
      else items;
    assert there[k].pid == pid;
    there
  }

  function EntryOf(ev: Event): TimelineEntry {
    TimelineEntry(CopyTrunc(ev.time, TIME_SIZE), CopyTrunc(ev.event, EVENT_SIZE),
                  CopyTrunc(ev.file, MAX_STR), CopyTrunc(ev.dst, MAX_STR))
  }

  predicate Touches(rules: Rules, loaded: bool, ev: Event) { loaded && ev.file != "" && rules.Sensitive(ev.file) }

  function BlockedIn(rules: Rules, loaded: bool, ev: Event): Option<Match> {
    if loaded then BlockedDestination(rules, ev) else None
  }

  function MatchedDst(found: Option<Match>): string { if found.Some? then found.value.dst else "" }

  predicate MatchedAs(found: Option<Match>, kind: Kind) { found.Some? && found.value.kind == kind }

  /** The first destination once another one is contacted; the empty string is none. */
  function FirstDst(current: string, dst: string): string {
    if current == "" && dst != "" then CopyTrunc(dst, MAX_STR) else current
  }

  function NextSigns(s: Signs, rules: Rules, loaded: bool, ev: Event): Signs {
    var found := BlockedIn(rules, loaded, ev);
    Signs(s.watched || (loaded && rules.Watched(ev.process)),
          s.touchedSensitive || Touches(rules, loaded, ev),
          s.connected || ev.dst != "" || found.Some?,
          s.connectedBlocked || found.Some?,
          s.connectedBlockedIp || MatchedAs(found, Ip),
          s.connectedBlockedDomain || MatchedAs(found, Domain))
  }

  function NextRelations(r: Relations, touched: bool, rules: Rules, loaded: bool, ev: Event): Relations {
    var matched := MatchedDst(BlockedIn(rules, loaded, ev));
    Relations(r.eventsSeen + 1,
              if Touches(rules, loaded, ev) && !touched then CopyTrunc(ev.file, MAX_STR) else r.firstSensitiveFile,
              FirstDst(FirstDst(r.firstDst, ev.dst), matched),
              AddedUnique(r.eventTypes, ev.event),
              AddedUnique(r.files, ev.file),
              AddedUnique(AddedUnique(r.destinations, ev.dst), matched),
              r.timeline + [EntryOf(ev)])
  }

  function IngestedNode(n: Node, rules: Rules, loaded: bool, ev: Event): Node {
    n.(signs := NextSigns(n.signs, rules, loaded, ev),
       relations := NextRelations(n.relations, n.signs.touchedSensitive, rules, loaded, ev))
  }

  function Ingested(items: seq<Node>, rules: Rules, loaded: bool, ev: Event): seq<Node> {
    var there := WithProcess(items, ev.pid, ev.process);
    var k := IndexOf(there, ev.pid, 0);
    there[k := IngestedNode(there[k], rules, loaded, ev)]
  }

  // ----- the definition over the log -----

  function Pids(log: seq<Event>): seq<int> { if log == [] then [] else Pids(Init(log)) + [Last(log).pid] }

  /** The events of one process, in order. */
  function Sub(log: seq<Event>, pid: int): seq<Event> {
    if log == [] then []
    else if Last(log).pid == pid then Sub(Init(log), pid) + [Last(log)]
    else Sub(Init(log), pid)
  }

  /** The destinations that events contact, each its own and then the one the policy blocks. */
  function Contacts(rules: Rules, loaded: bool, sub: seq<Event>): seq<string> {
    if sub == [] then []
    else
      var own := Added(Contacts(rules, loaded, Init(sub)), Last(sub).dst);
      Added(own, MatchedDst(BlockedIn(rules, loaded, Last(sub))))
  }

  function SensitiveFiles(rules: Rules, loaded: bool, sub: seq<Event>): seq<string> {
    if sub == [] then []
    else SensitiveFiles(rules, loaded, Init(sub)) + if Touches(rules, loaded, Last(sub)) then [Last(sub).file] else []
  }

  function FilesOf(sub: seq<Event>): seq<string> {
    if sub == [] then [] else Added(FilesOf(Init(sub)), Last(sub).file)
  }

  function TypesOf(sub: seq<Event>): seq<string> {
    if sub == [] then [] else Added(TypesOf(Init(sub)), Last(sub).event)
  }

  function First(s: seq<string>): string { if s == [] then "" else s[0] }

  /** What an event can show about its process. */
  datatype Sign = WatchedName | SensitiveFile | BlockedContact | BlockedAs(kind: Kind)

  predicate Shows(rules: Rules, loaded: bool, ev: Event, sign: Sign) {
    match sign
    case WatchedName => loaded && rules.Watched(ev.process)
    case SensitiveFile => Touches(rules, loaded, ev)
    case BlockedContact => BlockedIn(rules, loaded, ev).Some?
    case BlockedAs(kind) => MatchedAs(BlockedIn(rules, loaded, ev), kind)
  }

  /** Whether some event shows a sign. */
  predicate Saw(rules: Rules, loaded: bool, sub: seq<Event>, sign: Sign) {
    sub != [] && (Saw(rules, loaded, Init(sub), sign) || Shows(rules, loaded, Last(sub), sign))
  }

  lemma {:induction false} SawIff(rules: Rules, loaded: bool, sub: seq<Event>, sign: Sign)
    ensures Saw(rules, loaded, sub, sign) <==> exists e :: e in sub && Shows(rules, loaded, e, sign)
  {
    if sub != [] {
      SawIff(rules, loaded, Init(sub), sign);
      assert sub == Init(sub) + [Last(sub)];
    }
  }

  function TimelineOf(sub: seq<Event>): seq<TimelineEntry> {
    seq(|sub|, i requires 0 <= i < |sub| => TimelineEntry(sub[i].time, sub[i].event, sub[i].file, sub[i].dst))
  }

  function SignsOf(rules: Rules, loaded: bool, sub: seq<Event>): Signs {
    Signs(Saw(rules, loaded, sub, WatchedName), Saw(rules, loaded, sub, SensitiveFile),
          Contacts(rules, loaded, sub) != [],
          Saw(rules, loaded, sub, BlockedContact), Saw(rules, loaded, sub, BlockedAs(Ip)),
          Saw(rules, loaded, sub, BlockedAs(Domain)))
  }

  function RelationsOf(rules: Rules, loaded: bool, sub: seq<Event>): Relations {
    Relations(|sub|, First(SensitiveFiles(rules, loaded, sub)), First(Contacts(rules, loaded, sub)),
              Distinct(TypesOf(sub)), Distinct(FilesOf(sub)), Distinct(Contacts(rules, loaded, sub)), TimelineOf(sub))
  }

  /** The node of a process, defined from its pid, the name it was first seen under, and its events. */
  function NodeFrom(pid: int, process: string, rules: Rules, loaded: bool, sub: seq<Event>): Node {
    Node(pid, SafeStr(process), SignsOf(rules, loaded, sub), RelationsOf(rules, loaded, sub),
         Risk(0, "none", []), false)
  }

  /** The node of a process, defined from its events alone. */
  function NodeOf(rules: Rules, loaded: bool, sub: seq<Event>): Node
    requires sub != []
  {
    NodeFrom(sub[0].pid, sub[0].process, rules, loaded, sub)
  }

  ghost predicate AllFit(log: seq<Event>) { forall e :: e in log ==> e.Fits() }

  /** The graph that ingesting a log leaves. */
  function GraphOf(rules: Rules, loaded: bool, log: seq<Event>): seq<Node> {
    if log == [] then [] else Ingested(GraphOf(rules, loaded, Init(log)), rules, loaded, Last(log))
  }

  /** One node per process, in order of first appearance. */
  ghost predicate IsGraphOf(items: seq<Node>, rules: Rules, loaded: bool, log: seq<Event>) {
    AreNodesOf(items, rules, loaded, log, Distinct(Pids(log)))
  }

  ghost predicate AreNodesOf(items: seq<Node>, rules: Rules, loaded: bool, log: seq<Event>, pids: seq<int>) {
    && |items| == |pids|
    && forall i :: 0 <= i < |pids| ==>
         Sub(log, pids[i]) != [] && items[i] == NodeOf(rules, loaded, Sub(log, pids[i]))
  }

  lemma DistinctAdded(s: seq<string>, v: string)
    ensures Distinct(Added(s, v)) == AddedUnique(Distinct(s), v)
  {
    DistinctElements(s);
    assert Init(s + [v]) == s;
  }

  lemma {:induction false} ContactsNonEmpty(rules: Rules, loaded: bool, sub: seq<Event>)
    ensures "" !in Contacts(rules, loaded, sub)
  {
    if sub != [] {
      ContactsNonEmpty(rules, loaded, Init(sub));
    }
  }

  lemma {:induction false} SensitiveFilesOf(rules: Rules, loaded: bool, sub: seq<Event>)
    ensures Saw(rules, loaded, sub, SensitiveFile) <==> SensitiveFiles(rules, loaded, sub) != []
  {
    if sub != [] {
      SensitiveFilesOf(rules, loaded, Init(sub));
    }
  }

  /** A process with a blocked contact has contacted something. */
  lemma {:induction false} BlockedContacts(rules: Rules, loaded: bool, sub: seq<Event>)
    ensures Saw(rules, loaded, sub, BlockedContact) ==> Contacts(rules, loaded, sub) != []
  {
    if sub != [] {
      BlockedContacts(rules, loaded, Init(sub));
    }
  }

  lemma FirstAdded(s: seq<string>, dst: string)
    requires "" !in s && |dst| < MAX_STR
    ensures First(Added(s, dst)) == FirstDst(First(s), dst)
  {
    assert s != [] ==> s[0] in s;
  }

  /** Contacting destinations one by one keeps the list distinct and its first entry first. */
  lemma ContactsStep(rules: Rules, loaded: bool, sub: seq<Event>, ev: Event)
    requires ev.Fits()
    ensures var before, after := Contacts(rules, loaded, sub), Contacts(rules, loaded, sub + [ev]);
            var m := MatchedDst(BlockedIn(rules, loaded, ev));
            && Distinct(after) == AddedUnique(AddedUnique(Distinct(before), ev.dst), m)
            && First(after) == FirstDst(FirstDst(First(before), ev.dst), m)
  {
    var before, m := Contacts(rules, loaded, sub), MatchedDst(BlockedIn(rules, loaded, ev));
    assert Init(sub + [ev]) == sub;
    ContactsNonEmpty(rules, loaded, sub);
    DistinctAdded(before, ev.dst);
    DistinctAdded(Added(before, ev.dst), m);
    FirstAdded(before, ev.dst);
    FirstAdded(Added(before, ev.dst), m);
  }

  lemma FilesStep(rules: Rules, loaded: bool, sub: seq<Event>, ev: Event)
    ensures Distinct(FilesOf(sub + [ev])) == AddedUnique(Distinct(FilesOf(sub)), ev.file)
    ensures Distinct(TypesOf(sub + [ev])) == AddedUnique(Distinct(TypesOf(sub)), ev.event)
    ensures First(SensitiveFiles(rules, loaded, sub + [ev])) ==
            if Touches(rules, loaded, ev) && !Saw(rules, loaded, sub, SensitiveFile) then ev.file
            else First(SensitiveFiles(rules, loaded, sub))
  {
    assert Init(sub + [ev]) == sub;
    DistinctAdded(FilesOf(sub), ev.file);
    DistinctAdded(TypesOf(sub), ev.event);
    SensitiveFilesOf(rules, loaded, sub);
  }

  lemma SawStep(rules: Rules, loaded: bool, sub: seq<Event>, ev: Event, sign: Sign)
    ensures Saw(rules, loaded, sub + [ev], sign) <==> Saw(rules, loaded, sub, sign) || Shows(rules, loaded, ev, sign)
  {
    assert Init(sub + [ev]) == sub;
  }

  lemma ConnectedStep(rules: Rules, loaded: bool, sub: seq<Event>, ev: Event)
    ensures Contacts(rules, loaded, sub + [ev]) != [] <==>
            Contacts(rules, loaded, sub) != [] || ev.dst != "" || BlockedIn(rules, loaded, ev).Some?
  {
    assert Init(sub + [ev]) == sub;
  }

  lemma SignsStep(rules: Rules, loaded: bool, sub: seq<Event>, ev: Event)
    requires ev.Fits()
    ensures NextSigns(SignsOf(rules, loaded, sub), rules, loaded, ev) == SignsOf(rules, loaded, sub + [ev])
  {
    SawStep(rules, loaded, sub, ev, WatchedName);
    SawStep(rules, loaded, sub, ev, SensitiveFile);
    SawStep(rules, loaded, sub, ev, BlockedContact);
    SawStep(rules, loaded, sub, ev, BlockedAs(Ip));
    SawStep(rules, loaded, sub, ev, BlockedAs(Domain));
    ConnectedStep(rules, loaded, sub, ev);
  }

  lemma RelationsFiles(rules: Rules, loaded: bool, sub: seq<Event>, ev: Event)
    requires ev.Fits()
    ensures var r, touched := RelationsOf(rules, loaded, sub), Saw(rules, loaded, sub, SensitiveFile);
            var a := NextRelations(r, touched, rules, loaded, ev);
            var b := RelationsOf(rules, loaded, sub + [ev]);
            a.files == b.files && a.eventTypes == b.eventTypes && a.firstSensitiveFile == b.firstSensitiveFile
  {
    FilesStep(rules, loaded, sub, ev);
  }

  lemma RelationsContacts(rules: Rules, loaded: bool, sub: seq<Event>, ev: Event)
    requires ev.Fits()
    ensures var r, touched := RelationsOf(rules, loaded, sub), Saw(rules, loaded, sub, SensitiveFile);
            var a := NextRelations(r, touched, rules, loaded, ev);
            var b := RelationsOf(rules, loaded, sub + [ev]);
            a.destinations == b.destinations && a.firstDst == b.firstDst
  {
    ContactsStep(rules, loaded, sub, ev);
  }

  lemma TimelineStep(sub: seq<Event>, ev: Event)
    requires ev.Fits()
    ensures TimelineOf(sub + [ev]) == TimelineOf(sub) + [EntryOf(ev)]
  {
  }

  lemma RelationsStep(rules: Rules, loaded: bool, sub: seq<Event>, ev: Event)
    requires ev.Fits()
    ensures NextRelations(RelationsOf(rules, loaded, sub), Saw(rules, loaded, sub, SensitiveFile), rules, loaded, ev) ==
            RelationsOf(rules, loaded, sub + [ev])
  {
    RelationsFiles(rules, loaded, sub, ev);
    RelationsContacts(rules, loaded, sub, ev);
    TimelineStep(sub, ev);
  }

  /** Ingesting one event turns the node of some events into the node of one more. */
  lemma NodeStep(pid: int, process: string, rules: Rules, loaded: bool, sub: seq<Event>, ev: Event)
    requires ev.Fits()
    ensures IngestedNode(NodeFrom(pid, process, rules, loaded, sub), rules, loaded, ev) ==
            NodeFrom(pid, process, rules, loaded, sub + [ev])
  {
    SignsStep(rules, loaded, sub, ev);
    RelationsStep(rules, loaded, sub, ev);
  }

  lemma {:induction false} SubProperties(log: seq<Event>, pid: int)
    ensures Sub(log, pid) != [] <==> pid in Pids(log)
    ensures Sub(log, pid) != [] ==> Sub(log, pid)[0].pid == pid
    ensures forall e :: e in Sub(log, pid) <==> e in log && e.pid == pid
  {
    if log != [] {
      SubProperties(Init(log), pid);
      assert log == Init(log) + [Last(log)];
    }
  }

  lemma LookupInGraph(items: seq<Node>, rules: Rules, loaded: bool, log: seq<Event>, pid: int)
    requires IsGraphOf(items, rules, loaded, log)
    ensures var pids, k := Distinct(Pids(log)), IndexOf(items, pid, 0);
            && (pid in pids ==> k < |pids| && pids[k] == pid)
            && (pid !in pids ==> k == |pids|)
            && forall i :: 0 <= i < |items| ==> items[i].pid == pids[i] && items[i].process != ""
  {
    var pids := Distinct(Pids(log));
    forall i | 0 <= i < |items|
      ensures items[i].pid == pids[i] && items[i].process != ""
    {
      SubProperties(log, pids[i]);
    }
    if pid in pids {
      var i :| 0 <= i < |pids| && pids[i] == pid;
      assert items[i].pid == pid;
    }
  }

  lemma LogStep(log: seq<Event>, ev: Event)
    ensures Pids(log + [ev]) == Pids(log) + [ev.pid]
    ensures Distinct(Pids(log + [ev])) ==
            if ev.pid in Distinct(Pids(log)) then Distinct(Pids(log)) else Distinct(Pids(log)) + [ev.pid]
  {
    assert Init(log + [ev]) == log;
    assert Init(Pids(log) + [ev.pid]) == Pids(log);
    DistinctElements(Pids(log));
  }

  lemma SubStep(log: seq<Event>, ev: Event, pid: int)
    ensures Sub(log + [ev], pid) == if ev.pid == pid then Sub(log, pid) + [ev] else Sub(log, pid)
  {
    assert Init(log + [ev]) == log;
  }

  /** The node of a process after its own event, and after that of another. */
  lemma OneNodeStep(rules: Rules, loaded: bool, log: seq<Event>, ev: Event, pid: int, n: Node)
    requires ev.Fits() && Sub(log, pid) != [] && n == NodeOf(rules, loaded, Sub(log, pid))
    ensures Sub(log + [ev], pid) != []
    ensures NodeOf(rules, loaded, Sub(log + [ev], pid)) ==
            if pid == ev.pid then IngestedNode(n, rules, loaded, ev) else n
  {
    SubStep(log, ev, pid);
    var sub := Sub(log, pid);
    if pid == ev.pid {
      NodeStep(sub[0].pid, sub[0].process, rules, loaded, sub, ev);
    }
  }

  /** An event changes the node of its process and no other. */
  lemma ReplacedNode(items: seq<Node>, rules: Rules, loaded: bool, log: seq<Event>, pids: seq<int>, ev: Event, k: nat)
    requires AreNodesOf(items, rules, loaded, log, pids) && NoDuplicates(pids) && ev.Fits()
    requires k < |pids| && pids[k] == ev.pid
    ensures AreNodesOf(items[k := IngestedNode(items[k], rules, loaded, ev)], rules, loaded, log + [ev], pids)
  {
    var after := items[k := IngestedNode(items[k], rules, loaded, ev)];
    forall i | 0 <= i < |pids|
      ensures Sub(log + [ev], pids[i]) != [] && after[i] == NodeOf(rules, loaded, Sub(log + [ev], pids[i]))
    {
      OneNodeStep(rules, loaded, log, ev, pids[i], items[i]);
    }
  }

  lemma KnownProcessStep(items: seq<Node>, rules: Rules, loaded: bool, log: seq<Event>, ev: Event)
    requires IsGraphOf(items, rules, loaded, log) && ev.Fits() && ev.pid in Distinct(Pids(log))
    ensures IsGraphOf(Ingested(items, rules, loaded, ev), rules, loaded, log + [ev])
  {
    LookupInGraph(items, rules, loaded, log, ev.pid);
    LogStep(log, ev);
    DistinctElements(Pids(log));
    ReplacedNode(items, rules, loaded, log, Distinct(Pids(log)), ev, IndexOf(items, ev.pid, 0));
  }

  lemma FirstNode(rules: Rules, loaded: bool, log: seq<Event>, ev: Event)
    requires ev.Fits() && ev.pid !in Pids(log)
    ensures Sub(log + [ev], ev.pid) != []
    ensures IngestedNode(NewNode(ev.pid, ev.process), rules, loaded, ev) ==
            NodeOf(rules, loaded, Sub(log + [ev], ev.pid))
  {
    SubProperties(log, ev.pid);
    SubStep(log, ev, ev.pid);
    NodeStep(ev.pid, ev.process, rules, loaded, [], ev);
    assert [] + [ev] == [ev];
    assert NewNode(ev.pid, ev.process) == NodeFrom(ev.pid, ev.process, rules, loaded, []);
  }

  lemma AppendedNode(items: seq<Node>, ev: Event)
    requires IndexOf(items, ev.pid, 0) == |items|
    ensures var there := WithProcess(items, ev.pid, ev.process);
            there == items + [NewNode(ev.pid, ev.process)] && IndexOf(there, ev.pid, 0) == |items|
  {
    var there := items + [NewNode(ev.pid, ev.process)];
    assert there[|items|].pid == ev.pid;
    assert forall j :: 0 <= j < |items| ==> there[j].pid == items[j].pid != ev.pid;
  }

  lemma IngestedNew(items: seq<Node>, rules: Rules, loaded: bool, ev: Event, blank: Node)
    requires IndexOf(items, ev.pid, 0) == |items| && blank == NewNode(ev.pid, ev.process)
    ensures Ingested(items, rules, loaded, ev) == items + [IngestedNode(blank, rules, loaded, ev)]
  {
    AppendedNode(items, ev);
    AppendReplaced(items, blank, IngestedNode(blank, rules, loaded, ev));
  }

  /** The nodes of other processes stay as they are. */
  lemma OtherNodesStay(items: seq<Node>, rules: Rules, loaded: bool, log: seq<Event>, pids: seq<int>, ev: Event)
    requires AreNodesOf(items, rules, loaded, log, pids) && ev.Fits() && ev.pid !in pids
    ensures AreNodesOf(items, rules, loaded, log + [ev], pids)
  {
    forall i | 0 <= i < |pids|
      ensures Sub(log + [ev], pids[i]) != [] && items[i] == NodeOf(rules, loaded, Sub(log + [ev], pids[i]))
    {
      OneNodeStep(rules, loaded, log, ev, pids[i], items[i]);
    }
  }

  lemma GrownNodes(items: seq<Node>, n: Node, rules: Rules, loaded: bool, log: seq<Event>, pids: seq<int>, pid: int)
    requires AreNodesOf(items, rules, loaded, log, pids)
    requires Sub(log, pid) != [] && n == NodeOf(rules, loaded, Sub(log, pid))
    ensures AreNodesOf(items + [n], rules, loaded, log, pids + [pid])
  {
  }

  lemma NewProcessStep(items: seq<Node>, rules: Rules, loaded: bool, log: seq<Event>, ev: Event)
    requires IsGraphOf(items, rules, loaded, log) && ev.Fits() && ev.pid !in Distinct(Pids(log))
    ensures IsGraphOf(Ingested(items, rules, loaded, ev), rules, loaded, log + [ev])
  {
    LookupInGraph(items, rules, loaded, log, ev.pid);
    DistinctElements(Pids(log));
    IngestedNew(items, rules, loaded, ev, NewNode(ev.pid, ev.process));
    FirstNode(rules, loaded, log, ev);
    LogStep(log, ev);
    OtherNodesStay(items, rules, loaded, log, Distinct(Pids(log)), ev);
    GrownNodes(items, IngestedNode(NewNode(ev.pid, ev.process), rules, loaded, ev), rules, loaded, log + [ev],
               Distinct(Pids(log)), ev.pid);
  }

  /** The incremental graph is the graph of the definition, after every log. */
  lemma {:induction false} GraphIsBatch(rules: Rules, loaded: bool, log: seq<Event>)
    requires AllFit(log)
    ensures IsGraphOf(GraphOf(rules, loaded, log), rules, loaded, log)
  {
    if log != [] {
      assert log == Init(log) + [Last(log)];
      GraphIsBatch(rules, loaded, Init(log));
      if Last(log).pid in Distinct(Pids(Init(log))) {
        KnownProcessStep(GraphOf(rules, loaded, Init(log)), rules, loaded, Init(log), Last(log));
      } else {
        NewProcessStep(GraphOf(rules, loaded, Init(log)), rules, loaded, Init(log), Last(log));
      }
    }
  }

  /** After an event was ingested, looking its process up changes nothing and finds the node just updated. */
  lemma Landed(items: seq<Node>, rules: Rules, loaded: bool, ev: Event)
    requires forall i :: 0 <= i < |items| ==> items[i].process != ""
    ensures var there := Ingested(items, rules, loaded, ev);
            && WithProcess(there, ev.pid, ev.process) == there
            && IndexOf(there, ev.pid, 0) == IndexOf(WithProcess(items, ev.pid, ev.process), ev.pid, 0) < |there|
  {
    SameIndex(Ingested(items, rules, loaded, ev), WithProcess(items, ev.pid, ev.process), ev.pid, 0);
  }

  /** The name of a node is that of the process's first event, or a dash if that has none. */
  lemma NodeName(rules: Rules, loaded: bool, log: seq<Event>, i: nat)
    requires AllFit(log) && i < |GraphOf(rules, loaded, log)|
    ensures var n := GraphOf(rules, loaded, log)[i];
            var sub := Sub(log, n.pid);
            sub != [] && n.process == if sub[0].process != "" then sub[0].process else "-"
  {
    GraphIsBatch(rules, loaded, log);
    SubProperties(log, Distinct(Pids(log))[i]);
  }

  // ----- the graph itself -----

  class ProcessGraph {
    var items: seq<Node>

    constructor ()
      ensures items == []
    {
      items := [];
    }

    method FindByPid(pid: int) returns (k: nat)
      ensures k == IndexOf(items, pid, 0)
    {
      k := 0;
      while k < |items| && items[k].pid != pid
        invariant k <= |items| && IndexOf(items, pid, k) == IndexOf(items, pid, 0)
      {
        k := k + 1;
      }
    }

    method GetOrAdd(pid: int, process: string) returns (k: nat)
      modifies this
      ensures items == WithProcess(old(items), pid, process)
      ensures k == IndexOf(items, pid, 0) < |items|
    {
      k := FindByPid(pid);
      if k < |items| {
        if process != "" && items[k].process == "" {
          items := items[k := items[k].(process := CopyTrunc(process, PROCESS_SIZE))];
          SameIndex(old(items), items, pid, 0);
        }
        return;
      }
      items := items + [NewNode(pid, process)];
      assert items[|items| - 1].pid == pid;
    }

    method Ingest(policy: Engine, loaded: bool, ev: Event)
      requires policy.Valid()
      modifies this
      ensures items == Ingested(old(items), policy.Abs(), loaded, ev)
    {
      ghost var rules := policy.Abs();
      var watched, sensitive, found := Observe(policy, loaded, ev);
      var k := GetOrAdd(ev.pid, ev.process);
      var n := NoteEvent(items[k], rules, loaded, ev, watched, sensitive, found);
      items := items[k := n];
    }
  }

  /** The node after an event, given what the policy says about the event. */
  method NoteEvent(n: Node, ghost rules: Rules, loaded: bool, ev: Event,
                   watched: bool, sensitive: bool, found: Option<Match>)
    returns (out: Node)
    requires watched <==> loaded && rules.Watched(ev.process)
    requires sensitive <==> Touches(rules, loaded, ev)
    requires found == BlockedIn(rules, loaded, ev)
    ensures out == IngestedNode(n, rules, loaded, ev)
  {
    var relations := NoteRelations(n.relations, n.signs.touchedSensitive, sensitive, found, ev);
    var signs := NoteSigns(n.signs, watched, sensitive, found, ev);
    out := n.(signs := signs, relations := relations);
  }

  /** What the policy says about an event. */
  method Observe(policy: Engine, loaded: bool, ev: Event) returns (watched: bool, sensitive: bool, found: Option<Match>)
    requires policy.Valid()
    ensures watched <==> loaded && policy.Abs().Watched(ev.process)
    ensures sensitive <==> Touches(policy.Abs(), loaded, ev)
    ensures found == BlockedIn(policy.Abs(), loaded, ev)
  {
    watched, sensitive, found := false, false, None;
    if loaded {
      watched := policy.IsWatchedProcess(ev.process);
      found := policy.FindBlocked(ev);
      if ev.file != "" {
        sensitive := policy.IsSensitiveFile(ev.file);
      }
    }
  }

  method NoteSigns(s: Signs, watched: bool, sensitive: bool, found: Option<Match>, ev: Event) returns (out: Signs)
    ensures out == Signs(s.watched || watched, s.touchedSensitive || sensitive,
                         s.connected || ev.dst != "" || found.Some?,
                         s.connectedBlocked || found.Some?,
                         s.connectedBlockedIp || MatchedAs(found, Ip),
                         s.connectedBlockedDomain || MatchedAs(found, Domain))
  {
    out := s;
    if sensitive {
      out := out.(touchedSensitive := true);
    }
    if ev.dst != "" {
      out := out.(connected := true);
    }
    if watched {
      out := out.(watched := true);
    }
    if found.Some? {
      out := out.(connected := true, connectedBlocked := true);
      if found.value.kind == Ip {
        out := out.(connectedBlockedIp := true);
      }
      if found.value.kind == Domain {
        out := out.(connectedBlockedDomain := true);
      }
    }
  }

  method NoteRelations(r: Relations, touched: bool, sensitive: bool, found: Option<Match>, ev: Event)
    returns (out: Relations)
    ensures out == Relations(
              r.eventsSeen + 1,
              if sensitive && !touched then CopyTrunc(ev.file, MAX_STR) else r.firstSensitiveFile,
              FirstDst(FirstDst(r.firstDst, ev.dst), MatchedDst(found)),
              AddedUnique(r.eventTypes, ev.event), AddedUnique(r.files, ev.file),
              AddedUnique(AddedUnique(r.destinations, ev.dst), MatchedDst(found)), r.timeline + [EntryOf(ev)])
  {
    var types := AddUnique(r.eventTypes, ev.event);
    var files := AddUnique(r.files, ev.file);
    out := r.(eventsSeen := r.eventsSeen + 1, timeline := r.timeline + [EntryOf(ev)],
              eventTypes := types, files := files);
    if sensitive && !touched {
      out := out.(firstSensitiveFile := CopyTrunc(ev.file, MAX_STR));
    }
    out := NoteDestination(out, ev.dst);
    if found.Some? {
      out := NoteDestination(out, found.value.dst);
    } else {
      assert AddedUnique(out.destinations, "") == out.destinations;
    }
  }

  method NoteDestination(r: Relations, dst: string) returns (out: Relations)
    ensures out == r.(destinations := AddedUnique(r.destinations, dst), firstDst := FirstDst(r.firstDst, dst))
  {
    var dsts := AddUnique(r.destinations, dst);
    out := r.(destinations := dsts);
    if dst != "" && r.firstDst == "" {
      out := out.(firstDst := CopyTrunc(dst, MAX_STR));
    }
  }

  lemma {:induction false} SameIndex(a: seq<Node>, b: seq<Node>, pid: int, i: nat)
    requires |a| == |b| && i <= |a| && forall j :: 0 <= j < |a| ==> a[j].pid == b[j].pid
    ensures IndexOf(a, pid, i) == IndexOf(b, pid, i)
    decreases |a| - i
  {
    if i < |a| {
      SameIndex(a, b, pid, i + 1);
    }
  }
}

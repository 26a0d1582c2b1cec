/** The risk score of a process: computed from its node, and what it depends on over the log. */
module Risk {
  import opened Base
  import opened Sorting
  import opened Events
  import opened Policy
  import G = Graph

  /** A threshold as the unsigned 64-bit number it is compared as. */
  function Threshold(t: int): int { if t < 0 then t + MAX_U64 + 1 else t }

  function Part(holds: bool, weight: int): int { if holds then weight else 0 }

  function RawScore(s: G.Signs, destinations: nat, events: nat, w: Weights): int {
    Part(s.watched, w.watchedProcess) +
    Part(s.touchedSensitive, w.sensitiveFile) +
    Part(s.connectedBlockedIp, w.blockedIp) +
    Part(s.connectedBlockedDomain, w.blockedDomain) +
    Part(s.touchedSensitive && s.connected, w.networkAfterFile) +
    Part(destinations >= Threshold(w.highUniqueDestinationThreshold), w.highUniqueDestinations) +
    Part(events >= Threshold(w.highEventVolumeThreshold), w.highEventVolume)
  }

  function Score(s: G.Signs, destinations: nat, events: nat, w: Weights): int {
    Min(RawScore(s, destinations, events, w), 100)
  }

  function Level(score: int): string {
    if score >= 80 then "critical"
    else if score >= 60 then "high"
    else if score >= 30 then "medium"
    else if score > 0 then "low"
    else "none"
  }

  function Reason(holds: bool, name: string): seq<string> { if holds then [name] else [] }

  function Reasons(s: G.Signs, destinations: nat, events: nat, w: Weights): seq<string> {
    Reason(s.watched, "watched_process") +
    Reason(s.touchedSensitive, "sensitive_file_access") +
    Reason(s.connectedBlockedIp, "blocked_ip_contact") +
    Reason(s.connectedBlockedDomain, "blocked_domain_contact") +
    Reason(s.touchedSensitive && s.connected, "network_after_file_access") +
    Reason(destinations >= Threshold(w.highUniqueDestinationThreshold), "high_unique_destinations") +
    Reason(events >= Threshold(w.highEventVolumeThreshold), "high_event_volume")
  }

  function NodeScore(n: G.Node, w: Weights): int {
    Score(n.signs, |n.relations.destinations|, n.relations.eventsSeen, w)
  }

  function WithRisk(n: G.Node, w: Weights): G.Node {
    var d, e := |n.relations.destinations|, n.relations.eventsSeen;
    n.(risk := G.Risk(Score(n.signs, d, e, w), Level(Score(n.signs, d, e, w)), Reasons(n.signs, d, e, w)))
  }

  method AddPart(score: int, reasons: seq<string>, holds: bool, weight: int, name: string)
    returns (newScore: int, newReasons: seq<string>)
    ensures newScore == score + Part(holds, weight) && newReasons == reasons + Reason(holds, name)
  {
    newScore, newReasons := score, reasons;
    if holds {
      newScore, newReasons := score + weight, reasons + [name];
    }
  }

  /** The computation with its running score and its list of reasons. */
  method ComputeRisk(n: G.Node, w: Weights) returns (out: G.Node)
    ensures out == WithRisk(n, w)
  {
    var s, d, e := n.signs, |n.relations.destinations|, n.relations.eventsSeen;
    var score, reasons := AddPart(0, [], s.watched, w.watchedProcess, "watched_process");
    assert reasons == Reason(s.watched, "watched_process");
    score, reasons := AddPart(score, reasons, s.touchedSensitive, w.sensitiveFile, "sensitive_file_access");
    score, reasons := AddPart(score, reasons, s.connectedBlockedIp, w.blockedIp, "blocked_ip_contact");
    score, reasons := AddPart(score, reasons, s.connectedBlockedDomain, w.blockedDomain, "blocked_domain_contact");
    score, reasons := AddPart(score, reasons, s.touchedSensitive && s.connected, w.networkAfterFile,
                             "network_after_file_access");
    score, reasons := AddPart(score, reasons, d >= Threshold(w.highUniqueDestinationThreshold),
                             w.highUniqueDestinations, "high_unique_destinations");
    score, reasons := AddPart(score, reasons, e >= Threshold(w.highEventVolumeThreshold), w.highEventVolume,
                             "high_event_volume");
    if score > 100 {
      score := 100;
    }
    out := n.(risk := G.Risk(score, Level(score), reasons));
  }

  // ----- the score over the log -----

  /** The score of a process after a log, from the definition of its node. */
  function ScoreOf(rules: Rules, sub: seq<Event>): int {
    Score(G.SignsOf(rules, true, sub), |Distinct(G.Contacts(rules, true, sub))|, |sub|, rules.weights)
  }

  lemma {:induction false} SubBag(log: seq<Event>, pid: int, e: Event)
    ensures multiset(G.Sub(log, pid))[e] == if e.pid == pid then multiset(log)[e] else 0
  {
    if log != [] {
      SubBag(Init(log), pid, e);
      assert log == Init(log) + [Last(log)];
    }
  }

  /** An event names a destination, or leads to it as the blocked one. */
  ghost predicate Meets(rules: Rules, e: Event, d: string) {
    d == e.dst || d == G.MatchedDst(G.BlockedIn(rules, true, e))
  }

  lemma {:induction false} ContactsOf(rules: Rules, sub: seq<Event>, d: string)
    ensures d in G.Contacts(rules, true, sub) <==> d != "" && exists e :: e in sub && Meets(rules, e, d)
  {
    if sub != [] {
      ContactsOf(rules, Init(sub), d);
      LastContacts(rules, sub, d);
      Rejoined(sub);
    }
  }

  lemma LastContacts(rules: Rules, sub: seq<Event>, d: string)
    requires sub != []
    ensures d in G.Contacts(rules, true, sub) <==>
            d in G.Contacts(rules, true, Init(sub)) || (d != "" && Meets(rules, Last(sub), d))
  {
  }

  lemma SignsFromMembers(rules: Rules, a: seq<Event>, b: seq<Event>)
    requires forall e :: e in a ==> e in b
    ensures forall sign :: G.Saw(rules, true, a, sign) ==> G.Saw(rules, true, b, sign)
    ensures Elements(G.Contacts(rules, true, a)) <= Elements(G.Contacts(rules, true, b))
  {
    forall sign | G.Saw(rules, true, a, sign)
      ensures G.Saw(rules, true, b, sign)
    {
      G.SawIff(rules, true, a, sign);
      G.SawIff(rules, true, b, sign);
    }
    forall d | d in G.Contacts(rules, true, a)
      ensures d in G.Contacts(rules, true, b)
    {
      ContactsOf(rules, a, d);
      ContactsOf(rules, b, d);
    }
  }

  lemma NoContacts(rules: Rules, sub: seq<Event>)
    ensures G.Contacts(rules, true, sub) != [] <==> Elements(G.Contacts(rules, true, sub)) != {}
  {
    var c := G.Contacts(rules, true, sub);
    assert c != [] ==> c[0] in Elements(c);
  }

  lemma SameBag(log: seq<Event>, reordered: seq<Event>, pid: int)
    requires multiset(log) == multiset(reordered)
    ensures multiset(G.Sub(log, pid)) == multiset(G.Sub(reordered, pid))
  {
    var a, b := G.Sub(log, pid), G.Sub(reordered, pid);
    forall e
      ensures multiset(a)[e] == multiset(b)[e]
    {
      SubBag(log, pid, e);
      SubBag(reordered, pid, e);
    }
  }

  lemma SameContacts(rules: Rules, a: seq<Event>, b: seq<Event>)
    requires Elements(G.Contacts(rules, true, a)) == Elements(G.Contacts(rules, true, b))
    ensures |Distinct(G.Contacts(rules, true, a))| == |Distinct(G.Contacts(rules, true, b))|
    ensures G.Contacts(rules, true, a) != [] <==> G.Contacts(rules, true, b) != []
  {
    NoContacts(rules, a);
    NoContacts(rules, b);
    DistinctSize(G.Contacts(rules, true, a));
    DistinctSize(G.Contacts(rules, true, b));
  }

  lemma SameMembers(rules: Rules, a: seq<Event>, b: seq<Event>)
    requires forall e :: e in a <==> e in b
    ensures G.SignsOf(rules, true, a) == G.SignsOf(rules, true, b)
    ensures |Distinct(G.Contacts(rules, true, a))| == |Distinct(G.Contacts(rules, true, b))|
  {
    SignsFromMembers(rules, a, b);
    SignsFromMembers(rules, b, a);
    SameContacts(rules, a, b);
  }

  /** The final score of every process depends on the multiset of events only: any reordering of the log
      leaves its signs, its event count, its number of destinations and its score unchanged. */
  lemma OrderIrrelevant(rules: Rules, log: seq<Event>, reordered: seq<Event>, pid: int)
    requires multiset(log) == multiset(reordered)
    ensures var a, b := G.Sub(log, pid), G.Sub(reordered, pid);
            && |a| == |b|
            && G.SignsOf(rules, true, a) == G.SignsOf(rules, true, b)
            && |Distinct(G.Contacts(rules, true, a))| == |Distinct(G.Contacts(rules, true, b))|
            && ScoreOf(rules, a) == ScoreOf(rules, b)
  {
    SameBag(log, reordered, pid);
    PermutationMembers(G.Sub(log, pid), G.Sub(reordered, pid));
    SameMembers(rules, G.Sub(log, pid), G.Sub(reordered, pid));
  }

  // ----- the score in closed form -----

  ghost predicate WasWatched(rules: Rules, log: seq<Event>, pid: int) {
    exists e :: e in log && e.pid == pid && rules.Watched(e.process)
  }

  ghost predicate TouchedSensitive(rules: Rules, log: seq<Event>, pid: int) {
    exists e :: e in log && e.pid == pid && e.file != "" && rules.Sensitive(e.file)
  }

  ghost predicate MetBlocked(rules: Rules, log: seq<Event>, pid: int, kind: Kind) {
    exists e :: e in log && e.pid == pid && BlockedDestination(rules, e).Some? &&
      BlockedDestination(rules, e).value.kind == kind
  }

  /** The destinations of a process: those its events name, and the blocked ones found in them. */
  function Contacted(rules: Rules, log: seq<Event>, pid: int): set<string> {
    (set e | e in log && e.pid == pid && e.dst != "" :: e.dst) +
    (set e | e in log && e.pid == pid && BlockedDestination(rules, e).Some? :: BlockedDestination(rules, e).value.dst)
  }

  /** A threshold that is met; a negative one never is, being compared as an unsigned number. */
  predicate Reaches(n: nat, threshold: int) { 0 <= threshold <= n }

  /** The seven weights, each under its condition. */
  ghost function Worth(rules: Rules, log: seq<Event>, pid: int): int {
    var w, sub := rules.weights, G.Sub(log, pid);
    var contacted := Contacted(rules, log, pid);
    (if WasWatched(rules, log, pid) then w.watchedProcess else 0) +
    (if TouchedSensitive(rules, log, pid) then w.sensitiveFile else 0) +
    (if MetBlocked(rules, log, pid, Ip) then w.blockedIp else 0) +
    (if MetBlocked(rules, log, pid, Domain) then w.blockedDomain else 0) +
    (if TouchedSensitive(rules, log, pid) && contacted != {} then w.networkAfterFile else 0) +
    (if Reaches(|contacted|, w.highUniqueDestinationThreshold) then w.highUniqueDestinations else 0) +
    (if Reaches(|sub|, w.highEventVolumeThreshold) then w.highEventVolume else 0)
  }

  /** The thresholds are 32-bit integers. */
  predicate ThresholdsFit(w: Weights) {
    w.highUniqueDestinationThreshold >= -0x8000_0000 && w.highEventVolumeThreshold >= -0x8000_0000
  }

  lemma ThresholdMeans(n: nat, t: int)
    requires n < 0x8000_0000_0000_0000 && t >= -0x8000_0000
    ensures n >= Threshold(t) <==> Reaches(n, t)
  {
  }

  lemma SignsMean(rules: Rules, log: seq<Event>, pid: int)
    ensures var s := G.SignsOf(rules, true, G.Sub(log, pid));
            && (s.watched <==> WasWatched(rules, log, pid))
            && (s.touchedSensitive <==> TouchedSensitive(rules, log, pid))
            && (s.connectedBlockedIp <==> MetBlocked(rules, log, pid, Ip))
            && (s.connectedBlockedDomain <==> MetBlocked(rules, log, pid, Domain))
  {
    var sub := G.Sub(log, pid);
    G.SubProperties(log, pid);
    G.SawIff(rules, true, sub, G.WatchedName);
    G.SawIff(rules, true, sub, G.SensitiveFile);
    G.SawIff(rules, true, sub, G.BlockedAs(Ip));
    G.SawIff(rules, true, sub, G.BlockedAs(Domain));
  }

  lemma ContactsAre(rules: Rules, log: seq<Event>, pid: int)
    ensures Elements(G.Contacts(rules, true, G.Sub(log, pid))) == Contacted(rules, log, pid)
  {
    var contacts := G.Contacts(rules, true, G.Sub(log, pid));
    G.SubProperties(log, pid);
    forall d
      ensures d in contacts <==> d in Contacted(rules, log, pid)
    {
      ContactsOf(rules, G.Sub(log, pid), d);
    }
  }

  lemma ContactCount(rules: Rules, log: seq<Event>, pid: int)
    ensures var contacts := G.Contacts(rules, true, G.Sub(log, pid));
            && |Distinct(contacts)| == |Contacted(rules, log, pid)|
            && (contacts != [] <==> Contacted(rules, log, pid) != {})
  {
    ContactsAre(rules, log, pid);
    NoContacts(rules, G.Sub(log, pid));
    DistinctSize(G.Contacts(rules, true, G.Sub(log, pid)));
  }

  lemma {:induction false} SubIsShort(log: seq<Event>, pid: int)
    ensures |G.Sub(log, pid)| <= |log|
  {
    if log != [] {
      SubIsShort(Init(log), pid);
    }
  }

  lemma {:induction false} ContactsAtMost(rules: Rules, sub: seq<Event>)
    ensures |G.Contacts(rules, true, sub)| <= 2 * |sub|
  {
    if sub != [] {
      ContactsAtMost(rules, Init(sub));
    }
  }

  /** The score of a process, from its events alone: the seven weights whose conditions they meet, at most
      a hundred. */
  lemma ScoreInClosedForm(rules: Rules, log: seq<Event>, pid: int)
    requires ThresholdsFit(rules.weights) && |log| < 0x4000_0000_0000_0000
    ensures ScoreOf(rules, G.Sub(log, pid)) == Min(100, Worth(rules, log, pid))
  {
    var w, sub := rules.weights, G.Sub(log, pid);
    SignsMean(rules, log, pid);
    ContactCount(rules, log, pid);
    SubIsShort(log, pid);
    ContactsAtMost(rules, sub);
    DistinctElements(G.Contacts(rules, true, sub));
    ThresholdMeans(|Contacted(rules, log, pid)|, w.highUniqueDestinationThreshold);
    ThresholdMeans(|sub|, w.highEventVolumeThreshold);
  }

  /** Under the default weights. */
  lemma DefaultScore(rules: Rules, log: seq<Event>, pid: int)
    requires rules.weights == DefaultWeights() && |log| < 0x4000_0000_0000_0000
    ensures var contacted := Contacted(rules, log, pid);
            ScoreOf(rules, G.Sub(log, pid)) ==
            Min(100, (if WasWatched(rules, log, pid) then 10 else 0) +
                     (if TouchedSensitive(rules, log, pid) then 25 else 0) +
                     (if MetBlocked(rules, log, pid, Ip) then 35 else 0) +
                     (if MetBlocked(rules, log, pid, Domain) then 35 else 0) +
                     (if TouchedSensitive(rules, log, pid) && contacted != {} then 30 else 0) +
                     (if |contacted| >= 10 then 15 else 0) + (if |G.Sub(log, pid)| >= 100 then 10 else 0))
  {
    ScoreInClosedForm(rules, log, pid);
  }

  /** The five level bands. */
  lemma LevelBands(score: int)
    ensures score <= 0 <==> Level(score) == "none"
    ensures 0 < score < 30 <==> Level(score) == "low"
    ensures 30 <= score < 60 <==> Level(score) == "medium"
    ensures 60 <= score < 80 <==> Level(score) == "high"
    ensures 80 <= score <==> Level(score) == "critical"
  {
    assert "none" != "low" && "none" != "medium" && "none" != "high" && "none" != "critical";
    assert "low" != "medium" && "low" != "high" && "low" != "critical";
    assert "medium" != "high" && "medium" != "critical" && "high" != "critical";
  }

  /** The weight that a listed reason stands for. */
  function WeightOf(reason: string, w: Weights): int {
    if reason == "watched_process" then w.watchedProcess
    else if reason == "sensitive_file_access" then w.sensitiveFile
    else if reason == "blocked_ip_contact" then w.blockedIp
    else if reason == "blocked_domain_contact" then w.blockedDomain
    else if reason == "network_after_file_access" then w.networkAfterFile
    else if reason == "high_unique_destinations" then w.highUniqueDestinations
    else if reason == "high_event_volume" then w.highEventVolume
    else 0
  }

  function SumOfWeights(reasons: seq<string>, w: Weights): int {
    if reasons == [] then 0 else SumOfWeights(Init(reasons), w) + WeightOf(Last(reasons), w)
  }

  lemma ReasonAdds(reasons: seq<string>, holds: bool, name: string, w: Weights)
    ensures SumOfWeights(reasons + Reason(holds, name), w) ==
            SumOfWeights(reasons, w) + if holds then WeightOf(name, w) else 0
  {
    if holds {
      assert Init(reasons + [name]) == reasons;
    } else {
      assert reasons + [] == reasons;
    }
  }

  lemma NamedWeights(w: Weights)
    ensures WeightOf("watched_process", w) == w.watchedProcess
    ensures WeightOf("sensitive_file_access", w) == w.sensitiveFile
    ensures WeightOf("blocked_ip_contact", w) == w.blockedIp
    ensures WeightOf("blocked_domain_contact", w) == w.blockedDomain
    ensures WeightOf("network_after_file_access", w) == w.networkAfterFile
    ensures WeightOf("high_unique_destinations", w) == w.highUniqueDestinations
    ensures WeightOf("high_event_volume", w) == w.highEventVolume
  {
  }

  lemma ReasonWeight(holds: bool, name: string, w: Weights)
    ensures SumOfWeights(Reason(holds, name), w) == Part(holds, WeightOf(name, w))
  {
    ReasonAdds([], holds, name, w);
    assert [] + Reason(holds, name) == Reason(holds, name);
  }

  lemma {:induction false} WeightsAppend(a: seq<string>, b: seq<string>, w: Weights)
    ensures SumOfWeights(a + b, w) == SumOfWeights(a, w) + SumOfWeights(b, w)
  {
    if b == [] {
      assert a + b == a;
    } else {
      WeightsAppend(a, Init(b), w);
      assert Init(a + b) == a + Init(b);
    }
  }

  lemma SevenAppend(a: seq<string>, b: seq<string>, c: seq<string>, d: seq<string>, e: seq<string>,
                    f: seq<string>, g: seq<string>, w: Weights)
    ensures SumOfWeights(a + b + c + d + e + f + g, w) ==
            SumOfWeights(a, w) + SumOfWeights(b, w) + SumOfWeights(c, w) + SumOfWeights(d, w) +
            SumOfWeights(e, w) + SumOfWeights(f, w) + SumOfWeights(g, w)
  {
    WeightsAppend(a, b, w);
    WeightsAppend(a + b, c, w);
    WeightsAppend(a + b + c, d, w);
    WeightsAppend(a + b + c + d, e, w);
    WeightsAppend(a + b + c + d + e, f, w);
    WeightsAppend(a + b + c + d + e + f, g, w);
  }

  lemma ReasonsWeigh(s: G.Signs, d: nat, e: nat, w: Weights)
    ensures SumOfWeights(Reasons(s, d, e, w), w) == RawScore(s, d, e, w)
  {
    var many, busy := d >= Threshold(w.highUniqueDestinationThreshold), e >= Threshold(w.highEventVolumeThreshold);
    NamedWeights(w);
    SevenAppend(Reason(s.watched, "watched_process"), Reason(s.touchedSensitive, "sensitive_file_access"),
                Reason(s.connectedBlockedIp, "blocked_ip_contact"),
                Reason(s.connectedBlockedDomain, "blocked_domain_contact"),
                Reason(s.touchedSensitive && s.connected, "network_after_file_access"),
                Reason(many, "high_unique_destinations"), Reason(busy, "high_event_volume"), w);
    ReasonWeight(s.watched, "watched_process", w);
    ReasonWeight(s.touchedSensitive, "sensitive_file_access", w);
    ReasonWeight(s.connectedBlockedIp, "blocked_ip_contact", w);
    ReasonWeight(s.connectedBlockedDomain, "blocked_domain_contact", w);
    ReasonWeight(s.touchedSensitive && s.connected, "network_after_file_access", w);
    ReasonWeight(many, "high_unique_destinations", w);
    ReasonWeight(busy, "high_event_volume", w);
  }

  /** The listed reasons account for the score: their weights add up to it, up to the cap. */
  lemma ReasonsExplainScore(n: G.Node, w: Weights)
    ensures var risk := WithRisk(n, w).risk;
            risk.score == Min(100, SumOfWeights(risk.reasons, w)) && risk.level == Level(risk.score)
  {
    ReasonsWeigh(n.signs, |n.relations.destinations|, n.relations.eventsSeen, w);
  }

  ghost predicate NonNegative(w: Weights) {
    && w.watchedProcess >= 0 && w.sensitiveFile >= 0 && w.blockedIp >= 0 && w.blockedDomain >= 0
    && w.networkAfterFile >= 0 && w.highUniqueDestinations >= 0 && w.highEventVolume >= 0
  }

  /** A further event, of whatever process, never lowers a score when no weight is negative. */
  lemma ScoreNeverDrops(rules: Rules, log: seq<Event>, ev: Event, pid: int)
    requires NonNegative(rules.weights)
    ensures ScoreOf(rules, G.Sub(log, pid)) <= ScoreOf(rules, G.Sub(log + [ev], pid))
  {
    G.SubStep(log, ev, pid);
    var a, b := G.Sub(log, pid), G.Sub(log + [ev], pid);
    SignsFromMembers(rules, a, b);
    NoContacts(rules, a);
    NoContacts(rules, b);
    DistinctSize(G.Contacts(rules, true, a));
    DistinctSize(G.Contacts(rules, true, b));
    SubsetSize(Elements(G.Contacts(rules, true, a)), Elements(G.Contacts(rules, true, b)));
  }

  /** Scores only grow along a log. */
  lemma {:induction false} ScoreOfPrefix(rules: Rules, log: seq<Event>, n: nat, pid: int)
    requires NonNegative(rules.weights) && n <= |log|
    ensures ScoreOf(rules, G.Sub(log[..n], pid)) <= ScoreOf(rules, G.Sub(log, pid))
  {
    if n == |log| {
      assert log[..n] == log;
    } else {
      var front := Init(log);
      ScoreOfPrefix(rules, front, n, pid);
      assert front[..n] == log[..n];
      assert front + [Last(log)] == log;
      ScoreNeverDrops(rules, front, Last(log), pid);
    }
  }

  // ----- correlated processes -----

  /** The process both touched a sensitive file and contacted a blocked destination, in either order. */
  predicate Correlated(rules: Rules, sub: seq<Event>) {
    G.Saw(rules, true, sub, G.SensitiveFile) && G.Saw(rules, true, sub, G.BlockedContact)
  }

  lemma {:induction false} BlockedHasKind(rules: Rules, sub: seq<Event>)
    ensures G.Saw(rules, true, sub, G.BlockedContact) <==>
            G.Saw(rules, true, sub, G.BlockedAs(Ip)) || G.Saw(rules, true, sub, G.BlockedAs(Domain))
  {
    if sub != [] {
      BlockedHasKind(rules, Init(sub));
    }
  }

  /** A correlated process scores at least what the correlation alone is worth. */
  lemma CorrelatedScore(rules: Rules, sub: seq<Event>)
    requires NonNegative(rules.weights) && Correlated(rules, sub)
    ensures var w := rules.weights;
            ScoreOf(rules, sub) >= Min(100, w.sensitiveFile + Min(w.blockedIp, w.blockedDomain) + w.networkAfterFile)
  {
    BlockedHasKind(rules, sub);
    G.BlockedContacts(rules, true, sub);
  }

  /** Under the default weights a correlated process ends with level "critical". */
  lemma CorrelatedIsCritical(rules: Rules, sub: seq<Event>)
    requires rules.weights == DefaultWeights() && Correlated(rules, sub)
    ensures Level(ScoreOf(rules, sub)) == "critical"
  {
    CorrelatedScore(rules, sub);
  }

  // ----- the sorted summary -----

  predicate RiskBefore(a: G.Node, b: G.Node) {
    || a.risk.score > b.risk.score
    || (a.risk.score == b.risk.score && a.pid < b.pid)
    || (a.risk.score == b.risk.score && a.pid == b.pid && StrLe(a.process, b.process))
  }

  lemma RiskBeforeTotal()
    ensures TotalOrder(RiskBefore)
  {
    forall x, y
      ensures RiskBefore(x, y) || RiskBefore(y, x)
    {
      StrLeTotal(x.process, y.process);
    }
    forall x, y, z | RiskBefore(x, y) && RiskBefore(y, z)
      ensures RiskBefore(x, z)
    {
      if x.risk.score == z.risk.score && x.pid == z.pid {
        StrLeTransitive(x.process, y.process, z.process);
      }
    }
  }

  function Risky(items: seq<G.Node>): seq<G.Node> {
    if items == [] then [] else Risky(Init(items)) + if Last(items).risk.score > 0 then [Last(items)] else []
  }

  lemma {:induction false} RiskyAre(items: seq<G.Node>, n: G.Node)
    ensures multiset(Risky(items))[n] == if n.risk.score > 0 then multiset(items)[n] else 0
  {
    if items != [] {
      RiskyAre(Init(items), n);
      Rejoined(items);
    }
  }

  /** The summary holds every node with a positive score, as often as the graph, and no other; higher scores
      come first, and among equal ones lower pids. */
  lemma SummaryIsRanked(items: seq<G.Node>, nodes: seq<G.Node>)
    requires SortOf(RiskBefore, Risky(items), nodes)
    ensures forall n :: multiset(nodes)[n] == if n.risk.score > 0 then multiset(items)[n] else 0
    ensures forall i, j :: 0 <= i < j < |nodes| ==>
              || nodes[i].risk.score > nodes[j].risk.score
              || (nodes[i].risk.score == nodes[j].risk.score && nodes[i].pid <= nodes[j].pid)
  {
    forall n
      ensures multiset(nodes)[n] == if n.risk.score > 0 then multiset(items)[n] else 0
    {
      RiskyAre(items, n);
    }
    forall i, j | 0 <= i < j < |nodes|
      ensures || nodes[i].risk.score > nodes[j].risk.score
              || (nodes[i].risk.score == nodes[j].risk.score && nodes[i].pid <= nodes[j].pid)
    {
      assert RiskBefore(nodes[i], nodes[j]);
    }
  }

  method BuildSortedRiskNodes(items: seq<G.Node>) returns (nodes: seq<G.Node>)
    ensures SortOf(RiskBefore, Risky(items), nodes)
  {
    var found: seq<G.Node> := [];
    for i := 0 to |items|
      invariant found == Risky(items[..i])
    {
      assert Init(items[..i + 1]) == items[..i];
      if items[i].risk.score > 0 {
        found := found + [items[i]];
      }
    }
    assert items[..|items|] == items;
    RiskBeforeTotal();
    SortSorts(RiskBefore, found);
    nodes := Sort(RiskBefore, found);
  }
}

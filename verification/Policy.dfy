/** The policy: lists read from JSON, their Bloom prefilters, and the decisions taken from both. */
module Policy {
  import opened Base
  import opened Text
  import opened JsonText
  import opened BloomFilter
  import opened Events

  const BLOOM_BITS: nat := 1048576
  const BLOOM_HASHES: nat := 7

  // ----- what a policy says -----

  datatype Weights = Weights(
    watchedProcess: int, sensitiveFile: int, blockedIp: int, blockedDomain: int, networkAfterFile: int,
    highUniqueDestinations: int, highEventVolume: int,
    highUniqueDestinationThreshold: int, highEventVolumeThreshold: int)

  function DefaultWeights(): Weights { Weights(10, 25, 35, 35, 30, 15, 10, 10, 100) }

  /** Whether a shell pattern matches a value, as the C library decides it. */
  type Glob = (string, string) -> bool

  datatype Rules = Rules(
    sensitiveFiles: seq<string>, sensitivePatterns: seq<string>,
    blockedDomains: seq<string>, blockedIps: seq<string>, watchedProcesses: seq<string>,
    glob: Glob, weights: Weights)
  {
    predicate Watched(process: string) { process != "" && process in watchedProcesses }

    predicate Sensitive(file: string) {
      (file != "" && file in sensitiveFiles) || exists p :: p in sensitivePatterns && glob(p, file)
    }

    predicate BlockedIp(d: string) { d != "" && d in blockedIps }

    predicate BlockedDomain(d: string) { d != "" && d in blockedDomains }

    predicate Blocked(d: string) { BlockedIp(d) || BlockedDomain(d) }
  }

  datatype Kind = Ip | Domain

  datatype Match = Match(dst: string, kind: Kind)

  predicate DigitsAndDots(s: string) { forall i :: 0 <= i < |s| ==> IsDigit(s[i]) || s[i] == '.' }

  predicate LooksLikeIp(s: string) { s != "" && DigitsAndDots(s) && '.' in s }

  predicate LooksLikeDomain(s: string) { s != "" && '.' in s && !DigitsAndDots(s) }

  /** How a blocked destination counts: an entry of both lists counts as domain only if it looks like one. */
  function KindOf(rules: Rules, d: string): Kind {
    if rules.BlockedIp(d) && !(rules.BlockedDomain(d) && LooksLikeDomain(d)) then Ip else Domain
  }

  /** The blocked destination of an event: the first of destination, address and domain that is listed. */
  function BlockedDestination(rules: Rules, ev: Event): (found: Option<Match>)
    ensures found.Some? ==>
              if found.value.kind == Ip then rules.BlockedIp(found.value.dst)
              else rules.BlockedDomain(found.value.dst)
  {
    if rules.Blocked(ev.dst) then Some(Match(ev.dst, KindOf(rules, ev.dst)))
    else if rules.Blocked(ev.ip) then Some(Match(ev.ip, KindOf(rules, ev.ip)))
    else if rules.Blocked(ev.domain) then Some(Match(ev.domain, KindOf(rules, ev.domain)))
    else None
  }

  // ----- arrays of strings in the policy text -----

  lemma {:induction false} BodyShrinks(t: string)
    ensures ReadBody(t).closed ==> |ReadBody(t).rest| < |t|
  {
    if t != "" && t[0] != '"' {
      BodyShrinks(if t[0] == '\\' && |t| > 1 then t[2..] else t[1..]);
    }
  }

  lemma {:induction false} SkipWsShrinks(t: string)
    ensures |SkipWs(t)| <= |t|
  {
    if t != "" && IsSpace(t[0]) {
      SkipWsShrinks(t[1..]);
    }
  }

  /** The strings of an array, from after its bracket to its end or to the first thing that is no string. */
  function ArrayValues(t: string): seq<string>
    decreases |t|
  {
    var u := SkipWs(t);
    SkipWsShrinks(t);
    if u == "" || u[0] == ']' then []
    else if u[0] == ',' then ArrayValues(u[1..])
    else if u[0] == '"' && ReadBody(u[1..]).closed then
      BodyShrinks(u[1..]);
      [CopyTrunc(ReadBody(u[1..]).text, MAX_STR)] + ArrayValues(ReadBody(u[1..]).rest)
    else []
  }

  /** The strings of the array that follows the first occurrence of a quoted key. */
  function PolicyValues(json: string, key: string): seq<string> {
    match Find(json, Needle(key))
    case None => []
    case Some(p) =>
      match After(p, '[')
      case None => []
      case Some(t) => ArrayValues(t)
  }

  predicate ContainsGlob(s: string) { '*' in s || '?' in s || '[' in s }

  /** The values that become patterns, when the list keeps patterns apart. */
  function PatternsOf(values: seq<string>): seq<string> {
    if values == [] then []
    else PatternsOf(Init(values)) + if ContainsGlob(Last(values)) then [Last(values)] else []
  }

  /** The values that become exact entries. */
  function ExactOf(values: seq<string>, patterns: bool): seq<string> {
    if values == [] then []
    else if patterns && ContainsGlob(Last(values)) then ExactOf(Init(values), patterns)
    else Added(ExactOf(Init(values), patterns), Last(values))
  }

  /** A weight in the policy text, clamped to a million either way; absent or unreadable it stays as it was. */
  function LoadedInt(json: string, key: string, current: int): int {
    match GetLong(json, key)
    case None => current
    case Some(v) => Max(-1000000, Min(1000000, v))
  }

  function LoadedWeights(w: Weights, json: string): Weights {
    Weights(LoadedInt(json, "watched_process", w.watchedProcess),
            LoadedInt(json, "sensitive_file", w.sensitiveFile),
            LoadedInt(json, "blocked_ip", w.blockedIp),
            LoadedInt(json, "blocked_domain", w.blockedDomain),
            LoadedInt(json, "network_after_file", w.networkAfterFile),
            LoadedInt(json, "high_unique_destinations", w.highUniqueDestinations),
            LoadedInt(json, "high_event_volume", w.highEventVolume),
            LoadedInt(json, "high_unique_destination_threshold", w.highUniqueDestinationThreshold),
            LoadedInt(json, "high_event_volume_threshold", w.highEventVolumeThreshold))
  }

  /** The rules after a policy text was read on top of them. */
  function LoadedRules(r: Rules, json: string): Rules {
    var files := PolicyValues(json, "sensitive_files");
    Rules(r.sensitiveFiles + ExactOf(files, true),
          r.sensitivePatterns + PatternsOf(files),
          r.blockedDomains + ExactOf(PolicyValues(json, "blocked_domains"), false),
          r.blockedIps + ExactOf(PolicyValues(json, "blocked_ips"), false),
          r.watchedProcesses + ExactOf(PolicyValues(json, "watched_processes"), false),
          r.glob, LoadedWeights(r.weights, json))
  }

  // ----- one list and its prefilter -----

  class PolicyList {
    var exact: seq<string>
    var patterns: seq<string>
    const bloom: Bloom

    ghost predicate Valid()
      reads this, bloom, bloom.bits
    {
      bloom.Valid() && bloom.bits[..] == bloom.shape.WithAll(exact)
    }

    constructor (hash: DoubleHash)
      ensures Valid() && exact == [] && patterns == []
      ensures fresh(bloom) && fresh(bloom.bits) && bloom.shape == Shape(hash, 1048576, 7)
    {
      exact, patterns := [], [];
      bloom := new Bloom(hash, BLOOM_BITS, BLOOM_HASHES);
    }

    method AddExact(value: string)
      requires Valid()
      modifies this, bloom, bloom.bits
      ensures Valid() && exact == Added(old(exact), value) && patterns == old(patterns)
    {
      bloom.Add(value);
      if value != "" {
        exact := exact + [value];
        assert Init(exact) == old(exact);
      }
    }

    method Keep(value: string, keepPatterns: bool)
      requires Valid()
      modifies this, bloom, bloom.bits
      ensures Valid()
      ensures exact == if keepPatterns && ContainsGlob(value) then old(exact) else Added(old(exact), value)
      ensures patterns == if keepPatterns && ContainsGlob(value) then old(patterns) + [value] else old(patterns)
    {
      if keepPatterns && ContainsGlob(value) {
        patterns := patterns + [value];
      } else {
        AddExact(value);
      }
    }

    /** Reads the array of a key; `keepPatterns` says whether values with wildcards are kept apart. */
    method ParseArray(json: string, key: string, keepPatterns: bool)
      requires Valid()
      modifies this, bloom, bloom.bits
      ensures Valid()
      ensures exact == old(exact) + ExactOf(PolicyValues(json, key), keepPatterns)
      ensures patterns == old(patterns) + if keepPatterns then PatternsOf(PolicyValues(json, key)) else []
    {
      var found := Find(json, Needle(key));
      if found.None? {
        return;
      }
      var start := After(found.value, '[');
      if start.None? {
        return;
      }
      var text, p := start.value, 0;
      ghost var seen: seq<string> := [];
      assert text[0..] == text;
      while true
        invariant p <= |text| && Valid()
        invariant ArrayValues(text) == seen + ArrayValues(text[p..])
        invariant exact == old(exact) + ExactOf(seen, keepPatterns)
        invariant patterns == old(patterns) + if keepPatterns then PatternsOf(seen) else []
        decreases |text| - p
      {
        var value, next := NextValue(text, p);
        if value.None? {
          assert ArrayValues(text) == seen;
          return;
        }
        Keep(value.value, keepPatterns);
        Associative(seen, [value.value], ArrayValues(text[next..]));
        KeptStep(old(exact), seen, value.value, keepPatterns);
        KeptPattern(old(patterns), seen, value.value);
        seen := seen + [value.value];
        p := next;
      }
    }

    /** Exact matching behind the prefilter. */
    method MatchesExact(value: string) returns (matched: bool)
      requires Valid()
      ensures matched <==> value != "" && value in exact
    {
      if value == "" {
        return false;
      }
      var possible := bloom.MightContain(value);
      if !possible {
        if value in exact {
          bloom.shape.NoFalseNegatives(exact, value);
        }
        return false;
      }
      matched := ContainsExact(exact, value);
    }

    method MatchesPattern(glob: Glob, value: string) returns (matched: bool)
      ensures matched <==> exists p :: p in patterns && glob(p, value)
    {
      for i := 0 to |patterns|
        invariant forall j :: 0 <= j < i ==> !glob(patterns[j], value)
      {
        if glob(patterns[i], value) {
          return true;
        }
      }
      matched := false;
    }
  }

  method SkipWsFrom(text: string, cursor: nat) returns (p: nat)
    requires cursor <= |text|
    ensures cursor <= p <= |text| && text[p..] == SkipWs(text[cursor..])
    ensures p < |text| ==> !IsSpace(text[p])
  {
    p := cursor;
    while p < |text| && IsSpace(text[p])
      invariant cursor <= p <= |text|
      invariant SkipWs(text[p..]) == SkipWs(text[cursor..])
    {
      assert text[p..][1..] == text[p + 1..];
      p := p + 1;
    }
  }

  lemma KeptStep(base: seq<string>, seen: seq<string>, value: string, patterns: bool)
    ensures base + ExactOf(seen + [value], patterns) ==
            if patterns && ContainsGlob(value) then base + ExactOf(seen, patterns)
            else Added(base + ExactOf(seen, patterns), value)
  {
    assert Init(seen + [value]) == seen;
    Associative(base, ExactOf(seen, patterns), [value]);
  }

  lemma KeptPattern(base: seq<string>, seen: seq<string>, value: string)
    ensures base + PatternsOf(seen + [value]) ==
            if ContainsGlob(value) then base + PatternsOf(seen) + [value] else base + PatternsOf(seen)
  {
    assert Init(seen + [value]) == seen;
    Associative(base, PatternsOf(seen), [value]);
  }

  /** The next string of an array, past white space and commas. */
  method NextValue(text: string, cursor: nat) returns (value: Option<string>, next: nat)
    requires cursor <= |text|
    ensures cursor <= next <= |text|
    ensures value.None? ==> ArrayValues(text[cursor..]) == []
    ensures value.Some? ==> cursor < next && ArrayValues(text[cursor..]) == [value.value] + ArrayValues(text[next..])
  {
    next := cursor;
    while next < |text|
      invariant cursor <= next <= |text|
      invariant ArrayValues(text[next..]) == ArrayValues(text[cursor..])
    {
      var p := SkipWsFrom(text, next);
      if p < |text| && text[p] == ',' {
        assert text[p..][1..] == text[p + 1..];
        next := p + 1;
      } else if p == |text| || text[p] == ']' {
        return None, p;
      } else {
        var ok, read, end := ParseStringToken(text, p, MAX_STR);
        TokenHere(text, p);
        if !ok {
          return None, p;
        }
        ArrayStep(text, next, p, read, end);
        return Some(read), end;
      }
    }
    value := None;
  }

  /** At a character that is not white space the token reader needs no skipping. */
  lemma TokenHere(text: string, p: nat)
    requires p < |text| && !IsSpace(text[p])
    ensures ReadToken(text[p..]) == if text[p] != '"' then None else Some(ReadBody(text[p + 1..]))
  {
    assert text[p..][1..] == text[p + 1..];
  }

  lemma ArrayStep(text: string, from: nat, p: nat, value: string, next: nat)
    requires from <= p < |text| && text[p..] == SkipWs(text[from..]) && text[p] == '"' && next <= |text|
    requires ReadBody(text[p + 1..]).closed && text[next..] == ReadBody(text[p + 1..]).rest
    requires value == CopyTrunc(ReadBody(text[p + 1..]).text, MAX_STR)
    ensures ArrayValues(text[from..]) == [value] + ArrayValues(text[next..])
  {
    assert text[p..][1..] == text[p + 1..];
  }

  // ----- the policy -----

  ghost predicate AllDifferent(a: object, b: object, c: object, d: object) {
    a != b && a != c && a != d && b != c && b != d && c != d
  }

  class Engine {
    const sensitiveFiles: PolicyList
    const blockedDomains: PolicyList
    const blockedIps: PolicyList
    const watchedProcesses: PolicyList
    const glob: Glob
    var weights: Weights

    ghost function Lists(): set<object> {
      {sensitiveFiles, blockedDomains, blockedIps, watchedProcesses}
    }

    ghost function Filters(): set<object> {
      {sensitiveFiles.bloom, blockedDomains.bloom, blockedIps.bloom, watchedProcesses.bloom,
       sensitiveFiles.bloom.bits, blockedDomains.bloom.bits, blockedIps.bloom.bits, watchedProcesses.bloom.bits}
    }

    /** Four different lists, each with its own prefilter. */
    ghost predicate Apart() {
      && AllDifferent(sensitiveFiles, blockedDomains, blockedIps, watchedProcesses)
      && AllDifferent(sensitiveFiles.bloom, blockedDomains.bloom, blockedIps.bloom, watchedProcesses.bloom)
      && AllDifferent(sensitiveFiles.bloom.bits, blockedDomains.bloom.bits,
                      blockedIps.bloom.bits, watchedProcesses.bloom.bits)
    }

    ghost predicate Valid()
      reads this, Lists(), Filters()
    {
      && Apart()
      && sensitiveFiles.Valid() && blockedDomains.Valid() && blockedIps.Valid() && watchedProcesses.Valid()
    }

    ghost function Abs(): Rules
      reads this, Lists()
    {
      Rules(sensitiveFiles.exact, sensitiveFiles.patterns, blockedDomains.exact, blockedIps.exact,
            watchedProcesses.exact, glob, weights)
    }

    constructor (hash: DoubleHash, glob: Glob)
      ensures Valid() && fresh(Lists()) && fresh(Filters())
      ensures Abs() == Rules([], [], [], [], [], glob, DefaultWeights())
    {
      sensitiveFiles := new PolicyList(hash);
      blockedDomains := new PolicyList(hash);
      blockedIps := new PolicyList(hash);
      watchedProcesses := new PolicyList(hash);
      this.glob := glob;
      weights := DefaultWeights();
    }

    method Load(json: string)
      requires Valid()
      modifies this, Lists(), Filters()
      ensures Valid() && Abs() == LoadedRules(old(Abs()), json)
    {
      sensitiveFiles.ParseArray(json, "sensitive_files", true);
      blockedDomains.ParseArray(json, "blocked_domains", false);
      blockedIps.ParseArray(json, "blocked_ips", false);
      watchedProcesses.ParseArray(json, "watched_processes", false);
      weights := LoadedWeights(weights, json);
    }

    method IsWatchedProcess(process: string) returns (yes: bool)
      requires Valid()
      ensures yes <==> Abs().Watched(process)
    {
      yes := watchedProcesses.MatchesExact(process);
    }

    method IsSensitiveFile(file: string) returns (yes: bool)
      requires Valid()
      ensures yes <==> Abs().Sensitive(file)
    {
      yes := sensitiveFiles.MatchesExact(file);
      if !yes {
        yes := sensitiveFiles.MatchesPattern(glob, file);
      }
    }

    method IsBlockedIp(d: string) returns (yes: bool)
      requires Valid()
      ensures yes <==> Abs().BlockedIp(d)
    {
      yes := blockedIps.MatchesExact(d);
    }

    method IsBlockedDomain(d: string) returns (yes: bool)
      requires Valid()
      ensures yes <==> Abs().BlockedDomain(d)
    {
      yes := blockedDomains.MatchesExact(d);
    }

    /** One destination, with the guesses about what it looks like. */
    method CheckDestination(d: string) returns (found: Option<Match>)
      requires Valid()
      ensures found == if Abs().Blocked(d) then Some(Match(d, KindOf(Abs(), d))) else None
    {
      if d == "" {
        return None;
      }
      var ip := IsBlockedIp(d);
      if LooksLikeIp(d) && ip {
        return Some(Match(d, Ip));
      }
      var domain := IsBlockedDomain(d);
      if LooksLikeDomain(d) && domain {
        return Some(Match(d, Domain));
      }
      if ip {
        return Some(Match(d, Ip));
      }
      found := if domain then Some(Match(d, Domain)) else None;
    }

    /** The search through an event's destination, address and domain. */
    method FindBlocked(ev: Event) returns (found: Option<Match>)
      requires Valid()
      ensures found == BlockedDestination(Abs(), ev)
    {
      var candidates := [ev.dst, ev.ip, ev.domain];
      var i := 0;
      found := None;
      while i < 3 && found.None?
        invariant 0 <= i <= 3
        invariant found.None? ==> BlockedDestination(Abs(), ev) == FirstFrom(Abs(), ev, i)
        invariant found.Some? ==> BlockedDestination(Abs(), ev) == found
      {
        found := CheckDestination(candidates[i]);
        i := i + 1;
      }
    }
  }

  /** The search from candidate `i` on. */
  ghost function FirstFrom(rules: Rules, ev: Event, i: nat): Option<Match> {
    if i == 0 then BlockedDestination(rules, ev)
    else if i == 1 && rules.Blocked(ev.ip) then Some(Match(ev.ip, KindOf(rules, ev.ip)))
    else if i <= 2 && rules.Blocked(ev.domain) then Some(Match(ev.domain, KindOf(rules, ev.domain)))
    else None
  }

  // ----- what loading and matching mean -----

  lemma {:induction false} ExactMembers(values: seq<string>, patterns: bool, v: string)
    ensures v in ExactOf(values, patterns) <==> v != "" && v in values && !(patterns && ContainsGlob(v))
    ensures v in PatternsOf(values) <==> v in values && ContainsGlob(v)
  {
    if values != [] {
      ExactMembers(Init(values), patterns, v);
      Rejoined(values);
    }
  }

  /** After a policy text was read, a value counts as it did before or because the text lists it under the
      key of that list. */
  lemma LoadedPolicyMeans(r: Rules, json: string, v: string)
    ensures var p := LoadedRules(r, json);
            && (p.BlockedIp(v) <==> r.BlockedIp(v) || (v != "" && v in PolicyValues(json, "blocked_ips")))
            && (p.BlockedDomain(v) <==> r.BlockedDomain(v) || (v != "" && v in PolicyValues(json, "blocked_domains")))
            && (p.Watched(v) <==> r.Watched(v) || (v != "" && v in PolicyValues(json, "watched_processes")))
  {
    ExactMembers(PolicyValues(json, "blocked_ips"), false, v);
    ExactMembers(PolicyValues(json, "blocked_domains"), false, v);
    ExactMembers(PolicyValues(json, "watched_processes"), false, v);
  }

  predicate Wild(s: string) { exists c :: c in s && (c == '*' || c == '?' || c == '[') }

  /** Listed files with a wildcard are patterns, the others are compared whole. */
  lemma LoadedFilesMean(r: Rules, json: string, v: string)
    ensures var p, files := LoadedRules(r, json), PolicyValues(json, "sensitive_files");
            p.Sensitive(v) <==>
            || r.Sensitive(v)
            || (v != "" && v in files && !Wild(v))
            || exists pattern :: pattern in files && Wild(pattern) && r.glob(pattern, v)
  {
    var p, files := LoadedRules(r, json), PolicyValues(json, "sensitive_files");
    ExactMembers(files, true, v);
    forall pattern
      ensures pattern in PatternsOf(files) <==> pattern in files && Wild(pattern)
    {
      ExactMembers(files, true, pattern);
    }
    assert forall x :: x in p.sensitivePatterns <==> x in r.sensitivePatterns || x in PatternsOf(files);
  }

  /** A weight is the number the text gives it, at most a million either way; a text without one leaves it. */
  lemma LoadedWeightMeans(json: string, key: string, current: int)
    ensures GetLong(json, key).None? ==> LoadedInt(json, key, current) == current
    ensures GetLong(json, key).Some? ==>
              var given, loaded := GetLong(json, key).value, LoadedInt(json, key, current);
              && (-1000000 <= given <= 1000000 ==> loaded == given)
              && (given > 1000000 ==> loaded == 1000000) && (given < -1000000 ==> loaded == -1000000)
  {
  }

  /** Every weight of the text reaches the weight of its name. */
  lemma LoadedWeightsMean(r: Rules, json: string)
    ensures var w, was := LoadedRules(r, json).weights, r.weights;
            && w.watchedProcess == LoadedInt(json, "watched_process", was.watchedProcess)
            && w.sensitiveFile == LoadedInt(json, "sensitive_file", was.sensitiveFile)
            && w.blockedIp == LoadedInt(json, "blocked_ip", was.blockedIp)
            && w.blockedDomain == LoadedInt(json, "blocked_domain", was.blockedDomain)
            && w.networkAfterFile == LoadedInt(json, "network_after_file", was.networkAfterFile)
            && w.highUniqueDestinations == LoadedInt(json, "high_unique_destinations", was.highUniqueDestinations)
            && w.highEventVolume == LoadedInt(json, "high_event_volume", was.highEventVolume)
            && w.highUniqueDestinationThreshold ==
               LoadedInt(json, "high_unique_destination_threshold", was.highUniqueDestinationThreshold)
            && w.highEventVolumeThreshold ==
               LoadedInt(json, "high_event_volume_threshold", was.highEventVolumeThreshold)
  {
  }

  /** A destination, an address or a domain is listed. */
  predicate Listed(rules: Rules, d: string) { d != "" && (d in rules.blockedIps || d in rules.blockedDomains) }

  /** A text that could be a domain: with a dot, and something besides digits and dots. */
  ghost predicate DomainLike(d: string) { '.' in d && exists c :: c in d && !('0' <= c <= '9') && c != '.' }

  lemma DomainLikeIff(d: string)
    ensures LooksLikeDomain(d) <==> DomainLike(d)
  {
    if !DigitsAndDots(d) {
      var i :| 0 <= i < |d| && !(IsDigit(d[i]) || d[i] == '.');
      assert d[i] in d;
    }
    if c :| c in d && !('0' <= c <= '9') && c != '.' {
      var i :| 0 <= i < |d| && d[i] == c;
      assert !(IsDigit(d[i]) || d[i] == '.');
    }
  }

  /** Which destination is found blocked, and as what: the first listed one of the event's destination, address
      and domain; as a domain if it is on that list only, or on both and looks like one. */
  lemma BlockedDestinationIs(rules: Rules, ev: Event)
    ensures var found := BlockedDestination(rules, ev);
            && (found.None? <==> !Listed(rules, ev.dst) && !Listed(rules, ev.ip) && !Listed(rules, ev.domain))
            && (found.Some? ==>
                  var d, kind := found.value.dst, found.value.kind;
                  && Listed(rules, d)
                  && (d == ev.dst || (!Listed(rules, ev.dst) &&
                       (d == ev.ip || (!Listed(rules, ev.ip) && d == ev.domain))))
                  && (kind == Domain <==>
                       d in rules.blockedDomains && (d !in rules.blockedIps || DomainLike(d))))
  {
    var found := BlockedDestination(rules, ev);
    if found.Some? {
      DomainLikeIff(found.value.dst);
    }
  }

  // ----- arrays read back -----

  function ArrayText(values: seq<string>): string {
    if values == [] then ""
    else if |values| == 1 then JsonString(values[0])
    else JsonString(values[0]) + ("," + ArrayText(values[1..]))
  }

  lemma FirstValue(v: string, rest: string)
    requires Clean(v) && |v| < MAX_STR
    ensures ArrayValues(JsonString(v) + rest) == [v] + ArrayValues(rest)
  {
    var t := JsonString(v) + rest;
    TokenOfWritten(v, rest);
    CleanReread(v);
    assert t[0] == '"' && SkipWs(t) == t;
  }

  lemma PastValueComma(rest: string)
    ensures ArrayValues("," + rest) == ArrayValues(rest)
  {
    assert ("," + rest)[1..] == rest;
  }

  /** An array as a JSON writer prints it gives back its strings, in order, whatever follows its bracket. */
  lemma {:induction false} ArrayReadsBack(values: seq<string>, rest: string)
    requires forall v :: v in values ==> Clean(v) && |v| < MAX_STR
    ensures ArrayValues(ArrayText(values) + ("]" + rest)) == values
  {
    var end := "]" + rest;
    if values == [] {
      assert "" + end == end && SkipWs(end) == end;
    } else if |values| == 1 {
      FirstValue(values[0], end);
      assert SkipWs(end) == end;
      assert values == [values[0]];
    } else {
      var more := ArrayText(values[1..]);
      ArrayReadsBack(values[1..], rest);
      Associative(JsonString(values[0]), "," + more, end);
      Associative(",", more, end);
      FirstValue(values[0], "," + (more + end));
      PastValueComma(more + end);
      assert values == [values[0]] + values[1..];
    }
  }

  /** So does the array behind the first occurrence of its quoted key. */
  lemma KeyedArrayReadsBack(json: string, key: string, values: seq<string>, rest: string)
    requires forall v :: v in values ==> Clean(v) && |v| < MAX_STR
    requires '[' !in Needle(key)
    requires Find(json, Needle(key)) == Some(Needle(key) + (":[" + (ArrayText(values) + ("]" + rest))))
    ensures PolicyValues(json, key) == values
  {
    var tail := ArrayText(values) + ("]" + rest);
    ArrayReadsBack(values, rest);
    AfterSkips(Needle(key), ":[" + tail, '[');
    assert (":[" + tail)[1..][1..] == tail;
  }

}

/** What the ad-hoc JSON reader recovers from the lines the generator writes. */
module JsonLines {
  import opened Base
  import opened Text
  import opened JsonText
  import opened Events

  // ----- a written line as a list of members -----

  datatype Value = Str(s: string) | Num(n: int)
  datatype Member = Member(name: string, value: Value)

  function ValueText(v: Value): string {
    match v
    case Str(s) => JsonString(s)
    case Num(n) => Decimal(n)
  }

  function MemberText(m: Member): string { JsonString(m.name) + ":" + ValueText(m.value) }

  /** The members from some point on, each after its separating character, and the closing brace. */
  function RestText(ms: seq<Member>): string {
    if ms == [] then "}" else "," + MemberText(ms[0]) + RestText(ms[1..])
  }

  function Members(e: Event): seq<Member> {
    [Member("time", Str(e.time))] + ([Member("pid", Num(e.pid))] +
    ([Member("process", Str(e.process))] + ([Member("event", Str(e.event))] + OptionalMembers(e))))
  }

  function OptionalMembers(e: Event): seq<Member> {
    var dsts := if e.dst != "" then [Member("dst", Str(e.dst))] else [];
    if e.file != "" then [Member("file", Str(e.file))] + dsts else dsts
  }

  /** A key as the reader searches for them: lower-case letters. */
  predicate PlainKey(key: string) { key != "" && forall i :: 0 <= i < |key| ==> 'a' <= key[i] <= 'z' }

  lemma SearchedKeysArePlain()
    ensures PlainKey("time") && PlainKey("pid") && PlainKey("process") && PlainKey("event")
    ensures PlainKey("file") && PlainKey("dst") && PlainKey("domain") && PlainKey("ip")
  {
  }

  ghost predicate PlainNames(ms: seq<Member>) { forall i :: 0 <= i < |ms| ==> PlainKey(ms[i].name) }

  predicate EndsQuoted(v: string, key: string) {
    v != "" && ((v[0] == '"' && v[1..] == key) || EndsQuoted(v[1..], key))
  }

  /** A string value in which the reader sees a key: the key itself, or anything that ends with a quote
      and the key. */
  predicate Confuses(v: Value, key: string) { v.Str? && (v.s == key || EndsQuoted(v.s, key)) }

  /** The member whose value the reader returns for a key: the one so named, unless a confusing value
      comes first; then it is the member after that value. */
  function Found(ms: seq<Member>, key: string): Option<nat> {
    if ms == [] then None
    else if ms[0].name == key then Some(0)
    else if Confuses(ms[0].value, key) then (if |ms| > 1 then Some(1) else None)
    else
      match Found(ms[1..], key)
      case None => None
      case Some(i) => Some(i + 1)
  }

  // ----- searching a key through written text -----

  lemma {:induction false} PlainKeyUnescaped(key: string)
    requires forall i :: 0 <= i < |key| ==> 'a' <= key[i] <= 'z'
    ensures EscapedAll(key) == key
  {
    if key != "" {
      PlainKeyUnescaped(key[1..]);
      assert [key[0]] + key[1..] == key;
    }
  }

  lemma KeyIsNeedle(key: string)
    requires PlainKey(key)
    ensures JsonString(key) == Needle(key)
  {
    PlainKeyUnescaped(key);
  }

  lemma EscapedStart(c: char)
    ensures Escaped(c) != "" && Escaped(c)[0] == (if |Escaped(c)| == 1 then c else '\\')
    ensures '"' in Escaped(c) <==> c == '"'
    ensures c != '"' && |Escaped(c)| == 1 ==> Escaped(c) == [c]
  {
  }

  /** The text of a string from some character on starts with a key and a quote only if it is the key. */
  lemma {:induction false} StartsKey(v: string, key: string, rest: string)
    requires forall i :: 0 <= i < |key| ==> 'a' <= key[i] <= 'z'
    ensures key + "\"" <= EscapedAll(v) + "\"" + rest <==> v == key
  {
    var t := EscapedAll(v) + "\"" + rest;
    if v == "" {
      assert t[0] == '"';
      if key != "" {
        assert (key + "\"")[0] != '"';
      }
    } else {
      EscapedStart(v[0]);
      assert t[0] == Escaped(v[0])[0];
      if key == "" {
        assert (key + "\"")[0] == '"';
      } else if v[0] == key[0] {
        assert Escaped(v[0]) == [v[0]];
        StartsKey(v[1..], key[1..], rest);
        assert t[1..] == EscapedAll(v[1..]) + "\"" + rest;
        assert (key + "\"")[1..] == key[1..] + "\"";
        PrefixStep(key + "\"", t);
        assert v == [v[0]] + v[1..] && key == [key[0]] + key[1..];
      } else {
        assert (key + "\"")[0] == key[0];
      }
    }
  }

  lemma PrefixStep(a: string, b: string)
    requires a != "" && b != "" && a[0] == b[0]
    ensures a <= b <==> a[1..] <= b[1..]
  {
    if a[1..] <= b[1..] {
      assert a == [a[0]] + a[1..] && b == [b[0]] + b[1..];
    }
  }

  /** Searching from an opening quote on. */
  lemma FindAtQuote(v: string, key: string, rest: string)
    requires PlainKey(key)
    ensures v == key ==> Find("\"" + EscapedAll(v) + "\"" + rest, Needle(key)) == Some(Needle(key) + rest)
    ensures v != key ==>
              Find("\"" + EscapedAll(v) + "\"" + rest, Needle(key)) == Find(EscapedAll(v) + "\"" + rest, Needle(key))
  {
    var t := "\"" + EscapedAll(v) + "\"" + rest;
    StartsKey(v, key, rest);
    assert t[1..] == EscapedAll(v) + "\"" + rest;
    assert Needle(key)[1..] == key + "\"";
    PrefixStep(Needle(key), t);
    PlainKeyUnescaped(key);
  }

  /** Searching from inside a string on: a match can only be its tail. */
  lemma {:induction false} FindInString(v: string, key: string, rest: string)
    requires PlainKey(key) && rest != "" && rest[0] != key[0]
    ensures Find(EscapedAll(v) + "\"" + rest, Needle(key)) ==
            if EndsQuoted(v, key) then Some(Needle(key) + rest) else Find(rest, Needle(key))
  {
    var t := EscapedAll(v) + "\"" + rest;
    if v == "" {
      assert t == "\"" + rest;
      assert t[1] == rest[0] && Needle(key)[1] == key[0];
      assert t[1..] == rest;
    } else {
      var more := EscapedAll(v[1..]) + "\"" + rest;
      Associative(Escaped(v[0]), EscapedAll(v[1..]), "\"");
      Associative(Escaped(v[0]), EscapedAll(v[1..]) + "\"", rest);
      assert t == Escaped(v[0]) + more;
      FindInString(v[1..], key, rest);
      EscapedStart(v[0]);
      if v[0] == '"' {
        assert "\"" + EscapedAll(v[1..]) + "\"" + rest == "\"" + more;
        assert t == "\\" + ("\"" + more);
        FindSkips("\\", "\"" + more, Needle(key));
        FindAtQuote(v[1..], key, rest);
      } else {
        FindSkips(Escaped(v[0]), more, Needle(key));
      }
    }
  }

  /** Searching a written string: it is passed over unless it confuses the search. */
  lemma FindPastString(v: string, key: string, rest: string)
    requires PlainKey(key) && rest != "" && rest[0] != key[0]
    ensures Find(JsonString(v) + rest, Needle(key)) ==
            if Confuses(Str(v), key) then Some(Needle(key) + rest) else Find(rest, Needle(key))
  {
    FindAtQuote(v, key, rest);
    FindInString(v, key, rest);
  }

  lemma AfterNeedle(key: string, rest: string)
    requires PlainKey(key)
    ensures After(Needle(key) + rest, ':') == After(rest, ':')
  {
    assert ':' !in Needle(key);
    AfterSkips(Needle(key), rest, ':');
  }

  lemma RestStart(ms: seq<Member>)
    ensures RestText(ms) != "" && RestText(ms)[0] == if ms == [] then '}' else ','
  {
    if ms != [] {
      Associative(",", MemberText(ms[0]), RestText(ms[1..]));
    }
  }

  /** The value that follows in the text of the remaining members. */
  lemma AfterInRest(ms: seq<Member>)
    requires PlainNames(ms)
    ensures After(RestText(ms), ':') ==
            if ms == [] then None else Some(ValueText(ms[0].value) + RestText(ms[1..]))
  {
    if ms != [] {
      var tail := ValueText(ms[0].value) + RestText(ms[1..]);
      MemberSplit(ms);
      KeyIsNeedle(ms[0].name);
      assert ("," + (JsonString(ms[0].name) + (":" + tail)))[1..] == JsonString(ms[0].name) + (":" + tail);
      AfterNeedle(ms[0].name, ":" + tail);
      assert (":" + tail)[1..] == tail;
    }
  }

  lemma MemberSplit(ms: seq<Member>)
    requires ms != []
    ensures RestText(ms) == "," + (JsonString(ms[0].name) + (":" + (ValueText(ms[0].value) + RestText(ms[1..]))))
  {
    var n, v, r := JsonString(ms[0].name), ValueText(ms[0].value), RestText(ms[1..]);
    Associative(",", n + ":" + v, r);
    Associative(n + ":", v, r);
    Associative(n, ":", v + r);
  }

  lemma ValueHasNoQuote(n: int)
    ensures '"' !in Decimal(n) && ':' !in Decimal(n)
  {
    DecimalCharacters(n);
  }

  /** Passing over a value that does not confuse the search. */
  lemma FindPastValue(v: Value, key: string, rest: string)
    requires PlainKey(key) && rest != "" && rest[0] != key[0]
    ensures Find(ValueText(v) + rest, Needle(key)) ==
            if Confuses(v, key) then Some(Needle(key) + rest) else Find(rest, Needle(key))
  {
    match v
    case Str(s) => FindPastString(s, key, rest);
    case Num(n) =>
      ValueHasNoQuote(n);
      FindSkips(Decimal(n), rest, Needle(key));
  }

  lemma FindStep(ms: seq<Member>, key: string)
    requires PlainKey(key) && ms != [] && PlainNames(ms)
    ensures var m, rest := ms[0], RestText(ms[1..]);
            Find(RestText(ms), Needle(key)) ==
            if m.name == key then Some(Needle(key) + (":" + (ValueText(m.value) + rest)))
            else if Confuses(m.value, key) then Some(Needle(key) + rest)
            else Find(rest, Needle(key))
  {
    var m, rest := ms[0], RestText(ms[1..]);
    var afterName := ":" + (ValueText(m.value) + rest);
    MemberSplit(ms);
    FindSkips(",", JsonString(m.name) + afterName, Needle(key));
    FindPastString(m.name, key, afterName);
    NotEndsQuoted(m.name, key);
    RestStart(ms[1..]);
    FindSkips(":", ValueText(m.value) + rest, Needle(key));
    FindPastValue(m.value, key, rest);
  }

  lemma {:induction false} NotEndsQuoted(name: string, key: string)
    requires '"' !in name
    ensures !EndsQuoted(name, key)
  {
    if name != "" {
      NotEndsQuoted(name[1..], key);
    }
  }

  /** The reader returns the text of exactly the member that `Found` names. */
  lemma {:induction false} AfterKeyIsFound(ms: seq<Member>, key: string)
    requires PlainKey(key) && PlainNames(ms)
    ensures Found(ms, key).None? ==> AfterKey(RestText(ms), key) == None
    ensures Found(ms, key).Some? ==>
              var i := Found(ms, key).value;
              i < |ms| && AfterKey(RestText(ms), key) == Some(ValueText(ms[i].value) + RestText(ms[i + 1..]))
  {
    if ms == [] {
      assert Find("}", Needle(key)) == Find("", Needle(key)) == None;
    } else {
      FindStep(ms, key);
      var m, rest := ms[0], ms[1..];
      if m.name == key {
        var tail := ValueText(m.value) + RestText(rest);
        AfterNeedle(key, ":" + tail);
        assert (":" + tail)[1..] == tail;
      } else if Confuses(m.value, key) {
        AfterNeedle(key, RestText(rest));
        AfterInRest(rest);
        assert |ms| > 1 ==> rest[1..] == ms[2..];
      } else {
        AfterKeyIsFound(rest, key);
        if Found(rest, key).Some? {
          assert rest[Found(rest, key).value + 1..] == ms[Found(ms, key).value + 1..];
        }
      }
    }
  }

  // ----- what a whole line gives back -----

  /** The trimmed line: its members, with a brace in place of the first separator. */
  function LineText(ms: seq<Member>): string { "{" + RestText(ms)[1..] }

  /** What the reader makes of the string it finds for a key. */
  function Recovered(ms: seq<Member>, key: string, size: nat): string
    requires size > 0
  {
    match Found(ms, key)
    case None => ""
    case Some(i) => if i < |ms| && ms[i].value.Str? then CopyTrunc(RereadAll(ms[i].value.s), size) else ""
  }

  lemma BraceOrComma(ms: seq<Member>, key: string)
    requires PlainKey(key)
    ensures AfterKey(LineText(ms), key) == AfterKey(RestText(ms), key)
  {
    RestStart(ms);
    var t := RestText(ms);
    assert t == [t[0]] + t[1..];
    FindSkips("{", t[1..], Needle(key));
    FindSkips([t[0]], t[1..], Needle(key));
  }

  lemma AfterKeyInLine(ms: seq<Member>, key: string)
    requires PlainKey(key) && PlainNames(ms)
    ensures Found(ms, key).None? ==> AfterKey(LineText(ms), key) == None
    ensures Found(ms, key).Some? ==>
              var i := Found(ms, key).value;
              i < |ms| && AfterKey(LineText(ms), key) == Some(ValueText(ms[i].value) + RestText(ms[i + 1..]))
  {
    BraceOrComma(ms, key);
    AfterKeyIsFound(ms, key);
  }

  lemma GetStringRecovers(ms: seq<Member>, key: string, size: nat)
    requires PlainKey(key) && PlainNames(ms) && size > 0
    ensures GetString(LineText(ms), key, size) == Recovered(ms, key, size)
  {
    AfterKeyInLine(ms, key);
    GetStringFrom(LineText(ms), ms, key, size);
  }

  lemma GetStringFrom(line: string, ms: seq<Member>, key: string, size: nat)
    requires size > 0
    requires match Found(ms, key)
             case None => AfterKey(line, key) == None
             case Some(i) => i < |ms| && AfterKey(line, key) == Some(ValueText(ms[i].value) + RestText(ms[i + 1..]))
    ensures GetString(line, key, size) == Recovered(ms, key, size)
  {
    if Found(ms, key).Some? {
      var i := Found(ms, key).value;
      StringAfterKey(line, key, size, ms[i].value, RestText(ms[i + 1..]));
    } else {
      StringWithoutKey(line, key, size);
    }
  }

  lemma StringWithoutKey(line: string, key: string, size: nat)
    requires size > 0 && AfterKey(line, key) == None
    ensures GetString(line, key, size) == ""
  {
  }

  lemma StringAfterKey(line: string, key: string, size: nat, v: Value, rest: string)
    requires size > 0 && AfterKey(line, key) == Some(ValueText(v) + rest)
    ensures GetString(line, key, size) == if v.Str? then CopyTrunc(RereadAll(v.s), size) else ""
  {
    TokenOfValue(v, rest);
  }

  lemma TokenOfValue(v: Value, rest: string)
    ensures ReadToken(ValueText(v) + rest) == if v.Str? then Some(Token(RereadAll(v.s), true, rest)) else None
  {
    match v
    case Str(s) => TokenOfWritten(s, rest);
    case Num(n) => NumberIsNoToken(n, rest);
  }

  lemma NumberIsNoToken(n: int, rest: string)
    ensures ReadToken(Decimal(n) + rest) == None
  {
    DecimalCharacters(n);
    var t := Decimal(n) + rest;
    assert t[0] == Decimal(n)[0];
  }

  lemma GetLongRecovers(ms: seq<Member>, key: string, i: nat)
    requires PlainKey(key) && PlainNames(ms) && Found(ms, key) == Some(i) && i < |ms|
    requires ms[i].value.Num? && -LONG_MAX - 1 <= ms[i].value.n <= LONG_MAX
    ensures GetLong(LineText(ms), key) == Some(ms[i].value.n)
  {
    AfterKeyInLine(ms, key);
    RestStart(ms[i + 1..]);
    DecimalRoundTrip(ms[i].value.n, RestText(ms[i + 1..]));
  }

  lemma PlainCons(m: Member, ms: seq<Member>)
    requires PlainKey(m.name) && PlainNames(ms)
    ensures PlainNames([m] + ms)
  {
  }

  lemma PlainMembers(e: Event)
    ensures PlainNames(Members(e))
  {
    SearchedKeysArePlain();
    var ms := OptionalMembers(e);
    assert PlainNames(ms);
    PlainCons(Member("event", Str(e.event)), ms);
    ms := [Member("event", Str(e.event))] + ms;
    PlainCons(Member("process", Str(e.process)), ms);
    ms := [Member("process", Str(e.process))] + ms;
    PlainCons(Member("pid", Num(e.pid)), ms);
    ms := [Member("pid", Num(e.pid))] + ms;
    PlainCons(Member("time", Str(e.time)), ms);
  }

  lemma FirstFound(time: string, pid: int, ms: seq<Member>)
    ensures var all := [Member("time", Str(time))] + ([Member("pid", Num(pid))] + ms);
            Found(all, "time") == Some(0) && Found(all, "pid") == Some(1)
  {
    var all := [Member("time", Str(time))] + ([Member("pid", Num(pid))] + ms);
    assert all[1..][0].name == "pid" != "time";
  }

  lemma EventMembers(e: Event)
    ensures var ms := Members(e);
            && PlainNames(ms) && |ms| > 1
            && Found(ms, "time") == Some(0) && ms[0].value == Str(e.time)
            && Found(ms, "pid") == Some(1) && ms[1].value == Num(e.pid)
  {
    PlainMembers(e);
    var late := [Member("event", Str(e.event))] + OptionalMembers(e);
    FirstFound(e.time, e.pid, [Member("process", Str(e.process))] + late);
  }

  /** The fields read from a line of members, given the number that stands for the pid. */
  function RereadFrom(ms: seq<Member>, pid: int): Event {
    Event(Recovered(ms, "time", TIME_SIZE), pid,
          Recovered(ms, "process", PROCESS_SIZE), Recovered(ms, "event", EVENT_SIZE),
          Recovered(ms, "file", MAX_STR), Recovered(ms, "dst", MAX_STR),
          Recovered(ms, "domain", MAX_STR), Recovered(ms, "ip", MAX_STR))
  }

  /** The fields read from the line of an event: the pid always its own, and for each key the string that
      `Found` leads to. */
  function Reread(e: Event): Event { RereadFrom(Members(e), e.pid) }

  lemma FieldsOfMembers(ms: seq<Member>, pid: int)
    requires PlainNames(ms) && |ms| > 1 && -LONG_MAX - 1 <= pid <= LONG_MAX
    requires Found(ms, "pid") == Some(1) && ms[1].value == Num(pid)
    ensures JsonFields(LineText(ms)) == RereadFrom(ms, pid)
  {
    SearchedKeysArePlain();
    var r := JsonFields(LineText(ms));
    assert r.pid == pid by { GetLongRecovers(ms, "pid", 1); }
    assert r.time == Recovered(ms, "time", TIME_SIZE) by { GetStringRecovers(ms, "time", TIME_SIZE); }
    assert r.process == Recovered(ms, "process", PROCESS_SIZE) by { GetStringRecovers(ms, "process", PROCESS_SIZE); }
    assert r.event == Recovered(ms, "event", EVENT_SIZE) by { GetStringRecovers(ms, "event", EVENT_SIZE); }
    assert r.file == Recovered(ms, "file", MAX_STR) by { GetStringRecovers(ms, "file", MAX_STR); }
    assert r.dst == Recovered(ms, "dst", MAX_STR) by { GetStringRecovers(ms, "dst", MAX_STR); }
    assert r.domain == Recovered(ms, "domain", MAX_STR) by { GetStringRecovers(ms, "domain", MAX_STR); }
    assert r.ip == Recovered(ms, "ip", MAX_STR) by { GetStringRecovers(ms, "ip", MAX_STR); }
  }

  // ----- the printed line is the member list -----

  lemma NamedStart(prefix: string, key: string, x: string)
    requires PlainKey(key) && prefix == "," + Needle(key) + ":"
    ensures prefix + x == "," + (JsonString(key) + (":" + x))
  {
    KeyIsNeedle(key);
    Associative("," + Needle(key), ":", x);
    Associative(",", Needle(key), ":" + x);
  }

  lemma NextMember(prefix: string, m: Member, ms: seq<Member>)
    requires PlainKey(m.name) && prefix == "," + Needle(m.name) + ":"
    ensures RestText([m] + ms) + "\n" == prefix + (ValueText(m.value) + (RestText(ms) + "\n"))
  {
    var v, r := ValueText(m.value), RestText(ms);
    assert ([m] + ms)[1..] == ms;
    MemberSplit([m] + ms);
    NamedStart(prefix, m.name, v + r);
    Associative(prefix, v + r, "\n");
    Associative(v, r, "\n");
  }

  lemma LastMember(prefix: string, m: Member)
    requires PlainKey(m.name) && prefix == "," + Needle(m.name) + ":"
    ensures RestText([m]) + "\n" == prefix + (ValueText(m.value) + "}\n")
  {
    assert [m] + [] == [m];
    NextMember(prefix, m, []);
  }

  lemma LineEnd(e: Event)
    ensures RestText(OptionalMembers(e)) + "\n" == JsonLineEnd(e)
  {
    SearchedKeysArePlain();
    PrefixTexts();
    var dsts := if e.dst != "" then [Member("dst", Str(e.dst))] else [];
    LastMember(",\"dst\":", Member("dst", Str(e.dst)));
    if e.file != "" {
      NextMember(",\"file\":", Member("file", Str(e.file)), dsts);
    }
  }

  /** The part of the printed line after the first key. */
  function AfterTime(e: Event): string {
    JsonString(e.time) +
    (",\"pid\":" + (Decimal(e.pid) + (",\"process\":" + (JsonString(e.process) +
    (",\"event\":" + (JsonString(e.event) + JsonLineEnd(e)))))))
  }

  lemma PrintedMembers(e: Event)
    ensures RestText(Members(e)) + "\n" == ",\"time\":" + AfterTime(e)
  {
    LineEnd(e);
    SearchedKeysArePlain();
    PrefixTexts();
    var t3 := [Member("event", Str(e.event))] + OptionalMembers(e);
    var t2 := [Member("process", Str(e.process))] + t3;
    var t1 := [Member("pid", Num(e.pid))] + t2;
    assert RestText(t3) + "\n" == ",\"event\":" + (JsonString(e.event) + JsonLineEnd(e)) by {
      NextMember(",\"event\":", Member("event", Str(e.event)), OptionalMembers(e));
    }
    NextMember(",\"process\":", Member("process", Str(e.process)), t3);
    NextMember(",\"pid\":", Member("pid", Num(e.pid)), t2);
    NextMember(",\"time\":", Member("time", Str(e.time)), t1);
  }

  lemma PrefixTexts()
    ensures ",\"time\":" == "," + Needle("time") + ":" && ",\"pid\":" == "," + Needle("pid") + ":"
    ensures ",\"process\":" == "," + Needle("process") + ":" && ",\"event\":" == "," + Needle("event") + ":"
    ensures ",\"file\":" == "," + Needle("file") + ":" && ",\"dst\":" == "," + Needle("dst") + ":"
  {
  }

  lemma PrintedLine(e: Event)
    ensures JsonLine(e) == LineText(Members(e)) + "\n"
  {
    PrintedMembers(e);
    RestStart(Members(e));
    SwapFirst(",\"time\":", "{\"time\":", AfterTime(e));
    SwapFirst(RestText(Members(e)), LineText(Members(e)), "\n");
  }

  /** Two strings that differ in their first character only, with the same continuation. */
  lemma SwapFirst(a: string, b: string, x: string)
    requires a != "" && b != "" && a[1..] == b[1..]
    ensures b + x == [b[0]] + (a + x)[1..]
  {
    assert (a + x)[1..] == a[1..] + x;
    assert b == [b[0]] + b[1..];
    Associative([b[0]], b[1..], x);
  }

  lemma TrimmedLine(ms: seq<Member>)
    requires ms != []
    ensures TrimNewline(LineText(ms) + "\n") == LineText(ms)
    ensures SkipWs(LineText(ms)) == LineText(ms) != "" && LineText(ms)[0] == '{'
  {
    var t := LineText(ms);
    RestEnd(ms);
    assert Last(t) == '}';
    assert Init(t + "\n") == t;
  }

  lemma {:induction false} RestEnd(ms: seq<Member>)
    ensures RestText(ms) != "" && Last(RestText(ms)) == '}'
    ensures ms != [] ==> |RestText(ms)| > 1
  {
    if ms != [] {
      RestEnd(ms[1..]);
      assert Last(MemberText(ms[0]) + RestText(ms[1..])) == '}';
    }
  }

  // ----- the round trip -----

  lemma ClassifiedLine(ms: seq<Member>, line: string)
    requires ms != [] && line == LineText(ms) + "\n"
    ensures Classify(line) == Accepted(JsonFields(LineText(ms)).WithDestination())
  {
    TrimmedLine(ms);
  }

  /** What classifying the printed line of any event that fits its buffers yields. */
  lemma ClassifiedJsonLine(e: Event)
    requires e.Fits()
    ensures Classify(JsonLine(e)) == Accepted(Reread(e).WithDestination())
  {
    PrintedLine(e);
    EventMembers(e);
    FieldsOfMembers(Members(e), e.pid);
    ClassifiedLine(Members(e), JsonLine(e));
  }

  /** The line of an event is parsed to that event exactly when the fields read are its own. */
  lemma ReadsItself(e: Event)
    requires Writable(e) && e.Meaningful()
    ensures Classify(JsonLine(e)) == Parsed(e) <==> Reread(e) == e
  {
    ClassifiedJsonLine(e);
    var r := Reread(e);
    if Classify(JsonLine(e)) == Parsed(e) {
      assert r.WithDestination() == e;
      assert r.ip == e.ip == "" && r.domain == e.domain == "";
    }
  }

  ghost predicate NoneConfuses(ms: seq<Member>, key: string) {
    forall m :: m in ms ==> !Confuses(m.value, key)
  }

  /** No string of the event is one of the searched keys or ends with a quote and one. */
  ghost predicate Unambiguous(e: Event) {
    && NoneConfuses(Members(e), "process") && NoneConfuses(Members(e), "event")
    && NoneConfuses(Members(e), "file") && NoneConfuses(Members(e), "dst")
    && NoneConfuses(Members(e), "domain") && NoneConfuses(Members(e), "ip")
  }

  ghost predicate CleanEvent(e: Event) {
    Clean(e.time) && Clean(e.process) && Clean(e.event) && Clean(e.file) && Clean(e.dst)
  }

  lemma {:induction false} FoundByName(ms: seq<Member>, key: string)
    requires NoneConfuses(ms, key)
    ensures match Found(ms, key)
            case None => forall i :: 0 <= i < |ms| ==> ms[i].name != key
            case Some(i) => i < |ms| && ms[i].name == key
  {
    if ms != [] {
      FoundByName(ms[1..], key);
    }
  }

  /** The string that an event stores under a key. */
  function FieldOf(e: Event, key: string): string {
    if key == "time" then e.time
    else if key == "process" then e.process
    else if key == "event" then e.event
    else if key == "file" then e.file
    else if key == "dst" then e.dst
    else ""
  }

  lemma MembersByName(e: Event, m: Member)
    ensures m in Members(e) ==> m.name == "pid" || m.value == Str(FieldOf(e, m.name))
  {
  }

  lemma MembersPresent(e: Event, key: string)
    requires FieldOf(e, key) != ""
    ensures Member(key, Str(FieldOf(e, key))) in Members(e)
  {
    var m := Member(key, Str(FieldOf(e, key)));
    if key == "time" || key == "process" || key == "event" {
      var ms := Members(e);
      assert ms[0] in ms && ms[2] in ms && ms[3] in ms;
    } else {
      assert m in OptionalMembers(e);
    }
  }

  // ----- exactly when the line of an event is parsed to that event -----

  /** The string at which the search for a key ends; a number counts as the empty string, as does nothing. */
  function Source(e: Event, key: string): string {
    var ms := Members(e);
    match Found(ms, key)
    case None => ""
    case Some(i) => if i < |ms| && ms[i].value.Str? then ms[i].value.s else ""
  }

  function SizeOf(key: string): (size: nat)
    ensures size > 0
  {
    if key == "process" then PROCESS_SIZE else if key == "event" then EVENT_SIZE else MAX_STR
  }

  /** The search for a key ends at the event's own field, or at a string equal to it. */
  predicate Leads(e: Event, key: string) { Source(e, key) == FieldOf(e, key) }

  /** Every search ends right; the time, printed first, is always found. */
  predicate AllLead(e: Event) {
    && Leads(e, "process") && Leads(e, "event") && Leads(e, "file") && Leads(e, "dst")
    && Leads(e, "domain") && Leads(e, "ip")
  }

  predicate TextKey(key: string) {
    key == "process" || key == "event" || key == "file" || key == "dst" || key == "domain" || key == "ip"
  }

  lemma RecoveredSource(e: Event, key: string, size: nat)
    requires size > 0
    ensures Recovered(Members(e), key, size) == CopyTrunc(RereadAll(Source(e, key)), size)
  {
  }

  lemma {:induction false} RereadIsClean(s: string)
    ensures Clean(RereadAll(s))
  {
    if s != "" {
      RereadIsClean(s[1..]);
    }
  }

  /** The reader sees a key in a string: it is the key, or ends with a quote and the key. */
  predicate Sees(s: string, key: string) { Confuses(Str(s), key) }

  function StringOf(v: Value): string { if v.Str? then v.s else "" }

  function SourceIn(ms: seq<Member>, key: string): string {
    if ms == [] then ""
    else if ms[0].name == key then StringOf(ms[0].value)
    else if Confuses(ms[0].value, key) then (if |ms| > 1 then StringOf(ms[1].value) else "")
    else SourceIn(ms[1..], key)
  }

  lemma {:induction false} SourceOfFound(ms: seq<Member>, key: string)
    ensures match Found(ms, key)
            case None => SourceIn(ms, key) == ""
            case Some(i) => i < |ms| && SourceIn(ms, key) == StringOf(ms[i].value)
  {
    if ms != [] {
      SourceOfFound(ms[1..], key);
    }
  }

  lemma SourceCons(m: Member, ms: seq<Member>, key: string)
    ensures SourceIn([m] + ms, key) ==
            if m.name == key then StringOf(m.value)
            else if Confuses(m.value, key) then (if ms == [] then "" else StringOf(ms[0].value))
            else SourceIn(ms, key)
  {
    assert ([m] + ms)[1..] == ms;
  }

  /** Where a search ends among the members `file` and `dst`, either of which may be missing. */
  function OptionalSource(e: Event, key: string): string {
    if key == "file" then e.file
    else if Sees(e.file, key) || key == "dst" then e.dst
    else ""
  }

  lemma OptionalSourceIs(e: Event, key: string)
    requires key != ""
    ensures SourceIn(OptionalMembers(e), key) == OptionalSource(e, key)
    ensures OptionalMembers(e) != [] ==>
              StringOf(OptionalMembers(e)[0].value) == if e.file != "" then e.file else e.dst
    ensures OptionalMembers(e) == [] ==> e.file == e.dst == ""
  {
    var dsts := if e.dst != "" then [Member("dst", Str(e.dst))] else [];
    assert "file" != "dst";
    if e.dst != "" {
      SourceCons(Member("dst", Str(e.dst)), [], key);
      assert [Member("dst", Str(e.dst))] + [] == dsts;
    }
    if e.file != "" {
      SourceCons(Member("file", Str(e.file)), dsts, key);
    }
  }

  /** The same from the member `process` on, where a value that is taken for the key hands over to the next. */
  function LateSource(e: Event, key: string): string {
    if key == "process" then e.process
    else if Sees(e.process, key) || key == "event" then e.event
    else if Sees(e.event, key) then (if e.file != "" then e.file else e.dst)
    else OptionalSource(e, key)
  }

  lemma LateSourceIs(e: Event, key: string)
    requires key != ""
    ensures var late := [Member("event", Str(e.event))] + OptionalMembers(e);
            SourceIn([Member("process", Str(e.process))] + late, key) == LateSource(e, key)
  {
    var late := [Member("event", Str(e.event))] + OptionalMembers(e);
    SourceCons(Member("event", Str(e.event)), OptionalMembers(e), key);
    SourceCons(Member("process", Str(e.process)), late, key);
    OptionalSourceIs(e, key);
    assert late[0] == Member("event", Str(e.event));
  }

  /** A search for any key but the first two ends at the pid if the time is taken for the key. */
  lemma SourceForm(e: Event, key: string)
    requires key != "" && key != "time" && key != "pid"
    ensures Source(e, key) == if Sees(e.time, key) then "" else LateSource(e, key)
  {
    var ms := [Member("process", Str(e.process))] + ([Member("event", Str(e.event))] + OptionalMembers(e));
    SourceOfFound(Members(e), key);
    LateSourceIs(e, key);
    SourceCons(Member("pid", Num(e.pid)), ms, key);
    SourceCons(Member("time", Str(e.time)), [Member("pid", Num(e.pid))] + ms, key);
  }

  predicate FileReadable(e: Event) {
    if Sees(e.time, "file") then e.file == ""
    else if Sees(e.process, "file") then e.event == e.file
    else Sees(e.event, "file") ==> e.file != "" || e.dst == ""
  }

  predicate DstReadable(e: Event) {
    if Sees(e.time, "dst") then e.dst == ""
    else if Sees(e.process, "dst") then e.event == e.dst
    else Sees(e.event, "dst") ==> e.file == "" || e.file == e.dst
  }

  /** A key that is never written, and must not be found anywhere else. */
  predicate StaysAbsent(e: Event, key: string) {
    if Sees(e.time, key) then true
    else if Sees(e.process, key) then e.event == ""
    else if Sees(e.event, key) then e.file == e.dst == ""
    else Sees(e.file, key) ==> e.dst == ""
  }

  /** What the strings of an event must avoid, or agree on, to be read back. */
  predicate Readable(e: Event) {
    && (Sees(e.time, "process") ==> e.process == "")
    && (Sees(e.time, "event") ==> e.event == "")
    && FileReadable(e) && DstReadable(e)
    && StaysAbsent(e, "domain") && StaysAbsent(e, "ip")
  }

  lemma KeysDiffer()
    ensures forall key | TextKey(key) :: key != "time" && key != "pid"
    ensures "process" != "event" && "file" != "process" && "file" != "event" && "dst" != "process" && "dst" != "event"
    ensures "file" != "dst" && "domain" != "process" && "domain" != "event" && "domain" != "file" && "domain" != "dst"
    ensures "ip" != "process" && "ip" != "event" && "ip" != "file" && "ip" != "dst"
  {
  }

  lemma EmptySeesNothing(key: string)
    requires key != ""
    ensures !Sees("", key)
  {
  }

  lemma LeadsByForm(e: Event)
    ensures Leads(e, "process") <==> (Sees(e.time, "process") ==> e.process == "")
    ensures Leads(e, "event") <==> (Sees(e.time, "event") ==> e.event == "")
  {
    FieldNames(e);
    KeysDiffer();
    SourceForm(e, "process");
    SourceForm(e, "event");
  }

  lemma FileLeads(e: Event)
    ensures Leads(e, "file") <==> FileReadable(e)
  {
    FieldNames(e);
    KeysDiffer();
    SourceForm(e, "file");
  }

  lemma DstLeads(e: Event)
    ensures Leads(e, "dst") <==> DstReadable(e)
  {
    FieldNames(e);
    KeysDiffer();
    SourceForm(e, "dst");
  }

  lemma AbsentLeads(e: Event, key: string)
    requires key == "domain" || key == "ip"
    ensures Leads(e, key) <==> StaysAbsent(e, key)
  {
    FieldNames(e);
    KeysDiffer();
    SourceForm(e, key);
    EmptySeesNothing(key);
  }

  /** Every search ends right exactly if the strings of the event keep the clauses above. */
  lemma AllLeadIff(e: Event)
    ensures AllLead(e) <==> Readable(e)
  {
    LeadsByForm(e);
    FileLeads(e);
    DstLeads(e);
    AbsentLeads(e, "domain");
    AbsentLeads(e, "ip");
  }

  /** The searches for the first two names after the number end at their own field or at the number. */
  lemma EarlySources(e: Event)
    ensures Source(e, "process") == e.process || Source(e, "process") == ""
    ensures Source(e, "event") == e.event || Source(e, "event") == ""
  {
    KeysDiffer();
    SourceForm(e, "process");
    SourceForm(e, "event");
  }

  lemma SourceFits(e: Event, key: string)
    requires e.Fits() && TextKey(key)
    ensures |Source(e, key)| < SizeOf(key)
  {
    EarlySources(e);
    SourceIsShort(e, key);
  }

  lemma SourceIsShort(e: Event, key: string)
    requires e.Fits()
    ensures |Source(e, key)| < MAX_STR
  {
    var ms := Members(e);
    if Found(ms, key).Some? && Found(ms, key).value < |ms| {
      MembersByName(e, ms[Found(ms, key).value]);
    }
  }

  lemma SourceClean(e: Event, key: string)
    requires CleanEvent(e)
    ensures Clean(Source(e, key))
  {
    var ms := Members(e);
    if Found(ms, key).Some? && Found(ms, key).value < |ms| {
      MembersByName(e, ms[Found(ms, key).value]);
    }
  }

  /** In a clean event a field is recovered exactly when the search for it ends right. */
  lemma RecoveredIff(e: Event, key: string)
    requires e.Fits() && CleanEvent(e) && TextKey(key)
    ensures Recovered(Members(e), key, SizeOf(key)) == FieldOf(e, key) <==> Leads(e, key)
  {
    RecoveredSource(e, key, SizeOf(key));
    SourceClean(e, key);
    CleanReread(Source(e, key));
    SourceFits(e, key);
  }

  /** What is recovered never holds a numbered control character. */
  lemma RecoveredIsClean(e: Event, key: string, size: nat)
    requires size > 0
    ensures Clean(Recovered(Members(e), key, size))
  {
    RecoveredSource(e, key, size);
    RereadIsClean(Source(e, key));
  }

  lemma SelfReadIsClean(e: Event)
    requires Reread(e) == e
    ensures CleanEvent(e)
  {
    RecoveredIsClean(e, "time", TIME_SIZE);
    RecoveredIsClean(e, "process", PROCESS_SIZE);
    RecoveredIsClean(e, "event", EVENT_SIZE);
    RecoveredIsClean(e, "file", MAX_STR);
    RecoveredIsClean(e, "dst", MAX_STR);
  }

  lemma TimeRecovered(e: Event)
    requires e.Fits() && Clean(e.time)
    ensures Recovered(Members(e), "time", TIME_SIZE) == e.time
  {
    EventMembers(e);
    CleanReread(e.time);
  }

  lemma FieldNames(e: Event)
    ensures FieldOf(e, "process") == e.process && FieldOf(e, "event") == e.event && FieldOf(e, "file") == e.file
    ensures FieldOf(e, "dst") == e.dst && FieldOf(e, "domain") == "" && FieldOf(e, "ip") == ""
    ensures SizeOf("process") == PROCESS_SIZE && SizeOf("event") == EVENT_SIZE && SizeOf("file") == MAX_STR
    ensures SizeOf("dst") == MAX_STR && SizeOf("domain") == MAX_STR && SizeOf("ip") == MAX_STR
  {
  }

  /** The round trip, exactly: the printed line of an event is parsed to that event if and only if no field
      holds a numbered control character and no string is taken for a key with a wrong result. */
  lemma JsonRoundTripIff(e: Event)
    requires Writable(e) && e.Meaningful()
    ensures Classify(JsonLine(e)) == Parsed(e) <==> CleanEvent(e) && Readable(e)
  {
    ReadsItself(e);
    AllLeadIff(e);
    if Reread(e) == e {
      SelfReadIsClean(e);
    }
    if CleanEvent(e) {
      FieldNames(e);
      TimeRecovered(e);
      RecoveredIff(e, "process");
      RecoveredIff(e, "event");
      RecoveredIff(e, "file");
      RecoveredIff(e, "dst");
      RecoveredIff(e, "domain");
      RecoveredIff(e, "ip");
    }
  }

  lemma LeadsByName(e: Event, key: string)
    requires NoneConfuses(Members(e), key) && key != "pid"
    ensures Leads(e, key)
  {
    var ms := Members(e);
    FoundByName(ms, key);
    if Found(ms, key).Some? {
      MembersByName(e, ms[Found(ms, key).value]);
    } else if FieldOf(e, key) != "" {
      MembersPresent(e, key);
    }
  }

  /** The round trip on its natural domain: fields that fit their buffers, without numbered control
      characters, none of which can be taken for a searched key. */
  lemma JsonRoundTrip(e: Event)
    requires Writable(e) && e.Meaningful() && CleanEvent(e) && Unambiguous(e)
    ensures Classify(JsonLine(e)) == Parsed(e)
  {
    LeadsByName(e, "process");
    LeadsByName(e, "event");
    LeadsByName(e, "file");
    LeadsByName(e, "dst");
    LeadsByName(e, "domain");
    LeadsByName(e, "ip");
    AllLeadIff(e);
    JsonRoundTripIff(e);
  }

  lemma TimeConfuses(e: Event, key: string)
    requires key != "time" && Confuses(Str(e.time), key)
    ensures Found(Members(e), key) == Some(1) && Members(e)[1].value.Num?
  {
    var ms := Members(e);
    assert ms[0] == Member("time", Str(e.time)) && |ms| > 1;
  }

  /** The guard on key names is needed: a time in which the reader sees the process key hides the process
      name, whatever it is. */
  lemma TimeHidesProcess(e: Event)
    requires Writable(e) && e.process != "" && Confuses(Str(e.time), "process")
    ensures Classify(JsonLine(e)) != Parsed(e)
  {
    assert "process" != "time";
    TimeConfuses(e, "process");
    assert Recovered(Members(e), "process", PROCESS_SIZE) == "";
    ReadsItself(e);
  }
}

/** Generated files: the physical lines of a text, and the events that the readers find in them. */
module Files {
  import opened Base
  import opened Text
  import opened JsonText
  import opened CsvText
  import opened Events
  import opened JsonLines
  import opened CsvRows

  // ----- the lines of a text, as `getline` returns them -----

  /** The length of the first line, its newline included. */
  function LineLength(t: string): (n: nat)
    ensures n <= |t| && (t != "" ==> n > 0)
  {
    if t == "" then 0 else if t[0] == '\n' then 1 else 1 + LineLength(t[1..])
  }

  function Lines(t: string): seq<string>
    decreases |t|
  {
    if t == "" then [] else [t[..LineLength(t)]] + Lines(t[LineLength(t)..])
  }

  /** The header names the columns. */
  function HeaderText(): string {
    "time" + ("," + ("pid" + ("," + ("process" + ("," + "event,file,dst,domain,ip")))))
  }

  function HeaderLine(): string { HeaderText() + "\n" }

  function Rows(es: seq<Event>): string {
    if es == [] then "" else Rows(Init(es)) + CsvRow(Last(es))
  }

  function CsvFile(es: seq<Event>): string { HeaderLine() + Rows(es) }

  function JsonFile(es: seq<Event>): string {
    if es == [] then "" else JsonFile(Init(es)) + JsonLine(Last(es))
  }

  lemma {:induction false} FirstLineLength(x: string, rest: string)
    requires '\n' !in x
    ensures LineLength(x + "\n" + rest) == |x| + 1
  {
    var t := x + "\n" + rest;
    if x != "" {
      FirstLineLength(x[1..], rest);
      assert t[1..] == x[1..] + "\n" + rest;
    }
  }

  lemma LinesOfOne(x: string)
    requires '\n' !in x
    ensures Lines(x + "\n") == [x + "\n"]
  {
    FirstLineLength(x, "");
    assert x + "\n" + "" == x + "\n";
  }

  lemma {:induction false} SameFirstLine(a: string, b: string)
    requires a != "" && Last(a) == '\n'
    ensures LineLength(a + b) == LineLength(a)
  {
    if a[0] != '\n' {
      SameFirstLine(a[1..], b);
      assert (a + b)[1..] == a[1..] + b;
    }
  }

  lemma {:induction false} LinesAppend(a: string, b: string)
    requires a == "" || Last(a) == '\n'
    ensures Lines(a + b) == Lines(a) + Lines(b)
    decreases |a|
  {
    if a == "" {
      assert a + b == b;
    } else {
      var n := LineLength(a);
      SameFirstLine(a, b);
      assert (a + b)[..n] == a[..n] && (a + b)[n..] == a[n..] + b;
      LinesAppend(a[n..], b);
      Associative([a[..n]], Lines(a[n..]), Lines(b));
    }
  }

  // ----- logs of lines -----

  lemma {:induction false} LogAppend(a: seq<string>, b: seq<string>)
    ensures Log(a + b) == Log(a) + Log(b)
  {
    if b == [] {
      assert a + b == a;
    } else {
      LogAppend(a, Init(b));
      assert Init(a + b) == a + Init(b);
      Associative(Log(a), Log(Init(b)), EventsOf(Classify(Last(b))));
    }
  }

  lemma {:induction false} LogIsShort(lines: seq<string>)
    ensures |Log(lines)| <= |lines|
    ensures forall e :: e in Log(lines) ==> exists l :: l in lines && Classify(l) == Parsed(e)
  {
    if lines != [] {
      LogIsShort(Init(lines));
      Rejoined(lines);
    }
  }

  lemma SnocEqual(front: seq<Event>, tail: seq<Event>, es: seq<Event>)
    requires es != [] && |front| < |es| && |tail| <= 1
    ensures front + tail == es <==> front == Init(es) && tail == [Last(es)]
  {
    if front + tail == es {
      assert |front| == |es| - 1 && tail[0] == es[|es| - 1];
      assert front == es[..|es| - 1];
    } else if front == Init(es) && tail == [Last(es)] {
      Rejoined(es);
    }
  }

  predicate EachParsed(lines: seq<string>, es: seq<Event>)
    requires |lines| == |es|
  {
    es != [] ==> EachParsed(Init(lines), Init(es)) && Classify(Last(lines)) == Parsed(Last(es))
  }

  /** As many lines as events: the log is these events exactly if each line is parsed to its own. */
  lemma {:induction false} LogPointwise(lines: seq<string>, es: seq<Event>)
    requires |lines| == |es|
    ensures Log(lines) == es <==> EachParsed(lines, es)
  {
    if es != [] {
      LogPointwise(Init(lines), Init(es));
      LogIsShort(Init(lines));
      SnocEqual(Log(Init(lines)), EventsOf(Classify(Last(lines))), es);
    }
  }

  // ----- texts of one line for each event -----

  predicate NewlineFree(e: Event) {
    '\n' !in e.time && '\n' !in e.process && '\n' !in e.event && '\n' !in e.file && '\n' !in e.dst
  }

  function RowLines(es: seq<Event>): (lines: seq<string>)
    ensures |lines| == |es|
  {
    if es == [] then [] else RowLines(Init(es)) + [CsvRow(Last(es))]
  }

  function JsonLinesOf(es: seq<Event>): (lines: seq<string>)
    ensures |lines| == |es|
  {
    if es == [] then [] else JsonLinesOf(Init(es)) + [JsonLine(Last(es))]
  }

  lemma NoNewlineInQuote(s: string, x: string)
    requires '\n' !in s && '\n' !in x
    ensures '\n' !in Quote(s) + ("," + x)
  {
  }

  lemma RowIsOneLine(e: Event)
    requires NewlineFree(e)
    ensures '\n' !in CsvRowText(e) && Lines(CsvRow(e)) == [CsvRow(e)]
  {
    var x5 := Quote(e.dst) + ",,";
    var x4 := Quote(e.file) + ("," + x5);
    var x3 := Quote(e.event) + ("," + x4);
    NoNewlineInQuote(e.file, x5);
    NoNewlineInQuote(e.event, x4);
    NoNewlineInQuote(e.process, x3);
    DecimalCharacters(e.pid);
    NoNewlineInQuote(e.time, Decimal(e.pid) + ("," + CsvRowEnd(e)));
    LinesOfOne(CsvRowText(e));
  }

  lemma {:induction false} RowsEnd(es: seq<Event>)
    ensures Rows(es) == "" || Last(Rows(es)) == '\n'
    ensures JsonFile(es) == "" || Last(JsonFile(es)) == '\n'
  {
    if es != [] {
      PrintedLine(Last(es));
    }
  }

  lemma {:induction false} LinesOfRows(es: seq<Event>)
    requires forall e :: e in es ==> NewlineFree(e)
    ensures Lines(Rows(es)) == RowLines(es)
  {
    if es != [] {
      Rejoined(es);
      LinesOfRows(Init(es));
      RowsEnd(Init(es));
      LinesAppend(Rows(Init(es)), CsvRow(Last(es)));
      RowIsOneLine(Last(es));
    }
  }

  lemma {:induction false} EscapedHasNoNewline(s: string)
    ensures '\n' !in EscapedAll(s)
  {
    if s != "" {
      EscapedHasNoNewline(s[1..]);
    }
  }

  lemma {:induction false} MembersHaveNoNewline(ms: seq<Member>)
    ensures '\n' !in RestText(ms)
  {
    if ms != [] {
      MembersHaveNoNewline(ms[1..]);
      EscapedHasNoNewline(ms[0].name);
      match ms[0].value
      case Str(v) => EscapedHasNoNewline(v);
      case Num(n) => DecimalCharacters(n);
    }
  }

  /** A JSON line is one physical line, whatever the strings of the event hold. */
  lemma JsonLineIsOneLine(e: Event)
    ensures Lines(JsonLine(e)) == [JsonLine(e)]
  {
    PrintedLine(e);
    MembersHaveNoNewline(Members(e));
    LinesOfOne(LineText(Members(e)));
  }

  lemma {:induction false} LinesOfJson(es: seq<Event>)
    ensures Lines(JsonFile(es)) == JsonLinesOf(es)
  {
    if es != [] {
      LinesOfJson(Init(es));
      RowsEnd(Init(es));
      LinesAppend(JsonFile(Init(es)), JsonLine(Last(es)));
      JsonLineIsOneLine(Last(es));
    }
  }

  // ----- JSON files -----

  lemma {:induction false} JsonLinesParsed(es: seq<Event>)
    requires forall e :: e in es ==> Writable(e) && e.Meaningful()
    ensures EachParsed(JsonLinesOf(es), es) <==> forall e :: e in es ==> CleanEvent(e) && Readable(e)
  {
    if es != [] {
      Rejoined(es);
      JsonLinesParsed(Init(es));
      JsonRoundTripIff(Last(es));
      assert Init(JsonLinesOf(es)) == JsonLinesOf(Init(es));
    }
  }

  /** A generated JSON file reads back as its events, line by line and in order, exactly if each of them
      survives its own round trip. */
  lemma JsonFileIff(es: seq<Event>)
    requires forall e :: e in es ==> Writable(e) && e.Meaningful()
    ensures Log(Lines(JsonFile(es))) == es <==> forall e :: e in es ==> CleanEvent(e) && Readable(e)
  {
    LinesOfJson(es);
    LogPointwise(JsonLinesOf(es), es);
    JsonLinesParsed(es);
  }

  // ----- what a line of a row can hold -----

  function Mark(c: char): nat { if c == '\\' then 2 else if c == '\n' then 1 else 0 }

  /** Backslashes count two, newlines one. Reading an escape turns two into one or four into two. */
  function Weight(s: string): nat { if s == "" then 0 else Mark(s[0]) + Weight(s[1..]) }

  /** The weight up to the first comma with a quote after it: no string token reads past that quote. */
  function Reach(t: string): nat {
    if t == "" || (t[0] == ',' && |t| > 1 && t[1] == '"') then 0 else Mark(t[0]) + Reach(t[1..])
  }

  predicate Bounded(t: string, m: nat) { Reach(t) <= m && (t != "" ==> Bounded(t[1..], m)) }

  /** The rest of a text after the end of a physical line and its trimmed carriage returns. */
  predicate Cut(q: string) { q != "" && (q[0] == '\n' || (q[0] == '\r' && Cut(q[1..]))) }

  /** A trimmed line, or the end of one, at the start of a bounded text. */
  ghost predicate LineIn(p: string, q: string, m: nat) {
    '\n' !in p && Bounded(p + q, m) && (p != "" && Last(p) == '\\' ==> Cut(q))
  }

  lemma {:induction false} CutReach(q: string)
    requires Cut(q)
    ensures Reach(q) > 0
  {
    if q[0] == '\r' {
      CutReach(q[1..]);
    }
  }

  lemma {:induction false} WeightAppend(a: string, b: string)
    ensures Weight(a + b) == Weight(a) + Weight(b)
  {
    if a == "" {
      assert a + b == b;
    } else {
      WeightAppend(a[1..], b);
      assert (a + b)[1..] == a[1..] + b;
    }
  }

  lemma WeightOfCons(c: char, s: string)
    ensures Weight([c] + s) == Mark(c) + Weight(s)
  {
    assert ([c] + s)[1..] == s;
  }

  /** What a token reads from the line weighs nothing, or less than the text it was read from. */
  lemma {:induction false} BodyWeight(p: string, q: string)
    requires '\n' !in p && (p != "" && Last(p) == '\\' ==> Cut(q))
    ensures var w := Weight(ReadBody(p).text);
            w == 0 || w < Reach(p + q)
    decreases |p|
  {
    if p == "" || p[0] == '"' {
    } else if p[0] == '\\' && |p| > 1 {
      BodyWeight(p[2..], q);
      PairWeight(p, q);
    } else if p[0] == '\\' {
      CutReach(q);
      assert (p + q)[1..] == q;
      assert ReadBody(p).text == ['\\'] + ReadBody("").text;
      WeightOfCons('\\', "");
    } else {
      BodyWeight(p[1..], q);
      assert (p + q)[1..] == p[1..] + q;
      WeightOfCons(p[0], ReadBody(p[1..]).text);
    }
  }

  lemma PairWeight(p: string, q: string)
    requires '\n' !in p && |p| > 1 && p[0] == '\\'
    requires var w := Weight(ReadBody(p[2..]).text); w == 0 || w < Reach(p[2..] + q)
    ensures var w := Weight(ReadBody(p).text);
            w == 0 || w < Reach(p + q)
  {
    var t := p + q;
    WeightOfCons(Unescaped(p[1]), ReadBody(p[2..]).text);
    assert t[1..] == p[1..] + q && t[1..][1..] == p[2..] + q;
    assert t[1..][0] == p[1];
    if p[1] == ',' && |t| > 2 && t[2] == '"' {
      assert |p| > 2 ==> p[2..][0] == '"';
      assert ReadBody(p[2..]).text == "";
    } else {
      assert Reach(t) == 2 + Mark(p[1]) + Reach(p[2..] + q);
    }
  }

  // ----- strings found in such a line -----

  lemma Shorter(p: string, q: string, m: nat)
    requires LineIn(p, q, m) && p != ""
    ensures LineIn(p[1..], q, m)
  {
    assert (p + q)[1..] == p[1..] + q;
  }

  lemma {:induction false} WsLineIn(p: string, q: string, m: nat)
    requires LineIn(p, q, m)
    ensures LineIn(SkipWs(p), q, m)
  {
    if p != "" && IsSpace(p[0]) {
      Shorter(p, q, m);
      WsLineIn(p[1..], q, m);
    }
  }

  lemma {:induction false} FoundLineIn(p: string, q: string, needle: string, m: nat)
    requires LineIn(p, q, m)
    ensures Find(p, needle).Some? ==> LineIn(Find(p, needle).value, q, m)
  {
    if !(needle <= p) && p != "" {
      Shorter(p, q, m);
      FoundLineIn(p[1..], q, needle, m);
    }
  }

  lemma {:induction false} AfterLineIn(p: string, q: string, c: char, m: nat)
    requires LineIn(p, q, m)
    ensures After(p, c).Some? ==> LineIn(After(p, c).value, q, m)
  {
    if p != "" {
      Shorter(p, q, m);
      if p[0] != c {
        AfterLineIn(p[1..], q, c, m);
      }
    }
  }

  lemma {:induction false} WeightOfPrefix(s: string, n: nat)
    requires n <= |s|
    ensures Weight(s[..n]) <= Weight(s)
  {
    WeightAppend(s[..n], s[n..]);
    assert s[..n] + s[n..] == s;
  }

  /** Nothing, or lighter than the bound. */
  predicate Light(s: string, m: nat) { Weight(s) == 0 || Weight(s) < m }

  lemma CopyIsLight(s: string, size: nat, m: nat)
    requires size > 0 && Light(s, m)
    ensures Light(CopyTrunc(s, size), m)
  {
    if |s| >= size {
      WeightOfPrefix(s, size - 1);
    }
  }

  lemma TokenIsLight(p: string, q: string, size: nat, m: nat)
    requires LineIn(p, q, m) && size > 0 && ReadToken(p).Some?
    ensures Light(CopyTrunc(ReadToken(p).value.text, size), m)
  {
    WsLineIn(p, q, m);
    var u := SkipWs(p);
    Shorter(u, q, m);
    BodyWeight(u[1..], q);
    CopyIsLight(ReadToken(p).value.text, size, m);
  }

  lemma StringIsLight(p: string, q: string, key: string, size: nat, m: nat)
    requires LineIn(p, q, m) && size > 0
    ensures Light(GetString(p, key, size), m)
  {
    FoundLineIn(p, q, Needle(key), m);
    if Find(p, Needle(key)).Some? {
      var found := Find(p, Needle(key)).value;
      AfterLineIn(found, q, ':', m);
      if After(found, ':').Some? && ReadToken(After(found, ':').value).Some? {
        TokenIsLight(After(found, ':').value, q, size, m);
      }
    }
  }

  predicate LightEvent(e: Event, m: nat) {
    Light(e.time, m) && Light(e.process, m) && Light(e.event, m) && Light(e.file, m) && Light(e.dst, m)
  }

  /** Every string of an event read from such a line as JSON is lighter than the bound. */
  lemma JsonEventIsLight(p: string, q: string, m: nat)
    requires LineIn(p, q, m)
    ensures LightEvent(JsonEvent(p), m)
  {
    StringIsLight(p, q, "time", TIME_SIZE, m);
    StringIsLight(p, q, "process", PROCESS_SIZE, m);
    StringIsLight(p, q, "event", EVENT_SIZE, m);
    StringIsLight(p, q, "file", MAX_STR, m);
    StringIsLight(p, q, "dst", MAX_STR, m);
    StringIsLight(p, q, "domain", MAX_STR, m);
    StringIsLight(p, q, "ip", MAX_STR, m);
    DestinationIsLight(JsonFields(p), m);
  }

  lemma DestinationIsLight(ev: Event, m: nat)
    requires LightEvent(ev, m) && Light(ev.domain, m) && Light(ev.ip, m)
    ensures LightEvent(ev.WithDestination(), m)
  {
    CopyIsLight(ev.domain, MAX_STR, m);
    CopyIsLight(ev.ip, MAX_STR, m);
  }

  // ----- fields of a CSV line without newline -----

  lemma {:induction false} QuotedKeepsOut(t: string)
    requires '\n' !in t
    ensures '\n' !in ReadQuoted(t).text && '\n' !in ReadQuoted(t).rest
  {
    if t != "" {
      if t[0] == '"' && |t| > 1 && t[1] == '"' {
        QuotedKeepsOut(t[2..]);
      } else if t[0] != '"' {
        QuotedKeepsOut(t[1..]);
      }
    }
  }

  lemma {:induction false} UnquotedKeepsOut(t: string)
    requires '\n' !in t
    ensures '\n' !in ReadUnquoted(t).text && '\n' !in ReadUnquoted(t).rest
  {
    if t != "" && t[0] != ',' {
      UnquotedKeepsOut(t[1..]);
    }
  }

  lemma {:induction false} CommaKeepsOut(t: string)
    requires '\n' !in t
    ensures '\n' !in PastComma(t)
  {
    if t != "" && t[0] != ',' {
      CommaKeepsOut(t[1..]);
    }
  }

  lemma {:induction false} FieldsKeepOut(t: string, max: nat)
    requires '\n' !in t
    ensures forall f :: f in Fields(t, max) ==> '\n' !in f
    decreases |t|
  {
    if t != "" && max > 0 {
      FieldShrinks(t);
      QuotedKeepsOut(t[1..]);
      UnquotedKeepsOut(t);
      CommaKeepsOut(ReadField(t).rest);
      FieldsKeepOut(PastComma(ReadField(t).rest), max - 1);
    }
  }

  lemma FieldKeepsOut(fields: seq<string>, i: nat, size: nat)
    requires size > 0 && forall f :: f in fields ==> '\n' !in f
    ensures '\n' !in FieldAt(fields, i, size)
  {
    if i < |fields| {
      assert fields[i] in fields;
    }
  }

  lemma DestinationKeepsOut(ev: Event)
    requires NewlineFree(ev) && '\n' !in ev.domain && '\n' !in ev.ip
    ensures NewlineFree(ev.WithDestination())
  {
  }

  /** An event read from a line as CSV has no newline in its strings. */
  lemma CsvEventIsNewlineFree(t: string)
    requires '\n' !in t
    ensures NewlineFree(CsvEvent(Fields(t, 8)))
  {
    var fields := Fields(t, 8);
    FieldsKeepOut(t, 8);
    FieldKeepsOut(fields, 0, TIME_SIZE);
    FieldKeepsOut(fields, 2, PROCESS_SIZE);
    FieldKeepsOut(fields, 3, EVENT_SIZE);
    FieldKeepsOut(fields, 4, MAX_STR);
    FieldKeepsOut(fields, 5, MAX_STR);
    FieldKeepsOut(fields, 6, MAX_STR);
    FieldKeepsOut(fields, 7, MAX_STR);
    DestinationKeepsOut(CsvFields(fields));
  }

  // ----- the weight of a row -----

  function EventWeight(e: Event): nat {
    Max(Max(Weight(e.time), Weight(e.process)), Max(Weight(e.event), Max(Weight(e.file), Weight(e.dst))))
  }

  predicate Unmarked(s: string) { forall i :: 0 <= i < |s| ==> Mark(s[i]) == 0 }

  lemma {:induction false} FieldBounded(s: string, x: string, m: nat)
    requires Reach(x) == 0 && Bounded(x, m) && Weight(s) <= m
    ensures Bounded(s + x, m) && Reach(s + x) <= Weight(s)
  {
    if s == "" {
      assert s + x == x;
    } else {
      assert (s + x)[1..] == s[1..] + x;
      FieldBounded(s[1..], x, m);
    }
  }

  lemma {:induction false} UnmarkedBounded(s: string, x: string, m: nat)
    requires Unmarked(s) && Bounded(x, m)
    ensures Bounded(s + x, m) && Reach(s + x) <= Reach(x)
  {
    if s == "" {
      assert s + x == x;
    } else {
      assert (s + x)[1..] == s[1..] + x;
      UnmarkedBounded(s[1..], x, m);
    }
  }

  /** Between two fields a token cannot read on. */
  lemma {:induction false} SeparatorStops(s: string, x: string)
    requires Unmarked(s)
    ensures Reach(s + (",\"" + x)) == 0
  {
    var t := s + (",\"" + x);
    if s == "" {
      assert t == ",\"" + x;
    } else {
      assert t[1..] == s[1..] + (",\"" + x);
      SeparatorStops(s[1..], x);
    }
  }

  /** One quoted field in front of the next one. */
  lemma QuotedBounded(s: string, sep: string, x: string, m: nat)
    requires Weight(s) <= m && Unmarked(sep) && Bounded(x, m)
    ensures Bounded(s + (sep + (",\"" + x)), m)
  {
    UnmarkedBounded(",\"", x, m);
    UnmarkedBounded(sep, ",\"" + x, m);
    SeparatorStops(sep, x);
    FieldBounded(s, sep + (",\"" + x), m);
  }

  /** A quoted field in front of a row's next quoted field. */
  lemma QuoteJoin(s: string, x: string)
    ensures Quote(s) + ("," + ("\"" + x)) == "\"" + (s + ("\"" + (",\"" + x)))
  {
    assert "," + ("\"" + x) == ",\"" + x;
    Associative("\"" + s, "\"", ",\"" + x);
    Associative("\"", s, "\"" + (",\"" + x));
  }

  lemma NumberJoin(s: string, n: string, x: string)
    ensures Quote(s) + ("," + (n + ("," + ("\"" + x)))) == "\"" + (s + (("\"," + n) + (",\"" + x)))
  {
    var y := ",\"" + x;
    assert "," + ("\"" + x) == y;
    Associative("\"" + s, "\"", "," + (n + y));
    Associative("\"", s, "\"" + ("," + (n + y)));
    Associative("\"", ",", n + y);
    assert "\"" + "," == "\",";
    Associative("\",", n, y);
  }

  /** The row from the process name on, after its first quote. */
  function AfterQuote(e: Event): string {
    var dst := e.dst + "\",,";
    var file := e.file + ("\"" + (",\"" + dst));
    var event := e.event + ("\"" + (",\"" + file));
    e.process + ("\"" + (",\"" + event))
  }

  lemma RowAsFields(e: Event)
    ensures CsvRowEnd(e) == "\"" + AfterQuote(e)
    ensures CsvRowText(e) == "\"" + (e.time + (("\"," + Decimal(e.pid)) + (",\"" + AfterQuote(e))))
  {
    var dst := e.dst + "\",,";
    var file := e.file + ("\"" + (",\"" + dst));
    var event := e.event + ("\"" + (",\"" + file));
    assert Quote(e.dst) + ",," == "\"" + dst;
    QuoteJoin(e.file, dst);
    QuoteJoin(e.event, file);
    QuoteJoin(e.process, event);
    NumberJoin(e.time, Decimal(e.pid), AfterQuote(e));
  }

  lemma EndBounded(e: Event, m: nat)
    requires EventWeight(e) <= m
    ensures Bounded(AfterQuote(e), m)
  {
    var dst := e.dst + "\",,";
    var file := e.file + ("\"" + (",\"" + dst));
    var event := e.event + ("\"" + (",\"" + file));
    UnmarkedBounded("\",,", "", m);
    assert "\",," + "" == "\",,";
    FieldBounded(e.dst, "\",,", m);
    QuotedBounded(e.file, "\"", dst, m);
    QuotedBounded(e.event, "\"", file, m);
    QuotedBounded(e.process, "\"", event, m);
  }

  /** No token of a row reaches further than the heaviest of its fields. */
  lemma RowBounded(e: Event)
    ensures Bounded(CsvRowText(e), EventWeight(e))
  {
    var m := EventWeight(e);
    RowAsFields(e);
    EndBounded(e, m);
    DecimalCharacters(e.pid);
    QuotedBounded(e.time, "\"," + Decimal(e.pid), AfterQuote(e), m);
    UnmarkedBounded("\"", e.time + (("\"," + Decimal(e.pid)) + (",\"" + AfterQuote(e))), m);
  }

  // ----- the physical lines of a row -----

  lemma {:induction false} TrimmedRest(x: string) returns (n: nat)
    requires '\n' !in x
    ensures n <= |x| && TrimNewline(x) == x[..n]
    ensures n == |x| || x[n] == '\r'
    ensures forall i :: n <= i < |x| ==> x[i] == '\r'
  {
    if x != "" && Last(x) == '\r' {
      n := TrimmedRest(Init(x));
    } else {
      n := |x|;
    }
  }

  lemma {:induction false} ReturnsCut(r: string, rest: string)
    requires forall i :: 0 <= i < |r| ==> r[i] == '\r'
    ensures Cut(r + ("\n" + rest))
  {
    if r == "" {
      assert r + ("\n" + rest) == "\n" + rest;
    } else {
      assert (r + ("\n" + rest))[1..] == r[1..] + ("\n" + rest);
      ReturnsCut(r[1..], rest);
    }
  }

  lemma TrimWithNewline(x: string)
    ensures TrimNewline(x + "\n") == TrimNewline(x)
  {
    assert Init(x + "\n") == x;
  }

  /** The first line of a text, if it is not the last. */
  lemma CutLine(x: string, rest: string, m: nat) returns (q: string)
    requires '\n' !in x && Bounded(x + ("\n" + rest), m)
    ensures LineIn(TrimNewline(x), q, m)
  {
    var n := TrimmedRest(x);
    ReturnsCut(x[n..], rest);
    q := x[n..] + ("\n" + rest);
    assert x[..n] + x[n..] == x;
    Associative(x[..n], x[n..], "\n" + rest);
  }

  lemma {:induction false} BoundedSuffix(a: string, b: string, m: nat)
    requires Bounded(a + b, m)
    ensures Bounded(b, m)
  {
    if a == "" {
      assert a + b == b;
    } else {
      assert (a + b)[1..] == a[1..] + b;
      BoundedSuffix(a[1..], b, m);
    }
  }

  /** Every line of a text that ends plainly is, once trimmed, a line at the start of a bounded text. */
  lemma {:induction false} EveryLineIn(t: string, l: string, m: nat) returns (q: string)
    requires Bounded(t, m) && t != "" && Last(t) == ','
    requires l in Lines(t + "\n")
    ensures LineIn(TrimNewline(l), q, m)
    decreases |t|
  {
    if '\n' !in t {
      LinesOfOne(t);
      TrimWithNewline(t);
      assert TrimNewline(t) == t && t + "" == t;
      q := "";
    } else {
      var x, rest := FirstLine(t);
      assert Last(rest) == ',';
      Associative(x, "\n", rest);
      Associative(x + "\n", rest, "\n");
      LinesAppend(x + "\n", rest + "\n");
      LinesOfOne(x);
      if l == x + "\n" {
        TrimWithNewline(x);
        q := CutLine(x, rest, m);
      } else {
        BoundedSuffix(x + "\n", rest, m);
        q := EveryLineIn(rest, l, m);
      }
    }
  }

  lemma {:induction false} FirstLine(t: string) returns (x: string, rest: string)
    requires '\n' in t && Last(t) == ','
    ensures '\n' !in x && t == x + "\n" + rest && rest != ""
  {
    if t[0] == '\n' {
      x, rest := "", t[1..];
    } else {
      assert t[1..] != "" && Last(t[1..]) == ',';
      x, rest := FirstLine(t[1..]);
      x := [t[0]] + x;
    }
  }

  // ----- CSV files -----

  lemma {:induction false} NewlineWeighs(s: string)
    requires '\n' in s
    ensures Weight(s) > 0
  {
    if s[0] != '\n' {
      NewlineWeighs(s[1..]);
    }
  }

  lemma LightIsLighter(e: Event, m: nat)
    requires LightEvent(e, m) && !NewlineFree(e)
    ensures EventWeight(e) < m
  {
    if '\n' in e.time {
      NewlineWeighs(e.time);
    } else if '\n' in e.process {
      NewlineWeighs(e.process);
    } else if '\n' in e.event {
      NewlineWeighs(e.event);
    } else if '\n' in e.file {
      NewlineWeighs(e.file);
    } else {
      NewlineWeighs(e.dst);
    }
  }

  lemma {:induction false} WsKeepsOut(t: string)
    requires '\n' !in t
    ensures '\n' !in SkipWs(t)
  {
    if t != "" && IsSpace(t[0]) {
      WsKeepsOut(t[1..]);
    }
  }

  /** An event with a newline that some line of a row yields is lighter than the row's own event, which then
      has a newline as well: only behind one can a line start that is read as JSON. */
  lemma YieldIsLighter(e: Event, l: string, read: Event)
    requires l in Lines(CsvRow(e)) && Classify(l) == Parsed(read) && !NewlineFree(read)
    ensures !NewlineFree(e) && EventWeight(read) < EventWeight(e)
  {
    var m, p := EventWeight(e), TrimNewline(l);
    RowBounded(e);
    RowEnd(e);
    var q := EveryLineIn(CsvRowText(e), l, m);
    WsLineIn(p, q, m);
    var u := SkipWs(p);
    CsvEventIsNewlineFree(u);
    assert read == JsonEvent(u) && u[0] == '{';
    JsonEventIsLight(u, q, m);
    LightIsLighter(read, m);
    if NewlineFree(e) {
      RowIsOneLine(e);
      TrimmedRow(e);
    }
  }

  lemma {:induction false} LineOfSomeRow(es: seq<Event>, l: string) returns (e: Event)
    requires l in Lines(Rows(es))
    ensures e in es && l in Lines(CsvRow(e))
  {
    Rejoined(es);
    RowsEnd(Init(es));
    LinesAppend(Rows(Init(es)), CsvRow(Last(es)));
    if l in Lines(CsvRow(Last(es))) {
      e := Last(es);
    } else {
      e := LineOfSomeRow(Init(es), l);
    }
  }

  lemma {:induction false} Heaviest(es: seq<Event>) returns (e: Event)
    requires exists x :: x in es && !NewlineFree(x)
    ensures e in es && !NewlineFree(e)
    ensures forall x :: x in es && !NewlineFree(x) ==> EventWeight(x) <= EventWeight(e)
  {
    Rejoined(es);
    if x :| x in Init(es) && !NewlineFree(x) {
      e := Heaviest(Init(es));
      if !NewlineFree(Last(es)) && EventWeight(Last(es)) > EventWeight(e) {
        e := Last(es);
      }
    } else {
      e := Last(es);
    }
  }

  /** Rows never give back an event with a newline: the heaviest such event would have to be read from the
      row of a heavier one. */
  lemma NewlinesAreLost(es: seq<Event>)
    requires exists x :: x in es && !NewlineFree(x)
    ensures Log(Lines(Rows(es))) != es
  {
    if Log(Lines(Rows(es))) == es {
      var e := Heaviest(es);
      LogIsShort(Lines(Rows(es)));
      var l :| l in Lines(Rows(es)) && Classify(l) == Parsed(e);
      var owner := LineOfSomeRow(es, l);
      YieldIsLighter(owner, l, e);
    }
  }

  lemma {:induction false} RowLinesParsed(es: seq<Event>)
    requires forall e :: e in es ==> Writable(e) && e.Meaningful()
    ensures (forall e :: e in es ==> QuoteFree(e)) ==> EachParsed(RowLines(es), es)
    ensures EachParsed(RowLines(es), es) && (forall e :: e in es ==> Roomy(e)) ==> forall e :: e in es ==> QuoteFree(e)
  {
    if es != [] {
      Rejoined(es);
      RowLinesParsed(Init(es));
      assert Init(RowLines(es)) == RowLines(Init(es));
      var e := Last(es);
      assert e in es;
      if QuoteFree(e) {
        CsvRoundTrip(e);
      }
      if Roomy(e) {
        CsvRoundTripIff(e);
      }
    }
  }

  /** Rows whose fields hold neither quotes nor newlines read back as their events, commas and all. */
  lemma RowsReadBack(es: seq<Event>)
    requires forall e :: e in es ==> Writable(e) && e.Meaningful() && QuoteFree(e) && NewlineFree(e)
    ensures Log(Lines(Rows(es))) == es
  {
    LinesOfRows(es);
    RowLinesParsed(es);
    LogPointwise(RowLines(es), es);
  }

  /** Exactly when rows read back, given one byte of room in every buffer. */
  lemma RowsReadBackIff(es: seq<Event>)
    requires forall e :: e in es ==> Writable(e) && e.Meaningful() && Roomy(e)
    ensures Log(Lines(Rows(es))) == es <==> forall e :: e in es ==> QuoteFree(e) && NewlineFree(e)
  {
    if forall e :: e in es ==> NewlineFree(e) {
      LinesOfRows(es);
      RowLinesParsed(es);
      LogPointwise(RowLines(es), es);
    } else {
      NewlinesAreLost(es);
    }
  }

  predicate PlainText(s: string) { s != "" && s[0] != '"' && ',' !in s && '\n' !in s && |s| < MAX_STR }

  lemma PlainField(s: string, x: string, n: nat)
    requires PlainText(s) && n > 0
    ensures Fields(s + ("," + x), n) == [s] + Fields(x, n - 1)
  {
    ReadUnquotedOf(s, "," + x);
    FieldsStep(s + ("," + x), n, s, x);
  }

  lemma ThreeFields(a: string, b: string, c: string, x: string)
    requires PlainText(a) && PlainText(b) && PlainText(c)
    ensures var fields := Fields(a + ("," + (b + ("," + (c + ("," + x))))), 8);
            |fields| >= 3 && fields[0] == a && fields[1] == b && fields[2] == c
  {
    PlainField(a, b + ("," + (c + ("," + x))), 8);
    PlainField(b, c + ("," + x), 7);
    PlainField(c, x, 6);
  }

  lemma HeaderNames()
    ensures PlainText("time") && PlainText("pid") && PlainText("process") && '\n' !in "event,file,dst,domain,ip"
  {
  }

  lemma HeaderFields()
    ensures IsHeader(Fields(HeaderText(), 8)) && '\n' !in HeaderText()
  {
    HeaderNames();
    ThreeFields("time", "pid", "process", "event,file,dst,domain,ip");
  }

  /** A line of fields that head a table. */
  lemma HeadingLine(text: string)
    requires text != "" && text[0] == 't' && Last(text) == 'p' && IsHeader(Fields(text, 8))
    ensures Classify(text + "\n") == Header
  {
    TrimWithNewline(text);
  }

  lemma HeaderEnds()
    ensures HeaderText() != "" && HeaderText()[0] == 't' && Last(HeaderText()) == 'p'
  {
    var a := "process" + ("," + "event,file,dst,domain,ip");
    assert Last(a) == 'p';
    var b := "pid" + ("," + a);
    assert Last(b) == 'p';
  }

  /** The first line of a generated CSV file counts as a header, neither as an event nor as malformed. */
  lemma HeaderIsHeader()
    ensures Lines(HeaderLine()) == [HeaderLine()] && Classify(HeaderLine()) == Header
  {
    HeaderFields();
    HeaderEnds();
    HeadingLine(HeaderText());
    LinesOfOne(HeaderText());
  }

  lemma HeaderAddsNothing(es: seq<Event>)
    ensures Log(Lines(CsvFile(es))) == Log(Lines(Rows(es)))
  {
    HeaderIsHeader();
    LinesAppend(HeaderLine(), Rows(es));
    LogAppend([HeaderLine()], Lines(Rows(es)));
    assert Init([HeaderLine()]) == [];
  }

  /** A generated CSV file reads back as its events, in order and whatever else is between them, exactly if
      no field holds a quote or a newline. */
  lemma CsvFileIff(es: seq<Event>)
    requires forall e :: e in es ==> Writable(e) && e.Meaningful() && Roomy(e)
    ensures Log(Lines(CsvFile(es))) == es <==> forall e :: e in es ==> QuoteFree(e) && NewlineFree(e)
  {
    HeaderAddsNothing(es);
    RowsReadBackIff(es);
  }

  /** Both formats of the generator carry the same events. */
  lemma FormatsAgree(es: seq<Event>)
    requires forall e :: e in es ==> Writable(e) && e.Meaningful() && QuoteFree(e) && NewlineFree(e)
    requires forall e :: e in es ==> CleanEvent(e) && Readable(e)
    ensures Log(Lines(CsvFile(es))) == Log(Lines(JsonFile(es))) == es
  {
    HeaderAddsNothing(es);
    RowsReadBack(es);
    JsonFileIff(es);
  }
}

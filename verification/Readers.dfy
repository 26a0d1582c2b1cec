/** What the line readers take from a line: every column, the destination, and which lines count. */
module Readers {
  import opened Base
  import opened Text
  import opened CsvText
  import opened Events
  import opened CsvRows

  /** The first of three strings that is not empty, if any is. */
  function FirstNonEmpty(a: string, b: string, c: string): string {
    if a != "" then a else if b != "" then b else c
  }

  function Column(fields: seq<string>, i: nat): string { if i < |fields| then fields[i] else "" }

  lemma DestinationFallsBack(read: Event)
    requires read.Fits()
    ensures var ev := read.WithDestination();
            && ev == read.(dst := ev.dst)
            && ev.dst == FirstNonEmpty(read.dst, read.ip, read.domain)
            && (ev.dst == "" ==> ev.ip == ev.domain == "")
  {
  }

  lemma JsonStringsFit(p: string)
    ensures JsonFields(p).Fits()
  {
  }

  /** The event of a JSON line: its destination is the first non-empty string under the keys `dst`, `ip` and
      `domain`, so it is empty only if all three are. */
  lemma JsonLineDestination(line: string, p: string)
    requires p == SkipWs(TrimNewline(line)) && p != "" && p[0] == '{' && Classify(line).Parsed?
    ensures var ev := Classify(line).ev;
            var dst, ip, domain := GetString(p, "dst", 512), GetString(p, "ip", 512), GetString(p, "domain", 512);
            && ev.dst == FirstNonEmpty(dst, ip, domain)
            && ev.ip == ip && ev.domain == domain
            && (ev.dst == "" ==> dst == ip == domain == "")
            && ev.time == GetString(p, "time", 96) && ev.process == GetString(p, "process", 128)
            && ev.event == GetString(p, "event", 64) && ev.file == GetString(p, "file", 512)
  {
    JsonStringsFit(p);
    DestinationFallsBack(JsonFields(p));
  }

  lemma CsvStringsFit(fields: seq<string>)
    ensures CsvFields(fields).Fits()
  {
  }

  lemma {:induction false} FieldsAreShort(t: string, max: nat)
    ensures |Fields(t, max)| <= max
    ensures forall f :: f in Fields(t, max) ==> |f| < 512
    decreases |t|
  {
    if t != "" && max > 0 {
      FieldShrinks(t);
      FieldsAreShort(PastComma(ReadField(t).rest), max - 1);
    }
  }

  lemma ColumnsAre(t: string)
    ensures var ev, fields := CsvFields(Fields(t, 8)), Fields(t, 8);
            && ev.file == Column(fields, 4) && ev.dst == Column(fields, 5)
            && ev.domain == Column(fields, 6) && ev.ip == Column(fields, 7)
  {
    FieldsAreShort(t, 8);
    var fields := Fields(t, 8);
    assert forall i :: 0 <= i < |fields| ==> fields[i] in fields;
  }

  /** The event of a CSV line: its destination is the first non-empty one of the columns of the destination,
      the address and the domain. */
  lemma CsvLineDestination(line: string, p: string)
    requires p == SkipWs(TrimNewline(line)) && !(p != "" && p[0] == '{') && Classify(line).Parsed?
    ensures var ev, fields := Classify(line).ev, Fields(p, 8);
            var dst, domain, ip := Column(fields, 5), Column(fields, 6), Column(fields, 7);
            && ev.dst == FirstNonEmpty(dst, ip, domain)
            && ev.ip == ip && ev.domain == domain && ev.file == Column(fields, 4)
            && (ev.dst == "" ==> dst == ip == domain == "")
  {
    CsvStringsFit(Fields(p, 8));
    ColumnsAre(p);
    DestinationFallsBack(CsvFields(Fields(p, 8)));
  }

  // ----- which lines count -----

  /** Blank lines and comments are passed over, whatever they say. */
  lemma CommentsAreSkipped(text: string)
    ensures Classify("") == Classify("\n") == Classify("\r\n") == Skipped
    ensures Classify("#" + text) == Skipped
  {
    assert Init("\n") == "" && Init("\r\n") == "\r" && Init("\r") == "";
    FirstStays("#" + text);
  }

  lemma {:induction false} FirstStays(s: string)
    requires s != "" && s[0] != '\n' && s[0] != '\r'
    ensures TrimNewline(s) != "" && TrimNewline(s)[0] == s[0]
  {
    if Last(s) == '\n' || Last(s) == '\r' {
      FirstStays(Init(s));
    }
  }

  /** A JSON line is rejected exactly if it names neither a non-negative pid nor a process nor an event. */
  lemma JsonRejectedIff(line: string, p: string)
    requires p == SkipWs(TrimNewline(line)) && p != "" && p[0] == '{' && TrimNewline(line)[0] != '#'
    ensures Classify(line).Rejected? <==>
            && (GetLong(p, "pid").None? || GetLong(p, "pid").value < 0)
            && GetString(p, "process", 128) == "" && GetString(p, "event", 64) == ""
  {
  }

  /** A CSV line that is no header is rejected exactly if it has no column, or its pid column holds no
      non-negative number and its process and event columns are empty. */
  lemma CsvRejectedIff(line: string, p: string)
    requires p == SkipWs(TrimNewline(line)) && p != "" && p[0] != '{' && TrimNewline(line)[0] != '#'
    requires !IsHeader(Fields(p, 8))
    ensures var fields := Fields(p, 8);
            Classify(line).Rejected? <==>
            && (ParseLong(Column(fields, 1)).None? || ParseLong(Column(fields, 1)).value < 0)
            && Column(fields, 2) == "" && Column(fields, 3) == ""
  {
    NoNumber("");
    EmptyCut(Column(Fields(p, 8), 2), PROCESS_SIZE);
    EmptyCut(Column(Fields(p, 8), 3), EVENT_SIZE);
  }

  lemma EmptyCut(s: string, size: nat)
    requires size > 1
    ensures CopyTrunc(s, size) == "" <==> s == ""
  {
  }

  /** Column names count in any case. */
  lemma HeaderInAnyCase(rest: seq<string>)
    ensures IsHeader(["time", "pid", "process"] + rest) && IsHeader(["TIME", "Pid", "PROCESS"] + rest)
  {
    assert |"TIME"| == |"time"| && |"Pid"| == |"pid"| && |"PROCESS"| == |"process"|;
  }

  // ----- a row with all eight columns -----

  function FullRow(e: Event): string {
    Quote(e.time) + ("," + (Decimal(e.pid) + ("," + FullRowEnd(e)))) + "\n"
  }

  function FullRowEnd(e: Event): string {
    Quote(e.process) + ("," + (Quote(e.event) + ("," + (Quote(e.file) + ("," + (Quote(e.dst) + ("," +
    (Quote(e.domain) + ("," + Quote(e.ip))))))))))
  }

  predicate NoQuotes(e: Event) {
    && '"' !in e.time && '"' !in e.process && '"' !in e.event && '"' !in e.file && '"' !in e.dst
    && '"' !in e.domain && '"' !in e.ip
  }

  lemma LastQuoted(s: string, n: nat)
    requires '"' !in s && |s| < 512 && n > 0
    ensures Fields(Quote(s), n) == [s]
  {
    assert Quote(s)[1..] == s + "\"";
    assert "\""[1..] == "";
    QuotedPrefix(s, "\"");
    assert s + "" == s;
    assert ReadField(Quote(s)) == Piece(s, "");
  }

  lemma LastThreeFields(dst: string, domain: string, ip: string)
    requires '"' !in dst && '"' !in domain && '"' !in ip && |dst| < 512 && |domain| < 512 && |ip| < 512
    ensures Fields(Quote(dst) + ("," + (Quote(domain) + ("," + Quote(ip)))), 3) == [dst, domain, ip]
  {
    LastQuoted(ip, 1);
    QuotedField(domain, Quote(ip), 2);
    QuotedField(dst, Quote(domain) + ("," + Quote(ip)), 3);
  }

  lemma FullRowFields(e: Event)
    requires e.Fits() && NoQuotes(e)
    ensures Fields(FullRowEnd(e), 6) == [e.process, e.event, e.file, e.dst, e.domain, e.ip]
  {
    var x5 := Quote(e.dst) + ("," + (Quote(e.domain) + ("," + Quote(e.ip))));
    var x4 := Quote(e.file) + ("," + x5);
    var x3 := Quote(e.event) + ("," + x4);
    LastThreeFields(e.dst, e.domain, e.ip);
    QuotedField(e.file, x5, 4);
    QuotedField(e.event, x4, 5);
    QuotedField(e.process, x3, 6);
  }

  lemma EightFields(e: Event, fields: seq<string>)
    requires e.Fits()
    requires fields == [e.time, Decimal(e.pid), e.process, e.event, e.file, e.dst, e.domain, e.ip]
    ensures CsvFields(fields) == e
  {
    DecimalCharacters(e.pid);
    DecimalRoundTrip(e.pid, "");
    assert Decimal(e.pid) + "" == Decimal(e.pid);
  }

  lemma FullRowTrimmed(e: Event)
    ensures var t := Quote(e.time) + ("," + (Decimal(e.pid) + ("," + FullRowEnd(e))));
            TrimNewline(FullRow(e)) == t == SkipWs(t) && t != "" && t[0] == '"'
  {
    var t := Quote(e.time) + ("," + (Decimal(e.pid) + ("," + FullRowEnd(e))));
    FullRowLast(e);
    assert Init(t + "\n") == t;
  }

  lemma FullRowLast(e: Event)
    ensures Last(Quote(e.time) + ("," + (Decimal(e.pid) + ("," + FullRowEnd(e))))) == '"'
  {
    var x7 := Quote(e.ip);
    var x6 := Quote(e.domain) + ("," + x7);
    var x5 := Quote(e.dst) + ("," + x6);
    var x4 := Quote(e.file) + ("," + x5);
    var x3 := Quote(e.event) + ("," + x4);
    assert Last(x7) == '"' && Last(x6) == Last(x7) && Last(x5) == Last(x6) && Last(x4) == Last(x5);
    assert Last(x3) == Last(x4) && Last(FullRowEnd(e)) == Last(x3);
    assert Last(Decimal(e.pid) + ("," + FullRowEnd(e))) == '"';
  }

  /** A row with all eight columns, quoted and free of quotes inside, gives each column to its own field, and
      the destination falls back to the address, then to the domain. */
  lemma FullRowReadsBack(e: Event)
    requires e.Fits() && e.Meaningful() && NoQuotes(e)
    ensures Classify(FullRow(e)) == Parsed(e.(dst := FirstNonEmpty(e.dst, e.ip, e.domain)))
  {
    FullRowTrimmed(e);
    var fields := [e.time] + ([Decimal(e.pid)] + [e.process, e.event, e.file, e.dst, e.domain, e.ip]);
    assert Fields(Quote(e.time) + ("," + (Decimal(e.pid) + ("," + FullRowEnd(e)))), 8) == fields by {
      FullRowFields(e);
      NumberField(e.pid, FullRowEnd(e), 7);
      QuotedField(e.time, Decimal(e.pid) + ("," + FullRowEnd(e)), 8);
    }
    NumberIsNoHeader(fields, e.pid);
    EightFields(e, fields);
    DestinationFallsBack(e);
  }
}

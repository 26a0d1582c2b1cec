/** What the CSV reader recovers from the rows the generator writes. */
module CsvRows {
  import opened Base
  import opened Text
  import opened CsvText
  import opened Events

  // ----- field by field -----

  lemma {:induction false} ReadUnquotedOf(s: string, rest: string)
    requires ',' !in s && rest != "" && rest[0] == ','
    ensures ReadUnquoted(s + rest) == Piece(s, rest)
  {
    if s == "" {
      assert s + rest == rest;
    } else {
      assert (s + rest)[1..] == s[1..] + rest;
      ReadUnquotedOf(s[1..], rest);
      assert [s[0]] + s[1..] == s;
    }
  }

  lemma CommaNext(x: string)
    ensures PastComma("," + x) == x
  {
    assert ("," + x)[1..] == x;
  }

  lemma FieldsStep(t: string, n: nat, s: string, x: string)
    requires t != "" && n > 0 && ReadField(t) == Piece(s, "," + x)
    ensures Fields(t, n) == [CopyTrunc(s, MAX_STR)] + Fields(x, n - 1)
  {
    CommaNext(x);
  }

  lemma QuotedField(s: string, x: string, n: nat)
    requires '"' !in s && |s| < MAX_STR && n > 0
    ensures Fields(Quote(s) + ("," + x), n) == [s] + Fields(x, n - 1)
  {
    PlainFieldReadsBackIff(s, "," + x);
    FieldsStep(Quote(s) + ("," + x), n, s, x);
  }

  lemma NumberField(pid: int, x: string, n: nat)
    requires -LONG_MAX - 1 <= pid <= LONG_MAX && n > 0
    ensures Fields(Decimal(pid) + ("," + x), n) == [Decimal(pid)] + Fields(x, n - 1)
  {
    DecimalCharacters(pid);
    DecimalLength(pid);
    var t := Decimal(pid) + ("," + x);
    assert t[0] == Decimal(pid)[0];
    ReadUnquotedOf(Decimal(pid), "," + x);
    FieldsStep(t, n, Decimal(pid), x);
  }

  lemma BrokenField(s: string, x: string, n: nat, size: nat)
    requires '"' in s && |s| + 1 < size <= MAX_STR && n > 0
    ensures FieldAt(Fields(Quote(s) + ("," + x), n), 0, size) != s
  {
    PlainFieldReadsBackIff(s, "," + x);
    var text := ReadField(Quote(s) + ("," + x)).text;
    assert Fields(Quote(s) + ("," + x), n)[0] == CopyTrunc(text, MAX_STR);
  }

  lemma LastFields(dst: string, n: nat)
    requires '"' !in dst && |dst| < MAX_STR && n >= 2
    ensures Fields(Quote(dst) + ",,", n) == [dst, ""]
  {
    QuotedField(dst, ",", n);
    assert Quote(dst) + ("," + ",") == Quote(dst) + ",,";
    FieldsStep(",", n - 1, "", "");
  }

  // ----- whole rows -----

  ghost predicate QuoteFree(e: Event) {
    '"' !in e.time && '"' !in e.process && '"' !in e.event && '"' !in e.file && '"' !in e.dst
  }

  lemma RowEndFields(e: Event)
    requires Writable(e) && QuoteFree(e)
    ensures Fields(CsvRowEnd(e), 6) == [e.process, e.event, e.file, e.dst, ""]
  {
    var x5 := Quote(e.dst) + ",,";
    var x4 := Quote(e.file) + ("," + x5);
    var x3 := Quote(e.event) + ("," + x4);
    LastFields(e.dst, 3);
    QuotedField(e.file, x5, 4);
    QuotedField(e.event, x4, 5);
    QuotedField(e.process, x3, 6);
  }

  /** The seven fields of a quote-free row; the empty eighth is not counted. */
  lemma RowFields(e: Event)
    requires Writable(e) && QuoteFree(e)
    ensures Fields(CsvRowText(e), 8) == [e.time, Decimal(e.pid), e.process, e.event, e.file, e.dst, ""]
  {
    RowEndFields(e);
    NumberField(e.pid, CsvRowEnd(e), 7);
    QuotedField(e.time, Decimal(e.pid) + ("," + CsvRowEnd(e)), 8);
  }

  lemma TrimmedRow(e: Event)
    ensures TrimNewline(CsvRow(e)) == CsvRowText(e) != ""
    ensures CsvRowText(e)[0] == '"' && SkipWs(CsvRowText(e)) == CsvRowText(e)
  {
    var t := CsvRowText(e);
    RowEnd(e);
    assert Init(t + "\n") == t;
  }

  lemma RowEnd(e: Event)
    ensures CsvRowText(e) != "" && Last(CsvRowText(e)) == ',' && CsvRowText(e)[0] == '"'
  {
    var x5 := Quote(e.dst) + ",,";
    var x4 := Quote(e.file) + ("," + x5);
    var x3 := Quote(e.event) + ("," + x4);
    assert Last(x5) == ',' && Last(x4) == Last(x5) && Last(x3) == Last(x4) && Last(CsvRowEnd(e)) == Last(x3);
    var x1 := Decimal(e.pid) + ("," + CsvRowEnd(e));
    assert Last(x1) == ',';
  }

  lemma NumberIsNoHeader(fields: seq<string>, pid: int)
    requires |fields| > 1 && fields[1] == Decimal(pid)
    ensures !IsHeader(fields)
  {
    DecimalCharacters(pid);
    assert Lower(Decimal(pid)[0]) != Lower("pid"[0]);
  }

  lemma EventOfFields(e: Event, fields: seq<string>)
    requires Writable(e) && fields == [e.time, Decimal(e.pid), e.process, e.event, e.file, e.dst, ""]
    ensures CsvEvent(fields) == e
  {
    DecimalCharacters(e.pid);
    DecimalRoundTrip(e.pid, "");
    assert Decimal(e.pid) + "" == Decimal(e.pid);
  }

  /** The text of a row without quotes inside its fields, handed over as one line, is parsed to its event,
      commas and all. */
  lemma CsvRoundTrip(e: Event)
    requires Writable(e) && e.Meaningful() && QuoteFree(e)
    ensures Classify(CsvRow(e)) == Parsed(e)
  {
    TrimmedRow(e);
    RowFields(e);
    var fields := Fields(CsvRowText(e), 8);
    NumberIsNoHeader(fields, e.pid);
    EventOfFields(e, fields);
  }

  /** Room for one more character in each text buffer than the event needs. */
  ghost predicate Roomy(e: Event) {
    && |e.time| + 1 < TIME_SIZE && |e.process| + 1 < PROCESS_SIZE && |e.event| + 1 < EVENT_SIZE
    && |e.file| + 1 < MAX_STR && |e.dst| + 1 < MAX_STR
  }

  lemma BrokenLastTwo(e: Event)
    requires Writable(e) && Roomy(e) && ('"' in e.file || '"' in e.dst)
    ensures var fields := Fields(Quote(e.file) + ("," + (Quote(e.dst) + ",,")), 4);
            FieldAt(fields, 0, MAX_STR) != e.file || FieldAt(fields, 1, MAX_STR) != e.dst
  {
    var x5 := Quote(e.dst) + ",,";
    if '"' in e.file {
      BrokenField(e.file, x5, 4, MAX_STR);
    } else {
      QuotedField(e.file, x5, 4);
      assert Quote(e.dst) + ("," + ",") == x5;
      BrokenField(e.dst, ",", 3, MAX_STR);
    }
  }

  /** Among the fields from the process name on, the first with a quote inside is read as something else. */
  lemma BrokenRowEnd(e: Event)
    requires Writable(e) && Roomy(e)
    requires '"' in e.process || '"' in e.event || '"' in e.file || '"' in e.dst
    ensures var fields := Fields(CsvRowEnd(e), 6);
            || FieldAt(fields, 0, PROCESS_SIZE) != e.process || FieldAt(fields, 1, EVENT_SIZE) != e.event
            || FieldAt(fields, 2, MAX_STR) != e.file || FieldAt(fields, 3, MAX_STR) != e.dst
  {
    var x4 := Quote(e.file) + ("," + (Quote(e.dst) + ",,"));
    var x3 := Quote(e.event) + ("," + x4);
    if '"' in e.process {
      BrokenField(e.process, x3, 6, PROCESS_SIZE);
    } else {
      QuotedField(e.process, x3, 6);
      if '"' in e.event {
        BrokenField(e.event, x4, 5, EVENT_SIZE);
      } else {
        QuotedField(e.event, x4, 5);
        BrokenLastTwo(e);
      }
    }
  }

  lemma BrokenRow(e: Event)
    requires Writable(e) && Roomy(e) && !QuoteFree(e)
    ensures CsvFields(Fields(CsvRowText(e), 8)) != e
  {
    var x1 := Decimal(e.pid) + ("," + CsvRowEnd(e));
    if '"' in e.time {
      BrokenField(e.time, x1, 8, TIME_SIZE);
    } else {
      var tail := Fields(CsvRowEnd(e), 6);
      BrokenRowEnd(e);
      ShiftedFields(e.time, Decimal(e.pid), tail);
      assert Fields(CsvRowText(e), 8) == [e.time] + ([Decimal(e.pid)] + tail) by {
        QuotedField(e.time, x1, 8);
        NumberField(e.pid, CsvRowEnd(e), 7);
      }
    }
  }

  lemma ShiftedFields(time: string, pid: string, tail: seq<string>)
    ensures var ev := CsvFields([time] + ([pid] + tail));
            && ev.process == FieldAt(tail, 0, PROCESS_SIZE) && ev.event == FieldAt(tail, 1, EVENT_SIZE)
            && ev.file == FieldAt(tail, 2, MAX_STR) && ev.dst == FieldAt(tail, 3, MAX_STR)
  {
  }

  /** Exactly when the text of a row, handed over as one line, reads back: no quote inside any field. An event
      that fills a buffer to the last byte can hide the damage behind its truncation (see
      `TruncationHidesQuote`), so the converse asks for one byte of room. */
  lemma CsvRoundTripIff(e: Event)
    requires Writable(e) && e.Meaningful() && Roomy(e)
    ensures Classify(CsvRow(e)) == Parsed(e) <==> QuoteFree(e)
  {
    if QuoteFree(e) {
      CsvRoundTrip(e);
    } else {
      BrokenRow(e);
      TrimmedRow(e);
      DestinationOnlyAdded(CsvFields(Fields(CsvRowText(e), 8)), e);
    }
  }

  /** Filling in a destination cannot repair an event that was read without domain and address. */
  lemma DestinationOnlyAdded(read: Event, e: Event)
    requires Writable(e) && read != e
    ensures read.WithDestination() != e
  {
  }

  // ----- the corner that the converse leaves out -----

  lemma {:induction false} QuotedPrefix(g: string, t: string)
    requires '"' !in g
    ensures ReadQuoted(g + t) == Piece(g + ReadQuoted(t).text, ReadQuoted(t).rest)
  {
    if g == "" {
      assert g + t == t;
    } else {
      assert (g + t)[1..] == g[1..] + t;
      QuotedPrefix(g[1..], t);
      assert [g[0]] + g[1..] == g;
    }
  }

  lemma DoubledThenEnd()
    ensures ReadQuoted("\"\",,") == Piece("\",,", "")
  {
    var t := "\"\",,";
    assert t[2..] == ",,";
    assert ",,"[1..] == ",";
    assert ReadQuoted(",,") == Piece(",,", "");
  }

  lemma FullFieldReadsBack(g: string, n: nat)
    requires '"' !in g && |g| + 2 == MAX_STR && n > 0
    ensures Fields(Quote(g + "\"") + ",,", n) == [g + "\""]
  {
    var t := Quote(g + "\"") + ",,";
    assert t[1..] == g + "\"\",,";
    QuotedPrefix(g, "\"\",,");
    DoubledThenEnd();
    assert (g + "\",,")[..MAX_STR - 1] == g + "\"";
  }

  /** A destination of 511 characters whose only quote is its last one does read back, although the quote
      swallows the end of the row: what it adds is cut off with the buffer. */
  lemma TruncationHidesQuote(e: Event, g: string)
    requires Writable(e) && e.Meaningful() && e.dst == g + "\"" && |e.dst| == 511
    requires '"' !in e.time && '"' !in e.process && '"' !in e.event && '"' !in e.file && '"' !in g
    ensures Classify(CsvRow(e)) == Parsed(e)
  {
    var x5 := Quote(e.dst) + ",,";
    var x4 := Quote(e.file) + ("," + x5);
    var x3 := Quote(e.event) + ("," + x4);
    var fields := [e.time] + ([Decimal(e.pid)] + [e.process, e.event, e.file, e.dst]);
    assert Fields(CsvRowEnd(e), 6) == [e.process, e.event, e.file, e.dst] by {
      FullFieldReadsBack(g, 3);
      QuotedField(e.file, x5, 4);
      QuotedField(e.event, x4, 5);
      QuotedField(e.process, x3, 6);
    }
    assert Fields(CsvRowText(e), 8) == fields by {
      NumberField(e.pid, CsvRowEnd(e), 7);
      QuotedField(e.time, Decimal(e.pid) + ("," + CsvRowEnd(e)), 8);
    }
    TrimmedRow(e);
    NumberIsNoHeader(fields, e.pid);
    SixFields(e, fields);
  }

  lemma SixFields(e: Event, fields: seq<string>)
    requires Writable(e) && fields == [e.time, Decimal(e.pid), e.process, e.event, e.file, e.dst]
    ensures CsvEvent(fields) == e
  {
    DecimalCharacters(e.pid);
    DecimalRoundTrip(e.pid, "");
    assert Decimal(e.pid) + "" == Decimal(e.pid);
  }
}

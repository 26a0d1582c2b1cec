/** Events, the two line formats that carry them, and the reader that accepts either. */
module Events {
  import opened Base
  import opened Text
  import opened JsonText
  import opened CsvText

  const TIME_SIZE: nat := 96
  const PROCESS_SIZE: nat := 128
  const EVENT_SIZE: nat := 64

  datatype Event = Event(
    time: string, pid: int, process: string, event: string, file: string, dst: string, domain: string, ip: string)
  {
    /** The fields fit the buffers of the event record. */
    predicate Fits() {
      && |time| < TIME_SIZE && |process| < PROCESS_SIZE && |event| < EVENT_SIZE
      && |file| < MAX_STR && |dst| < MAX_STR && |domain| < MAX_STR && |ip| < MAX_STR
      && -LONG_MAX - 1 <= pid <= LONG_MAX
    }

    /** What the reader demands of an event. */
    predicate Meaningful() { pid >= 0 || process != "" || event != "" }

    /** An event without destination takes its address, or else its domain, as destination. */
    function WithDestination(): Event {
      if dst != "" then this
      else if ip != "" then this.(dst := CopyTrunc(ip, MAX_STR))
      else if domain != "" then this.(dst := CopyTrunc(domain, MAX_STR))
      else this
    }
  }

  datatype Outcome = Parsed(ev: Event) | Header | Rejected | Skipped

  function Accepted(ev: Event): Outcome { if ev.Meaningful() then Parsed(ev) else Rejected }

  // ----- JSON lines -----

  function Needle(key: string): string { "\"" + key + "\"" }

  /** The text after the first colon after the first occurrence of a quoted key. */
  function AfterKey(line: string, key: string): Option<string> {
    match Find(line, Needle(key))
    case None => None
    case Some(p) => After(p, ':')
  }

  /** What the zeroed buffer of a field holds after the string of a key was looked up. */
  function GetString(line: string, key: string, size: nat): string
    requires size > 0
  {
    match AfterKey(line, key)
    case None => ""
    case Some(t) => if ReadToken(t).None? then "" else CopyTrunc(ReadToken(t).value.text, size)
  }

  function GetLong(line: string, key: string): Option<int> {
    match AfterKey(line, key)
    case None => None
    case Some(t) => ParseLong(t)
  }

  function JsonEvent(line: string): Event { JsonFields(line).WithDestination() }

  function JsonFields(line: string): Event {
    var pid := GetLong(line, "pid");
    Event(GetString(line, "time", TIME_SIZE),
          if pid.Some? then pid.value else -1,
          GetString(line, "process", PROCESS_SIZE),
          GetString(line, "event", EVENT_SIZE),
          GetString(line, "file", MAX_STR),
          GetString(line, "dst", MAX_STR),
          GetString(line, "domain", MAX_STR),
          GetString(line, "ip", MAX_STR))
  }

  // ----- CSV lines -----

  predicate IsHeader(fields: seq<string>) {
    && |fields| >= 3
    && EqualIgnoringCase(fields[0], "time")
    && EqualIgnoringCase(fields[1], "pid")
    && EqualIgnoringCase(fields[2], "process")
  }

  function FieldAt(fields: seq<string>, i: nat, size: nat): string
    requires size > 0
  {
    if i < |fields| then CopyTrunc(fields[i], size) else ""
  }

  function CsvEvent(fields: seq<string>): Event { CsvFields(fields).WithDestination() }

  function CsvFields(fields: seq<string>): Event {
    var pid := if |fields| > 1 && fields[1] != "" then ParseLong(fields[1]) else None;
    Event(FieldAt(fields, 0, TIME_SIZE),
          if pid.Some? then pid.value else -1,
          FieldAt(fields, 2, PROCESS_SIZE),
          FieldAt(fields, 3, EVENT_SIZE),
          FieldAt(fields, 4, MAX_STR),
          FieldAt(fields, 5, MAX_STR),
          FieldAt(fields, 6, MAX_STR),
          FieldAt(fields, 7, MAX_STR))
  }

  function CsvOutcome(line: string): Outcome {
    var fields := Fields(line, 8);
    if fields == [] then Rejected
    else if IsHeader(fields) then Header
    else Accepted(CsvEvent(fields))
  }

  /** The reader of one trimmed line. */
  function ParseLine(line: string): Outcome {
    var p := SkipWs(line);
    if p != "" && p[0] == '{' then Accepted(JsonEvent(p)) else CsvOutcome(p)
  }

  /** What an input line counts as: blank and comment lines are passed over. */
  function Classify(line: string): Outcome {
    var trimmed := TrimNewline(line);
    if trimmed == "" || trimmed[0] == '#' then Skipped else ParseLine(trimmed)
  }

  // ----- logs -----

  function EventsOf(outcome: Outcome): seq<Event> {
    match outcome case Parsed(ev) => [ev] case _ => []
  }

  /** The events of the lines that parse, in order. */
  function Log(lines: seq<string>): seq<Event> {
    if lines == [] then [] else Log(Init(lines)) + EventsOf(Classify(Last(lines)))
  }

  function Malformed(lines: seq<string>): nat {
    if lines == [] then 0 else Malformed(Init(lines)) + One(Classify(Last(lines)).Rejected?)
  }

  // ----- the generator's two writers -----

  function JsonLine(e: Event): string {
    "{\"time\":" + (JsonString(e.time) +
    (",\"pid\":" + (Decimal(e.pid) + (",\"process\":" + (JsonString(e.process) +
    (",\"event\":" + (JsonString(e.event) + JsonLineEnd(e))))))))
  }

  /** The optional last two members and the end of the line. */
  function JsonLineEnd(e: Event): string {
    var end := if e.dst != "" then ",\"dst\":" + (JsonString(e.dst) + "}\n") else "}\n";
    if e.file != "" then ",\"file\":" + (JsonString(e.file) + end) else end
  }

  function CsvRow(e: Event): string { CsvRowText(e) + "\n" }

  function CsvRowText(e: Event): string {
    Quote(e.time) + ("," + (Decimal(e.pid) + ("," + CsvRowEnd(e))))
  }

  /** The row from the process name on. */
  function CsvRowEnd(e: Event): string {
    Quote(e.process) + ("," + (Quote(e.event) + ("," + (Quote(e.file) + ("," + (Quote(e.dst) + ",,"))))))
  }

  /** Events as the generator writes them: without separate domain and address. */
  ghost predicate Writable(e: Event) { e.Fits() && e.domain == "" && e.ip == "" }
}

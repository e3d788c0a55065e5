/**
 * The Octopus Server log format of the newer generation
 * (source/Lib/FileFormats/OctopusServer.cs). A line that matches one of the
 * two header grammars opens a log entry; every other line is buffered; an
 * entry is turned into one event when the next header, or the end of the
 * input, arrives. The buffered lines are split at the first exception-marker
 * line into message lines and exception lines, and the message is mined
 * against an ordered table of templates.
 */
module ServerLog {
  import opened Options
  import opened Text
  import opened Events
  import opened Lines
  import opened MultiLine
  import opened Mining

  /**
   * The regular expressions of the format, as matchers, and the two library
   * facts the format depends on: the platform's newline and whether
   * `float.TryParse` accepts a text.
   */
  datatype Syntax = Syntax(
    lineRegex30: Matcher,                   // Octopus 3.x: Timestamp Thread Level Message
    lineRegex315: Matcher,                  // from 3.15: Timestamp PID Thread Level Message
    exceptionRegex: string -> bool,         // "Exception (0x...):" somewhere in the line
    templateRegexes: seq<TemplateRegex>,    // the template table, in order
    newLine: string,                        // Environment.NewLine
    floatParses: string -> bool)            // float.TryParse succeeds

  const Descriptor := Format("OctopusServer", 0, ["OctopusServer.*\\.txt"], Never)

  /** Content detection is switched off for this format. */
  function AutodetectFromContents(firstFewLines: seq<string>): (r: bool)
    ensures !r
  {
    Sniffs(Descriptor.sniff, firstFewLines)
  }

  // ---------------------------------------------------------------- the template table

  /** The group names and templates of the table, in order. */
  const SourceTable: seq<(seq<string>, string)> := [
    (["Elapsed", "FirstRecord", "Transaction", "Query"],
      "Reader took {Elapsed}ms ({FirstRecord}ms until the first record) in transaction '{Transaction}': {Query}"),
    (["Method", "Url", "CorrelationId"], "{Method} {Url} {CorrelationId}"),
    (["Elapsed", "Method", "Url", "CorrelationId"], "Request took {Elapsed}ms: {Method} {Url} {CorrelationId}"),
    (["Operation", "Elapsed", "Query"], "{Operation} took {Elapsed}ms: {Query}"),
    (["Message"], "Unhandled exception from web server:  {Message}"),
    (["IP", "Port", "Message"], "listen://{IP}:{Port}/ {Message}"),
    (["Id", "Message"], "poll://{Id}/ {Message}"),
    (["Host", "Port", "n"], "https://{Host}:{Port}/ Retry attempt {n}"),
    (["Host", "Port"], "https://{Host}:{Port}/ Opening a new connection"),
    (["Host", "Port"], "https://{Host}:{Port}/ Performing TLS handshake"),
    (["Host", "Port", "Endpoint", "Thumbprint", "Protocol"],
      "https://{Host}:{Port}/ Secure connection established. Server at {Endpoint} identified by thumbprint: {Thumbprint}, using protocol {Protocol}"),
    (["Host", "Port", "Endpoint"],
      "https://{Host}:{Port}/ No connection could be made because the target machine actively refused it {Endpoint}"),
    (["Host", "Port", "Message"], "https://{Host}:{Port}/ {Message}"),
    (["Protocol", "Method", "Url", "Code", "Elapsed"], "{Protocol} {Method} to {Url} completed with {Code} in {Elapsed}"),
    (["Elapsed", "Transaction", "Query"], "Execute reader took {Elapsed} in transaction {Transaction}: {Query}")
  ]

  /** The syntax carries the source's template table: same entries, same order. */
  ghost predicate HasSourceTable(syn: Syntax) {
    |syn.templateRegexes| == |SourceTable| &&
    forall j :: 0 <= j < |SourceTable| ==>
      syn.templateRegexes[j].groupNames == SourceTable[j].0 && syn.templateRegexes[j].template == SourceTable[j].1
  }

  /** The properties every entry starts with, which no group of the table may be named after. */
  const BaseNames: set<string> := {"LineNumber", "PID", "Thread"}

  lemma SourceTableAvoidsBase(syn: Syntax)
    requires HasSourceTable(syn)
    ensures NamesAvoid(syn.templateRegexes, BaseNames)
  {
    forall j, name | 0 <= j < |syn.templateRegexes| && name in syn.templateRegexes[j].groupNames
      ensures name !in BaseNames
    {
      assert name in SourceTable[j].0;
    }
  }

  /** What mining a message gives, in this generation. */
  function MineMessage(syn: Syntax, message: string, properties: map<string, PropValue>): (string, map<string, PropValue>) {
    Mine(syn.templateRegexes, message, properties, Coerced(syn.floatParses))
  }

  // ---------------------------------------------------------------- one log entry

  /** `ConvertLevel`. */
  function ConvertLevel(level: string): (r: string)
    ensures level == "FATAL" ==> r == "Fatal"
    ensures level == "ERROR" ==> r == "Error"
    ensures level == "WARN" ==> r == "Warning"
    ensures level == "DEBUG" ==> r == "Debug"
    ensures level == "TRACE" ==> r == "Verbose"
    ensures level !in ["FATAL", "ERROR", "WARN", "DEBUG", "TRACE"] ==> r == "Information"
  {
    match level
    case "FATAL" => "Fatal"
    case "ERROR" => "Error"
    case "WARN" => "Warning"
    case "DEBUG" => "Debug"
    case "TRACE" => "Verbose"
    case _ => "Information"
  }

  /** The message lines: the header's inline message, then the buffered lines before the first exception marker. */
  function MessageLines(syn: Syntax, header: map<string, string>, buffer: seq<string>): (r: seq<string>)
    ensures 1 <= |r| <= |buffer| + 1 && r[0] == Group(header, "Message") && r[1..] == buffer[..|r| - 1]
    ensures forall i :: 1 <= i < |r| ==> !syn.exceptionRegex(r[i])
    ensures |r| <= |buffer| ==> syn.exceptionRegex(buffer[|r| - 1])
  {
    [Group(header, "Message")] + TakeUntil(buffer, syn.exceptionRegex)
  }

  /** The properties every entry starts with. */
  function BaseProperties(lineNumber: nat, header: map<string, string>): map<string, PropValue> {
    map["LineNumber" := Int(lineNumber), "PID" := Str(Group(header, "PID")), "Thread" := Str(Group(header, "Thread"))]
  }

  /** `ProcessLogMessage`: the event of the entry whose header was on line `lineNumber` (1-based). */
  function ProcessLogMessage(syn: Syntax, lineNumber: nat, header: map<string, string>, buffer: seq<string>): (e: Event)
    ensures e.timestamp == Parsed(Group(header, "Timestamp"))
    ensures e.level == ConvertLevel(Group(header, "Level"))
    ensures (e.messageTemplate, e.properties) ==
      MineMessage(syn, Join(syn.newLine, MessageLines(syn, header, buffer)), BaseProperties(lineNumber, header))
    ensures "LineNumber" in e.properties && "PID" in e.properties && "Thread" in e.properties
    ensures NamesAvoid(syn.templateRegexes, BaseNames) ==>
      e.properties["LineNumber"] == Int(lineNumber) &&
      e.properties["PID"] == Str(Group(header, "PID")) &&
      e.properties["Thread"] == Str(Group(header, "Thread"))
  {
    var messageLines := MessageLines(syn, header, buffer);
    var message := Join(syn.newLine, messageLines);
    var mined := MineMessage(syn, message, BaseProperties(lineNumber, header));
    MinedKeepsBase(syn, message, lineNumber, header);
    var exceptionLines := Except(buffer, messageLines);
    Event(Parsed(Group(header, "Timestamp")), ConvertLevel(Group(header, "Level")), mined.0, mined.1,
          if exceptionLines != [] then Some(Join(syn.newLine, exceptionLines)) else None)
  }

  /**
   * An entry has an exception exactly when some buffered line is not a message
   * line; the exception is those lines, each once, joined by newlines.
   */
  lemma ProcessLogMessageException(syn: Syntax, lineNumber: nat, header: map<string, string>, buffer: seq<string>)
    ensures var e := ProcessLogMessage(syn, lineNumber, header, buffer);
      e.exception.None? <==> forall line :: line in buffer ==> line in MessageLines(syn, header, buffer)
    ensures var e := ProcessLogMessage(syn, lineNumber, header, buffer);
      e.exception.Some? ==> e.exception.value == Join(syn.newLine, Except(buffer, MessageLines(syn, header, buffer)))
  {
    var exceptionLines := Except(buffer, MessageLines(syn, header, buffer));
    if exceptionLines != [] {
      assert exceptionLines[0] in exceptionLines;
    }
  }

  /**
   * The first template entry that matches the message text (the message lines
   * joined by newlines) wins: the event takes its template, each of its groups
   * is stored under its name, and the base properties are otherwise kept.
   */
  lemma ProcessLogMessageFirstMatch(syn: Syntax, lineNumber: nat, header: map<string, string>, buffer: seq<string>,
                                    j: nat)
    requires var message := Join(syn.newLine, MessageLines(syn, header, buffer));
      j < |syn.templateRegexes| && syn.templateRegexes[j].regex(message).Some? &&
      forall i :: 0 <= i < j ==> syn.templateRegexes[i].regex(message).None?
    ensures var message := Join(syn.newLine, MessageLines(syn, header, buffer));
      var entry := syn.templateRegexes[j];
      var e := ProcessLogMessage(syn, lineNumber, header, buffer);
      e.messageTemplate == entry.template &&
      e.properties.Keys == BaseNames + set n | n in entry.groupNames &&
      forall n :: n in entry.groupNames ==>
        n in e.properties && e.properties[n] == Store(Coerced(syn.floatParses), Group(entry.regex(message).value, n))
  {
    var message := Join(syn.newLine, MessageLines(syn, header, buffer));
    var base := BaseProperties(lineNumber, header);
    assert base.Keys == BaseNames;
    MineFirstMatchWins(syn.templateRegexes, message, base, Coerced(syn.floatParses), j);
    var e := ProcessLogMessage(syn, lineNumber, header, buffer);
    assert e.messageTemplate == MineMessage(syn, message, base).0 && e.properties == MineMessage(syn, message, base).1;
  }

  /**
   * With no matching template entry the template is the message text itself,
   * and the only properties are LineNumber, PID and Thread.
   */
  lemma ProcessLogMessageNoMatch(syn: Syntax, lineNumber: nat, header: map<string, string>, buffer: seq<string>)
    requires var message := Join(syn.newLine, MessageLines(syn, header, buffer));
      forall j :: 0 <= j < |syn.templateRegexes| ==> syn.templateRegexes[j].regex(message).None?
    ensures var e := ProcessLogMessage(syn, lineNumber, header, buffer);
      e.messageTemplate == Join(syn.newLine, MessageLines(syn, header, buffer)) &&
      e.properties == map["LineNumber" := Int(lineNumber), "PID" := Str(Group(header, "PID")),
                          "Thread" := Str(Group(header, "Thread"))]
  {
    var message := Join(syn.newLine, MessageLines(syn, header, buffer));
    MineNoMatch(syn.templateRegexes, message, BaseProperties(lineNumber, header), Coerced(syn.floatParses));
  }

  /** Mining keeps LineNumber, PID and Thread, and when no group is named like them, their values too. */
  lemma MinedKeepsBase(syn: Syntax, message: string, lineNumber: nat, header: map<string, string>)
    ensures var mined := MineMessage(syn, message, BaseProperties(lineNumber, header)).1;
      "LineNumber" in mined && "PID" in mined && "Thread" in mined
    ensures var mined := MineMessage(syn, message, BaseProperties(lineNumber, header)).1;
      NamesAvoid(syn.templateRegexes, BaseNames) ==>
        mined["LineNumber"] == Int(lineNumber) &&
        mined["PID"] == Str(Group(header, "PID")) &&
        mined["Thread"] == Str(Group(header, "Thread"))
  {
    MineKeeps(syn.templateRegexes, message, BaseProperties(lineNumber, header), Coerced(syn.floatParses), BaseNames);
  }

  /** With no exception-marker line in the buffer, every buffered line is a message line and there is no exception. */
  lemma NoMarkerNoException(syn: Syntax, lineNumber: nat, header: map<string, string>, buffer: seq<string>)
    requires forall i :: 0 <= i < |buffer| ==> !syn.exceptionRegex(buffer[i])
    ensures MessageLines(syn, header, buffer) == [Group(header, "Message")] + buffer
    ensures ProcessLogMessage(syn, lineNumber, header, buffer).exception == None
  {
    var taken := TakeUntil(buffer, syn.exceptionRegex);
    assert |taken| == |buffer|;
    ProcessLogMessageException(syn, lineNumber, header, buffer);
  }

  // ---------------------------------------------------------------- the whole file

  /** The header grammars, the one without PID first: the captures of the first that matches. */
  function HeaderMatch(syn: Syntax, line: string): (r: Option<map<string, string>>)
    ensures r.Some? <==> syn.lineRegex30(line).Some? || syn.lineRegex315(line).Some?
    ensures syn.lineRegex30(line).Some? ==> r == syn.lineRegex30(line)
    ensures syn.lineRegex30(line).None? ==> r == syn.lineRegex315(line)
  {
    if syn.lineRegex30(line).Some? then syn.lineRegex30(line) else syn.lineRegex315(line)
  }

  function IsHeader(syn: Syntax): string -> bool {
    line => HeaderMatch(syn, line).Some?
  }

  /** The captures of a header line (none for any other line). */
  function HeaderCaptures(syn: Syntax, line: string): map<string, string> {
    match HeaderMatch(syn, line)
    case Some(captures) => captures
    case None => map[]
  }

  /** The event of a closed entry. */
  function EventOf(syn: Syntax, entry: Entry): Event {
    ProcessLogMessage(syn, entry.lineNumber, HeaderCaptures(syn, entry.header), entry.body)
  }

  /** The events of the entries, in order. */
  function EventsOf(syn: Syntax, entries: seq<Entry>): (events: seq<Event>)
    ensures |events| == |entries|
  {
    seq(|entries|, k requires 0 <= k < |entries| => EventOf(syn, entries[k]))
  }

  /** Closing an entry whose header matched with `captures` adds its processed event. */
  lemma EventsOfClose(syn: Syntax, entries: seq<Entry>, lineNumber: nat, header: string,
                      captures: map<string, string>, body: seq<string>)
    requires HeaderMatch(syn, header) == Some(captures)
    ensures EventsOf(syn, entries + [Entry(lineNumber, header, body)]) ==
      EventsOf(syn, entries) + [ProcessLogMessage(syn, lineNumber, captures, body)]
  {
    var entry := Entry(lineNumber, header, body);
    var all := entries + [entry];
    assert forall k :: 0 <= k < |entries| ==> all[k] == entries[k];
    assert HeaderCaptures(syn, header) == captures;
    var before := EventsOf(syn, entries);
    var after := EventsOf(syn, all);
    assert after[|entries|] == EventOf(syn, entry);
    assert forall k :: 0 <= k < |entries| ==> after[k] == before[k];
  }

  /** Reference: one event per header line, in order, each closed by the next header or by the end of the input. */
  function Expected(syn: Syntax, lines: seq<string>): seq<Event> {
    EventsOf(syn, Entries(lines, IsHeader(syn)))
  }

  /** Event `k` is the processed entry of the `k`th header line. */
  lemma ExpectedAt(syn: Syntax, lines: seq<string>, k: nat)
    requires k < |Positions(lines, IsHeader(syn))|
    ensures var ps := Positions(lines, IsHeader(syn));
      var end := if k + 1 < |ps| then ps[k + 1] else |lines|;
      HeaderMatch(syn, lines[ps[k]]).Some? && ps[k] < end <= |lines| && (k == 0 || ps[0] < ps[k]) &&
      Expected(syn, lines)[k] ==
        ProcessLogMessage(syn, ps[k] + 1, HeaderMatch(syn, lines[ps[k]]).value, EntryBody(lines, ps, k, end))
  {
    EntryOf(lines, IsHeader(syn), k);
  }

  /** There is one event per header line, and each one's LineNumber is the 1-based number of its header line. */
  lemma EventLineNumbers(syn: Syntax, lines: seq<string>, k: nat)
    requires NamesAvoid(syn.templateRegexes, BaseNames)
    ensures |Expected(syn, lines)| == |Positions(lines, IsHeader(syn))|
    ensures k < |Expected(syn, lines)| ==>
      var ps := Positions(lines, IsHeader(syn));
      var e := Expected(syn, lines)[k];
      HeaderMatch(syn, lines[ps[k]]).Some? &&
      "LineNumber" in e.properties && e.properties["LineNumber"] == Int(ps[k] + 1) &&
      e.timestamp == Parsed(Group(HeaderMatch(syn, lines[ps[k]]).value, "Timestamp"))
  {
    if k < |Expected(syn, lines)| {
      EntryHeader(lines, IsHeader(syn), k);
      var entry := Entries(lines, IsHeader(syn))[k];
      assert Expected(syn, lines)[k] == EventOf(syn, entry);
    }
  }

  /** Without a header line nothing is emitted, whatever the other lines are. */
  lemma NoHeaderNoEvents(syn: Syntax, lines: seq<string>)
    requires forall i :: 0 <= i < |lines| ==> HeaderMatch(syn, lines[i]).None?
    ensures Expected(syn, lines) == []
  {
    NoHeaderNoEntries(lines, IsHeader(syn));
  }

  /** The lines before the first header are buffered into the first entry, ahead of its own lines. */
  lemma LeadingLinesJoinFirstEntry(syn: Syntax, lines: seq<string>)
    requires |Positions(lines, IsHeader(syn))| > 0
    ensures var ps := Positions(lines, IsHeader(syn));
      var end := if 1 < |ps| then ps[1] else |lines|;
      ps[0] < end &&
      Expected(syn, lines)[0] ==
        ProcessLogMessage(syn, ps[0] + 1, HeaderMatch(syn, lines[ps[0]]).value, lines[..ps[0]] + lines[ps[0] + 1..end])
  {
    ExpectedAt(syn, lines, 0);
  }

  /** `Read`: the line loop with its open entry and its buffer. */
  method Read(syn: Syntax, lines: seq<string>) returns (events: seq<Event>)
    ensures events == Expected(syn, lines)
  {
    var lineNumber := 0;
    var current: Option<map<string, string>> := None;
    var start := lineNumber;
    var buffer: seq<string> := [];
    events := [];
    while lineNumber < |lines|
      invariant lineNumber <= |lines|
      invariant var s := Scan(lines[..lineNumber], IsHeader(syn));
        current.Some? == s.open && start == s.start && buffer == s.buffer && events == EventsOf(syn, s.emitted) &&
        (current.Some? ==> current == HeaderMatch(syn, s.header))
    {
      assert lines[..lineNumber + 1][..lineNumber] == lines[..lineNumber];
      ghost var s := Scan(lines[..lineNumber], IsHeader(syn));
      var line := lines[lineNumber];
      var next := HeaderMatch(syn, line);
      if next.Some? {
        if current.Some? {
          EventsOfClose(syn, s.emitted, start, s.header, current.value, buffer);
          events := events + [ProcessLogMessage(syn, start, current.value, buffer)];
          buffer := [];
        }
        current := next;
        start := lineNumber + 1;
      } else {
        buffer := buffer + [line];
      }
      lineNumber := lineNumber + 1;
    }
    assert lines[..lineNumber] == lines;
    ghost var s := Scan(lines, IsHeader(syn));
    ScanEntries(lines, IsHeader(syn));
    if current.Some? {
      EventsOfClose(syn, s.emitted, start, s.header, current.value, buffer);
      events := events + [ProcessLogMessage(syn, start, current.value, buffer)];
    }
  }
}

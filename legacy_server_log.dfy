/**
 * The Octopus Server log format of the older generation
 * (Lib/FileFormats/OctopusServer.cs). A line that matches the header grammar
 * opens a new event, built from the header alone; the following lines are
 * added to that open event in place: onto its message template, or, from the
 * first exception-marker line on, onto its exception. A line before any
 * header becomes a warning event of its own.
 */
module LegacyServerLog {
  import opened Options
  import opened Text
  import opened Events
  import opened Lines
  import opened MultiLine
  import opened Mining

  /**
   * The regular expressions of the format, as matchers. The header grammar has
   * four numbered groups, keyed "1" to "4": timestamp, thread, level, message.
   */
  datatype Syntax = Syntax(
    lineRegex: Matcher,               // Timestamp Thread Level Message
    exceptionRegex: string -> bool,   // "Exception (0x...):" somewhere in the line
    templateRegexes: seq<TemplateRegex>)

  const Descriptor := Format("OctopusServer", 0, ["OctopusServer.*\\.txt"], Never)

  /** Content detection is switched off for this format. */
  function AutodetectFromContents(firstFewLines: seq<string>): (r: bool)
    ensures !r
  {
    Sniffs(Descriptor.sniff, firstFewLines)
  }

  /** The separator `MessageTemplate += "\r\n" + line` puts before each continuation line. */
  const NewLine := "\r\n"

  // ---------------------------------------------------------------- the template table

  /** The group names and templates of this generation's table, in order. */
  const SourceTable: seq<(seq<string>, string)> := [
    (["Time", "FirstRecord", "Query"], "Reader took {Time}ms ({FirstRecord}ms until the first record): {Query}"),
    (["Time", "Query"], "Request took {Time}ms: {Query}"),
    (["Operation", "Time", "Query"], "{Operation} took {Time}ms: {Query}"),
    (["Message"], "Unhandled exception from web server:  {Message}"),
    (["IP", "Port", "Message"], "listen://{IP}:{Port}/ {Message}"),
    (["Id", "Message"], "poll://{Id}/ {Message}"),
    (["Host", "Port", "n"], "https://{Host}:{Port}/ Retry attempt {n}"),
    (["Host", "Port"], "https://{Host}:{Port}/ Opening a new connection"),
    (["Host", "Port"], "https://{Host}:{Port}/ Performing TLS handshake"),
    (["Host", "Port", "Endpoint", "Thumbprint", "Protocol"],
      "https://{Host}:{Port}/ Secure connection established. Server at {Endpoint} identified by thumbprint: {Thumbprint}, using protocol {Protocol}"),
    (["Host", "Port", "Endpoint"],
      "https://{Host}:{Port}/ No connection could be made because the target machine actively refused it {Endpoint}"),
    (["Host", "Port", "Message"], "https://{Host}:{Port}/ {Message}")
  ]

  /** The syntax carries the source's template table: same entries, same order. */
  ghost predicate HasSourceTable(syn: Syntax) {
    |syn.templateRegexes| == |SourceTable| &&
    forall j :: 0 <= j < |SourceTable| ==>
      syn.templateRegexes[j].groupNames == SourceTable[j].0 && syn.templateRegexes[j].template == SourceTable[j].1
  }

  /** The properties every header event starts with, which no group of the table may be named after. */
  const BaseNames: set<string> := {"LineNumber", "Thread"}

  lemma SourceTableAvoidsBase(syn: Syntax)
    requires HasSourceTable(syn)
    ensures NamesAvoid(syn.templateRegexes, BaseNames)
  {
    forall j, name | 0 <= j < |syn.templateRegexes| && name in syn.templateRegexes[j].groupNames
      ensures name !in BaseNames
    {
      assert name in SourceTable[j].0;
    }
  }

  // ---------------------------------------------------------------- one event

  /** `ConvertLevel`: this generation has no TRACE case. */
  function ConvertLevel(level: string): (r: string)
    ensures level == "FATAL" ==> r == "Fatal"
    ensures level == "ERROR" ==> r == "Error"
    ensures level == "WARN" ==> r == "Warning"
    ensures level == "DEBUG" ==> r == "Debug"
    ensures level !in ["FATAL", "ERROR", "WARN", "DEBUG"] ==> r == "Information"
  {
    match level
    case "FATAL" => "Fatal"
    case "ERROR" => "Error"
    case "WARN" => "Warning"
    case "DEBUG" => "Debug"
    case _ => "Information"
  }

  /** The properties a header event starts with. */
  function BaseProperties(lineNumber: nat, captures: map<string, string>): map<string, PropValue> {
    map["LineNumber" := Int(lineNumber), "Thread" := Str(Group(captures, "2"))]
  }

  /**
   * `CreateEventFromMatch`: the event a header line on line `lineNumber`
   * (1-based) opens. Only the header's inline message is mined, and the
   * captures are stored as they are.
   */
  function CreateEventFromMatch(syn: Syntax, lineNumber: nat, captures: map<string, string>): (e: Event)
    ensures e.timestamp == Parsed(Group(captures, "1")) && e.level == ConvertLevel(Group(captures, "3"))
    ensures e.exception == None
    ensures (e.messageTemplate, e.properties) ==
      Mine(syn.templateRegexes, Group(captures, "4"), BaseProperties(lineNumber, captures), Raw)
    ensures "LineNumber" in e.properties && "Thread" in e.properties
    ensures NamesAvoid(syn.templateRegexes, BaseNames) ==>
      e.properties["LineNumber"] == Int(lineNumber) && e.properties["Thread"] == Str(Group(captures, "2"))
  {
    var mined := Mine(syn.templateRegexes, Group(captures, "4"), BaseProperties(lineNumber, captures), Raw);
    MineKeeps(syn.templateRegexes, Group(captures, "4"), BaseProperties(lineNumber, captures), Raw, BaseNames);
    Event(Parsed(Group(captures, "1")), ConvertLevel(Group(captures, "3")), mined.0, mined.1, None)
  }

  /**
   * The first template entry that matches the header's message group wins:
   * the event takes its template, and each of its groups is stored under its
   * name as the captured text.
   */
  lemma CreateEventFirstMatch(syn: Syntax, lineNumber: nat, captures: map<string, string>, j: nat)
    requires var message := Group(captures, "4");
      j < |syn.templateRegexes| && syn.templateRegexes[j].regex(message).Some? &&
      forall i :: 0 <= i < j ==> syn.templateRegexes[i].regex(message).None?
    ensures var entry := syn.templateRegexes[j];
      var e := CreateEventFromMatch(syn, lineNumber, captures);
      e.messageTemplate == entry.template &&
      e.properties.Keys == BaseNames + set n | n in entry.groupNames &&
      forall n :: n in entry.groupNames ==>
        n in e.properties && e.properties[n] == Str(Group(entry.regex(Group(captures, "4")).value, n))
  {
    MineFirstMatchWins(syn.templateRegexes, Group(captures, "4"), BaseProperties(lineNumber, captures), Raw, j);
  }

  /**
   * With no matching template entry the template is the header's message
   * group itself, and the only properties are LineNumber and Thread.
   */
  lemma CreateEventNoMatch(syn: Syntax, lineNumber: nat, captures: map<string, string>)
    requires forall j :: 0 <= j < |syn.templateRegexes| ==> syn.templateRegexes[j].regex(Group(captures, "4")).None?
    ensures var e := CreateEventFromMatch(syn, lineNumber, captures);
      e.messageTemplate == Group(captures, "4") &&
      e.properties == map["LineNumber" := Int(lineNumber), "Thread" := Str(Group(captures, "2"))]
  {
    MineNoMatch(syn.templateRegexes, Group(captures, "4"), BaseProperties(lineNumber, captures), Raw);
  }

  /** `UnexpectedLine`: the warning a line before any header becomes. */
  function UnexpectedLine(lineNumber: nat, line: string): (e: Event)
    ensures e.timestamp == Now && e.level == "Warning" && e.exception == None
    ensures e.properties.Keys == {"LineNumber", "Line"}
    ensures e.properties["LineNumber"] == Int(lineNumber) && e.properties["Line"] == Str(line)
  {
    Event(Now, "Warning", "Unexpected line while parsing log {LineNumber}: {Line}",
          map["LineNumber" := Int(lineNumber), "Line" := Str(line)], None)
  }

  /** The text of a string that may be null, as `null + line` treats it. */
  function OrEmpty(s: Option<string>): string {
    if s.Some? then s.value else ""
  }

  /**
   * A continuation line added to the open event: once an exception marker
   * has been seen (this line included), onto its exception; otherwise onto
   * its message template, after a newline. The flag says whether the
   * exception has begun.
   */
  function Continue(syn: Syntax, e: Event, inException: bool, line: string): (Event, bool) {
    if inException || syn.exceptionRegex(line) then (e.(exception := Some(OrEmpty(e.exception) + line)), true)
    else (e.(messageTemplate := e.messageTemplate + (NewLine + line)), false)
  }

  /** Every part, with `sep` in front of each. */
  function Prefixed(sep: string, parts: seq<string>): string
    decreases |parts|
  {
    if parts == [] then "" else Prefixed(sep, parts[..|parts| - 1]) + (sep + parts[|parts| - 1])
  }

  /** The parts run together. */
  function Concat(parts: seq<string>): string
    decreases |parts|
  {
    if parts == [] then "" else Concat(parts[..|parts| - 1]) + parts[|parts| - 1]
  }

  lemma SliceSnoc<T>(xs: seq<T>, x: T, k: nat)
    requires k <= |xs|
    ensures (xs + [x])[k..] == xs[k..] + [x]
  {
  }

  lemma Associative<T>(a: seq<T>, b: seq<T>, c: seq<T>)
    ensures a + (b + c) == a + b + c
  {
  }

  /**
   * Reference for what the continuation lines of an entry do to its event:
   * the lines before the first exception marker go onto the message template,
   * each after a newline; the marker line and every line after it are run
   * together onto the exception.
   */
  function Extend(syn: Syntax, e: Event, body: seq<string>): (r: Event)
    ensures r.timestamp == e.timestamp && r.level == e.level && r.properties == e.properties
  {
    var message := TakeUntil(body, syn.exceptionRegex);
    var rest := body[|message|..];
    e.(messageTemplate := e.messageTemplate + Prefixed(NewLine, message),
       exception := if rest == [] then e.exception else Some(OrEmpty(e.exception) + Concat(rest)))
  }

  /** After a marker line, one more line goes onto the exception. */
  lemma ExtendAfterMarker(syn: Syntax, e: Event, before: seq<string>, line: string)
    requires |TakeUntil(before, syn.exceptionRegex)| < |before|
    ensures var r := Extend(syn, e, before);
      TakeUntil(before + [line], syn.exceptionRegex) == TakeUntil(before, syn.exceptionRegex) &&
      Extend(syn, e, before + [line]) == r.(exception := Some(OrEmpty(r.exception) + line))
  {
    var body := before + [line];
    TakeUntilSnoc(before, line, syn.exceptionRegex);
    var taken := TakeUntil(before, syn.exceptionRegex);
    var restBefore := before[|taken|..];
    var rest := body[|taken|..];
    SliceSnoc(before, line, |taken|);
    assert rest[..|rest| - 1] == restBefore;
    assert Concat(rest) == Concat(restBefore) + line;
    Associative(OrEmpty(e.exception), Concat(restBefore), line);
  }

  /** The first marker line starts the exception. */
  lemma ExtendAtMarker(syn: Syntax, e: Event, before: seq<string>, line: string)
    requires |TakeUntil(before, syn.exceptionRegex)| == |before| && syn.exceptionRegex(line)
    ensures var r := Extend(syn, e, before);
      TakeUntil(before + [line], syn.exceptionRegex) == before &&
      Extend(syn, e, before + [line]) == r.(exception := Some(OrEmpty(r.exception) + line))
  {
    var body := before + [line];
    TakeUntilSnoc(before, line, syn.exceptionRegex);
    var taken := TakeUntil(before, syn.exceptionRegex);
    assert taken == before;
    assert before[|taken|..] == [];
    assert body[|taken|..] == [line];
    assert [line][..0] == [];
    assert Concat([line]) == "" + line;
    assert "" + line == line;
  }

  /** Before any marker line, one more line goes onto the message template, after a newline. */
  lemma ExtendMessage(syn: Syntax, e: Event, before: seq<string>, line: string)
    requires |TakeUntil(before, syn.exceptionRegex)| == |before| && !syn.exceptionRegex(line)
    ensures var r := Extend(syn, e, before);
      TakeUntil(before + [line], syn.exceptionRegex) == before + [line] &&
      Extend(syn, e, before + [line]) == r.(messageTemplate := r.messageTemplate + (NewLine + line))
  {
    var body := before + [line];
    assert TakeUntil(before, syn.exceptionRegex) == before && before[|before|..] == [];
    assert TakeUntil(body, syn.exceptionRegex) == body && body[|body|..] == [] by {
      TakeUntilSnoc(before, line, syn.exceptionRegex);
    }
    assert Prefixed(NewLine, body) == Prefixed(NewLine, before) + (NewLine + line) by {
      assert body[..|body| - 1] == before;
    }
    Associative(e.messageTemplate, Prefixed(NewLine, before), NewLine + line);
  }

  /**
   * Adding the lines one at a time in place gives the reference, and the
   * `inException` flag is up exactly when a marker line has been seen.
   */
  lemma {:induction false} FoldMeaning(syn: Syntax, e: Event, body: seq<string>)
    ensures Fold(Adding(syn), e, body) == (Extend(syn, e, body), |TakeUntil(body, syn.exceptionRegex)| < |body|)
    decreases |body|
  {
    if body == [] {
      assert TakeUntil(body, syn.exceptionRegex) == [];
      assert e.messageTemplate + Prefixed(NewLine, []) == e.messageTemplate;
    } else {
      var n := |body| - 1;
      var before := body[..n];
      var line := body[n];
      assert body == before + [line];
      FoldMeaning(syn, e, before);
      if |TakeUntil(before, syn.exceptionRegex)| < |before| {
        ExtendAfterMarker(syn, e, before, line);
      } else if syn.exceptionRegex(line) {
        ExtendAtMarker(syn, e, before, line);
      } else {
        ExtendMessage(syn, e, before, line);
      }
    }
  }

  /**
   * When line `j` is the first marker, the lines before it are on the message
   * and it and every later line are on the exception.
   */
  lemma ExceptionFromFirstMarker(syn: Syntax, e: Event, body: seq<string>, j: nat)
    requires j < |body| && syn.exceptionRegex(body[j])
    requires forall i :: 0 <= i < j ==> !syn.exceptionRegex(body[i])
    ensures Extend(syn, e, body) ==
      e.(messageTemplate := e.messageTemplate + Prefixed(NewLine, body[..j]),
         exception := Some(OrEmpty(e.exception) + Concat(body[j..])))
  {
    var taken := TakeUntil(body, syn.exceptionRegex);
    assert |taken| == j;
    assert taken == body[..j];
  }

  /** With no marker line the whole body goes onto the message and the exception is left alone. */
  lemma NoMarkerNoException(syn: Syntax, e: Event, body: seq<string>)
    requires forall i :: 0 <= i < |body| ==> !syn.exceptionRegex(body[i])
    ensures Extend(syn, e, body) == e.(messageTemplate := e.messageTemplate + Prefixed(NewLine, body))
  {
    var taken := TakeUntil(body, syn.exceptionRegex);
    assert |taken| == |body|;
    assert taken == body;
    assert body[|body|..] == [];
  }


  // ---------------------------------------------------------------- the reading loop, for any kind of event

  /**
   * What `Read` does with each kind of line, for events of type `E`: a header
   * line opens an event, a later line is added to the open event (the flag
   * says whether its exception has begun), and a line before any header
   * becomes a warning. Events are given the line's 1-based number.
   */
  datatype Handling<!E> = Handling(
    isHeader: string -> bool,
    create: (nat, string) -> E,
    add: (E, bool, string) -> (E, bool),
    warn: (nat, string) -> E)

  /** The open event after the given continuation lines, added one at a time by `add`, with the flag. */
  function Fold<E>(add: (E, bool, string) -> (E, bool), e: E, body: seq<string>): (E, bool)
    decreases |body|
  {
    if body == [] then (e, false)
    else
      var acc := Fold(add, e, body[..|body| - 1]);
      add(acc.0, acc.1, body[|body| - 1])
  }

  /** The warnings of the lines before the first header, numbered from 1. */
  function Unexpected<E>(on: Handling<E>, lines: seq<string>): (r: seq<E>)
    ensures |r| == |lines|
    decreases |lines|
  {
    if lines == [] then [] else Unexpected(on, lines[..|lines| - 1]) + [on.warn(|lines|, lines[|lines| - 1])]
  }

  /** Warning `i` is about line `i`. */
  lemma {:induction false} UnexpectedAt<E>(on: Handling<E>, lines: seq<string>, i: nat)
    requires i < |lines|
    ensures Unexpected(on, lines)[i] == on.warn(i + 1, lines[i])
    decreases |lines|
  {
    var n := |lines| - 1;
    if i < n {
      UnexpectedAt(on, lines[..n], i);
    }
  }

  /** The events of the entries of a part of the file that starts after line `offset`. */
  function EventsOf<E>(on: Handling<E>, offset: nat, entries: seq<Entry>): (r: seq<E>)
    ensures |r| == |entries|
  {
    seq(|entries|, k requires 0 <= k < |entries| =>
      Fold(on.add, on.create(offset + entries[k].lineNumber, entries[k].header), entries[k].body).0)
  }

  /** Closing one more entry adds its event. */
  lemma EventsOfSnoc<E>(on: Handling<E>, offset: nat, entries: seq<Entry>, entry: Entry)
    ensures EventsOf(on, offset, entries + [entry]) ==
      EventsOf(on, offset, entries) + [Fold(on.add, on.create(offset + entry.lineNumber, entry.header), entry.body).0]
  {
    var all := entries + [entry];
    assert forall k :: 0 <= k < |entries| ==> all[k] == entries[k];
  }

  /** The number of lines before the first header (all of them when there is none). */
  function Leading<E>(on: Handling<E>, lines: seq<string>): (r: nat)
    ensures r <= |lines|
    decreases |lines|
  {
    if lines == [] then 0
    else
      var q := Leading(on, lines[..|lines| - 1]);
      if q < |lines| - 1 || on.isHeader(lines[|lines| - 1]) then q else |lines|
  }

  /** `p` lines come before the first header: none of them is a header, and the line after them, if any, is. */
  ghost predicate IsLeading<E>(on: Handling<E>, lines: seq<string>, p: nat) {
    p <= |lines| && (forall j :: 0 <= j < p ==> !on.isHeader(lines[j])) && (p < |lines| ==> on.isHeader(lines[p]))
  }

  lemma {:induction false} LeadingMeaning<E>(on: Handling<E>, lines: seq<string>)
    ensures IsLeading(on, lines, Leading(on, lines))
    decreases |lines|
  {
    if lines != [] {
      var n := |lines| - 1;
      LeadingMeaning(on, lines[..n]);
      assert forall j :: 0 <= j < n ==> lines[..n][j] == lines[j];
    }
  }

  /**
   * Reference: a warning for each line before the first header, then one
   * event per header line, in order, opened at the header and with the lines
   * up to the next header or the end of the input added to it.
   */
  function Expected<E>(on: Handling<E>, lines: seq<string>): seq<E> {
    var p := Leading(on, lines);
    Unexpected(on, lines[..p]) + EventsOf(on, p, Entries(lines[p..], on.isHeader))
  }

  /** The variables of `Read`'s loop: the events yielded, the open event, and the `inException` flag. */
  datatype ReadState<E> = ReadState(events: seq<E>, current: Option<E>, inException: bool)

  /** One pass of `Read`'s loop body, on line number `lineNumber` (1-based). */
  function Step<E>(on: Handling<E>, s: ReadState<E>, lineNumber: nat, line: string): ReadState<E> {
    if on.isHeader(line) then
      ReadState(s.events + (if s.current.Some? then [s.current.value] else []), Some(on.create(lineNumber, line)), false)
    else if s.current.Some? then
      var next := on.add(s.current.value, s.inException, line);
      ReadState(s.events, Some(next.0), next.1)
    else
      ReadState(s.events + [on.warn(lineNumber, line)], None, s.inException)
  }

  /** The loop's variables after the given lines. */
  function Run<E>(on: Handling<E>, lines: seq<string>): ReadState<E>
    decreases |lines|
  {
    if lines == [] then ReadState([], None, false)
    else Step(on, Run(on, lines[..|lines| - 1]), |lines|, lines[|lines| - 1])
  }

  /** What `Read` yields once the input ends: the events so far and the open event, if any. */
  function Flushed<E>(s: ReadState<E>): seq<E> {
    s.events + (if s.current.Some? then [s.current.value] else [])
  }

  /**
   * The loop's variables once the first header has been read: `lead` holds
   * the warnings of the `p` lines before it, and `s` is the state of the
   * entries scanned from that header on. The events of the closed entries
   * follow the warnings, and the open entry's event has its lines added so far.
   */
  ghost function Opened<E>(on: Handling<E>, lead: seq<E>, p: nat, s: Scanner): ReadState<E> {
    var acc := Fold(on.add, on.create(p + s.start, s.header), s.buffer);
    ReadState(lead + EventsOf(on, p, s.emitted), Some(acc.0), acc.1)
  }

  /**
   * The loop's variables after `i` lines, where the first header is line
   * `p`: the warnings so far up to that header, then `Opened`.
   */
  ghost function Described<E>(on: Handling<E>, lines: seq<string>, p: nat, i: nat): ReadState<E>
    requires p <= |lines| && i <= |lines|
  {
    if i <= p then ReadState(Unexpected(on, lines[..i]), None, false)
    else Opened(on, Unexpected(on, lines[..p]), p, Scan(lines[p..i], on.isHeader))
  }

  lemma RunStep<E>(on: Handling<E>, lines: seq<string>, i: nat)
    requires i < |lines|
    ensures Run(on, lines[..i + 1]) == Step(on, Run(on, lines[..i]), i + 1, lines[i])
  {
    assert lines[..i + 1][..i] == lines[..i];
  }

  /** The first header opens the first event. */
  lemma OpenedFirst<E>(on: Handling<E>, lead: seq<E>, p: nat, line: string)
    requires on.isHeader(line)
    ensures Step(on, ReadState(lead, None, false), p + 1, line) == Opened(on, lead, p, Scanner(true, 1, line, [], []))
  {
    assert lead + EventsOf(on, p, []) == lead;
  }

  /** A later header, on line `p + k`, yields the open event and opens the next. */
  lemma OpenedHeader<E>(on: Handling<E>, lead: seq<E>, p: nat, s: Scanner, k: nat, line: string)
    requires s.open && on.isHeader(line)
    ensures Step(on, Opened(on, lead, p, s), p + k, line) ==
      Opened(on, lead, p, Scanner(true, k, line, [], s.emitted + [Entry(s.start, s.header, s.buffer)]))
  {
    var entry := Entry(s.start, s.header, s.buffer);
    var last := Fold(on.add, on.create(p + s.start, s.header), s.buffer).0;
    var before := EventsOf(on, p, s.emitted);
    EventsOfSnoc(on, p, s.emitted, entry);
    Associative(lead, before, [last]);
  }

  /** Any other line after the first header is added to the open event. */
  lemma OpenedContinuation<E>(on: Handling<E>, lead: seq<E>, p: nat, s: Scanner, n: nat, line: string)
    requires !on.isHeader(line)
    ensures Step(on, Opened(on, lead, p, s), n, line) == Opened(on, lead, p, s.(buffer := s.buffer + [line]))
  {
    assert (s.buffer + [line])[..|s.buffer|] == s.buffer;
  }

  /** At the end of the input, the open event joins the events of the closed entries. */
  lemma FlushOpened<E>(on: Handling<E>, lead: seq<E>, p: nat, s: Scanner)
    requires s.open
    ensures Flushed(Opened(on, lead, p, s)) == lead + EventsOf(on, p, Close(s))
  {
    var entry := Entry(s.start, s.header, s.buffer);
    var last := Fold(on.add, on.create(p + s.start, s.header), s.buffer).0;
    var before := EventsOf(on, p, s.emitted);
    EventsOfSnoc(on, p, s.emitted, entry);
    Associative(lead, before, [last]);
  }

  /** A line before the first header adds its warning. */
  lemma DescribedBefore<E>(on: Handling<E>, lines: seq<string>, p: nat, n: nat)
    requires IsLeading(on, lines, p) && n < p
    ensures Step(on, Described(on, lines, p, n), n + 1, lines[n]) == Described(on, lines, p, n + 1)
  {
    assert lines[..n + 1][..n] == lines[..n];
  }

  /** The first header opens the first event. */
  lemma DescribedFirst<E>(on: Handling<E>, lines: seq<string>, p: nat)
    requires IsLeading(on, lines, p) && p < |lines|
    ensures Step(on, Described(on, lines, p, p), p + 1, lines[p]) == Described(on, lines, p, p + 1)
  {
    assert lines[p..p + 1] == [lines[p]];
    assert Scan([lines[p]], on.isHeader) == Scanner(true, 1, lines[p], [], []) by {
      assert [lines[p]][..0] == [];
    }
    OpenedFirst(on, Unexpected(on, lines[..p]), p, lines[p]);
  }

  /** A line after the first header either opens the next event or is added to the open one. */
  lemma DescribedAfter<E>(on: Handling<E>, lines: seq<string>, p: nat, n: nat)
    requires IsLeading(on, lines, p) && p < n < |lines|
    ensures Step(on, Described(on, lines, p, n), n + 1, lines[n]) == Described(on, lines, p, n + 1)
  {
    var lead := Unexpected(on, lines[..p]);
    var xs := lines[p..n];
    var line := lines[n];
    var s := Scan(xs, on.isHeader);
    assert lines[p..n + 1] == xs + [line];
    assert xs[0] == lines[p];
    ScanSnoc(xs, on.isHeader, line);
    if on.isHeader(line) {
      OpenedHeader(on, lead, p, s, n + 1 - p, line);
    } else {
      OpenedContinuation(on, lead, p, s, n + 1, line);
    }
  }

  /** `Described` follows the loop one line further. */
  lemma RunDescribedStep<E>(on: Handling<E>, lines: seq<string>, p: nat, n: nat)
    requires IsLeading(on, lines, p) && n < |lines| && Run(on, lines[..n]) == Described(on, lines, p, n)
    ensures Run(on, lines[..n + 1]) == Described(on, lines, p, n + 1)
  {
    RunStep(on, lines, n);
    if n < p {
      DescribedBefore(on, lines, p, n);
    } else if n == p {
      DescribedFirst(on, lines, p);
    } else {
      DescribedAfter(on, lines, p, n);
    }
  }

  lemma {:induction false} RunDescribed<E>(on: Handling<E>, lines: seq<string>, p: nat, i: nat)
    requires IsLeading(on, lines, p) && i <= |lines|
    ensures Run(on, lines[..i]) == Described(on, lines, p, i)
  {
    if i == 0 {
      assert lines[..0] == [];
    } else {
      RunDescribed(on, lines, p, i - 1);
      RunDescribedStep(on, lines, p, i - 1);
    }
  }

  /** Running the loop over every line and flushing the open event gives the reference. */
  lemma RunExpected<E>(on: Handling<E>, lines: seq<string>)
    ensures Flushed(Run(on, lines)) == Expected(on, lines)
  {
    var p := Leading(on, lines);
    LeadingMeaning(on, lines);
    RunDescribed(on, lines, p, |lines|);
    assert lines[..|lines|] == lines;
    if p < |lines| {
      var rest := lines[p..];
      assert lines[p..|lines|] == rest;
      ScanOpens(rest, on.isHeader);
      FlushOpened(on, Unexpected(on, lines[..p]), p, Scan(rest, on.isHeader));
      ScanEntries(rest, on.isHeader);
    } else {
      assert lines[p..] == [];
    }
  }

  /** One event per line before the first header and one per header line. */
  lemma ExpectedCount<E>(on: Handling<E>, lines: seq<string>)
    ensures |Expected(on, lines)| == Leading(on, lines) + |Positions(lines, on.isHeader)|
  {
    var p := Leading(on, lines);
    LeadingMeaning(on, lines);
    PositionsDropNone(lines, on.isHeader, p);
  }

  /** Each line before the first header is not a header, and its warning comes first. */
  lemma ExpectedLeading<E>(on: Handling<E>, lines: seq<string>, i: nat)
    requires i < Leading(on, lines)
    ensures !on.isHeader(lines[i]) && Expected(on, lines)[i] == on.warn(i + 1, lines[i])
  {
    LeadingMeaning(on, lines);
    UnexpectedAt(on, lines[..Leading(on, lines)], i);
  }

  /**
   * Event `k` after the warnings comes from the `k`th header line: the event
   * opened there with the entry's continuation lines added.
   */
  lemma ExpectedEntry<E>(on: Handling<E>, lines: seq<string>, k: nat)
    requires k < |Positions(lines[Leading(on, lines)..], on.isHeader)|
    ensures var p := Leading(on, lines);
      var h := p + Positions(lines[p..], on.isHeader)[k];
      h < |lines| && on.isHeader(lines[h]) &&
      Expected(on, lines)[p + k] == Fold(on.add, on.create(h + 1, lines[h]), Entries(lines[p..], on.isHeader)[k].body).0
  {
    var p := Leading(on, lines);
    var entries := Entries(lines[p..], on.isHeader);
    EntryHeader(lines[p..], on.isHeader, k);
  }

  // ---------------------------------------------------------------- the whole file

  function IsHeader(syn: Syntax): string -> bool {
    line => syn.lineRegex(line).Some?
  }

  /** The captures of a header line (none for any other line). */
  function Captures(syn: Syntax, line: string): map<string, string> {
    match syn.lineRegex(line)
    case Some(captures) => captures
    case None => map[]
  }

  /** What this format does with each kind of line. */
  function Handled(syn: Syntax): Handling<Event> {
    Handling(
      IsHeader(syn),
      (lineNumber: nat, header: string) => CreateEventFromMatch(syn, lineNumber, Captures(syn, header)),
      Adding(syn),
      UnexpectedLine)
  }

  /** A continuation line added to the open event, as a function value. */
  function Adding(syn: Syntax): (Event, bool, string) -> (Event, bool) {
    (e: Event, inException: bool, line: string) => Continue(syn, e, inException, line)
  }

  /** One pass of `Read`'s loop body for this format, on line number `lineNumber` (1-based). */
  function StepLine(syn: Syntax, s: ReadState<Event>, lineNumber: nat, line: string): ReadState<Event> {
    match syn.lineRegex(line)
    case Some(captures) =>
      ReadState(s.events + (if s.current.Some? then [s.current.value] else []),
                Some(CreateEventFromMatch(syn, lineNumber, captures)), false)
    case None =>
      if s.current.Some? then
        var next := Continue(syn, s.current.value, s.inException, line);
        ReadState(s.events, Some(next.0), next.1)
      else ReadState(s.events + [UnexpectedLine(lineNumber, line)], None, s.inException)
  }

  /** `Read`'s loop variables after the given lines. */
  function RunLines(syn: Syntax, lines: seq<string>): ReadState<Event>
    decreases |lines|
  {
    if lines == [] then ReadState([], None, false)
    else StepLine(syn, RunLines(syn, lines[..|lines| - 1]), |lines|, lines[|lines| - 1])
  }

  /** `Read`: the line loop with its open event, updated in place, and its `inException` flag. */
  method Read(syn: Syntax, lines: seq<string>) returns (events: seq<Event>)
    ensures events == Expected(Handled(syn), lines)
  {
    var current: Option<Event> := None;
    var inException := false;
    var lineNumber := 0;
    events := [];
    while lineNumber < |lines|
      invariant lineNumber <= |lines|
      invariant ReadState(events, current, inException) == RunLines(syn, lines[..lineNumber])
    {
      assert lines[..lineNumber + 1][..lineNumber] == lines[..lineNumber];
      var line := lines[lineNumber];
      lineNumber := lineNumber + 1;
      var m := syn.lineRegex(line);
      if m.Some? {
        inException := false;
        if current.Some? {
          events := events + [current.value];
        }
        current := Some(CreateEventFromMatch(syn, lineNumber, m.value));
      } else if current.Some? {
        if inException || syn.exceptionRegex(line) {
          current := Some(current.value.(exception := Some(OrEmpty(current.value.exception) + line)));
          inException := true;
        } else {
          current := Some(current.value.(messageTemplate := current.value.messageTemplate + (NewLine + line)));
        }
      } else {
        events := events + [UnexpectedLine(lineNumber, line)];
      }
    }
    assert lines[..lineNumber] == lines;
    if current.Some? {
      events := events + [current.value];
    }
    RunLinesExpected(syn, lines);
  }

  /** This format's loop is the general one run with `Handled`. */
  lemma {:induction false} RunLinesRun(syn: Syntax, lines: seq<string>)
    ensures RunLines(syn, lines) == Run(Handled(syn), lines)
    decreases |lines|
  {
    if lines != [] {
      var line := lines[|lines| - 1];
      RunLinesRun(syn, lines[..|lines| - 1]);
      if syn.lineRegex(line).Some? {
        assert Captures(syn, line) == syn.lineRegex(line).value;
      }
    }
  }

  /** Running this format's loop over every line and flushing the open event gives the reference. */
  lemma RunLinesExpected(syn: Syntax, lines: seq<string>)
    ensures Flushed(RunLines(syn, lines)) == Expected(Handled(syn), lines)
  {
    RunLinesRun(syn, lines);
    RunExpected(Handled(syn), lines);
  }

  /**
   * The event of the `k`th header line `h`: the one the header opens on line
   * number `h + 1`, with its continuation lines split at the first exception
   * marker as `Extend` describes.
   */
  lemma ExpectedEvent(syn: Syntax, lines: seq<string>, k: nat)
    requires k < |Positions(lines[Leading(Handled(syn), lines)..], IsHeader(syn))|
    ensures var on := Handled(syn);
      var p := Leading(on, lines);
      var h := p + Positions(lines[p..], on.isHeader)[k];
      h < |lines| && syn.lineRegex(lines[h]).Some? &&
      Expected(on, lines)[p + k] == Extend(syn, on.create(h + 1, lines[h]), Entries(lines[p..], on.isHeader)[k].body)
  {
    var on := Handled(syn);
    var p := Leading(on, lines);
    var h := p + Positions(lines[p..], on.isHeader)[k];
    ExpectedEntry(on, lines, k);
    FoldMeaning(syn, on.create(h + 1, lines[h]), Entries(lines[p..], on.isHeader)[k].body);
  }

  /**
   * The event a header line opens carries the header's line number and
   * thread, and its timestamp and level; its template and properties are
   * those mined from the header's message group, stored as text.
   */
  lemma HeaderEvent(syn: Syntax, lineNumber: nat, line: string)
    requires NamesAvoid(syn.templateRegexes, BaseNames) && syn.lineRegex(line).Some?
    ensures var e := Handled(syn).create(lineNumber, line);
      var captures := syn.lineRegex(line).value;
      "LineNumber" in e.properties && e.properties["LineNumber"] == Int(lineNumber) &&
      "Thread" in e.properties && e.properties["Thread"] == Str(Group(captures, "2")) &&
      e.timestamp == Parsed(Group(captures, "1")) && e.level == ConvertLevel(Group(captures, "3")) &&
      e.exception == None &&
      (e.messageTemplate, e.properties) ==
        Mine(syn.templateRegexes, Group(captures, "4"), BaseProperties(lineNumber, captures), Raw)
  {
    assert Captures(syn, line) == syn.lineRegex(line).value;
  }
}

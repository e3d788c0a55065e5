/**
 * The IIS (W3C extended) log format, both generations (Lib/FileFormats/Iis.cs
 * and source/Lib/FileFormats/Iis.cs): a `#Fields` directive names the columns,
 * and every other non-empty, non-directive line becomes one Information event
 * whose properties are its space-separated fields. The generations differ
 * only in the `Naming` of the columns, which reaches the template too.
 */
module Iis {
  import opened Options
  import opened Text
  import opened Events
  import opened Lines
  import opened FieldMapping

  const SoftwarePrefix := "#Software: Microsoft Internet Information Services"

  const Descriptor := Format("IIS", 0, ["u_ex[0-9]{6}\\.log"], FirstLineStartsWith(SoftwarePrefix))

  /** Content detection: the first line announces IIS. */
  function AutodetectFromContents(firstFewLines: seq<string>): (r: bool)
    ensures r <==> |firstFewLines| > 0 && StartsWith(firstFewLines[0], "#Software: Microsoft Internet Information Services")
  {
    Sniffs(Descriptor.sniff, firstFewLines)
  }

  /** The six columns the template mentions, as one generation spells them. */
  datatype Columns = Columns(httpMethod: string, timeTaken: string, status: string, substatus: string, uriStem: string, uriQuery: string)

  function TemplateColumns(naming: Naming): Columns {
    match naming
    case Verbatim => Columns("cs-method", "time-taken", "sc-status", "sc-substatus", "cs-uri-stem", "cs-uri-query")
    case Underscored => Columns("cs_method", "time_taken", "sc_status", "sc_substatus", "cs_uri_stem", "cs_uri_query")
  }

  /** `if (cond) sb.Append(piece)`: the piece, or nothing. */
  function AppendIf(cond: bool, piece: string): string {
    if cond then piece else ""
  }

  /** `"{" + column + "}"`, the placeholder of a column. */
  function Hole(column: string): string {
    "{" + column + "}"
  }

  /** The pieces `GetTemplate` appends for the columns present, before trimming. */
  function TemplateText(c: Columns, names: seq<string>): string {
    AppendIf(c.httpMethod in names, Hole(c.httpMethod)) +
    AppendIf(c.timeTaken in names, " " + Hole(c.timeTaken)) +
    AppendIf(c.status in names, Hole(c.status) + AppendIf(c.substatus in names, "." + Hole(c.substatus))) +
    AppendIf(c.uriStem in names, " " + Hole(c.uriStem) + " ") +
    AppendIf(c.uriQuery in names, " " + Hole(c.uriQuery) + " ")
  }

  /** The message template for a set of column names: the appended pieces, trimmed. */
  function GetTemplate(naming: Naming, names: seq<string>): string {
    TemplateFor(TemplateColumns(naming), names)
  }

  function TemplateFor(c: Columns, names: seq<string>): string {
    Trim(TemplateText(c, names))
  }

  /** The template is empty exactly when none of the placeholder columns is present, and it is trimmed. */
  lemma GetTemplateEmptyIff(naming: Naming, names: seq<string>)
    ensures var c := TemplateColumns(naming);
      GetTemplate(naming, names) == "" <==>
      c.httpMethod !in names && c.timeTaken !in names && c.status !in names && c.uriStem !in names && c.uriQuery !in names
    ensures GetTemplate(naming, names) != "" ==>
      !IsWhiteSpace(GetTemplate(naming, names)[0]) &&
      !IsWhiteSpace(GetTemplate(naming, names)[|GetTemplate(naming, names)| - 1])
  {
    TemplateTextEmptyIff(TemplateColumns(naming), names);
    TrimMeaning(TemplateText(TemplateColumns(naming), names));
  }

  lemma TemplateTextEmptyIff(c: Columns, names: seq<string>)
    ensures Trim(TemplateText(c, names)) == "" <==>
      c.httpMethod !in names && c.timeTaken !in names && c.status !in names && c.uriStem !in names && c.uriQuery !in names
  {
    MarkedPiece(c.httpMethod in names, "", Hole(c.httpMethod), "");
    MarkedPiece(c.timeTaken in names, " ", Hole(c.timeTaken), "");
    MarkedPiece(c.status in names, "", Hole(c.status), AppendIf(c.substatus in names, "." + Hole(c.substatus)));
    MarkedPiece(c.uriStem in names, " ", Hole(c.uriStem), " ");
    MarkedPiece(c.uriQuery in names, " ", Hole(c.uriQuery), " ");
    TrimOfMarkedPieces(
      AppendIf(c.httpMethod in names, Hole(c.httpMethod)),
      AppendIf(c.timeTaken in names, " " + Hole(c.timeTaken)),
      AppendIf(c.status in names, Hole(c.status) + AppendIf(c.substatus in names, "." + Hole(c.substatus))),
      AppendIf(c.uriStem in names, " " + Hole(c.uriStem) + " "),
      AppendIf(c.uriQuery in names, " " + Hole(c.uriQuery) + " "));
  }

  /** With no column names the template is empty, which is how `Read` starts. */
  lemma NoNamesNoTemplate(c: Columns)
    ensures TemplateFor(c, []) == ""
  {
    TemplateTextEmptyIff(c, []);
  }

  /** An appended piece `pre + "{...}" + post` is empty exactly when it was not appended, and is marked. */
  lemma MarkedPiece(cond: bool, pre: string, hole: string, post: string)
    requires |pre| <= 1 && |hole| >= 1 && hole[0] == '{'
    ensures var piece := if pre == "" then hole + post else pre + hole + post;
      Marked(AppendIf(cond, piece)) && (AppendIf(cond, piece) == "" <==> !cond)
  {
    var piece := if pre == "" then hole + post else pre + hole + post;
    if cond {
      assert piece[|pre|] == '{';
    }
  }

  /** A piece that is empty or has a non-white-space character at index 0 or 1. */
  predicate Marked(x: string) {
    x == "" || (|x| >= 1 && !IsWhiteSpace(x[0])) || (|x| >= 2 && !IsWhiteSpace(x[1]))
  }

  lemma TrimOfMarkedPieces(a: string, b: string, c: string, d: string, e: string)
    requires Marked(a) && Marked(b) && Marked(c) && Marked(d) && Marked(e)
    ensures Trim(a + b + c + d + e) == "" <==> a == "" && b == "" && c == "" && d == "" && e == ""
  {
    BlankConcat(a, b);
    BlankConcat(a + b, c);
    BlankConcat(a + b + c, d);
    BlankConcat(a + b + c + d, e);
    TrimEmptyIffBlank(a + b + c + d + e);
  }

  /** The template depends only on which of the six columns are present. */
  lemma GetTemplateByPresence(naming: Naming, a: seq<string>, b: seq<string>)
    requires var c := TemplateColumns(naming);
      forall w :: w in [c.httpMethod, c.timeTaken, c.status, c.substatus, c.uriStem, c.uriQuery] ==> (w in a <==> w in b)
    ensures GetTemplate(naming, a) == GetTemplate(naming, b)
  {
    var c := TemplateColumns(naming);
    assert c.httpMethod in a <==> c.httpMethod in b;
    assert c.timeTaken in a <==> c.timeTaken in b;
    assert c.status in a <==> c.status in b;
    assert c.substatus in a <==> c.substatus in b;
    assert c.uriStem in a <==> c.uriStem in b;
    assert c.uriQuery in a <==> c.uriQuery in b;
  }

  /** The substatus placeholder is only ever appended after the status one: without status, substatus is irrelevant. */
  lemma SubstatusNeedsStatus(naming: Naming, a: seq<string>, b: seq<string>)
    requires var c := TemplateColumns(naming);
      c.status !in a && c.status !in b &&
      forall w :: w in [c.httpMethod, c.timeTaken, c.uriStem, c.uriQuery] ==> (w in a <==> w in b)
    ensures GetTemplate(naming, a) == GetTemplate(naming, b)
  {
    var c := TemplateColumns(naming);
    assert c.httpMethod in a <==> c.httpMethod in b;
    assert c.timeTaken in a <==> c.timeTaken in b;
    assert c.uriStem in a <==> c.uriStem in b;
    assert c.uriQuery in a <==> c.uriQuery in b;
  }

  /** `GetTimestamp`: now when there is no date column, else the parse of "date time" or of the date alone. */
  function GetTimestamp(properties: map<string, PropValue>): (t: Timestamp)
    ensures t.Now? <==> "date" !in properties
    ensures "date" in properties && "time" in properties ==>
      t == Parsed(Render(properties["date"]) + " " + Render(properties["time"]))
    ensures "date" in properties && "time" !in properties ==> t == Parsed(Render(properties["date"]))
  {
    if "date" !in properties then Now
    else if "time" in properties then Parsed(Render(properties["date"]) + " " + Render(properties["time"]))
    else Parsed(Render(properties["date"]))
  }

  /** The event for one data line, given the column names in force. */
  function DataEvent(naming: Naming, names: seq<string>, line: string): Event {
    var properties := FieldProperties(names, Split(line, ' '));
    Event(GetTimestamp(properties), "Information", GetTemplate(naming, names), properties, None)
  }

  /** Reference: one event per data line, in order, under the names of the latest directive before it. */
  function Expected(naming: Naming, lines: seq<string>): seq<Event> {
    MapPositions(lines, IsDataLine, (before, line) => DataEvent(naming, NamesAfter(naming, before), line))
  }

  /** The events `Read` has yielded after the given lines, one line at a time. */
  function ReadSoFar(naming: Naming, lines: seq<string>): seq<Event>
    decreases |lines|
  {
    if lines == [] then []
    else
      var n := |lines| - 1;
      ReadSoFar(naming, lines[..n]) +
        (if IsDataLine(lines[n]) then [DataEvent(naming, NamesAfter(naming, lines[..n]), lines[n])] else [])
  }

  /** Line by line, the events are those of the reference. */
  lemma {:induction false} ReadSoFarExpected(naming: Naming, lines: seq<string>)
    ensures ReadSoFar(naming, lines) == Expected(naming, lines)
    decreases |lines|
  {
    if lines != [] {
      var n := |lines| - 1;
      ReadSoFarExpected(naming, lines[..n]);
      MapPositionsSnoc(lines, n, IsDataLine, (before, line) => DataEvent(naming, NamesAfter(naming, before), line));
      assert lines[..n + 1] == lines;
    }
  }

  /** One more line: the names change only at a directive, and a data line appends its event. */
  lemma ReadSoFarSnoc(naming: Naming, lines: seq<string>, i: nat)
    requires i < |lines|
    ensures NamesAfter(naming, lines[..i + 1]) ==
      if IsFieldsDirective(lines[i]) then FieldNames(naming, lines[i]) else NamesAfter(naming, lines[..i])
    ensures ReadSoFar(naming, lines[..i + 1]) == ReadSoFar(naming, lines[..i]) +
      (if IsDataLine(lines[i]) then [DataEvent(naming, NamesAfter(naming, lines[..i]), lines[i])] else [])
  {
    assert lines[..i + 1][..i] == lines[..i];
  }

  /** `Read`: the line loop that carries the column names and the template from one line to the next. */
  method Read(naming: Naming, lines: seq<string>) returns (events: seq<Event>)
    ensures events == Expected(naming, lines)
    ensures |events| == |Positions(lines, IsDataLine)|
  {
    var columns := TemplateColumns(naming);
    var fieldNames: seq<string> := [];
    var template := TemplateFor(columns, fieldNames);  // "", by NoNamesNoTemplate
    events := [];
    var i := 0;
    while i < |lines|
      invariant 0 <= i <= |lines|
      invariant fieldNames == NamesAfter(naming, lines[..i])
      invariant template == TemplateFor(columns, fieldNames)
      invariant events == ReadSoFar(naming, lines[..i])
    {
      ReadSoFarSnoc(naming, lines, i);
      var added;
      fieldNames, template, added := ReadLine(naming, columns, fieldNames, template, lines[i]);
      events := events + added;
      assert events == ReadSoFar(naming, lines[..i + 1]);
      i := i + 1;
    }
    assert lines[..i] == lines;
    ReadSoFarExpected(naming, lines);
  }

  /** The body of `Read` for one line: a `#Fields` directive replaces the names and the template, a data line yields its event. */
  method ReadLine(naming: Naming, columns: Columns, fieldNames: seq<string>, template: string, line: string)
    returns (names: seq<string>, newTemplate: string, added: seq<Event>)
    requires columns == TemplateColumns(naming) && template == TemplateFor(columns, fieldNames)
    ensures names == if IsFieldsDirective(line) then FieldNames(naming, line) else fieldNames
    ensures newTemplate == TemplateFor(columns, names)
    ensures added == if IsDataLine(line) then [DataEvent(naming, fieldNames, line)] else []
  {
    names, newTemplate, added := fieldNames, template, [];
    if |line| > 0 {
      if line[0] == '#' {
        if StartsWith(line, "#Fields") {
          names := FieldNames(naming, line);
          newTemplate := TemplateFor(columns, names);
        }
      } else {
        var e := ReadDataLine(naming, fieldNames, template, line);
        added := [e];
      }
    }
  }

  /** The body of `Read` for one data line: split on ' ', map the fields, stamp the event. */
  method ReadDataLine(naming: Naming, fieldNames: seq<string>, template: string, line: string) returns (e: Event)
    requires template == GetTemplate(naming, fieldNames)
    ensures e == DataEvent(naming, fieldNames, line)
  {
    var fields := Split(line, ' ');
    var properties := MapFields(fieldNames, fields);
    e := Event(GetTimestamp(properties), "Information", template, properties, None);
  }

  /**
   * Event `k` comes from the `k`-th data line: it is Information, carries the
   * template of the latest `#Fields` directive before that line, and its
   * properties are that line's space-separated fields.
   */
  lemma EventFromDataLine(naming: Naming, lines: seq<string>, k: nat)
    requires k < |Expected(naming, lines)|
    ensures Positions(lines, IsDataLine)[k] < |lines|
    ensures var at := Positions(lines, IsDataLine)[k];
      var names := NamesAfter(naming, lines[..at]);
      Expected(naming, lines)[k] ==
        Event(GetTimestamp(FieldProperties(names, Split(lines[at], ' '))), "Information", GetTemplate(naming, names),
              FieldProperties(names, Split(lines[at], ' ')), None)
  {
  }

  /** Before any `#Fields` directive the template is empty. */
  lemma TemplateBeforeDirective(naming: Naming, lines: seq<string>)
    requires forall i :: 0 <= i < |lines| ==> !IsFieldsDirective(lines[i])
    ensures GetTemplate(naming, NamesAfter(naming, lines)) == ""
  {
    NoDirectiveMeansNoNames(naming, lines);
    GetTemplateEmptyIff(naming, []);
  }
}

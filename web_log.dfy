/**
 * The Octopus web log format, both generations
 * (Lib/FileFormats/OctopusWebLog.cs and
 * source/SeqFlatFileImport.Core/FileFormats/OctopusWebLog.cs): like IIS, a
 * `#Fields` directive names the columns, but data lines are split on tabs,
 * the template is fixed, and a line without a "date" or "time" column ends
 * the enumeration with `KeyNotFoundException`.
 */
module WebLog {
  import opened Options
  import opened Text
  import opened Events
  import opened Lines
  import opened FieldMapping

  const SoftwarePrefix := "#Software: Octopus Deploy"

  const Descriptor := Format("OctopusWebLog", 0, ["Web-[0-9]{4}-[0-9]{2}-[0-9]{2}\\.log"], FirstLineStartsWith(SoftwarePrefix))

  /** Content detection: the first line announces an Octopus web log. */
  function AutodetectFromContents(firstFewLines: seq<string>): (r: bool)
    ensures r <==> |firstFewLines| > 0 && StartsWith(firstFewLines[0], "#Software: Octopus Deploy")
  {
    Sniffs(Descriptor.sniff, firstFewLines)
  }

  /** The fixed message template, spelled as the generation spells its columns. */
  function Template(naming: Naming): string {
    match naming
    case Verbatim => "{cs-method} {time-taken} {sc-status} {cs-uri-stem} {cs-username} {c-ip}"
    case Underscored => "{cs_method} {time_taken} {sc_status} {cs_uri_stem} {cs_username} {c_ip}"
  }

  /** The message of the `KeyNotFoundException` a missing dictionary key raises. */
  function KeyNotFound(key: string): string {
    "The given key '" + key + "' was not present in the dictionary."
  }

  /** `GetTimestamp`: the parse of "date time"; a missing column throws, "date" being looked up first. */
  function GetTimestamp(properties: map<string, PropValue>): (r: Result<Timestamp>)
    ensures r.Success? <==> "date" in properties && "time" in properties
    ensures r.Success? ==> r.value == Parsed(Render(properties["date"]) + " " + Render(properties["time"]))
    ensures "date" !in properties ==> r == Failure(KeyNotFound("date"))
    ensures "date" in properties && "time" !in properties ==> r == Failure(KeyNotFound("time"))
  {
    if "date" !in properties then Failure(KeyNotFound("date"))
    else if "time" !in properties then Failure(KeyNotFound("time"))
    else Success(Parsed(Render(properties["date"]) + " " + Render(properties["time"])))
  }

  /** The event for one data line under the names in force, or the exception its timestamp raises. */
  function DataEvent(naming: Naming, names: seq<string>, line: string): Result<Event> {
    var properties := FieldProperties(names, Split(line, '\t'));
    match GetTimestamp(properties)
    case Success(t) => Success(Event(t, "Information", Template(naming), properties, None))
    case Failure(m) => Failure(m)
  }

  /** The outcome of each data line, in order, each under the names of the latest directive before it. */
  function Results(naming: Naming, lines: seq<string>): seq<Result<Event>> {
    MapPositions(lines, IsDataLine, (before, line) => DataEvent(naming, NamesAfter(naming, before), line))
  }

  /** What enumerating `Read` over `lines` produces: events until the first line that throws. */
  function Outcome(naming: Naming, lines: seq<string>): Stream
    decreases |lines|
  {
    if lines == [] then Stream([], None)
    else
      var n := |lines| - 1;
      var before := Outcome(naming, lines[..n]);
      if before.failure.Some? || !IsDataLine(lines[n]) then before
      else
        match DataEvent(naming, NamesAfter(naming, lines[..n]), lines[n])
        case Success(e) => Stream(before.events + [e], None)
        case Failure(m) => Stream(before.events, Some(m))
  }

  /**
   * The outcome against the per-line results: the events are the results up
   * to the first failure, the failure (if any) is the first failing result,
   * and there is none exactly when every data line succeeds.
   */
  lemma {:induction false} OutcomeMeaning(naming: Naming, lines: seq<string>)
    ensures var rs := Results(naming, lines);
      var o := Outcome(naming, lines);
      |o.events| <= |rs| &&
      (forall k :: 0 <= k < |o.events| ==> rs[k] == Success(o.events[k])) &&
      (o.failure.None? <==> |o.events| == |rs|) &&
      (o.failure.Some? ==> rs[|o.events|] == Failure(o.failure.value))
    decreases |lines|
  {
    if lines != [] {
      var n := |lines| - 1;
      OutcomeMeaning(naming, lines[..n]);
      assert lines[..n + 1] == lines;
      MapPositionsSnoc(lines, n, IsDataLine, (before, line) => DataEvent(naming, NamesAfter(naming, before), line));
    }
  }

  /** Every successful result is an Information event with the fixed template. */
  lemma ResultTemplate(naming: Naming, lines: seq<string>, k: nat)
    requires k < |Results(naming, lines)| && Results(naming, lines)[k].Success?
    ensures Results(naming, lines)[k].value.messageTemplate == Template(naming)
    ensures Results(naming, lines)[k].value.level == "Information"
  {
  }

  /** With no failure, the events are exactly one per data line. */
  lemma AllSucceed(naming: Naming, lines: seq<string>)
    requires forall k :: 0 <= k < |Results(naming, lines)| ==> Results(naming, lines)[k].Success?
    ensures Outcome(naming, lines).failure == None
    ensures |Outcome(naming, lines).events| == |Positions(lines, IsDataLine)|
  {
    OutcomeMeaning(naming, lines);
  }

  /** Once a line has thrown, later lines change nothing: the enumeration has ended. */
  lemma {:induction false} OutcomeAfterFailure(naming: Naming, lines: seq<string>, i: nat)
    requires i <= |lines|
    requires Outcome(naming, lines[..i]).failure.Some?
    ensures Outcome(naming, lines) == Outcome(naming, lines[..i])
    decreases |lines| - i
  {
    if i < |lines| {
      assert lines[..i + 1][..i] == lines[..i];
      OutcomeAfterFailure(naming, lines, i + 1);
    } else {
      assert lines[..i] == lines;
    }
  }

  /** One more line, while nothing has thrown: a data line yields its event or its exception; any other line nothing. */
  lemma OutcomeStep(naming: Naming, lines: seq<string>, i: nat)
    requires i < |lines| && Outcome(naming, lines[..i]).failure.None?
    ensures !IsDataLine(lines[i]) ==> Outcome(naming, lines[..i + 1]) == Outcome(naming, lines[..i])
    ensures IsDataLine(lines[i]) ==>
      Outcome(naming, lines[..i + 1]) ==
        (match DataEvent(naming, NamesAfter(naming, lines[..i]), lines[i])
         case Success(e) => Stream(Outcome(naming, lines[..i]).events + [e], None)
         case Failure(m) => Stream(Outcome(naming, lines[..i]).events, Some(m)))
  {
    assert lines[..i + 1][..i] == lines[..i];
  }

  /** `Read`: the line loop; an exception ends it, with the events already yielded. */
  method Read(naming: Naming, lines: seq<string>) returns (stream: Stream)
    ensures stream == Outcome(naming, lines)
  {
    var fieldNames: seq<string> := [];
    var events: seq<Event> := [];
    var i := 0;
    while i < |lines|
      invariant 0 <= i <= |lines|
      invariant fieldNames == NamesAfter(naming, lines[..i])
      invariant Outcome(naming, lines[..i]) == Stream(events, None)
    {
      var line := lines[i];
      assert lines[..i + 1][..i] == lines[..i];
      OutcomeStep(naming, lines, i);
      if |line| > 0 {
        if line[0] == '#' {
          if StartsWith(line, "#Fields") {
            fieldNames := FieldNames(naming, line);
          }
        } else {
          var fields := Split(line, '\t');
          var properties := MapFields(fieldNames, fields);
          var timestamp := GetTimestamp(properties);
          if timestamp.Failure? {
            OutcomeAfterFailure(naming, lines, i + 1);
            return Stream(events, Some(timestamp.error));
          }
          events := events + [Event(timestamp.value, "Information", Template(naming), properties, None)];
        }
      }
      i := i + 1;
    }
    assert lines[..i] == lines;
    stream := Stream(events, None);
  }
}

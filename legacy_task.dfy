/**
 * The Octopus task log as JSON lines, older generation
 * (Lib/FileFormats/OctopusTask.cs): every line is decoded on its own into
 * one event whose only property is the task id at the front of the
 * correlation id.
 */
module LegacyTask {
  import opened Options
  import opened Text
  import opened Events
  import opened JsonTask

  const Descriptor := Format("OctopusTask", 0, [FileNamePattern], FirstLineStartsWith(ContentPrefix))

  /** Content detection: the first line opens an array with a "ServerTask…" id. */
  function AutodetectFromContents(firstFewLines: seq<string>): (r: bool)
    ensures r <==> |firstFewLines| > 0 && StartsWith(firstFewLines[0], "[\"ServerTask")
  {
    Sniffs(Descriptor.sniff, firstFewLines)
  }

  /** `ParseProperties`: a fresh dictionary holding only the task id. */
  function ParseProperties(correlationId: string): (r: map<string, PropValue>)
    ensures r.Keys == {"Task ID"} && r["Task ID"] == Str(TaskIdOf(correlationId))
  {
    map["Task ID" := Str(TaskIdOf(correlationId))]
  }

  /** The event of one line, or the exception it raises. */
  function LineEvent(decode: Decoder, parseTime: TimeParser, line: string): Result<Event> {
    match Fields(decode, parseTime, line)
    case Failure(e) => Failure(e)
    case Success((elements, ticks)) => Success(EventOf(elements, ticks, ParseProperties(elements[0])))
  }

  /** What enumerating `Read` produces: one event per line until the first line that throws. */
  function Read(decode: Decoder, parseTime: TimeParser, lines: seq<string>): (r: Stream)
    ensures |r.events| <= |lines|
    ensures r.failure.None? <==> |r.events| == |lines|
    decreases |lines|
  {
    if lines == [] then Stream([], None)
    else
      match LineEvent(decode, parseTime, lines[0])
      case Failure(e) => Stream([], Some(e))
      case Success(event) =>
        var rest := Read(decode, parseTime, lines[1..]);
        Stream([event] + rest.events, rest.failure)
  }

  /**
   * Each line yields exactly one event, its own: the events are those of the
   * lines up to the first that throws, whose exception ends the enumeration;
   * with no such line there is one event per line.
   */
  lemma {:induction false} ReadMeaning(decode: Decoder, parseTime: TimeParser, lines: seq<string>)
    ensures var s := Read(decode, parseTime, lines);
      |s.events| <= |lines| &&
      (forall k :: 0 <= k < |s.events| ==> LineEvent(decode, parseTime, lines[k]) == Success(s.events[k])) &&
      (s.failure.None? <==> |s.events| == |lines|) &&
      (s.failure.Some? ==> LineEvent(decode, parseTime, lines[|s.events|]) == Failure(s.failure.value))
    decreases |lines|
  {
    if lines != [] && LineEvent(decode, parseTime, lines[0]).Success? {
      ReadMeaning(decode, parseTime, lines[1..]);
      var s := Read(decode, parseTime, lines);
      forall k | 1 <= k < |s.events|
        ensures LineEvent(decode, parseTime, lines[k]) == Success(s.events[k])
      {
        assert lines[1..][k - 1] == lines[k];
      }
      if s.failure.Some? {
        assert lines[1..][|s.events| - 1] == lines[|s.events|];
      }
    }
  }

  /** A line's event: the level of element 1, the message of element 3, and only the task id of element 0. */
  lemma LineEventMeaning(decode: Decoder, parseTime: TimeParser, line: string)
    requires LineEvent(decode, parseTime, line).Success?
    ensures var e := LineEvent(decode, parseTime, line).value;
      var elements := decode(line).elements;
      e.level == ParseLevel(elements[1]) && e.messageTemplate == elements[3] &&
      e.timestamp == At(parseTime(elements[2]).value) &&
      e.properties.Keys == {"Task ID"} && e.properties["Task ID"] == Str(TaskIdOf(elements[0]))
  {
  }

  /** A line that is JSON but not an array ends the enumeration with "Unexpected line". */
  lemma NotAnArray(decode: Decoder, parseTime: TimeParser, lines: seq<string>, k: nat)
    requires k < |lines| && decode(lines[k]).NotACollection?
    requires forall j :: 0 <= j < k ==> LineEvent(decode, parseTime, lines[j]).Success?
    ensures Read(decode, parseTime, lines).failure == Some(UnexpectedLine(lines[k]))
    ensures |Read(decode, parseTime, lines).events| == k
  {
    ReadMeaning(decode, parseTime, lines);
  }
}

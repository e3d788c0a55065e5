/**
 * The values every format produces and the importer consumes: the raw event
 * (`RawEvent`), the outcome of a lazy `Read`, the format descriptor
 * (`IFileFormat` without its `Read`), and the model of a regular expression.
 */
module Events {
  import opened Options
  import opened Text

  /** A property value; the source stores strings, ints and floats as `object`, and null for a missing task id. */
  datatype PropValue = Str(s: string) | Int(i: int) | Float(text: string) | Null

  /** The text of a property value, as `object + string` concatenation renders it. */
  function Render(v: PropValue): string {
    match v
    case Str(s) => s
    case Int(i) => IntToString(i)
    case Float(text) => text
    case Null => ""
  }

  /**
   * Where an event's timestamp comes from. Parsing dates is library behaviour
   * and is not modelled: `Parsed(t)` is "whatever `DateTime(Offset).Parse(t)` gives".
   */
  datatype Timestamp =
    | Now                  // DateTimeOffset.Now at the time of parsing
    | Parsed(text: string) // the parse of this text
    | At(ticks: int)       // an instant computed by the model, in 100 ns ticks

  datatype Event = Event(
    timestamp: Timestamp,
    level: string,
    messageTemplate: string,
    properties: map<string, PropValue>,
    exception: Option<string>)

  /**
   * What enumerating a format's lazy `Read` produced: the events yielded, and
   * the message of the exception that ended the enumeration, if one did.
   */
  datatype Stream = Stream(events: seq<Event>, failure: Option<string>)

  /** The content-sniff predicate of a format; every format's `AutodetectFromContents` is one of these. */
  datatype Sniff = Never | FirstLineStartsWith(prefix: string)

  /** A format as the importer sees it before it asks the format to read. */
  datatype Format = Format(name: string, ordinal: int, fileNamePatterns: seq<string>, sniff: Sniff)

  /** `format.AutodetectFromContents(firstFewLines)`. */
  predicate Sniffs(sniff: Sniff, firstFewLines: seq<string>) {
    match sniff
    case Never => false
    case FirstLineStartsWith(prefix) => |firstFewLines| > 0 && StartsWith(firstFewLines[0], prefix)
  }

  /**
   * A regular expression applied with `Match`: `None` when it fails, otherwise
   * the value of every named group that took part in the match.
   */
  type Matcher = string -> Option<map<string, string>>

  /** `match.Groups[name].Value`: a group that did not take part reads as "". */
  function Group(captures: map<string, string>, name: string): string {
    if name in captures then captures[name] else ""
  }
}

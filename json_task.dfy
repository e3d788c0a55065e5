/**
 * What the two JSON task formats share (Lib/FileFormats/OctopusTask.cs and
 * source/Lib/FileFormats/OctopusRawTask.cs). Each line is a JSON array
 * `[correlation id, level code, time, message]`. Decoding JSON and parsing
 * a date are not modelled: both are parameters.
 */
module JsonTask {
  import opened Options
  import opened Text
  import opened Events

  /**
   * What `JsonConvert.DeserializeObject(line) as ICollection<JToken>` gives:
   * the reader's exception for text that is not JSON, null for JSON that is
   * not a collection, or the collection's elements, each as its
   * `ToString()` reads.
   */
  datatype Decoded = Malformed(error: string) | NotACollection | Collection(elements: seq<string>)

  type Decoder = string -> Decoded

  /** `DateTimeOffset.Parse`: the instant in ticks, or the exception's message. */
  type TimeParser = string -> Result<nat>

  const FileNamePattern := "servertasks-\\d+.*txt"

  /** Both formats recognise a file whose first line opens an array with a "ServerTask…" id. */
  const ContentPrefix := "[\"ServerTask"

  /** The message of the exception a line that is not a JSON array raises: a fixed prefix, then the line. */
  function UnexpectedLine(line: string): (r: string)
    ensures |r| >= |line| && StartsWith(r, "Unexpected line: ") && r[|r| - |line|..] == line
  {
    "Unexpected line: " + line
  }

  /** The message of the `ArgumentOutOfRangeException` of `ElementAt` past the end of the array. */
  const IndexOutOfRange := "Index was out of range. Must be non-negative and less than the size of the collection."

  /** `ParseLevel`: the level a task log's level code names. */
  function ParseLevel(value: string): (r: string)
    ensures value !in ["INF", "VBS", "WRN", "ERR", "FAT"] ==> r == value
  {
    match value
    case "INF" => "Information"
    case "VBS" => "Verbose"
    case "WRN" => "Warning"
    case "ERR" => "Error"
    case "FAT" => "Fatal"
    case _ => value
  }

  /**
   * The five level codes and the level each one names; any other text is a
   * level already and is kept as it is.
   */
  lemma ParseLevelTable(value: string)
    ensures value == "INF" ==> ParseLevel(value) == "Information"
    ensures value == "VBS" ==> ParseLevel(value) == "Verbose"
    ensures value == "WRN" ==> ParseLevel(value) == "Warning"
    ensures value == "ERR" ==> ParseLevel(value) == "Error"
    ensures value == "FAT" ==> ParseLevel(value) == "Fatal"
    ensures ParseLevel(value) != value <==> value in ["INF", "VBS", "WRN", "ERR", "FAT"]
  {
  }

  /**
   * `\w` of a regular expression, over ASCII: letters, digits and the
   * underscore (the Unicode letters and digits beyond ASCII are not modelled).
   */
  predicate IsWordChar(c: char) {
    'a' <= c <= 'z' || 'A' <= c <= 'Z' || IsDigit(c) || c == '_'
  }

  /** The length of the longest prefix of `s` whose characters all satisfy `p`. */
  function RunLength(s: string, p: char -> bool): (n: nat)
    ensures n <= |s|
    ensures forall i :: 0 <= i < n ==> p(s[i])
    ensures n < |s| ==> !p(s[n])
  {
    if s == [] || !p(s[0]) then 0
    else 1 + RunLength(s[1..], p)
  }

  /**
   * The `TaskId` group of `^(?<TaskId>\w+-\d+)` matched against `s`, or ""
   * when it does not match. Backtracking cannot help: a shorter word run is
   * followed by a word character, never by '-'; so the match is the whole
   * leading word run, the dash, and the whole digit run after it.
   */
  function TaskIdOf(s: string): string {
    var w := RunLength(s, IsWordChar);
    if 0 < w < |s| && s[w] == '-' then
      var d := RunLength(s[w + 1..], IsDigit);
      if d > 0 then s[..w + 1 + d] else ""
    else ""
  }

  /**
   * A task id found is a prefix of `s`: the leading word, a dash and a
   * number, with no digit right after it.
   */
  lemma TaskIdShape(s: string)
    requires TaskIdOf(s) != ""
    ensures var r := TaskIdOf(s);
      var w := RunLength(s, IsWordChar);
      0 < w < |r| - 1 && |r| <= |s| && r == s[..|r|] && r[w] == '-' &&
      (forall i :: 0 <= i < w ==> IsWordChar(r[i])) &&
      (forall i :: w < i < |r| ==> IsDigit(r[i])) &&
      (|r| < |s| ==> !IsDigit(s[|r|]))
  {
    var w := RunLength(s, IsWordChar);
    var d := RunLength(s[w + 1..], IsDigit);
    var r := TaskIdOf(s);
    assert r == s[..w + 1 + d];
    assert r[w] == s[w];
    forall i | 0 <= i < w ensures IsWordChar(r[i]) {
      assert r[i] == s[i];
    }
    forall i | w < i < |r| ensures IsDigit(r[i]) {
      assert r[i] == s[w + 1..][i - w - 1];
    }
    if |r| < |s| {
      assert s[|r|] == s[w + 1..][d];
    }
  }

  /** Whenever `s` starts with a word, a dash and a digit, a task id is found. */
  lemma TaskIdFound(s: string, k: nat)
    requires 0 < k && k + 1 < |s| && s[k] == '-' && IsDigit(s[k + 1])
    requires forall i :: 0 <= i < k ==> IsWordChar(s[i])
    ensures TaskIdOf(s) != ""
  {
    var w := RunLength(s, IsWordChar);
    if w < k {
      assert IsWordChar(s[w]);
    }
    assert !IsWordChar('-');
    assert w == k;
    assert s[k + 1..][0] == s[k + 1];
  }

  /**
   * The parts of a line an event is made of, in the order the event's
   * initializer asks for them: elements 1 and 3 (the exception of
   * `ElementAt` for fewer than four elements), then the time of element 2.
   */
  function Fields(decode: Decoder, parseTime: TimeParser, line: string): (r: Result<(seq<string>, nat)>)
    ensures r.Success? <==>
      decode(line).Collection? && |decode(line).elements| >= 4 && parseTime(decode(line).elements[2]).Success?
    ensures decode(line).Malformed? ==> r == Failure(decode(line).error)
    ensures decode(line).NotACollection? ==> r == Failure(UnexpectedLine(line))
    ensures decode(line).Collection? && |decode(line).elements| < 4 ==> r == Failure(IndexOutOfRange)
    ensures r.Success? ==> r.value == (decode(line).elements, parseTime(decode(line).elements[2]).value)
  {
    match decode(line)
    case Malformed(e) => Failure(e)
    case NotACollection => Failure(UnexpectedLine(line))
    case Collection(elements) =>
      if |elements| < 4 then Failure(IndexOutOfRange)
      else match parseTime(elements[2])
        case Failure(e) => Failure(e)
        case Success(ticks) => Success((elements, ticks))
  }

  /** The event of a line: level code at 1, message at 3, the time of element 2, with the given properties. */
  function EventOf(elements: seq<string>, ticks: nat, properties: map<string, PropValue>): Event
    requires |elements| >= 4
  {
    Event(At(ticks), ParseLevel(elements[1]), elements[3], properties, None)
  }
}

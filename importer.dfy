/**
 * The importer (source/SeqFlatFileImport.Core/Importer.cs): it picks a
 * format by file name, else by the first lines of the file, or by its name
 * when the user gives one, and then writes every event the format reads to
 * the endpoint, reporting progress, and flushes.
 *
 * Not modelled: regular expressions (`isMatch(pattern, fileName)` stands for
 * `Regex.IsMatch(fileName, "^" + pattern + "$")`), the formats' own `Read`
 * (`read(format, lines)`, each format's module models its `Read`), files and
 * streams (a file is its name and its lines).
 */
module Importer {
  import opened Options
  import opened Text
  import opened Events
  import opened Endpoint

  const NoFormatDetected := "Could not autodetect file type"

  /** Content sniffing sees at most this many lines. */
  const SniffLines := 10

  /** Progress is reported every this many events. */
  const ProgressEvery := 1000

  const FinishedReading := "Finished reading, waiting for data to finish sending"

  /** `Regex.IsMatch(fileName, "^" + pattern + "$")`, for (pattern, fileName). */
  type NameMatcher = (string, string) -> bool

  /** A format's `Read`, enumerated to its end or to the exception that ends it. */
  type Reader = (Format, seq<string>) -> Stream

  /**
   * Format `i` comes before format `j` in `OrderBy(f => f.Ordinal)`, which
   * is stable: a smaller ordinal, or the same ordinal and earlier in the list.
   */
  predicate Before(formats: seq<Format>, i: nat, j: nat)
    requires i < |formats| && j < |formats|
  {
    formats[i].ordinal < formats[j].ordinal || (formats[i].ordinal == formats[j].ordinal && i <= j)
  }

  /** The index of the first of the first `n` formats, in ordinal order, that passes `test`. */
  function FirstInOrder(formats: seq<Format>, test: Format -> bool, n: nat): (r: Option<nat>)
    requires n <= |formats|
    ensures r.Some? ==> r.value < n && test(formats[r.value])
    decreases n
  {
    if n == 0 then None
    else
      var best := FirstInOrder(formats, test, n - 1);
      if test(formats[n - 1]) && (best.None? || formats[n - 1].ordinal < formats[best.value].ordinal) then
        Some(n - 1)
      else best
  }

  /**
   * The ordered search finds a format exactly when one passes the test, and
   * the one it finds comes before every other that passes.
   */
  lemma {:induction false} FirstInOrderMeaning(formats: seq<Format>, test: Format -> bool, n: nat)
    requires n <= |formats|
    ensures var r := FirstInOrder(formats, test, n);
      (r.None? <==> forall j :: 0 <= j < n ==> !test(formats[j])) &&
      (r.Some? ==> forall j :: 0 <= j < n && test(formats[j]) ==> Before(formats, r.value, j))
    decreases n
  {
    if n > 0 {
      FirstInOrderMeaning(formats, test, n - 1);
    }
  }

  /** `format.AutodetectFileNameRegexes.Any(p => Regex.IsMatch(fileName, $"^{p}$"))`. */
  predicate NameMatches(isMatch: NameMatcher, format: Format, fileName: string) {
    exists p :: p in format.fileNamePatterns && isMatch(p, fileName)
  }

  /** `reader.Enumerable().Take(10)`. */
  function FirstFewLines(lines: seq<string>): (r: seq<string>)
    ensures |r| <= SniffLines && r <= lines
    ensures |lines| <= SniffLines ==> r == lines
  {
    if |lines| <= SniffLines then lines else lines[..SniffLines]
  }

  /** `AutoDetectFormat`: by file name first; only when no name matches, by the first lines. */
  function AutoDetectFormat(formats: seq<Format>, isMatch: NameMatcher, fileName: string, lines: seq<string>)
    : (r: Result<Format>)
    ensures r.Failure? ==> r.error == NoFormatDetected
    ensures r.Success? ==>
      r.value in formats && (NameMatches(isMatch, r.value, fileName) || Sniffs(r.value.sniff, FirstFewLines(lines)))
  {
    match FirstInOrder(formats, (f: Format) => NameMatches(isMatch, f, fileName), |formats|)
    case Some(i) => Success(formats[i])
    case None =>
      var firstFewLines := FirstFewLines(lines);
      match FirstInOrder(formats, (f: Format) => Sniffs(f.sniff, firstFewLines), |formats|)
      case Some(i) => Success(formats[i])
      case None => Failure(NoFormatDetected)
  }

  /**
   * A format whose pattern matches the file name wins, whatever the
   * contents: the first such format in ordinal order.
   */
  lemma AutoDetectByName(formats: seq<Format>, isMatch: NameMatcher, fileName: string, lines: seq<string>, j: nat)
    requires j < |formats| && NameMatches(isMatch, formats[j], fileName)
    ensures var r := AutoDetectFormat(formats, isMatch, fileName, lines);
      r.Success? &&
      exists i :: 0 <= i < |formats| && r.value == formats[i] && NameMatches(isMatch, formats[i], fileName) &&
        forall k :: 0 <= k < |formats| && NameMatches(isMatch, formats[k], fileName) ==> Before(formats, i, k)
  {
    var test := (f: Format) => NameMatches(isMatch, f, fileName);
    FirstInOrderMeaning(formats, test, |formats|);
    assert test(formats[j]);
    var i := FirstInOrder(formats, test, |formats|).value;
    assert test(formats[i]);
    forall k | 0 <= k < |formats| && NameMatches(isMatch, formats[k], fileName)
      ensures Before(formats, i, k)
    {
      assert test(formats[k]);
    }
  }

  /**
   * When no name matches, the first format in ordinal order whose content
   * test accepts the first ten lines wins; no format at all is a failure.
   */
  lemma AutoDetectByContents(formats: seq<Format>, isMatch: NameMatcher, fileName: string, lines: seq<string>)
    requires forall k :: 0 <= k < |formats| ==> !NameMatches(isMatch, formats[k], fileName)
    ensures var r := AutoDetectFormat(formats, isMatch, fileName, lines);
      var firstFewLines := FirstFewLines(lines);
      (r.Failure? <==> forall k :: 0 <= k < |formats| ==> !Sniffs(formats[k].sniff, firstFewLines)) &&
      (r.Failure? ==> r.error == NoFormatDetected) &&
      (r.Success? ==>
        exists i :: 0 <= i < |formats| && r.value == formats[i] && Sniffs(formats[i].sniff, firstFewLines) &&
          forall k :: 0 <= k < |formats| && Sniffs(formats[k].sniff, firstFewLines) ==> Before(formats, i, k))
  {
    var byName := (f: Format) => NameMatches(isMatch, f, fileName);
    FirstInOrderMeaning(formats, byName, |formats|);
    assert forall k :: 0 <= k < |formats| ==> !byName(formats[k]);
    var firstFewLines := FirstFewLines(lines);
    var byContents := (f: Format) => Sniffs(f.sniff, firstFewLines);
    FirstInOrderMeaning(formats, byContents, |formats|);
    var found := FirstInOrder(formats, byContents, |formats|);
    if found.Some? {
      var i := found.value;
      forall k | 0 <= k < |formats| && Sniffs(formats[k].sniff, firstFewLines)
        ensures Before(formats, i, k)
      {
        assert byContents(formats[k]);
      }
    } else {
      forall k | 0 <= k < |formats|
        ensures !Sniffs(formats[k].sniff, firstFewLines)
      {
        assert !byContents(formats[k]);
      }
    }
  }

  /** Nothing after the tenth line has a say in the choice. */
  lemma AutoDetectSeesTenLines(formats: seq<Format>, isMatch: NameMatcher, fileName: string, lines: seq<string>, more: seq<string>)
    requires |lines| >= SniffLines
    ensures AutoDetectFormat(formats, isMatch, fileName, lines + more) ==
      AutoDetectFormat(formats, isMatch, fileName, lines)
  {
    assert FirstFewLines(lines + more) == FirstFewLines(lines);
  }

  function FormatNotFound(formatName: string): string {
    "Could not find the file format '" + formatName + "'"
  }

  /** `FindFormatByName`: the first format in list order whose name equals `formatName`, ignoring case. */
  function FindFormatByName(formats: seq<Format>, formatName: string): (r: Result<Format>)
    ensures r.Failure? ==> r.error == FormatNotFound(formatName)
    ensures r.Success? ==> r.value in formats && EqualsIgnoreCase(r.value.name, formatName)
  {
    match FirstOrNone(formats, (f: Format) => EqualsIgnoreCase(f.name, formatName))
    case Some(f) => Success(f)
    case None => Failure(FormatNotFound(formatName))
  }

  /**
   * A format is found exactly when one has the name, ignoring case, and it
   * is the first such in the list, whatever the ordinals; otherwise the
   * failure names the format asked for.
   */
  lemma FindFormatByNameMeaning(formats: seq<Format>, formatName: string)
    ensures var r := FindFormatByName(formats, formatName);
      (r.Failure? <==> forall k :: 0 <= k < |formats| ==> !EqualsIgnoreCase(formats[k].name, formatName)) &&
      (r.Failure? ==> r.error == FormatNotFound(formatName)) &&
      (r.Success? ==>
        exists i :: 0 <= i < |formats| && r.value == formats[i] && EqualsIgnoreCase(formats[i].name, formatName) &&
          forall k :: 0 <= k < i ==> !EqualsIgnoreCase(formats[k].name, formatName))
  {
    var test := (f: Format) => EqualsIgnoreCase(f.name, formatName);
    var found := FirstOrNone(formats, test);
    if found.None? {
      forall k | 0 <= k < |formats|
        ensures !EqualsIgnoreCase(formats[k].name, formatName)
      {
        assert !test(formats[k]);
      }
    } else {
      var i :| 0 <= i < |formats| && formats[i] == found.value && test(formats[i]) &&
        forall j :: 0 <= j < i ==> !test(formats[j]);
      forall k | 0 <= k < i
        ensures !EqualsIgnoreCase(formats[k].name, formatName)
      {
        assert !test(formats[k]);
      }
    }
  }

  /** The progress report after `count` events. */
  function ProgressReport(count: nat): string {
    "Line " + NatToString(count)
  }

  /** The progress reports while `count` events are written: one at every multiple of 1000. */
  function Progress(count: nat): seq<string>
    decreases count
  {
    if count == 0 then []
    else Progress(count - 1) + (if count % ProgressEvery == 0 then [ProgressReport(count)] else [])
  }

  /** Report `k` names the `k + 1`-th thousand, and there is one report per full thousand. */
  lemma {:induction false} ProgressMeaning(count: nat)
    ensures |Progress(count)| == count / ProgressEvery
    ensures forall k :: 0 <= k < |Progress(count)| ==> Progress(count)[k] == ProgressReport((k + 1) * ProgressEvery)
    decreases count
  {
    if count > 0 {
      ProgressMeaning(count - 1);
      if count % ProgressEvery == 0 {
        assert (count - 1) / ProgressEvery + 1 == count / ProgressEvery;
        assert count == ((count - 1) / ProgressEvery + 1) * ProgressEvery;
      } else {
        assert (count - 1) / ProgressEvery == count / ProgressEvery;
      }
    }
  }

  /** What `Import` hands back. */
  datatype ImportResult =
    | Flushed(outcomes: seq<Outcome>) // the endpoint's `Flush` result: the outcome of every batch
    | NotImported(reason: string)     // no format was found
    | ReadThrew(message: string)      // the exception that ended the format's `Read`, never caught

  /** `Importer`: the endpoint, the formats it may choose from, and the progress reports it made. */
  class Importer {
    const endpoint: SeqEndpoint
    const fileFormats: seq<Format>
    /** The messages passed to the progress callback, in order. */
    var progress: seq<string>

    /** `fileFormats ?? DefaultFileFormats`; finding the default formats by reflection is not modelled. */
    constructor(endpoint: SeqEndpoint, fileFormats: Option<seq<Format>>, defaultFileFormats: seq<Format>)
      ensures this.endpoint == endpoint && progress == []
      ensures this.fileFormats == if fileFormats.Some? then fileFormats.value else defaultFileFormats
    {
      this.endpoint := endpoint;
      this.fileFormats := if fileFormats.Some? then fileFormats.value else defaultFileFormats;
      progress := [];
    }

    /** The loop of `Import(stream, format)`: each event written once, in order, and a report at every thousandth. */
    method WriteEvents(events: seq<Event>)
      requires endpoint.Valid()
      modifies this, endpoint
      ensures endpoint.Valid()
      ensures endpoint.written == old(endpoint.written) + StampAll(events, endpoint.batchId)
      ensures endpoint.State() == WriteAll(old(endpoint.State()), StampAll(events, endpoint.batchId))
      ensures progress == old(progress) + Progress(|events|)
    {
      var line := 0;
      ghost var stamped: seq<Event> := [];
      while line < |events|
        invariant line <= |events| && endpoint.Valid()
        invariant stamped == StampAll(events[..line], endpoint.batchId)
        invariant endpoint.written == old(endpoint.written) + stamped
        invariant endpoint.State() == WriteAll(old(endpoint.State()), stamped)
        invariant progress == old(progress) + Progress(line)
      {
        var e := Stamped(events[line], endpoint.batchId);
        StampAllSnoc(events, line, endpoint.batchId);
        WriteAllSnoc(old(endpoint.State()), stamped, e);
        endpoint.Write(events[line]);
        assert endpoint.written == old(endpoint.written) + (stamped + [e]);
        stamped := stamped + [e];
        line := line + 1;
        if line % ProgressEvery == 0 {
          progress := progress + [ProgressReport(line)];
        }
      }
      assert events[..line] == events;
    }

    /**
     * `Import(stream, format)`: every event the format yields is written
     * once, in order, with progress reports; when the format reads to the
     * end the endpoint is flushed, and when it throws, the exception goes up
     * and nothing is flushed.
     */
    method ImportStream(read: Reader, lines: seq<string>, format: Format) returns (r: ImportResult)
      requires endpoint.Valid()
      modifies this, endpoint
      ensures endpoint.Valid()
      ensures var s := read(format, lines);
        var written := StampAll(s.events, endpoint.batchId);
        endpoint.written == old(endpoint.written) + written &&
        endpoint.State() ==
          (if s.failure.None? then FlushStep(WriteAll(old(endpoint.State()), written))
           else WriteAll(old(endpoint.State()), written)) &&
        progress == old(progress) + Progress(|s.events|) + (if s.failure.None? then [FinishedReading] else []) &&
        r == if s.failure.None? then Flushed(endpoint.sendTasks) else ReadThrew(s.failure.value)
    {
      var stream := read(format, lines);
      WriteEvents(stream.events);
      if stream.failure.Some? {
        return ReadThrew(stream.failure.value);
      }
      progress := progress + [FinishedReading];
      var results := endpoint.Flush();
      r := Flushed(results);
    }

    /**
     * `Import(file, formatName)`: the format named, or the one detected when
     * no name is given; a format that cannot be found is reported without
     * reading anything.
     */
    method Import(read: Reader, isMatch: NameMatcher, fileName: string, lines: seq<string>, formatName: Option<string>)
      returns (r: ImportResult)
      requires endpoint.Valid()
      modifies this, endpoint
      ensures endpoint.Valid()
      ensures var found :=
          if formatName.None? then AutoDetectFormat(fileFormats, isMatch, fileName, lines)
          else FindFormatByName(fileFormats, formatName.value);
        (found.Failure? ==>
          r == NotImported(found.error) && progress == old(progress) &&
          endpoint.State() == old(endpoint.State()) && endpoint.written == old(endpoint.written)) &&
        (found.Success? ==>
          var s := read(found.value, lines);
          var written := StampAll(s.events, endpoint.batchId);
          endpoint.written == old(endpoint.written) + written &&
          endpoint.State() ==
            (if s.failure.None? then FlushStep(WriteAll(old(endpoint.State()), written))
             else WriteAll(old(endpoint.State()), written)) &&
          progress == old(progress) + Progress(|s.events|) + (if s.failure.None? then [FinishedReading] else []) &&
          r == if s.failure.None? then Flushed(endpoint.sendTasks) else ReadThrew(s.failure.value))
    {
      var found :=
        if formatName.None? then AutoDetectFormat(fileFormats, isMatch, fileName, lines)
        else FindFormatByName(fileFormats, formatName.value);
      if found.Failure? {
        return NotImported(found.error);
      }
      r := ImportStream(read, lines, found.value);
    }
  }
}

/**
 * The Octopus task log, newer generation
 * (source/SeqFlatFileImport.Core/FileFormats/OctopusTask.cs): a header of
 * `Key: value` lines ending at the first blank line, then detail lines
 * `time level | message` interleaved with indented section lines. A section
 * line updates the deployment context (status, project, step, machine,
 * package) that every later detail event carries as its properties.
 *
 * The lines come from a single-pass reader: the header loop stops after the
 * blank line and the detail loop goes on from there.
 */
module TaskLog {
  import opened Options
  import opened Text
  import opened Events
  import opened Lines
  import opened Mining

  /** The indentation that marks a section line: twenty spaces and a bar. */
  const HeaderStart := "                    |"

  const Descriptor := Format("OctopusTask", 0, ["ServerTasks-.*"], FirstLineStartsWith("Task ID:"))

  /** Content detection: the first line is the "Task ID" header line. */
  function AutodetectFromContents(firstFewLines: seq<string>): (r: bool)
    ensures r <==> |firstFewLines| > 0 && StartsWith(firstFewLines[0], "Task ID:")
  {
    Sniffs(Descriptor.sniff, firstFewLines)
  }

  /** 100 ns ticks in a day. */
  const TicksPerDay := 864_000_000_000

  /** The prefix `GetHeader` assumes in front of the task id; only its length is used. */
  const TaskIdPrefix := "ServerTasks-"

  /**
   * The regular expressions and library parsers the format relies on:
   * `headerRegex` is `^([A-Za-z ]+): +(.+)$` with groups "1" (key) and
   * "2" (value); `messageRegex` has the groups "Time", "Level" and
   * "Message"; then the five section expressions; `parseDateTime` and
   * `parseTimeSpan` are `DateTime.Parse` and `TimeSpan.Parse`, in ticks,
   * or the message of the exception they throw.
   */
  datatype Syntax = Syntax(
    headerRegex: Matcher,
    messageRegex: Matcher,
    overall: Matcher,
    step: Matcher,
    acquirePackages: Matcher,
    uploadPackages: Matcher,
    machine: Matcher,
    parseDateTime: string -> Result<nat>,
    parseTimeSpan: string -> Result<nat>)

  function UnexpectedLine(line: string): string {
    "Unexpected line: " + line
  }

  /** The message of the `ArgumentOutOfRangeException` of a `Substring` past the end. */
  const SubstringPastEnd := "startIndex cannot be larger than length of string."

  // ---------------------------------------------------------------- the header

  /**
   * `Header`: the queued and started instants in ticks (`Started` is
   * `DateTime`'s default, tick 0, until a "Task started" line), the header
   * lines by key, and the task id (null until a "Task ID" line).
   */
  datatype Header = Header(queued: Option<nat>, started: nat, properties: map<string, PropValue>, id: PropValue)

  const NewHeader := Header(None, 0, map[], Null)

  /** The key of a header line, or "" for a line the header expression does not match. */
  function KeyOf(syn: Syntax, line: string): string {
    match syn.headerRegex(line)
    case None => ""
    case Some(c) => Group(c, "1")
  }

  /** The value of a header line. */
  function ValueOf(syn: Syntax, line: string): string {
    match syn.headerRegex(line)
    case None => ""
    case Some(c) => Group(c, "2")
  }

  /** The property name a header line is stored under: its key without spaces. */
  function StoredKey(syn: Syntax, line: string): string {
    RemoveChar(KeyOf(syn, line), ' ')
  }

  /**
   * One header line taken into the header: stored under its key without
   * spaces, then the three known keys parsed into the typed fields.
   */
  function AddHeaderLine(syn: Syntax, h: Header, key: string, value: string): Result<Header> {
    var stored := h.(properties := h.properties[RemoveChar(key, ' ') := Str(value)]);
    if key == "Task queued" then
      match syn.parseDateTime(value)
      case Success(t) => Success(stored.(queued := Some(t)))
      case Failure(e) => Failure(e)
    else if key == "Task started" then
      match syn.parseDateTime(value)
      case Success(t) => Success(stored.(started := t))
      case Failure(e) => Failure(e)
    else if key == "Task ID" then
      if |value| < |TaskIdPrefix| then Failure(SubstringPastEnd)
      else Success(stored.(id := Str(value[|TaskIdPrefix|..])))
    else Success(stored)
  }

  /**
   * A header line stores its value under its key without spaces; only the
   * "Task queued" line sets the queued time, which then stays set, only
   * "Task started" the started time, and only "Task ID" the id, which fails
   * exactly for a value shorter than the prefix it skips.
   */
  lemma AddHeaderLineMeaning(syn: Syntax, h: Header, key: string, value: string)
    ensures var r := AddHeaderLine(syn, h, key, value);
      (r.Success? ==> r.value.properties == h.properties[RemoveChar(key, ' ') := Str(value)]) &&
      (r.Success? && h.queued.Some? ==> r.value.queued.Some?) &&
      (key != "Task queued" && r.Success? ==> r.value.queued == h.queued) &&
      (key != "Task started" && r.Success? ==> r.value.started == h.started) &&
      (key != "Task ID" && r.Success? ==> r.value.id == h.id) &&
      (key == "Task ID" ==> (r.Success? <==> |value| >= |TaskIdPrefix|))
  {
  }

  /**
   * `GetHeader` from line `i` on, with the header built so far: the header,
   * and how many lines the reader has consumed (the blank line included).
   */
  function HeaderFrom(syn: Syntax, lines: seq<string>, i: nat, h: Header): (r: Result<(Header, nat)>)
    requires i <= |lines|
    ensures r.Success? ==> i <= r.value.1 <= |lines|
    decreases |lines| - i
  {
    if i == |lines| then Success((h, i))
    else if IsBlank(lines[i]) then Success((h, i + 1))
    else
      match syn.headerRegex(lines[i])
      case None => Failure(UnexpectedLine(lines[i]))
      case Some(c) =>
        match AddHeaderLine(syn, h, Group(c, "1"), Group(c, "2"))
        case Failure(e) => Failure(e)
        case Success(h') => HeaderFrom(syn, lines, i + 1, h')
  }

  /**
   * `GetHeader`: read `Key: value` lines until a blank one; a line that is
   * not of that form, or a known key whose value does not parse, throws.
   */
  method GetHeader(syn: Syntax, lines: seq<string>) returns (r: Result<(Header, nat)>)
    ensures r == HeaderFrom(syn, lines, 0, NewHeader)
  {
    var header := NewHeader;
    var i := 0;
    while i < |lines|
      invariant i <= |lines|
      invariant HeaderFrom(syn, lines, 0, NewHeader) == HeaderFrom(syn, lines, i, header)
    {
      var line := lines[i];
      TrimEmptyIffBlank(line);
      if |Trim(line)| == 0 {
        return Success((header, i + 1));
      }
      var m := syn.headerRegex(line);
      if m.None? {
        return Failure(UnexpectedLine(line));
      }
      var key := Group(m.value, "1");
      var value := Group(m.value, "2");
      header := header.(properties := header.properties[RemoveChar(key, ' ') := Str(value)]);
      if key == "Task queued" {
        var t := syn.parseDateTime(value);
        if t.Failure? {
          return Failure(t.error);
        }
        header := header.(queued := Some(t.value));
      } else if key == "Task started" {
        var t := syn.parseDateTime(value);
        if t.Failure? {
          return Failure(t.error);
        }
        header := header.(started := t.value);
      } else if key == "Task ID" {
        if |value| < |TaskIdPrefix| {
          return Failure(SubstringPastEnd);
        }
        header := header.(id := Str(value[|TaskIdPrefix|..]));
      }
      i := i + 1;
    }
    return Success((header, i));
  }

  /** A header line that does not end the header: it matches, is taken in, and the header goes on from the next line. */
  lemma HeaderFromStep(syn: Syntax, lines: seq<string>, i: nat, h: Header)
    requires i < |lines| && !IsBlank(lines[i]) && HeaderFrom(syn, lines, i, h).Success?
    ensures syn.headerRegex(lines[i]).Some?
    ensures AddHeaderLine(syn, h, KeyOf(syn, lines[i]), ValueOf(syn, lines[i])).Success?
    ensures HeaderFrom(syn, lines, i, h) == HeaderFrom(syn, lines, i + 1, Next(syn, lines, i, h))
  {
  }

  /** The header after taking in line `i`, when that succeeds. */
  function Next(syn: Syntax, lines: seq<string>, i: nat, h: Header): Header
    requires i < |lines|
  {
    match AddHeaderLine(syn, h, KeyOf(syn, lines[i]), ValueOf(syn, lines[i]))
    case Success(h') => h'
    case Failure(_) => h
  }

  /** Lines `from` up to `to` are header lines: not blank, and of the `Key: value` form. */
  ghost predicate HeaderLines(syn: Syntax, lines: seq<string>, from: nat, to: nat)
    requires from <= to <= |lines|
  {
    forall j :: from <= j < to ==> !IsBlank(lines[j]) && syn.headerRegex(lines[j]).Some?
  }

  /**
   * The header ends at the first blank line, which is consumed with it, or
   * at the end of the input; every line before that is a header line.
   */
  lemma {:induction false} HeaderExtent(syn: Syntax, lines: seq<string>, i: nat, h: Header, r: Header, n: nat)
    requires i <= |lines| && HeaderFrom(syn, lines, i, h) == Success((r, n))
    ensures (n == |lines| && HeaderLines(syn, lines, i, n)) || (i < n && IsBlank(lines[n - 1]) && HeaderLines(syn, lines, i, n - 1))
    decreases |lines| - i
  {
    if i == |lines| {
    } else if IsBlank(lines[i]) {
    } else {
      var h' := Next(syn, lines, i, h);
      HeaderFromStep(syn, lines, i, h);
      HeaderExtent(syn, lines, i + 1, h', r, n);
    }
  }

  /** A line that is neither blank nor of the `Key: value` form, before any blank line, makes the header throw. */
  lemma {:induction false} HeaderRejects(syn: Syntax, lines: seq<string>, i: nat, h: Header, j: nat)
    requires i <= j < |lines| && !IsBlank(lines[j]) && syn.headerRegex(lines[j]).None?
    requires forall k :: i <= k < j ==> !IsBlank(lines[k])
    ensures HeaderFrom(syn, lines, i, h).Failure?
    decreases j - i
  {
    if i < j {
      match syn.headerRegex(lines[i])
      case None =>
      case Some(c) =>
        match AddHeaderLine(syn, h, Group(c, "1"), Group(c, "2"))
        case Failure(_) =>
        case Success(h') => HeaderRejects(syn, lines, i + 1, h', j);
    }
  }

  /** A header line before the end of the header (which is at `n`) has key `key`. */
  ghost predicate HasKeyBefore(syn: Syntax, lines: seq<string>, i: nat, n: nat, key: string)
    requires i <= n <= |lines|
  {
    exists j :: i <= j < n && !IsBlank(lines[j]) && KeyOf(syn, lines[j]) == key
  }

  /** The header has a queued time exactly when one of its lines is "Task queued" (or one was set before). */
  lemma {:induction false} HeaderQueued(syn: Syntax, lines: seq<string>, i: nat, h: Header, r: Header, n: nat)
    requires i <= |lines| && HeaderFrom(syn, lines, i, h) == Success((r, n))
    ensures r.queued.Some? <==> h.queued.Some? || HasKeyBefore(syn, lines, i, n, "Task queued")
    decreases |lines| - i
  {
    if i == |lines| {
    } else if IsBlank(lines[i]) {
    } else {
      var h' := Next(syn, lines, i, h);
      HeaderFromStep(syn, lines, i, h);
      AddHeaderLineMeaning(syn, h, KeyOf(syn, lines[i]), ValueOf(syn, lines[i]));
      HeaderQueued(syn, lines, i + 1, h', r, n);
      if HasKeyBefore(syn, lines, i, n, "Task queued") && !HasKeyBefore(syn, lines, i + 1, n, "Task queued") {
        var j :| i <= j < n && !IsBlank(lines[j]) && KeyOf(syn, lines[j]) == "Task queued";
        assert j == i;
      }
      if HasKeyBefore(syn, lines, i + 1, n, "Task queued") {
        var j :| i + 1 <= j < n && !IsBlank(lines[j]) && KeyOf(syn, lines[j]) == "Task queued";
        assert i <= j < n;
      }
      if h'.queued.Some? && h.queued.None? {
        assert i <= i < n && !IsBlank(lines[i]) && KeyOf(syn, lines[i]) == "Task queued";
      }
    }
  }

  /** Without a "Task started" header line the started time keeps its earlier value (tick 0 for a new header). */
  lemma {:induction false} HeaderStartedDefault(syn: Syntax, lines: seq<string>, i: nat, h: Header, r: Header, n: nat)
    requires i <= |lines| && HeaderFrom(syn, lines, i, h) == Success((r, n))
    requires !HasKeyBefore(syn, lines, i, n, "Task started")
    ensures r.started == h.started
    decreases |lines| - i
  {
    if i == |lines| {
    } else if IsBlank(lines[i]) {
    } else {
      HeaderFromStep(syn, lines, i, h);
      AddHeaderLineMeaning(syn, h, KeyOf(syn, lines[i]), ValueOf(syn, lines[i]));
      assert KeyOf(syn, lines[i]) != "Task started";
      HeaderStartedDefault(syn, lines, i + 1, Next(syn, lines, i, h), r, n);
    }
  }

  /** Without a "Task ID" header line the id keeps its earlier value (null for a new header). */
  lemma {:induction false} HeaderIdDefault(syn: Syntax, lines: seq<string>, i: nat, h: Header, r: Header, n: nat)
    requires i <= |lines| && HeaderFrom(syn, lines, i, h) == Success((r, n))
    requires !HasKeyBefore(syn, lines, i, n, "Task ID")
    ensures r.id == h.id
    decreases |lines| - i
  {
    if i == |lines| {
    } else if IsBlank(lines[i]) {
    } else {
      HeaderFromStep(syn, lines, i, h);
      AddHeaderLineMeaning(syn, h, KeyOf(syn, lines[i]), ValueOf(syn, lines[i]));
      assert KeyOf(syn, lines[i]) != "Task ID";
      HeaderIdDefault(syn, lines, i + 1, Next(syn, lines, i, h), r, n);
    }
  }

  /** A property no remaining header line writes keeps its value. */
  lemma {:induction false} HeaderKeepsProperty(syn: Syntax, lines: seq<string>, i: nat, h: Header, r: Header, n: nat,
                                               key: string)
    requires i <= |lines| && HeaderFrom(syn, lines, i, h) == Success((r, n)) && key in h.properties
    requires forall k :: i <= k < n && !IsBlank(lines[k]) ==> StoredKey(syn, lines[k]) != key
    ensures key in r.properties && r.properties[key] == h.properties[key]
    decreases |lines| - i
  {
    if i == |lines| {
    } else if IsBlank(lines[i]) {
    } else {
      HeaderFromStep(syn, lines, i, h);
      AddHeaderLineMeaning(syn, h, KeyOf(syn, lines[i]), ValueOf(syn, lines[i]));
      HeaderKeepsProperty(syn, lines, i + 1, Next(syn, lines, i, h), r, n, key);
    }
  }

  /**
   * Each header line is stored under its key without spaces, with its value
   * as text, unless a later header line is stored under the same name.
   */
  lemma {:induction false} HeaderStores(syn: Syntax, lines: seq<string>, i: nat, h: Header, r: Header, n: nat, j: nat)
    requires i <= |lines| && HeaderFrom(syn, lines, i, h) == Success((r, n))
    requires i <= j < n && !IsBlank(lines[j])
    requires forall k :: j < k < n && !IsBlank(lines[k]) ==> StoredKey(syn, lines[k]) != StoredKey(syn, lines[j])
    ensures StoredKey(syn, lines[j]) in r.properties && r.properties[StoredKey(syn, lines[j])] == Str(ValueOf(syn, lines[j]))
    decreases |lines| - i
  {
    var h' := Next(syn, lines, i, h);
    assert !IsBlank(lines[i]) by {
      HeaderExtent(syn, lines, i, h, r, n);
    }
    HeaderFromStep(syn, lines, i, h);
    AddHeaderLineMeaning(syn, h, KeyOf(syn, lines[i]), ValueOf(syn, lines[i]));
    if i < j {
      HeaderStores(syn, lines, i + 1, h', r, n, j);
    } else {
      HeaderKeepsProperty(syn, lines, i + 1, h', r, n, StoredKey(syn, lines[j]));
    }
  }

  /** The task id is the "Task ID" value without its first twelve characters, whatever they are. */
  lemma TaskIdOfHeaderLine(syn: Syntax, h: Header, value: string)
    requires AddHeaderLine(syn, h, "Task ID", value).Success?
    ensures var id := AddHeaderLine(syn, h, "Task ID", value).value.id;
      id.Str? && |id.s| == |value| - 12 && (StartsWith(value, TaskIdPrefix) ==> value == TaskIdPrefix + id.s)
  {
  }

  // ---------------------------------------------------------------- sections

  /** A section line: it starts with the section indentation. */
  predicate IsSection(line: string) {
    StartsWith(line, HeaderStart)
  }

  /** A detail line: any other line, blank ones included. */
  predicate IsDetail(line: string) {
    !IsSection(line)
  }

  /** The text of a section line, after the indentation and trimmed. */
  function SectionText(line: string): string
    requires IsSection(line)
  {
    Trim(line[|HeaderStart|..])
  }

  /** A section parser: its expression, the expression's named groups in order, and the properties it then removes. */
  datatype SectionParser = SectionParser(regex: Matcher, groupNames: seq<string>, removed: seq<string>)

  /** `SectionParsers`, in the order they are tried. */
  function SectionParsers(syn: Syntax): seq<SectionParser> {
    [ SectionParser(syn.overall, ["Status", "Project", "Release", "Environment"], []),
      SectionParser(syn.step, ["Status", "Step", "StepName"], ["Machine", "PackageName", "PackageVersion"]),
      SectionParser(syn.acquirePackages, ["Status"], ["StepName", "Step", "Machine"]),
      SectionParser(syn.uploadPackages, ["Status", "PackageName", "PackageVersion"], []),
      SectionParser(syn.machine, ["Status", "Machine"], []) ]
  }

  /** The first parser, at `from` or later, whose expression matches the section. */
  function FirstParser(parsers: seq<SectionParser>, section: string, from: nat): (r: Option<nat>)
    ensures r.Some? ==>
      from <= r.value < |parsers| && parsers[r.value].regex(section).Some? &&
      forall j :: from <= j < r.value ==> parsers[j].regex(section).None?
    ensures r.None? ==> forall j :: from <= j < |parsers| ==> parsers[j].regex(section).None?
    decreases |parsers| - from
  {
    if from >= |parsers| then None
    else if parsers[from].regex(section).Some? then Some(from)
    else FirstParser(parsers, section, from + 1)
  }

  /** A captured group stored as its text. */
  function AsString(text: string): PropValue {
    Str(text)
  }

  /** A matching parser: `CopyMatchGroupsToProperties`, then its removals. */
  function ApplyParser(p: SectionParser, captures: map<string, string>, bag: map<string, PropValue>): map<string, PropValue> {
    WithCaptures(bag, p.groupNames, captures, AsString) - set x | x in p.removed
  }

  /** What a section line does to the properties: the first matching parser applies; with none, nothing changes. */
  function SectionEffect(syn: Syntax, section: string, bag: map<string, PropValue>): map<string, PropValue> {
    var parsers := SectionParsers(syn);
    match FirstParser(parsers, section, 0)
    case None => bag
    case Some(j) => ApplyParser(parsers[j], parsers[j].regex(section).value, bag)
  }

  /** The parsers tried in order until one matches (`foreach … if (parser(section, properties)) break`). */
  method ApplySection(syn: Syntax, section: string, properties: map<string, PropValue>)
    returns (updated: map<string, PropValue>)
    ensures updated == SectionEffect(syn, section, properties)
  {
    var parsers := SectionParsers(syn);
    var j := 0;
    while j < |parsers|
      invariant j <= |parsers|
      invariant FirstParser(parsers, section, 0) == FirstParser(parsers, section, j)
    {
      var m := parsers[j].regex(section);
      if m.Some? {
        assert FirstParser(parsers, section, j) == Some(j);
        updated := StoreGroups(properties, parsers[j].groupNames, m.value, AsString);
        updated := updated - set x | x in parsers[j].removed;
        return;
      }
      j := j + 1;
    }
    updated := properties;
  }

  /** A matching parser stores each of its groups, unless it also removes it, as text. */
  lemma ApplyParserStores(p: SectionParser, captures: map<string, string>, bag: map<string, PropValue>, n: string)
    requires n in p.groupNames && n !in p.removed
    ensures var r := ApplyParser(p, captures, bag);
      n in r && r[n] == Str(Group(captures, n))
  {
    WithCapturesMeaning(bag, p.groupNames, captures, AsString);
  }

  /** A matching parser keeps every property it neither writes nor removes, and drops those it removes. */
  lemma ApplyParserKeeps(p: SectionParser, captures: map<string, string>, bag: map<string, PropValue>, n: string)
    ensures var r := ApplyParser(p, captures, bag);
      (n in p.removed ==> n !in r) &&
      (n in bag && n !in p.groupNames && n !in p.removed ==> n in r && r[n] == bag[n])
  {
    WithCapturesMeaning(bag, p.groupNames, captures, AsString);
  }

  /** The parser at `j` is applied when it is the first whose expression matches. */
  lemma SectionByParser(syn: Syntax, section: string, bag: map<string, PropValue>, j: nat)
    requires j < |SectionParsers(syn)| && SectionParsers(syn)[j].regex(section).Some?
    requires forall i :: 0 <= i < j ==> SectionParsers(syn)[i].regex(section).None?
    ensures var p := SectionParsers(syn)[j];
      SectionEffect(syn, section, bag) == ApplyParser(p, p.regex(section).value, bag)
  {
    FirstParserIs(SectionParsers(syn), section, 0, j);
  }

  /** The first parser at `from` or later that matches is the one found. */
  lemma {:induction false} FirstParserIs(parsers: seq<SectionParser>, section: string, from: nat, j: nat)
    requires from <= j < |parsers| && parsers[j].regex(section).Some?
    requires forall i :: from <= i < j ==> parsers[i].regex(section).None?
    ensures FirstParser(parsers, section, from) == Some(j)
    decreases j - from
  {
    if from < j {
      FirstParserIs(parsers, section, from + 1, j);
    }
  }

  /** A section no parser recognises leaves the properties alone. */
  lemma SectionUnrecognised(syn: Syntax, section: string, bag: map<string, PropValue>)
    requires forall i :: 0 <= i < 5 ==> SectionParsers(syn)[i].regex(section).None?
    ensures SectionEffect(syn, section, bag) == bag
  {
  }

  /** A step section starts a new step: status, step and step name set; machine and package forgotten. */
  lemma StepSectionForgets(syn: Syntax, section: string, bag: map<string, PropValue>)
    requires syn.overall(section).None? && syn.step(section).Some?
    ensures var r := SectionEffect(syn, section, bag);
      var c := syn.step(section).value;
      "Machine" !in r && "PackageName" !in r && "PackageVersion" !in r &&
      "Status" in r && r["Status"] == Str(Group(c, "Status")) &&
      "Step" in r && r["Step"] == Str(Group(c, "Step")) &&
      "StepName" in r && r["StepName"] == Str(Group(c, "StepName")) &&
      forall n :: n in bag && n !in ["Status", "Step", "StepName", "Machine", "PackageName", "PackageVersion"] ==>
        n in r && r[n] == bag[n]
  {
    var p := SectionParsers(syn)[1];
    var c := syn.step(section).value;
    SectionByParser(syn, section, bag, 1);
    ApplyParserStores(p, c, bag, "Status");
    ApplyParserStores(p, c, bag, "Step");
    ApplyParserStores(p, c, bag, "StepName");
    ApplyParserKeeps(p, c, bag, "Machine");
    ApplyParserKeeps(p, c, bag, "PackageName");
    ApplyParserKeeps(p, c, bag, "PackageVersion");
    forall n | n in bag && n !in ["Status", "Step", "StepName", "Machine", "PackageName", "PackageVersion"]
      ensures n in SectionEffect(syn, section, bag) && SectionEffect(syn, section, bag)[n] == bag[n]
    {
      ApplyParserKeeps(p, c, bag, n);
    }
  }

  /** Acquiring packages leaves the steps: status set; step, step name and machine forgotten. */
  lemma AcquireSectionForgets(syn: Syntax, section: string, bag: map<string, PropValue>)
    requires syn.overall(section).None? && syn.step(section).None? && syn.acquirePackages(section).Some?
    ensures var r := SectionEffect(syn, section, bag);
      var c := syn.acquirePackages(section).value;
      "StepName" !in r && "Step" !in r && "Machine" !in r &&
      "Status" in r && r["Status"] == Str(Group(c, "Status")) &&
      forall n :: n in bag && n !in ["Status", "StepName", "Step", "Machine"] ==> n in r && r[n] == bag[n]
  {
    var p := SectionParsers(syn)[2];
    var c := syn.acquirePackages(section).value;
    SectionByParser(syn, section, bag, 2);
    ApplyParserStores(p, c, bag, "Status");
    ApplyParserKeeps(p, c, bag, "StepName");
    ApplyParserKeeps(p, c, bag, "Step");
    ApplyParserKeeps(p, c, bag, "Machine");
    forall n | n in bag && n !in ["Status", "StepName", "Step", "Machine"]
      ensures n in SectionEffect(syn, section, bag) && SectionEffect(syn, section, bag)[n] == bag[n]
    {
      ApplyParserKeeps(p, c, bag, n);
    }
  }

  /** No section parser is named after, or removes, the "Task ID" property. */
  lemma ParsersAvoidTaskId(syn: Syntax, j: nat)
    requires j < |SectionParsers(syn)|
    ensures "Task ID" !in SectionParsers(syn)[j].groupNames && "Task ID" !in SectionParsers(syn)[j].removed
  {
    var p := SectionParsers(syn)[j];
    forall n | n in p.groupNames || n in p.removed
      ensures n != "Task ID"
    {
      assert |n| != 7 || n[0] != 'T';
    }
  }

  /** No section parser writes or removes the "Task ID" property. */
  lemma SectionKeepsTaskId(syn: Syntax, section: string, bag: map<string, PropValue>)
    requires "Task ID" in bag
    ensures "Task ID" in SectionEffect(syn, section, bag)
    ensures SectionEffect(syn, section, bag)["Task ID"] == bag["Task ID"]
  {
    var parsers := SectionParsers(syn);
    var r := FirstParser(parsers, section, 0);
    if r.Some? {
      var p := parsers[r.value];
      SectionByParser(syn, section, bag, r.value);
      ApplyParserKeeps(p, p.regex(section).value, bag, "Task ID");
      ParsersAvoidTaskId(syn, r.value);
    }
  }

  // ---------------------------------------------------------------- detail lines

  /** `ParseLevel`: "Info" is spelled out; every other level is kept. */
  function ParseLevel(value: string): (r: string)
    ensures r != "Info"
    ensures value != "Info" ==> r == value
  {
    if value == "Info" then "Information" else value
  }

  /**
   * `ParseTime`: the parsed time of day placed on the day `started` falls
   * on, or on the next day when `started` is later in its day.
   */
  function ParseTime(syn: Syntax, value: string, started: nat): (r: Result<nat>)
    ensures r.Failure? <==> syn.parseTimeSpan(value).Failure?
  {
    match syn.parseTimeSpan(value)
    case Failure(e) => Failure(e)
    case Success(time) =>
      var timeOfDay := started % TicksPerDay;
      var date := started - timeOfDay;
      Success(if timeOfDay > time then date + TicksPerDay + time else date + time)
  }

  /**
   * For a time within a day, the timestamp is the first instant at or after
   * `started` with that time of day, so it falls on the next day exactly
   * when `started` is later in its day.
   */
  lemma ParseTimeRollsOver(syn: Syntax, value: string, started: nat)
    requires syn.parseTimeSpan(value).Success? && syn.parseTimeSpan(value).value < TicksPerDay
    ensures var t := ParseTime(syn, value, started).value;
      var time := syn.parseTimeSpan(value).value;
      t % TicksPerDay == time && started <= t < started + TicksPerDay &&
      (t / TicksPerDay == started / TicksPerDay + 1 <==> started % TicksPerDay > time) &&
      (t / TicksPerDay == started / TicksPerDay <==> started % TicksPerDay <= time)
  {
    var time := syn.parseTimeSpan(value).value;
    var date := started / TicksPerDay;
    assert started == date * TicksPerDay + started % TicksPerDay;
    var t := ParseTime(syn, value, started).value;
    if started % TicksPerDay > time {
      assert t == (date + 1) * TicksPerDay + time;
    } else {
      assert t == date * TicksPerDay + time;
    }
  }

  /**
   * A detail line: the event with the current properties (a copy, so later
   * sections do not change it), or the exception of a line that is not of
   * the detail form or whose time does not parse.
   */
  function DetailEvent(syn: Syntax, started: nat, bag: map<string, PropValue>, line: string): (r: Result<Event>)
    ensures syn.messageRegex(line).None? ==> r == Failure(UnexpectedLine(line))
  {
    match syn.messageRegex(line)
    case None => Failure(UnexpectedLine(line))
    case Some(c) =>
      match ParseTime(syn, Group(c, "Time"), started)
      case Failure(e) => Failure(e)
      case Success(t) => Success(Event(At(t), ParseLevel(Group(c, "Level")), Group(c, "Message"), bag, None))
  }

  /** A matching detail line gives its level, message and properties; it throws only when its time does not parse. */
  lemma DetailEventMeaning(syn: Syntax, started: nat, bag: map<string, PropValue>, line: string)
    requires syn.messageRegex(line).Some?
    ensures var c := syn.messageRegex(line).value;
      var r := DetailEvent(syn, started, bag, line);
      (r.Failure? <==> syn.parseTimeSpan(Group(c, "Time")).Failure?) &&
      (r.Failure? ==> r.error == syn.parseTimeSpan(Group(c, "Time")).error) &&
      (r.Success? ==>
        r.value.properties == bag && r.value.level == ParseLevel(Group(c, "Level")) &&
        r.value.messageTemplate == Group(c, "Message") && r.value.exception == None &&
        r.value.timestamp == At(ParseTime(syn, Group(c, "Time"), started).value))
  {
  }

  /** A detail line without a time throws, since `TimeSpan.Parse("")` does. */
  lemma DetailWithoutTime(syn: Syntax, started: nat, bag: map<string, PropValue>, line: string)
    requires syn.parseTimeSpan("").Failure?
    requires syn.messageRegex(line).Some? && Group(syn.messageRegex(line).value, "Time") == ""
    ensures DetailEvent(syn, started, bag, line) == Failure(syn.parseTimeSpan("").error)
  {
  }

  // ---------------------------------------------------------------- the body

  /** The properties after these body lines: "Task ID" first, then each section line's effect in turn. */
  function BagAfter(syn: Syntax, id: PropValue, lines: seq<string>): map<string, PropValue>
    decreases |lines|
  {
    if lines == [] then map["Task ID" := id]
    else
      var n := |lines| - 1;
      var bag := BagAfter(syn, id, lines[..n]);
      if IsSection(lines[n]) then SectionEffect(syn, SectionText(lines[n]), bag) else bag
  }

  /** The outcome of each detail line of the body, in order, each with the properties in force before it. */
  function Results(syn: Syntax, h: Header, body: seq<string>): seq<Result<Event>> {
    MapPositions(body, IsDetail, (before, line) => DetailEvent(syn, h.started, BagAfter(syn, h.id, before), line))
  }

  /** What enumerating the body produces: detail events until the first line that throws. */
  function Outcome(syn: Syntax, h: Header, body: seq<string>): Stream
    decreases |body|
  {
    if body == [] then Stream([], None)
    else
      var n := |body| - 1;
      var before := Outcome(syn, h, body[..n]);
      if before.failure.Some? || !IsDetail(body[n]) then before
      else
        match DetailEvent(syn, h.started, BagAfter(syn, h.id, body[..n]), body[n])
        case Success(e) => Stream(before.events + [e], None)
        case Failure(m) => Stream(before.events, Some(m))
  }

  /** The events `Read` yields before the body: "queued" when the header has that time, then "started". */
  function Opening(h: Header): seq<Event> {
    (if h.queued.Some? then [Event(At(h.queued.value), "Information", "Task {TaskID} queued", h.properties, None)] else []) +
    [Event(At(h.started), "Information", "Task {TaskID} started", h.properties, None)]
  }

  /** What enumerating `Read` produces: the header's exception, or the opening events followed by the body's outcome. */
  function Expected(syn: Syntax, lines: seq<string>): Stream {
    match HeaderFrom(syn, lines, 0, NewHeader)
    case Failure(e) => Stream([], Some(e))
    case Success((h, n)) =>
      var o := Outcome(syn, h, lines[n..]);
      Stream(Opening(h) + o.events, o.failure)
  }

  /** One more body line, while nothing has thrown: a detail line yields its event or its exception; a section line nothing. */
  lemma OutcomeStep(syn: Syntax, h: Header, body: seq<string>, i: nat)
    requires i < |body| && Outcome(syn, h, body[..i]).failure.None?
    ensures !IsDetail(body[i]) ==> Outcome(syn, h, body[..i + 1]) == Outcome(syn, h, body[..i])
    ensures IsDetail(body[i]) ==>
      Outcome(syn, h, body[..i + 1]) ==
        (match DetailEvent(syn, h.started, BagAfter(syn, h.id, body[..i]), body[i])
         case Success(e) => Stream(Outcome(syn, h, body[..i]).events + [e], None)
         case Failure(m) => Stream(Outcome(syn, h, body[..i]).events, Some(m)))
  {
    assert body[..i + 1][..i] == body[..i];
  }

  /** One more body line: a section line applies its effect to the properties; a detail line leaves them. */
  lemma BagStep(syn: Syntax, id: PropValue, body: seq<string>, i: nat)
    requires i < |body|
    ensures BagAfter(syn, id, body[..i + 1]) ==
      if IsSection(body[i]) then SectionEffect(syn, SectionText(body[i]), BagAfter(syn, id, body[..i]))
      else BagAfter(syn, id, body[..i])
  {
    assert body[..i + 1][..i] == body[..i];
  }

  /** Once a line has thrown, later lines change nothing: the enumeration has ended. */
  lemma {:induction false} OutcomeAfterFailure(syn: Syntax, h: Header, body: seq<string>, i: nat)
    requires i <= |body|
    requires Outcome(syn, h, body[..i]).failure.Some?
    ensures Outcome(syn, h, body) == Outcome(syn, h, body[..i])
    decreases |body| - i
  {
    if i < |body| {
      assert body[..i + 1][..i] == body[..i];
      OutcomeAfterFailure(syn, h, body, i + 1);
    } else {
      assert body[..i] == body;
    }
  }

  /**
   * `Read`: the header, the opening events, then the body line by line: a
   * section line updates the properties, a detail line yields an event with
   * a copy of them; an exception ends the enumeration.
   */
  method Read(syn: Syntax, lines: seq<string>) returns (stream: Stream)
    ensures stream == Expected(syn, lines)
  {
    var r := GetHeader(syn, lines);
    if r.Failure? {
      return Stream([], Some(r.error));
    }
    var header := r.value.0;
    var body := lines[r.value.1..];
    var events: seq<Event> := [];
    if header.queued.Some? {
      events := events + [Event(At(header.queued.value), "Information", "Task {TaskID} queued", header.properties, None)];
    }
    events := events + [Event(At(header.started), "Information", "Task {TaskID} started", header.properties, None)];
    assert events == Opening(header);
    var properties := map["Task ID" := header.id];
    var i := 0;
    while i < |body|
      invariant i <= |body|
      invariant properties == BagAfter(syn, header.id, body[..i])
      invariant Outcome(syn, header, body[..i]).failure == None
      invariant events == Opening(header) + Outcome(syn, header, body[..i]).events
    {
      var line := body[i];
      OutcomeStep(syn, header, body, i);
      BagStep(syn, header.id, body, i);
      if StartsWith(line, HeaderStart) {
        var section := Trim(line[|HeaderStart|..]);
        properties := ApplySection(syn, section, properties);
      } else {
        var m := syn.messageRegex(line);
        if m.None? {
          OutcomeAfterFailure(syn, header, body, i + 1);
          return Stream(events, Some(UnexpectedLine(line)));
        }
        var level := ParseLevel(Group(m.value, "Level"));
        var timestamp := ParseTime(syn, Group(m.value, "Time"), header.started);
        if timestamp.Failure? {
          OutcomeAfterFailure(syn, header, body, i + 1);
          return Stream(events, Some(timestamp.error));
        }
        events := events + [Event(At(timestamp.value), level, Group(m.value, "Message"), properties, None)];
      }
      i := i + 1;
    }
    assert body[..i] == body;
    stream := Stream(events, None);
  }

  // ---------------------------------------------------------------- properties of the whole log

  /**
   * The body's outcome against the per-line results: the events are the
   * results up to the first failure, the failure (if any) is the first
   * failing result, and there is none exactly when every detail line succeeds.
   */
  lemma {:induction false} OutcomeMeaning(syn: Syntax, h: Header, body: seq<string>)
    ensures var rs := Results(syn, h, body);
      var o := Outcome(syn, h, body);
      |o.events| <= |rs| &&
      (forall k :: 0 <= k < |o.events| ==> rs[k] == Success(o.events[k])) &&
      (o.failure.None? <==> |o.events| == |rs|) &&
      (o.failure.Some? ==> rs[|o.events|] == Failure(o.failure.value))
    decreases |body|
  {
    if body != [] {
      var n := |body| - 1;
      OutcomeMeaning(syn, h, body[..n]);
      assert body[..n + 1] == body;
      MapPositionsSnoc(body, n, IsDetail, (before, line) => DetailEvent(syn, h.started, BagAfter(syn, h.id, before), line));
    }
  }

  /** Section lines yield nothing: with no failure, the body gives exactly one event per detail line. */
  lemma OneEventPerDetailLine(syn: Syntax, h: Header, body: seq<string>)
    requires forall k :: 0 <= k < |Results(syn, h, body)| ==> Results(syn, h, body)[k].Success?
    ensures Outcome(syn, h, body).failure == None
    ensures |Outcome(syn, h, body).events| == |Positions(body, IsDetail)|
  {
    OutcomeMeaning(syn, h, body);
  }

  /** The properties always carry the task id, which no section changes. */
  lemma {:induction false} BagKeepsTaskId(syn: Syntax, id: PropValue, lines: seq<string>)
    ensures "Task ID" in BagAfter(syn, id, lines) && BagAfter(syn, id, lines)["Task ID"] == id
    decreases |lines|
  {
    if lines != [] {
      var n := |lines| - 1;
      BagKeepsTaskId(syn, id, lines[..n]);
      if IsSection(lines[n]) {
        SectionKeepsTaskId(syn, SectionText(lines[n]), BagAfter(syn, id, lines[..n]));
      }
    }
  }

  /**
   * The events of a log whose header was read: the "queued" event first
   * exactly when the header has a queued time, then the "started" event,
   * then the body's detail events, each carrying the header's task id.
   */
  lemma ExpectedEvents(syn: Syntax, lines: seq<string>)
    requires HeaderFrom(syn, lines, 0, NewHeader).Success?
    ensures var (h, n) := HeaderFrom(syn, lines, 0, NewHeader).value;
      var es := Expected(syn, lines).events;
      var q := if h.queued.Some? then 1 else 0;
      |es| >= q + 1 &&
      (h.queued.Some? ==> es[0].messageTemplate == "Task {TaskID} queued" && es[0].timestamp == At(h.queued.value)) &&
      es[q].messageTemplate == "Task {TaskID} started" && es[q].timestamp == At(h.started) &&
      es[q].properties == h.properties &&
      forall k :: q + 1 <= k < |es| ==> "Task ID" in es[k].properties && es[k].properties["Task ID"] == h.id
  {
    var (h, n) := HeaderFrom(syn, lines, 0, NewHeader).value;
    var body := lines[n..];
    var o := Outcome(syn, h, body);
    var q := if h.queued.Some? then 1 else 0;
    OutcomeMeaning(syn, h, body);
    var rs := Results(syn, h, body);
    var ps := Positions(body, IsDetail);
    forall k | 0 <= k < |o.events|
      ensures "Task ID" in o.events[k].properties && o.events[k].properties["Task ID"] == h.id
    {
      assert rs[k] == DetailEvent(syn, h.started, BagAfter(syn, h.id, body[..ps[k]]), body[ps[k]]);
      BagKeepsTaskId(syn, h.id, body[..ps[k]]);
    }
    assert Expected(syn, lines).events == Opening(h) + o.events;
  }

  /** When the header is read and no detail line throws, the log is read to the end: the opening events and one event per detail line. */
  lemma ReadToTheEnd(syn: Syntax, lines: seq<string>)
    requires HeaderFrom(syn, lines, 0, NewHeader).Success?
    requires var (h, n) := HeaderFrom(syn, lines, 0, NewHeader).value;
      forall k :: 0 <= k < |Results(syn, h, lines[n..])| ==> Results(syn, h, lines[n..])[k].Success?
    ensures var (h, n) := HeaderFrom(syn, lines, 0, NewHeader).value;
      Expected(syn, lines) == Stream(Opening(h) + Outcome(syn, h, lines[n..]).events, None) &&
      |Expected(syn, lines).events| == |Opening(h)| + |Positions(lines[n..], IsDetail)|
  {
    var (h, n) := HeaderFrom(syn, lines, 0, NewHeader).value;
    OneEventPerDetailLine(syn, h, lines[n..]);
  }
}

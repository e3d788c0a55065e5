# SeqFlatFileImport, modelled in Dafny

SeqFlatFileImport reads log files that Octopus Deploy and IIS write and
ships their entries to a Seq server. The model covers:

- the importer, which picks a file format by file name or by the first ten
  lines, or by the name the user gives;
- every file format's parser: IIS, the Octopus web log, the Octopus server
  log, the Octopus task log, and the two JSON task-log formats, in both
  generations of the code where the repository keeps two;
- the endpoint, which stamps every event with a batch id, sends full
  batches of 1000, and at `Flush` sends the rest and reports the outcome of
  every batch;
- the small `Option` helpers the importer uses.

Parsers are lazy enumerations in the source. Here a parser's run is a
`Stream`: the events yielded, in order, and the message of the exception
that ended the enumeration, if one did. Each format that loops over its
lines is a method whose loop is proved against a reference function of the
whole input (`Expected`, `Outcome`, `ReadFrom`). Lemmas then state what the
reference means: one event per data line, the names in force, where the
enumeration stops, and what each property holds.

State that the source mutates is a class:

- `Endpoint.SeqEndpoint` holds the open buffer and the list of sends;
- `RawTask.OctopusRawTask` holds the correlation cache;
- `Importer.Importer` holds the progress messages.

Each of their methods states the new state as a step of a specification
function (`WriteStep`, `FlushStep`, `Correlate`, `ReadFrom`). The
endpoint's invariant `Valid` ties the sent batches and the buffer to
everything written.

The modules are:

| module | files |
|---|---|
| `Options`, `Text`, `Events`, `Lines`, `MultiLine`, `FieldMapping`, `Mining` | helpers: `Option`, the .NET string functions the parsers use, the event record, positions and entries of a log, the `#Fields` mapping, template mining |
| `Iis`, `LegacyIis` | `source/Lib/FileFormats/Iis.cs`, `Lib/FileFormats/Iis.cs` |
| `WebLog`, `LegacyWebLog` | `source/SeqFlatFileImport.Core/FileFormats/OctopusWebLog.cs`, `Lib/FileFormats/OctopusWebLog.cs` |
| `ServerLog`, `LegacyServerLog` | `source/Lib/FileFormats/OctopusServer.cs`, `Lib/FileFormats/OctopusServer.cs` |
| `TaskLog` | `source/SeqFlatFileImport.Core/FileFormats/OctopusTask.cs` |
| `JsonTask`, `LegacyTask`, `RawTask` | `Lib/FileFormats/OctopusTask.cs`, `source/Lib/FileFormats/OctopusRawTask.cs` |
| `Endpoint` | `source/Lib/SeqEndpoint.cs` |
| `Importer` | `source/SeqFlatFileImport.Core/Importer.cs` |

Regular expressions are not re-implemented. Each is a parameter of type
`string -> Option<map<string, string>>`: `None` when the match fails, and
otherwise the value of each group that took part. The one exception is the
task-id prefix `^\w+-\d+`, which is modelled concretely.

Writing 2500 events and then flushing sends two batches of 1000 and then one
of 500 (`Endpoint.TwentyFiveHundred`).

## Model

| member | source | states |
|---|---|---|
| Options.Value | source/SeqFlatFileImport.Core/Option.cs:21-29 | a value exactly when the option has one; otherwise the "doesn't have a value" error |
| Options.FirstOrNone | source/SeqFlatFileImport.Core/Option.cs:37-50 | none exactly when no element passes the test; otherwise an element that passes, with no earlier element passing |
| Text.JoinSplit | source/Lib/FileFormats/Iis.cs:43 | joining the pieces of `Split` with the separator gives back the line |
| Text.SplitJoin | source/Lib/FileFormats/Iis.cs:43 | splitting a join of separator-free pieces gives back the pieces |
| Text.TrimMeaning | source/Lib/FileFormats/Iis.cs:77 | `Trim` keeps a middle part with only white space cut on either side, and no white space at its ends |
| Text.TrimEmptyIffBlank | source/SeqFlatFileImport.Core/FileFormats/OctopusTask.cs:168 | a trimmed line is empty exactly when the line is blank |
| Text.RemoveChar | source/SeqFlatFileImport.Core/FileFormats/OctopusTask.cs:177 | no space is left in the stored key, it is no longer than the key, and a key without spaces is kept |
| Text.RemoveCharContents | source/SeqFlatFileImport.Core/FileFormats/OctopusTask.cs:177 | every character other than the space is kept as often as it occurs, and the space not at all |
| Text.RemoveCharAppend | source/SeqFlatFileImport.Core/FileFormats/OctopusTask.cs:177 | removing from a concatenation removes from each part, so the kept characters stay in order |
| Text.ReplaceChar | source/Lib/FileFormats/Iis.cs:37 | same length; every '-' becomes '_' and every other character stays |
| Text.NatToStringValue | source/Lib/FileFormats/Iis.cs:46 | the digits of `x.ToString()` read back as `x` |
| Text.NatToStringInjective | source/Lib/FileFormats/Iis.cs:46 | different indexes give different keys |
| Text.ParseInt32OfNatToString | source/Lib/FileFormats/OctopusServer.cs:197-198 | `int.TryParse` gives back every non-negative 32-bit number written in decimal |
| Text.ParseInt32 | source/Lib/FileFormats/OctopusServer.cs:197 | a parsed value always lies in the 32-bit range; the lemmas below give the value |
| Text.ParseInt32Digits | source/Lib/FileFormats/OctopusServer.cs:197-198 | a string of digits, zero-padded or not, parses to its decimal value when that fits in 32 bits, and fails otherwise |
| Text.ParseInt32Negative | source/Lib/FileFormats/OctopusServer.cs:197-198 | a '-' before the digits negates their value, down to -2^31, and fails below |
| Text.ParseInt32Plus | source/Lib/FileFormats/OctopusServer.cs:197-198 | a '+' before the digits changes nothing |
| Text.ParseInt32Padded | source/Lib/FileFormats/OctopusServer.cs:197-198 | white space around the number does not change what it parses to |
| Text.ParseInt32RejectsNonDigit | source/Lib/FileFormats/OctopusServer.cs:197-201 | a character other than a digit after the first position makes the parse fail |
| Lines.TakeUntil | source/Lib/FileFormats/OctopusServer.cs:166 | `TakeWhile`: the longest prefix with no exception-marker line, stopped by a marker line when shorter |
| Lines.Except | source/Lib/FileFormats/OctopusServer.cs:178 | `Except`: exactly the lines not among the message lines, each once, in the order of their first occurrence |
| MultiLine.ScanEntries | source/Lib/FileFormats/OctopusServer.cs:114-153 | reading lines one at a time and closing the open entry at the end gives one entry per header line, in order |
| MultiLine.EntryHeader | source/Lib/FileFormats/OctopusServer.cs:125-139 | entry `k` starts at the `k`th header line, numbered from 1 |
| MultiLine.NoHeaderNoEntries | source/Lib/FileFormats/OctopusServer.cs:148-152 | without a header line there is no entry |
| FieldMapping.FieldNames | source/Lib/FileFormats/Iis.cs:37 | one name per token after `#Fields`, each spelled by the generation's naming |
| FieldMapping.FieldNamesVerbatim | Lib/FileFormats/Iis.cs:36 | the tokens after `#Fields`, unchanged |
| FieldMapping.FieldNamesUnderscored | source/Lib/FileFormats/Iis.cs:37 | the tokens after `#Fields` with every '-' turned into '_', so no name holds a '-' |
| FieldMapping.NoDirectiveMeansNoNames | source/Lib/FileFormats/Iis.cs:28 | before any `#Fields` line there are no column names |
| FieldMapping.FieldPropertiesKeys | source/Lib/FileFormats/Iis.cs:44-46 | one key per field: its column name, or its index past the names |
| FieldMapping.FieldPropertiesLastWrite | source/Lib/FileFormats/Iis.cs:45-46 | each key holds the field written to it last |
| FieldMapping.IndexKeyedFields | source/Lib/FileFormats/Iis.cs:46 | with no names, field `x` is stored under `x.ToString()` |
| FieldMapping.MapFields | source/Lib/FileFormats/Iis.cs:45-46 | the index loop builds the dictionary of the fields |
| Iis.AutodetectFromContents | source/Lib/FileFormats/Iis.cs:19-24 | true exactly when there is a first line and it starts with the IIS banner |
| Iis.GetTemplate | source/Lib/FileFormats/Iis.cs:60-78 | the appended pieces, trimmed; its meaning is stated by GetTemplateEmptyIff, GetTemplateByPresence and SubstatusNeedsStatus |
| Iis.GetTemplateEmptyIff | source/Lib/FileFormats/Iis.cs:60-78 | the template is empty exactly when none of the method, time, status, stem and query columns is present; it is trimmed |
| Iis.TemplateTextEmptyIff | source/Lib/FileFormats/Iis.cs:62-77 | the appended pieces trim to nothing exactly when none was appended |
| Iis.NoNamesNoTemplate | source/Lib/FileFormats/Iis.cs:28-29 | the template of no columns is the empty template `Read` starts with |
| Iis.GetTemplateByPresence | source/Lib/FileFormats/Iis.cs:60-78 | the template depends only on which of the six columns are present |
| Iis.SubstatusNeedsStatus | source/Lib/FileFormats/Iis.cs:67-72 | without a status column the substatus column changes nothing |
| Iis.GetTimestamp | source/Lib/FileFormats/Iis.cs:80-87 | now exactly when there is no date column; otherwise the parse of "date time", or of the date alone |
| Iis.ReadSoFarExpected | source/Lib/FileFormats/Iis.cs:26-58 | the events of the line loop are one per data line, under the names of the latest directive before it |
| Iis.Read | source/Lib/FileFormats/Iis.cs:26-58 | the events are those of the reference, one per data line |
| Iis.ReadLine | source/Lib/FileFormats/Iis.cs:33-56 | a `#Fields` line replaces the names and the template; a data line yields its event; other lines do nothing |
| Iis.ReadDataLine | source/Lib/FileFormats/Iis.cs:43-55 | a data line's event: Information, the template in force, its fields as properties |
| Iis.EventFromDataLine | source/Lib/FileFormats/Iis.cs:41-55 | event `k` is the `k`th data line's, with the template of the latest directive before that line |
| Iis.TemplateBeforeDirective | source/Lib/FileFormats/Iis.cs:28-53 | before any `#Fields` line the template is empty |
| LegacyIis.Read | Lib/FileFormats/Iis.cs:25-57 | one Information event per data line, with the column names as written |
| LegacyIis.NamesVerbatim | Lib/FileFormats/Iis.cs:36 | the names are the tokens after the first, hyphens kept |
| LegacyIis.GetTemplateEmptyIff | Lib/FileFormats/Iis.cs:59-77 | the hyphenated template is empty exactly when none of its five leading columns is present |
| WebLog.AutodetectFromContents | source/SeqFlatFileImport.Core/FileFormats/OctopusWebLog.cs:18-21 | true exactly when there is a first line and it starts with "#Software: Octopus Deploy" |
| WebLog.Template | source/SeqFlatFileImport.Core/FileFormats/OctopusWebLog.cs:48 | the fixed template, one per generation (Lib/FileFormats/OctopusWebLog.cs:50 for the hyphenated one); ResultTemplate states that every event carries it |
| WebLog.GetTimestamp | source/SeqFlatFileImport.Core/FileFormats/OctopusWebLog.cs:56-59 | the parse of "date time" exactly when both columns exist; otherwise the missing-key exception, "date" looked up first |
| WebLog.OutcomeMeaning | source/SeqFlatFileImport.Core/FileFormats/OctopusWebLog.cs:23-53 | the events are the data lines' results up to the first failure, which ends the enumeration with its message |
| WebLog.ResultTemplate | source/SeqFlatFileImport.Core/FileFormats/OctopusWebLog.cs:44-50 | every event is Information, with the fixed template |
| WebLog.AllSucceed | source/SeqFlatFileImport.Core/FileFormats/OctopusWebLog.cs:27-52 | with no failing line, there is one event per data line and no exception |
| WebLog.OutcomeAfterFailure | source/SeqFlatFileImport.Core/FileFormats/OctopusWebLog.cs:56-59 | once a line has thrown, later lines change nothing |
| WebLog.Read | source/SeqFlatFileImport.Core/FileFormats/OctopusWebLog.cs:23-53 | the loop's outcome is the reference outcome |
| LegacyWebLog.Read | Lib/FileFormats/OctopusWebLog.cs:25-55 | the reference outcome with names as written, and every event has the hyphenated template |
| Mining.Store | source/Lib/FileFormats/OctopusServer.cs:196-202 | a capture is stored as an int when `int.TryParse` takes it, else as a float when the float parse does, else as text; the older generation stores text |
| Mining.FirstMatchingRule | source/Lib/FileFormats/OctopusServer.cs:189-192 | the first table entry whose expression matches, or none when none does |
| Mining.WithCapturesMeaning | source/Lib/FileFormats/OctopusServer.cs:194-203 | every group of the match is stored under its name; every other property is kept |
| Mining.StoreGroups | source/Lib/FileFormats/OctopusServer.cs:194-203 | the group loop stores the captures in order |
| Mining.MagicUpTheMessageTemplate | source/Lib/FileFormats/OctopusServer.cs:187-210 | the template and properties are those of the first matching entry, or the message and the properties unchanged |
| Mining.FirstMatchIs | source/Lib/FileFormats/OctopusServer.cs:189-192 | an entry that matches with no earlier one matching is the one found |
| Mining.FirstMatchNone | source/Lib/FileFormats/OctopusServer.cs:209 | with no entry matching, none is found |
| Mining.MineFirstMatchWins | source/Lib/FileFormats/OctopusServer.cs:191-205 | the first match's template is returned and its groups stored, the other properties kept |
| Mining.MineNoMatch | source/Lib/FileFormats/OctopusServer.cs:209 | with no match the template is the message and the properties are untouched |
| Mining.MineKeeps | source/Lib/FileFormats/OctopusServer.cs:194-203 | mining only adds properties; a property no group is named after keeps its value |
| ServerLog.AutodetectFromContents | source/Lib/FileFormats/OctopusServer.cs:109-112 | content detection is always false |
| ServerLog.SourceTableAvoidsBase | source/Lib/FileFormats/OctopusServer.cs:27-103 | no group of the template table is named LineNumber, PID or Thread |
| ServerLog.ConvertLevel | source/Lib/FileFormats/OctopusServer.cs:212-223 | FATAL, ERROR, WARN, DEBUG and TRACE map to their levels; anything else is Information |
| ServerLog.MessageLines | source/Lib/FileFormats/OctopusServer.cs:165-166 | the header's message, then the longest run of buffered lines with no exception marker, stopped by a marker line when shorter than the buffer |
| ServerLog.ProcessLogMessage | source/Lib/FileFormats/OctopusServer.cs:155-185 | the header's timestamp and level; template and properties mined from the message lines joined by the newline, starting from LineNumber, PID and Thread, which are kept when no group overwrites them |
| ServerLog.ProcessLogMessageFirstMatch | source/Lib/FileFormats/OctopusServer.cs:165-169 | the first template entry matching the message text gives the template, and its groups are stored under their names beside LineNumber, PID and Thread |
| ServerLog.ProcessLogMessageNoMatch | source/Lib/FileFormats/OctopusServer.cs:158-169 | with no matching entry the template is the message text itself, and LineNumber, PID and Thread are the only properties |
| ServerLog.ProcessLogMessageException | source/Lib/FileFormats/OctopusServer.cs:178-182 | no exception exactly when every buffered line is a message line; otherwise the other lines joined by newlines |
| ServerLog.MinedKeepsBase | source/Lib/FileFormats/OctopusServer.cs:158-168 | mining keeps LineNumber, PID and Thread, and their values when no group has their names |
| ServerLog.NoMarkerNoException | source/Lib/FileFormats/OctopusServer.cs:165-182 | with no exception-marker line, all buffered lines join the message and there is no exception |
| ServerLog.HeaderMatch | source/Lib/FileFormats/OctopusServer.cs:126-128 | a header exactly when one of the two grammars matches; the one without PID is tried first |
| ServerLog.EventsOfClose | source/Lib/FileFormats/OctopusServer.cs:131-135 | closing an entry appends its processed event |
| ServerLog.ExpectedAt | source/Lib/FileFormats/OctopusServer.cs:123-152 | event `k` is the processed entry of the `k`th header line, with the lines up to the next header |
| ServerLog.EventLineNumbers | source/Lib/FileFormats/OctopusServer.cs:125-139 | one event per header line, each with its header's 1-based line number and timestamp |
| ServerLog.NoHeaderNoEvents | source/Lib/FileFormats/OctopusServer.cs:147-152 | without a header line nothing is emitted |
| ServerLog.LeadingLinesJoinFirstEntry | source/Lib/FileFormats/OctopusServer.cs:141-144 | lines before the first header are buffered into the first entry, ahead of its own lines |
| ServerLog.Read | source/Lib/FileFormats/OctopusServer.cs:114-153 | the loop's events are the reference events |
| LegacyServerLog.AutodetectFromContents | Lib/FileFormats/OctopusServer.cs:73-76 | content detection is always false |
| LegacyServerLog.SourceTableAvoidsBase | Lib/FileFormats/OctopusServer.cs:16-67 | no group of the template table is named LineNumber or Thread |
| LegacyServerLog.ConvertLevel | Lib/FileFormats/OctopusServer.cs:152-167 | FATAL, ERROR, WARN and DEBUG map to their levels; anything else, TRACE included, is Information |
| LegacyServerLog.CreateEventFromMatch | Lib/FileFormats/OctopusServer.cs:117-134 | the header's timestamp and level, no exception; template and properties mined from group 4 with the captures stored as text, starting from LineNumber and Thread, which are kept when no group overwrites them |
| LegacyServerLog.CreateEventFirstMatch | Lib/FileFormats/OctopusServer.cs:119-125 | the first template entry matching group 4 gives the template, and its groups are stored as text beside LineNumber and Thread |
| LegacyServerLog.CreateEventNoMatch | Lib/FileFormats/OctopusServer.cs:119-125 | with no matching entry the template is group 4 itself, and LineNumber and Thread are the only properties |
| LegacyServerLog.UnexpectedLine | Lib/FileFormats/OctopusServer.cs:169-181 | a warning stamped now, with the fixed template and only LineNumber and Line |
| LegacyServerLog.FoldMeaning | Lib/FileFormats/OctopusServer.cs:96-107 | adding the continuation lines one by one gives the extended event, and the flag says whether a marker was seen |
| LegacyServerLog.ExtendAfterMarker | Lib/FileFormats/OctopusServer.cs:98-102 | after a marker line, every line goes onto the exception |
| LegacyServerLog.ExtendAtMarker | Lib/FileFormats/OctopusServer.cs:98-102 | the first marker line starts the exception |
| LegacyServerLog.ExtendMessage | Lib/FileFormats/OctopusServer.cs:103-106 | before any marker, a line joins the message after a newline |
| LegacyServerLog.ExceptionFromFirstMarker | Lib/FileFormats/OctopusServer.cs:96-107 | the lines before the first marker join the message and the rest are concatenated into the exception |
| LegacyServerLog.NoMarkerNoException | Lib/FileFormats/OctopusServer.cs:103-106 | with no marker line, every line joins the message and the exception is untouched |
| LegacyServerLog.UnexpectedAt | Lib/FileFormats/OctopusServer.cs:108-111 | a line before the first header yields an "Unexpected line" warning with its line number |
| LegacyServerLog.ExpectedCount | Lib/FileFormats/OctopusServer.cs:84-114 | one warning per leading line plus one event per header line |
| LegacyServerLog.ExpectedLeading | Lib/FileFormats/OctopusServer.cs:108-111 | event `i` of the leading lines is the warning for line `i + 1` |
| LegacyServerLog.ExpectedEntry | Lib/FileFormats/OctopusServer.cs:87-107 | after the warnings, event `k` comes from the `k`th header line: the event created on that line with the entry's continuation lines added one by one |
| LegacyServerLog.RunExpected | Lib/FileFormats/OctopusServer.cs:78-115 | running the loop and yielding the open event at the end gives the reference events |
| LegacyServerLog.Read | Lib/FileFormats/OctopusServer.cs:78-115 | the loop's events are the reference events |
| LegacyServerLog.ExpectedEvent | Lib/FileFormats/OctopusServer.cs:87-107 | the `k`th header line's event is the one it creates on its own line number, with its continuation lines split at the first exception marker into message and exception |
| LegacyServerLog.HeaderEvent | Lib/FileFormats/OctopusServer.cs:117-134 | a header line's event has its line number, thread, timestamp and level, no exception, and the template and properties mined from its group 4 |
| TaskLog.AutodetectFromContents | source/SeqFlatFileImport.Core/FileFormats/OctopusTask.cs:15-20 | true exactly when there is a first line and it starts with "Task ID:" |
| TaskLog.AddHeaderLineMeaning | source/SeqFlatFileImport.Core/FileFormats/OctopusTask.cs:175-190 | a header line is stored under its key without spaces; only its own key sets the queued time, the start or the id; the id fails exactly for a value shorter than its prefix |
| TaskLog.GetHeader | source/SeqFlatFileImport.Core/FileFormats/OctopusTask.cs:162-194 | the header loop's result is the reference header |
| TaskLog.HeaderFromStep | source/SeqFlatFileImport.Core/FileFormats/OctopusTask.cs:166-177 | a non-blank line within the header matches and is taken in |
| TaskLog.HeaderExtent | source/SeqFlatFileImport.Core/FileFormats/OctopusTask.cs:166-193 | the header ends at the first blank line, or at the end of the input |
| TaskLog.HeaderRejects | source/SeqFlatFileImport.Core/FileFormats/OctopusTask.cs:171-173 | a non-blank line not of the `Key: value` form within the header makes it throw |
| TaskLog.HeaderQueued | source/SeqFlatFileImport.Core/FileFormats/OctopusTask.cs:181-183 | there is a queued time exactly when a "Task queued" line is in the header |
| TaskLog.HeaderStartedDefault | source/SeqFlatFileImport.Core/FileFormats/OctopusTask.cs:184-186 | without a "Task started" line the start keeps its default |
| TaskLog.HeaderIdDefault | source/SeqFlatFileImport.Core/FileFormats/OctopusTask.cs:187-189 | without a "Task ID" line the id stays null |
| TaskLog.HeaderKeepsProperty | source/SeqFlatFileImport.Core/FileFormats/OctopusTask.cs:177 | a property no later header line writes keeps its value |
| TaskLog.HeaderStores | source/SeqFlatFileImport.Core/FileFormats/OctopusTask.cs:175-177 | each header line's value is stored under its key without spaces, unless a later line overwrites it |
| TaskLog.TaskIdOfHeaderLine | source/SeqFlatFileImport.Core/FileFormats/OctopusTask.cs:188 | the id is the value with its first twelve characters cut, whatever they are; a value with the expected prefix is that prefix followed by the id |
| TaskLog.FirstParser | source/SeqFlatFileImport.Core/FileFormats/OctopusTask.cs:55-57 | the first section parser whose expression matches, or none |
| TaskLog.ApplySection | source/SeqFlatFileImport.Core/FileFormats/OctopusTask.cs:54-57 | the parsers are tried in order until one matches |
| TaskLog.ApplyParserStores | source/SeqFlatFileImport.Core/FileFormats/OctopusTask.cs:138-142 | a matching parser stores each of its groups as text |
| TaskLog.ApplyParserKeeps | source/SeqFlatFileImport.Core/FileFormats/OctopusTask.cs:95-107 | a matching parser drops what it removes and keeps what it neither writes nor removes |
| TaskLog.SectionByParser | source/SeqFlatFileImport.Core/FileFormats/OctopusTask.cs:55-57 | the first matching parser is the one applied |
| TaskLog.FirstParserIs | source/SeqFlatFileImport.Core/FileFormats/OctopusTask.cs:55-57 | a parser that matches with no earlier one matching is the one found |
| TaskLog.SectionUnrecognised | source/SeqFlatFileImport.Core/FileFormats/OctopusTask.cs:55-57 | a section no parser recognises leaves the properties alone |
| TaskLog.StepSectionForgets | source/SeqFlatFileImport.Core/FileFormats/OctopusTask.cs:95-107 | a step section sets status, step and step name, and forgets machine and package |
| TaskLog.AcquireSectionForgets | source/SeqFlatFileImport.Core/FileFormats/OctopusTask.cs:108-120 | acquiring packages sets the status and forgets step, step name and machine |
| TaskLog.ParsersAvoidTaskId | source/SeqFlatFileImport.Core/FileFormats/OctopusTask.cs:77-136 | no section parser writes or removes "Task ID" |
| TaskLog.SectionKeepsTaskId | source/SeqFlatFileImport.Core/FileFormats/OctopusTask.cs:54-57 | a section line never changes the task id |
| TaskLog.ParseLevel | source/SeqFlatFileImport.Core/FileFormats/OctopusTask.cs:144-153 | "Info" becomes "Information"; every other level is kept |
| TaskLog.ParseTime | source/SeqFlatFileImport.Core/FileFormats/OctopusTask.cs:155-160 | throws exactly when the time does not parse |
| TaskLog.ParseTimeRollsOver | source/SeqFlatFileImport.Core/FileFormats/OctopusTask.cs:157-159 | the time of day is kept, the instant is within a day after the start, and it rolls to the next day exactly when the time is earlier than the start's |
| TaskLog.DetailEvent | source/SeqFlatFileImport.Core/FileFormats/OctopusTask.cs:61-63 | a line the message expression rejects throws "Unexpected line" |
| TaskLog.DetailEventMeaning | source/SeqFlatFileImport.Core/FileFormats/OctopusTask.cs:65-71 | a matching line gives its level, message and the properties in force; it throws exactly when its time does not parse |
| TaskLog.DetailWithoutTime | source/SeqFlatFileImport.Core/FileFormats/OctopusTask.cs:68 | a detail line without a time throws |
| TaskLog.OutcomeStep | source/SeqFlatFileImport.Core/FileFormats/OctopusTask.cs:50-73 | one more body line: a detail line yields its event or its exception; a section line nothing |
| TaskLog.BagStep | source/SeqFlatFileImport.Core/FileFormats/OctopusTask.cs:52-58 | a section line applies its effect to the properties; a detail line leaves them |
| TaskLog.OutcomeAfterFailure | source/SeqFlatFileImport.Core/FileFormats/OctopusTask.cs:62-63 | once a line has thrown, later lines change nothing |
| TaskLog.Read | source/SeqFlatFileImport.Core/FileFormats/OctopusTask.cs:26-75 | the enumeration is the reference: the header's exception, or the opening events and then the body's events |
| TaskLog.OutcomeMeaning | source/SeqFlatFileImport.Core/FileFormats/OctopusTask.cs:50-73 | the events are the detail lines' results up to the first failure, which ends the enumeration |
| TaskLog.OneEventPerDetailLine | source/SeqFlatFileImport.Core/FileFormats/OctopusTask.cs:50-73 | with no failing line, one event per detail line |
| TaskLog.BagKeepsTaskId | source/SeqFlatFileImport.Core/FileFormats/OctopusTask.cs:45-48 | the properties always carry the header's task id |
| TaskLog.ExpectedEvents | source/SeqFlatFileImport.Core/FileFormats/OctopusTask.cs:28-48 | "queued" first when the header has that time, then "started" with the header properties, then detail events carrying the task id |
| TaskLog.ReadToTheEnd | source/SeqFlatFileImport.Core/FileFormats/OctopusTask.cs:26-75 | with the header read and no failing line, the opening events and one event per detail line |
| JsonTask.ParseLevelTable | Lib/FileFormats/OctopusTask.cs:48-65 | the five level codes map to their levels; exactly the other texts are kept |
| JsonTask.ParseLevel | Lib/FileFormats/OctopusTask.cs:48-65 | a text that is not one of the five level codes is kept; ParseLevelTable gives the codes' levels |
| JsonTask.UnexpectedLine | Lib/FileFormats/OctopusTask.cs:31 | the message starts with "Unexpected line: " and ends with the line |
| JsonTask.RunLength | Lib/FileFormats/OctopusTask.cs:67 | the longest run of matching characters at the front |
| JsonTask.TaskIdShape | Lib/FileFormats/OctopusTask.cs:67 | a task id found is a prefix: a word, a dash and a number, with no digit after it |
| JsonTask.TaskIdFound | Lib/FileFormats/OctopusTask.cs:67 | whenever the id starts with a word, a dash and a digit, a task id is found |
| JsonTask.Fields | Lib/FileFormats/OctopusTask.cs:28-46 | the reader's exception for text that is not JSON; "Unexpected line" for JSON that is not an array; the out-of-range exception for fewer than four elements; the time's exception; otherwise the elements and the instant |
| LegacyTask.AutodetectFromContents | Lib/FileFormats/OctopusTask.cs:15-21 | true exactly when there is a first line and it starts with `["ServerTask` |
| LegacyTask.ParseProperties | Lib/FileFormats/OctopusTask.cs:69-76 | a fresh dictionary holding only the task id |
| LegacyTask.Read | Lib/FileFormats/OctopusTask.cs:23-41 | at most one event per line, and one per line exactly when no line throws; ReadMeaning states which events |
| LegacyTask.ReadMeaning | Lib/FileFormats/OctopusTask.cs:23-41 | one event per line, each its own line's, until the first line that throws, whose exception ends the enumeration |
| LegacyTask.LineEventMeaning | Lib/FileFormats/OctopusTask.cs:36-46 | a line's event has the level of element 1, the message of element 3, the time of element 2 and only the task id |
| LegacyTask.NotAnArray | Lib/FileFormats/OctopusTask.cs:28-31 | a JSON line that is not an array ends the enumeration with "Unexpected line" |
| RawTask.AutodetectFromContents | source/Lib/FileFormats/OctopusRawTask.cs:16-22 | true exactly when there is a first line and it starts with `["ServerTask` |
| RawTask.PropertyNamesDistinct | source/Lib/FileFormats/OctopusRawTask.cs:74-86 | different token positions get different "Property i" names, none of them "Task ID" |
| RawTask.CorrelationStep | source/Lib/FileFormats/OctopusRawTask.cs:76-85 | one more token: its cached message, or the current message, which is then cached |
| RawTask.CorrelationCache | source/Lib/FileFormats/OctopusRawTask.cs:74-86 | the cache knows exactly the old tokens and the new ones; a new one holds the current message |
| RawTask.CorrelationKeys | source/Lib/FileFormats/OctopusRawTask.cs:69-86 | the keys are "Task ID" and one property per later token |
| RawTask.CorrelationValues | source/Lib/FileFormats/OctopusRawTask.cs:74-86 | each token's property is its cached message, or the current message for a new token |
| RawTask.CorrelateCache | source/Lib/FileFormats/OctopusRawTask.cs:65-89 | after a correlation id, the cache knows every token after the first |
| RawTask.CorrelateProperties | source/Lib/FileFormats/OctopusRawTask.cs:65-89 | the properties: the task id of the first token, then one per later token |
| RawTask.LineStepEvent | source/Lib/FileFormats/OctopusRawTask.cs:36-39 | a line's event has its time, level, message and correlation properties |
| RawTask.ReadFromStep | source/Lib/FileFormats/OctopusRawTask.cs:26-41 | a line that reads yields its event and the enumeration goes on with the grown cache |
| RawTask.ReadLength | source/Lib/FileFormats/OctopusRawTask.cs:24-42 | one event per line until the first line that throws, whose exception ends the enumeration |
| RawTask.ReadEvents | source/Lib/FileFormats/OctopusRawTask.cs:24-42 | event `k` is line `k`'s |
| RawTask.ReadGrows | source/Lib/FileFormats/OctopusRawTask.cs:63 | reading never forgets or changes a cached message |
| RawTask.ReadConsistent | source/Lib/FileFormats/OctopusRawTask.cs:77-85 | each token's property holds the message the cache ends up with for that token |
| RawTask.ReadFirstMention | source/Lib/FileFormats/OctopusRawTask.cs:81-85 | a token learnt while reading holds the message of the first line that mentioned it |
| RawTask.OctopusRawTask.constructor | source/Lib/FileFormats/OctopusRawTask.cs:63 | the cache starts empty |
| RawTask.OctopusRawTask.ParseProperties | source/Lib/FileFormats/OctopusRawTask.cs:65-89 | the token loop gives the correlation's properties and cache |
| RawTask.OctopusRawTask.Read | source/Lib/FileFormats/OctopusRawTask.cs:24-42 | the line loop gives the reference stream and cache |
| Endpoint.OutcomeOf | source/Lib/SeqEndpoint.cs:58-66 | success exactly on a success status; otherwise the status and reason, or the exception's message |
| Endpoint.Stamped | source/Lib/SeqEndpoint.cs:39 | `evt.Properties["BatchId"] = _batchId`; its contract is StampedMeaning: BatchId set or overwritten, nothing else changed |
| Endpoint.StampedMeaning | source/Lib/SeqEndpoint.cs:39 | stamping sets BatchId, overwriting any earlier value, and changes nothing else |
| Endpoint.StampAll | source/Lib/SeqEndpoint.cs:39 | every event written, stamped, in order |
| Endpoint.WriteAllBatched | source/Lib/SeqEndpoint.cs:40-46 | writing never fills the buffer and sends only full batches |
| Endpoint.WriteAllKeeps | source/Lib/SeqEndpoint.cs:40-46 | writing loses, reorders or repeats nothing |
| Endpoint.WriteAllCount | source/Lib/SeqEndpoint.cs:41-46 | one batch sent per 1000 events the buffer reaches; the rest stays in the buffer |
| Endpoint.FlushMeaning | source/Lib/SeqEndpoint.cs:76-80 | the buffer is sent as one more batch exactly when it holds an event, and left empty |
| Endpoint.WriteThenFlush | source/Lib/SeqEndpoint.cs:37-83 | everything written and then flushed is sent, in order |
| Endpoint.WriteThenFlushSizes | source/Lib/SeqEndpoint.cs:37-83 | batches of 1000 but the last, which is never empty |
| Endpoint.WriteThenFlushCount | source/Lib/SeqEndpoint.cs:37-83 | the number of batches is the count divided by 1000, rounded up |
| Endpoint.TwentyFiveHundred | source/Lib/SeqEndpoint.cs:41-80 | 2500 events make two batches before the flush and a third of 500 at it |
| Endpoint.SeqEndpoint.constructor | source/Lib/SeqEndpoint.cs:30-35 | the batch id given, or the time of creation; nothing written or sent |
| Endpoint.SeqEndpoint.Write | source/Lib/SeqEndpoint.cs:37-47 | one write step of the stamped event, keeping the invariant |
| Endpoint.SeqEndpoint.SendBatch | source/Lib/SeqEndpoint.cs:43-45 | the buffer becomes the next batch, with the outcome of its send |
| Endpoint.SeqEndpoint.Flush | source/Lib/SeqEndpoint.cs:74-83 | one flush step; the outcome of every batch sent, in order |
| Importer.FirstInOrder | source/SeqFlatFileImport.Core/Importer.cs:48 | a format that passes the test |
| Importer.FirstInOrderMeaning | source/SeqFlatFileImport.Core/Importer.cs:48-51 | none exactly when no format passes; otherwise the first that passes in stable ordinal order |
| Importer.FirstFewLines | source/SeqFlatFileImport.Core/Importer.cs:53-55 | at most ten lines, a prefix of the file, and the whole file when it is that short |
| Importer.AutoDetectFormat | source/SeqFlatFileImport.Core/Importer.cs:46-62 | a chosen format is one of the formats and matches the file name or recognises the first lines; otherwise "Could not autodetect file type" |
| Importer.AutoDetectByName | source/SeqFlatFileImport.Core/Importer.cs:48-51 | when a file name pattern matches, the first such format in ordinal order is chosen |
| Importer.AutoDetectByContents | source/SeqFlatFileImport.Core/Importer.cs:53-61 | with no name match, the first format in ordinal order that recognises the first lines, or "Could not autodetect file type" |
| Importer.AutoDetectSeesTenLines | source/SeqFlatFileImport.Core/Importer.cs:53-55 | nothing after the tenth line changes the choice |
| Importer.FindFormatByName | source/SeqFlatFileImport.Core/Importer.cs:64-68 | a format found is one of the formats with that name, ignoring case; otherwise the error naming it |
| Importer.FindFormatByNameMeaning | source/SeqFlatFileImport.Core/Importer.cs:64-68 | the first format in list order with that name, ignoring case, or the not-found error naming it |
| Importer.ProgressMeaning | source/SeqFlatFileImport.Core/Importer.cs:77-79 | one "Line n" report per full 1000 events, at each multiple of 1000 |
| Importer.Importer.constructor | source/SeqFlatFileImport.Core/Importer.cs:30-35 | the formats given, or the default formats |
| Importer.Importer.WriteEvents | source/SeqFlatFileImport.Core/Importer.cs:74-80 | every event written once, in order, with a report every 1000 |
| Importer.Importer.ImportStream | source/SeqFlatFileImport.Core/Importer.cs:70-83 | all events written and reported; a flush after a full read, and no flush when the format throws |
| Importer.Importer.Import | source/SeqFlatFileImport.Core/Importer.cs:37-44 | the named or detected format is imported: every event it reads is written and the open buffer is flushed after a full read, or left unflushed when the format throws; a format not found is reported and nothing is written or sent |

## Left out

- Regular expressions are parameters, not an engine. The properties hold for every matcher. Which lines a given expression accepts is not modelled; `^\w+-\d+` is the exception.
- JsonTask.TaskIdOf: `\w` and `\d` cover ASCII letters, digits and `_` only, not the other Unicode letters and digits .NET accepts.
- Date and time parsing: `DateTime.Parse`, `DateTimeOffset.Parse` and `TimeSpan.Parse` are parameters or the `Parsed(text)` timestamp. Time zones and offsets are not modelled; the task log's instants are ticks.
- Mining.Store: `float.TryParse` is a parameter. Culture-dependent number formats are not modelled.
- JSON decoding: `JsonConvert.DeserializeObject` is a parameter that gives the elements of an array, null, or the reader's error.
- Text.EqualsIgnoreCase: compares case-insensitively over ASCII letters only, not by the current culture's rules.
- Text.StartsWith: compares character by character. The library's `StartsWith(string)` compares by the current culture, which for example skips ignorable characters; every prefix the formats test is plain ASCII.
- Options.FirstOrNone: a null source or test, for which the source throws `ArgumentNullException`, cannot be expressed; sequences and functions here are never null.
- TaskLog.ParseTime: instants are unbounded ticks. The overflow `DateTime` raises when the roll to the next day passes its last representable day is not modelled.
- Library exception texts are approximated by their usual English messages: the out-of-range index, the missing key, `Substring` past the end, and `Value` on an empty option.
- Endpoint: HTTP, JSON serialisation, the URI, the API key, the five-request semaphore and asynchrony are not modelled. A batch's outcome is decided when it is sent.
- Endpoint.SeqEndpoint.Flush: returns every batch's outcome in order; `Result.From` is not part of this model, so it does not say how they are combined into one result.
- Importer: the file system and `Path.GetFileName` are left out. The file's lines and name are inputs, and the formats' `Read` dispatch is a parameter.
- Importer.Importer.constructor: finding the default formats by reflection is left out; they are given.
- Importer.Importer.ImportStream: an exception from a format's `Read` is returned as `ReadThrew` rather than propagated, and the endpoint is left as it was after the last write.
- The task log's `Read` enumerates its lines twice, once for the header and once for the body. The model reads them once, in the order a single-pass reader gives: the body is the lines after the header.
- The console programs, command-line options, build script and tests are not part of this model.

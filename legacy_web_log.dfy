/**
 * The older generation's web log format (Lib/FileFormats/OctopusWebLog.cs):
 * the same loop as the newer one, with column names kept verbatim and the
 * fixed template spelled with hyphens.
 */
module LegacyWebLog {
  import opened Events
  import opened FieldMapping
  import WebLog

  /** `Read`: events until the first data line without a "date" or "time" column, columns named verbatim. */
  method Read(lines: seq<string>) returns (stream: Stream)
    ensures stream == WebLog.Outcome(Verbatim, lines)
    ensures forall k :: 0 <= k < |stream.events| ==>
      stream.events[k].messageTemplate == "{cs-method} {time-taken} {sc-status} {cs-uri-stem} {cs-username} {c-ip}"
  {
    stream := WebLog.Read(Verbatim, lines);
    WebLog.OutcomeMeaning(Verbatim, lines);
    forall k | 0 <= k < |stream.events|
      ensures stream.events[k].messageTemplate == WebLog.Template(Verbatim)
    {
      WebLog.ResultTemplate(Verbatim, lines, k);
    }
  }
}

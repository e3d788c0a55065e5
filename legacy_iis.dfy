/**
 * The older generation's IIS format (Lib/FileFormats/Iis.cs): the same line
 * loop as the newer one, with the column names kept as written, hyphens and
 * all, and a template spelled with hyphenated placeholders.
 */
module LegacyIis {
  import opened Text
  import opened Events
  import opened Lines
  import opened FieldMapping
  import Iis

  /** `Read`: one Information event per data line, columns named verbatim. */
  method Read(lines: seq<string>) returns (events: seq<Event>)
    ensures events == Iis.Expected(Verbatim, lines)
    ensures |events| == |Positions(lines, IsDataLine)|
  {
    events := Iis.Read(Verbatim, lines);
  }

  /** A `#Fields` directive's names are the space-separated tokens after the first, unchanged. */
  lemma NamesVerbatim(line: string)
    ensures FieldNames(Verbatim, line) == Split(line, ' ')[1..]
  {
  }

  /** The hyphenated template is empty exactly when none of its five leading columns is present. */
  lemma GetTemplateEmptyIff(names: seq<string>)
    ensures Iis.GetTemplate(Verbatim, names) == "" <==>
      "cs-method" !in names && "time-taken" !in names && "sc-status" !in names &&
      "cs-uri-stem" !in names && "cs-uri-query" !in names
  {
    Iis.GetTemplateEmptyIff(Verbatim, names);
  }
}

/**
 * The field-to-property mapping shared by the IIS and web-log formats of
 * both generations: a `#Fields` directive names the columns, and each data
 * line's fields become string properties keyed by column name or index.
 */
module FieldMapping {
  import opened Options
  import opened Text
  import opened Events

  /** How a generation names its columns: the older keeps the names as written, the newer turns '-' into '_'. */
  datatype Naming = Verbatim | Underscored

  /** The column names a `#Fields` directive sets under a naming. */
  function FieldNames(naming: Naming, line: string): (names: seq<string>)
    ensures |names| == |Split(line, ' ')| - 1
    ensures forall i :: 0 <= i < |names| ==> names[i] == ColumnName(naming, Split(line, ' ')[i + 1])
  {
    match naming
    case Verbatim => FieldNamesVerbatim(line)
    case Underscored => FieldNamesUnderscored(line)
  }

  /** A column name as written in a directive, as the naming stores it. */
  function ColumnName(naming: Naming, written: string): string {
    match naming
    case Verbatim => written
    case Underscored => ReplaceChar(written, '-', '_')
  }

  /** `line.Split(' ').Skip(1)`: the names after the directive itself, kept verbatim. */
  function FieldNamesVerbatim(line: string): (names: seq<string>)
    ensures |names| == |Split(line, ' ')| - 1
    ensures forall i :: 0 <= i < |names| ==> names[i] == Split(line, ' ')[i + 1]
  {
    Split(line, ' ')[1..]
  }

  /** `line.Split(' ').Skip(1).Select(s => s.Replace("-", "_"))`. */
  function FieldNamesUnderscored(line: string): (names: seq<string>)
    ensures |names| == |Split(line, ' ')| - 1
    ensures forall i :: 0 <= i < |names| ==> '-' !in names[i]
    ensures forall i :: 0 <= i < |names| ==> names[i] == ReplaceChar(Split(line, ' ')[i + 1], '-', '_')
  {
    var tokens := Split(line, ' ')[1..];
    seq(|tokens|, i requires 0 <= i < |tokens| => ReplaceChar(tokens[i], '-', '_'))
  }

  /** `line.StartsWith("#Fields")` on a line that starts with '#'. */
  predicate IsFieldsDirective(line: string) {
    |line| > 0 && line[0] == '#' && StartsWith(line, "#Fields")
  }

  /** A line that yields an event: non-empty and not a `#` directive. */
  predicate IsDataLine(line: string) {
    |line| > 0 && line[0] != '#'
  }

  /** The column names in force after `lines`: those of the last `#Fields` directive, or none. */
  function NamesAfter(naming: Naming, lines: seq<string>): seq<string>
    decreases |lines|
  {
    if lines == [] then []
    else if IsFieldsDirective(lines[|lines| - 1]) then FieldNames(naming, lines[|lines| - 1])
    else NamesAfter(naming, lines[..|lines| - 1])
  }

  /** With no `#Fields` directive yet there are no names, so every field is keyed by its index. */
  lemma {:induction false} NoDirectiveMeansNoNames(naming: Naming, lines: seq<string>)
    requires forall i :: 0 <= i < |lines| ==> !IsFieldsDirective(lines[i])
    ensures NamesAfter(naming, lines) == []
    decreases |lines|
  {
    if lines != [] {
      NoDirectiveMeansNoNames(naming, lines[..|lines| - 1]);
    }
  }

  /** The key of field `x`: `fieldNames.Length > x ? fieldNames[x] : x.ToString()`. */
  function FieldKey(names: seq<string>, x: nat): string {
    if x < |names| then names[x] else NatToString(x)
  }

  /** The dictionary that assigning the fields in index order builds. */
  function FieldProperties(names: seq<string>, fields: seq<string>): map<string, PropValue>
    decreases |fields|
  {
    if fields == [] then map[]
    else
      var x := |fields| - 1;
      FieldProperties(names, fields[..x])[FieldKey(names, x) := Str(fields[x])]
  }

  /** The keys: one per field position. */
  lemma {:induction false} FieldPropertiesKeys(names: seq<string>, fields: seq<string>)
    ensures FieldProperties(names, fields).Keys == set x | 0 <= x < |fields| :: FieldKey(names, x)
    decreases |fields|
  {
    if fields != [] {
      var n := |fields| - 1;
      FieldPropertiesKeys(names, fields[..n]);
      assert (set x | 0 <= x < |fields| :: FieldKey(names, x)) ==
        (set x | 0 <= x < n :: FieldKey(names, x)) + {FieldKey(names, n)};
    }
  }

  /** The values: at each key, the field last written to it (a later duplicate key overwrites). */
  lemma {:induction false} FieldPropertiesLastWrite(names: seq<string>, fields: seq<string>, x: nat)
    requires x < |fields|
    requires forall y :: x < y < |fields| ==> FieldKey(names, y) != FieldKey(names, x)
    ensures FieldKey(names, x) in FieldProperties(names, fields)
    ensures FieldProperties(names, fields)[FieldKey(names, x)] == Str(fields[x])
    decreases |fields|
  {
    var n := |fields| - 1;
    if x < n {
      assert fields[..n][x] == fields[x];
      FieldPropertiesLastWrite(names, fields[..n], x);
    }
  }

  /** Before any `#Fields` line every field is keyed by its own index, and index keys never collide. */
  lemma IndexKeyedFields(fields: seq<string>, x: nat)
    requires x < |fields|
    ensures NatToString(x) in FieldProperties([], fields)
    ensures FieldProperties([], fields)[NatToString(x)] == Str(fields[x])
  {
    forall y | x < y < |fields| ensures FieldKey([], y) != FieldKey([], x) {
      if NatToString(y) == NatToString(x) {
        NatToStringInjective(y, x);
      }
    }
    FieldPropertiesLastWrite([], fields, x);
  }

  /** The index loop `for (x = 0; x < fields.Length; x++) properties[key(x)] = fields[x]`. */
  method MapFields(names: seq<string>, fields: seq<string>) returns (properties: map<string, PropValue>)
    ensures properties == FieldProperties(names, fields)
  {
    properties := map[];
    var x := 0;
    while x < |fields|
      invariant 0 <= x <= |fields|
      invariant properties == FieldProperties(names, fields[..x])
    {
      assert fields[..x + 1][..x] == fields[..x];
      properties := properties[FieldKey(names, x) := Str(fields[x])];
      x := x + 1;
    }
    assert fields[..x] == fields;
  }
}

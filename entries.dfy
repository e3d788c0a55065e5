/**
 * Multi-line log entries: a header line opens an entry, the lines that follow
 * are buffered into it, and the entry is closed when the next header or
 * the end of the input arrives. Lines before the first header are never
 * cleared from the buffer, so they join the first entry. This is the shape of
 * the newer server log's `Read` loop; what an entry becomes is up to the format.
 */
module MultiLine {
  import opened Lines

  /** A closed entry: the 1-based line number of its header, the header line, and the buffered lines. */
  datatype Entry = Entry(lineNumber: nat, header: string, body: seq<string>)

  /**
   * The buffered lines of the entry opened by the header at `ps[k]` and
   * closed at `end`: the lines after the header and, for the first entry,
   * every line before it as well.
   */
  function EntryBody(lines: seq<string>, ps: seq<nat>, k: nat, end: nat): seq<string>
    requires k < |ps| && ps[k] < end <= |lines|
    requires k == 0 || ps[0] < ps[k]
  {
    (if k == 0 then lines[..ps[0]] else []) + lines[ps[k] + 1..end]
  }

  /** Entry `k`, closed at `end`. */
  function EntryAt(lines: seq<string>, ps: seq<nat>, k: nat, end: nat): Entry
    requires k < |ps| && ps[k] < end <= |lines|
    requires k == 0 || ps[0] < ps[k]
  {
    Entry(ps[k] + 1, lines[ps[k]], EntryBody(lines, ps, k, end))
  }

  /** Every entry of the input, in order: one per header line, each closed by the next header or the end. */
  function Entries(lines: seq<string>, isHeader: string -> bool): (r: seq<Entry>)
    ensures |r| == |Positions(lines, isHeader)|
  {
    var ps := Positions(lines, isHeader);
    seq(|ps|, k requires 0 <= k < |ps| =>
      EntryAt(lines, ps, k, if k + 1 < |ps| then ps[k + 1] else |lines|))
  }

  /** An entry closed by line `j` reads the same in the lines before `j`. */
  lemma EntryAtPrefix(xs: seq<string>, qs: seq<nat>, j: nat, k: nat, end: nat)
    requires j < |xs| && k < |qs| && qs[k] < end <= j
    requires k == 0 || qs[0] < qs[k]
    ensures EntryAt(xs, qs + [j], k, end) == EntryAt(xs[..j], qs, k, end)
  {
    assert xs[..j][qs[k] + 1..end] == xs[qs[k] + 1..end];
    assert xs[..j][..qs[0]] == xs[..qs[0]];
  }

  /** The entry of the last header, `j`, of `xs`. */
  function LastEntry(xs: seq<string>, isHeader: string -> bool, j: nat): Entry
    requires j < |xs|
  {
    Entry(j + 1, xs[j], (if Positions(xs[..j], isHeader) == [] then xs[..j] else []) + xs[j + 1..])
  }

  /** An entry before the last header is the same in `xs` and in the lines before the last header. */
  lemma EntriesExtendBefore(xs: seq<string>, isHeader: string -> bool, j: nat, k: nat)
    requires j < |xs| && Positions(xs, isHeader) == Positions(xs[..j], isHeader) + [j]
    requires k < |Positions(xs[..j], isHeader)|
    ensures Entries(xs, isHeader)[k] == Entries(xs[..j], isHeader)[k]
  {
    var qs := Positions(xs[..j], isHeader);
    var end := if k + 1 < |qs| then qs[k + 1] else j;
    EntryOf(xs, isHeader, k);
    EntryOf(xs[..j], isHeader, k);
    EntryAtPrefix(xs, qs, j, k, end);
  }

  /** The entry of the last header, `j`, closed at the end of the input. */
  lemma EntriesExtendLast(xs: seq<string>, isHeader: string -> bool, j: nat)
    requires j < |xs| && Positions(xs, isHeader) == Positions(xs[..j], isHeader) + [j]
    ensures var ps := Positions(xs, isHeader);
      var m := |Positions(xs[..j], isHeader)|;
      (m == 0 || ps[0] < ps[m]) && EntryAt(xs, ps, m, |xs|) == LastEntry(xs, isHeader, j)
  {
    var qs := Positions(xs[..j], isHeader);
    var ps := qs + [j];
    var m := |qs|;
    assert ps[m] == j && xs[j + 1..|xs|] == xs[j + 1..];
    if qs == [] {
      assert ps[0] == j;
    }
  }

  /**
   * The entries of an input whose last header is at `j` are the entries of
   * the lines before `j`, each closed where it was, and one more: the entry
   * of header `j`, holding everything after it (and, if it is the first
   * header, everything before it too).
   */
  lemma EntriesExtend(xs: seq<string>, isHeader: string -> bool, j: nat)
    requires j < |xs| && Positions(xs, isHeader) == Positions(xs[..j], isHeader) + [j]
    ensures Entries(xs, isHeader) == Entries(xs[..j], isHeader) + [LastEntry(xs, isHeader, j)]
  {
    var all := Entries(xs, isHeader);
    var extended := Entries(xs[..j], isHeader) + [LastEntry(xs, isHeader, j)];
    assert |all| == |extended|;
    forall k | 0 <= k < |all| ensures all[k] == extended[k] {
      if k < |all| - 1 {
        EntriesExtendBefore(xs, isHeader, j, k);
      } else {
        EntryOf(xs, isHeader, k);
        EntriesExtendLast(xs, isHeader, j);
      }
    }
  }

  /**
   * The state of the loop after `i` lines. With no entry open, no header has
   * been seen and every line is in the buffer. With one open, its header is
   * line `start`, the entries of the lines before it have been emitted, and
   * the buffer holds the lines after it (and, if it is the first, the lines
   * before it).
   */
  ghost predicate EntryState(lines: seq<string>, isHeader: string -> bool,
                             i: nat, open: bool, start: nat, buffer: seq<string>, emitted: seq<Entry>)
    requires i <= |lines|
  {
    if !open then
      Positions(lines[..i], isHeader) == [] && buffer == lines[..i] && emitted == []
    else
      1 <= start <= i &&
      Positions(lines[..i], isHeader) == Positions(lines[..start - 1], isHeader) + [start - 1] &&
      emitted == Entries(lines[..start - 1], isHeader) &&
      buffer == (if emitted == [] then lines[..start - 1] else []) + lines[start..i]
  }

  lemma EntryStateInit(lines: seq<string>, isHeader: string -> bool)
    ensures EntryState(lines, isHeader, 0, false, 0, [], [])
  {
    assert lines[..0] == [];
  }

  /** A header line emits the open entry, if any, and opens a new one; the buffer is cleared only after an emit. */
  lemma HeaderStep(lines: seq<string>, isHeader: string -> bool,
                   i: nat, open: bool, start: nat, buffer: seq<string>, emitted: seq<Entry>)
    requires i < |lines| && isHeader(lines[i])
    requires EntryState(lines, isHeader, i, open, start, buffer, emitted)
    ensures open ==> 1 <= start <= i
    ensures open ==>
      EntryState(lines, isHeader, i + 1, true, i + 1, [], emitted + [Entry(start, lines[start - 1], buffer)])
    ensures !open ==> EntryState(lines, isHeader, i + 1, true, i + 1, buffer, emitted)
  {
    PositionsSnoc(lines, i, isHeader);
    assert lines[..i + 1][..i] == lines[..i];
    assert lines[i + 1..i + 1] == [];
    if open {
      var xs := lines[..i];
      var j := start - 1;
      assert xs[..j] == lines[..j];
      assert xs[j + 1..] == lines[start..i];
      EntriesExtend(xs, isHeader, j);
    } else {
      assert |Entries(lines[..i], isHeader)| == 0;
    }
  }

  /** Any other line joins the buffer. */
  lemma OtherStep(lines: seq<string>, isHeader: string -> bool,
                  i: nat, open: bool, start: nat, buffer: seq<string>, emitted: seq<Entry>)
    requires i < |lines| && !isHeader(lines[i])
    requires EntryState(lines, isHeader, i, open, start, buffer, emitted)
    ensures EntryState(lines, isHeader, i + 1, open, start, buffer + [lines[i]], emitted)
  {
    assert Positions(lines[..i + 1], isHeader) == Positions(lines[..i], isHeader) by {
      PositionsSnoc(lines, i, isHeader);
    }
    if open {
      var before := if emitted == [] then lines[..start - 1] else [];
      assert before + lines[start..i] + [lines[i]] == before + lines[start..i + 1] by {
        assert lines[start..i] + [lines[i]] == lines[start..i + 1];
      }
    } else {
      assert lines[..i] + [lines[i]] == lines[..i + 1];
    }
  }

  /** At the end of the input, emitting the open entry, if any, gives every entry. */
  lemma Finish(lines: seq<string>, isHeader: string -> bool,
               open: bool, start: nat, buffer: seq<string>, emitted: seq<Entry>)
    requires EntryState(lines, isHeader, |lines|, open, start, buffer, emitted)
    ensures open ==> 1 <= start <= |lines|
    ensures open ==> Entries(lines, isHeader) == emitted + [Entry(start, lines[start - 1], buffer)]
    ensures !open ==> Entries(lines, isHeader) == emitted
  {
    assert lines[..|lines|] == lines;
    if open {
      EntriesExtend(lines, isHeader, start - 1);
    } else {
      assert |Entries(lines, isHeader)| == 0;
    }
  }

  /**
   * The variables of a loop that reads entries: whether an entry is open, its
   * header's 1-based line number and line, the lines buffered so far, and the
   * entries already closed.
   */
  datatype Scanner = Scanner(open: bool, start: nat, header: string, buffer: seq<string>, emitted: seq<Entry>)

  /** The loop's variables after the given lines, one line at a time. */
  function Scan(lines: seq<string>, isHeader: string -> bool): (s: Scanner)
    ensures s.start <= |lines|
    decreases |lines|
  {
    if lines == [] then Scanner(false, 0, "", [], [])
    else
      var s := Scan(lines[..|lines| - 1], isHeader);
      var line := lines[|lines| - 1];
      if !isHeader(line) then s.(buffer := s.buffer + [line])
      else if !s.open then Scanner(true, |lines|, line, s.buffer, s.emitted)
      else Scanner(true, |lines|, line, [], s.emitted + [Entry(s.start, s.header, s.buffer)])
  }

  /** Once the first line is a header, an entry is open. */
  lemma {:induction false} ScanOpens(lines: seq<string>, isHeader: string -> bool)
    requires lines != [] && isHeader(lines[0])
    ensures Scan(lines, isHeader).open
    decreases |lines|
  {
    var n := |lines| - 1;
    if n == 0 {
      assert lines[..0] == [];
    } else {
      assert lines[..n][0] == lines[0];
      ScanOpens(lines[..n], isHeader);
    }
  }

  /** Once an entry is open, one more line either opens the next entry or joins the open one. */
  lemma ScanSnoc(lines: seq<string>, isHeader: string -> bool, line: string)
    requires lines != [] && isHeader(lines[0])
    ensures var s := Scan(lines, isHeader);
      s.open &&
      Scan(lines + [line], isHeader) ==
        if isHeader(line) then Scanner(true, |lines| + 1, line, [], s.emitted + [Entry(s.start, s.header, s.buffer)])
        else s.(buffer := s.buffer + [line])
  {
    ScanOpens(lines, isHeader);
    assert (lines + [line])[..|lines|] == lines;
  }

  /** The entries once the input ends: the open entry, if any, is closed. */
  function Close(s: Scanner): seq<Entry> {
    if s.open then s.emitted + [Entry(s.start, s.header, s.buffer)] else s.emitted
  }

  /** The loop's variables after `i` lines describe the entries read so far. */
  ghost predicate ScanInv(lines: seq<string>, isHeader: string -> bool, i: nat, s: Scanner)
    requires i <= |lines|
  {
    EntryState(lines, isHeader, i, s.open, s.start, s.buffer, s.emitted) &&
    (s.open ==> 1 <= s.start && s.header == lines[s.start - 1])
  }

  lemma ScanOther(lines: seq<string>, isHeader: string -> bool, i: nat, s: Scanner)
    requires i < |lines| && !isHeader(lines[i]) && ScanInv(lines, isHeader, i, s)
    ensures ScanInv(lines, isHeader, i + 1, s.(buffer := s.buffer + [lines[i]]))
  {
    OtherStep(lines, isHeader, i, s.open, s.start, s.buffer, s.emitted);
  }

  lemma ScanFirstHeader(lines: seq<string>, isHeader: string -> bool, i: nat, s: Scanner)
    requires i < |lines| && isHeader(lines[i]) && !s.open && ScanInv(lines, isHeader, i, s)
    ensures ScanInv(lines, isHeader, i + 1, Scanner(true, i + 1, lines[i], s.buffer, s.emitted))
  {
    HeaderStep(lines, isHeader, i, s.open, s.start, s.buffer, s.emitted);
  }

  lemma ScanNextHeader(lines: seq<string>, isHeader: string -> bool, i: nat, s: Scanner)
    requires i < |lines| && isHeader(lines[i]) && s.open && ScanInv(lines, isHeader, i, s)
    ensures ScanInv(lines, isHeader, i + 1,
                    Scanner(true, i + 1, lines[i], [], s.emitted + [Entry(s.start, s.header, s.buffer)]))
  {
    HeaderStep(lines, isHeader, i, s.open, s.start, s.buffer, s.emitted);
  }

  /** After `i` lines the loop's variables describe the entries read so far. */
  lemma {:induction false} ScanState(lines: seq<string>, isHeader: string -> bool, i: nat)
    requires i <= |lines|
    ensures ScanInv(lines, isHeader, i, Scan(lines[..i], isHeader))
  {
    if i == 0 {
      EntryStateInit(lines, isHeader);
      assert Scan(lines[..0], isHeader) == Scanner(false, 0, "", [], []);
    } else {
      var n := i - 1;
      ScanState(lines, isHeader, n);
      var s := Scan(lines[..n], isHeader);
      assert lines[..i][..n] == lines[..n];
      var line := lines[n];
      if !isHeader(line) {
        ScanOther(lines, isHeader, n, s);
        assert Scan(lines[..i], isHeader) == s.(buffer := s.buffer + [line]);
      } else if !s.open {
        ScanFirstHeader(lines, isHeader, n, s);
        assert Scan(lines[..i], isHeader) == Scanner(true, i, line, s.buffer, s.emitted);
      } else {
        ScanNextHeader(lines, isHeader, n, s);
        assert Scan(lines[..i], isHeader) == Scanner(true, i, line, [], s.emitted + [Entry(s.start, s.header, s.buffer)]);
      }
    }
  }

  /** Reading the lines one at a time and closing the open entry at the end gives every entry. */
  lemma ScanEntries(lines: seq<string>, isHeader: string -> bool)
    ensures Close(Scan(lines, isHeader)) == Entries(lines, isHeader)
  {
    ScanState(lines, isHeader, |lines|);
    assert lines[..|lines|] == lines;
    var s := Scan(lines, isHeader);
    Finish(lines, isHeader, s.open, s.start, s.buffer, s.emitted);
  }

  /** Entry `k` is what its header line, its line number and its body make. */
  lemma EntryOf(lines: seq<string>, isHeader: string -> bool, k: nat)
    requires k < |Positions(lines, isHeader)|
    ensures var ps := Positions(lines, isHeader);
      var end := if k + 1 < |ps| then ps[k + 1] else |lines|;
      isHeader(lines[ps[k]]) && ps[k] < end <= |lines| && (k == 0 || ps[0] < ps[k]) &&
      Entries(lines, isHeader)[k] == EntryAt(lines, ps, k, end)
  {
    var ps := Positions(lines, isHeader);
    var end := if k + 1 < |ps| then ps[k + 1] else |lines|;
    assert Entries(lines, isHeader)[k] == EntryAt(lines, ps, k, end);
  }

  /** Entry `k` starts at the `k`th header line. */
  lemma EntryHeader(lines: seq<string>, isHeader: string -> bool, k: nat)
    requires k < |Positions(lines, isHeader)|
    ensures var ps := Positions(lines, isHeader);
      isHeader(lines[ps[k]]) &&
      Entries(lines, isHeader)[k].lineNumber == ps[k] + 1 && Entries(lines, isHeader)[k].header == lines[ps[k]]
  {
    EntryOf(lines, isHeader, k);
  }

  /** Without a header line there are no entries, whatever the other lines are. */
  lemma NoHeaderNoEntries(lines: seq<string>, isHeader: string -> bool)
    requires forall i :: 0 <= i < |lines| ==> !isHeader(lines[i])
    ensures Entries(lines, isHeader) == []
  {
    PositionsNone(lines, isHeader);
  }
}

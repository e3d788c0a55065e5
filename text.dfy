/**
 * The .NET string operations the formats rely on, written out over
 * `seq<char>`: `StartsWith` (compared ordinally in this model), `Split(char)`, `String.Join`,
 * `Trim`, `Replace`, `Int32.ToString` and `Int32.TryParse`.
 */
module Text {
  import opened Options

  /**
   * `s.StartsWith(prefix)`. The library compares by the current culture;
   * this model compares character by character.
   */
  predicate StartsWith(s: string, prefix: string) {
    |prefix| <= |s| && s[..|prefix|] == prefix
  }

  // ---------------------------------------------------------------- Split / Join

  /**
   * `s.Split(sep)`: the pieces between separators, empty pieces kept, so a
   * string with k separators gives k + 1 pieces.
   */
  function Split(s: string, sep: char): (parts: seq<string>)
    ensures |parts| >= 1
    ensures forall i :: 0 <= i < |parts| ==> sep !in parts[i]
  {
    if s == [] then [""]
    else
      var rest := Split(s[1..], sep);
      if s[0] == sep then [""] + rest
      else [[s[0]] + rest[0]] + rest[1..]
  }

  /** `String.Join(sep, parts)`. */
  function Join(sep: string, parts: seq<string>): string {
    if |parts| == 0 then ""
    else if |parts| == 1 then parts[0]
    else parts[0] + sep + Join(sep, parts[1..])
  }

  /** Joining the pieces of a split with the separator gives back the string. */
  lemma {:induction false} JoinSplit(s: string, sep: char)
    ensures Join([sep], Split(s, sep)) == s
  {
    if s != [] {
      var rest := Split(s[1..], sep);
      JoinSplit(s[1..], sep);
      if s[0] == sep {
        assert Split(s, sep) == [""] + rest;
        assert Join([sep], Split(s, sep)) == "" + [sep] + Join([sep], rest);
      } else {
        var parts := Split(s, sep);
        assert parts == [[s[0]] + rest[0]] + rest[1..];
        if |rest| == 1 {
          assert Join([sep], parts) == [s[0]] + rest[0];
        } else {
          assert rest == [rest[0]] + rest[1..];
          assert Join([sep], rest) == rest[0] + [sep] + Join([sep], rest[1..]);
          assert parts[1..] == rest[1..];
          assert Join([sep], parts) == [s[0]] + rest[0] + [sep] + Join([sep], rest[1..]);
        }
      }
    }
  }

  lemma {:induction false} SplitNoSeparator(s: string, sep: char)
    requires sep !in s
    ensures Split(s, sep) == [s]
  {
    if s != [] {
      SplitNoSeparator(s[1..], sep);
      assert s == [s[0]] + s[1..];
    }
  }

  lemma {:induction false} SplitAtSeparator(x: string, y: string, sep: char)
    requires sep !in x
    ensures Split(x + [sep] + y, sep) == [x] + Split(y, sep)
  {
    if x == [] {
      assert (x + [sep] + y)[1..] == y;
    } else {
      assert (x + [sep] + y)[1..] == x[1..] + [sep] + y;
      SplitAtSeparator(x[1..], y, sep);
      assert (x + [sep] + y)[0] == x[0];
      assert x == [x[0]] + x[1..];
    }
  }

  /** Splitting a join of separator-free pieces gives back the pieces. */
  lemma {:induction false} SplitJoin(parts: seq<string>, sep: char)
    requires |parts| >= 1
    requires forall i :: 0 <= i < |parts| ==> sep !in parts[i]
    ensures Split(Join([sep], parts), sep) == parts
  {
    if |parts| == 1 {
      SplitNoSeparator(parts[0], sep);
    } else {
      SplitJoin(parts[1..], sep);
      SplitAtSeparator(parts[0], Join([sep], parts[1..]), sep);
      assert parts == [parts[0]] + parts[1..];
    }
  }

  // ---------------------------------------------------------------- whitespace and Trim

  /** `Char.IsWhiteSpace`: the Unicode space separators plus U+0009..U+000D, U+0085, U+00A0. */
  predicate IsWhiteSpace(c: char) {
    c == ' ' || ('\t' <= c <= '\r') || c == '\U{0085}' || c == '\U{00A0}' || c == '\U{1680}' ||
    ('\U{2000}' <= c <= '\U{200A}') || c == '\U{2028}' || c == '\U{2029}' || c == '\U{202F}' ||
    c == '\U{205F}' || c == '\U{3000}'
  }

  /** A string made only of white space (possibly empty). */
  predicate IsBlank(s: string) {
    forall i :: 0 <= i < |s| ==> IsWhiteSpace(s[i])
  }

  /** `s.TrimStart()`: white space removed from the front. */
  function TrimStart(s: string): string {
    if s != [] && IsWhiteSpace(s[0]) then TrimStart(s[1..]) else s
  }

  /** `s.TrimEnd()`: white space removed from the back. */
  function TrimEnd(s: string): string {
    if s != [] && IsWhiteSpace(s[|s| - 1]) then TrimEnd(s[..|s| - 1]) else s
  }

  /** `s.Trim()`: white space removed from both ends. */
  function Trim(s: string): string {
    TrimEnd(TrimStart(s))
  }

  /** `TrimStart` drops a blank prefix and stops at the first other character. */
  lemma {:induction false} TrimStartMeaning(s: string)
    ensures var r := TrimStart(s);
      |r| <= |s| && r == s[|s| - |r|..] && IsBlank(s[..|s| - |r|]) && (r != [] ==> !IsWhiteSpace(r[0]))
  {
    if s != [] && IsWhiteSpace(s[0]) {
      TrimStartMeaning(s[1..]);
      var r := TrimStart(s[1..]);
      var n := |s| - |r|;
      assert s[..n] == [s[0]] + s[1..][..n - 1];
      BlankConcat([s[0]], s[1..][..n - 1]);
    }
  }

  /** `TrimEnd` drops a blank suffix and stops at the last other character. */
  lemma {:induction false} TrimEndMeaning(s: string)
    ensures var r := TrimEnd(s);
      |r| <= |s| && r == s[..|r|] && IsBlank(s[|r|..]) && (r != [] ==> !IsWhiteSpace(r[|r| - 1]))
  {
    if s != [] && IsWhiteSpace(s[|s| - 1]) {
      TrimEndMeaning(s[..|s| - 1]);
      var r := TrimEnd(s[..|s| - 1]);
      assert s[|r|..] == s[..|s| - 1][|r|..] + [s[|s| - 1]];
      BlankConcat(s[..|s| - 1][|r|..], [s[|s| - 1]]);
    }
  }

  /** `Trim` keeps a middle part of `s`, with only white space cut on either side, and no white space at its ends. */
  lemma TrimMeaning(s: string)
    ensures exists i, j :: 0 <= i <= j <= |s| && Trim(s) == s[i..j] && IsBlank(s[..i]) && IsBlank(s[j..])
    ensures var r := Trim(s);
      r != [] ==> !IsWhiteSpace(r[0]) && !IsWhiteSpace(r[|r| - 1])
  {
    var t := TrimStart(s);
    TrimStartMeaning(s);
    TrimEndMeaning(t);
    var r := TrimEnd(t);
    var i := |s| - |t|;
    var j := i + |r|;
    assert r == s[i..j];
    assert s[j..] == t[|r|..];
    assert 0 <= i <= j <= |s| && r == s[i..j] && IsBlank(s[..i]) && IsBlank(s[j..]);
  }

  /** `s.Trim().Length == 0` holds exactly for the blank strings. */
  lemma TrimEmptyIffBlank(s: string)
    ensures |Trim(s)| == 0 <==> IsBlank(s)
  {
    TrimMeaning(s);
    var r := Trim(s);
    var i, j :| 0 <= i <= j <= |s| && r == s[i..j] && IsBlank(s[..i]) && IsBlank(s[j..]);
    if |r| == 0 {
      forall k | 0 <= k < |s| ensures IsWhiteSpace(s[k]) {
        if k < i { assert s[..i][k] == s[k]; } else { assert s[j..][k - j] == s[k]; }
      }
    }
  }

  lemma BlankConcat(a: string, b: string)
    ensures IsBlank(a + b) <==> IsBlank(a) && IsBlank(b)
  {
    if IsBlank(a + b) {
      forall i | 0 <= i < |a| ensures IsWhiteSpace(a[i]) {
        assert (a + b)[i] == a[i];
      }
      forall i | 0 <= i < |b| ensures IsWhiteSpace(b[i]) {
        assert (a + b)[|a| + i] == b[i];
      }
    }
  }

  /** A string with a non-white-space character somewhere is not blank. */
  lemma NotBlankAt(s: string, k: nat)
    requires k < |s| && !IsWhiteSpace(s[k])
    ensures !IsBlank(s)
  {
  }

  // ---------------------------------------------------------------- Replace

  /** `s.Replace(from, to)` for single characters. */
  function ReplaceChar(s: string, from: char, to: char): (r: string)
    ensures |r| == |s|
    ensures forall i :: 0 <= i < |s| ==> r[i] == (if s[i] == from then to else s[i])
  {
    seq(|s|, i requires 0 <= i < |s| => if s[i] == from then to else s[i])
  }

  /** `s.Replace(c.ToString(), "")`: every occurrence of `c` removed, the rest kept in order. */
  function RemoveChar(s: string, c: char): (r: string)
    ensures c !in r
    ensures |r| <= |s|
    ensures c !in s ==> r == s
  {
    if s == [] then []
    else if s[0] == c then RemoveChar(s[1..], c)
    else
      var rest := RemoveChar(s[1..], c);
      assert s == [s[0]] + s[1..];
      [s[0]] + rest
  }

  /** Every character other than `c` is kept as often as it occurs, and `c` not at all. */
  lemma {:induction false} RemoveCharContents(s: string, c: char)
    ensures multiset(RemoveChar(s, c)) == multiset(s)[c := 0]
  {
    if s != [] {
      assert s == [s[0]] + s[1..];
      RemoveCharContents(s[1..], c);
    }
  }

  /**
   * Removing a character from a concatenation removes it from each part, so
   * the characters kept stay in their order.
   */
  lemma {:induction false} RemoveCharAppend(a: string, b: string, c: char)
    ensures RemoveChar(a + b, c) == RemoveChar(a, c) + RemoveChar(b, c)
  {
    if a != [] {
      assert (a + b)[0] == a[0];
      assert (a + b)[1..] == a[1..] + b;
      RemoveCharAppend(a[1..], b, c);
    } else {
      assert a + b == b;
    }
  }

  // ---------------------------------------------------------------- decimal numbers

  predicate IsDigit(c: char) {
    '0' <= c <= '9'
  }

  predicate AllDigits(s: string) {
    forall i :: 0 <= i < |s| ==> IsDigit(s[i])
  }

  function DigitValue(c: char): nat
    requires IsDigit(c)
  {
    (c - '0') as nat
  }

  /** The number a string of decimal digits denotes. */
  function DigitsValue(s: string): nat
    requires AllDigits(s)
  {
    if s == [] then 0 else 10 * DigitsValue(s[..|s| - 1]) + DigitValue(s[|s| - 1])
  }

  /** The digit that denotes `d`. */
  function DigitChar(d: nat): (c: char)
    requires d < 10
    ensures IsDigit(c) && DigitValue(c) == d
  {
    ('0' as int + d) as char
  }

  /** `n.ToString()` for a non-negative `n`: decimal digits, no leading zero. */
  function NatToString(n: nat): (s: string)
    ensures |s| >= 1 && AllDigits(s)
    ensures s[0] == '0' ==> n == 0
  {
    if n < 10 then [DigitChar(n)]
    else NatToString(n / 10) + [DigitChar(n % 10)]
  }

  /** Reading back the digits of `NatToString(n)` gives `n`. */
  lemma {:induction false} NatToStringValue(n: nat)
    ensures DigitsValue(NatToString(n)) == n
  {
    var s := NatToString(n);
    if n < 10 {
      assert s[..0] == [];
    } else {
      NatToStringValue(n / 10);
      assert s[..|s| - 1] == NatToString(n / 10);
      assert DigitValue(s[|s| - 1]) == n % 10;
    }
  }

  /** Different numbers are written differently, so index keys never collide. */
  lemma NatToStringInjective(m: nat, n: nat)
    requires NatToString(m) == NatToString(n)
    ensures m == n
  {
    NatToStringValue(m);
    NatToStringValue(n);
  }

  /** `n.ToString()` for any integer. */
  function IntToString(n: int): (s: string)
    ensures |s| >= 1
    ensures n >= 0 ==> s == NatToString(n)
  {
    if n < 0 then "-" + NatToString(-n) else NatToString(n)
  }

  const Int32Min := -0x8000_0000
  const Int32Max := 0x7FFF_FFFF

  /** The white space `NumberStyles.Integer` allows around a number: U+0009..U+000D and U+0020. */
  predicate IsNumberWhite(c: char) {
    c == ' ' || ('\t' <= c <= '\r')
  }

  function StripNumberWhite(s: string): (r: string)
    ensures |r| <= |s|
  {
    if s != [] && IsNumberWhite(s[0]) then StripNumberWhite(s[1..])
    else if s != [] && IsNumberWhite(s[|s| - 1]) then StripNumberWhite(s[..|s| - 1])
    else s
  }

  /**
   * `int.TryParse(s, out v)` with the invariant culture: optional white space,
   * an optional sign, at least one decimal digit, and a value that fits in
   * 32 bits; anything else is `None`.
   */
  function ParseInt32(s: string): (r: Option<int>)
    ensures r.Some? ==> Int32Min <= r.value <= Int32Max
  {
    ParseSigned(StripNumberWhite(s))
  }

  /** What `int.TryParse` makes of the text between the white space: an optional sign, then the digits. */
  function ParseSigned(t: string): (r: Option<int>)
    ensures r.Some? ==> Int32Min <= r.value <= Int32Max
  {
    var negative := |t| > 0 && t[0] == '-';
    var digits := if |t| > 0 && (t[0] == '-' || t[0] == '+') then t[1..] else t;
    if |digits| == 0 || !AllDigits(digits) then None
    else
      var magnitude: int := DigitsValue(digits);
      var v := if negative then -magnitude else magnitude;
      if Int32Min <= v <= Int32Max then Some(v) else None
  }

  /** `int.TryParse(n.ToString())` gives back every `n` that fits in 32 bits. */
  lemma ParseInt32OfNatToString(n: nat)
    requires n <= Int32Max
    ensures ParseInt32(NatToString(n)) == Some(n)
  {
    var s := NatToString(n);
    assert !IsNumberWhite(s[0]) && !IsNumberWhite(s[|s| - 1]);
    assert StripNumberWhite(s) == s;
    NatToStringValue(n);
  }

  /** A non-empty string of decimal digits, zero-padded or not, parses to its value when that fits in 32 bits. */
  lemma ParseInt32Digits(d: string)
    requires |d| >= 1 && AllDigits(d)
    ensures ParseInt32(d) == if DigitsValue(d) <= Int32Max then Some(DigitsValue(d) as int) else None
  {
    StripNumberWhitePadded([], d, []);
    assert [] + d + [] == d;
  }

  /** A '-' followed by digits negates their value, down to -2^31. */
  lemma ParseInt32Negative(t: string)
    requires |t| >= 2 && t[0] == '-' && AllDigits(t[1..])
    ensures ParseInt32(t) == if DigitsValue(t[1..]) <= -Int32Min then Some(-(DigitsValue(t[1..]) as int)) else None
  {
    assert t[|t| - 1] == t[1..][|t| - 2];
    StripNumberWhitePadded([], t, []);
    assert [] + t + [] == t;
  }

  /** A '+' followed by digits parses as the digits alone. */
  lemma ParseInt32Plus(t: string)
    requires |t| >= 2 && t[0] == '+' && AllDigits(t[1..])
    ensures ParseInt32(t) == ParseInt32(t[1..])
  {
    ParseInt32Digits(t[1..]);
    assert t[|t| - 1] == t[1..][|t| - 2];
    StripNumberWhitePadded([], t, []);
    assert [] + t + [] == t;
  }

  /** Cutting white space that `NumberStyles.Integer` allows off both ends gives back the middle. */
  lemma {:induction false} StripNumberWhitePadded(front: string, t: string, back: string)
    requires forall i :: 0 <= i < |front| ==> IsNumberWhite(front[i])
    requires forall i :: 0 <= i < |back| ==> IsNumberWhite(back[i])
    requires |t| >= 1 && !IsNumberWhite(t[0]) && !IsNumberWhite(t[|t| - 1])
    ensures StripNumberWhite(front + t + back) == t
    decreases |front| + |back|
  {
    var s := front + t + back;
    if front != [] {
      assert s[0] == front[0];
      assert s[1..] == front[1..] + t + back;
      StripNumberWhitePadded(front[1..], t, back);
    } else if back != [] {
      assert s[0] == t[0];
      assert s[|s| - 1] == back[|back| - 1];
      assert s[..|s| - 1] == front + t + back[..|back| - 1];
      StripNumberWhitePadded(front, t, back[..|back| - 1]);
    } else {
      assert s == t;
    }
  }

  /** White space around a number does not change what it parses to. */
  lemma ParseInt32Padded(front: string, t: string, back: string)
    requires forall i :: 0 <= i < |front| ==> IsNumberWhite(front[i])
    requires forall i :: 0 <= i < |back| ==> IsNumberWhite(back[i])
    requires |t| >= 1 && !IsNumberWhite(t[0]) && !IsNumberWhite(t[|t| - 1])
    ensures ParseInt32(front + t + back) == ParseInt32(t)
  {
    StripNumberWhitePadded(front, t, back);
    StripNumberWhitePadded([], t, []);
    assert [] + t + [] == t;
  }

  /** Text with a character that is neither a digit, a leading sign nor surrounding white space does not parse. */
  lemma ParseInt32RejectsNonDigit(t: string, k: nat)
    requires |t| >= 1 && !IsNumberWhite(t[0]) && !IsNumberWhite(t[|t| - 1])
    requires 0 < k < |t| && !IsDigit(t[k])
    ensures ParseInt32(t) == None
  {
    StripNumberWhitePadded([], t, []);
    assert [] + t + [] == t;
    var digits := if t[0] == '-' || t[0] == '+' then t[1..] else t;
    assert !IsDigit(digits[k - (|t| - |digits|)]);
  }

  // ---------------------------------------------------------------- case-insensitive comparison

  function ToLowerAscii(c: char): char {
    if 'A' <= c <= 'Z' then (c as int + 32) as char else c
  }

  /** `a.Equals(b, StringComparison.CurrentCultureIgnoreCase)`, for the ASCII letters. */
  predicate EqualsIgnoreCase(a: string, b: string) {
    |a| == |b| && forall i :: 0 <= i < |a| ==> ToLowerAscii(a[i]) == ToLowerAscii(b[i])
  }
}

/**
 * The Octopus task log as JSON lines, newer generation
 * (source/Lib/FileFormats/OctopusRawTask.cs). The correlation id is a
 * '/'-separated path: its first token carries the task id, and each later
 * token names an activity. The reader remembers, across all the lines it
 * reads, the first message that mentioned each token, and names the token
 * by that message in every later event.
 */
module RawTask {
  import opened Options
  import opened Text
  import opened Events
  import opened JsonTask

  const Descriptor := Format("OctopusRawTask", 0, [FileNamePattern], FirstLineStartsWith(ContentPrefix))

  /** Content detection: the first line opens an array with a "ServerTask…" id. */
  function AutodetectFromContents(firstFewLines: seq<string>): (r: bool)
    ensures r <==> |firstFewLines| > 0 && StartsWith(firstFewLines[0], "[\"ServerTask")
  {
    Sniffs(Descriptor.sniff, firstFewLines)
  }

  /** The key of the property for token `i` of a correlation id. */
  function PropertyName(i: nat): string {
    "Property " + NatToString(i)
  }

  /** Different token positions get different keys ("Property i"), none of them the task id's. */
  lemma PropertyNamesDistinct(i: nat, j: nat)
    ensures PropertyName(i) == PropertyName(j) ==> i == j
    ensures PropertyName(i) != "Task ID"
  {
    if PropertyName(i) == PropertyName(j) {
      assert NatToString(i) == PropertyName(i)[9..];
      assert NatToString(j) == PropertyName(j)[9..];
      NatToStringInjective(i, j);
    }
    assert PropertyName(i)[0] == 'P';
  }

  /** The keys of the properties of a correlation id of `n` tokens. */
  function PropertyKeys(n: nat): set<string> {
    {"Task ID"} + set i | 1 <= i < n :: PropertyName(i)
  }

  /**
   * The properties and the cache after the first `n` tokens of a correlation
   * id: the task id of token 0, then for each later token the message cached
   * for it, or `message`, which is then cached for it.
   */
  function Correlation(cache: map<string, string>, tokens: seq<string>, message: string, n: nat)
    : (map<string, PropValue>, map<string, string>)
    requires 1 <= n <= |tokens|
    decreases n
  {
    if n == 1 then (map["Task ID" := Str(TaskIdOf(tokens[0]))], cache)
    else
      var (properties, known) := Correlation(cache, tokens, message, n - 1);
      var token := tokens[n - 1];
      if token in known then (properties[PropertyName(n - 1) := Str(known[token])], known)
      else (properties[PropertyName(n - 1) := Str(message)], known[token := message])
  }

  /** `ParseProperties` of a whole correlation id. */
  function Correlate(cache: map<string, string>, correlationId: string, message: string)
    : (map<string, PropValue>, map<string, string>)
  {
    var tokens := Split(correlationId, '/');
    Correlation(cache, tokens, message, |tokens|)
  }

  /** One more token: its property and, for a token not yet known, its cache entry. */
  lemma CorrelationStep(cache: map<string, string>, tokens: seq<string>, message: string, n: nat)
    requires 1 < n <= |tokens|
    ensures var before := Correlation(cache, tokens, message, n - 1);
      var token := tokens[n - 1];
      Correlation(cache, tokens, message, n) ==
        if token in before.1 then (before.0[PropertyName(n - 1) := Str(before.1[token])], before.1)
        else (before.0[PropertyName(n - 1) := Str(message)], before.1[token := message])
  {
  }

  /**
   * The cache after `ParseProperties`: it gains the tokens it did not know,
   * each with this message, and loses or changes nothing.
   */
  lemma {:induction false} CorrelationCache(cache: map<string, string>, tokens: seq<string>, message: string, n: nat)
    requires 1 <= n <= |tokens|
    ensures var known := Correlation(cache, tokens, message, n).1;
      (forall t :: t in known <==> t in cache || t in tokens[1..n]) &&
      (forall t :: t in known ==> known[t] == if t in cache then cache[t] else message)
    decreases n
  {
    if n > 1 {
      CorrelationCache(cache, tokens, message, n - 1);
      CorrelationStep(cache, tokens, message, n);
      assert tokens[1..n] == tokens[1..n - 1] + [tokens[n - 1]];
    }
  }

  /** The properties after `ParseProperties` hold the task id and one entry per later token. */
  lemma {:induction false} CorrelationKeys(cache: map<string, string>, tokens: seq<string>, message: string, n: nat)
    requires 1 <= n <= |tokens|
    ensures var properties := Correlation(cache, tokens, message, n).0;
      properties.Keys == PropertyKeys(n) && properties["Task ID"] == Str(TaskIdOf(tokens[0]))
    decreases n
  {
    if n > 1 {
      CorrelationKeys(cache, tokens, message, n - 1);
      CorrelationStep(cache, tokens, message, n);
      PropertyNamesDistinct(n - 1, n - 1);
      assert PropertyKeys(n) == PropertyKeys(n - 1) + {PropertyName(n - 1)};
    }
  }

  /**
   * The entry of each token after `ParseProperties` holds the cached message
   * when the token was known, else this message.
   */
  lemma {:induction false} CorrelationValues(cache: map<string, string>, tokens: seq<string>, message: string, n: nat)
    requires 1 <= n <= |tokens|
    ensures var properties := Correlation(cache, tokens, message, n).0;
      forall i :: 1 <= i < n ==>
        PropertyName(i) in properties &&
        properties[PropertyName(i)] == Str(if tokens[i] in cache then cache[tokens[i]] else message)
    decreases n
  {
    if n > 1 {
      CorrelationValues(cache, tokens, message, n - 1);
      CorrelationCache(cache, tokens, message, n - 1);
      CorrelationStep(cache, tokens, message, n);
      var before := Correlation(cache, tokens, message, n - 1);
      var properties := Correlation(cache, tokens, message, n).0;
      var token := tokens[n - 1];
      assert properties[PropertyName(n - 1)] == Str(if token in cache then cache[token] else message) by {
        assert token in tokens[1..n - 1] ==> token in before.1;
      }
      forall i | 1 <= i < n - 1
        ensures PropertyName(i) in properties && properties[PropertyName(i)] == before.0[PropertyName(i)]
      {
        PropertyNamesDistinct(i, n - 1);
      }
    }
  }

  /** The cache after `ParseProperties` of a whole correlation id. */
  lemma CorrelateCache(cache: map<string, string>, correlationId: string, message: string)
    ensures var tokens := Split(correlationId, '/');
      var known := Correlate(cache, correlationId, message).1;
      (forall t :: t in known <==> t in cache || t in tokens[1..]) &&
      (forall t :: t in known ==> known[t] == if t in cache then cache[t] else message)
  {
    var tokens := Split(correlationId, '/');
    CorrelationCache(cache, tokens, message, |tokens|);
    assert tokens[1..|tokens|] == tokens[1..];
  }

  /** The properties `ParseProperties` returns for a whole correlation id. */
  lemma CorrelateProperties(cache: map<string, string>, correlationId: string, message: string)
    ensures var tokens := Split(correlationId, '/');
      var properties := Correlate(cache, correlationId, message).0;
      properties.Keys == PropertyKeys(|tokens|) &&
      properties["Task ID"] == Str(TaskIdOf(tokens[0])) &&
      forall i :: 1 <= i < |tokens| ==>
        PropertyName(i) in properties &&
        properties[PropertyName(i)] == Str(if tokens[i] in cache then cache[tokens[i]] else message)
  {
    var tokens := Split(correlationId, '/');
    CorrelationKeys(cache, tokens, message, |tokens|);
    CorrelationValues(cache, tokens, message, |tokens|);
  }

  /** The event of one line and the cache after it, or the exception the line raises. */
  function LineStep(cache: map<string, string>, decode: Decoder, parseTime: TimeParser, line: string)
    : Result<(Event, map<string, string>)>
  {
    match Fields(decode, parseTime, line)
    case Failure(e) => Failure(e)
    case Success((elements, ticks)) =>
      var (properties, known) := Correlate(cache, elements[0], elements[3]);
      Success((EventOf(elements, ticks, properties), known))
  }

  /** What enumerating `Read` to its end produces, and the cache it leaves behind. */
  function ReadFrom(cache: map<string, string>, decode: Decoder, parseTime: TimeParser, lines: seq<string>)
    : (Stream, map<string, string>)
    decreases |lines|
  {
    if lines == [] then (Stream([], None), cache)
    else
      match LineStep(cache, decode, parseTime, lines[0])
      case Failure(e) => (Stream([], Some(e)), cache)
      case Success((event, known)) =>
        var (rest, final) := ReadFrom(known, decode, parseTime, lines[1..]);
        (Stream([event] + rest.events, rest.failure), final)
  }

  /** The tokens of the correlation id of a line that yields an event. */
  function Tokens(decode: Decoder, parseTime: TimeParser, line: string): seq<string>
    requires Fields(decode, parseTime, line).Success?
  {
    Split(decode(line).elements[0], '/')
  }

  /** The event of a line, as far as it does not depend on the cache. */
  predicate EventOfLine(decode: Decoder, parseTime: TimeParser, line: string, event: Event) {
    Fields(decode, parseTime, line).Success? &&
    var (elements, ticks) := Fields(decode, parseTime, line).value;
    var tokens := Split(elements[0], '/');
    event.timestamp == At(ticks) && event.level == ParseLevel(elements[1]) &&
    event.messageTemplate == elements[3] && event.exception.None? &&
    event.properties.Keys == PropertyKeys(|tokens|) &&
    event.properties["Task ID"] == Str(TaskIdOf(tokens[0]))
  }

  /** The event a line yields is that line's. */
  lemma LineStepEvent(cache: map<string, string>, decode: Decoder, parseTime: TimeParser, line: string)
    requires LineStep(cache, decode, parseTime, line).Success?
    ensures EventOfLine(decode, parseTime, line, LineStep(cache, decode, parseTime, line).value.0)
  {
    var elements := Fields(decode, parseTime, line).value.0;
    CorrelateProperties(cache, elements[0], elements[3]);
  }

  /** Reading a line that yields an event goes on from the cache that line leaves. */
  lemma ReadFromStep(cache: map<string, string>, decode: Decoder, parseTime: TimeParser, lines: seq<string>)
    requires lines != [] && LineStep(cache, decode, parseTime, lines[0]).Success?
    ensures var step := LineStep(cache, decode, parseTime, lines[0]).value;
      var rest := ReadFrom(step.1, decode, parseTime, lines[1..]);
      ReadFrom(cache, decode, parseTime, lines) == (Stream([step.0] + rest.0.events, rest.0.failure), rest.1)
  {
  }

  /**
   * One event per line until the first line that throws, whose exception
   * ends the enumeration.
   */
  lemma {:induction false} ReadLength(
    cache: map<string, string>, decode: Decoder, parseTime: TimeParser, lines: seq<string>)
    ensures var s := ReadFrom(cache, decode, parseTime, lines).0;
      |s.events| <= |lines| &&
      (s.failure.None? <==> |s.events| == |lines|) &&
      (s.failure.Some? ==> Fields(decode, parseTime, lines[|s.events|]) == Failure(s.failure.value))
    decreases |lines|
  {
    if lines != [] && LineStep(cache, decode, parseTime, lines[0]).Success? {
      var known := LineStep(cache, decode, parseTime, lines[0]).value.1;
      ReadFromStep(cache, decode, parseTime, lines);
      ReadLength(known, decode, parseTime, lines[1..]);
      var s := ReadFrom(cache, decode, parseTime, lines).0;
      if s.failure.Some? {
        assert lines[1..][|s.events| - 1] == lines[|s.events|];
      }
    }
  }

  /** Each event is its own line's: its time, level and message, and the task id and token keys. */
  lemma {:induction false} ReadEvents(
    cache: map<string, string>, decode: Decoder, parseTime: TimeParser, lines: seq<string>)
    ensures var s := ReadFrom(cache, decode, parseTime, lines).0;
      |s.events| <= |lines| &&
      forall k :: 0 <= k < |s.events| ==> EventOfLine(decode, parseTime, lines[k], s.events[k])
    decreases |lines|
  {
    if lines != [] && LineStep(cache, decode, parseTime, lines[0]).Success? {
      var known := LineStep(cache, decode, parseTime, lines[0]).value.1;
      LineStepEvent(cache, decode, parseTime, lines[0]);
      ReadFromStep(cache, decode, parseTime, lines);
      ReadEvents(known, decode, parseTime, lines[1..]);
      var s := ReadFrom(cache, decode, parseTime, lines).0;
      forall k | 1 <= k < |s.events|
        ensures EventOfLine(decode, parseTime, lines[k], s.events[k])
      {
        assert lines[1..][k - 1] == lines[k];
      }
    }
  }

  /** Reading only ever adds to the cache: no entry is removed or changed. */
  lemma {:induction false} ReadGrows(
    cache: map<string, string>, decode: Decoder, parseTime: TimeParser, lines: seq<string>)
    ensures var final := ReadFrom(cache, decode, parseTime, lines).1;
      forall t :: t in cache ==> t in final && final[t] == cache[t]
    decreases |lines|
  {
    if lines != [] && LineStep(cache, decode, parseTime, lines[0]).Success? {
      var elements := Fields(decode, parseTime, lines[0]).value.0;
      var known := LineStep(cache, decode, parseTime, lines[0]).value.1;
      CorrelateCache(cache, elements[0], elements[3]);
      ReadFromStep(cache, decode, parseTime, lines);
      ReadGrows(known, decode, parseTime, lines[1..]);
    }
  }

  /**
   * The cache names a token consistently: in every event, the property of a
   * token holds the message the cache holds for that token at the end.
   */
  lemma {:induction false} ReadConsistent(
    cache: map<string, string>, decode: Decoder, parseTime: TimeParser, lines: seq<string>, k: nat, i: nat)
    requires var s := ReadFrom(cache, decode, parseTime, lines).0; k < |s.events|
    requires k < |lines| && Fields(decode, parseTime, lines[k]).Success?
    requires 1 <= i < |Tokens(decode, parseTime, lines[k])|
    ensures var s := ReadFrom(cache, decode, parseTime, lines).0;
      var final := ReadFrom(cache, decode, parseTime, lines).1;
      var token := Tokens(decode, parseTime, lines[k])[i];
      token in final && PropertyName(i) in s.events[k].properties &&
      s.events[k].properties[PropertyName(i)] == Str(final[token])
    decreases |lines|
  {
    var elements := Fields(decode, parseTime, lines[0]).value.0;
    var known := LineStep(cache, decode, parseTime, lines[0]).value.1;
    ReadFromStep(cache, decode, parseTime, lines);
    if k > 0 {
      assert lines[1..][k - 1] == lines[k];
      ReadConsistent(known, decode, parseTime, lines[1..], k - 1, i);
    } else {
      CorrelateCache(cache, elements[0], elements[3]);
      CorrelateProperties(cache, elements[0], elements[3]);
      ReadGrows(known, decode, parseTime, lines[1..]);
      assert Tokens(decode, parseTime, lines[0])[1..][i - 1] == Tokens(decode, parseTime, lines[0])[i];
    }
  }

  /** The message of a line that yields an event. */
  function MessageOf(decode: Decoder, parseTime: TimeParser, line: string): string
    requires Fields(decode, parseTime, line).Success?
  {
    decode(line).elements[3]
  }

  /** The line yields an event whose correlation id mentions `token` after its task id. */
  predicate Mentions(decode: Decoder, parseTime: TimeParser, line: string, token: string) {
    Fields(decode, parseTime, line).Success? && token in Tokens(decode, parseTime, line)[1..]
  }

  /**
   * Every token the cache learnt while reading is named by the message of
   * the first line whose correlation id mentioned it.
   */
  lemma {:induction false} ReadFirstMention(
    cache: map<string, string>, decode: Decoder, parseTime: TimeParser, lines: seq<string>, token: string)
    requires token in ReadFrom(cache, decode, parseTime, lines).1 && token !in cache
    ensures var s := ReadFrom(cache, decode, parseTime, lines).0;
      var final := ReadFrom(cache, decode, parseTime, lines).1;
      exists k: nat :: k < |s.events| && k < |lines| && Mentions(decode, parseTime, lines[k], token) &&
        (forall j :: 0 <= j < k ==> !Mentions(decode, parseTime, lines[j], token)) &&
        final[token] == MessageOf(decode, parseTime, lines[k])
    decreases |lines|
  {
    var final := ReadFrom(cache, decode, parseTime, lines).1;
    assert lines != [] && LineStep(cache, decode, parseTime, lines[0]).Success?;
    var elements := Fields(decode, parseTime, lines[0]).value.0;
    var known := LineStep(cache, decode, parseTime, lines[0]).value.1;
    ReadFromStep(cache, decode, parseTime, lines);
    assert Tokens(decode, parseTime, lines[0]) == Split(elements[0], '/');
    if token in known {
      FirstLineMentions(cache, decode, parseTime, lines, token);
    } else {
      assert !Mentions(decode, parseTime, lines[0], token) by {
        CorrelateCache(cache, elements[0], elements[3]);
      }
      ReadFirstMention(known, decode, parseTime, lines[1..], token);
      var rest := ReadFrom(known, decode, parseTime, lines[1..]).0;
      var k: nat :| k < |rest.events| && k < |lines| - 1 && Mentions(decode, parseTime, lines[1..][k], token) &&
        (forall j :: 0 <= j < k ==> !Mentions(decode, parseTime, lines[1..][j], token)) &&
        final[token] == MessageOf(decode, parseTime, lines[1..][k]);
      FirstMentionShift(decode, parseTime, lines, token, k);
    }
  }

  /** A first mention after the first line, when that line does not mention the token. */
  lemma FirstMentionShift(decode: Decoder, parseTime: TimeParser, lines: seq<string>, token: string, k: nat)
    requires lines != [] && !Mentions(decode, parseTime, lines[0], token)
    requires k < |lines| - 1 && Mentions(decode, parseTime, lines[1..][k], token)
    requires forall j :: 0 <= j < k ==> !Mentions(decode, parseTime, lines[1..][j], token)
    ensures lines[1..][k] == lines[k + 1]
    ensures forall j :: 0 <= j < k + 1 ==> !Mentions(decode, parseTime, lines[j], token)
  {
    forall j | 0 < j < k + 1
      ensures !Mentions(decode, parseTime, lines[j], token)
    {
      assert lines[1..][j - 1] == lines[j];
    }
  }

  /** A token the first line's correlation id teaches the cache is named by that line's message. */
  lemma FirstLineMentions(
    cache: map<string, string>, decode: Decoder, parseTime: TimeParser, lines: seq<string>, token: string)
    requires lines != [] && LineStep(cache, decode, parseTime, lines[0]).Success?
    requires token in LineStep(cache, decode, parseTime, lines[0]).value.1 && token !in cache
    ensures Mentions(decode, parseTime, lines[0], token)
    ensures token in ReadFrom(cache, decode, parseTime, lines).1 &&
      ReadFrom(cache, decode, parseTime, lines).1[token] == MessageOf(decode, parseTime, lines[0])
  {
    var elements := Fields(decode, parseTime, lines[0]).value.0;
    var known := LineStep(cache, decode, parseTime, lines[0]).value.1;
    CorrelateCache(cache, elements[0], elements[3]);
    ReadFromStep(cache, decode, parseTime, lines);
    ReadGrows(known, decode, parseTime, lines[1..]);
  }

  /** The reader: its cache of the first message seen for each correlation token. */
  class OctopusRawTask {
    var correlationProperties: map<string, string>

    /** A new reader knows no token. */
    constructor()
      ensures correlationProperties == map[]
    {
      correlationProperties := map[];
    }

    /** The properties of one event, learning the tokens of its correlation id. */
    method ParseProperties(correlationId: string, message: string) returns (properties: map<string, PropValue>)
      modifies this
      ensures (properties, correlationProperties) == Correlate(old(correlationProperties), correlationId, message)
    {
      var tokens := Split(correlationId, '/');
      properties := map["Task ID" := Str(TaskIdOf(tokens[0]))];
      var i := 1;
      while i < |tokens|
        invariant 1 <= i <= |tokens|
        invariant (properties, correlationProperties) == Correlation(old(correlationProperties), tokens, message, i)
      {
        CorrelationStep(old(correlationProperties), tokens, message, i + 1);
        var token := tokens[i];
        if token in correlationProperties {
          properties := properties[PropertyName(i) := Str(correlationProperties[token])];
        } else {
          properties := properties[PropertyName(i) := Str(message)];
          correlationProperties := correlationProperties[token := message];
        }
        i := i + 1;
      }
    }

    /** Enumerates the events of `lines`, to the end or to the first line that throws. */
    method Read(decode: Decoder, parseTime: TimeParser, lines: seq<string>) returns (stream: Stream)
      modifies this
      ensures (stream, correlationProperties) == ReadFrom(old(correlationProperties), decode, parseTime, lines)
    {
      var events: seq<Event> := [];
      var i := 0;
      assert lines[0..] == lines;
      assert ReadFrom(correlationProperties, decode, parseTime, lines).0.events ==
        events + ReadFrom(correlationProperties, decode, parseTime, lines).0.events;
      while i < |lines|
        invariant i <= |lines|
        invariant var rest := ReadFrom(correlationProperties, decode, parseTime, lines[i..]);
          ReadFrom(old(correlationProperties), decode, parseTime, lines) ==
            (Stream(events + rest.0.events, rest.0.failure), rest.1)
      {
        var line := lines[i];
        assert lines[i..][0] == line && lines[i..][1..] == lines[i + 1..];
        var fields := Fields(decode, parseTime, line);
        if fields.Failure? {
          assert events + [] == events;
          stream := Stream(events, Some(fields.error));
          return;
        }
        ReadFromStep(correlationProperties, decode, parseTime, lines[i..]);
        var elements := fields.value.0;
        var properties := ParseProperties(elements[0], elements[3]);
        var event := EventOf(elements, fields.value.1, properties);
        ghost var rest := ReadFrom(correlationProperties, decode, parseTime, lines[i + 1..]).0;
        assert (events + [event]) + rest.events == events + ([event] + rest.events);
        events := events + [event];
        i := i + 1;
      }
      assert lines[i..] == [] && events + [] == events;
      stream := Stream(events, None);
    }
  }
}

/**
 * The batching sink (source/Lib/SeqEndpoint.cs). Events are stamped with
 * the endpoint's batch id and collected in an open buffer; a buffer that
 * reaches 1000 events is sent as one batch and replaced by an empty one,
 * and `Flush` sends what is left and reports the outcome of every batch
 * ever sent.
 *
 * The HTTP round trip is not modelled: `post` gives the response the
 * server, or the client's exception, returns for a batch. Sending is
 * asynchronous in the source, at most five at a time; here a batch's
 * outcome is decided when it is sent, which the outcomes `Flush` reports
 * cannot tell apart.
 */
module Endpoint {
  import opened Options
  import opened Events

  const BatchSize := 1000

  const DefaultUri := "http://localhost:5341/"

  /** What sending one batch came to: an HTTP response, or the message of the exception thrown. */
  datatype Response = Answered(isSuccessStatusCode: bool, statusCode: string, reasonPhrase: string) | Threw(message: string)

  /** The `IResult` of one batch. */
  datatype Outcome = Sent | Failed(reason: string)

  /** The outcome of a batch: success exactly on a success status; no retry. */
  function OutcomeOf(response: Response): (r: Outcome)
    ensures r.Sent? <==> response.Answered? && response.isSuccessStatusCode
    ensures response.Threw? ==> r == Failed(response.message)
    ensures response.Answered? && !response.isSuccessStatusCode ==>
      r == Failed(response.statusCode + " " + response.reasonPhrase)
  {
    match response
    case Answered(ok, code, reason) => if ok then Sent else Failed(code + " " + reason)
    case Threw(message) => Failed(message)
  }

  /** `evt.Properties["BatchId"] = batchId`: the batch id replaces any earlier one. */
  function Stamped(e: Event, batchId: string): Event {
    e.(properties := e.properties["BatchId" := Str(batchId)])
  }

  /** Stamping sets `BatchId`, overwriting any earlier value, and changes nothing else of the event. */
  lemma StampedMeaning(e: Event, batchId: string)
    ensures var r := Stamped(e, batchId);
      r.properties.Keys == e.properties.Keys + {"BatchId"} && r.properties["BatchId"] == Str(batchId) &&
      (forall k :: k in e.properties && k != "BatchId" ==> r.properties[k] == e.properties[k]) &&
      r.timestamp == e.timestamp && r.level == e.level && r.messageTemplate == e.messageTemplate &&
      r.exception == e.exception
  {
  }

  /** Every event of `events`, stamped. */
  function StampAll(events: seq<Event>, batchId: string): (r: seq<Event>)
    ensures |r| == |events| && forall i :: 0 <= i < |events| ==> r[i] == Stamped(events[i], batchId)
  {
    seq(|events|, i requires 0 <= i < |events| => Stamped(events[i], batchId))
  }

  /** The state of the sink: the open buffer and every batch sent so far, in order. */
  datatype Sink = Sink(open: seq<Event>, sent: seq<seq<Event>>)

  /** `Write` of an event already stamped. */
  function WriteStep(s: Sink, e: Event): Sink {
    var buffer := s.open + [e];
    if |buffer| == BatchSize then Sink([], s.sent + [buffer]) else Sink(buffer, s.sent)
  }

  /** `Flush`'s effect on the sink: the open buffer is sent only when it holds an event. */
  function FlushStep(s: Sink): Sink {
    if |s.open| > 0 then Sink([], s.sent + [s.open]) else s
  }

  /** Writing `events` one after the other. */
  function WriteAll(s: Sink, events: seq<Event>): Sink
    decreases |events|
  {
    if events == [] then s
    else
      var n := |events| - 1;
      WriteStep(WriteAll(s, events[..n]), events[n])
  }

  /** Stamping one more event. */
  lemma StampAllSnoc(events: seq<Event>, n: nat, batchId: string)
    requires n < |events|
    ensures StampAll(events[..n + 1], batchId) == StampAll(events[..n], batchId) + [Stamped(events[n], batchId)]
  {
  }

  /** Writing one more event. */
  lemma WriteAllSnoc(s: Sink, events: seq<Event>, e: Event)
    ensures WriteAll(s, events + [e]) == WriteStep(WriteAll(s, events), e)
  {
    assert (events + [e])[..|events|] == events;
  }

  /** The events of the batches, in order. */
  function Concat(batches: seq<seq<Event>>): seq<Event> {
    if batches == [] then [] else Concat(batches[..|batches| - 1]) + batches[|batches| - 1]
  }

  lemma ConcatSnoc(batches: seq<seq<Event>>, batch: seq<Event>)
    ensures Concat(batches + [batch]) == Concat(batches) + batch
  {
    assert (batches + [batch])[..|batches|] == batches;
  }

  /** A sink between flushes: a buffer not yet full, and only full batches sent since `base`. */
  predicate Batched(s: Sink, base: nat) {
    base <= |s.sent| && |s.open| < BatchSize &&
    forall k :: base <= k < |s.sent| ==> |s.sent[k]| == BatchSize
  }

  /** Writing keeps the sink batched: the buffer never fills, and only full batches are sent. */
  lemma {:induction false} WriteAllBatched(s: Sink, base: nat, events: seq<Event>)
    requires Batched(s, base)
    ensures Batched(WriteAll(s, events), base) && s.sent <= WriteAll(s, events).sent
    decreases |events|
  {
    if events != [] {
      WriteAllBatched(s, base, events[..|events| - 1]);
    }
  }

  /**
   * Writing loses, reorders or repeats nothing: the sent batches followed by
   * the buffer are what they were followed by the events written.
   */
  lemma {:induction false} WriteAllKeeps(s: Sink, events: seq<Event>)
    ensures var r := WriteAll(s, events);
      Concat(r.sent) + r.open == Concat(s.sent) + s.open + events
    decreases |events|
  {
    if events != [] {
      var n := |events| - 1;
      WriteAllKeeps(s, events[..n]);
      var before := WriteAll(s, events[..n]);
      var buffer := before.open + [events[n]];
      assert Concat(s.sent) + s.open + events == Concat(s.sent) + s.open + events[..n] + [events[n]] by {
        assert events == events[..n] + [events[n]];
      }
      assert Concat(before.sent) + buffer == Concat(s.sent) + s.open + events;
      if |buffer| == BatchSize {
        ConcatSnoc(before.sent, buffer);
        assert Concat(before.sent + [buffer]) + [] == Concat(before.sent) + buffer;
      }
    }
  }

  /** Writing `m` events sends one batch for every 1000 the buffer reaches. */
  lemma {:induction false} WriteAllCount(s: Sink, events: seq<Event>)
    requires |s.open| < BatchSize
    ensures var r := WriteAll(s, events);
      |r.sent| - |s.sent| == (|s.open| + |events|) / BatchSize &&
      |r.open| == (|s.open| + |events|) % BatchSize
    decreases |events|
  {
    if events != [] {
      var n := |events| - 1;
      WriteAllCount(s, events[..n]);
    }
  }

  /**
   * `Flush` leaves the buffer empty and sends it as one more batch exactly
   * when it held an event; the batches already sent stay as they were.
   */
  lemma FlushMeaning(s: Sink)
    ensures FlushStep(s).open == [] && s.sent <= FlushStep(s).sent
    ensures |FlushStep(s).sent| == |s.sent| + 1 <==> s.open != []
    ensures Concat(FlushStep(s).sent) == Concat(s.sent) + s.open
  {
    if s.open != [] {
      ConcatSnoc(s.sent, s.open);
    } else {
      assert s.open == [];
    }
  }

  /** Everything written to a new endpoint and then flushed is sent, in order. */
  lemma WriteThenFlush(events: seq<Event>)
    ensures var r := FlushStep(WriteAll(Sink([], []), events));
      r.open == [] && Concat(r.sent) == events
  {
    WriteAllKeeps(Sink([], []), events);
    FlushMeaning(WriteAll(Sink([], []), events));
    assert Concat(Sink([], []).sent) + Sink([], []).open + events == events;
  }

  /**
   * What was written to a new endpoint and flushed goes in batches of 1000
   * but the last, which holds the rest and is never empty.
   */
  lemma WriteThenFlushSizes(events: seq<Event>)
    ensures var r := FlushStep(WriteAll(Sink([], []), events));
      (forall k :: 0 <= k < |r.sent| - 1 ==> |r.sent[k]| == BatchSize) &&
      (|r.sent| > 0 ==> 0 < |r.sent[|r.sent| - 1]| <= BatchSize)
  {
    WriteAllBatched(Sink([], []), 0, events);
  }

  /** Rounding up: `m` events take one batch per full 1000 and one more for a rest. */
  lemma CeilingBatches(m: nat)
    ensures (m + BatchSize - 1) / BatchSize == m / BatchSize + (if m % BatchSize > 0 then 1 else 0)
  {
    var q := m / BatchSize;
    var r := m % BatchSize;
    assert m == q * BatchSize + r;
    if r > 0 {
      assert m + BatchSize - 1 == (q + 1) * BatchSize + (r - 1);
    } else {
      assert m + BatchSize - 1 == q * BatchSize + (BatchSize - 1);
    }
  }

  /** What was written to a new endpoint and flushed takes `m / 1000` batches, rounded up. */
  lemma WriteThenFlushCount(events: seq<Event>)
    ensures |FlushStep(WriteAll(Sink([], []), events)).sent| == (|events| + BatchSize - 1) / BatchSize
  {
    WriteAllCount(Sink([], []), events);
    CeilingBatches(|events|);
  }

  /** 2500 events make two full batches before the flush and a third of 500 at it. */
  lemma TwentyFiveHundred(events: seq<Event>)
    requires |events| == 2500
    ensures |WriteAll(Sink([], []), events).sent| == 2
    ensures var r := FlushStep(WriteAll(Sink([], []), events));
      |r.sent| == 3 && |r.sent[2]| == 500
  {
    WriteAllCount(Sink([], []), events);
  }

  /** `SeqEndpoint`: the open buffer, the sends so far, and the batch id every event is stamped with. */
  class SeqEndpoint {
    const batchId: string
    const post: seq<Event> -> Response
    var events: seq<Event>
    var sendTasks: seq<Outcome>
    /** The batch each send carried. */
    ghost var batches: seq<seq<Event>>
    /** Every event written, as stamped. */
    ghost var written: seq<Event>
    /** How many batches had been sent at the last `Flush`. */
    ghost var flushed: nat

    /**
     * The buffer is never full; every send carries a non-empty batch of at
     * most 1000 events, and a full one since the last flush; the batches and
     * the buffer are exactly what was written; each send's outcome is that
     * of its batch.
     */
    ghost predicate Valid()
      reads this
    {
      Batched(State(), flushed) &&
      (forall k :: 0 <= k < |batches| ==> 0 < |batches[k]| <= BatchSize) &&
      Concat(batches) + events == written &&
      |sendTasks| == |batches| &&
      forall k :: 0 <= k < |batches| ==> sendTasks[k] == OutcomeOf(post(batches[k]))
    }

    ghost function State(): Sink
      reads this
    {
      Sink(events, batches)
    }

    /** A new endpoint, stamping with `batchId`, or with the time it was made when none is given. */
    constructor(batchId: Option<string>, now: string, post: seq<Event> -> Response)
      ensures Valid() && fresh(this)
      ensures this.batchId == (if batchId.Some? then batchId.value else now) && this.post == post
      ensures events == [] && sendTasks == [] && batches == [] && written == []
    {
      this.batchId := if batchId.Some? then batchId.value else now;
      this.post := post;
      events := [];
      sendTasks := [];
      batches := [];
      written := [];
      flushed := 0;
    }

    method Write(evt: Event)
      requires Valid()
      modifies this
      ensures Valid()
      ensures State() == WriteStep(old(State()), Stamped(evt, batchId))
      ensures written == old(written) + [Stamped(evt, batchId)] && flushed == old(flushed)
    {
      var e := Stamped(evt, batchId);
      events := events + [e];
      written := written + [e];
      assert Concat(batches) + events == written;
      if |events| == BatchSize {
        SendBatch();
      }
    }

    /** Sends the buffer as the next batch and empties it. */
    method SendBatch()
      requires Concat(batches) + events == written && |sendTasks| == |batches| && |events| > 0
      requires forall k :: 0 <= k < |batches| ==> sendTasks[k] == OutcomeOf(post(batches[k]))
      modifies this
      ensures events == [] && batches == old(batches) + [old(events)] && written == old(written)
      ensures sendTasks == old(sendTasks) + [OutcomeOf(post(old(events)))] && flushed == old(flushed)
      ensures Concat(batches) + events == written && |sendTasks| == |batches|
      ensures forall k :: 0 <= k < |batches| ==> sendTasks[k] == OutcomeOf(post(batches[k]))
    {
      ConcatSnoc(batches, events);
      batches := batches + [events];
      sendTasks := sendTasks + [OutcomeOf(post(events))];
      events := [];
    }

    /** Sends what is left and returns the outcome of every batch sent since the endpoint was made. */
    method Flush() returns (results: seq<Outcome>)
      requires Valid()
      modifies this
      ensures Valid()
      ensures State() == FlushStep(old(State())) && written == old(written)
      ensures results == sendTasks && |results| == |batches|
      ensures forall k :: 0 <= k < |results| ==> results[k] == OutcomeOf(post(batches[k]))
    {
      if |events| > 0 {
        SendBatch();
      }
      flushed := |batches|;
      results := sendTasks;
    }
  }
}

/**
 * The `/generate-image` handler of server.js: it checks the prompt, reads
 * the upstream generation events one at a time, relays every partial image
 * as an event-stream record while retaining the partial with the highest
 * index, answers the first completion with that retained image, and closes
 * the stream with `done`, or with a single `error` record when the upstream
 * call throws.
 */
module Relay {
  import opened Wrappers
  import opened Json
  import opened Sse

  /** The upstream events the handler distinguishes; the others are skipped. */
  datatype UpstreamEvent =
    | PartialImage(partialIndex: int, b64: string)   // response.image_generation_call.partial_image
    | ImageCompleted                                 // response.image_generation_call.completed
    | OtherEvent(eventType: string)

  /** How the upstream call ends once the given events have been read. */
  datatype Ending = EndOfStream | Throws(message: string)

  /** An upstream call: the events it yields, then its ending (a throw from the call itself is `Upstream([], Throws(m))`). */
  datatype Upstream = Upstream(events: seq<UpstreamEvent>, ending: Ending)

  /** What the handler sends back. */
  datatype Reply =
    | Rejected(status: int, body: Json.Object)
    | EventStream(status: int, headers: seq<(string, string)>, events: seq<StreamEvent>, ended: bool)

  const PromptRequired: Json.Object := [("error", Str("Prompt is required"))]

  const StreamHeaders: seq<(string, string)> := [
    ("Content-Type", "text/event-stream"),
    ("Cache-Control", "no-cache"),
    ("Connection", "keep-alive"),
    ("Access-Control-Allow-Origin", "*"),
    ("Access-Control-Allow-Headers", "Cache-Control")
  ]

  /** `!prompt` for a body field that is missing or a string. */
  predicate Falsy(prompt: Option<string>)
  {
    prompt == None || prompt == Some("")
  }

  // ---------------------------------------------------------------- the retained partial

  /** The accumulator pair `highestPartialIndex`, `lastPartialImage`. */
  datatype Retained = Retained(highestIndex: int, image: Option<string>)

  const NoneRetained := Retained(-1, None)

  /** One step of the accumulator: a partial replaces it only with a strictly greater index. */
  function Keep(r: Retained, e: UpstreamEvent): Retained
  {
    if e.PartialImage? && e.partialIndex > r.highestIndex then Retained(e.partialIndex, Some(e.b64)) else r
  }

  /** The accumulator after the given events. */
  function RetainAll(es: seq<UpstreamEvent>): Retained
  {
    if es == [] then NoneRetained else Keep(RetainAll(es[..|es| - 1]), es[|es| - 1])
  }

  /**
   * The partial at `p` has the greatest index among all partials, that index
   * beats the initial -1, and every earlier partial has a strictly smaller
   * index: the first of the maximal ones.
   */
  ghost predicate IsFirstMax(es: seq<UpstreamEvent>, p: int)
  {
    0 <= p < |es| && es[p].PartialImage? && es[p].partialIndex > -1 &&
    (forall q :: 0 <= q < |es| && es[q].PartialImage? ==> es[q].partialIndex <= es[p].partialIndex) &&
    (forall q :: 0 <= q < p && es[q].PartialImage? ==> es[q].partialIndex < es[p].partialIndex)
  }

  lemma FirstMaxUnique(es: seq<UpstreamEvent>, p: int, p': int)
    requires IsFirstMax(es, p) && IsFirstMax(es, p')
    ensures p == p'
  {
  }

  /**
   * The accumulator is an argmax by index where the first wins on ties: it
   * holds the first maximal partial when that index is above -1, and is still
   * the initial pair when no partial has an index above -1.
   */
  lemma {:induction false} RetainedIsFirstMax(es: seq<UpstreamEvent>)
    ensures forall p :: IsFirstMax(es, p) ==> RetainAll(es) == Retained(es[p].partialIndex, Some(es[p].b64))
    ensures (exists p :: IsFirstMax(es, p)) ||
            (RetainAll(es) == NoneRetained && forall q :: 0 <= q < |es| && es[q].PartialImage? ==> es[q].partialIndex <= -1)
    decreases |es|
  {
    if es != [] {
      var n := |es| - 1;
      var init, e := es[..n], es[n];
      RetainedIsFirstMax(init);
      var r := RetainAll(init);
      var w: int :| (IsFirstMax(init, w) && r == Retained(init[w].partialIndex, Some(init[w].b64))) ||
                    (w == -1 && r == NoneRetained && forall q :: 0 <= q < n && init[q].PartialImage? ==> init[q].partialIndex <= -1);
      if e.PartialImage? && e.partialIndex > r.highestIndex {
        assert IsFirstMax(es, n);
        forall p | IsFirstMax(es, p) ensures p == n { FirstMaxUnique(es, p, n); }
      } else if w >= 0 {
        assert IsFirstMax(es, w);
        forall p | IsFirstMax(es, p) ensures p == w { FirstMaxUnique(es, p, w); }
      } else {
        forall p | 0 <= p < |es| ensures !IsFirstMax(es, p) {
          if p < n { assert !IsFirstMax(init, p); }
        }
      }
    }
  }

  // ---------------------------------------------------------------- what is relayed

  /** The position of the first completion event, if any. */
  function CompletedAt(es: seq<UpstreamEvent>): (r: Option<nat>)
    ensures r.Some? ==> r.value < |es| && es[r.value].ImageCompleted? &&
                        forall j :: 0 <= j < r.value ==> !es[j].ImageCompleted?
    ensures r.None? ==> forall j :: 0 <= j < |es| ==> !es[j].ImageCompleted?
  {
    if es == [] then None
    else if es[0].ImageCompleted? then Some(0)
    else match CompletedAt(es[1..])
      case Some(k) => Some(k + 1)
      case None => None
  }

  /** The `partial` event relayed for each partial image, in arrival order; other events relay nothing. */
  function PartialEvents(es: seq<UpstreamEvent>): seq<StreamEvent>
  {
    if es == [] then []
    else
      var e := es[|es| - 1];
      PartialEvents(es[..|es| - 1]) + if e.PartialImage? then [Partial(e.partialIndex, e.b64, None)] else []
  }

  /** Number of partial images among the events. */
  function CountPartials(es: seq<UpstreamEvent>): nat
  {
    if es == [] then 0 else CountPartials(es[1..]) + if es[0].PartialImage? then 1 else 0
  }

  /** Reading one more event extends the relayed partials and steps the accumulator. */
  lemma PrefixStep(es: seq<UpstreamEvent>, i: nat)
    requires i < |es|
    ensures es[i].PartialImage? ==>
      PartialEvents(es[..i + 1]) == PartialEvents(es[..i]) + [Partial(es[i].partialIndex, es[i].b64, None)]
    ensures !es[i].PartialImage? ==> PartialEvents(es[..i + 1]) == PartialEvents(es[..i])
    ensures RetainAll(es[..i + 1]) == Keep(RetainAll(es[..i]), es[i])
  {
    assert es[..i + 1][..i] == es[..i];
  }

  /** The events the handler writes for an accepted prompt. */
  function Relayed(up: Upstream): seq<StreamEvent>
  {
    match CompletedAt(up.events)
    case Some(k) =>
      PartialEvents(up.events[..k]) + [Completed(RetainAll(up.events[..k]).image, None), Done]
    case None =>
      PartialEvents(up.events) + [if up.ending.EndOfStream? then Done else Error(up.ending.message)]
  }

  /**
   * The handler: an empty or missing prompt is answered with status 400 and
   * nothing else happens; otherwise the event-stream headers go out, the
   * upstream events are read in order until the first completion, and the
   * stream is closed after `done` or after the `error` event of a throw.
   * Each event sent is one `Sse.Record` on the wire, in order.
   */
  method HandleGenerateImage(prompt: Option<string>, up: Upstream) returns (reply: Reply)
    ensures Falsy(prompt) <==> reply.Rejected?
    ensures reply.Rejected? ==> reply.status == 400 && reply.body == PromptRequired
    ensures reply.EventStream? ==>
      reply.status == 200 && reply.headers == StreamHeaders && reply.ended &&
      reply.events == Relayed(up)
  {
    if Falsy(prompt) {
      return Rejected(400, PromptRequired);
    }
    var es := up.events;
    var sent: seq<StreamEvent> := [];
    var lastPartialImage: Option<string> := None;
    var highestPartialIndex := -1;
    var i := 0;
    while i < |es|
      invariant 0 <= i <= |es|
      invariant forall j :: 0 <= j < i ==> !es[j].ImageCompleted?
      invariant Retained(highestPartialIndex, lastPartialImage) == RetainAll(es[..i])
      invariant sent == PartialEvents(es[..i])
    {
      var event := es[i];
      PrefixStep(es, i);
      if event.PartialImage? {
        if event.partialIndex > highestPartialIndex {
          highestPartialIndex := event.partialIndex;
          lastPartialImage := Some(event.b64);
        }
        sent := sent + [Partial(event.partialIndex, event.b64, None)];
      }
      if event.ImageCompleted? {
        sent := sent + [Completed(lastPartialImage, None), Done];
        assert CompletedAt(es) == Some(i);
        return EventStream(200, StreamHeaders, sent, true);
      }
      i := i + 1;
    }
    assert es[..i] == es;
    if up.ending.Throws? {
      sent := sent + [Error(up.ending.message)];
    } else {
      sent := sent + [Done];
    }
    return EventStream(200, StreamHeaders, sent, true);
  }

  // ---------------------------------------------------------------- properties

  /** Relaying a concatenation relays each part in turn. */
  lemma {:induction false} PartialEventsAppend(a: seq<UpstreamEvent>, b: seq<UpstreamEvent>)
    ensures PartialEvents(a + b) == PartialEvents(a) + PartialEvents(b)
    decreases |b|
  {
    if b == [] {
      assert a + b == a;
    } else {
      var n := |b| - 1;
      assert (a + b)[..|a + b| - 1] == a + b[..n];
      PartialEventsAppend(a, b[..n]);
    }
  }

  /** One `partial` event per partial image, each carrying no session and relayed in arrival order. */
  lemma {:induction false} PartialEventsCount(es: seq<UpstreamEvent>)
    ensures |PartialEvents(es)| == CountPartials(es)
    ensures forall j :: 0 <= j < |PartialEvents(es)| ==> PartialEvents(es)[j].Partial? && PartialEvents(es)[j].sessionId.None?
    decreases |es|
  {
    if es != [] {
      var first, rest := es[..1], es[1..];
      assert es == first + rest;
      PartialEventsAppend(first, rest);
      PartialEventsCount(rest);
      assert first[..0] == [];
    }
  }

  /**
   * The shape of every accepted stream: partials, then at most one
   * `completed`, then exactly one terminal event, which is `done` unless the
   * upstream threw before any completion, and `error` with the thrown message
   * otherwise.
   */
  lemma RelayedShape(up: Upstream)
    ensures var r := Relayed(up);
      |r| >= 1 &&
      (r[|r| - 1] == Done <==> CompletedAt(up.events).Some? || up.ending.EndOfStream?) &&
      (r[|r| - 1].Error? <==> CompletedAt(up.events).None? && up.ending.Throws?) &&
      (r[|r| - 1].Error? ==> r[|r| - 1].message == up.ending.message) &&
      (forall j :: 0 <= j < |r| - 1 ==> r[j].Partial? || (r[j].Completed? && j == |r| - 2))
  {
    match CompletedAt(up.events)
    case Some(k) =>
      PartialEventsCount(up.events[..k]);
    case None =>
      PartialEventsCount(up.events);
  }

  /**
   * How many records an accepted stream has: one per partial image before
   * the first completion, one for that completion, and one terminal record.
   */
  lemma RelayedCount(up: Upstream)
    ensures CompletedAt(up.events).Some? ==> |Relayed(up)| == CountPartials(up.events[..CompletedAt(up.events).value]) + 2
    ensures CompletedAt(up.events).None? ==> |Relayed(up)| == CountPartials(up.events) + 1
  {
    match CompletedAt(up.events)
    case Some(k) =>
      PartialEventsCount(up.events[..k]);
    case None =>
      PartialEventsCount(up.events);
  }

  /**
   * The completed event carries the partial image with the highest index
   * seen before the completion (the first one on a tie), or no image when
   * no partial index was above -1.
   */
  lemma CompletedCarriesHighest(up: Upstream, k: nat)
    requires CompletedAt(up.events) == Some(k)
    ensures var pre := up.events[..k]; var c := Relayed(up)[|Relayed(up)| - 2];
      c.Completed? && c.sessionId.None? &&
      (forall p :: IsFirstMax(pre, p) ==> c.finalImage == Some(pre[p].b64)) &&
      (c.finalImage.None? <==> forall q :: 0 <= q < k && pre[q].PartialImage? ==> pre[q].partialIndex <= -1)
  {
    var pre := up.events[..k];
    RetainedIsFirstMax(pre);
    var r := Relayed(up);
    assert r[|r| - 2] == Completed(RetainAll(pre).image, None);
    if exists p :: IsFirstMax(pre, p) {
      var p :| IsFirstMax(pre, p);
      assert RetainAll(pre).image == Some(pre[p].b64);
    }
  }

  /** Appending to a sequence keeps an earlier completion the first one. */
  lemma CompletedAtExtend(es: seq<UpstreamEvent>, more: seq<UpstreamEvent>)
    requires CompletedAt(es).Some?
    ensures CompletedAt(es + more) == CompletedAt(es)
  {
    assert forall j :: 0 <= j < |es| ==> (es + more)[j] == es[j];
  }

  /** The handler stops reading at the first completion: whatever the upstream yields or throws afterwards changes nothing. */
  lemma IgnoresAfterCompletion(up: Upstream, more: seq<UpstreamEvent>, ending: Ending)
    requires CompletedAt(up.events).Some?
    ensures Relayed(Upstream(up.events + more, ending)) == Relayed(up)
  {
    var k := CompletedAt(up.events).value;
    CompletedAtExtend(up.events, more);
    assert (up.events + more)[..k] == up.events[..k];
  }

  /** Partials arriving out of order (indices 1, 0, 2): all three are relayed as they come and the completion carries the one with index 2. */
  lemma OutOfOrderScenario()
    ensures Relayed(Upstream([PartialImage(1, "B"), PartialImage(0, "A"), OtherEvent("x"), PartialImage(2, "C"), ImageCompleted], EndOfStream)) ==
      [Partial(1, "B", None), Partial(0, "A", None), Partial(2, "C", None), Completed(Some("C"), None), Done]
  {
    var s1 := [PartialImage(1, "B")];
    var s2 := s1 + [PartialImage(0, "A")];
    var s3 := s2 + [OtherEvent("x")];
    var s4 := s3 + [PartialImage(2, "C")];
    var es := s4 + [ImageCompleted];
    assert es == [PartialImage(1, "B"), PartialImage(0, "A"), OtherEvent("x"), PartialImage(2, "C"), ImageCompleted];
    assert !es[0].ImageCompleted? && !es[1].ImageCompleted? && !es[2].ImageCompleted? && !es[3].ImageCompleted?;
    var at := CompletedAt(es);
    assert at.Some? by { assert es[4].ImageCompleted?; }
    assert at.value == 4 by { assert es[at.value].ImageCompleted?; }
    assert es[..4] == s4;
    Snoc([], PartialImage(1, "B"));
    assert [] + s1 == s1;
    Snoc(s1, PartialImage(0, "A"));
    Snoc(s2, OtherEvent("x"));
    Snoc(s3, PartialImage(2, "C"));
    assert RetainAll(s4) == Retained(2, Some("C"));
  }

  lemma Snoc(es: seq<UpstreamEvent>, e: UpstreamEvent)
    ensures RetainAll(es + [e]) == Keep(RetainAll(es), e)
    ensures PartialEvents(es + [e]) == PartialEvents(es) + if e.PartialImage? then [Partial(e.partialIndex, e.b64, None)] else []
  {
    assert (es + [e])[..|es|] == es;
  }
}

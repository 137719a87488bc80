/**
 * The relay and the page together: whatever chunks the browser receives the
 * relay's records in, the page ends in a state fixed by how the upstream
 * generation went.
 */
module EndToEnd {
  import opened Wrappers
  import opened Text
  import opened Sse
  import opened Relay
  import opened Client

  lemma DecodedPair(first: string, second: string)
    ensures Decoded([first, second]) == [LineEvent(first), LineEvent(second)]
  {
    var lines := [first, second];
    assert [first][..0] == [];
    assert Decoded([first]) == Decoded([]) + [LineEvent(first)];
    assert lines[..1] == [first];
    assert Decoded(lines) == Decoded([first]) + [LineEvent(second)];
  }

  lemma DeliverPair(u: Ui, first: Option<StreamEvent>, second: Option<StreamEvent>)
    ensures DeliverAll(u, [first, second]) == Deliver(Deliver(u, first), second)
  {
    var ds := [first, second];
    assert [first][..0] == [];
    assert DeliverAll(u, [first]) == Deliver(DeliverAll(u, []), first);
    assert ds[..1] == [first];
    assert DeliverAll(u, ds) == Deliver(DeliverAll(u, [first]), second);
  }

  /** A record's two lines, read by the client, apply exactly its event. */
  lemma RecordReduces(u: Ui, e: StreamEvent)
    ensures ReduceLines(u, [DataLine(e), []]) == Reduce(u, e)
  {
    DecodedPair(DataLine(e), []);
    DataLineRoundTrip(e);
    BlankLineIgnored();
    DeliverPair(u, Some(e), None);
  }

  /** The lines of the records of `es`, applied by the client, apply `es`. */
  lemma {:induction false} WireReduces(u: Ui, es: seq<StreamEvent>)
    ensures ReduceLines(u, WireLines(es)) == ReduceEvents(u, es)
    decreases |es|
  {
    if es != [] {
      var init, e := es[..|es| - 1], es[|es| - 1];
      WireReduces(u, init);
      ReduceLinesAppend(u, WireLines(init), [DataLine(e), []]);
      RecordReduces(ReduceLines(u, WireLines(init)), e);
    }
  }

  /**
   * Whatever chunks the client reads the records of `es` in, it applies the
   * events of `es` in order and keeps nothing in its buffer.
   */
  lemma ChunkedRecordsReduce(u: Ui, es: seq<StreamEvent>, chunks: seq<string>)
    requires Concat(chunks) == Concat(Records(es))
    ensures ReduceLines(u, CompleteLines(Concat(chunks))) == ReduceEvents(u, es)
    ensures Fragment(Concat(chunks)) == []
  {
    RecordsLines(es);
    WireReduces(u, es);
  }

  /** `currentStage` after the partial images among `xs`: the last one's index plus one, or `stage` when there is none. */
  function StageAfter(stage: int, xs: seq<UpstreamEvent>): int
  {
    if xs == [] then stage
    else
      var x := xs[|xs| - 1];
      if x.PartialImage? then x.partialIndex + 1 else StageAfter(stage, xs[..|xs| - 1])
  }

  /** Relayed partial images move only the stage. */
  lemma {:induction false} PartialsMoveStage(u: Ui, xs: seq<UpstreamEvent>)
    ensures ReduceEvents(u, PartialEvents(xs)) == u.(stage := StageAfter(u.stage, xs))
    decreases |xs|
  {
    if xs != [] {
      var init, x := xs[..|xs| - 1], xs[|xs| - 1];
      PartialsMoveStage(u, init);
      if x.PartialImage? {
        ReduceEventsAppend(u, PartialEvents(init), [Partial(x.partialIndex, x.b64, None)]);
        assert [Partial(x.partialIndex, x.b64, None)][..0] == [];
      } else {
        assert PartialEvents(xs) == PartialEvents(init) + [];
        assert PartialEvents(init) + [] == PartialEvents(init);
        assert StageAfter(u.stage, xs) == StageAfter(u.stage, init);
      }
    }
  }

  lemma ReduceTwo(u: Ui, a: StreamEvent, b: StreamEvent)
    ensures ReduceEvents(u, [a, b]) == Reduce(Reduce(u, a), b)
  {
    ReduceOne(u, a);
    assert [a, b][..1] == [a];
  }

  lemma ReduceOne(u: Ui, a: StreamEvent)
    ensures ReduceEvents(u, [a]) == Reduce(u, a)
  {
    assert [a][..0] == [];
  }

  /**
   * The events of an accepted stream, applied to the page as `startGeneration`
   * leaves it: the button is enabled again and no session is known, with the
   * stage and container as the stream ended.
   */
  lemma RelayedReduce(u: Ui, up: Upstream)
    ensures var r := ReduceEvents(Started(u), Relayed(up));
      !r.busy && r.sessionId.None? && !r.downloadVisible &&
      (CompletedAt(up.events).Some? ==> r.containerVisible && r.stage == TotalStages) &&
      (CompletedAt(up.events).None? && up.ending.EndOfStream? ==> r.containerVisible && r.stage == StageAfter(0, up.events)) &&
      (CompletedAt(up.events).None? && up.ending.Throws? ==> r == Ui(0, None, false, false, false))
  {
    var s := Started(u);
    match CompletedAt(up.events)
    case Some(k) =>
      var pre := up.events[..k];
      var c := Completed(RetainAll(pre).image, None);
      ReduceEventsAppend(s, PartialEvents(pre), [c, Done]);
      PartialsMoveStage(s, pre);
      ReduceTwo(s.(stage := StageAfter(0, pre)), c, Done);
    case None =>
      var last := if up.ending.EndOfStream? then Done else Error(up.ending.message);
      ReduceEventsAppend(s, PartialEvents(up.events), [last]);
      PartialsMoveStage(s, up.events);
      ReduceOne(s.(stage := StageAfter(0, up.events)), last);
  }

  /**
   * A generation from a non-empty prompt whose stream is read to its end,
   * in any chunks: the relay accepts the prompt, the button is enabled again
   * and, since no record carries a session id, no session is known and the
   * download section stays hidden.  After a completion the image container
   * shows the last stage; after a normal end without one it shows the stage
   * of the last partial image; after an upstream failure the page is reset.
   */
  lemma GenerationEndToEnd(u: Ui, promptValue: string, up: Upstream, chunks: seq<string>)
    requires Trim(promptValue) != []
    requires Concat(chunks) == Concat(Records(Relayed(up)))
    ensures !Falsy(Some(Trim(promptValue)))
    ensures var r := Session(u, Stream(chunks, None));
      !r.busy && r.sessionId.None? && !r.downloadVisible &&
      (CompletedAt(up.events).Some? ==> r.containerVisible && r.stage == TotalStages) &&
      (CompletedAt(up.events).None? && up.ending.EndOfStream? ==> r.containerVisible && r.stage == StageAfter(0, up.events)) &&
      (CompletedAt(up.events).None? && up.ending.Throws? ==> r == Ui(0, None, false, false, false))
  {
    ChunkedRecordsReduce(Started(u), Relayed(up), chunks);
    RelayedReduce(u, up);
  }
}
